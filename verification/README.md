# Verified model of the agent's signing, execution and reporting core

GPUteer lends GPUs of private machines to jobs of other people. A node's agent receives signed
grants and leases, runs the workload (mostly in a container), and sends back a signed report.
This project models the parts in which a mistake would be silent: what gets signed, what a
container run may claim, what survives a crash, which files may be removed, and what the helper
threads may do beside the main one. Every statement is about all inputs, all answers of the
outside world, all interleavings or all crash points.

| modules | subject |
|---|---|
| `Varint`, `Wire`, `Utf8`, `Dictionary`, `Sorting` | wire form of the Protocol Buffers encoding (sections "Base 128 Varints" and "Length-Delimited Records") as the encoder writes it |
| `CanonicalEncoding`, `CanonicalTheorem`, `CanonicalLayout`, `CanonicalEncoder`, `SigningInput` | canonical encoding, its meaning, what its bytes read back as, the imperative encoder, the signing input |
| `Merkle` | bottom-up Merkle root against the recursive split of section 2.1 of RFC 6962 |
| `ContainerState`, `ContainerRuntime`, `ContainerRun` | the container runtime as an unreliable environment; one run; clean-up of left-overs |
| `OwnerStop`, `PauseControl`, `PauseResults` | the owner's stop beside the run thread; pause, resume and stop behind one lock; what their results tell |
| `AttemptProtocol` | journal, ledger, outbox and process from grant to delivered report, with a crash after any step |
| `Renewal` | grants, renewals and resumes against the durable fence watermark |
| `Retry`, `Text` | the reconnect loop and the rewriting of errors that decides whether it retries |
| `ReportOutbox`, `OutboxPath` | the directory of undelivered reports, and where it may lie |
| `StepName`, `Publisher`, `PublisherThread` | publishing checkpoint folders while the work runs and after it |
| `ProgressReader` | the counter that bounds reader threads |
| `VramLedger` | the allocation ledger of the VRAM shim |

Signatures are answers of a check (a flag on the message), hashes are free constructors, and the
SQLite stores are maps whose writes may report an error after they took effect. The schema table
is a parameter: the encoding theorems hold for every table with distinct field numbers. Crashes,
time-outs and other answers of the world are either events of a transition system or
nondeterministic choices inside the methods of `ContainerRuntime.Runtime`.

## What turned out not to hold as one would expect

- A report that cannot be *read* at a start-up is set aside as `.report.rejected` before anyone
  knows whose it is, so a transient read error also takes another node's report, or a sound one of
  this node, out of delivery (`ReportOutbox.ForeignReportStaysIff`, `ReportOutbox.OwnReportLeavesIff`,
  `ReportOutbox.ReadErrorQuarantinesForeign`).
- A finished attempt (report stored, removal confirmed) whose ledger row was still open at a crash
  is blocked at the next start-up exactly when its report cannot be reopened at that moment
  (`AttemptProtocol.FinishedBlockedIff`, `AttemptProtocol.FinishedCanBeBlocked`).
- `Running` may be recorded for a frozen container when a timed-out `pause` is applied after a later
  operation was confirmed - never while every operation has come back confirmed
  (`PauseControl.ConfirmedRecordsAreTrue`; the exact condition is `PauseResults.RecordSureIff`); a stop that cannot confirm its `unpause` leaves `Paused` recorded for a
  container that may run; and the run thread's own `kill` is sent without looking at the pause state
  (`PauseControl.LatePauseUnrecorded`, `PauseControl.StopLeavesPausedRecorded`, `PauseControl.RunThreadKillsFrozen`).
- Two checkpoint folders of one number block each other only if both entries can be read, and a
  step can be published twice, exactly across a panic of the publishing thread
  (`Publisher.ConflictNeedsReadableEntries`, `PublisherThread.PublishedTwiceIff`, `PublisherThread.PublishedTwiceRun`).
- A create that goes unanswered may take effect after the question for the name was answered
  "no such container": the run then says `Removed` of a container that comes to exist, created and
  never started (`ContainerRun.UnansweredCreateAppearsLater`).
- The shim adds to `used` in 64 bits without a check, so accounted use is exact only modulo 2^64;
  a wrapped sum can get past the limit, if a driver grants a request of almost 2^64 bytes (`VramLedger.ExactIffFits`, `VramLedger.WrapBreaksLimit`).
- `docs/protocol/signing.md` section 3 rule i-3 drops derived hashes at the top level only; the
  reference encoder drops the field name `manifest_hash` at every depth. The model follows the code.
  No schema of the reference table lists that field, so with that table the difference cannot be seen.

## Model

| member | source | states |
|---|---|---|
| Varint.EncodeVarint | tools/canonical/reference_canonical.py:32-44 | the loop yields the minimal seven-bit groups of every natural number and rejects negatives |
| Varint.EncodePrefixFree | tools/canonical/reference_canonical.py:32-44 | no encoding is a prefix of another, so what follows a varint is determined too |
| Varint.DecodeVarint | tools/canonical/reference_canonical.py:47-68 | accepts at any offset exactly the minimal encodings of the naturals below 2^70, and gives back that number and the position behind it |
| Varint.SignedInjective | tools/canonical/reference_canonical.py:665-670 | the encoding of signed 64-bit integers is injective |
| Varint.NegativeTakesTenBytes | tools/canonical/reference_canonical.py:665-670 | a signed 64-bit integer takes ten bytes exactly when it is negative, never more |
| Utf8.EncodeInjective | tools/canonical/reference_canonical.py:676-698 | different strings have different UTF-8 bytes |
| Utf8.DecodeEncoded | tools/canonical/reference_canonical.py:676-698 | a strict decoder by the table in section 3 of RFC 3629 reads the bytes of every string back |
| Dictionary.SortedIffSameMap | tools/canonical/reference_canonical.py:686-698 | the sorted entries of two maps are equal exactly when the maps are, whatever their insertion order |
| Wire.RecordPrefixFree | tools/canonical/reference_canonical.py:71-76 | a record is determined by the bytes it starts |
| Wire.FlattenInjective | tools/canonical/reference_canonical.py:71-76 | a byte string is the concatenation of at most one list of records |
| CanonicalTheorem.FieldIff | tools/canonical/reference_canonical.py:640-720 | the records of one field are equal exactly when its normalised values are |
| CanonicalTheorem.EmptyIff | tools/canonical/reference_canonical.py:700-708 | a message encodes to nothing exactly when nothing is left of it |
| CanonicalTheorem.CanonicalIffNormal | tools/canonical/reference_canonical.py:619-720 | for well-typed messages of one schema the encodings are equal exactly when the messages agree after dropping signatures and derived hashes at every depth, defaults, and single nested messages that become empty |
| CanonicalLayout.ReadFlatten | tools/canonical/reference_canonical.py:32-76 | a reader with the wire types 0 and 2 of the Protocol Buffers encoding, written apart from the encoder, reads every list of records back |
| CanonicalLayout.CanonicalReads | tools/canonical/reference_canonical.py:640-720 | canonical bytes read back as items whose field numbers never descend, each of a field of the schema; for every field they are exactly what its value calls for: nothing if excluded, absent or default, 1 for true, two's complement for negative numbers, one entry with key in field 1 and non-empty value in field 2 for each dict entry, keys ascending bytewise |
| CanonicalEncoder.CanonicalEncode | tools/canonical/reference_canonical.py:640-720 | the loop over sorted fields appends exactly the bytes of the specified records, which read back in ascending field number with every field as its value calls for |
| CanonicalEncoder.EncodeField | tools/canonical/reference_canonical.py:648-718 | one pass of the field loop appends the records of that field: map entries sorted, repeated messages in order with empty ones kept, an empty single message dropped |
| SigningInput.TagsDistinct | tools/canonical/reference_canonical.py:727-780 | all 32 padded domain tags exist and are pairwise different |
| SigningInput.SigInputParts | tools/canonical/reference_canonical.py:773-796 | a signing input exists exactly when version and length fit four bytes, and then holds the zero-padded tag in bytes 0 to 32, the version and the length as big-endian numbers in bytes 32 to 36 and 36 to 40, and the canonical bytes |
| SigningInput.SigInputInjective | tools/canonical/reference_canonical.py:783-796 | two signing inputs are equal exactly when type, schema version and canonical bytes are |
| SigningInput.SigInputIffSameMeaning | tools/canonical/reference_canonical.py:727-796 | two signing inputs are equal exactly when type, schema version and normalised content agree |
| Merkle.MerkleRoot | tools/canonical/reference_canonical.py:825-839 | the level-by-level loop ends and builds the tree of the recursive split at the largest power of two, for every non-empty list |
| Merkle.PairKeepsSplit | tools/canonical/reference_canonical.py:829-838 | pairing one level, with the odd node carried up, does not change the split tree |
| Merkle.SplitPointUnique | tools/canonical/reference_canonical.py:825-839 | the split point is the only power of two below n that is at least half of it |
| Merkle.RootDeterminesChunks | tools/canonical/reference_canonical.py:825-839 | the leaves of the root are the chunks in order, so under a collision-free hash the root determines the list |
| ContainerRuntime.RemovalsComeLast | crates/agent/src/container.rs:1247-1568 | in every justified log an `rm` to a container whose start may have reached the runtime comes after an answer "not running" or "absent" with no start in between, and after its logs were saved behind that answer |
| ContainerRuntime.AbsentMeans | crates/agent/src/container.rs:1152-1181 | the fact a result relies on is an inspect that answered absent after the last create |
| ContainerRuntime.ParseShown | crates/agent/src/container.rs:1816-1848 | what the runtime prints about a container is read back as its state; one that was only created is never read as an exit with code 0 |
| ContainerRuntime.ParsesIff | crates/agent/src/container.rs:1816-1848 | an answer is read as running exactly if its first word of at least three says so, and as an exit exactly if all four words are well-formed and the start time was set |
| ContainerRuntime.Runtime.InspectRunning | crates/agent/src/container.rs:443-461 | an answer tells the true state at that moment, and is logged as given; "absent" counts as not running |
| ContainerRuntime.Runtime.InspectExists | crates/agent/src/container.rs:1231-1245 | "no" is answered only for an absent container, also when asked by name; "yes" to a question by ID only for one that is there |
| ContainerRuntime.Runtime.InspectState | crates/agent/src/container.rs:1788-1848 | an exit read is the container's true exit, and "still running" is true too |
| ContainerRuntime.Runtime.Start | crates/agent/src/container.rs:1392-1419 | a start that was answered has nothing left pending; only an unanswered one may take effect later |
| ContainerRun.ConfirmStopped | crates/agent/src/container.rs:407-422 | exactly: "still running" up to nine times and then "not running" is success; the first unanswered question or the tenth "still running" ends it without |
| ContainerRun.StopAndConfirm | crates/agent/src/container.rs:391-400 | exactly what is sent: unless the first question is answered "not running" a kill follows, and then the confirming questions; success rests on an inspect, never on the answer of `kill` |
| ContainerRun.KillIsSent | crates/agent/src/container.rs:391-400 | a stop that was not over with its first question has sent a kill right behind it, whether it succeeded or not |
| ContainerRun.RemoveContainerFact | crates/agent/src/container.rs:1152-1181 | an `rm` and then one question by ID, and nothing else; Removed exactly if that was answered "absent"; may be called only when removal is justified |
| ContainerRun.RemoveLeftovers | crates/agent/src/container.rs:324-385 | every listed container is stopped in turn, then each confirmed one has its logs saved and, if they were, is removed; it succeeds exactly when every stop was confirmed and every container answered as gone |
| ContainerRun.Prepare | crates/agent/src/container.rs:1255-1391 | exactly what is sent before the start for every answer of the world, and the result it ends in; every early return is honest: no start was sent, and Removed is claimed only if create never reached the runtime or an inspect answered absent |
| ContainerRun.AfterFailedStart | crates/agent/src/container.rs:1420-1475 | an unanswered start is left alone and handed to the owner; an answered one is stopped, and then tidied if the stop was confirmed or else handed to the owner |
| ContainerRun.AfterStop | crates/agent/src/container.rs:1455-1475 | logs first, and the container is removed exactly when they were saved |
| ContainerRun.AfterLostSight | crates/agent/src/container.rs:1488-1531 | the container is stopped and its logs are asked for either way; it is removed exactly when the stop was confirmed and the logs were saved |
| ContainerRun.AfterExit | crates/agent/src/container.rs:1536-1567 | the reported exit is the container's own; logs first, and removal exactly when they were saved |
| ContainerRun.Watch | crates/agent/src/container.rs:1481-1535 | the looks at the running container end with the first exit read, which is the one reported, or with the fifth unanswered look in a row, never earlier |
| ContainerRun.Run | crates/agent/src/container.rs:1247-1568 | the whole log and the result are those of the source for every answer of the world; when nobody is needed the container is not running and nothing can start it; Removed means absent for good unless a create went unanswered; stopped, complete logs and exit codes are claimed only when true; the owner holds a stop handle for anything that may run |
| ContainerRun.UnansweredCreateAppearsLater | crates/agent/src/container.rs:1330-1353 | the edge of Removed: a create that goes unanswered, is truthfully not found, and takes effect after that |
| OwnerStop.StopVerdicts | crates/agent/src/container.rs:929-997 | in every interleaving, for every handle given out - also after an unanswered start or an unconfirmed stop - a stop succeeds only for exit 137 without OOM and only if its kill was spawned; it is unconfirmed only if nothing had been shared at its last look |
| OwnerStop.ObservedExitIsJudged | crates/agent/src/container.rs:1536-1547 | once the run thread has shared the exit, every stop under way is judged by it, also when the container is gone |
| OwnerStop.RemovedIsStillJudged | crates/agent/src/container.rs:981-990 | a stop that finds the container removed by a run thread which saw its exit judges that exit |
| OwnerStop.EveryLookJudges | crates/agent/src/container.rs:949-990 | an answered question about an exited container, and every look at a shared exit, decide the call at once: Ok for 137 without OOM, the exit itself otherwise |
| OwnerStop.UnconfirmedOnlyAfter | crates/agent/src/container.rs:949-996 | in every interleaving a stop is unconfirmed only after ten answers "still running", or after a question that went unanswered or met no container or one that had not started |
| OwnerStop.RemovedWhileAsking | crates/agent/src/container.rs:981-990 | a run in which the container is removed between the look and the question, and the second look still judges its exit |
| OwnerStop.LostSightIsUnconfirmed | crates/agent/src/container.rs:1488-1531 | a run in which the run thread lost sight and removed the exited container: the stop cannot tell how it ended |
| OwnerStop.StartsAfterTheStop | crates/agent/src/container.rs:1424-1443 | a run in which an unanswered start takes effect after the stop has come back unconfirmed |
| OwnerStop.ExitAfterTheLastLook | crates/agent/src/container.rs:973-996 | the edge of that promise: a run in which the exit comes right after the tenth "still running" and the stop is unconfirmed |
| PauseControl.RecordedIsTrue | crates/agent/src/exec.rs:416-463 | whenever no operation is under way, Running means not frozen and Paused means frozen or over, unless since that record was confirmed a command was applied late or a stop sent an unpause it could not confirm |
| PauseControl.ConfirmedRecordsAreTrue | crates/agent/src/exec.rs:446-463 | what a caller can check: as long as no operation has come back unconfirmed the record is true and never Unknown, and nothing is left to be applied late |
| PauseControl.AnsweredRecordsAreTrue | crates/agent/src/container.rs:871-923 | over every run in which each command took effect, if at all, before its answer, Running means not frozen, and Paused means frozen or over unless a stop sent an unpause it could not confirm |
| PauseControl.PauseComesTo | crates/agent/src/exec.rs:416-463 | a whole pause: nothing once a stop was asked for, with Paused recorded, or if its command does not spawn; otherwise Paused is recorded if the container answers as frozen and Unknown if not |
| PauseControl.ResumeComesTo | crates/agent/src/exec.rs:432-463 | a whole resume, likewise with Running and not frozen |
| PauseControl.StopComesTo | crates/agent/src/exec.rs:324-363 | a whole owner's stop sends an unpause first exactly when something else than Running is recorded, sends one kill whatever came of that, and records Running exactly on a confirmed thaw |
| PauseResults.RecordSureIff | crates/agent/src/exec.rs:416-463 | the exact condition in what callers know: the record is true in every run that has given the same results and goes on to rest with every operation confirmed, if and only if no pause was unconfirmed or confirmed over an unknown state, and no unpause unconfirmed save one a requested stop has made harmless |
| PauseResults.ResultsTellView | crates/agent/src/exec.rs:446-475 | runs with the same results have the same record, the same stop request and the same doubts |
| PauseResults.MirrorRun | crates/agent/src/container.rs:871-923 | for every run there is another with the same results in which each doubt is a command still pending on a living container |
| PauseResults.PendingPauseBreaksRecord | crates/agent/src/container.rs:871-923 | from every state at rest with a pause still pending on a living container some continuation, with every operation confirmed, ends with Running recorded and the container frozen |
| PauseResults.PendingUnpauseBreaksRecord | crates/agent/src/container.rs:871-923 | the same for a pending unpause and a record of Paused, as long as Paused is recorded or a pause would still be carried out |
| PauseControl.OwnerKillsThawFirst | crates/agent/src/exec.rs:324-355 | the owner's kill goes out only with Running recorded or after an unpause was tried |
| PauseControl.RecordAtRiskIff | crates/agent/src/container.rs:871-923 | with nobody acting, a true record can become untrue exactly when a command of the other kind is still pending on a living container |
| PauseControl.LatePauseUnrecorded | crates/agent/src/exec.rs:432-463 | a run that ends with Running recorded and the container frozen |
| PauseControl.StopLeavesPausedRecorded | crates/agent/src/exec.rs:337-355 | a run that ends with Paused recorded and the container running |
| PauseControl.RunThreadKillsFrozen | crates/agent/src/container.rs:391-400 | a run in which the run thread's kill meets a frozen container |
| AttemptProtocol.LaunchedAtMostOnce | crates/agent/src/lib.rs:450-480 | over re-grants, reconnects, crashes and restarts each attempt is launched at most once |
| AttemptProtocol.RowsAreKept | crates/agent/src/run_ledger.rs:981-1030 | over every run a row is never rewritten: its executor stays, a removal on record stays, a closed row stays closed for its reason, and only a human lifts a block |
| AttemptProtocol.OutOfTurn | crates/agent/src/lib.rs:1552-1899 | the steps of a run are taken in the order of the source only; in any other stage a step changes nothing |
| AttemptProtocol.OnlyWhenPossible | crates/agent/src/lib.rs:3904-4015 | an event at any time but its own changes nothing: rows are resolved and work is opened during start-up only, reports flushed and grants taken when idle only |
| AttemptProtocol.FlushDelivers | crates/agent/src/lib.rs:3180-3236 | a delivered report leaves the outbox, and nothing else of the attempt or any other changes |
| AttemptProtocol.ClosedWithoutHuman | crates/agent/src/lib.rs:1743-1771 | a ledger row is closed without a human only if the attempt never started, ran on the host, or has its report stored and its container's absence confirmed |
| AttemptProtocol.StartUpAccountsForAll | crates/agent/src/lib.rs:3904-4015 | a start-up takes work only when everything ever launched on the root did not start after all, ran on the host, left a stored report and a container confirmed gone, or was cleared by a human |
| AttemptProtocol.ResolveIff | crates/agent/src/lib.rs:3941-4015 | an open row is blocked exactly when it is a container's, journaled, and not both its report reopens and its removal is on record; otherwise it is closed as not journaled, a host restart, or reported, and nothing else changes |
| AttemptProtocol.StartUpTakesWorkIff | crates/agent/src/lib.rs:3926-4015 | a start-up that has gone through every row takes work exactly when no row was blocked before and none had to be blocked now |
| AttemptProtocol.UnsettledRefusesWork | crates/agent/src/lib.rs:3941-4015 | any other started container attempt makes every later start-up refuse work until a human clears it |
| AttemptProtocol.FinishedBlockedIff | crates/agent/src/lib.rs:3974-3990 | at start-up a finished attempt is blocked exactly when its report does not reopen |
| AttemptProtocol.FinishedCanBeBlocked | crates/agent/src/lib.rs:1874-1899 | a run that gets there: a crash between storing the report and closing the row, then a start-up that cannot reopen the report |
| AttemptProtocol.FinishedStaysFinished | crates/agent/src/lib.rs:1874-1899 | nothing else - crash, restart, failing write, or a report that is gone once its row is closed - turns a finished attempt into a blocked one |
| AttemptProtocol.LaunchedContainerCases | crates/agent/src/lib.rs:1552-1604 | after any crash a launched container attempt is closed for a true reason, finished, or one that refuses work |
| AttemptProtocol.UndisturbedRun | crates/agent/src/lib.rs:1552-1899 | from any idle state, a new attempt whose every step succeeds is launched once and ends with its row closed, blocked or - on the host - open as the outcome demands, its report waiting exactly until it is acknowledged |
| AttemptProtocol.JournalFailureSettles | crates/agent/src/lib.rs:1552-1604 | when the journal cannot be written the row is closed as not started and the attempt is given up without a launch |
| AttemptProtocol.GiveUpIff | crates/agent/src/lib.rs:1104-1113 | an error behind the launch never leads to another connection; one before it may |
| AttemptProtocol.ClosesIff | crates/agent/src/run_ledger.rs:981-1010 | the ledger closes an open row exactly if a container's is not closed as a host restart, nor as reported without a removal on record |
| AttemptProtocol.ClearedOnlyByHand | crates/agent/src/run_ledger.rs:1014-1030 | a blocked row is cleared only with no process on the root, and only that row changes |
| AttemptProtocol.OutcomeIsTrue | crates/agent/src/exec.rs:768-853 | the outcome the ledger acts on follows from an honest container run: "did not start" means no start reached the runtime, "gone" means the container is absent and nothing can bring it back; which results lead to which outcome is stated both ways |
| Renewal.FenceWatermark.CheckAndAdvance | crates/runtime-policy/src/durable_lease_scope.rs:132-178 | with a working database an epoch is accepted exactly when it is not below the recorded one; an accepted epoch is recorded, a stale one changes nothing, and no watermark ever drops, also when the database fails before or after writing |
| Renewal.VerifyRenewResult | crates/agent/src/lib.rs:2329-2410 | accepts only the verified lease of the answer to this request with the held lease, job and attempt and no higher epoch; each refusing outcome keeps its own reason, and the reason given for a refusal is true |
| Renewal.VerifyAndRecordLease | crates/agent/src/lib.rs:3486-3530 | a grant's lease is recorded only after signature, attempt, issuer, holder and job have been checked; a failed signature decides before anything the lease says, a refusal before the watermark leaves it untouched, and the reason given is true |
| Renewal.VerifyResume | crates/agent/src/lib.rs:958-1023 | a resumed lease must repeat the request's identity and epoch and pass the watermark |
| Renewal.RenewalChains | crates/agent/src/lib.rs:2386-2402 | over every run, a held lease keeps the lease, job, attempt and epoch first granted, and accepted epochs of a job never decrease |
| Renewal.RenewalAcceptedIff | crates/agent/src/lib.rs:2389-2402 | a renewal is accepted exactly when it matches, repeats the held epoch and nobody has passed it |
| Renewal.GrantAcceptedIff | crates/agent/src/lib.rs:3486-3530 | a grant's lease is accepted exactly when it passes its checks and its epoch is not below the recorded one |
| Renewal.OvertakenNeverRenews | crates/agent/src/lib.rs:2398-2402 | once a higher epoch of the job is recorded, the holder of a lower one never renews again |
| Retry.NotRetriedIsFatal | crates/agent/src/lib.rs:1104-1113 | for every error string, the rewritten error classifies as fatal |
| Retry.Run | crates/agent/src/lib.rs:806-879 | at most one connection attempts to execute the workload, and it is the last; the loop goes on exactly while connections fail with a retryable error, or an ambiguous one with recovery on, attempts are left and the budget lasts; the result is that of the last connection |
| Text.ReplaceRemoves | crates/agent/src/lib.rs:1104-1113 | left-to-right replacement leaves no occurrence of a marker its replacement breaks, also across the seams |
| ReportOutbox.VerifyReportAck | crates/agent/src/lib.rs:3137-3172 | an ack passes exactly when session, coordinator, job, attempt, node, epoch and the recomputed hash all match; the reason given otherwise is the first thing that differs |
| ReportOutbox.Outbox.Persist | crates/agent/src/lib.rs:2941-2978 | success means the report lies under its own hash and can be opened again; no other name is touched, however far a failing write got |
| ReportOutbox.Outbox.Deliver | crates/agent/src/lib.rs:3017-3060 | the file goes exactly when the first answered session carried a matching ack and removal worked |
| ReportOutbox.Outbox.Flush | crates/agent/src/lib.rs:3180-3236 | one start's pass over a directory listing |
| ReportOutbox.FlushIsPerFile | crates/agent/src/lib.rs:3200-3236 | what happens to a report does not depend on the other files or their order |
| ReportOutbox.OwnReportLeavesIff | crates/agent/src/lib.rs:3205-3263 | a sound own report is removed exactly on a matching answer, set aside exactly when it cannot be read and renaming works, and otherwise nothing changes |
| ReportOutbox.UnacceptableIsSetAside | crates/agent/src/lib.rs:3213-3266 | an undecodable file, or an own report with a bad signature or broken rules, is set aside under the rejected name with its content and never sent; a missing one is passed over |
| ReportOutbox.ForeignReportStaysIff | crates/agent/src/lib.rs:3206-3226 | another node's report stays untouched exactly unless reading it fails and renaming works |
| ReportOutbox.QuarantineKeepsBytes | crates/agent/src/lib.rs:3213-3225 | whatever leaves the outbox without a matching ack keeps its bytes under the rejected name |
| ReportOutbox.LeavesOnlyAcknowledged | crates/agent/src/lib.rs:3017-3060 | over any history of writes, deliveries, crashes and restarts a stored report is gone only after a matching ack or a start that could not read it |
| ReportOutbox.AcknowledgedLeaves | crates/agent/src/lib.rs:3017-3060 | a report whose delivery is answered by a matching ack is gone, with nothing else touched |
| ReportOutbox.ForeignUntouched | crates/agent/src/lib.rs:3205-3212 | over any history in which it can be read, another node's report is never touched |
| ReportOutbox.ReadErrorQuarantinesForeign | crates/agent/src/lib.rs:3213-3225 | one failed read takes another node's report out of delivery for good |
| OutboxPath.ReportOutboxDir | crates/agent/src/lib.rs:2839-2929 | the walk accepts exactly the paths whose every name is appended outside both roots, is no link, and that end outside both roots; the reason given for a refusal is true |
| OutboxPath.AcceptedIsImmune | crates/agent/src/lib.rs:2876-2928 | an accepted path leads to the same directory after any deletions strictly inside the roots, and no file put there can be deleted |
| OutboxPath.AcceptedIffImmune | crates/agent/src/lib.rs:2876-2928 | for paths without links the walk accepts exactly the immune ones |
| OutboxPath.LinksAreRefused | crates/agent/src/lib.rs:2900-2915 | a path with a link among its names is refused wherever the link leads |
| OutboxPath.UpThroughRootAccepted | crates/agent/src/lib.rs:2876-2928 | with both roots in place, going up through a root itself is accepted |
| OutboxPath.LinkWouldNotBeImmune | crates/agent/src/lib.rs:2900-2915 | why links are refused: one that looks harmless at every prefix is broken by one deletion |
| StepName.SameStepIff | crates/agent/src/checkpoint_publisher.rs:58-66 | two step folders carry the same number exactly when their digits differ in leading zeros only |
| StepName.StepOfIff | crates/agent/src/checkpoint_publisher.rs:58-66 | a folder is step n exactly when its name is `step-`, any zeros, and n printed in decimal, with n below 2^64 |
| Publisher.PublishesIff | crates/agent/src/checkpoint_publisher.rs:107-176 | a scan publishes a folder exactly when it is the only readable one of an unpublished step, looks as remembered if the scan waits, and publishing works |
| Publisher.EveryPublicationJustified | crates/agent/src/checkpoint_publisher.rs:107-176 | over every sequence of scans each step is published at most once, each time by a scan that allowed it |
| Publisher.SeenIsLastLook | crates/agent/src/checkpoint_publisher.rs:149-159 | what the memory holds for an unpublished step is the last look taken at its lone folder |
| Publisher.PublishedIffUnchanged | crates/agent/src/checkpoint_publisher.rs:149-176 | during execution a folder is published exactly when it looks as it did at the last look |
| Publisher.ConflictNeedsReadableEntries | crates/agent/src/checkpoint_publisher.rs:107-176 | for every directory, memory and scan: a folder is published exactly when its step is not yet, the memory allows it, and it can be read while no other folder of its number can |
| PublisherThread.PublishState.PublishReadySteps | crates/agent/src/checkpoint_publisher.rs:104-176 | the in-place scan computes the specified memory and log |
| PublisherThread.PublishState.Finish | crates/agent/src/checkpoint_publisher.rs:253-303 | at most six scans; it goes on exactly as long as something is left, and after the last reports each step left or that the listing failed |
| PublisherThread.EveryStepAccountedFor | crates/agent/src/checkpoint_publisher.rs:277-329 | each step of the final listing is published or reported lost, never both, unless the listing failed and that is reported |
| PublisherThread.NoPanicAtMostOnce | crates/agent/src/checkpoint_publisher.rs:107-176 | without a panic each step is published at most once |
| PublisherThread.TwiceNeedsPanic | crates/agent/src/checkpoint_publisher.rs:253-263 | between two publications of one step there is always a panic of the scanning thread |
| PublisherThread.PublishedTwiceIff | crates/agent/src/checkpoint_publisher.rs:205-303 | the exact boundary over every run the publisher can make: a step is published twice exactly when the thread had published it, then panicked, and some scan of the finish shows one folder of the step that can be published |
| PublisherThread.PanicPublishesAgain | crates/agent/src/checkpoint_publisher.rs:253-303 | after the panic a scan of the finish publishes a folder exactly when it stands alone and publishing works, published before or not |
| PublisherThread.PublishedTwiceRun | crates/agent/src/checkpoint_publisher.rs:205-303 | such a run: the thread looks twice at a folder that does not change, publishes it and panics, and the first scan of the finish publishes it again |
| ProgressReader.StepKeeps | crates/agent/src/progress.rs:175-221 | every step of any thread keeps the balance of the counter |
| ProgressReader.ReadersBounded | crates/agent/src/progress.rs:175-221 | in every interleaving the counter equals live readers plus callers about to back off, at most four readers live, and it is zero once all are done; a result is returned only if the reader sent one, and "malformed" only if none ran or it ended without |
| ProgressReader.AdmittedCall | crates/agent/src/progress.rs:175-221 | a call that finds fewer than four in flight delivers what its reader sends in time, reports a reader that ended without a result as malformed and a late one as timed out, and leaves the counter as it was |
| ProgressReader.RefusedCall | crates/agent/src/progress.rs:182-185 | a call that finds four in flight times out at once, without a reader, and leaves the counter as it was |
| ProgressReader.UnspawnedCall | crates/agent/src/progress.rs:201-205 | a call whose reader cannot be spawned says so and leaves the counter as it was |
| VramLedger.Shim.Alloc | scripts/vram_interception_probe/vramshim.c:60-87 | over the limit CUDA's error 2 and nothing changes; otherwise the driver's answer, a block in the table up to 4096 and dropped bytes beyond, and the peak |
| VramLedger.Shim.Free | scripts/vram_interception_probe/vramshim.c:89-108 | the linear search and swap-remove take exactly one block out of the table |
| VramLedger.RunAccounted | scripts/vram_interception_probe/vramshim.c:43-108 | over every run live pointers stay distinct and used equals table plus dropped bytes modulo 2^64 |
| VramLedger.RunPeakWithinLimit | scripts/vram_interception_probe/vramshim.c:60-87 | with a limit set the peak never exceeds it |
| VramLedger.RunWithinLimit | scripts/vram_interception_probe/vramshim.c:43-108 | while the true sum fits 64 bits, used is exact, at most the peak, and within the limit |
| VramLedger.ExactIffFits | scripts/vram_interception_probe/vramshim.c:60-87 | the accounted use is the true sum exactly when that sum fits 64 bits |
| VramLedger.WrapBreaksLimit | scripts/vram_interception_probe/vramshim.c:51-87 | with a limit of one MiB, a run whose wrapped sum leaves more accounted than the limit allows |

## Left out

- ContainerRun.Run: follows the running container for any given number of looks and then stops without a result, because the source's loop has no bound; everything stated holds for every number.
- ContainerRun.Prepare: image pull, GPU count, argument building and owner label are inputs; whether the printed ID names this attempt's container is one answer, taken to be truthful.
- ContainerRun.RemoveLeftovers: a start of a dead process that is still pending is not excluded, so after it only the order of answers, logs and removal is stated, not that nothing can run.
- Renewal.VerifyAndRecordLease: tells a missing lease, a failed signature, a stale epoch and a failed database apart; which of the remaining mismatches is reported first is not stated.
- Renewal.VerifyResume: the refusal texts of the resume outcomes are one reason carrying the outcome.
- Retry.Run: back-off times, jitter and the numbering of connections; only whether the budget has run out is an input, and the start without reconnecting makes one connection only.
- ReportOutbox.Outbox.Flush: the order of names in the directory, since no property depends on it; a power cut that undoes a rename whose directory was never synced.
- OutboxPath.ReportOutboxDir: creating the directories, mount aliases, Windows prefixes and junctions; the walk is over a file system that does not change meanwhile.
- Publisher.PublishesIff: what publishing one folder writes to the shared store; it is one answer per folder.
- AttemptProtocol.LaunchedAtMostOnce: agents that do not require acknowledgement receipts, whose starts are not journaled.
- AttemptProtocol.UnsettledRefusesWork: incident marker files, which refuse work in addition to the ledger; legacy rows and turning the ledger on for an old root.
- OwnerStop.StopVerdicts: a workload that ends with 137 by itself just when it is stopped cannot be told apart from the stop, as in the source.
- CanonicalTheorem.CanonicalIffNormal: ill-typed values make the reference encoder raise an exception; the model gives them no records and states nothing about them.
- TCP, framing, Ed25519, BLAKE3, SQLite and key parsing: foreign code.
- Process spawning, pipes, wall-clock time, Job Objects, cgroups and NVML: only their possible answers appear.
- Host workloads' pause through cgroups: the same lock and record, with a different command.
- Contents of the progress file and its parser, owner panel, command line, log lines and error wording apart from the retry markers.
- `create_args`, `decide`, `gpu_args` and `preflight`: each is settled by reading one branch.
- Driver memory of the VRAM shim: the real free runs after the lock is released, so only accounted use is bounded.
