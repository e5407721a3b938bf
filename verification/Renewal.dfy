/**
 Leases and fences. A grant, a resume and a renewal each carry a signed lease; accepting one
 records its fence epoch in a durable watermark kept per job. Signature checks are a flag on
 the lease; the database may fail before or after it wrote.
 */
module Renewal {
  import opened Common

  datatype Lease = Lease(
    schemaVersion: nat, leaseId: string, jobId: string, attemptId: string,
    issuingCoordinatorId: string, holderNodeId: string, fenceEpoch: nat, reassignmentGraceMs: nat)

  /** A lease as received: `verified` is the answer of the signature check. */
  datatype SignedLease = SignedLease(lease: Lease, verified: bool)

  datatype Config = Config(coordinatorDeviceId: string, agentDeviceId: string)

  datatype Grant = Grant(attemptId: string, coordinatorDeviceId: string, lease: Option<SignedLease>)

  datatype RenewResult = RenewResult(requestNonce: bytes, coordinatorId: string, outcome: int,
      lease: Option<SignedLease>)

  datatype ResumeRequest = ResumeRequest(leaseId: string, jobId: string, attemptId: string, fenceEpoch: nat,
      requestNonce: bytes)

  datatype Refusal =
    | NonceMismatch | WrongCoordinator | MissingLease | BadSignature | MisplacedGrace
    | WrongLease | WrongJob | WrongAttempt | WrongIssuer | WrongHolder | EmptyJob
    | EpochRaised | StaleEpoch | StorageFailed
    | Superseded | Quarantined | MaxDurationExceeded | Revoked | UnknownOutcome
    | IdentityMismatch | NotResumed(outcome: int)

  datatype Verdict = Accepted(lease: Lease) | Refused(why: Refusal)

  const GRACE_MIN_SCHEMA_VERSION: int := 2

  predicate MisplacedReassignmentGrace(lease: Lease)
  {
    lease.reassignmentGraceMs != 0 && lease.schemaVersion < GRACE_MIN_SCHEMA_VERSION
  }

  // ---------------------------------------------------------------- the watermark

  /** What the database does during one check: `FailsLate` errors after the write took effect. */
  datatype Storage = Works | FailsEarly | FailsLate

  type Watermarks = map<string, nat>

  function Seen(marks: Watermarks, job: string): (epoch: nat)
  {
    if job in marks then marks[job] else 0
  }

  function CheckError(marks: Watermarks, job: string, epoch: nat, storage: Storage): (r: Option<Refusal>)
  {
    if storage.FailsEarly? then Some(StorageFailed)
    else if epoch < Seen(marks, job) then Some(StaleEpoch)
    else if storage.FailsLate? then Some(StorageFailed)
    else None
  }

  function Advance(marks: Watermarks, job: string, epoch: nat, storage: Storage): (r: Watermarks)
  {
    if storage.FailsEarly? || epoch < Seen(marks, job) then marks else marks[job := epoch]
  }

  /** The durable watermark store; its state outlives the process. */
  class FenceWatermark {
    var marks: Watermarks

    constructor (stored: Watermarks)
      ensures marks == stored
    {
      marks := stored;
    }

    method CheckAndAdvance(job: string, epoch: nat, storage: Storage) returns (error: Option<Refusal>)
      modifies this
      ensures error == CheckError(old(marks), job, epoch, storage)
      ensures marks == Advance(old(marks), job, epoch, storage)
      // With a working database an epoch is accepted exactly when it is not below what was seen.
      ensures storage.Works? ==> (error.None? <==> job !in old(marks) || old(marks)[job] <= epoch)
      ensures error.None? ==> marks == old(marks)[job := epoch]
      ensures error == Some(StaleEpoch) ==> job in old(marks) && epoch < old(marks)[job] && marks == old(marks)
      ensures error.Some? && error != Some(StaleEpoch) ==> error == Some(StorageFailed) && !storage.Works?
      ensures forall j :: Seen(old(marks), j) <= Seen(marks, j)
    {
      if storage.FailsEarly? {
        return Some(StorageFailed);
      }
      var watermark := if job in marks then marks[job] else 0;
      if epoch < watermark {
        return Some(StaleEpoch);
      }
      marks := marks[job := epoch];
      if storage.FailsLate? {
        return Some(StorageFailed);
      }
      return None;
    }
  }

  // ---------------------------------------------------------------- the three checks

  /** What a renewed lease must satisfy before the watermark is asked. */
  predicate RenewalMatches(result: RenewResult, nonce: bytes, held: Lease, config: Config)
  {
    && result.requestNonce == nonce
    && result.coordinatorId == config.coordinatorDeviceId
    && result.outcome == 1
    && result.lease.Some?
    && result.lease.value.verified
    && var l := result.lease.value.lease;
    && !MisplacedReassignmentGrace(l)
    && l.leaseId == held.leaseId
    && l.jobId == held.jobId
    && l.attemptId == held.attemptId
    && l.issuingCoordinatorId == config.coordinatorDeviceId
    && l.holderNodeId == config.agentDeviceId
    && l.fenceEpoch <= held.fenceEpoch
  }

  predicate GrantMatches(grant: Grant, config: Config)
  {
    && grant.lease.Some?
    && grant.lease.value.verified
    && var l := grant.lease.value.lease;
    && !MisplacedReassignmentGrace(l)
    && l.attemptId == grant.attemptId
    && l.issuingCoordinatorId == grant.coordinatorDeviceId
    && l.holderNodeId == config.agentDeviceId
    && l.jobId != ""
  }

  predicate ResumeMatches(result: RenewResult, request: ResumeRequest, config: Config)
  {
    && result.requestNonce == request.requestNonce
    && result.coordinatorId == config.coordinatorDeviceId
    && result.outcome == 1
    && result.lease.Some?
    && result.lease.value.verified
    && var l := result.lease.value.lease;
    && !MisplacedReassignmentGrace(l)
    && l.leaseId == request.leaseId
    && l.jobId == request.jobId
    && l.attemptId == request.attemptId
    && l.holderNodeId == config.agentDeviceId
    && l.fenceEpoch == request.fenceEpoch
  }

  /** A message that passed its checks, against the watermark. */
  ghost predicate Settled(matches: bool, lease: Option<SignedLease>, storage: Storage,
                          before: Watermarks, verdict: Verdict, after: Watermarks)
  {
    if matches && lease.Some? then
      var l := lease.value.lease;
      && after == Advance(before, l.jobId, l.fenceEpoch, storage)
      && verdict == match CheckError(before, l.jobId, l.fenceEpoch, storage)
                    case Some(why) => Refused(why)
                    case None => Accepted(l)
    else
      // The watermark is not touched, and a signature that fails decides before anything the lease says.
      && after == before
      && verdict.Refused? && verdict.why !in {StaleEpoch, StorageFailed}
      && (verdict.why == BadSignature ==> lease.Some? && !lease.value.verified)
  }

  /** What is wrong with a lease that was refused for `why`; the other reasons do not speak about the lease. */
  ghost predicate LeaseFault(why: Refusal, lease: Option<SignedLease>, leaseId: string, jobId: string,
                             attemptId: string, issuer: string, holder: string)
  {
    match why
    case MissingLease => lease.None?
    case BadSignature => lease.Some? && !lease.value.verified
    case MisplacedGrace =>
      lease.Some? && lease.value.lease.reassignmentGraceMs > 0 && lease.value.lease.schemaVersion < 2
    case WrongLease => lease.Some? && lease.value.lease.leaseId != leaseId
    case WrongJob => lease.Some? && lease.value.lease.jobId != jobId
    case WrongAttempt => lease.Some? && lease.value.lease.attemptId != attemptId
    case WrongIssuer => lease.Some? && lease.value.lease.issuingCoordinatorId != issuer
    case WrongHolder => lease.Some? && lease.value.lease.holderNodeId != holder
    case EmptyJob => lease.Some? && lease.value.lease.jobId == ""
    case _ => true
  }

  method VerifyRenewResult(result: RenewResult, nonce: bytes, held: Lease, config: Config,
                           watermark: FenceWatermark, storage: Storage)
    returns (verdict: Verdict)
    modifies watermark
    ensures Settled(RenewalMatches(result, nonce, held, config), result.lease, storage,
                    old(watermark.marks), verdict, watermark.marks)
    ensures result.requestNonce == nonce && result.coordinatorId == config.coordinatorDeviceId
            ==> match result.outcome
                case 2 => verdict == Refused(Superseded)
                case 3 => verdict == Refused(Quarantined)
                case 6 => verdict == Refused(MaxDurationExceeded)
                case 8 => verdict == Refused(Revoked)
                case 1 => verdict != Refused(UnknownOutcome)
                case _ => verdict == Refused(UnknownOutcome)
    // The reason given for a refusal is true.
    ensures verdict.Refused? ==>
              && (verdict.why == NonceMismatch <==> result.requestNonce != nonce)
              && (verdict.why == WrongCoordinator ==> result.coordinatorId != config.coordinatorDeviceId)
              && LeaseFault(verdict.why, result.lease, held.leaseId, held.jobId, held.attemptId,
                            config.coordinatorDeviceId, config.agentDeviceId)
              && (verdict.why == EpochRaised ==>
                    result.lease.Some? && result.lease.value.lease.fenceEpoch > held.fenceEpoch)
              && verdict.why != EmptyJob && verdict.why != IdentityMismatch && !verdict.why.NotResumed?
  {
    if result.requestNonce != nonce { return Refused(NonceMismatch); }
    if result.coordinatorId != config.coordinatorDeviceId { return Refused(WrongCoordinator); }
    match result.outcome {
      case 1 =>
        if result.lease.None? { return Refused(MissingLease); }
        if !result.lease.value.verified { return Refused(BadSignature); }
        var lease := result.lease.value.lease;
        if MisplacedReassignmentGrace(lease) { return Refused(MisplacedGrace); }
        if lease.leaseId != held.leaseId { return Refused(WrongLease); }
        if lease.jobId != held.jobId { return Refused(WrongJob); }
        if lease.attemptId != held.attemptId { return Refused(WrongAttempt); }
        if lease.issuingCoordinatorId != config.coordinatorDeviceId { return Refused(WrongIssuer); }
        if lease.holderNodeId != config.agentDeviceId { return Refused(WrongHolder); }
        if lease.fenceEpoch > held.fenceEpoch { return Refused(EpochRaised); }
        var error := watermark.CheckAndAdvance(lease.jobId, lease.fenceEpoch, storage);
        if error.Some? { return Refused(error.value); }
        return Accepted(lease);
      case 2 => return Refused(Superseded);
      case 3 => return Refused(Quarantined);
      case 6 => return Refused(MaxDurationExceeded);
      case 8 => return Refused(Revoked);
      case _ => return Refused(UnknownOutcome);
    }
  }

  method VerifyAndRecordLease(grant: Grant, config: Config, watermark: FenceWatermark, storage: Storage)
    returns (verdict: Verdict)
    modifies watermark
    ensures Settled(GrantMatches(grant, config), grant.lease, storage, old(watermark.marks), verdict, watermark.marks)
    ensures grant.lease.None? <==> verdict == Refused(MissingLease)
    ensures grant.lease.Some? && !grant.lease.value.verified <==> verdict == Refused(BadSignature)
    ensures verdict.Refused? ==>
              && verdict.why in {MissingLease, BadSignature, MisplacedGrace, WrongAttempt, WrongIssuer, WrongHolder,
                                 EmptyJob, StaleEpoch, StorageFailed}
              && LeaseFault(verdict.why, grant.lease, "", "", grant.attemptId, grant.coordinatorDeviceId,
                            config.agentDeviceId)
  {
    if grant.lease.None? { return Refused(MissingLease); }
    if !grant.lease.value.verified { return Refused(BadSignature); }
    var lease := grant.lease.value.lease;
    if MisplacedReassignmentGrace(lease) { return Refused(MisplacedGrace); }
    if lease.attemptId != grant.attemptId { return Refused(WrongAttempt); }
    if lease.issuingCoordinatorId != grant.coordinatorDeviceId { return Refused(WrongIssuer); }
    if lease.holderNodeId != config.agentDeviceId { return Refused(WrongHolder); }
    if lease.jobId == "" { return Refused(EmptyJob); }
    var error := watermark.CheckAndAdvance(lease.jobId, lease.fenceEpoch, storage);
    if error.Some? { return Refused(error.value); }
    return Accepted(lease);
  }

  method VerifyResume(result: RenewResult, request: ResumeRequest, config: Config,
                      watermark: FenceWatermark, storage: Storage)
    returns (verdict: Verdict)
    modifies watermark
    ensures Settled(ResumeMatches(result, request, config), result.lease, storage,
                    old(watermark.marks), verdict, watermark.marks)
    ensures verdict == Refused(NotResumed(result.outcome)) <==>
              && result.requestNonce == request.requestNonce && result.coordinatorId == config.coordinatorDeviceId
              && result.outcome != 1
    ensures verdict.Refused? ==>
              && (verdict.why == NonceMismatch <==> result.requestNonce != request.requestNonce)
              && (verdict.why == WrongCoordinator ==> result.coordinatorId != config.coordinatorDeviceId)
              && (verdict.why.NotResumed? ==> result.outcome != 1)
              && verdict.why !in {WrongLease, WrongJob, WrongAttempt, WrongIssuer, WrongHolder, EmptyJob}
              && LeaseFault(verdict.why, result.lease, "", "", "", "", "")
  {
    if result.requestNonce != request.requestNonce { return Refused(NonceMismatch); }
    if result.coordinatorId != config.coordinatorDeviceId { return Refused(WrongCoordinator); }
    if result.outcome != 1 { return Refused(NotResumed(result.outcome)); }
    if result.lease.None? { return Refused(MissingLease); }
    if !result.lease.value.verified { return Refused(BadSignature); }
    var lease := result.lease.value.lease;
    if MisplacedReassignmentGrace(lease) { return Refused(MisplacedGrace); }
    if lease.leaseId != request.leaseId || lease.jobId != request.jobId || lease.attemptId != request.attemptId
       || lease.holderNodeId != config.agentDeviceId || lease.fenceEpoch != request.fenceEpoch {
      return Refused(IdentityMismatch);
    }
    var error := watermark.CheckAndAdvance(lease.jobId, lease.fenceEpoch, storage);
    if error.Some? { return Refused(error.value); }
    return Accepted(lease);
  }

  // ---------------------------------------------------------------- runs

  /** A connection that accepted `origin` from its grant and now holds `held`. */
  datatype Session = Session(origin: Lease, held: Lease)

  datatype Acceptance = Acceptance(job: string, epoch: nat)

  /** The watermark is durable, the sessions are not; `accepted` is the history of accepted epochs. */
  datatype State = State(marks: Watermarks, sessions: map<nat, Session>, accepted: seq<Acceptance>)

  datatype Event =
    | Granted(id: nat, grant: Grant, storage: Storage)
    | Renewed(id: nat, result: RenewResult, nonce: bytes, storage: Storage)
    | Resumed(result: RenewResult, request: ResumeRequest, storage: Storage)
    | Ended(id: nat)
    | Crashed

  ghost predicate Records(s: State, verdict: Verdict, t: State)
  {
    t.accepted == match verdict
                  case Accepted(l) => s.accepted + [Acceptance(l.jobId, l.fenceEpoch)]
                  case Refused(_) => s.accepted
  }

  /** One event; the verdict is the one the verifying method reaches on these marks. */
  ghost predicate Next(s: State, e: Event, verdict: Verdict, config: Config, t: State)
  {
    match e
    case Granted(id, grant, storage) =>
      && id !in s.sessions
      && Settled(GrantMatches(grant, config), grant.lease, storage, s.marks, verdict, t.marks)
      && Records(s, verdict, t)
      && t.sessions == (match verdict
                        case Accepted(l) => s.sessions[id := Session(l, l)]
                        case Refused(_) => s.sessions)
    case Renewed(id, result, nonce, storage) =>
      && id in s.sessions
      && Settled(RenewalMatches(result, nonce, s.sessions[id].held, config), result.lease, storage,
                 s.marks, verdict, t.marks)
      && Records(s, verdict, t)
      && t.sessions == (match verdict
                        case Accepted(l) => s.sessions[id := s.sessions[id].(held := l)]
                        case Refused(_) => s.sessions)
    case Resumed(result, request, storage) =>
      && Settled(ResumeMatches(result, request, config), result.lease, storage, s.marks, verdict, t.marks)
      && Records(s, verdict, t)
      && t.sessions == s.sessions
    case Ended(id) =>
      t == s.(sessions := s.sessions - {id})
    case Crashed =>
      t == s.(sessions := map[])
  }

  /** The four things a renewal may never change. */
  predicate SameLine(a: Lease, b: Lease)
  {
    a.leaseId == b.leaseId && a.jobId == b.jobId && a.attemptId == b.attemptId && a.fenceEpoch == b.fenceEpoch
  }

  ghost predicate SessionsKept(s: State)
  {
    forall id :: id in s.sessions ==>
                   && SameLine(s.sessions[id].origin, s.sessions[id].held)
                   && s.sessions[id].held.fenceEpoch <= Seen(s.marks, s.sessions[id].held.jobId)
  }

  ghost predicate AcceptedBelowMarks(s: State)
  {
    forall i :: 0 <= i < |s.accepted| ==> s.accepted[i].epoch <= Seen(s.marks, s.accepted[i].job)
  }

  ghost predicate AcceptedAscends(s: State)
  {
    forall i, j :: 0 <= i <= j < |s.accepted| && s.accepted[i].job == s.accepted[j].job
                   ==> s.accepted[i].epoch <= s.accepted[j].epoch
  }

  ghost predicate Invariant(s: State)
  {
    SessionsKept(s) && AcceptedBelowMarks(s) && AcceptedAscends(s)
  }

  lemma MarksNeverDrop(s: State, e: Event, verdict: Verdict, config: Config, t: State, job: string)
    requires Next(s, e, verdict, config, t)
    ensures Seen(s.marks, job) <= Seen(t.marks, job)
  {
  }

  lemma NextKeepsSessions(s: State, e: Event, verdict: Verdict, config: Config, t: State)
    requires Next(s, e, verdict, config, t) && SessionsKept(s)
    ensures SessionsKept(t)
  {
    forall id | id in t.sessions
      ensures SameLine(t.sessions[id].origin, t.sessions[id].held)
      ensures t.sessions[id].held.fenceEpoch <= Seen(t.marks, t.sessions[id].held.jobId)
    {
      MarksNeverDrop(s, e, verdict, config, t, t.sessions[id].held.jobId);
    }
  }

  lemma NextKeepsHistory(s: State, e: Event, verdict: Verdict, config: Config, t: State)
    requires Next(s, e, verdict, config, t) && AcceptedBelowMarks(s) && AcceptedAscends(s)
    ensures AcceptedBelowMarks(t) && AcceptedAscends(t)
  {
    forall i | 0 <= i < |t.accepted|
      ensures t.accepted[i].epoch <= Seen(t.marks, t.accepted[i].job)
    {
      MarksNeverDrop(s, e, verdict, config, t, t.accepted[i].job);
    }
  }

  ghost predicate Run(s: State, schedule: seq<(Event, Verdict)>, config: Config, t: State)
    decreases |schedule|
  {
    if schedule == [] then s == t
    else
      var last := schedule[|schedule| - 1];
      exists p :: Run(s, schedule[..|schedule| - 1], config, p) && Next(p, last.0, last.1, config, t)
  }

  lemma {:induction false} RunKeeps(s: State, schedule: seq<(Event, Verdict)>, config: Config, t: State)
    requires Run(s, schedule, config, t) && Invariant(s)
    ensures Invariant(t)
    ensures forall job :: Seen(s.marks, job) <= Seen(t.marks, job)
    decreases |schedule|
  {
    if schedule != [] {
      var n := |schedule| - 1;
      var last := schedule[n];
      var p :| Run(s, schedule[..n], config, p) && Next(p, last.0, last.1, config, t);
      RunKeeps(s, schedule[..n], config, p);
      NextKeepsSessions(p, last.0, last.1, config, t);
      NextKeepsHistory(p, last.0, last.1, config, t);
      forall job
        ensures Seen(s.marks, job) <= Seen(t.marks, job)
      {
        MarksNeverDrop(p, last.0, last.1, config, t, job);
      }
    }
  }

  /** A node's first start: whatever the stored watermarks are, nothing is held yet. */
  predicate Initial(s: State)
  {
    s.sessions == map[] && s.accepted == []
  }

  /**
   Over grants, renewals, resumes, failing databases and crashes: every held lease is of the
   lease, job, attempt and epoch first granted, and accepted epochs of a job never decrease.
   */
  lemma RenewalChains(s: State, schedule: seq<(Event, Verdict)>, config: Config, t: State)
    requires Initial(s) && Run(s, schedule, config, t)
    ensures forall id :: id in t.sessions ==> SameLine(t.sessions[id].origin, t.sessions[id].held)
    ensures forall i, j :: 0 <= i <= j < |t.accepted| && t.accepted[i].job == t.accepted[j].job
                           ==> t.accepted[i].epoch <= t.accepted[j].epoch
  {
    RunKeeps(s, schedule, config, t);
  }

  /** In a reachable state a renewal is accepted exactly when it repeats the held epoch and nobody has passed it. */
  lemma RenewalAcceptedIff(s: State, id: nat, result: RenewResult, nonce: bytes, storage: Storage,
                           verdict: Verdict, config: Config, t: State)
    requires Invariant(s) && id in s.sessions
    requires Next(s, Renewed(id, result, nonce, storage), verdict, config, t)
    ensures var held := s.sessions[id].held;
            verdict.Accepted? <==>
              && storage.Works?
              && RenewalMatches(result, nonce, held, config)
              && result.lease.value.lease.fenceEpoch == held.fenceEpoch == Seen(s.marks, held.jobId)
  {
    assert SameLine(s.sessions[id].origin, s.sessions[id].held);
  }

  /** A grant's lease is accepted exactly when it passes its checks and its epoch is not below what was seen. */
  lemma GrantAcceptedIff(s: State, id: nat, grant: Grant, storage: Storage, verdict: Verdict, config: Config, t: State)
    requires Next(s, Granted(id, grant, storage), verdict, config, t)
    ensures verdict.Accepted? <==>
              && storage.Works? && GrantMatches(grant, config)
              && var l := grant.lease.value.lease;
              l.jobId !in s.marks || s.marks[l.jobId] <= l.fenceEpoch
    ensures verdict.Accepted? ==> t.sessions == s.sessions[id := Session(verdict.lease, verdict.lease)]
                                  && Seen(t.marks, verdict.lease.jobId) == verdict.lease.fenceEpoch
  {
  }

  /** Once a higher epoch of the job has been recorded, the holder of a lower one never renews again. */
  lemma OvertakenNeverRenews(s: State, schedule: seq<(Event, Verdict)>, t: State, id: nat, result: RenewResult,
                             nonce: bytes, storage: Storage, verdict: Verdict, config: Config, u: State)
    requires Invariant(s) && Run(s, schedule, config, t)
    requires id in t.sessions && t.sessions[id].held.fenceEpoch < Seen(s.marks, t.sessions[id].held.jobId)
    requires Next(t, Renewed(id, result, nonce, storage), verdict, config, u)
    ensures verdict.Refused?
  {
    RunKeeps(s, schedule, config, t);
    RenewalAcceptedIff(t, id, result, nonce, storage, verdict, config, u);
  }
}
