/**
 The report outbox: a directory of signed reports that survives restarts. A report is written
 under the hash of its signing input, sent until an acknowledgement matches it, and looked at
 again at every start. Hashes are free constructors; a signature check is a flag on the file.
 */
module ReportOutbox {
  import opened Common

  /** What a report signs over; `wellFormed` is the verdict of the field combination rules. */
  datatype Report = Report(
    jobId: string, attemptId: string, nodeId: string, fenceEpoch: nat, observation: string, wellFormed: bool)

  datatype Digest = Blake3(of: Report) | OtherBytes(raw: bytes)

  /** `signed` says whether this node's key verifies the stored signature. */
  datatype Content = Undecodable(raw: bytes) | Decoded(report: Report, signed: bool)

  datatype Stem = Hash(of: Report) | Plain(text: string)

  datatype Name = ReportFile(stem: Stem) | TemporaryFile(stem: Stem) | RejectedFile(stem: Stem)
      | OtherFile(text: string)

  type Files = map<Name, Content>

  datatype Config = Config(agentDeviceId: string, coordinatorDeviceId: string, reportSessionAttempts: nat)

  // ---------------------------------------------------------------- acknowledgements

  datatype HashField = HashField(algo: int, value: Digest)

  datatype Ack = Ack(
    sessionNonce: bytes, coordinatorId: string, jobId: string, attemptId: string, nodeId: string,
    fenceEpoch: nat, reportHash: Option<HashField>)

  datatype AckError = OtherSession | OtherCoordinator | OtherAttempt | OtherReport

  const HASH_ALGO_BLAKE3: int := 1

  /** `verify_report_ack`: the hash is recomputed from the report that was sent. */
  function VerifyReportAck(ack: Ack, sessionNonce: bytes, report: Report, config: Config): (r: Option<AckError>)
    ensures r.None? <==>
              && ack.sessionNonce == sessionNonce
              && ack.coordinatorId == config.coordinatorDeviceId
              && ack.jobId == report.jobId && ack.attemptId == report.attemptId
              && ack.nodeId == report.nodeId && ack.fenceEpoch == report.fenceEpoch
              && ack.reportHash == Some(HashField(1, Blake3(report)))
    // The reason given is the first thing that differs.
    ensures r == Some(OtherSession) <==> ack.sessionNonce != sessionNonce
    ensures r == Some(OtherCoordinator) <==>
              ack.sessionNonce == sessionNonce && ack.coordinatorId != config.coordinatorDeviceId
    ensures r == Some(OtherAttempt) ==>
              || ack.jobId != report.jobId || ack.attemptId != report.attemptId
              || ack.nodeId != report.nodeId || ack.fenceEpoch != report.fenceEpoch
    ensures r == Some(OtherReport) ==> ack.reportHash != Some(HashField(1, Blake3(report)))
  {
    if ack.sessionNonce != sessionNonce then Some(OtherSession)
    else if ack.coordinatorId != config.coordinatorDeviceId then Some(OtherCoordinator)
    else if (ack.jobId, ack.attemptId, ack.nodeId, ack.fenceEpoch)
            != (report.jobId, report.attemptId, report.nodeId, report.fenceEpoch) then Some(OtherAttempt)
    else
      match ack.reportHash
      case Some(HashField(algo, value)) =>
        if algo == HASH_ALGO_BLAKE3 && value == Blake3(report) then None else Some(OtherReport)
      case None => Some(OtherReport)
  }

  /** How one session ends: nothing arrived, something that does not verify arrived, or a signed ack. */
  datatype Session = NotReceived | Unverifiable | Received(helloNonce: bytes, ack: Ack)

  predicate Settles(session: Session, report: Report, config: Config)
  {
    session.Received? && VerifyReportAck(session.ack, session.helloNonce, report, config).None?
  }

  /** Session `k` is the first one that was answered, and its answer matches. */
  predicate AcknowledgedAt(session: nat -> Session, report: Report, config: Config, k: nat)
  {
    && k < config.reportSessionAttempts
    && (forall i: nat :: i < k ==> session(i).NotReceived?)
    && Settles(session(k), report, config)
  }

  predicate Acknowledged(session: nat -> Session, report: Report, config: Config)
  {
    exists k: nat :: k < config.reportSessionAttempts && AcknowledgedAt(session, report, config, k)
  }

  // ---------------------------------------------------------------- reopening

  datatype ReopenError = Unreadable | NotDecodable | ForeignNode | BadSignature | RulesBroken

  /** `reopen_outboxed_report`. */
  function Reopen(file: Option<Content>, readable: bool, config: Config): (r: Result<Report, ReopenError>)
  {
    if file.None? || !readable then Err(Unreadable)
    else
      match file.value
      case Undecodable(_) => Err(NotDecodable)
      case Decoded(report, signed) =>
        if report.nodeId != config.agentDeviceId then Err(ForeignNode)
        else if !signed then Err(BadSignature)
        else if !report.wellFormed then Err(RulesBroken)
        else Ok(report)
  }

  function Lookup(files: Files, name: Name): (r: Option<Content>)
  {
    if name in files then Some(files[name]) else None
  }

  /** What the world does while one file is looked at. */
  datatype Visit = Visit(readable: bool, session: nat -> Session, removeWorks: bool, renameWorks: bool)

  function VisitFile(files: Files, stem: Stem, visit: Visit, config: Config): (r: Files)
  {
    var name := ReportFile(stem);
    match Reopen(Lookup(files, name), visit.readable, config)
    case Err(ForeignNode) => files
    case Err(_) =>
      if visit.renameWorks && name in files then (files - {name})[RejectedFile(stem) := files[name]] else files
    case Ok(report) =>
      if Acknowledged(visit.session, report, config) && visit.removeWorks then files - {name} else files
  }

  function FlushAll(files: Files, paths: seq<Name>, visit: Stem -> Visit, config: Config): (r: Files)
  {
    if paths == [] then files
    else
      var before := FlushAll(files, paths[..|paths| - 1], visit, config);
      var last := paths[|paths| - 1];
      if last.ReportFile? then VisitFile(before, last.stem, visit(last.stem), config) else before
  }

  // ---------------------------------------------------------------- the directory

  /** How far writing one report got. */
  datatype Disk = CreateFails | WriteTorn(left: Content) | RenameFails | SyncFails | Stored

  function PersistFiles(files: Files, report: Report, disk: Disk): (r: Files)
  {
    var stem := Hash(report);
    match disk
    case CreateFails => files
    case WriteTorn(left) => files[TemporaryFile(stem) := left]
    case RenameFails => files[TemporaryFile(stem) := Decoded(report, true)]
    case SyncFails => (files - {TemporaryFile(stem)})[ReportFile(stem) := Decoded(report, true)]
    case Stored => (files - {TemporaryFile(stem)})[ReportFile(stem) := Decoded(report, true)]
  }

  class Outbox {
    var files: Files

    constructor (found: Files)
      ensures files == found
    {
      files := found;
    }

    /** `persist_report_to_outbox`: a temporary file, synced, then renamed. */
    method Persist(report: Report, disk: Disk) returns (stored: bool)
      modifies this
      ensures files == PersistFiles(old(files), report, disk)
      ensures stored <==> disk.Stored?
      ensures stored ==> Lookup(files, ReportFile(Hash(report))) == Some(Decoded(report, true))
      // What is written can be opened again.
      ensures stored && report.wellFormed ==>
                forall config: Config :: report.nodeId == config.agentDeviceId
                                         ==> Reopen(Lookup(files, ReportFile(Hash(report))), true, config) == Ok(report)
      ensures forall name :: name !in {ReportFile(Hash(report)), TemporaryFile(Hash(report))}
                             ==> Lookup(files, name) == Lookup(old(files), name)
    {
      var stem := Hash(report);
      if disk.CreateFails? { return false; }
      files := files[TemporaryFile(stem) := if disk.WriteTorn? then disk.left else Decoded(report, true)];
      if disk.WriteTorn? || disk.RenameFails? { return false; }
      files := (files - {TemporaryFile(stem)})[ReportFile(stem) := files[TemporaryFile(stem)]];
      return disk.Stored?;
    }

    /** `deliver_outboxed_report`: sends until the first answer, and removes the file only on a matching one. */
    method Deliver(report: Report, name: Name, visit: Visit, config: Config) returns (delivered: bool)
      modifies this
      ensures delivered <==> Acknowledged(visit.session, report, config) && visit.removeWorks
      ensures files == if delivered then old(files) - {name} else old(files)
      ensures name == ReportFile(Hash(report)) ==> files == SendFiles(old(files), report, visit, config)
    {
      for attempt := 0 to config.reportSessionAttempts
        invariant files == old(files)
        invariant forall i: nat :: i < attempt ==> visit.session(i).NotReceived?
      {
        var session := visit.session(attempt);
        match session {
          case Received(helloNonce, ack) =>
            if VerifyReportAck(ack, helloNonce, report, config).None? {
              assert AcknowledgedAt(visit.session, report, config, attempt);
              if !visit.removeWorks { return false; }
              files := files - {name};
              return true;
            }
            return false;
          case Unverifiable => return false;
          case NotReceived =>
        }
      }
      return false;
    }

    /** `flush_report_outbox` over a directory listing. */
    method Flush(paths: seq<Name>, visit: Stem -> Visit, config: Config)
      modifies this
      ensures files == FlushAll(old(files), paths, visit, config)
    {
      for i := 0 to |paths|
        invariant files == FlushAll(old(files), paths[..i], visit, config)
      {
        assert paths[..i + 1][..i] == paths[..i];
        if paths[i].ReportFile? {
          var name, v := paths[i], visit(paths[i].stem);
          match Reopen(Lookup(files, name), v.readable, config) {
            case Err(ForeignNode) =>
            case Err(_) =>
              if v.renameWorks && name in files {
                files := (files - {name})[RejectedFile(name.stem) := files[name]];
              }
            case Ok(report) =>
              var delivered := Deliver(report, name, v, config);
          }
        }
      }
      assert paths[..|paths|] == paths;
    }
  }

  // ---------------------------------------------------------------- one restart

  lemma OtherStem(files: Files, stem: Stem, visit: Visit, config: Config, other: Stem)
    requires other != stem
    ensures Lookup(VisitFile(files, other, visit, config), ReportFile(stem)) == Lookup(files, ReportFile(stem))
  {
  }

  ghost predicate Distinct(paths: seq<Name>)
  {
    forall i, j :: 0 <= i < j < |paths| ==> paths[i] != paths[j]
  }

  /** A flush does to each report what visiting that report alone does, whatever else is listed and in any order. */
  lemma {:induction false} FlushIsPerFile(files: Files, paths: seq<Name>, visit: Stem -> Visit, config: Config,
      stem: Stem)
    requires Distinct(paths)
    ensures Lookup(FlushAll(files, paths, visit, config), ReportFile(stem))
            == if ReportFile(stem) in paths then Lookup(VisitFile(files, stem, visit(stem), config), ReportFile(stem))
               else Lookup(files, ReportFile(stem))
  {
    if paths != [] {
      var n := |paths| - 1;
      var last := paths[n];
      assert paths == paths[..n] + [last];
      FlushIsPerFile(files, paths[..n], visit, config, stem);
      if last.ReportFile? && last.stem != stem {
        OtherStem(FlushAll(files, paths[..n], visit, config), stem, visit(last.stem), config, last.stem);
      }
      if last == ReportFile(stem) {
        assert last !in paths[..n];
        VisitDependsOnFile(FlushAll(files, paths[..n], visit, config), files, stem, visit(stem), config);
      }
    }
  }

  lemma VisitDependsOnFile(a: Files, b: Files, stem: Stem, visit: Visit, config: Config)
    requires Lookup(a, ReportFile(stem)) == Lookup(b, ReportFile(stem))
    ensures Lookup(VisitFile(a, stem, visit, config), ReportFile(stem))
            == Lookup(VisitFile(b, stem, visit, config), ReportFile(stem))
  {
    assert ReportFile(stem) in a <==> ReportFile(stem) in b;
  }

  /** This node's own sound report, stored under its own name. */
  ghost predicate OwnReport(files: Files, report: Report, config: Config)
  {
    && report.nodeId == config.agentDeviceId
    && report.wellFormed
    && Lookup(files, ReportFile(Hash(report))) == Some(Decoded(report, true))
  }

  /** The directory with one report renamed out of the way of later starts. */
  function SetAside(files: Files, stem: Stem): (r: Files)
    requires ReportFile(stem) in files
    ensures Lookup(r, ReportFile(stem)).None? && Lookup(r, RejectedFile(stem)) == Some(files[ReportFile(stem)])
    ensures forall name :: name !in {ReportFile(stem), RejectedFile(stem)} ==> Lookup(r, name) == Lookup(files, name)
  {
    (files - {ReportFile(stem)})[RejectedFile(stem) := files[ReportFile(stem)]]
  }

  /** One visit removes an own report exactly on a matching answer, and sets it aside when it could not be read. */
  lemma OwnReportLeavesIff(files: Files, report: Report, visit: Visit, config: Config)
    requires OwnReport(files, report, config)
    ensures var name, after := ReportFile(Hash(report)), VisitFile(files, Hash(report), visit, config);
            && after == (if !visit.readable then (if visit.renameWorks then SetAside(files, Hash(report)) else files)
                         else if Acknowledged(visit.session, report, config) && visit.removeWorks then files - {name}
                         else files)
            && (Lookup(after, name).None? <==>
                  if visit.readable then Acknowledged(visit.session, report, config) && visit.removeWorks
                  else visit.renameWorks)
  {
  }

  /** A report of this node's that must not be sent, or something that is no report at all. */
  predicate Unacceptable(content: Content, config: Config)
  {
    match content
    case Undecodable(_) => true
    case Decoded(report, signed) => report.nodeId == config.agentDeviceId && (!signed || !report.wellFormed)
  }

  /** Such a file is set aside and never sent, whatever the sessions would answer; a missing one is passed over. */
  lemma UnacceptableIsSetAside(files: Files, stem: Stem, visit: Visit, config: Config)
    ensures ReportFile(stem) in files && Unacceptable(files[ReportFile(stem)], config) ==>
              VisitFile(files, stem, visit, config) == if visit.renameWorks then SetAside(files, stem) else files
    ensures ReportFile(stem) !in files ==> VisitFile(files, stem, visit, config) == files
  {
  }

  /** A report of another node stays exactly unless reading it fails and renaming it then works. */
  lemma ForeignReportStaysIff(files: Files, stem: Stem, report: Report, signed: bool, visit: Visit, config: Config)
    requires report.nodeId != config.agentDeviceId
    requires Lookup(files, ReportFile(stem)) == Some(Decoded(report, signed))
    ensures VisitFile(files, stem, visit, config) == files <==> visit.readable || !visit.renameWorks
  {
    if !visit.readable && visit.renameWorks {
      assert ReportFile(stem) !in VisitFile(files, stem, visit, config);
    }
  }

  /** Whatever a visit sets aside keeps its bytes. */
  lemma QuarantineKeepsBytes(files: Files, stem: Stem, visit: Visit, config: Config)
    requires ReportFile(stem) in files && ReportFile(stem) !in VisitFile(files, stem, visit, config)
    ensures Lookup(VisitFile(files, stem, visit, config), RejectedFile(stem)) == Some(files[ReportFile(stem)])
            || (Reopen(Some(files[ReportFile(stem)]), visit.readable, config).Ok?
                && Acknowledged(visit.session, files[ReportFile(stem)].report, config))
  {
  }

  // ---------------------------------------------------------------- many restarts

  /**
   What happens to the directory: a report is written, one is sent, or a start flushes what it
   lists. A crash in the middle of a flush is a shorter listing.
   */
  datatype Event =
    | Persisted(report: Report, disk: Disk)
    | Sent(report: Report, visit: Visit)
    | Flushed(paths: seq<Name>, visits: Stem -> Visit)

  function SendFiles(files: Files, report: Report, visit: Visit, config: Config): (r: Files)
  {
    if Acknowledged(visit.session, report, config) && visit.removeWorks then files - {ReportFile(Hash(report))}
        else files
  }

  /** A node writes and sends its own reports only. */
  predicate Allowed(e: Event, config: Config)
  {
    match e
    case Persisted(report, _) => report.nodeId == config.agentDeviceId
    case Sent(report, _) => report.nodeId == config.agentDeviceId
    case Flushed(paths, _) => forall i, j :: 0 <= i < j < |paths| ==> paths[i] != paths[j]
  }

  function Apply(files: Files, e: Event, config: Config): (r: Files)
  {
    match e
    case Persisted(report, disk) => PersistFiles(files, report, disk)
    case Sent(report, visit) => SendFiles(files, report, visit, config)
    case Flushed(paths, visit) => FlushAll(files, paths, visit, config)
  }

  function ApplyAll(files: Files, events: seq<Event>, config: Config): (r: Files)
    decreases |events|
  {
    if events == [] then files else ApplyAll(Apply(files, events[0], config), events[1..], config)
  }

  /** The event received, as the first answer of a delivery, an ack that matches this very report. */
  predicate Acknowledges(e: Event, report: Report, config: Config)
  {
    match e
    case Persisted(_, _) => false
    case Sent(r, visit) => r == report && Acknowledged(visit.session, report, config)
    case Flushed(paths, visit) =>
      ReportFile(Hash(report)) in paths && Acknowledged(visit(Hash(report)).session, report, config)
  }

  /** The event listed the file but could not read it. */
  predicate FailsToRead(e: Event, stem: Stem)
  {
    e.Flushed? && ReportFile(stem) in e.paths && !e.visits(stem).readable
  }

  lemma EventKeepsOwn(files: Files, e: Event, report: Report, config: Config)
    requires OwnReport(files, report, config) && Allowed(e, config)
    requires !Acknowledges(e, report, config) && !FailsToRead(e, Hash(report))
    ensures OwnReport(Apply(files, e, config), report, config)
  {
    if e.Flushed? {
      FlushIsPerFile(files, e.paths, e.visits, config, Hash(report));
      OwnReportLeavesIff(files, report, e.visits(Hash(report)), config);
    }
  }

  /**
   Over any history of writes, deliveries, crashes and restarts: a report this node stored is
   gone only if some delivery was answered by an ack matching session, coordinator, job,
   attempt, node, epoch and recomputed hash, or some start could not read the file.
   */
  lemma {:induction false} LeavesOnlyAcknowledged(files: Files, events: seq<Event>, report: Report, config: Config)
    requires OwnReport(files, report, config)
    requires forall i :: 0 <= i < |events| ==> Allowed(events[i], config)
    ensures !OwnReport(ApplyAll(files, events, config), report, config) ==>
              exists i :: 0 <= i < |events|
                  && (Acknowledges(events[i], report, config) || FailsToRead(events[i], Hash(report)))
    decreases |events|
  {
    if events != [] && !Acknowledges(events[0], report, config) && !FailsToRead(events[0], Hash(report)) {
      EventKeepsOwn(files, events[0], report, config);
      LeavesOnlyAcknowledged(Apply(files, events[0], config), events[1..], report, config);
      if !OwnReport(ApplyAll(files, events, config), report, config) {
        var i :| 0 <= i < |events[1..]|
                 && (Acknowledges(events[1..][i], report, config) || FailsToRead(events[1..][i], Hash(report)));
        assert events[1..][i] == events[i + 1];
      }
    }
  }

  /** And it does leave: one delivery that is answered so, and the file is gone with nothing else. */
  lemma AcknowledgedLeaves(files: Files, report: Report, visit: Visit, config: Config)
    requires Acknowledged(visit.session, report, config) && visit.removeWorks
    ensures ApplyAll(files, [Sent(report, visit)], config) == files - {ReportFile(Hash(report))}
  {
    assert [Sent(report, visit)][1..] == [];
  }

  lemma EventKeepsForeign(files: Files, e: Event, stem: Stem, content: Content, config: Config)
    requires Lookup(files, ReportFile(stem)) == Some(content) && Allowed(e, config)
    requires content.Decoded? && content.report.nodeId != config.agentDeviceId && stem == Hash(content.report)
    requires !FailsToRead(e, stem)
    ensures Lookup(Apply(files, e, config), ReportFile(stem)) == Some(content)
  {
    if e.Flushed? {
      FlushIsPerFile(files, e.paths, e.visits, config, stem);
      if ReportFile(stem) in e.paths {
        ForeignReportStaysIff(files, stem, content.report, content.signed, e.visits(stem), config);
      }
    }
  }

  /** Over any history in which it can be read, a report of another node is never touched. */
  lemma {:induction false} ForeignUntouched(files: Files, events: seq<Event>, content: Content, config: Config)
    requires content.Decoded? && content.report.nodeId != config.agentDeviceId
    requires Lookup(files, ReportFile(Hash(content.report))) == Some(content)
    requires forall i :: 0 <= i < |events| ==>
                           Allowed(events[i], config) && !FailsToRead(events[i], Hash(content.report))
    ensures Lookup(ApplyAll(files, events, config), ReportFile(Hash(content.report))) == Some(content)
    decreases |events|
  {
    if events != [] {
      EventKeepsForeign(files, events[0], Hash(content.report), content, config);
      ForeignUntouched(Apply(files, events[0], config), events[1..], content, config);
    }
  }

  /** The exception is real: one failed read sets another node's report aside, and later starts do not look at it. */
  lemma ReadErrorQuarantinesForeign(visit: Visit, later: Visit)
    requires !visit.readable && visit.renameWorks
    ensures var config := Config("agent-a", "coordinator", 3);
            var report := Report("job", "attempt", "agent-b", 1, "exited", true);
            var files: Files := map[ReportFile(Hash(report)) := Decoded(report, true)];
            var once := VisitFile(files, Hash(report), visit, config);
            && once == map[RejectedFile(Hash(report)) := Decoded(report, true)]
            && VisitFile(once, Hash(report), later, config) == once
  {
    var report := Report("job", "attempt", "agent-b", 1, "exited", true);
    var files: Files := map[ReportFile(Hash(report)) := Decoded(report, true)];
    assert files - {ReportFile(Hash(report))} == map[];
  }
}
