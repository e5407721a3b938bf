/**
 From grant to delivered report, with a crash possible after every step. Durable per attempt:
 the start journal, the ledger row and the stored report. One process at a time works on one
 root (it holds the root's lock), with acknowledgement receipts required.
 */
module AttemptProtocol {
  import opened Common
  import ContainerRun
  import ContainerRuntime

  datatype Executor = Host | Container

  datatype CloseReason = NotStarted | NoSentinel | HostRestart | ReportPersisted | ClearedByHuman

  datatype RowState = Active | Closed(reason: CloseReason) | LocalBlocked

  datatype Row = Row(executor: Executor, state: RowState, removed: bool)

  /** How an execution came back: `gone` is an exit whose container was confirmed absent. */
  datatype Outcome = DidNotStart | Ended(gone: bool) | MayRun | OtherFailure

  /** How far the process has come with the attempt it was granted. */
  datatype Stage =
    | Granted | CheckedBeforeCleanup | CheckedBeforeAck | AckSent | Receipted
    | RowWritten | Journaled | StartConfirmed | Launched | Ran(outcome: Outcome)
    | ExitRecorded | ReportStored | RowSettled

  datatype Process = Down | Starting | Idle | Working(id: string, executor: Executor, stage: Stage)

  /** The first three are on disk; the rest is what truly happened to the attempt. */
  datatype Attempt = Attempt(
    row: Option<Row>, journaled: bool, inOutbox: bool,
    launches: nat, unstarted: bool, gone: bool, stored: bool, cleared: bool)

  const UNKNOWN: Attempt := Attempt(None, false, false, 0, false, false, false, false)

  datatype State = State(ledgerOn: bool, process: Process, attempts: map<string, Attempt>)

  /** How one durable write ends: it may report an error after it took effect. */
  datatype Write = Written | FailedClean | FailedWritten

  datatype Event =
    | Crash
    | Start
    | Resolve(id: string, reopens: bool)
    | Open
    | Flushed(id: string)
    | Grant(id: string, executor: Executor)
    | GiveUp
    | Check
    | SendAck
    | Receive
    | WriteRow(w: Write)
    | WriteJournal(w: Write, close: Write)
    | ConfirmStart
    | Launch
    | Finish(outcome: Outcome)
    | RecordExit(w: Write)
    | StoreReport(w: Write)
    | SettleRow(w: Write)
    | Deliver(acknowledged: bool)
    | HumanClears(id: string)

  function At(s: State, id: string): (a: Attempt)
  {
    if id in s.attempts then s.attempts[id] else UNKNOWN
  }

  function Put(s: State, id: string, a: Attempt): (t: State)
  {
    s.(attempts := s.attempts[id := a])
  }

  // ---------------------------------------------------------------- the ledger

  predicate IsActive(a: Attempt)
  {
    a.row.Some? && a.row.value.state.Active?
  }

  function WithState(a: Attempt, state: RowState): (r: Attempt)
    requires a.row.Some?
  {
    a.(row := Some(a.row.value.(state := state)))
  }

  /** `close_active`: refused for a row that is not active, and for a container row without a confirmed removal. */
  function CloseActive(a: Attempt, reason: CloseReason): (r: Attempt)
  {
    if !IsActive(a) then a
    else if a.row.value.executor == Container
            && ((reason == ReportPersisted && !a.row.value.removed) || reason == HostRestart) then a
    else WithState(a, Closed(reason))
  }

  /** `record_container_exit`, and `close_active` for what did not start; a host row is left as it is. */
  function ExitRow(a: Attempt, outcome: Outcome): (r: Attempt)
  {
    if !IsActive(a) then a
    else if outcome.DidNotStart? then CloseActive(a, NotStarted)
    else if a.row.value.executor == Host then a
    else if outcome == Ended(true) then a.(row := Some(a.row.value.(removed := true)))
    else WithState(a, LocalBlocked)
  }

  /** `resolve_active_ledger_rows` for one row. */
  function ResolveRow(a: Attempt, reopens: bool): (r: Attempt)
  {
    if !IsActive(a) then a
    else if a.row.value.executor == Host then CloseActive(a, if a.journaled then HostRestart else NoSentinel)
    else if !a.journaled then CloseActive(a, NoSentinel)
    else if a.inOutbox && reopens && a.row.value.removed then CloseActive(a, ReportPersisted)
    else WithState(a, LocalBlocked)
  }

  /** `blocks_new_work`. */
  predicate BlocksNewWork(s: State)
  {
    exists id :: id in s.attempts && s.attempts[id].row.Some? && !s.attempts[id].row.value.state.Closed?
  }

  // ---------------------------------------------------------------- the process

  function Apply(w: Write, before: Attempt, after: Attempt): (r: Attempt)
  {
    if w.FailedClean? then before else after
  }

  /**
   What a step does to the attempt the process works on, and the stage it goes to; no stage is a
   return with an error.
   */
  function WorkStep(a: Attempt, executor: Executor, stage: Stage, e: Event,
      ledgerOn: bool): (r: (Attempt, Option<Stage>))
  {
    match e
    case Check =>
      if stage.Granted? then (a, if a.journaled then None else Some(CheckedBeforeCleanup))
      else if stage.CheckedBeforeCleanup? then (a, if a.journaled then None else Some(CheckedBeforeAck))
      else (a, Some(stage))
    case SendAck => (a, Some(if stage.CheckedBeforeAck? then AckSent else stage))
    case Receive => (a, Some(if stage.AckSent? then Receipted else stage))
    case WriteRow(w) =>
      if !stage.Receipted? then (a, Some(stage))
      else if !ledgerOn then (a, Some(RowWritten))
      else if a.row.Some? then (a, None)
      else (Apply(w, a, a.(row := Some(Row(executor, Active, false)))), if w.Written? then Some(RowWritten) else None)
    case WriteJournal(w, close) =>
      if !stage.RowWritten? then (a, Some(stage))
      else if w.Written? then (a.(journaled := true), Some(Journaled))
      else
        var b := Apply(w, a, a.(journaled := true));
        (Apply(close, b, CloseActive(b, NotStarted)), None)
    case ConfirmStart => (a, Some(if stage.Journaled? then StartConfirmed else stage))
    case Launch =>
      if stage.StartConfirmed? then (a.(launches := a.launches + 1), Some(Launched)) else (a, Some(stage))
    case Finish(outcome) =>
      if stage.Launched? then
        (a.(unstarted := outcome.DidNotStart?, gone := outcome == Ended(true)), Some(Ran(outcome)))
      else (a, Some(stage))
    case RecordExit(w) =>
      if !stage.Ran? then (a, Some(stage))
      else (Apply(w, a, ExitRow(a, stage.outcome)), if w.Written? && stage.outcome.Ended? then Some(ExitRecorded)
          else None)
    case StoreReport(w) =>
      if !stage.ExitRecorded? then (a, Some(stage))
      else (Apply(w, a, a.(inOutbox := true, stored := true)), if w.Written? then Some(ReportStored) else None)
    case SettleRow(w) =>
      if !stage.ReportStored? then (a, Some(stage))
      else (Apply(w, a, CloseActive(a, ReportPersisted)), if w.Written? then Some(RowSettled) else None)
    case Deliver(acknowledged) =>
      if stage.RowSettled? then (if acknowledged then a.(inOutbox := false) else a, None) else (a, Some(stage))
    case _ => (a, Some(stage))
  }

  /** Once the workload was launched no error leads back to another connection. */
  predicate ReachedLaunch(stage: Stage)
  {
    stage.Launched? || stage.Ran? || stage.ExitRecorded? || stage.ReportStored? || stage.RowSettled?
  }

  function Return(stage: Stage): (p: Process)
  {
    if ReachedLaunch(stage) then Down else Idle
  }

  /** The state after a step of the process on its attempt. */
  function Stepped(s: State, r: (Attempt, Option<Stage>)): (t: State)
    requires s.process.Working?
  {
    Put(s, s.process.id, r.0).(process := match r.1
                                          case Some(next) => Working(s.process.id, s.process.executor, next)
                                          case None => Return(s.process.stage))
  }

  /** One step; an event that is not possible changes nothing. */
  function After(s: State, e: Event): (t: State)
  {
    match e
    case Crash => s.(process := Down)
    case Start => if s.process.Down? then s.(process := Starting) else s
    case Resolve(id, reopens) =>
      if s.process.Starting? && id in s.attempts then Put(s, id, ResolveRow(At(s, id), reopens)) else s
    case Open =>
      if s.process.Starting? then s.(process := if BlocksNewWork(s) then Down else Idle) else s
    case Flushed(id) =>
      if s.process.Idle? then Put(s, id, At(s, id).(inOutbox := false)) else s
    case Grant(id, executor) => if s.process.Idle? then s.(process := Working(id, executor, Granted)) else s
    case HumanClears(id) =>
      if s.process.Down? && At(s, id).row.Some? && At(s, id).row.value.state.LocalBlocked?
      then Put(s, id, WithState(At(s, id), Closed(ClearedByHuman)).(cleared := true)) else s
    case GiveUp => if s.process.Working? then s.(process := Return(s.process.stage)) else s
    case _ =>
      if !s.process.Working? then s
      else
        Stepped(s, WorkStep(At(s, s.process.id), s.process.executor, s.process.stage, e, s.ledgerOn))
  }

  function AfterAll(s: State, events: seq<Event>): (t: State)
    decreases |events|
  {
    if events == [] then s else After(AfterAll(s, events[..|events| - 1]), events[|events| - 1])
  }

  /** A root that was never used. */
  function Unused(ledgerOn: bool): (s: State)
  {
    State(ledgerOn, Down, map[])
  }

  // ---------------------------------------------------------------- what always holds of one attempt

  /** A row closed without a human has a reason that is true of the attempt. */
  predicate RowSound(a: Attempt)
  {
    a.row.Some? ==>
      && (a.row.value.removed ==> a.gone)
      && match a.row.value.state
         case Closed(NotStarted) => a.launches == 0 || a.unstarted
         case Closed(NoSentinel) => a.launches == 0
         case Closed(HostRestart) => a.row.value.executor == Host
         case Closed(ReportPersisted) => a.row.value.executor == Host || (a.stored && a.gone)
         case Closed(ClearedByHuman) => a.cleared
         case LocalBlocked => a.row.value.executor == Container
         case Active => a.stored ==> a.inOutbox
  }

  predicate Sound(a: Attempt, ledgerOn: bool)
  {
    && a.launches <= 1
    && (a.launches == 1 ==> a.journaled)
    && (ledgerOn && a.launches == 1 ==> a.row.Some?)
    && (!ledgerOn ==> a.row.None?)
    && (a.inOutbox ==> a.stored) && (a.stored ==> a.launches == 1)
    && RowSound(a)
  }

  /** An active row of an attempt nobody works on, once the start-up is over, has no report. */
  predicate AtRest(a: Attempt)
  {
    IsActive(a) ==> !a.stored
  }

  predicate FreshRow(a: Attempt, executor: Executor, ledgerOn: bool)
  {
    ledgerOn ==> a.row == Some(Row(executor, Active, false))
  }

  /** What the stage tells about the attempt being worked on. */
  predicate StageSound(a: Attempt, executor: Executor, stage: Stage, ledgerOn: bool)
  {
    match stage
    case Granted => AtRest(a)
    case CheckedBeforeCleanup => AtRest(a) && !a.journaled
    case CheckedBeforeAck => AtRest(a) && !a.journaled
    case AckSent => AtRest(a) && !a.journaled
    case Receipted => AtRest(a) && !a.journaled
    case RowWritten => FreshRow(a, executor, ledgerOn) && !a.stored && !a.journaled
    case Journaled => FreshRow(a, executor, ledgerOn) && !a.stored && a.launches == 0 && a.journaled
    case StartConfirmed => FreshRow(a, executor, ledgerOn) && !a.stored && a.launches == 0 && a.journaled
    case Launched => FreshRow(a, executor, ledgerOn) && !a.stored && a.launches == 1
    case Ran(outcome) =>
      FreshRow(a, executor, ledgerOn) && !a.stored && a.launches == 1 && (outcome.DidNotStart? ==> a.unstarted)
          && (outcome == Ended(true) ==> a.gone)
    case ExitRecorded =>
      !a.stored && a.launches == 1 && (IsActive(a) && a.row.value.executor == Container ==> a.row.value.removed)
    case ReportStored => a.stored && a.inOutbox
        && (IsActive(a) && a.row.value.executor == Container ==> a.row.value.removed)
    case RowSettled => !IsActive(a)
  }

  ghost predicate IdSound(s: State, id: string)
  {
    && Sound(At(s, id), s.ledgerOn)
    && match s.process
       case Down => true
       case Starting => true
       case Idle => AtRest(At(s, id))
       case Working(w, executor, stage) =>
         if id == w then StageSound(At(s, id), executor, stage, s.ledgerOn) else AtRest(At(s, id))
  }

  ghost predicate Invariant(s: State)
  {
    forall id :: IdSound(s, id)
  }

  lemma StageAtRest(a: Attempt, executor: Executor, stage: Stage, ledgerOn: bool)
    requires StageSound(a, executor, stage, ledgerOn) && !ReachedLaunch(stage)
    ensures AtRest(a)
  {
  }

  predicate Kept(r: (Attempt, Option<Stage>), executor: Executor, stage: Stage, ledgerOn: bool)
  {
    && Sound(r.0, ledgerOn)
    && (r.1.Some? ==> StageSound(r.0, executor, r.1.value, ledgerOn))
    && (r.1.None? && !ReachedLaunch(stage) ==> AtRest(r.0))
  }

  lemma RowStepKeeps(a: Attempt, executor: Executor, stage: Stage, w: Write, ledgerOn: bool)
    requires Sound(a, ledgerOn) && StageSound(a, executor, stage, ledgerOn)
    ensures Kept(WorkStep(a, executor, stage, WriteRow(w), ledgerOn), executor, stage, ledgerOn)
  {
  }

  lemma JournalStepKeeps(a: Attempt, executor: Executor, stage: Stage, w: Write, close: Write, ledgerOn: bool)
    requires Sound(a, ledgerOn) && StageSound(a, executor, stage, ledgerOn)
    ensures Kept(WorkStep(a, executor, stage, WriteJournal(w, close), ledgerOn), executor, stage, ledgerOn)
  {
  }

  lemma ExitRowSound(a: Attempt, executor: Executor, outcome: Outcome, ledgerOn: bool)
    requires Sound(a, ledgerOn) && StageSound(a, executor, Ran(outcome), ledgerOn)
    ensures Sound(ExitRow(a, outcome), ledgerOn)
    ensures outcome.Ended? ==> StageSound(ExitRow(a, outcome), executor, ExitRecorded, ledgerOn)
  {
  }

  lemma ExitStepKeeps(a: Attempt, executor: Executor, stage: Stage, w: Write, ledgerOn: bool)
    requires Sound(a, ledgerOn) && StageSound(a, executor, stage, ledgerOn)
    ensures Kept(WorkStep(a, executor, stage, RecordExit(w), ledgerOn), executor, stage, ledgerOn)
  {
    if stage.Ran? {
      ExitRowSound(a, executor, stage.outcome, ledgerOn);
    }
  }

  lemma StoreStepKeeps(a: Attempt, executor: Executor, stage: Stage, w: Write, ledgerOn: bool)
    requires Sound(a, ledgerOn) && StageSound(a, executor, stage, ledgerOn)
    ensures Kept(WorkStep(a, executor, stage, StoreReport(w), ledgerOn), executor, stage, ledgerOn)
  {
  }

  lemma SettleStepKeeps(a: Attempt, executor: Executor, stage: Stage, w: Write, ledgerOn: bool)
    requires Sound(a, ledgerOn) && StageSound(a, executor, stage, ledgerOn)
    ensures Kept(WorkStep(a, executor, stage, SettleRow(w), ledgerOn), executor, stage, ledgerOn)
  {
  }

  lemma DeliverStepKeeps(a: Attempt, executor: Executor, stage: Stage, acknowledged: bool, ledgerOn: bool)
    requires Sound(a, ledgerOn) && StageSound(a, executor, stage, ledgerOn)
    ensures Kept(WorkStep(a, executor, stage, Deliver(acknowledged), ledgerOn), executor, stage, ledgerOn)
  {
  }

  lemma PlainStepKeeps(a: Attempt, executor: Executor, stage: Stage, e: Event, ledgerOn: bool)
    requires Sound(a, ledgerOn) && StageSound(a, executor, stage, ledgerOn)
    requires e.Check? || e.SendAck? || e.Receive? || e.ConfirmStart? || e.Launch? || e.Finish?
    ensures Kept(WorkStep(a, executor, stage, e, ledgerOn), executor, stage, ledgerOn)
  {
  }

  predicate IsWork(e: Event)
  {
    e.Check? || e.SendAck? || e.Receive? || e.WriteRow? || e.WriteJournal? || e.ConfirmStart? || e.Launch?
    || e.Finish? || e.RecordExit? || e.StoreReport? || e.SettleRow? || e.Deliver?
  }

  lemma ResolveKeeps(a: Attempt, reopens: bool, ledgerOn: bool)
    requires Sound(a, ledgerOn)
    ensures Sound(ResolveRow(a, reopens), ledgerOn)
  {
  }

  lemma WorkStepKeeps(a: Attempt, executor: Executor, stage: Stage, e: Event, ledgerOn: bool)
    requires Sound(a, ledgerOn) && StageSound(a, executor, stage, ledgerOn) && IsWork(e)
    ensures Kept(WorkStep(a, executor, stage, e, ledgerOn), executor, stage, ledgerOn)
  {
    match e {
      case RecordExit(w) => ExitStepKeeps(a, executor, stage, w, ledgerOn);
      case StoreReport(w) => StoreStepKeeps(a, executor, stage, w, ledgerOn);
      case SettleRow(w) => SettleStepKeeps(a, executor, stage, w, ledgerOn);
      case Deliver(acknowledged) => DeliverStepKeeps(a, executor, stage, acknowledged, ledgerOn);
      case WriteRow(w) => RowStepKeeps(a, executor, stage, w, ledgerOn);
      case WriteJournal(w, close) => JournalStepKeeps(a, executor, stage, w, close, ledgerOn);
      case _ => PlainStepKeeps(a, executor, stage, e, ledgerOn);
    }
  }

  lemma SteppedSound(s: State, r: (Attempt, Option<Stage>), id: string)
    requires s.process.Working? && IdSound(s, id)
    requires Kept(r, s.process.executor, s.process.stage, s.ledgerOn)
    ensures IdSound(Stepped(s, r), id)
  {
  }

  lemma WorkKeeps(s: State, e: Event, id: string)
    requires Invariant(s) && IsWork(e)
    ensures IdSound(After(s, e), id)
  {
    assert IdSound(s, id);
    if s.process.Working? {
      assert IdSound(s, s.process.id);
      var a := At(s, s.process.id);
      WorkStepKeeps(a, s.process.executor, s.process.stage, e, s.ledgerOn);
      SteppedSound(s, WorkStep(a, s.process.executor, s.process.stage, e, s.ledgerOn), id);
    }
  }

  lemma OpenSettles(s: State, id: string)
    requires s.process.Starting? && After(s, Open).process.Idle?
    ensures At(s, id).row.None? || At(s, id).row.value.state.Closed?
  {
  }

  lemma ResolveEventKeeps(s: State, r: string, reopens: bool, id: string)
    requires IdSound(s, id)
    ensures IdSound(After(s, Resolve(r, reopens)), id)
  {
    ResolveKeeps(At(s, id), reopens, s.ledgerOn);
  }

  lemma OpenKeeps(s: State, id: string)
    requires IdSound(s, id)
    ensures IdSound(After(s, Open), id)
  {
    if s.process.Starting? && After(s, Open).process.Idle? {
      OpenSettles(s, id);
    }
  }

  lemma GiveUpKeeps(s: State, id: string)
    requires IdSound(s, id)
    ensures IdSound(After(s, GiveUp), id)
  {
    if s.process.Working? && s.process.id == id && !ReachedLaunch(s.process.stage) {
      StageAtRest(At(s, id), s.process.executor, s.process.stage, s.ledgerOn);
    }
  }

  lemma FlushKeeps(s: State, f: string, id: string)
    requires IdSound(s, id)
    ensures IdSound(After(s, Flushed(f)), id)
  {
  }

  lemma ClearKeeps(s: State, c: string, id: string)
    requires IdSound(s, id)
    ensures IdSound(After(s, HumanClears(c)), id)
  {
  }

  lemma OthersKeep(s: State, e: Event, id: string)
    requires Invariant(s) && !IsWork(e)
    ensures IdSound(After(s, e), id)
  {
    assert IdSound(s, id);
    match e {
      case Resolve(r, reopens) => ResolveEventKeeps(s, r, reopens, id);
      case Open => OpenKeeps(s, id);
      case GiveUp => GiveUpKeeps(s, id);
      case Flushed(f) => FlushKeeps(s, f, id);
      case HumanClears(c) => ClearKeeps(s, c, id);
      case _ =>
    }
  }

  lemma {:induction false} AlwaysInvariant(ledgerOn: bool, events: seq<Event>)
    ensures Invariant(AfterAll(Unused(ledgerOn), events))
    ensures AfterAll(Unused(ledgerOn), events).ledgerOn == ledgerOn
  {
    if events != [] {
      var s, e := AfterAll(Unused(ledgerOn), events[..|events| - 1]), events[|events| - 1];
      AlwaysInvariant(ledgerOn, events[..|events| - 1]);
      forall id
        ensures IdSound(After(s, e), id)
      {
        if IsWork(e) {
          WorkKeeps(s, e, id);
        } else {
          OthersKeep(s, e, id);
        }
      }
    }
  }

  // ---------------------------------------------------------------- what holds over every run

  /** Over re-grants, reconnects, crashes and restarts on one root, an attempt is launched at most once. */
  lemma LaunchedAtMostOnce(ledgerOn: bool, events: seq<Event>, id: string)
    ensures At(AfterAll(Unused(ledgerOn), events), id).launches <= 1
  {
    AlwaysInvariant(ledgerOn, events);
    assert IdSound(AfterAll(Unused(ledgerOn), events), id);
  }

  /**
   For every crash schedule: a row is closed without a human only if the attempt never started,
   ran on the host, or has its report stored and its container's absence confirmed.
   */
  lemma ClosedWithoutHuman(ledgerOn: bool, events: seq<Event>, id: string)
    requires var a := At(AfterAll(Unused(ledgerOn), events), id); a.row.Some? && a.row.value.state.Closed? && !a.cleared
    ensures var a := At(AfterAll(Unused(ledgerOn), events), id);
            || a.launches == 0 || a.unstarted
            || a.row.value.executor == Host
            || (a.stored && a.gone)
  {
    AlwaysInvariant(ledgerOn, events);
    assert IdSound(AfterAll(Unused(ledgerOn), events), id);
  }

  /**
   A start-up takes work only when everything this root ever launched is accounted for: the
   attempt did not start after all, ran on the host, left a stored report and a container that
   is confirmed gone, or was cleared by a human.
   */
  lemma StartUpAccountsForAll(events: seq<Event>, id: string)
    requires var s := AfterAll(Unused(true), events); s.process.Starting? && After(s, Open).process.Idle?
    requires At(AfterAll(Unused(true), events), id).launches > 0
    ensures var a := At(AfterAll(Unused(true), events), id);
            && a.row.Some?
            && (a.unstarted || a.row.value.executor == Host || (a.stored && a.gone) || a.cleared)
  {
    AlwaysInvariant(true, events);
    assert IdSound(AfterAll(Unused(true), events), id);
    OpenSettles(AfterAll(Unused(true), events), id);
  }

  /**
   A started container attempt without both a stored report and a confirmed removal, in a process
   that is not working.
   */
  predicate Unsettled(s: State, id: string)
  {
    && (s.process.Down? || s.process.Starting?)
    && var a := At(s, id);
    && a.row.Some? && a.row.value.executor == Container
    && (a.row.value.state.LocalBlocked?
        || (a.row.value.state.Active? && a.journaled && !(a.stored && a.row.value.removed)))
  }

  lemma UnsettledStep(s: State, e: Event, id: string)
    requires Sound(At(s, id), s.ledgerOn) && Unsettled(s, id) && e != HumanClears(id)
    ensures Unsettled(After(s, e), id) && After(s, e).ledgerOn == s.ledgerOn
    ensures Sound(At(After(s, e), id), s.ledgerOn)
  {
    match e {
      case Resolve(r, reopens) => ResolveKeeps(At(s, id), reopens, s.ledgerOn);
      case Open =>
        assert id in s.attempts && !s.attempts[id].row.value.state.Closed?;
        assert BlocksNewWork(s);
      case _ =>
    }
  }

  /** Any such attempt makes every later start-up refuse work, until a human clears it. */
  lemma {:induction false} UnsettledRefusesWork(s: State, events: seq<Event>, id: string)
    requires Sound(At(s, id), s.ledgerOn) && Unsettled(s, id)
    requires forall i :: 0 <= i < |events| ==> events[i] != HumanClears(id)
    ensures var t := AfterAll(s, events);
            Unsettled(t, id) && Sound(At(t, id), t.ledgerOn) && !t.process.Idle? && !t.process.Working?
  {
    if events != [] {
      UnsettledRefusesWork(s, events[..|events| - 1], id);
      UnsettledStep(AfterAll(s, events[..|events| - 1]), events[|events| - 1], id);
    }
  }

  // ---------------------------------------------------------------- rows are kept

  /** A row that once was there is there, of the same executor; what is closed, blocked or removed stays so. */
  predicate RowStays(a: Attempt, b: Attempt)
  {
    a.row.Some? ==>
      && b.row.Some? && b.row.value.executor == a.row.value.executor
      && (a.row.value.removed ==> b.row.value.removed)
      && (a.row.value.state.Closed? ==> b.row == a.row)
      && (a.row.value.state.LocalBlocked? && b.row != a.row ==> b.row.value.state == Closed(ClearedByHuman))
  }

  lemma RowCloses(a: Attempt, reason: CloseReason)
    ensures RowStays(a, CloseActive(a, reason))
  {
  }

  lemma RowEnds(a: Attempt, outcome: Outcome)
    ensures RowStays(a, ExitRow(a, outcome))
  {
    RowCloses(a, NotStarted);
  }

  lemma RowResolves(a: Attempt, reopens: bool)
    ensures RowStays(a, ResolveRow(a, reopens))
  {
  }

  lemma RowWorkStep(a: Attempt, executor: Executor, stage: Stage, e: Event, ledgerOn: bool)
    requires IsWork(e)
    ensures RowStays(a, WorkStep(a, executor, stage, e, ledgerOn).0)
  {
    match e {
      case RecordExit(_) => if stage.Ran? { RowEnds(a, stage.outcome); }
      case SettleRow(_) => RowCloses(a, ReportPersisted);
      case WriteJournal(w, _) => RowCloses(Apply(w, a, a.(journaled := true)), NotStarted);
      case _ =>
    }
  }

  lemma RowWork(s: State, e: Event, id: string)
    requires IsWork(e)
    ensures RowStays(At(s, id), At(After(s, e), id))
  {
    if s.process.Working? && s.process.id == id {
      RowWorkStep(At(s, id), s.process.executor, s.process.stage, e, s.ledgerOn);
    }
  }

  lemma RowResolve(s: State, r: string, reopens: bool, id: string)
    ensures RowStays(At(s, id), At(After(s, Resolve(r, reopens)), id))
  {
    RowResolves(At(s, id), reopens);
  }

  lemma RowCleared(s: State, c: string, id: string)
    ensures RowStays(At(s, id), At(After(s, HumanClears(c)), id))
  {
  }

  lemma RowOther(s: State, e: Event, id: string)
    requires !IsWork(e)
    ensures RowStays(At(s, id), At(After(s, e), id))
  {
    match e {
      case Resolve(r, reopens) => RowResolve(s, r, reopens, id);
      case HumanClears(c) => RowCleared(s, c, id);
      case _ =>
    }
  }

  /** Over every run a row is never rewritten: no grant, crash or start-up opens a closed row or lifts a block. */
  lemma {:induction false} RowsAreKept(s: State, events: seq<Event>, id: string)
    ensures RowStays(At(s, id), At(AfterAll(s, events), id))
  {
    if events != [] {
      RowsAreKept(s, events[..|events| - 1], id);
      var t, e := AfterAll(s, events[..|events| - 1]), events[|events| - 1];
      if IsWork(e) {
        RowWork(t, e, id);
      } else {
        RowOther(t, e, id);
      }
    }
  }

  /** The stage at which a step of the process can be taken. */
  predicate InTurn(e: Event, stage: Stage)
  {
    match e
    case Check => stage.Granted? || stage.CheckedBeforeCleanup?
    case SendAck => stage.CheckedBeforeAck?
    case Receive => stage.AckSent?
    case WriteRow(_) => stage.Receipted?
    case WriteJournal(_, _) => stage.RowWritten?
    case ConfirmStart => stage.Journaled?
    case Launch => stage.StartConfirmed?
    case Finish(_) => stage.Launched?
    case RecordExit(_) => stage.Ran?
    case StoreReport(_) => stage.ExitRecorded?
    case SettleRow(_) => stage.ReportStored?
    case Deliver(_) => stage.RowSettled?
    case _ => false
  }

  /** The steps are taken in this order only. */
  lemma OutOfTurn(a: Attempt, executor: Executor, stage: Stage, e: Event, ledgerOn: bool)
    requires !InTurn(e, stage)
    ensures WorkStep(a, executor, stage, e, ledgerOn) == (a, Some(stage))
  {
  }

  /** The state of the process in which an event can happen. */
  predicate Possible(e: Event, process: Process)
  {
    match e
    case Crash => true
    case Start => process.Down?
    case HumanClears(_) => process.Down?
    case Resolve(_, _) => process.Starting?
    case Open => process.Starting?
    case Flushed(_) => process.Idle?
    case Grant(_, _) => process.Idle?
    case _ => process.Working? && (e.GiveUp? || InTurn(e, process.stage))
  }

  /** One state cannot be told from another by what it holds for each attempt. */
  predicate Same(s: State, t: State)
  {
    && s.process == t.process && s.ledgerOn == t.ledgerOn
    && (forall id :: id in s.attempts ==> At(t, id) == s.attempts[id])
    && (forall id :: id in t.attempts ==> At(s, id) == t.attempts[id])
  }

  /** Nothing happens at any other time: one process works at a time, and it takes up nothing new before it is done. */
  lemma OnlyWhenPossible(s: State, e: Event)
    requires !Possible(e, s.process)
    ensures Same(s, After(s, e))
  {
    if s.process.Working? && IsWork(e) {
      OutOfTurn(At(s, s.process.id), s.process.executor, s.process.stage, e, s.ledgerOn);
    }
  }

  /** A start's flush takes a delivered report out of the outbox and touches nothing else of the attempt. */
  lemma FlushDelivers(s: State, id: string)
    requires s.process.Idle?
    ensures var t := After(s, Flushed(id));
            t.process == Idle && At(t, id) == At(s, id).(inOutbox := false)
            && forall other :: other != id ==> At(t, other) == At(s, other)
  {
  }

  // ---------------------------------------------------------------- what a start-up makes of the rows

  /** A container attempt that may have started, without both its report at hand and its removal on record. */
  predicate MayHaveRun(a: Attempt, reopens: bool)
    requires a.row.Some?
  {
    a.row.value.executor == Container && a.journaled && !(a.inOutbox && reopens && a.row.value.removed)
  }

  /** What an open row must become. */
  function Resolution(a: Attempt, reopens: bool): (state: RowState)
    requires a.row.Some?
  {
    if MayHaveRun(a, reopens) then LocalBlocked
    else if !a.journaled then Closed(NoSentinel)
    else if a.row.value.executor == Host then Closed(HostRestart)
    else Closed(ReportPersisted)
  }

  /**
   At start-up an open row is blocked exactly when its container attempt may have run unaccounted
   for; otherwise it is closed, and nothing else changes.
   */
  lemma ResolveIff(s: State, id: string, reopens: bool)
    requires s.process.Starting? && At(s, id).row.Some? && At(s, id).row.value.state == Active
    ensures var a, t := At(s, id), After(s, Resolve(id, reopens));
            && At(t, id) == a.(row := Some(a.row.value.(state := Resolution(a, reopens))))
            && (At(t, id).row.value.state == LocalBlocked <==> MayHaveRun(a, reopens))
            && t.process == Starting && forall other :: other != id ==> At(t, other) == At(s, other)
  {
  }

  function Resolves(ids: seq<string>, reopens: string -> bool): (events: seq<Event>)
    ensures |events| == |ids|
  {
    seq(|ids|, i requires 0 <= i < |ids| => Resolve(ids[i], reopens(ids[i])))
  }

  /** What stands in the way of new work once every row is resolved. */
  predicate Unaccounted(a: Attempt, reopens: bool)
  {
    a.row.Some? && (a.row.value.state == LocalBlocked || (a.row.value.state == Active && MayHaveRun(a, reopens)))
  }

  /** The attempt before and after the start-up has gone through the rows. */
  predicate Through(a: Attempt, b: Attempt, reopens: bool)
  {
    if a.row.None? || a.row.value.state != Active then b == a
    else b == a.(row := Some(a.row.value.(state := Resolution(a, reopens))))
  }

  lemma ThroughOnce(s: State, id: string, a: Attempt, reopens: bool)
    requires s.process.Starting? && id in s.attempts && (At(s, id) == a || Through(a, At(s, id), reopens))
    ensures Through(a, At(After(s, Resolve(id, reopens)), id), reopens)
  {
  }

  lemma {:induction false} ResolvesAll(s: State, ids: seq<string>, reopens: string -> bool, id: string)
    requires s.process.Starting?
    ensures var t := AfterAll(s, Resolves(ids, reopens));
            && t.process.Starting? && t.attempts.Keys == s.attempts.Keys
            && if id in ids && id in s.attempts then Through(At(s, id), At(t, id), reopens(id))
               else At(t, id) == At(s, id)
  {
    var events := Resolves(ids, reopens);
    if ids != [] {
      var n := |ids| - 1;
      assert events[..n] == Resolves(ids[..n], reopens);
      assert ids == ids[..n] + [ids[n]];
      ResolvesAll(s, ids[..n], reopens, id);
      var t := AfterAll(s, events[..n]);
      if ids[n] == id && id in s.attempts {
        ThroughOnce(t, id, At(s, id), reopens(id));
      }
    }
  }

  /** A start-up that has gone through every row takes work exactly when no attempt is unaccounted for. */
  lemma StartUpTakesWorkIff(s: State, ids: seq<string>, reopens: string -> bool)
    requires s.process.Starting? && forall id :: id in s.attempts ==> id in ids
    ensures After(AfterAll(s, Resolves(ids, reopens)), Open).process
            == if exists id :: id in s.attempts && Unaccounted(s.attempts[id], reopens(id)) then Down else Idle
  {
    var t := AfterAll(s, Resolves(ids, reopens));
    forall id
      ensures t.process.Starting? && t.attempts.Keys == s.attempts.Keys
      ensures id in s.attempts ==> (Unaccounted(s.attempts[id], reopens(id)) <==>
                t.attempts[id].row.Some? && !t.attempts[id].row.value.state.Closed?)
    {
      ResolvesAll(s, ids, reopens, id);
    }
  }

  // ---------------------------------------------------------------- finished attempts

  /** Report stored and removal confirmed. */
  predicate Finished(a: Attempt)
  {
    a.row.Some? && a.row.value.executor == Container && a.row.value.removed && a.stored && a.launches == 1
    && (a.row.value.state.Active? || a.row.value.state == Closed(ReportPersisted))
  }

  /** At start-up a finished attempt whose row is still open is blocked exactly when its report cannot be reopened. */
  lemma FinishedBlockedIff(ledgerOn: bool, events: seq<Event>, id: string, reopens: bool)
    requires var s := AfterAll(Unused(ledgerOn), events);
             s.process.Starting? && Finished(At(s, id)) && IsActive(At(s, id))
    ensures var s := AfterAll(Unused(ledgerOn), events);
            var state := At(After(s, Resolve(id, reopens)), id).row.value.state;
            && (state.LocalBlocked? <==> !reopens)
            && (state == Closed(ReportPersisted) <==> reopens)
  {
    AlwaysInvariant(ledgerOn, events);
    assert IdSound(AfterAll(Unused(ledgerOn), events), id);
  }

  lemma Snoc(s: State, events: seq<Event>, e: Event)
    ensures AfterAll(s, events + [e]) == After(AfterAll(s, events), e)
  {
    assert (events + [e])[..|events|] == events;
  }

  /** The process works on the attempt and has come this far with it. */
  predicate Reaches(s: State, id: string, executor: Executor, stage: Stage, a: Attempt)
  {
    s.ledgerOn && s.process == Working(id, executor, stage) && At(s, id) == a
  }

  lemma StepReaches(s: State, events: seq<Event>, id: string, executor: Executor, stage: Stage, a: Attempt, e: Event,
                    next: Stage, b: Attempt) returns (more: seq<Event>)
    requires Reaches(AfterAll(s, events), id, executor, stage, a)
    requires IsWork(e) && WorkStep(a, executor, stage, e, true) == (b, Some(next))
    ensures more == events + [e] && Reaches(AfterAll(s, more), id, executor, next, b)
  {
    more := events + [e];
    Snoc(s, events, e);
  }

  lemma ReachesChecked(s: State, id: string, executor: Executor) returns (events: seq<Event>)
    requires s.ledgerOn && s.process.Idle? && At(s, id) == UNKNOWN
    ensures events == [Grant(id, executor), Check, Check]
    ensures Reaches(AfterAll(s, events), id, executor, CheckedBeforeAck, UNKNOWN)
  {
    Snoc(s, [], Grant(id, executor));
    events := StepReaches(s, [] + [Grant(id, executor)], id, executor, Granted, UNKNOWN, Check, CheckedBeforeCleanup,
        UNKNOWN);
    events := StepReaches(s, events, id, executor, CheckedBeforeCleanup, UNKNOWN, Check, CheckedBeforeAck, UNKNOWN);
  }

  /** The start of a run nothing goes wrong in, up to the ledger row. */
  lemma ReachesReceipt(s: State, id: string, executor: Executor) returns (events: seq<Event>)
    requires s.ledgerOn && s.process.Idle? && At(s, id) == UNKNOWN
    ensures events == [Grant(id, executor), Check, Check, SendAck, Receive]
    ensures Reaches(AfterAll(s, events), id, executor, Receipted, UNKNOWN)
  {
    events := ReachesChecked(s, id, executor);
    events := StepReaches(s, events, id, executor, CheckedBeforeAck, UNKNOWN, SendAck, AckSent, UNKNOWN);
    events := StepReaches(s, events, id, executor, AckSent, UNKNOWN, Receive, Receipted, UNKNOWN);
  }

  function Launching(executor: Executor): (a: Attempt)
  {
    Attempt(Some(Row(executor, Active, false)), true, false, 1, false, false, false, false)
  }

  lemma ReachesLaunch(s: State, id: string, executor: Executor) returns (events: seq<Event>)
    requires s.ledgerOn && s.process.Idle? && At(s, id) == UNKNOWN
    ensures events == [Grant(id, executor), Check, Check, SendAck, Receive, WriteRow(Written),
                       WriteJournal(Written, Written), ConfirmStart, Launch]
    ensures Reaches(AfterAll(s, events), id, executor, Launched, Launching(executor))
  {
    events := ReachesReceipt(s, id, executor);
    var written := UNKNOWN.(row := Some(Row(executor, Active, false)));
    events := StepReaches(s, events, id, executor, Receipted, UNKNOWN, WriteRow(Written), RowWritten, written);
    var journaled := written.(journaled := true);
    events := StepReaches(s, events, id, executor, RowWritten, written, WriteJournal(Written, Written), Journaled,
        journaled);
    events := StepReaches(s, events, id, executor, Journaled, journaled, ConfirmStart, StartConfirmed, journaled);
    events := StepReaches(s, events, id, executor, StartConfirmed, journaled, Launch, Launched, Launching(executor));
  }

  // ---------------------------------------------------------------- a run nothing goes wrong in

  /** Every step succeeds; what the execution comes to and whether the report is acknowledged is left open. */
  function Undisturbed(id: string, executor: Executor, outcome: Outcome, acknowledged: bool): (events: seq<Event>)
  {
    [Grant(id, executor), Check, Check, SendAck, Receive, WriteRow(Written), WriteJournal(Written, Written),
     ConfirmStart, Launch]
    + [Finish(outcome), RecordExit(Written), StoreReport(Written), SettleRow(Written), Deliver(acknowledged)]
  }

  /** How the row must end. */
  function Settled(executor: Executor, outcome: Outcome): (state: RowState)
  {
    match outcome
    case DidNotStart => Closed(NotStarted)
    case Ended(gone) => if executor == Host || gone then Closed(ReportPersisted) else LocalBlocked
    case _ => if executor == Host then Active else LocalBlocked
  }

  function EndsAs(executor: Executor, outcome: Outcome, acknowledged: bool): (a: Attempt)
  {
    var row := Row(executor, Settled(executor, outcome), executor == Container && outcome == Ended(true));
    Attempt(Some(row), true, outcome.Ended? && !acknowledged, 1, outcome.DidNotStart?, outcome == Ended(true),
            outcome.Ended?, false)
  }

  function Came(executor: Executor, outcome: Outcome): (a: Attempt)
  {
    Launching(executor).(unstarted := outcome.DidNotStart?, gone := outcome == Ended(true))
  }

  function Stored(a: Attempt): (r: Attempt)
  {
    a.(inOutbox := true, stored := true)
  }

  /** The attempt once its end is on record. */
  function Recorded(executor: Executor, gone: bool): (a: Attempt)
  {
    ExitRow(Came(executor, Ended(gone)), Ended(gone))
  }

  lemma SettledAs(executor: Executor, gone: bool)
    ensures CloseActive(Stored(Recorded(executor, gone)), ReportPersisted) == EndsAs(executor, Ended(gone), false)
  {
  }

  lemma ReachesRecorded(s: State, events: seq<Event>, id: string, executor: Executor, gone: bool)
    returns (more: seq<Event>)
    requires Reaches(AfterAll(s, events), id, executor, Ran(Ended(gone)), Came(executor, Ended(gone)))
    ensures more == events + [RecordExit(Written)]
    ensures Reaches(AfterAll(s, more), id, executor, ExitRecorded, Recorded(executor, gone))
  {
    more := StepReaches(s, events, id, executor, Ran(Ended(gone)), Came(executor, Ended(gone)), RecordExit(Written),
        ExitRecorded, Recorded(executor, gone));
  }

  lemma ReachesSettled(s: State, events: seq<Event>, id: string, executor: Executor, a: Attempt)
    returns (more: seq<Event>)
    requires Reaches(AfterAll(s, events), id, executor, ExitRecorded, a)
    ensures more == events + [StoreReport(Written)] + [SettleRow(Written)]
    ensures Reaches(AfterAll(s, more), id, executor, RowSettled, CloseActive(Stored(a), ReportPersisted))
  {
    more := StepReaches(s, events, id, executor, ExitRecorded, a, StoreReport(Written), ReportStored, Stored(a));
    more := StepReaches(s, more, id, executor, ReportStored, Stored(a), SettleRow(Written), RowSettled,
        CloseActive(Stored(a), ReportPersisted));
  }

  function Tail(acknowledged: bool): (events: seq<Event>)
  {
    [RecordExit(Written), StoreReport(Written), SettleRow(Written), Deliver(acknowledged)]
  }

  /** The process is done with the attempt and has ended. */
  predicate Over(s: State, id: string, a: Attempt)
  {
    s.process == Down && At(s, id) == a
  }

  lemma Delivers(s: State, events: seq<Event>, id: string, executor: Executor, a: Attempt, acknowledged: bool)
    requires Reaches(AfterAll(s, events), id, executor, RowSettled, a)
    ensures Over(AfterAll(s, events + [Deliver(acknowledged)]), id, if acknowledged then a.(inOutbox := false) else a)
  {
    Snoc(s, events, Deliver(acknowledged));
  }

  lemma RunEnds(s: State, events: seq<Event>, id: string, executor: Executor, gone: bool, acknowledged: bool)
    requires Reaches(AfterAll(s, events), id, executor, Ran(Ended(gone)), Came(executor, Ended(gone)))
    ensures Over(AfterAll(s, events + Tail(acknowledged)), id, EndsAs(executor, Ended(gone), acknowledged))
  {
    var more := ReachesRecorded(s, events, id, executor, gone);
    more := ReachesSettled(s, more, id, executor, Recorded(executor, gone));
    SettledAs(executor, gone);
    Delivers(s, more, id, executor, EndsAs(executor, Ended(gone), false), acknowledged);
    assert more + [Deliver(acknowledged)] == events + Tail(acknowledged);
  }

  lemma BreaksOff(s: State, events: seq<Event>, id: string, executor: Executor, outcome: Outcome, acknowledged: bool)
    requires Reaches(AfterAll(s, events), id, executor, Ran(outcome), Came(executor, outcome)) && !outcome.Ended?
    ensures Over(AfterAll(s, events + [RecordExit(Written)]), id, EndsAs(executor, outcome, acknowledged))
  {
    Snoc(s, events, RecordExit(Written));
  }

  /** A process that has ended does nothing more. */
  lemma StaysOver(s: State, events: seq<Event>, id: string, a: Attempt, e: Event)
    requires Over(AfterAll(s, events), id, a) && IsWork(e)
    ensures Over(AfterAll(s, events + [e]), id, a)
  {
    Snoc(s, events, e);
  }

  lemma RunBreaksOff(s: State, events: seq<Event>, id: string, executor: Executor, outcome: Outcome, acknowledged: bool)
    requires Reaches(AfterAll(s, events), id, executor, Ran(outcome), Came(executor, outcome)) && !outcome.Ended?
    ensures Over(AfterAll(s, events + Tail(acknowledged)), id, EndsAs(executor, outcome, acknowledged))
  {
    var a := EndsAs(executor, outcome, acknowledged);
    BreaksOff(s, events, id, executor, outcome, acknowledged);
    var more := events + [RecordExit(Written)];
    StaysOver(s, more, id, a, StoreReport(Written));
    StaysOver(s, more + [StoreReport(Written)], id, a, SettleRow(Written));
    StaysOver(s, more + [StoreReport(Written)] + [SettleRow(Written)], id, a, Deliver(acknowledged));
    assert events + Tail(acknowledged)
        == more + [StoreReport(Written)] + [SettleRow(Written)] + [Deliver(acknowledged)];
  }

  /**
   From any state a process can take work in, a new attempt whose every step succeeds is launched once
   and ends with its row settled as the outcome demands; the report waits in the outbox exactly until
   it is acknowledged.
   */
  lemma UndisturbedRun(s: State, id: string, executor: Executor, outcome: Outcome, acknowledged: bool)
    requires s.ledgerOn && s.process.Idle? && At(s, id) == UNKNOWN
    ensures Over(AfterAll(s, Undisturbed(id, executor, outcome, acknowledged)), id,
                 EndsAs(executor, outcome, acknowledged))
  {
    var events := ReachesLaunch(s, id, executor);
    var more := StepReaches(s, events, id, executor, Launched, Launching(executor), Finish(outcome), Ran(outcome),
        Came(executor, outcome));
    if outcome.Ended? {
      RunEnds(s, more, id, executor, outcome.gone, acknowledged);
    } else {
      RunBreaksOff(s, more, id, executor, outcome, acknowledged);
    }
    assert more + Tail(acknowledged) == Undisturbed(id, executor, outcome, acknowledged);
  }

  /** A journal that cannot be written leaves no open row behind, and the attempt is given up without a launch. */
  lemma JournalFailureSettles(ledgerOn: bool, events: seq<Event>, w: Write)
    requires var s := AfterAll(Unused(ledgerOn), events); s.process.Working? && s.process.stage == RowWritten
    requires !w.Written?
    ensures var s := AfterAll(Unused(ledgerOn), events);
            var a, t := At(s, s.process.id), After(s, WriteJournal(w, Written));
            var b := At(t, s.process.id);
            && !t.process.Working? && b.launches == a.launches
            && (ledgerOn ==> b.row == Some(Row(s.process.executor, Closed(NotStarted), false)))
            && (b.journaled <==> w.FailedWritten?)
  {
    AlwaysInvariant(ledgerOn, events);
    var s := AfterAll(Unused(ledgerOn), events);
    assert IdSound(s, s.process.id);
  }

  /** The ledger's own guard: whoever asks, a container row is closed only for a reason that fits a container. */
  lemma ClosesIff(a: Attempt, reason: CloseReason)
    ensures CloseActive(a, reason) != a <==>
              && a.row.Some? && a.row.value.state == Active
              && (a.row.value.executor == Container ==>
                    reason != HostRestart && (reason == ReportPersisted ==> a.row.value.removed))
    ensures CloseActive(a, reason) != a ==>
              CloseActive(a, reason) == a.(row := Some(a.row.value.(state := Closed(reason))))
  {
  }

  /** A blocked row is opened up by a human and only while no process works on the root; nothing else changes. */
  lemma ClearedOnlyByHand(s: State, id: string)
    requires At(s, id).row.Some? && At(s, id).row.value.state == LocalBlocked
    ensures var a, t := At(s, id), After(s, HumanClears(id));
            if s.process == Down then
              && At(t, id) == a.(row := Some(a.row.value.(state := Closed(ClearedByHuman))), cleared := true)
              && t.process == Down && forall other :: other != id ==> At(t, other) == At(s, other)
            else t == s
  {
  }

  /**
   An error before the launch may lead to another connection - a process that ends there instead is
   one that crashes - and one behind the launch never does.
   */
  lemma GiveUpIff(s: State)
    requires s.process.Working?
    ensures var stage := s.process.stage;
            After(s, GiveUp).process
            == if stage in {Granted, CheckedBeforeCleanup, CheckedBeforeAck, AckSent, Receipted, RowWritten, Journaled,
                            StartConfirmed} then Idle else Down
  {
  }

  /**
   The blocked case is real: the process dies between storing the report and closing the row,
   and the next start-up cannot reopen the report at that moment.
   */
  lemma FinishedCanBeBlocked(id: string) returns (events: seq<Event>)
    ensures var s := AfterAll(Unused(true), events); s.process.Starting? && Finished(At(s, id)) && IsActive(At(s, id))
    ensures At(After(AfterAll(Unused(true), events), Resolve(id, false)), id).row.value.state.LocalBlocked?
  {
    Snoc(Unused(true), [], Start);
    Snoc(Unused(true), [Start], Open);
    var idle := AfterAll(Unused(true), [Start, Open]);
    events := ReachesLaunch(idle, id, Container);
    var ran := Launching(Container).(gone := true);
    events := StepReaches(idle, events, id, Container, Launched, Launching(Container), Finish(Ended(true)),
        Ran(Ended(true)), ran);
    var recorded := ran.(row := Some(Row(Container, Active, true)));
    events := StepReaches(idle, events, id, Container, Ran(Ended(true)), ran, RecordExit(Written), ExitRecorded,
        recorded);
    events := StepReaches(idle, events, id, Container, ExitRecorded, recorded, StoreReport(Written), ReportStored,
        recorded.(inOutbox := true, stored := true));
    Snoc(idle, events, Crash);
    Snoc(idle, events + [Crash], Start);
    Joined(Unused(true), [Start, Open], events + [Crash] + [Start]);
    events := [Start, Open] + (events + [Crash] + [Start]);
    FinishedBlockedIff(true, events, id, false);
  }

  lemma {:induction false} Joined(s: State, before: seq<Event>, after: seq<Event>)
    ensures AfterAll(s, before + after) == AfterAll(AfterAll(s, before), after)
    decreases |after|
  {
    if after == [] {
      assert before + after == before;
    } else {
      var n := |after| - 1;
      assert (before + after)[..|before| + n] == before + after[..n];
      Joined(s, before, after[..n]);
    }
  }

  lemma FinishedWorkStep(a: Attempt, executor: Executor, stage: Stage, e: Event)
    requires Sound(a, true) && StageSound(a, executor, stage, true) && Finished(a) && IsWork(e)
    ensures Finished(WorkStep(a, executor, stage, e, true).0)
  {
    match e {
      case WriteRow(_) =>
      case WriteJournal(_, _) =>
      case SettleRow(_) =>
      case _ =>
    }
  }

  lemma FinishedOtherStep(s: State, e: Event, id: string)
    requires Invariant(s) && Finished(At(s, id)) && !IsWork(e) && !FailsToReopen(s, e, id)
    ensures Finished(At(After(s, e), id))
  {
    assert IdSound(s, id);
  }

  /** A start-up resolves the attempt's row, still open, and cannot reopen its report. */
  predicate FailsToReopen(s: State, e: Event, id: string)
  {
    e == Resolve(id, false) && IsActive(At(s, id))
  }

  /** Event `i` of what follows is not such a start-up. */
  ghost predicate ReopensAt(before: seq<Event>, after: seq<Event>, i: nat, id: string)
    requires i < |after|
  {
    !FailsToReopen(AfterAll(Unused(true), before + after[..i]), after[i], id)
  }

  /**
   No crash, restart or failed write turns a finished attempt into a blocked one, and neither does a
   report that is gone once its row is closed.
   */
  lemma {:induction false} FinishedStaysFinished(before: seq<Event>, after: seq<Event>, id: string)
    requires Finished(At(AfterAll(Unused(true), before), id))
    requires forall i :: 0 <= i < |after| ==> ReopensAt(before, after, i, id)
    ensures Finished(At(AfterAll(Unused(true), before + after), id))
    decreases |after|
  {
    if after == [] {
      assert before + after == before;
    } else {
      var n := |after| - 1;
      forall i | 0 <= i < n
        ensures ReopensAt(before, after[..n], i, id)
      {
        assert ReopensAt(before, after, i, id) && after[..n][..i] == after[..i];
      }
      FinishedStaysFinished(before, after[..n], id);
      assert ReopensAt(before, after, n, id);
      FinishedStep(before + after[..n], after[n], id);
      assert before + after == before + after[..n] + [after[n]];
    }
  }

  lemma FinishedStep(events: seq<Event>, e: Event, id: string)
    requires var s := AfterAll(Unused(true), events); Finished(At(s, id)) && !FailsToReopen(s, e, id)
    ensures Finished(At(AfterAll(Unused(true), events + [e]), id))
  {
    var s := AfterAll(Unused(true), events);
    Snoc(Unused(true), events, e);
    AlwaysInvariant(true, events);
    assert IdSound(s, id);
    if !IsWork(e) {
      FinishedOtherStep(s, e, id);
    } else if s.process.Working? && s.process.id == id {
      FinishedWorkStep(At(s, id), s.process.executor, s.process.stage, e);
    }
  }

  /**
   After a crash or an orderly end, a launched container attempt with a ledger row is closed for a
   true reason, finished, or unsettled.
   */
  lemma LaunchedContainerCases(events: seq<Event>, id: string)
    requires var s := AfterAll(Unused(true), events); s.process.Down? && At(s, id).launches > 0
    requires var row := At(AfterAll(Unused(true), events), id).row; row.Some? ==> row.value.executor == Container
    ensures var s := AfterAll(Unused(true), events);
            var a := At(s, id);
            && a.row.Some?
            && (Finished(a) || Unsettled(s, id)
                || (a.row.value.state.Closed? && (a.cleared || a.unstarted || (a.stored && a.gone))))
  {
    AlwaysInvariant(true, events);
    assert IdSound(AfterAll(Unused(true), events), id);
  }

  // ---------------------------------------------------------------- the container run behind an outcome

  /** How `execute_in_container` and its caller read the result of a container run. */
  function OutcomeOf(r: ContainerRun.RunResult): (o: Outcome)
  {
    match r
    case NotStarted(_) => if ContainerRun.NeedsHuman(r) then MayRun else DidNotStart
    case Unobserved(stopped, _, _) => if stopped then Ended(!ContainerRun.NeedsHuman(r)) else MayRun
    case Finished(_, _, _) => Ended(!ContainerRun.NeedsHuman(r))
  }

  /**
   The outcomes the ledger closes on are true: no start reached the runtime, or the container is
   gone for good. What did not start is gone too, unless its create went unanswered.
   */
  lemma OutcomeIsTrue(r: ContainerRun.RunResult, f: ContainerRuntime.Facts, w: ContainerRuntime.World, paths: bool)
    requires ContainerRun.Honest(r, f, w, paths)
    ensures OutcomeOf(r).DidNotStart? ==>
              !f.startReached && ContainerRuntime.Quiet(w) && (ContainerRuntime.Gone(w) || f.createOpen)
    ensures OutcomeOf(r) == Ended(true) ==> ContainerRuntime.Gone(w)
    ensures OutcomeOf(r).DidNotStart? <==> r.NotStarted? && r.container == ContainerRun.Removed
    ensures OutcomeOf(r) == Ended(true) <==>
              !r.NotStarted? && r.container == ContainerRun.Removed && (r.Unobserved? ==> r.stopped)
    ensures OutcomeOf(r).MayRun? <==>
              if r.NotStarted? then r.container != ContainerRun.Removed else r.Unobserved? && !r.stopped
    ensures OutcomeOf(r).MayRun? ==> ContainerRun.NeedsHuman(r)
    ensures OutcomeOf(r) != OtherFailure
  {
  }
}
