/**
 Pausing, resuming and stopping one container. The three operations take turns behind a lock;
 each sends a command that may not spawn, may be refused, or may time out with its effect
 applied, not applied or applied later, and then asks whether the container is frozen.
 */
module PauseControl {
  datatype PauseState = Running | Paused | Unknown

  datatype Operation = Pause | Resume | Stop

  /** Who holds the lock, and how far the operation has come. */
  datatype Holder =
    | Free
    | Entered(op: Operation)
    | Sending(op: Operation, freeze: bool)
    | Confirming(op: Operation, freeze: bool)
    | Killing(thawTried: bool)

  /** The container, and the timed-out commands that may still be applied to it. */
  datatype Container = Container(alive: bool, frozen: bool, pausesPending: nat, unpausesPending: nat)

  /**
   A kill as sent: whether the container was frozen, what was recorded, whether an unpause was
   tried before it, and whether a late pause had come in since the record was confirmed.
   */
  datatype Kill = Kill(byOwner: bool, frozen: bool, recorded: PauseState, thawTried: bool, latePause: bool)

  /**
   Since the last confirmed answer: commands applied after their operation had ended, and an
   unconfirmed unpause sent by a stop.
   */
  datatype History = History(latePause: bool, lateUnpause: bool, thawByStop: bool)

  /**
   Whether some pause, or some unpause, has come back saying that it could not be confirmed, and
   whether a pause was confirmed when the state before it was not known.
   */
  datatype Doubts = Doubts(pause: bool, unpause: bool, overUnknown: bool)

  datatype State = State(
    c: Container, recorded: PauseState, stopRequested: bool, holder: Holder, past: History,
    doubts: Doubts, kills: seq<Kill>)

  /** `applied` by the time of the answer; an accepted or unanswered command that is not may be applied later. */
  datatype Outcome = NotSpawned | Accepted(applied: bool) | Refused(applied: bool) | NoAnswer(applied: bool)

  datatype Event =
    | StopRequested
    | Acquire(op: Operation)
    | Decide
    | Send(outcome: Outcome)
    | Confirm(answered: bool)
    | SendKill
    | RunThreadKills
    | Exits
    | LatePause
    | LateUnpause

  const STARTED: State :=
    State(Container(true, false, 0, 0), Running, false, Free, CLEAR, NO_DOUBT, [])

  const CLEAR: History := History(false, false, false)

  const NO_DOUBT: Doubts := Doubts(false, false, false)

  function Freeze(c: Container, freeze: bool): (r: Container)
  {
    if c.alive then c.(frozen := freeze) else c
  }

  /** The effect of `pause` or `unpause` as sent. */
  function Command(c: Container, freeze: bool, outcome: Outcome): (r: Container)
  {
    match outcome
    case NotSpawned => c
    case Refused(applied) => if applied then Freeze(c, freeze) else c
    case _ => if outcome.applied then Freeze(c, freeze) else Leave(c, freeze)
  }

  function Leave(c: Container, freeze: bool): (r: Container)
  {
    if freeze then c.(pausesPending := c.pausesPending + 1) else c.(unpausesPending := c.unpausesPending + 1)
  }

  /** What an operation does first, once it holds the lock. */
  function AfterDecide(s: State, op: Operation): (h: Holder)
  {
    match op
    case Pause => if s.stopRequested || s.recorded == Paused then Free else Sending(Pause, true)
    case Resume => if s.stopRequested || s.recorded == Running then Free else Sending(Resume, false)
    case Stop => if s.recorded == Running then Killing(false) else Sending(Stop, false)
  }

  /** `set_paused` after the command: one that did not spawn ends the operation, anything else is asked about. */
  function AfterSend(s: State, op: Operation, freeze: bool, outcome: Outcome): (t: State)
  {
    if outcome.NotSpawned? then s.(holder := if op == Stop then Killing(true) else Free)
    else
      State(Command(s.c, freeze, outcome), s.recorded, s.stopRequested, Confirming(op, freeze),
            s.past.(thawByStop := s.past.thawByStop || op == Stop), s.doubts, s.kills)
  }

  function Doubted(d: Doubts, freeze: bool): (r: Doubts)
  {
    if freeze then d.(pause := true) else d.(unpause := true)
  }

  /** Recorded only when the answer is the wanted one; a stop that could not thaw records nothing. */
  function AfterConfirm(s: State, op: Operation, freeze: bool, answered: bool): (t: State)
  {
    var next := if op == Stop then Killing(true) else Free;
    if answered && s.c.frozen == freeze then
      State(s.c, Wanted(freeze), s.stopRequested, next, CLEAR,
            s.doubts.(overUnknown := s.doubts.overUnknown || (freeze && s.recorded == Unknown)), s.kills)
    else
      s.(recorded := if op == Stop then s.recorded else Unknown, holder := next, doubts := Doubted(s.doubts, freeze))
  }

  function AfterLate(s: State, freeze: bool): (t: State)
    requires if freeze then s.c.pausesPending > 0 else s.c.unpausesPending > 0
  {
    var late := !(s.holder.Confirming? && s.holder.freeze == freeze);
    var c := Freeze(s.c, freeze);
    if freeze then s.(c := c.(pausesPending := c.pausesPending - 1),
        past := s.past.(latePause := s.past.latePause || late))
    else s.(c := c.(unpausesPending := c.unpausesPending - 1),
        past := s.past.(lateUnpause := s.past.lateUnpause || late))
  }

  function KillOf(s: State, byOwner: bool, thawTried: bool): (k: Kill)
  {
    Kill(byOwner, s.c.frozen, s.recorded, thawTried, s.past.latePause)
  }

  /** One step; an event that is not possible changes nothing. */
  function After(s: State, e: Event): (t: State)
  {
    match e
    case StopRequested => s.(stopRequested := true)
    case Acquire(op) => if s.holder.Free? && (op == Stop ==> s.stopRequested) then s.(holder := Entered(op)) else s
    case Decide => if s.holder.Entered? then s.(holder := AfterDecide(s, s.holder.op)) else s
    case Send(outcome) => if s.holder.Sending? then AfterSend(s, s.holder.op, s.holder.freeze, outcome) else s
    case Confirm(answered) => if s.holder.Confirming? then AfterConfirm(s, s.holder.op, s.holder.freeze, answered)
        else s
    case SendKill =>
      if s.holder.Killing? then s.(kills := s.kills + [KillOf(s, true, s.holder.thawTried)], holder := Free) else s
    case RunThreadKills => s.(kills := s.kills + [KillOf(s, false, false)])
    case Exits => s.(c := s.c.(alive := false, frozen := false))
    case LatePause => if s.c.pausesPending > 0 then AfterLate(s, true) else s
    case LateUnpause => if s.c.unpausesPending > 0 then AfterLate(s, false) else s
  }

  function AfterAll(s: State, events: seq<Event>): (t: State)
    decreases |events|
  {
    if events == [] then s else After(AfterAll(s, events[..|events| - 1]), events[|events| - 1])
  }

  // ---------------------------------------------------------------- what is recorded is true

  /** An operation is between its command and its record. */
  predicate Moving(s: State, freeze: bool)
  {
    s.holder.Confirming? && s.holder.freeze == freeze
  }

  predicate RunningIsTrue(s: State)
  {
    s.recorded == Running && !s.past.latePause && !Moving(s, true) ==> !s.c.frozen
  }

  predicate PausedIsTrue(s: State)
  {
    s.recorded == Paused && !s.past.lateUnpause && !s.past.thawByStop && !Moving(s, false) ==> s.c.frozen || !s.c.alive
  }

  function Wanted(freeze: bool): (r: PauseState)
  {
    if freeze then Paused else Running
  }

  predicate HolderSound(s: State)
  {
    match s.holder
    case Sending(op, freeze) => (freeze <==> op == Pause) && s.recorded != Wanted(freeze)
    case Confirming(op, freeze) =>
      (freeze <==> op == Pause) && s.recorded != Wanted(freeze) && (op == Stop ==> s.past.thawByStop)
    case Killing(thawTried) => thawTried || s.recorded == Running
    case _ => true
  }

  predicate Core(s: State)
  {
    RunningIsTrue(s) && PausedIsTrue(s) && HolderSound(s) && (s.c.frozen ==> s.c.alive)
  }

  predicate KillAllowed(k: Kill)
  {
    k.byOwner && !k.thawTried ==> k.recorded == Running && (k.frozen ==> k.latePause)
  }

  ghost predicate Invariant(s: State)
  {
    Core(s) && forall i :: 0 <= i < |s.kills| ==> KillAllowed(s.kills[i])
  }

  lemma SendKeeps(s: State, op: Operation, freeze: bool, outcome: Outcome)
    requires Core(s) && s.holder == Sending(op, freeze)
    ensures Core(AfterSend(s, op, freeze, outcome))
  {
  }

  lemma ConfirmKeeps(s: State, op: Operation, freeze: bool, answered: bool)
    requires Core(s) && s.holder == Confirming(op, freeze)
    ensures Core(AfterConfirm(s, op, freeze, answered))
  {
  }

  lemma LateKeeps(s: State, freeze: bool)
    requires Core(s) && if freeze then s.c.pausesPending > 0 else s.c.unpausesPending > 0
    ensures Core(AfterLate(s, freeze))
  {
  }

  lemma CoreKept(s: State, e: Event)
    requires Core(s)
    ensures Core(After(s, e))
  {
    match e {
      case Send(outcome) => if s.holder.Sending? { SendKeeps(s, s.holder.op, s.holder.freeze, outcome); }
      case Confirm(answered) => if s.holder.Confirming? { ConfirmKeeps(s, s.holder.op, s.holder.freeze, answered); }
      case LatePause => if s.c.pausesPending > 0 { LateKeeps(s, true); }
      case LateUnpause => if s.c.unpausesPending > 0 { LateKeeps(s, false); }
      case _ =>
    }
  }

  /** A step adds at most one kill. */
  lemma KillsGrow(s: State, e: Event)
    ensures After(s, e).kills == if e.SendKill? && s.holder.Killing?
        then s.kills + [KillOf(s, true, s.holder.thawTried)]
                                 else if e.RunThreadKills? then s.kills + [KillOf(s, false, false)]
                                 else s.kills
  {
  }

  lemma AfterKeeps(s: State, e: Event)
    requires Invariant(s)
    ensures Invariant(After(s, e))
  {
    CoreKept(s, e);
    KillsGrow(s, e);
    var t := After(s, e);
    forall i | 0 <= i < |t.kills|
      ensures KillAllowed(t.kills[i])
    {
      if i < |s.kills| {
        assert KillAllowed(s.kills[i]);
      }
    }
  }

  lemma {:induction false} AlwaysInvariant(events: seq<Event>)
    ensures Invariant(AfterAll(STARTED, events))
  {
    if events != [] {
      AlwaysInvariant(events[..|events| - 1]);
      AfterKeeps(AfterAll(STARTED, events[..|events| - 1]), events[|events| - 1]);
    }
  }

  /**
   In every interleaving, whenever no operation is under way: recorded Running means not
   frozen unless a pause was applied late since that record was confirmed, and recorded Paused
   means frozen or over unless an unpause was, or a stop sent one it could not confirm.
   */
  lemma RecordedIsTrue(events: seq<Event>)
    requires AfterAll(STARTED, events).holder.Free?
    ensures var s := AfterAll(STARTED, events);
            && (s.recorded == Running && !s.past.latePause ==> !s.c.frozen)
            && (s.recorded == Paused && !s.past.lateUnpause && !s.past.thawByStop ==> s.c.frozen || !s.c.alive)
  {
    AlwaysInvariant(events);
  }

  /**
   The owner's kill goes out only when Running was recorded or an unpause was tried first; to meet a
   frozen container unthawed it takes a late pause since that record.
   */
  lemma OwnerKillsThawFirst(events: seq<Event>, i: nat)
    requires i < |AfterAll(STARTED, events).kills| && AfterAll(STARTED, events).kills[i].byOwner
    ensures var k := AfterAll(STARTED, events).kills[i];
            k.thawTried || (k.recorded == Running && (k.frozen ==> k.latePause))
  {
    AlwaysInvariant(events);
    assert KillAllowed(AfterAll(STARTED, events).kills[i]);
  }

  // ---------------------------------------------------------------- conditions a caller can see

  /**
   While every operation that sent a command has also confirmed it: the record is never
   Unknown, it is true, and nothing is left to be applied late to a living container - except,
   between command and answer, the one command being asked about.
   */
  predicate Tidy(s: State)
  {
    s.doubts != NO_DOUBT || !s.c.alive || (
      s.recorded != Unknown &&
      match s.holder
      case Confirming(_, freeze) =>
        && (freeze <==> s.recorded == Running)
        && (if freeze then s.c.unpausesPending == 0 && s.c.pausesPending <= 1
            && (s.c.pausesPending == 1 ==> !s.c.frozen)
            else s.c.pausesPending == 0 && s.c.unpausesPending <= 1 && (s.c.unpausesPending == 1 ==> s.c.frozen))
      case Sending(_, freeze) => TidyRecord(s) && (freeze <==> s.recorded == Running)
      case _ => TidyRecord(s)
    )
  }

  predicate TidyRecord(s: State)
  {
    s.c.pausesPending == 0 && s.c.unpausesPending == 0 && (s.c.frozen <==> s.recorded == Paused)
  }

  lemma TidySend(s: State, op: Operation, freeze: bool, outcome: Outcome)
    requires Tidy(s) && HolderSound(s) && s.holder == Sending(op, freeze)
    ensures Tidy(AfterSend(s, op, freeze, outcome))
  {
  }

  lemma TidyConfirm(s: State, op: Operation, freeze: bool, answered: bool)
    requires Tidy(s) && HolderSound(s) && s.holder == Confirming(op, freeze)
    ensures Tidy(AfterConfirm(s, op, freeze, answered))
  {
  }

  lemma TidyKept(s: State, e: Event)
    requires Tidy(s) && Core(s)
    ensures Tidy(After(s, e))
  {
    match e {
      case Send(outcome) => if s.holder.Sending? { TidySend(s, s.holder.op, s.holder.freeze, outcome); }
      case Confirm(answered) => if s.holder.Confirming? { TidyConfirm(s, s.holder.op, s.holder.freeze, answered); }
      case _ =>
    }
  }

  lemma {:induction false} AlwaysTidy(events: seq<Event>)
    ensures Tidy(AfterAll(STARTED, events))
  {
    if events != [] {
      AlwaysTidy(events[..|events| - 1]);
      AlwaysInvariant(events[..|events| - 1]);
      TidyKept(AfterAll(STARTED, events[..|events| - 1]), events[|events| - 1]);
    }
  }

  /**
   What a caller can check: as long as no operation has come back unconfirmed, the record is
   true whenever no operation is under way - whatever went unanswered or was applied late.
   */
  lemma ConfirmedRecordsAreTrue(events: seq<Event>)
    requires AfterAll(STARTED, events).holder.Free? && AfterAll(STARTED, events).doubts == NO_DOUBT
    ensures var s := AfterAll(STARTED, events);
            && (s.recorded == Running ==> !s.c.frozen)
            && (s.recorded == Paused ==> s.c.frozen || !s.c.alive)
            && (s.c.alive ==> s.recorded != Unknown && s.c.pausesPending == 0 && s.c.unpausesPending == 0)
  {
    AlwaysInvariant(events);
    AlwaysTidy(events);
  }

  /** The command went unanswered, or was accepted before it took effect. */
  predicate LeavesOpen(e: Event)
  {
    e.Send? && (e.outcome.NoAnswer? || (e.outcome.Accepted? && !e.outcome.applied))
  }

  predicate Settled(s: State)
  {
    s.c.pausesPending == 0 && s.c.unpausesPending == 0 && !s.past.latePause && !s.past.lateUnpause
  }

  lemma NothingLeft(s: State, e: Event)
    requires Settled(s) && !LeavesOpen(e)
    ensures Settled(After(s, e))
  {
  }

  lemma {:induction false} NothingPending(events: seq<Event>)
    requires forall i :: 0 <= i < |events| ==> !LeavesOpen(events[i])
    ensures Settled(AfterAll(STARTED, events))
  {
    if events != [] {
      NothingPending(events[..|events| - 1]);
      NothingLeft(AfterAll(STARTED, events[..|events| - 1]), events[|events| - 1]);
    }
  }

  /**
   Over every run in which each command that spawned was answered and took effect, if at all,
   before its answer: recorded Running means not frozen, and recorded Paused means frozen or
   over unless a stop sent an unpause it could not confirm.
   */
  lemma AnsweredRecordsAreTrue(events: seq<Event>)
    requires forall i :: 0 <= i < |events| ==> !LeavesOpen(events[i])
    requires AfterAll(STARTED, events).holder.Free?
    ensures var s := AfterAll(STARTED, events);
            && (s.recorded == Running ==> !s.c.frozen)
            && (s.recorded == Paused && !s.past.thawByStop ==> s.c.frozen || !s.c.alive)
  {
    NothingPending(events);
    AlwaysInvariant(events);
  }

  // ---------------------------------------------------------------- the exceptions are real

  /** One more event at the end of a run. */
  lemma Then(events: seq<Event>, s: State, e: Event) returns (longer: seq<Event>)
    requires AfterAll(STARTED, events) == s
    ensures AfterAll(STARTED, longer) == After(s, e)
  {
    longer := events + [e];
    assert longer[..|events|] == events;
  }

  /** What one operation comes to, its command and its question ending as given. */
  function Operate(s: State, op: Operation, outcome: Outcome, answered: bool): (t: State)
  {
    After(After(After(After(s, Acquire(op)), Decide), Send(outcome)), Confirm(answered))
  }

  lemma ThenOperate(events: seq<Event>, s: State, op: Operation, outcome: Outcome, answered: bool)
      returns (longer: seq<Event>)
    requires AfterAll(STARTED, events) == s
    ensures AfterAll(STARTED, longer) == Operate(s, op, outcome, answered)
  {
    longer := Then(events, s, Acquire(op));
    longer := Then(longer, After(s, Acquire(op)), Decide);
    longer := Then(longer, After(After(s, Acquire(op)), Decide), Send(outcome));
    longer := Then(longer, After(After(After(s, Acquire(op)), Decide), Send(outcome)), Confirm(answered));
  }

  /** What a command that was sent has done to the container by the time it is asked about. */
  predicate Obeyed(before: Container, freeze: bool, outcome: Outcome, after: Container)
    requires !outcome.NotSpawned?
  {
    && after.alive == before.alive
    && after.frozen == (if outcome.applied && before.alive then freeze else before.frozen)
  }

  /**
   A whole `pause`, from taking the lock to giving it back: it is refused once a stop was asked for, does
   nothing if Paused is recorded, changes nothing if its command does not spawn, and otherwise records
   Paused if the container answers as frozen and Unknown if not.
   */
  lemma PauseComesTo(s: State, outcome: Outcome, answered: bool)
    requires s.holder.Free?
    ensures var t := Operate(s, Pause, outcome, answered);
            if s.stopRequested || s.recorded == Paused || outcome.NotSpawned? then t == s
            else
              && t.holder == Free && t.kills == s.kills && t.stopRequested == s.stopRequested
              && Obeyed(s.c, true, outcome, t.c)
              && t.recorded == (if answered && t.c.frozen then Paused else Unknown)
              && (answered && t.c.frozen ==> t.past == History(false, false, false))
  {
  }

  /** A whole `resume`, likewise. */
  lemma ResumeComesTo(s: State, outcome: Outcome, answered: bool)
    requires s.holder.Free?
    ensures var t := Operate(s, Resume, outcome, answered);
            if s.stopRequested || s.recorded == Running || outcome.NotSpawned? then t == s
            else
              && t.holder == Free && t.kills == s.kills && t.stopRequested == s.stopRequested
              && Obeyed(s.c, false, outcome, t.c)
              && t.recorded == (if answered && !t.c.frozen then Running else Unknown)
              && (answered && !t.c.frozen ==> t.past == History(false, false, false))
  {
  }

  /** A whole owner's stop. */
  function WholeStop(s: State, outcome: Outcome, answered: bool): (t: State)
  {
    After(Operate(After(s, StopRequested), Stop, outcome, answered), SendKill)
  }

  /**
   It sends an unpause first exactly when something else than Running is recorded, sends one kill
   whatever came of it, and records Running exactly on a confirmed thaw.
   */
  lemma StopComesTo(s: State, outcome: Outcome, answered: bool)
    requires s.holder.Free?
    ensures var t := WholeStop(s, outcome, answered);
            var thaws := s.recorded != Running && !outcome.NotSpawned?;
            && t.holder == Free && t.stopRequested
            && (if thaws then Obeyed(s.c, false, outcome, t.c) else t.c == s.c)
            && t.recorded == (if thaws && answered && !t.c.frozen then Running else s.recorded)
            && |t.kills| == |s.kills| + 1 && t.kills[..|s.kills|] == s.kills
            && var k := t.kills[|s.kills|];
               k.byOwner && k.frozen == t.c.frozen && k.recorded == t.recorded && k.thawTried == (s.recorded != Running)
  {
  }

  /** At rest, recorded Running, and frozen all the same. */
  predicate Untrue(s: State)
  {
    s.holder.Free? && s.recorded == Running && s.c.frozen
  }

  /** What a true record is exposed to while nobody acts: exactly a pending command of the other kind. */
  lemma RecordAtRiskIff(s: State)
    requires s.holder.Free?
    ensures var own := {Exits, LatePause, LateUnpause};
            && (s.recorded == Running && !s.c.frozen ==>
                  ((exists e :: e in own && After(s, e).c.frozen) <==> s.c.pausesPending > 0 && s.c.alive))
            && (s.recorded == Paused && s.c.frozen && s.c.alive ==>
                  ((exists e :: e in own && After(s, e).c.alive && !After(s, e).c.frozen) <==> s.c.unpausesPending > 0))
  {
    assert !After(s, Exits).c.frozen && !After(s, Exits).c.alive;
    assert s.c.alive && s.c.pausesPending > 0 ==> After(s, LatePause).c.frozen;
    assert s.c.unpausesPending > 0 && s.c.alive ==> !After(s, LateUnpause).c.frozen;
    assert After(s, LateUnpause).c.frozen ==> s.c.frozen;
  }

  const PAUSED: State := State(Container(true, true, 0, 0), Paused, false, Free, CLEAR, NO_DOUBT, [])

  const TIMED_OUT: State :=
    State(Container(true, false, 1, 0), Unknown, false, Free, CLEAR, Doubts(true, false, false), [])

  lemma TimeOutSteps()
    ensures Operate(STARTED, Pause, NoAnswer(false), true) == TIMED_OUT
    ensures Operate(TIMED_OUT, Resume, Accepted(true), true) == TIMED_OUT.(recorded := Running)
  {
  }

  /**
   A pause that timed out is applied after a later resume was confirmed: Running is recorded, the
   container is frozen.
   */
  lemma LatePauseUnrecorded() returns (events: seq<Event>)
    ensures Untrue(AfterAll(STARTED, events))
  {
    TimeOutSteps();
    events := ThenOperate([], STARTED, Pause, NoAnswer(false), true);
    events := ThenOperate(events, TIMED_OUT, Resume, Accepted(true), true);
    events := Then(events, TIMED_OUT.(recorded := Running), LatePause);
  }

  lemma PauseWorks() returns (events: seq<Event>)
    ensures AfterAll(STARTED, events) == PAUSED
  {
    assert Operate(STARTED, Pause, Accepted(true), true) == PAUSED;
    events := ThenOperate([], STARTED, Pause, Accepted(true), true);
  }

  lemma StopGivesUp()
    ensures var t := After(Operate(After(PAUSED, StopRequested), Stop, NoAnswer(true), false), SendKill);
            t.holder.Free? && t.recorded == Paused && t.c == Container(true, false, 0, 0) && !t.past.lateUnpause
  {
  }

  /** A stop whose unpause was applied but not confirmed leaves Paused recorded for a container that runs on. */
  lemma StopLeavesPausedRecorded() returns (events: seq<Event>)
    ensures var s := AfterAll(STARTED, events);
            s.holder.Free? && s.recorded == Paused && s.c.alive && !s.c.frozen && !s.past.lateUnpause
  {
    StopGivesUp();
    events := PauseWorks();
    events := Then(events, PAUSED, StopRequested);
    events := ThenOperate(events, After(PAUSED, StopRequested), Stop, NoAnswer(true), false);
    events := Then(events, Operate(After(PAUSED, StopRequested), Stop, NoAnswer(true), false), SendKill);
  }

  /** The run thread's own kill, sent when it loses sight of the container, takes no lock and thaws nothing. */
  lemma RunThreadKillsFrozen() returns (events: seq<Event>)
    ensures AfterAll(STARTED, events).kills == [Kill(false, true, Paused, false, false)]
  {
    events := PauseWorks();
    events := Then(events, PAUSED, RunThreadKills);
  }
}
