/**
 The owner's stop beside the thread that runs the container. The run thread shares the exit it
 observed before it removes the container, so that a stop which finds no container any more can
 still judge the exit. Any number of stop calls may be under way.
 */
module OwnerStop {
  import opened Common
  import opened ContainerState

  /**
   The run thread after it gave out the handle: polling, then seeing and sharing the exit, or
   losing sight of it. After a start that went unanswered or could not be stopped for certain it
   has returned and looks at nothing.
   */
  datatype RunThread = Polling | Saw(exit: Exit) | Shared(exit: Exit) | LostSight | Returned

  datatype Verdict =
    | NotSent
    | Stopped
    | AlreadyExited(exit: Exit)
    // With what was shared, and whether the container ran, when the call last looked.
    | Unconfirmed(shared: Option<Exit>, ran: bool)

  datatype StopCall = Ready | Checking(attempt: nat) | Asking(attempt: nat) | LookingAgain(attempt: nat)
      | Done(verdict: Verdict)

  /**
   `startPending`: an unanswered start may still take effect. `exit` is the exit the container
   really had, once it had one; `removed` says that the run thread has removed it; `killed` are
   the calls whose kill was spawned.
   */
  datatype State = State(
    truth: Truth, startPending: bool, exit: Option<Exit>, run: RunThread, observed: Option<Exit>, removed: bool,
    calls: map<nat, StopCall>, killed: set<nat>)

  const SIGKILL_CODE: int := 137

  function Judge(exit: Exit): (v: Verdict)
  {
    if exit.code == SIGKILL_CODE && !exit.oom then Stopped else AlreadyExited(exit)
  }

  datatype Event =
    | LateStart
    | Exits(exit: Exit)
    | Vanishes
    | RunSees
    | RunShares
    | RunRemoves
    | RunLosesSight
    | StopCalled(id: nat)
    | StopKills(id: nat, spawned: bool)
    | StopChecks(id: nat)
    | StopAsks(id: nat, answered: bool)
    | StopLooksAgain(id: nat)

  function CallOf(s: State, id: nat): (c: Option<StopCall>)
  {
    if id in s.calls then Some(s.calls[id]) else None
  }

  /**
   One loop turn of `stop`: no answer, no container, and one that never started all end in a second
   look at what was shared.
   */
  function AfterAsking(s: State, attempt: nat, answered: bool): (c: StopCall)
  {
    if !answered || s.truth.Absent? || s.truth.Created? then LookingAgain(attempt)
    else if s.truth.Exited? then Done(Judge(s.truth.exit))
    else if attempt + 1 < STOP_CONFIRM_TRIES then Checking(attempt + 1)
    else Done(Unconfirmed(s.observed, true))
  }

  predicate IsStop(e: Event)
  {
    e.StopCalled? || e.StopKills? || e.StopChecks? || e.StopAsks? || e.StopLooksAgain?
  }

  /** Where a step takes its stop call, if it can be made. */
  function StopStep(s: State, e: Event): (c: Option<StopCall>)
    requires IsStop(e)
  {
    match (CallOf(s, e.id), e)
    case (None, StopCalled(_)) => Some(Ready)
    case (Some(Ready), StopKills(_, spawned)) => Some(if spawned then Checking(0) else Done(NotSent))
    case (Some(Checking(attempt)), StopChecks(_)) =>
      Some(if s.observed.Some? then Done(Judge(s.observed.value)) else Asking(attempt))
    case (Some(Asking(attempt)), StopAsks(_, answered)) => Some(AfterAsking(s, attempt, answered))
    case (Some(LookingAgain(_)), StopLooksAgain(_)) =>
      Some(if s.observed.Some? then Done(Judge(s.observed.value)) else Done(Unconfirmed(None, s.truth.Running?)))
    case _ => None
  }

  function AfterStop(s: State, e: Event): (t: State)
    requires IsStop(e)
  {
    match StopStep(s, e)
    case None => s
    case Some(c) =>
      s.(calls := s.calls[e.id := c], killed := if e.StopKills? && e.spawned then s.killed + {e.id} else s.killed)
  }

  /** A step of the container or of the run thread. */
  function AfterOther(s: State, e: Event): (t: State)
    requires !IsStop(e)
  {
    match e
    case LateStart =>
      if s.startPending && s.truth.Created? then s.(truth := Running, startPending := false) else s
    case Exits(exit) =>
      if s.truth.Running? then s.(truth := Exited(exit), exit := Some(exit)) else s
    case Vanishes =>
      s.(truth := Absent)
    case RunSees =>
      if s.run.Polling? && s.truth.Exited? then s.(run := Saw(s.truth.exit)) else s
    case RunShares =>
      if s.run.Saw? then s.(run := Shared(s.run.exit), observed := Some(s.run.exit)) else s
    case RunRemoves =>
      if s.run.Shared? || (s.run.LostSight? && !s.truth.Running?) then s.(truth := Absent, removed := true) else s
    case RunLosesSight =>
      if s.run.Polling? then s.(run := LostSight) else s
  }

  /** One step of any thread or of the container; an event that is not possible changes nothing. */
  function After(s: State, e: Event): (t: State)
  {
    if IsStop(e) then AfterStop(s, e) else AfterOther(s, e)
  }

  function AfterAll(s: State, events: seq<Event>): (t: State)
    decreases |events|
  {
    if events == [] then s else After(AfterAll(s, events[..|events| - 1]), events[|events| - 1])
  }

  /**
   When the handle is given out: the run thread polls after an answered start, or it has returned
   and the container may be anything.
   */
  predicate Initial(s: State)
  {
    && (s.run.Polling? || s.run.Returned?) && (s.run.Polling? ==> !s.startPending)
    && s.exit == (if s.truth.Exited? then Some(s.truth.exit) else None)
    && s.observed.None? && !s.removed && s.calls == map[] && s.killed == {}
  }

  // ---------------------------------------------------------------- what always holds

  /** Whatever was seen or shared is the container's own exit. */
  ghost predicate OneExit(s: State)
  {
    && (s.truth.Exited? ==> s.exit == Some(s.truth.exit))
    && (s.truth.Running? || s.truth.Created? ==> s.exit.None?)
    && (s.run.Saw? || s.run.Shared? ==> s.exit == Some(s.run.exit))
    && (s.observed.Some? <==> s.run.Shared?)
    && (s.observed.Some? ==> s.observed == s.exit)
    && (s.removed ==> s.run.Shared? || s.run.LostSight?)
  }

  /** What a call may say, given whether its kill was spawned and what the exit was. */
  predicate CallRight(c: StopCall, killed: bool, exit: Option<Exit>)
  {
    match c
    case Ready => !killed
    case Done(NotSent) => !killed
    case Done(Stopped) => killed && exit == Some(Exit(SIGKILL_CODE, false))
    case Done(AlreadyExited(e)) => killed && exit == Some(e) && e != Exit(SIGKILL_CODE, false)
    case Done(Unconfirmed(shared, _)) => killed && shared.None?
    case _ => killed
  }

  ghost predicate CallSound(s: State, id: nat)
    requires id in s.calls
  {
    CallRight(s.calls[id], id in s.killed, s.exit)
  }

  ghost predicate Invariant(s: State)
  {
    OneExit(s) && (forall id :: id in s.killed ==> id in s.calls) && forall id :: id in s.calls ==> CallSound(s, id)
  }

  lemma OtherKeepsExit(s: State, e: Event)
    requires OneExit(s) && !IsStop(e)
    ensures var t := AfterOther(s, e);
            OneExit(t) && t.calls == s.calls && t.killed == s.killed && (s.exit.Some? ==> t.exit == s.exit)
  {
  }

  lemma StopStepRight(s: State, e: Event)
    requires Invariant(s) && IsStop(e) && StopStep(s, e).Some?
    ensures CallRight(StopStep(s, e).value, e.id in s.killed || (e.StopKills? && e.spawned), s.exit)
  {
    if e.id in s.calls {
      assert CallSound(s, e.id);
    }
  }

  lemma AfterKeeps(s: State, e: Event)
    requires Invariant(s)
    ensures Invariant(After(s, e))
  {
    var t := After(s, e);
    if IsStop(e) {
      if StopStep(s, e).Some? {
        StopStepRight(s, e);
      }
      forall id | id in t.calls
        ensures CallSound(t, id)
      {
        assert id != e.id ==> CallSound(s, id);
        assert id in s.calls ==> CallSound(s, id);
      }
    } else {
      OtherKeepsExit(s, e);
      forall id | id in t.calls
        ensures CallSound(t, id)
      {
        assert CallSound(s, id);
      }
    }
  }

  lemma {:induction false} AlwaysInvariant(s: State, events: seq<Event>)
    requires Initial(s)
    ensures Invariant(AfterAll(s, events))
  {
    if events != [] {
      AlwaysInvariant(s, events[..|events| - 1]);
      AfterKeeps(AfterAll(s, events[..|events| - 1]), events[|events| - 1]);
    }
  }

  /**
   In every interleaving, for every handle given out: a stop succeeds only when its kill was
   spawned and the container's exit was 137 without OOM; it names a different exit only when
   that was the container's exit; and it comes out unconfirmed only when nothing had been shared
   at its last look.
   */
  lemma StopVerdicts(start: State, events: seq<Event>, id: nat)
    requires Initial(start)
    requires CallOf(AfterAll(start, events), id).Some? && AfterAll(start, events).calls[id].Done?
    ensures var s := AfterAll(start, events);
            match s.calls[id].verdict
            case NotSent => id !in s.killed
            case Stopped => id in s.killed && s.exit == Some(Exit(137, false))
            case AlreadyExited(exit) => id in s.killed && s.exit == Some(exit) && exit != Exit(137, false)
            case Unconfirmed(shared, _) => id in s.killed && shared.None?
  {
    AlwaysInvariant(start, events);
    assert CallSound(AfterAll(start, events), id);
  }

  // ---------------------------------------------------------------- an exit that was shared is judged

  /** Calls that have not finished when the exit is shared. */
  ghost predicate Undecided(s: State, id: nat)
  {
    id in s.calls && id in s.killed && !s.calls[id].Done?
  }

  lemma SharedStays(s: State, e: Event)
    requires OneExit(s) && s.run.Shared?
    ensures After(s, e).run == s.run
  {
  }

  lemma SharedStep(s: State, e: Event, id: nat)
    requires Invariant(s) && s.run.Shared? && Undecided(s, id)
    ensures Undecided(After(s, e), id) || After(s, e).calls[id] == Done(Judge(s.run.exit))
  {
    assert CallSound(s, id);
  }

  lemma {:induction false} SharedIsJudged(s: State, events: seq<Event>, id: nat)
    requires Invariant(s) && s.run.Shared? && Undecided(s, id)
    ensures var t := AfterAll(s, events);
            && Invariant(t) && t.run == s.run
            && (Undecided(t, id) || CallOf(t, id) == Some(Done(Judge(s.run.exit))))
  {
    if events != [] {
      var p, e := AfterAll(s, events[..|events| - 1]), events[|events| - 1];
      SharedIsJudged(s, events[..|events| - 1], id);
      AfterKeeps(p, e);
      SharedStays(p, e);
      if Undecided(p, id) {
        SharedStep(p, e, id);
      }
    }
  }

  /**
   Once the run thread has shared the exit - which it does before it removes the container -
   no stop that is still under way comes out unconfirmed, whatever happens to the container:
   it is judged by that exit.
   */
  lemma ObservedExitIsJudged(start: State, before: seq<Event>, after: seq<Event>, id: nat)
    requires Initial(start)
    requires AfterAll(start, before).run.Shared? && Undecided(AfterAll(start, before), id)
    ensures var s, t := AfterAll(start, before), AfterAll(AfterAll(start, before), after);
            Undecided(t, id) || CallOf(t, id) == Some(Done(Judge(s.run.exit)))
  {
    AlwaysInvariant(start, before);
    SharedIsJudged(AfterAll(start, before), after, id);
  }

  /** A stop that finds the container removed by a run thread which saw its exit still judges that exit. */
  lemma RemovedIsStillJudged(start: State, events: seq<Event>, id: nat)
    requires Initial(start)
    requires var s := AfterAll(start, events); s.removed && (s.run.Saw? || s.run.Shared?)
    requires CallOf(AfterAll(start, events), id).Some? && AfterAll(start, events).calls[id].LookingAgain?
    ensures var s := AfterAll(start, events);
            s.exit.Some? && CallOf(After(s, StopLooksAgain(id)), id) == Some(Done(Judge(s.exit.value)))
  {
    AlwaysInvariant(start, events);
  }

  // ---------------------------------------------------------------- every look decides what it can

  /** The verdict an exit calls for. */
  function Fitting(exit: Exit): (v: Verdict)
  {
    if exit == Exit(137, false) then Stopped else AlreadyExited(exit)
  }

  /** An answer about an exited container, and a look at what was shared, decide the call at once. */
  lemma EveryLookJudges(s: State, id: nat, exit: Exit)
    requires id in s.calls
    ensures s.calls[id].Asking? && s.truth == Exited(exit) ==>
              CallOf(After(s, StopAsks(id, true)), id) == Some(Done(Fitting(exit)))
    ensures s.calls[id].Checking? && s.observed == Some(exit) ==>
              CallOf(After(s, StopChecks(id)), id) == Some(Done(Fitting(exit)))
    ensures s.calls[id].LookingAgain? && s.observed == Some(exit) ==>
              CallOf(After(s, StopLooksAgain(id)), id) == Some(Done(Fitting(exit)))
  {
  }

  /** A question that tells nothing: no answer, no container, or one that has not started. */
  predicate TellsNothing(s: State, e: Event, id: nat)
  {
    && (e == StopAsks(id, true) || e == StopAsks(id, false))
    && id in s.calls && s.calls[id].Asking?
    && (e == StopAsks(id, false) || s.truth == Absent || s.truth == Created)
  }

  /** A question answered with "still running". */
  predicate SaysRunning(s: State, e: Event, id: nat)
  {
    e == StopAsks(id, true) && id in s.calls && s.calls[id].Asking? && s.truth == Running
  }

  /** How often the call was told that the container still runs. */
  function RunningAnswers(start: State, events: seq<Event>, id: nat): (n: nat)
  {
    if events == [] then 0
    else
      var before, e := events[..|events| - 1], events[|events| - 1];
      RunningAnswers(start, before, id) + if SaysRunning(AfterAll(start, before), e, id) then 1 else 0
  }

  ghost predicate ToldNothing(start: State, events: seq<Event>, id: nat)
  {
    exists i :: 0 <= i < |events| && ToldNothingAt(start, events, i, id)
  }

  ghost predicate ToldNothingAt(start: State, events: seq<Event>, i: nat, id: nat)
    requires i < |events|
  {
    TellsNothing(AfterAll(start, events[..i]), events[i], id)
  }

  /** What the stage of a call tells about the answers it got. */
  ghost predicate Counted(c: Option<StopCall>, n: nat, nothing: bool)
  {
    match c
    case None => n == 0
    case Some(Ready) => n == 0
    case Some(Checking(k)) => n == k < 10
    case Some(Asking(k)) => n == k < 10
    case Some(LookingAgain(_)) => nothing
    case Some(Done(Unconfirmed(_, _))) => n == 10 || nothing
    case _ => true
  }

  lemma CountedStep(s: State, e: Event, id: nat, n: nat, nothing: bool)
    requires Counted(CallOf(s, id), n, nothing)
    ensures var more := n + if SaysRunning(s, e, id) then 1 else 0;
            Counted(CallOf(After(s, e), id), more, nothing || TellsNothing(s, e, id))
  {
  }

  lemma ToldNothingSnoc(start: State, events: seq<Event>, id: nat)
    requires events != []
    requires var before, e := events[..|events| - 1], events[|events| - 1];
             ToldNothing(start, before, id) || TellsNothing(AfterAll(start, before), e, id)
    ensures ToldNothing(start, events, id)
  {
    var n := |events| - 1;
    if ToldNothing(start, events[..n], id) {
      var i :| 0 <= i < n && ToldNothingAt(start, events[..n], i, id);
      assert events[..n][..i] == events[..i];
      assert ToldNothingAt(start, events, i, id);
    }
    if TellsNothing(AfterAll(start, events[..n]), events[n], id) {
      assert ToldNothingAt(start, events, n, id);
    }
  }

  lemma {:induction false} AlwaysCounted(start: State, events: seq<Event>, id: nat)
    requires Initial(start)
    ensures var n, nothing := RunningAnswers(start, events, id), ToldNothing(start, events, id);
            Counted(CallOf(AfterAll(start, events), id), n, nothing)
  {
    if events != [] {
      var before, e := events[..|events| - 1], events[|events| - 1];
      AlwaysCounted(start, before, id);
      CountedStep(AfterAll(start, before), e, id, RunningAnswers(start, before, id), ToldNothing(start, before, id));
      if ToldNothing(start, before, id) || TellsNothing(AfterAll(start, before), e, id) {
        ToldNothingSnoc(start, events, id);
      }
    }
  }

  /**
   A stop comes out unconfirmed only after it was told ten times that the container still runs, or
   after a question that went unanswered or met no container or one that had not started.
   */
  lemma UnconfirmedOnlyAfter(start: State, events: seq<Event>, id: nat)
    requires Initial(start)
    requires CallOf(AfterAll(start, events), id).Some? && AfterAll(start, events).calls[id].Done?
             && AfterAll(start, events).calls[id].verdict.Unconfirmed?
    ensures RunningAnswers(start, events, id) == 10 || ToldNothing(start, events, id)
  {
    AlwaysCounted(start, events, id);
  }

  // ---------------------------------------------------------------- the edge of the promise

  const POLLED: State := State(Running, false, None, Polling, None, false, map[], {})

  lemma Snoc(s: State, events: seq<Event>, e: Event)
    ensures AfterAll(s, events + [e]) == After(AfterAll(s, events), e)
  {
    assert (events + [e])[..|events|] == events;
  }

  /** The stop has been told `k` times that the container still runs. */
  lemma {:induction false} StillRunning(id: nat, k: nat) returns (events: seq<Event>)
    requires k < STOP_CONFIRM_TRIES
    ensures AfterAll(POLLED, events) == POLLED.(calls := map[id := Checking(k)], killed := {id})
  {
    if k == 0 {
      Snoc(POLLED, [], StopCalled(id));
      Snoc(POLLED, [] + [StopCalled(id)], StopKills(id, true));
      events := [] + [StopCalled(id)] + [StopKills(id, true)];
    } else {
      var before := StillRunning(id, k - 1);
      Snoc(POLLED, before, StopChecks(id));
      Snoc(POLLED, before + [StopChecks(id)], StopAsks(id, true));
      events := before + [StopChecks(id)] + [StopAsks(id, true)];
    }
  }

  lemma TenthAnswer(id: nat) returns (events: seq<Event>)
    ensures AfterAll(POLLED, events) == POLLED.(calls := map[id := Done(Unconfirmed(None, true))], killed := {id})
  {
    var before := StillRunning(id, STOP_CONFIRM_TRIES - 1);
    Snoc(POLLED, before, StopChecks(id));
    Snoc(POLLED, before + [StopChecks(id)], StopAsks(id, true));
    events := before + [StopChecks(id)] + [StopAsks(id, true)];
  }

  lemma ExitIsShared(s: State, exit: Exit)
    requires s.truth.Running? && s.run.Polling?
    ensures var t := After(After(After(s, Exits(exit)), RunSees), RunShares);
            t.calls == s.calls && t.observed == Some(exit)
  {
  }

  /** The tenth answer "still running" ends the call even if the exit is shared right after it. */
  lemma ExitAfterTheLastLook(id: nat, exit: Exit) returns (events: seq<Event>)
    ensures Initial(POLLED)
    ensures var s := AfterAll(POLLED, events);
            CallOf(s, id) == Some(Done(Unconfirmed(None, true))) && s.observed == Some(exit)
  {
    var asked := TenthAnswer(id);
    Snoc(POLLED, asked, Exits(exit));
    Snoc(POLLED, asked + [Exits(exit)], RunSees);
    Snoc(POLLED, asked + [Exits(exit)] + [RunSees], RunShares);
    ExitIsShared(AfterAll(POLLED, asked), exit);
    events := asked + [Exits(exit)] + [RunSees] + [RunShares];
  }

  /** One more event on a run that has reached `s`. */
  lemma StepTo(start: State, events: seq<Event>, s: State, e: Event, t: State) returns (more: seq<Event>)
    requires AfterAll(start, events) == s && After(s, e) == t
    ensures AfterAll(start, more) == t
  {
    more := events + [e];
    Snoc(start, events, e);
  }

  /** The only stop call, and where it stands. */
  function OneCall(s: State, id: nat, c: StopCall): (t: State)
  {
    s.(calls := map[id := c], killed := {id})
  }

  /** A stop that has sent its kill and is about to ask. */
  lemma AboutToAsk(s: State, id: nat) returns (events: seq<Event>)
    requires s.calls == map[] && s.killed == {} && s.observed.None?
    ensures AfterAll(s, events) == OneCall(s, id, Asking(0))
  {
    events := StepTo(s, [], s, StopCalled(id), s.(calls := map[id := Ready]));
    events := StepTo(s, events, s.(calls := map[id := Ready]), StopKills(id, true), OneCall(s, id, Checking(0)));
    events := StepTo(s, events, OneCall(s, id, Checking(0)), StopChecks(id), OneCall(s, id, Asking(0)));
  }

  lemma AskStep(s: State, id: nat)
    requires s.truth == Absent || s.truth == Created
    ensures After(OneCall(s, id, Asking(0)), StopAsks(id, true)) == OneCall(s, id, LookingAgain(0))
  {
  }

  lemma LookStep(s: State, id: nat, verdict: Verdict)
    requires s.truth == Absent || s.truth == Created
    requires verdict == if s.observed.Some? then Fitting(s.observed.value) else Unconfirmed(None, false)
    ensures After(OneCall(s, id, LookingAgain(0)), StopLooksAgain(id)) == OneCall(s, id, Done(verdict))
  {
  }

  /** The question meets no container that could tell anything, and the second look ends the call. */
  lemma AsksInVain(start: State, events: seq<Event>, s: State, id: nat, verdict: Verdict) returns (more: seq<Event>)
    requires AfterAll(start, events) == OneCall(s, id, Asking(0)) && (s.truth == Absent || s.truth == Created)
    requires verdict == if s.observed.Some? then Fitting(s.observed.value) else Unconfirmed(None, false)
    ensures AfterAll(start, more) == OneCall(s, id, Done(verdict))
  {
    AskStep(s, id);
    more := StepTo(start, events, OneCall(s, id, Asking(0)), StopAsks(id, true), OneCall(s, id, LookingAgain(0)));
    LookStep(s, id, verdict);
    more := StepTo(start, more, OneCall(s, id, LookingAgain(0)), StopLooksAgain(id), OneCall(s, id, Done(verdict)));
  }

  /** The container has exited, and the run thread has seen and shared it. */
  function SharedExit(exit: Exit): (s: State)
  {
    POLLED.(truth := Exited(exit), exit := Some(exit), run := Shared(exit), observed := Some(exit))
  }

  lemma SharedWhileAsking(id: nat, exit: Exit) returns (events: seq<Event>)
    ensures AfterAll(POLLED, events) == OneCall(SharedExit(exit), id, Asking(0))
  {
    events := AboutToAsk(POLLED, id);
    var c := Asking(0);
    var exited := POLLED.(truth := Exited(exit), exit := Some(exit));
    events := StepTo(POLLED, events, OneCall(POLLED, id, c), Exits(exit), OneCall(exited, id, c));
    var seen := exited.(run := Saw(exit));
    events := StepTo(POLLED, events, OneCall(exited, id, c), RunSees, OneCall(seen, id, c));
    events := StepTo(POLLED, events, OneCall(seen, id, c), RunShares, OneCall(SharedExit(exit), id, c));
  }

  /**
   The exit is shared and the container removed between a stop's look and its question: the question
   meets no container, and the second look still judges the exit.
   */
  lemma RemovedWhileAsking(id: nat, exit: Exit) returns (events: seq<Event>)
    ensures var s := AfterAll(POLLED, events);
            s.removed && s.truth == Absent && CallOf(s, id) == Some(Done(Fitting(exit)))
  {
    events := SharedWhileAsking(id, exit);
    var c, shared := Asking(0), SharedExit(exit);
    var removed := shared.(truth := Absent, removed := true);
    events := StepTo(POLLED, events, OneCall(shared, id, c), RunRemoves, OneCall(removed, id, c));
    events := AsksInVain(POLLED, events, removed, id, Fitting(exit));
  }

  /** The run thread loses sight and removes the container once it has exited: the stop cannot tell how it ended. */
  lemma LostSightIsUnconfirmed(id: nat, exit: Exit) returns (events: seq<Event>)
    ensures var s := AfterAll(POLLED, events);
            s.removed && s.exit == Some(exit) && CallOf(s, id) == Some(Done(Unconfirmed(None, false)))
  {
    events := AboutToAsk(POLLED, id);
    var c := Asking(0);
    var lost := POLLED.(run := LostSight);
    events := StepTo(POLLED, events, OneCall(POLLED, id, c), RunLosesSight, OneCall(lost, id, c));
    events := StepTo(POLLED, events, OneCall(lost, id, c), RunRemoves, OneCall(lost, id, c));
    var exited := lost.(truth := Exited(exit), exit := Some(exit));
    events := StepTo(POLLED, events, OneCall(lost, id, c), Exits(exit), OneCall(exited, id, c));
    var removed := exited.(truth := Absent, removed := true);
    events := StepTo(POLLED, events, OneCall(exited, id, c), RunRemoves, OneCall(removed, id, c));
    events := AsksInVain(POLLED, events, removed, id, Unconfirmed(None, false));
  }

  /** Handed out after a start that went unanswered. */
  const UNANSWERED_START: State := State(Created, true, None, Returned, None, false, map[], {})

  /** A stop meets a container that has not started, and the start takes effect after it gave up. */
  lemma StartsAfterTheStop(id: nat) returns (events: seq<Event>)
    ensures Initial(UNANSWERED_START)
    ensures var s := AfterAll(UNANSWERED_START, events);
            s.truth == Running && !s.startPending && CallOf(s, id) == Some(Done(Unconfirmed(None, false)))
  {
    var verdict := Unconfirmed(None, false);
    events := AboutToAsk(UNANSWERED_START, id);
    events := AsksInVain(UNANSWERED_START, events, UNANSWERED_START, id, verdict);
    events := StepTo(UNANSWERED_START, events, OneCall(UNANSWERED_START, id, Done(verdict)), LateStart,
        OneCall(UNANSWERED_START.(truth := Running, startPending := false), id, Done(verdict)));
  }
}
