/**
 What the results of pause, resume and stop tell their callers about the recorded state: when it
 is sure to be true, and which runs the same results do not rule out.
 */
module PauseResults {
  import opened PauseControl

  /** What the callers of the operations get to know. */
  datatype Result =
    | StopAsked
    | NothingToDo(op: Operation)
    | NotSent(op: Operation)
    | Confirmed(op: Operation)
    | Unconfirmed(op: Operation)
    | KillSent

  function ResultOf(s: State, e: Event): (r: seq<Result>)
  {
    match e
    case StopRequested => [StopAsked]
    case Decide => if s.holder.Entered? && AfterDecide(s, s.holder.op).Free? then [NothingToDo(s.holder.op)] else []
    case Send(outcome) => if s.holder.Sending? && outcome.NotSpawned? then [NotSent(s.holder.op)] else []
    case Confirm(answered) =>
      if !s.holder.Confirming? then []
      else if answered && s.c.frozen == s.holder.freeze then [Confirmed(s.holder.op)]
      else [Unconfirmed(s.holder.op)]
    case SendKill => if s.holder.Killing? then [KillSent] else []
    case _ => []
  }

  function Results(s: State, events: seq<Event>): (r: seq<Result>)
    decreases |events|
  {
    if events == [] then []
    else
      var init, last := events[..|events| - 1], events[|events| - 1];
      Results(s, init) + ResultOf(AfterAll(s, init), last)
  }

  lemma SplitLast(a: seq<Event>, b: seq<Event>)
    requires b != []
    ensures (a + b)[..|a + b| - 1] == a + b[..|b| - 1] && (a + b)[|a + b| - 1] == b[|b| - 1]
  {
  }

  lemma {:induction false} Join(s: State, a: seq<Event>, b: seq<Event>)
    ensures AfterAll(s, a + b) == AfterAll(AfterAll(s, a), b)
    decreases |b|
  {
    if b == [] {
      assert a + b == a;
    } else {
      SplitLast(a, b);
      Join(s, a, b[..|b| - 1]);
    }
  }

  lemma {:induction false} JoinResults(s: State, a: seq<Event>, b: seq<Event>)
    ensures Results(s, a + b) == Results(s, a) + Results(AfterAll(s, a), b)
    decreases |b|
  {
    if b == [] {
      assert a + b == a;
    } else {
      var init, last, mid := b[..|b| - 1], b[|b| - 1], AfterAll(s, a);
      SplitLast(a, b);
      Join(s, a, init);
      JoinResults(s, a, init);
      var r := ResultOf(AfterAll(mid, init), last);
      assert Results(s, a) + (Results(mid, init) + r) == (Results(s, a) + Results(mid, init)) + r;
    }
  }

  /** The part of the state that follows from the results. */
  datatype View = View(recorded: PauseState, stopRequested: bool, doubts: Doubts)

  function ViewOf(s: State): (v: View)
  {
    View(s.recorded, s.stopRequested, s.doubts)
  }

  function Learn(v: View, r: Result): (w: View)
  {
    match r
    case StopAsked => v.(stopRequested := true)
    case Confirmed(op) =>
      if op == Pause
      then View(Paused, v.stopRequested, v.doubts.(overUnknown := v.doubts.overUnknown || v.recorded == Unknown))
      else v.(recorded := Running)
    case Unconfirmed(op) =>
      v.(recorded := if op == Stop then v.recorded else Unknown, doubts := Doubted(v.doubts, op == Pause))
    case _ => v
  }

  function LearnAll(v: View, rs: seq<Result>): (w: View)
  {
    if rs == [] then v else Learn(LearnAll(v, rs[..|rs| - 1]), rs[|rs| - 1])
  }

  lemma StepLearns(s: State, e: Event)
    requires HolderSound(s)
    ensures ViewOf(After(s, e)) == LearnAll(ViewOf(s), ResultOf(s, e))
  {
    var r := ResultOf(s, e);
    assert r != [] ==> r[..0] == [] && LearnAll(ViewOf(s), r) == Learn(LearnAll(ViewOf(s), r[..0]), r[0]);
  }

  lemma {:induction false} LearnJoin(v: View, a: seq<Result>, b: seq<Result>)
    ensures LearnAll(v, a + b) == LearnAll(LearnAll(v, a), b)
    decreases |b|
  {
    if b == [] {
      assert a + b == a;
    } else {
      var n := |b| - 1;
      assert (a + b)[..|a + b| - 1] == a + b[..n] && (a + b)[|a + b| - 1] == b[n];
      LearnJoin(v, a, b[..n]);
    }
  }

  /** Runs with the same results have the same view. */
  lemma {:induction false} ResultsTellView(events: seq<Event>)
    ensures ViewOf(AfterAll(STARTED, events)) == LearnAll(ViewOf(STARTED), Results(STARTED, events))
  {
    if events != [] {
      var init, last := events[..|events| - 1], events[|events| - 1];
      ResultsTellView(init);
      AlwaysInvariant(init);
      var s := AfterAll(STARTED, init);
      StepLearns(s, last);
      LearnJoin(ViewOf(STARTED), Results(STARTED, init), ResultOf(s, last));
    }
  }

  // ---------------------------------------------------------------- runs the results do not rule out

  /**
   Another course of the same step, from a state `t` that looks the same: no command is applied
   before its answer, one that the original confirms is applied just in time for the question if
   the container is not in that state already, and nothing else happens to the container.
   */
  function Mirror(s: State, t: State, e: Event): (r: seq<Event>)
  {
    match e
    case Send(outcome) => [if outcome.NotSpawned? then e else Send(NoAnswer(false))]
    case Confirm(answered) =>
      if !(s.holder.Confirming? && answered && s.c.frozen == s.holder.freeze) then [Confirm(false)]
      else if t.c.frozen == s.holder.freeze then [Confirm(true)]
      else [if s.holder.freeze then LatePause else LateUnpause, Confirm(true)]
    case Exits => []
    case LatePause => []
    case LateUnpause => []
    case _ => [e]
  }

  function MirrorAll(events: seq<Event>): (r: seq<Event>)
  {
    if events == [] then []
    else
      var init, last := events[..|events| - 1], events[|events| - 1];
      var before := MirrorAll(init);
      before + Mirror(AfterAll(STARTED, init), AfterAll(STARTED, before), last)
  }

  function One(b: bool): (n: nat)
  {
    if b then 1 else 0
  }

  /** The other course looks the same to every caller, and each doubt in it is a command still pending. */
  predicate Mirrors(s: State, t: State)
  {
    && ViewOf(t) == ViewOf(s) && t.holder == s.holder && HolderSound(s)
    && t.c.alive
    && t.c.pausesPending >= One(s.doubts.pause || s.doubts.overUnknown) + One(Moving(s, true))
    && t.c.unpausesPending >= One(s.doubts.unpause) + One(Moving(s, false))
    // Without a doubted pause the container is frozen unless Running is recorded.
    && (s.doubts.pause || (t.c.frozen <==> s.recorded != Running))
  }

  lemma PlayOne(t: State, e: Event)
    ensures AfterAll(t, [e]) == After(t, e) && Results(t, [e]) == ResultOf(t, e)
  {
    assert [e][..0] == [];
  }

  lemma PlayTwo(t: State, e: Event, f: Event)
    ensures AfterAll(t, [e, f]) == After(After(t, e), f)
    ensures Results(t, [e, f]) == ResultOf(t, e) + ResultOf(After(t, e), f)
  {
    assert [e, f] == [e] + [f];
    PlayOne(t, e);
    PlayOne(After(t, e), f);
    Join(t, [e], [f]);
    JoinResults(t, [e], [f]);
  }

  lemma MirrorSend(s: State, t: State, outcome: Outcome)
    requires Mirrors(s, t)
    ensures var e := if outcome.NotSpawned? then Send(outcome) else Send(NoAnswer(false));
            Mirrors(After(s, Send(outcome)), After(t, e)) && ResultOf(t, e) == ResultOf(s, Send(outcome))
  {
  }

  lemma MirrorConfirmed(s: State, t: State)
    requires Mirrors(s, t) && s.holder.Confirming? && s.c.frozen == s.holder.freeze
    ensures var u := if t.c.frozen == s.holder.freeze then t
        else After(t, if s.holder.freeze then LatePause else LateUnpause);
            && Mirrors(After(s, Confirm(true)), After(u, Confirm(true)))
            && ResultOf(u, Confirm(true)) == ResultOf(s, Confirm(true))
  {
    var u := if t.c.frozen == s.holder.freeze then t else After(t, if s.holder.freeze then LatePause else LateUnpause);
    assert u.c.frozen == s.holder.freeze && u.holder == s.holder;
  }

  lemma MirrorUnconfirmed(s: State, t: State, answered: bool)
    requires Mirrors(s, t) && !(s.holder.Confirming? && answered && s.c.frozen == s.holder.freeze)
    ensures Mirrors(After(s, Confirm(answered)), After(t, Confirm(false)))
    ensures ResultOf(t, Confirm(false)) == ResultOf(s, Confirm(answered))
  {
  }

  lemma MirrorOther(s: State, t: State, e: Event)
    requires Mirrors(s, t) && !e.Send? && !e.Confirm?
    ensures Mirrors(After(s, e), if Mirror(s, t, e) == [] then t else After(t, e))
    ensures ResultOf(s, e) == if Mirror(s, t, e) == [] then [] else ResultOf(t, e)
  {
  }

  lemma MirrorStep(s: State, t: State, e: Event)
    requires Mirrors(s, t)
    ensures Mirrors(After(s, e), AfterAll(t, Mirror(s, t, e)))
    ensures Results(t, Mirror(s, t, e)) == ResultOf(s, e)
  {
    match e {
      case Send(outcome) =>
        MirrorSend(s, t, outcome);
        PlayOne(t, if outcome.NotSpawned? then e else Send(NoAnswer(false)));
      case Confirm(answered) =>
        if s.holder.Confirming? && answered && s.c.frozen == s.holder.freeze {
          MirrorConfirmed(s, t);
          PlayOne(t, Confirm(true));
          PlayTwo(t, if s.holder.freeze then LatePause else LateUnpause, Confirm(true));
        } else {
          MirrorUnconfirmed(s, t, answered);
          PlayOne(t, Confirm(false));
        }
      case _ =>
        MirrorOther(s, t, e);
        PlayOne(t, e);
    }
  }

  lemma {:induction false} MirrorRun(events: seq<Event>)
    ensures Mirrors(AfterAll(STARTED, events), AfterAll(STARTED, MirrorAll(events)))
    ensures Results(STARTED, MirrorAll(events)) == Results(STARTED, events)
  {
    if events != [] {
      var init, last := events[..|events| - 1], events[|events| - 1];
      MirrorRun(init);
      var s, t := AfterAll(STARTED, init), AfterAll(STARTED, MirrorAll(init));
      MirrorStep(s, t, last);
      Join(STARTED, MirrorAll(init), Mirror(s, t, last));
      JoinResults(STARTED, MirrorAll(init), Mirror(s, t, last));
    }
  }

  // ---------------------------------------------------------------- when a record is sure

  /**
   As long as no pause was unconfirmed or confirmed over an unknown state, no pause is left
   pending on a living container and Running is true - except, between a pause and its answer,
   for that one.
   */
  predicate PausesSettled(s: State)
  {
    s.doubts.pause || s.doubts.overUnknown || !s.c.alive ||
    if Moving(s, true) then s.c.pausesPending <= 1 && (s.recorded == Running && s.c.pausesPending == 1 ==> !s.c.frozen)
    else s.c.pausesPending == 0 && (s.recorded == Running ==> !s.c.frozen)
  }

  lemma SendSettles(s: State, op: Operation, freeze: bool, outcome: Outcome)
    requires PausesSettled(s) && Core(s) && s.holder == Sending(op, freeze)
    ensures PausesSettled(AfterSend(s, op, freeze, outcome))
  {
  }

  lemma ConfirmSettles(s: State, op: Operation, freeze: bool, answered: bool)
    requires PausesSettled(s) && Core(s) && s.holder == Confirming(op, freeze)
    ensures PausesSettled(AfterConfirm(s, op, freeze, answered))
  {
  }

  lemma StepSettles(s: State, e: Event)
    requires PausesSettled(s) && Core(s)
    ensures PausesSettled(After(s, e))
  {
    match e {
      case Send(outcome) => if s.holder.Sending? { SendSettles(s, s.holder.op, s.holder.freeze, outcome); }
      case Confirm(answered) => if s.holder.Confirming? { ConfirmSettles(s, s.holder.op, s.holder.freeze, answered); }
      case _ =>
    }
  }

  /** Not knowing the state comes from a doubt. */
  predicate DoubtSound(s: State)
  {
    s.recorded == Unknown || s.doubts.overUnknown ==> s.doubts.pause || s.doubts.unpause
  }

  lemma StepDoubts(s: State, e: Event)
    requires DoubtSound(s)
    ensures DoubtSound(After(s, e))
  {
  }

  lemma {:induction false} AlwaysSettled(events: seq<Event>)
    ensures PausesSettled(AfterAll(STARTED, events)) && DoubtSound(AfterAll(STARTED, events))
  {
    if events != [] {
      var init, last := events[..|events| - 1], events[|events| - 1];
      AlwaysSettled(init);
      AlwaysInvariant(init);
      StepSettles(AfterAll(STARTED, init), last);
      StepDoubts(AfterAll(STARTED, init), last);
    }
  }

  /** A stop was requested, and no pause is recorded or on its way: none will be. */
  predicate NoMorePauses(s: State)
  {
    && s.stopRequested && s.recorded != Paused && !s.doubts.pause && !s.doubts.overUnknown
    && (s.holder.Sending? || s.holder.Confirming? ==> !s.holder.freeze)
  }

  lemma StepWithoutPauses(s: State, e: Event)
    requires NoMorePauses(s)
    ensures NoMorePauses(After(s, e))
  {
  }

  lemma {:induction false} RunWithoutPauses(s: State, more: seq<Event>)
    requires NoMorePauses(s)
    ensures NoMorePauses(AfterAll(s, more))
    decreases |more|
  {
    if more != [] {
      RunWithoutPauses(s, more[..|more| - 1]);
      StepWithoutPauses(AfterAll(s, more[..|more| - 1]), more[|more| - 1]);
    }
  }

  /** No operation comes back unconfirmed. */
  predicate AllConfirmed(rs: seq<Result>)
  {
    forall i :: 0 <= i < |rs| ==> !rs[i].Unconfirmed?
  }

  lemma {:induction false} LearnNoDoubt(v: View, rs: seq<Result>)
    requires AllConfirmed(rs)
    ensures LearnAll(v, rs).doubts.pause == v.doubts.pause && LearnAll(v, rs).doubts.unpause == v.doubts.unpause
  {
    if rs != [] {
      LearnNoDoubt(v, rs[..|rs| - 1]);
    }
  }

  predicate RecordTrue(s: State)
  {
    (s.recorded == Running ==> !s.c.frozen) && (s.recorded == Paused ==> s.c.frozen || !s.c.alive)
  }

  /**
   `other` has given the same results so far, and `more` goes on from there to rest with every
   operation confirmed.
   */
  ghost predicate Alike(events: seq<Event>, other: seq<Event>, more: seq<Event>)
  {
    && Results(STARTED, other) == Results(STARTED, events)
    && AfterAll(STARTED, other).holder.Free?
    && AfterAll(AfterAll(STARTED, other), more).holder.Free?
    && AllConfirmed(Results(AfterAll(STARTED, other), more))
  }

  /** What the callers have to check. */
  predicate Sure(s: State)
  {
    && !s.doubts.pause && !s.doubts.overUnknown
    && (s.doubts.unpause ==> s.stopRequested && s.recorded != Paused)
  }

  lemma SureStaysTrue(events: seq<Event>, other: seq<Event>, more: seq<Event>)
    requires Sure(AfterAll(STARTED, events)) && Alike(events, other, more)
    ensures RecordTrue(AfterAll(AfterAll(STARTED, other), more))
  {
    var t := AfterAll(STARTED, other);
    var u := AfterAll(t, more);
    ResultsTellView(events);
    ResultsTellView(other);
    assert ViewOf(t) == ViewOf(AfterAll(STARTED, events));
    Join(STARTED, other, more);
    JoinResults(STARTED, other, more);
    AlwaysInvariant(other + more);
    AlwaysSettled(other + more);
    if t.doubts.unpause {
      RunWithoutPauses(t, more);
    } else {
      ResultsTellView(other + more);
      LearnJoin(ViewOf(STARTED), Results(STARTED, other), Results(t, more));
      LearnNoDoubt(ViewOf(t), Results(t, more));
      ConfirmedRecordsAreTrue(other + more);
    }
  }

  // ---------------------------------------------------------------- and when it is not

  /** `events` lead from `s` to `t` with every operation confirmed. */
  ghost predicate Leads(s: State, events: seq<Event>, t: State)
  {
    AfterAll(s, events) == t && AllConfirmed(Results(s, events))
  }

  lemma LeadOn(s: State, events: seq<Event>, t: State, e: Event) returns (longer: seq<Event>)
    requires Leads(s, events, t) && AllConfirmed(ResultOf(t, e))
    ensures Leads(s, longer, After(t, e))
  {
    longer := events + [e];
    assert longer[..|events|] == events;
  }

  predicate CanCarry(s: State, op: Operation)
  {
    s.holder.Free? && s.c.alive && s.recorded != Wanted(op == Pause) && (s.stopRequested <==> op == Stop)
  }

  /** What one operation comes to whose command is applied and whose answer is the wanted one. */
  function Carried(s: State, op: Operation): (t: State)
  {
    Operate(s, op, Accepted(true), true)
  }

  lemma CarriedOut(s: State, op: Operation)
    requires CanCarry(s, op)
    ensures var t := Carried(s, op);
            && t.recorded == Wanted(op == Pause) && t.c == s.c.(frozen := op == Pause)
            && t.holder == (if op == Stop then Killing(true) else Free)
  {
  }

  lemma CarriedAsks(s: State, op: Operation)
    requires CanCarry(s, op)
    ensures var t := After(After(After(s, Acquire(op)), Decide), Send(Accepted(true)));
            t.holder == Confirming(op, op == Pause) && t.c.frozen == (op == Pause)
    ensures ResultOf(After(s, Acquire(op)), Decide) == []
  {
  }

  lemma CarriedLeads(s: State, op: Operation) returns (events: seq<Event>)
    requires CanCarry(s, op)
    ensures Leads(s, events, Carried(s, op))
  {
    CarriedAsks(s, op);
    var entered := After(s, Acquire(op));
    var sending := After(entered, Decide);
    events := LeadOn(s, [], s, Acquire(op));
    events := LeadOn(s, events, entered, Decide);
    events := LeadOn(s, events, sending, Send(Accepted(true)));
    events := LeadOn(s, events, After(sending, Send(Accepted(true))), Confirm(true));
  }

  /** A late pause after the record was confirmed; a stop then still sends its kill. */
  lemma LatePauseLeads(s: State, events: seq<Event>, t: State) returns (more: seq<Event>)
    requires Leads(s, events, t) && t.c.alive && t.c.pausesPending > 0 && t.recorded == Running
    requires t.holder.Free? || t.holder.Killing?
    ensures Untrue(AfterAll(s, more)) && AllConfirmed(Results(s, more))
  {
    more := LeadOn(s, events, t, LatePause);
    if t.holder.Killing? {
      more := LeadOn(s, more, After(t, LatePause), SendKill);
    }
  }

  /**
   Whenever a pause is still pending on a living container, there is a continuation, with every
   operation confirmed, that ends at rest with Running recorded and the container frozen.
   */
  lemma PendingPauseBreaksRecord(s: State) returns (more: seq<Event>)
    requires s.holder.Free? && s.c.alive && s.c.pausesPending > 0
    ensures Untrue(AfterAll(s, more)) && AllConfirmed(Results(s, more))
  {
    if s.recorded == Running {
      more := LatePauseLeads(s, [], s);
    } else {
      var op := if s.stopRequested then Stop else Resume;
      CarriedOut(s, op);
      var events := CarriedLeads(s, op);
      more := LatePauseLeads(s, events, Carried(s, op));
    }
  }

  /** At rest, recorded Paused, and running all the same. */
  predicate UntruePause(s: State)
  {
    s.holder.Free? && s.recorded == Paused && s.c.alive && !s.c.frozen
  }

  /** The same for a pending unpause, as long as Paused is recorded or a pause would still be carried out. */
  lemma PendingUnpauseBreaksRecord(s: State) returns (more: seq<Event>)
    requires s.holder.Free? && s.c.alive && s.c.unpausesPending > 0 && (!s.stopRequested || s.recorded == Paused)
    ensures UntruePause(AfterAll(s, more)) && AllConfirmed(Results(s, more))
  {
    if s.recorded == Paused {
      more := LeadOn(s, [], s, LateUnpause);
    } else {
      CarriedOut(s, Pause);
      more := CarriedLeads(s, Pause);
      more := LeadOn(s, more, Carried(s, Pause), LateUnpause);
    }
  }

  lemma UnsureCanBreak(events: seq<Event>) returns (other: seq<Event>, more: seq<Event>)
    requires AfterAll(STARTED, events).holder.Free? && !Sure(AfterAll(STARTED, events))
    ensures Alike(events, other, more) && !RecordTrue(AfterAll(AfterAll(STARTED, other), more))
  {
    MirrorRun(events);
    other := MirrorAll(events);
    var t := AfterAll(STARTED, other);
    if t.doubts.pause || t.doubts.overUnknown {
      more := PendingPauseBreaksRecord(t);
    } else {
      more := PendingUnpauseBreaksRecord(t);
    }
  }

  /**
   The exact condition, in what the callers know: after a run that rests, the record is true in
   every run that has given the same results and goes on to rest with every operation confirmed,
   if and only if no pause was unconfirmed or confirmed over an unknown state and no unpause was
   unconfirmed, save one that a requested stop has made harmless.
   */
  lemma RecordSureIff(events: seq<Event>)
    requires AfterAll(STARTED, events).holder.Free?
    ensures Sure(AfterAll(STARTED, events)) <==>
            forall other, more :: Alike(events, other, more) ==> RecordTrue(AfterAll(AfterAll(STARTED, other), more))
  {
    if Sure(AfterAll(STARTED, events)) {
      forall other, more | Alike(events, other, more)
        ensures RecordTrue(AfterAll(AfterAll(STARTED, other), more))
      {
        SureStaysTrue(events, other, more);
      }
    } else {
      var other, more := UnsureCanBreak(events);
    }
  }
}
