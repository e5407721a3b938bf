/**
 One container run against an unreliable runtime, and the clean-up of containers an earlier
 process left behind.
 */
module ContainerRun {
  import opened Common
  import opened ContainerRuntime
  import opened ContainerState

  datatype ContainerLeft = Removed | Kept | Unknown

  datatype RunResult =
    | Finished(exit: Exit, logsComplete: bool, container: ContainerLeft)
    | NotStarted(container: ContainerLeft)
    | Unobserved(stopped: bool, logsComplete: bool, container: ContainerLeft)

  /** `needs_human` of both result types. */
  predicate NeedsHuman(r: RunResult)
  {
    match r
    case Finished(_, _, container) => container != Removed
    case NotStarted(container) => container != Removed
    case Unobserved(stopped, _, container) => !stopped || container != Removed
  }

  const POLL_FAILURES_TOLERATED: nat := 5

  // ---------------------------------------------------------------- what is sent, and when

  /** Asked `k` times, and told each time that the container is running. */
  function Asked(log: Log, id: Id, k: nat): (r: Log)
  {
    if k == 0 then log else Then(Asked(log, id, k - 1), SaidRunning(id))
  }

  /**
   The questions behind a kill: "running" `k` times and then "not running", or no answer, or - the
   tenth time - no further question.
   */
  ghost predicate Confirming(from: Log, to: Log, id: Id, ok: bool)
  {
    exists k: nat :: k <= 10 && Confirmed(Asked(from, id, k), to, id, ok, k)
  }

  predicate Confirmed(asked: Log, to: Log, id: Id, ok: bool, k: nat)
  {
    if ok then k < 10 && to == Then(asked, SaidStopped(id))
    else if k == 10 then to == asked
    else to == Then(asked, SaidNothing(id))
  }

  /** Unless the first question is answered "not running", a kill is sent and its effect asked for. */
  ghost predicate Stopping(from: Log, to: Log, id: Id, ok: bool)
  {
    || (ok && to == Then(from, SaidStopped(id)))
    || Confirming(Then(Then(from, SaidRunning(id)), KillSent(id)), to, id, ok)
    || Confirming(Then(Then(from, SaidNothing(id)), KillSent(id)), to, id, ok)
  }

  /** An `rm` is followed by the question whether the container is gone; only a "no" makes it Removed. */
  predicate Removing(from: Log, to: Log, id: Id, left: ContainerLeft)
  {
    var sent := Then(from, RmSent(id));
    match left
    case Removed => to == Then(sent, SaidAbsent(id))
    case Unknown => to == Then(sent, SaidPresent(id, false)) || to == Then(sent, SaidNothing(id))
    case Kept => false
  }

  /** Logs are asked for exactly when the caller wants them. */
  predicate Saving(from: Log, to: Log, id: Id, paths: bool, ok: bool)
  {
    if !paths then ok && to == from else to == Then(from, if ok then LogsSaved(id) else LogsFailed(id))
  }

  /** Logs, and the removal exactly when they were saved. */
  predicate Tidying(from: Log, to: Log, id: Id, paths: bool, complete: bool, left: ContainerLeft)
  {
    if !complete then left == Kept && Saving(from, to, id, paths, false)
    else Removing(if paths then Then(from, LogsSaved(id)) else from, to, id, left)
  }

  /** The kill is really sent: before it nothing but one question, behind it nothing but questions. */
  lemma {:induction false} KillIsSent(from: Log, to: Log, id: Id, ok: bool) returns (kill: Log)
    requires Stopping(from, to, id, ok) && to != Then(from, SaidStopped(id))
    ensures Prefix(kill, to) && kill.Then? && kill.last == KillSent(id)
    ensures kill.before == Then(from, SaidRunning(id)) || kill.before == Then(from, SaidNothing(id))
  {
    kill := Then(Then(from, SaidRunning(id)), KillSent(id));
    if !Confirming(kill, to, id, ok) {
      kill := Then(Then(from, SaidNothing(id)), KillSent(id));
    }
    var k: nat :| k <= 10 && Confirmed(Asked(kill, id, k), to, id, ok, k);
    AskedPrefix(kill, id, k);
  }

  lemma {:induction false} AskedPrefix(log: Log, id: Id, k: nat)
    ensures Prefix(log, Asked(log, id, k))
  {
    if k > 0 {
      AskedPrefix(log, id, k - 1);
    }
  }

  lemma {:induction false} AskedFacts(log: Log, earlier: set<Id>, id: Id, k: nat, i: Id)
    ensures Observed(Asked(log, id, k), earlier, i) == Observed(log, earlier, i)
  {
    if k > 0 {
      AskedFacts(log, earlier, id, k - 1, i);
    }
  }

  function AfterStopping(f: Facts, ok: bool): (r: Facts)
  {
    if ok then f.(stoppedSaid := true) else f
  }

  lemma ConfirmingFacts(from: Log, to: Log, earlier: set<Id>, id: Id, ok: bool, i: Id)
    requires Confirming(from, to, id, ok)
    ensures Observed(to, earlier, i)
            == if i == id then AfterStopping(Observed(from, earlier, i), ok) else Observed(from, earlier, i)
  {
    var k: nat :| k <= 10 && Confirmed(Asked(from, id, k), to, id, ok, k);
    AskedFacts(from, earlier, id, k, i);
  }

  lemma StoppingFacts(from: Log, to: Log, earlier: set<Id>, id: Id, ok: bool, i: Id)
    requires Stopping(from, to, id, ok)
    ensures Observed(to, earlier, i)
            == if i == id then AfterStopping(Observed(from, earlier, i), ok) else Observed(from, earlier, i)
  {
    var ran, unknown := Then(from, SaidRunning(id)), Then(from, SaidNothing(id));
    assert Observed(ran, earlier, i) == Observed(from, earlier, i) == Observed(unknown, earlier, i);
    if Confirming(Then(ran, KillSent(id)), to, id, ok) {
      ConfirmingFacts(Then(ran, KillSent(id)), to, earlier, id, ok, i);
    } else if Confirming(Then(unknown, KillSent(id)), to, id, ok) {
      ConfirmingFacts(Then(unknown, KillSent(id)), to, earlier, id, ok, i);
    }
  }

  // ---------------------------------------------------------------- stopping and removing

  /** `confirm_stopped`: an unanswered question ends the confirmation at once. */
  method ConfirmStopped(rt: Runtime, id: Id) returns (ok: bool)
    requires rt.Sound() && id in rt.worlds
    modifies rt
    ensures rt.Sound() && AllDrift(old(rt.worlds), rt.worlds)
    ensures ok ==> !rt.worlds[id].truth.Running?
    ensures Confirming(old(rt.log), rt.log, id, ok)
  {
    for attempt := 0 to STOP_CONFIRM_TRIES
      invariant rt.Sound() && AllDrift(old(rt.worlds), rt.worlds)
      invariant rt.log == Asked(old(rt.log), id, attempt)
    {
      ghost var before := rt.worlds;
      var running := rt.InspectRunning(id);
      AllDriftTransitive(old(rt.worlds), before, rt.worlds);
      match running {
        case Ok(false) => return true;
        case Ok(true) =>
        case Err(_) => return false;
      }
    }
    return false;
  }

  /** `stop_and_confirm`: the answer to `kill` is never taken for a stop. */
  method StopAndConfirm(rt: Runtime, id: Id) returns (ok: bool)
    requires rt.Sound() && id in rt.worlds
    modifies rt
    ensures rt.Sound() && AllDrift(old(rt.worlds), rt.worlds)
    ensures rt.Of(id) == AfterStopping(old(rt.Of(id)), ok)
    ensures ok ==> !rt.worlds[id].truth.Running?
    ensures Stopping(old(rt.log), rt.log, id, ok)
  {
    var running := rt.InspectRunning(id);
    if running == Ok(false) { return true; }
    ghost var before := rt.worlds;
    rt.Kill(id);
    AllDriftTransitive(old(rt.worlds), before, rt.worlds);
    ghost var killed := rt.worlds;
    ok := ConfirmStopped(rt, id);
    AllDriftTransitive(old(rt.worlds), killed, rt.worlds);
    StoppingFacts(old(rt.log), rt.log, rt.earlier, id, ok, id);
  }

  /** `remove_container_fact`: gone only when a later inspect says so, whatever `rm` answered. */
  method RemoveContainerFact(rt: Runtime, id: Id) returns (left: ContainerLeft)
    requires rt.Sound() && id in rt.worlds && MayRemove(rt.Of(id), rt.paths)
    modifies rt
    ensures rt.Sound() && AllDrift(old(rt.worlds), rt.worlds)
    ensures left != Kept && (left == Removed ==> rt.worlds[id].truth.Absent?)
    ensures Removing(old(rt.log), rt.log, id, left)
    ensures rt.Of(id) == if left == Removed then old(rt.Of(id)).(stoppedSaid := true, absentSaid := true)
        else old(rt.Of(id))
  {
    rt.Rm(id);
    ghost var before := rt.worlds;
    var found := rt.InspectExists(id, false);
    AllDriftTransitive(old(rt.worlds), before, rt.worlds);
    left := if found == Ok(false) then Removed else Unknown;
  }

  /** Logs first, and the container is removed only behind them. */
  method SaveAndRemove(rt: Runtime, id: Id) returns (complete: bool, left: ContainerLeft)
    requires rt.Sound() && id in rt.worlds && rt.Of(id).stoppedSaid
    modifies rt
    ensures rt.Sound() && AllDrift(old(rt.worlds), rt.worlds)
    ensures left == Removed ==> rt.worlds[id].truth.Absent?
    ensures Tidying(old(rt.log), rt.log, id, rt.paths, complete, left)
  {
    complete := rt.SaveLogs(id);
    if !complete { return false, Kept; }
    ghost var before := rt.worlds;
    left := RemoveContainerFact(rt, id);
    AllDriftTransitive(old(rt.worlds), before, rt.worlds);
  }

  lemma RemovingFacts(from: Log, to: Log, earlier: set<Id>, id: Id, left: ContainerLeft)
    requires Removing(from, to, id, left)
    ensures var was := Observed(from, earlier, id);
            Observed(to, earlier, id) == if left == Removed then was.(stoppedSaid := true, absentSaid := true) else was
  {
    assert Observed(Then(from, RmSent(id)), earlier, id) == Observed(from, earlier, id);
  }

  /** What tidying adds to the facts. */
  lemma TidyingFacts(from: Log, to: Log, earlier: set<Id>, id: Id, paths: bool, complete: bool, left: ContainerLeft)
    requires Tidying(from, to, id, paths, complete, left) && Observed(from, earlier, id).stoppedSaid
    ensures var was := Observed(from, earlier, id);
            Observed(to, earlier, id)
            == was.(saved := was.saved || (complete && paths), absentSaid := was.absentSaid || left == Removed)
  {
    if complete {
      RemovingFacts(if paths then Then(from, LogsSaved(id)) else from, to, earlier, id, left);
    }
  }

  lemma TidyingElsewhere(from: Log, to: Log, earlier: set<Id>, id: Id, paths: bool, complete: bool,
                         left: ContainerLeft, i: Id)
    requires Tidying(from, to, id, paths, complete, left) && i != id
    ensures Observed(to, earlier, i) == Observed(from, earlier, i)
  {
    if complete {
      var saved := if paths then Then(from, LogsSaved(id)) else from;
      assert Observed(Then(saved, RmSent(id)), earlier, i) == Observed(saved, earlier, i);
    }
  }

  // ---------------------------------------------------------------- left-over containers

  datatype LeftoversResult = Cleaned(ids: seq<Id>) | NotCleaned

  /** Every one of `ids` is stopped in turn, from `logs[k]` to `logs[k + 1]`; `oks` says which stops were confirmed. */
  ghost predicate StoppingEach(logs: seq<Log>, ids: seq<Id>, oks: seq<bool>)
  {
    && |logs| == |ids| + 1 && |oks| == |ids|
    && forall k :: 0 <= k < |ids| ==> Stopping(logs[k], logs[k + 1], ids[k], oks[k])
  }

  /** Every one of `ids` is tidied in turn; `lefts` says what was left of them. */
  ghost predicate TidyingEach(logs: seq<Log>, ids: seq<Id>, paths: bool, lefts: seq<ContainerLeft>)
  {
    && |logs| == |ids| + 1 && |lefts| == |ids|
    && forall k :: 0 <= k < |ids| ==> Tidying(logs[k], logs[k + 1], ids[k], paths, lefts[k] != Kept, lefts[k])
  }

  /** Those of `ids` that were stopped, in order. */
  function Chosen(ids: seq<Id>, oks: seq<bool>): (r: seq<Id>)
    requires |ids| == |oks|
  {
    if ids == [] then []
    else
      var n := |ids| - 1;
      Chosen(ids[..n], oks[..n]) + if oks[n] then [ids[n]] else []
  }

  lemma {:induction false} ChosenAll(ids: seq<Id>, oks: seq<bool>)
    requires |ids| == |oks| && false !in oks
    ensures Chosen(ids, oks) == ids
  {
    if ids != [] {
      var n := |ids| - 1;
      assert oks[n] in oks;
      ChosenAll(ids[..n], oks[..n]);
    }
  }

  lemma ChosenSnoc(ids: seq<Id>, oks: seq<bool>, id: Id, ok: bool)
    requires |ids| == |oks|
    ensures Chosen(ids + [id], oks + [ok]) == Chosen(ids, oks) + if ok then [id] else []
  {
    assert (ids + [id])[..|ids|] == ids && (oks + [ok])[..|oks|] == oks;
  }

  lemma StoppingSnoc(logs: seq<Log>, to: Log, ids: seq<Id>, oks: seq<bool>, id: Id, ok: bool)
    requires StoppingEach(logs, ids, oks) && Stopping(logs[|ids|], to, id, ok)
    ensures StoppingEach(logs + [to], ids + [id], oks + [ok])
  {
  }

  lemma TidyingSnoc(logs: seq<Log>, to: Log, ids: seq<Id>, paths: bool, lefts: seq<ContainerLeft>, id: Id,
                    left: ContainerLeft)
    requires TidyingEach(logs, ids, paths, lefts) && Tidying(logs[|ids|], to, id, paths, left != Kept, left)
    ensures TidyingEach(logs + [to], ids + [id], paths, lefts + [left])
  {
  }

  ghost predicate AllStopped(log: Log, earlier: set<Id>, ids: seq<Id>)
  {
    forall j :: 0 <= j < |ids| ==> Observed(log, earlier, ids[j]).stoppedSaid
  }

  lemma StoppedNext(from: Log, to: Log, earlier: set<Id>, ids: seq<Id>, id: Id, ok: bool)
    requires AllStopped(from, earlier, ids) && Stopping(from, to, id, ok)
    ensures AllStopped(to, earlier, ids + if ok then [id] else [])
  {
    var more := ids + if ok then [id] else [];
    forall j | 0 <= j < |more|
      ensures Observed(to, earlier, more[j]).stoppedSaid
    {
      StoppingFacts(from, to, earlier, id, ok, more[j]);
      assert j < |ids| ==> more[j] == ids[j];
    }
  }

  /** Everything is stopped first, also after one could not be confirmed. */
  method StopAll(rt: Runtime, ids: seq<Id>)
    returns (stopped: seq<Id>, problems: bool, ghost logs: seq<Log>, ghost oks: seq<bool>)
    requires rt.Sound() && forall k :: 0 <= k < |ids| ==> ids[k] in rt.worlds
    modifies rt
    ensures rt.Sound() && rt.worlds.Keys == old(rt.worlds.Keys)
    ensures AllStopped(rt.log, rt.earlier, stopped) && forall j :: 0 <= j < |stopped| ==> stopped[j] in rt.worlds
    ensures StoppingEach(logs, ids, oks) && logs[0] == old(rt.log) && logs[|ids|] == rt.log
    ensures stopped == Chosen(ids, oks) && problems == (false in oks)
  {
    problems, stopped, logs, oks := false, [], [rt.log], [];
    for k := 0 to |ids|
      invariant rt.Sound() && rt.worlds.Keys == old(rt.worlds.Keys)
      invariant AllStopped(rt.log, rt.earlier, stopped) && forall j :: 0 <= j < |stopped| ==> stopped[j] in rt.worlds
      invariant StoppingEach(logs, ids[..k], oks) && logs[0] == old(rt.log) && logs[k] == rt.log
      invariant stopped == Chosen(ids[..k], oks) && problems == (false in oks)
    {
      var ok := StopAndConfirm(rt, ids[k]);
      StoppedNext(logs[k], rt.log, rt.earlier, stopped, ids[k], ok);
      StoppingSnoc(logs, rt.log, ids[..k], oks, ids[k], ok);
      ChosenSnoc(ids[..k], oks, ids[k], ok);
      assert ids[..k + 1] == ids[..k] + [ids[k]];
      logs, oks := logs + [rt.log], oks + [ok];
      if ok {
        stopped := stopped + [ids[k]];
      } else {
        assert stopped + [] == stopped;
        problems := true;
      }
    }
    assert ids[..|ids|] == ids;
  }

  ghost predicate Cleared(f: Facts, paths: bool)
  {
    f.absentSaid && (paths ==> f.saved)
  }

  ghost predicate AllCleared(log: Log, earlier: set<Id>, paths: bool, ids: seq<Id>)
  {
    forall j :: 0 <= j < |ids| ==> Cleared(Observed(log, earlier, ids[j]), paths)
  }

  ghost predicate AllRemoved(lefts: seq<ContainerLeft>)
  {
    forall k :: 0 <= k < |lefts| ==> lefts[k] == Removed
  }

  lemma AllRemovedSnoc(lefts: seq<ContainerLeft>, left: ContainerLeft)
    ensures AllRemoved(lefts + [left]) <==> AllRemoved(lefts) && left == Removed
  {
    assert AllRemoved(lefts + [left]) ==> (lefts + [left])[|lefts|] == Removed;
    assert forall k :: 0 <= k < |lefts| ==> (lefts + [left])[k] == lefts[k];
  }

  /** Tidying one of them takes back nothing that is known of the others. */
  lemma TidiedNext(from: Log, to: Log, earlier: set<Id>, paths: bool, ids: seq<Id>, k: nat, complete: bool,
                   left: ContainerLeft)
    requires k < |ids| && AllStopped(from, earlier, ids) && Tidying(from, to, ids[k], paths, complete, left)
    ensures AllStopped(to, earlier, ids)
    ensures left == Removed && AllCleared(from, earlier, paths, ids[..k]) ==>
              AllCleared(to, earlier, paths, ids[..k + 1])
  {
    TidyingFacts(from, to, earlier, ids[k], paths, complete, left);
    forall j | 0 <= j < |ids|
      ensures var was, f := Observed(from, earlier, ids[j]), Observed(to, earlier, ids[j]);
              f.stoppedSaid && (Cleared(was, paths) ==> Cleared(f, paths))
    {
      if ids[j] != ids[k] {
        TidyingElsewhere(from, to, earlier, ids[k], paths, complete, left, ids[j]);
      }
    }
  }

  /** Those that were stopped, one after another; one that cannot be removed does not hold up the rest. */
  method RemoveAll(rt: Runtime, stopped: seq<Id>)
    returns (problems: bool, ghost logs: seq<Log>, ghost lefts: seq<ContainerLeft>)
    requires rt.Sound()
    requires AllStopped(rt.log, rt.earlier, stopped) && forall j :: 0 <= j < |stopped| ==> stopped[j] in rt.worlds
    modifies rt
    ensures rt.Sound()
    ensures TidyingEach(logs, stopped, rt.paths, lefts) && logs[0] == old(rt.log) && logs[|stopped|] == rt.log
    ensures problems == !AllRemoved(lefts)
    ensures !problems ==> AllCleared(rt.log, rt.earlier, rt.paths, stopped)
  {
    problems, logs, lefts := false, [rt.log], [];
    for k := 0 to |stopped|
      invariant rt.Sound() && rt.worlds.Keys == old(rt.worlds.Keys) && AllStopped(rt.log, rt.earlier, stopped)
      invariant TidyingEach(logs, stopped[..k], rt.paths, lefts) && logs[0] == old(rt.log) && logs[k] == rt.log
      invariant problems == !AllRemoved(lefts)
      invariant !problems ==> AllCleared(rt.log, rt.earlier, rt.paths, stopped[..k])
    {
      var complete, left := SaveAndRemove(rt, stopped[k]);
      TidiedNext(logs[k], rt.log, rt.earlier, rt.paths, stopped, k, complete, left);
      AllRemovedSnoc(lefts, left);
      TidyingSnoc(logs, rt.log, stopped[..k], rt.paths, lefts, stopped[k], left);
      assert stopped[..k + 1] == stopped[..k] + [stopped[k]];
      logs, lefts := logs + [rt.log], lefts + [left];
      if left != Removed {
        problems := true;
      }
    }
    assert stopped[..|stopped|] == stopped;
  }

  /** What cleaning up after an earlier process sends, and when it has succeeded. */
  ghost predicate Cleaning(from: Log, to: Log, ids: seq<Id>, paths: bool, success: bool)
  {
    exists stops, oks, removals, lefts ::
      && StoppingEach(stops, ids, oks) && TidyingEach(removals, Chosen(ids, oks), paths, lefts)
      && stops[0] == from && stops[|ids|] == removals[0] && removals[|Chosen(ids, oks)|] == to
      && (success <==> false !in oks && AllRemoved(lefts))
  }

  /**
   `remove_leftovers`: every container of this agent is stopped first, then each one that was
   seen to have stopped has its logs saved and is removed. It succeeds exactly when each one was
   stopped and confirmed gone.
   */
  method RemoveLeftovers(rt: Runtime, listed: Option<seq<Id>>) returns (r: LeftoversResult)
    requires rt.Sound()
    requires listed.Some? ==>
               forall k :: 0 <= k < |listed.value| ==> listed.value[k] in rt.worlds && listed.value[k] in rt.earlier
    modifies rt
    ensures rt.Sound()
    ensures r.Cleaned? ==> listed == Some(r.ids) && AllCleared(rt.log, rt.earlier, rt.paths, r.ids)
    ensures listed.None? ==> r == NotCleaned && rt.log == old(rt.log)
    ensures listed.Some? ==> Cleaning(old(rt.log), rt.log, listed.value, rt.paths, r.Cleaned?)
  {
    if listed.None? { return NotCleaned; }
    var ids := listed.value;
    var stopped, unstopped, stops, oks := StopAll(rt, ids);
    var unremoved, removals, lefts := RemoveAll(rt, stopped);
    assert StoppingEach(stops, ids, oks) && TidyingEach(removals, Chosen(ids, oks), rt.paths, lefts);
    if unstopped || unremoved { return NotCleaned; }
    ChosenAll(ids, oks);
    return Cleaned(ids);
  }

  // ---------------------------------------------------------------- one run

  /** What every result of a run promises about the container, given what was sent and answered. */
  ghost predicate Honest(r: RunResult, f: Facts, w: World, paths: bool)
  {
    // Nobody is needed: the container is not running and nothing can start it.
    && (!NeedsHuman(r) ==> Quiet(w))
    // Removed is never claimed on the word of a create, a start, a kill or an rm, and it is true
    // unless a create went unanswered.
    && (r.container == Removed ==> !f.createReached || f.absentSaid)
    && (r.container == Removed && !f.createOpen ==> Gone(w))
    && (!r.NotStarted? ==> !f.createOpen)
    // Not started: no start ever reached the runtime.
    && (r.NotStarted? ==> !f.startReached && Quiet(w))
    && (r.Unobserved? && r.stopped ==> Quiet(w) && f.stoppedSaid)
    && (!r.NotStarted? && r.logsComplete && paths ==> f.saved)
    // The reported exit is the container's own.
    && (r.Finished? ==> Ended(w, r.exit) && f.stoppedSaid)
    // The owner holds a stop handle for whatever may be running.
    && (f.startReached && !(r.Unobserved? && r.stopped) ==> f.handleGiven)
  }

  /** After a create that did not succeed, whatever its answer: what the question for the name says. */
  function NotCreated(found: Result<bool, string>): (r: RunResult)
  {
    NotStarted(if found == Ok(false) then Removed else Unknown)
  }

  /**
   The edge of Removed: the create goes unanswered, the truthful answer is that there is no such
   container, and the create takes effect after that. The result calls for nobody, and the
   container is there - created, never started.
   */
  lemma UnansweredCreateAppearsLater(paths: bool) returns (asked: World, later: World, f: Facts)
    ensures CreateEffect(NoAnswer, asked) && asked.truth.Absent? && Drift(asked, later)
    ensures f == Note(Note(Observed(Nothing, {}, "self"), CreateSent("self", NoAnswer)), SaidAbsent("self"))
    ensures NotCreated(Ok(false)).container == Removed && !NeedsHuman(NotCreated(Ok(false)))
    ensures Honest(NotCreated(Ok(false)), f, later, paths) && later.truth.Created?
  {
    asked, later := World(Absent, true, false), World(Created, false, false);
    f := Note(Note(Observed(Nothing, {}, "self"), CreateSent("self", NoAnswer)), SaidAbsent("self"));
  }

  // ---------------------------------------------------------------- before the start

  /** Whose a container of this attempt's name is. */
  datatype Owner = NotAnswered | NoSuchName | Ours | NotOurs

  /** What the world answers before the start, apart from the runtime's commands. */
  datatype Setup = Setup(
    cdiAll: bool, pulled: bool, oneGpu: bool, argsOk: bool, owner: Owner, bound: bool, stillOneGpu: bool)

  /**
   Everything before the start and what it ends in. Nothing is created unless image, device count
   and arguments are fine and the name is free; a container is removed only if this attempt made
   it and the device count has changed since.
   */
  ghost predicate Preparing(from: Log, to: Log, id: Id, s: Setup, ended: Option<RunResult>)
  {
    if (s.cdiAll && !(s.pulled && s.oneGpu)) || !s.argsOk then to == from && ended == Some(NotStarted(Removed))
    else
      match s.owner
      case Ours => to == from && ended == Some(NotStarted(Kept))
      case NotOurs => to == from && ended == Some(NotStarted(Unknown))
      case NotAnswered => to == from && ended == Some(NotStarted(Unknown))
      case NoSuchName => exists answer :: Creating(Then(from, CreateSent(id, answer)), to, id, answer, s, ended)
  }

  ghost predicate Creating(sent: Log, to: Log, id: Id, answer: Answer, s: Setup, ended: Option<RunResult>)
  {
    match answer
    case NotSpawned => to == sent && ended == Some(NotStarted(Removed))
    case Accepted =>
      if !s.bound then to == sent && ended == Some(NotStarted(Unknown))
      else if s.cdiAll && !s.stillOneGpu then
        ended.Some? && ended.value.NotStarted? && Removing(sent, to, id, ended.value.container)
      else to == sent && ended == None
    case _ =>
      || (to == Then(sent, SaidAbsent(id)) && ended == Some(NotStarted(Removed)))
      || (to == Then(sent, SaidPresent(id, true)) && ended == Some(NotStarted(Unknown)))
      || (to == Then(sent, SaidNothing(id)) && ended == Some(NotStarted(Unknown)))
  }

  /** Everything up to the start: the run either ends here or holds a container bound to its own ID. */
  method Prepare(rt: Runtime, self: Id, s: Setup) returns (ended: Option<RunResult>)
    requires rt.Sound() && rt.log == Nothing && self in rt.worlds && self !in rt.earlier && Gone(rt.worlds[self])
    modifies rt
    ensures rt.Sound() && self in rt.worlds && Quiet(rt.worlds[self])
    ensures var f := rt.Of(self); !f.startReached && !f.handleGiven && !f.saved
    ensures ended.Some? ==> ended.value.NotStarted? && Honest(ended.value, rt.Of(self), rt.worlds[self], rt.paths)
    ensures ended.None? ==> !rt.worlds[self].createPending && !rt.Of(self).createOpen
    ensures Preparing(Nothing, rt.log, self, s, ended)
  {
    if s.cdiAll {
      if !s.pulled { return Some(NotStarted(Removed)); }
      if !s.oneGpu { return Some(NotStarted(Removed)); }
    }
    if !s.argsOk { return Some(NotStarted(Removed)); }
    // `inspect_owner`: only the answer "no such container" lets the run go on.
    match s.owner {
      case NoSuchName =>
      case Ours => return Some(NotStarted(Kept));
      case NotOurs => return Some(NotStarted(Unknown));
      case NotAnswered => return Some(NotStarted(Unknown));
    }
    var created := rt.Create(self);
    ghost var sent := rt.log;
    if created.NotSpawned? {
      ended := Some(NotStarted(Removed));
    } else if !created.Accepted? {
      var found := rt.InspectExists(self, true);
      ended := Some(NotCreated(found));
    } else if !s.bound {
      // The printed ID must have the shape of one and name this attempt's container.
      ended := Some(NotStarted(Unknown));
    } else if s.cdiAll && !s.stillOneGpu {
      var left := RemoveContainerFact(rt, self);
      ended := Some(NotStarted(left));
    } else {
      ended := None;
    }
    assert Creating(sent, rt.log, self, created, s, ended);
  }

  // ---------------------------------------------------------------- after the start

  /** The container has been seen to have stopped: logs, and only then removal. */
  method AfterStop(rt: Runtime, self: Id) returns (r: RunResult)
    requires rt.Sound() && self in rt.worlds && Quiet(rt.worlds[self]) && !rt.worlds[self].createPending
    requires var f := rt.Of(self); f.startReached && f.stoppedSaid && !f.createOpen
    modifies rt
    ensures rt.Sound() && self in rt.worlds && Honest(r, rt.Of(self), rt.worlds[self], rt.paths)
    ensures r.Unobserved? && r.stopped && (r.container == Removed ==> r.logsComplete)
    ensures Tidying(old(rt.log), rt.log, self, rt.paths, r.logsComplete, r.container)
  {
    var complete, left := SaveAndRemove(rt, self);
    TidyingFacts(old(rt.log), rt.log, rt.earlier, self, rt.paths, complete, left);
    r := Unobserved(true, complete, left);
  }

  /** An unanswered start is left alone and handed to the owner; an answered one is stopped and tidied. */
  ghost predicate FailedStart(from: Log, to: Log, id: Id, paths: bool, answered: bool, r: RunResult)
  {
    if !answered then to == Then(from, HandleGiven(id)) && r == Unobserved(false, false, Kept)
    else
      r.Unobserved? && exists stopped ::
        && Stopping(from, stopped, id, r.stopped)
        && if r.stopped then Tidying(stopped, to, id, paths, r.logsComplete, r.container)
           else to == Then(stopped, HandleGiven(id)) && r == Unobserved(false, false, Kept)
  }

  /** The start failed or went unanswered: the container may have run, or may yet run. */
  method AfterFailedStart(rt: Runtime, self: Id, answered: bool) returns (r: RunResult)
    requires rt.Sound() && self in rt.worlds && rt.Of(self).startReached && !rt.Of(self).saved
    requires (answered ==> !rt.worlds[self].startPending) && !rt.worlds[self].createPending && !rt.Of(self).createOpen
    modifies rt
    ensures rt.Sound() && self in rt.worlds && Honest(r, rt.Of(self), rt.worlds[self], rt.paths)
    ensures r.Unobserved? && (!answered ==> !r.stopped && r.container == Kept)
    ensures FailedStart(old(rt.log), rt.log, self, rt.paths, answered, r)
  {
    if !answered {
      rt.Record(HandleGiven(self));
      return Unobserved(false, false, Kept);
    }
    var stopped := StopAndConfirm(rt, self);
    ghost var asked := rt.log;
    if !stopped {
      rt.Record(HandleGiven(self));
      r := Unobserved(false, false, Kept);
    } else {
      r := AfterStop(rt, self);
    }
    assert Stopping(old(rt.log), asked, self, r.stopped);
  }

  /** Out of sight: the container is stopped, its logs are asked for either way, and a confirmed stop is tidied. */
  ghost predicate LostSight(from: Log, to: Log, id: Id, paths: bool, r: RunResult)
  {
    r.Unobserved? && exists stopped ::
      && Stopping(from, stopped, id, r.stopped)
      && if r.stopped then Tidying(stopped, to, id, paths, r.logsComplete, r.container)
         else r == Unobserved(false, false, Kept) && exists saved :: Saving(stopped, to, id, paths, saved)
  }

  /** The stop is not confirmed: what logs there are are taken, and the container is left to its owner. */
  method LeaveUnstopped(rt: Runtime, self: Id) returns (r: RunResult)
    requires rt.Sound() && self in rt.worlds && rt.Of(self).handleGiven && !rt.Of(self).createOpen
    modifies rt
    ensures rt.Sound() && self in rt.worlds && Honest(r, rt.Of(self), rt.worlds[self], rt.paths)
    ensures r == Unobserved(false, false, Kept)
    ensures exists saved :: Saving(old(rt.log), rt.log, self, rt.paths, saved)
  {
    var saved := rt.SaveLogs(self);
    assert Saving(old(rt.log), rt.log, self, rt.paths, saved);
    r := Unobserved(false, false, Kept);
  }

  /** The state could not be read five times in a row: logs are taken even if the stop is not confirmed. */
  method AfterLostSight(rt: Runtime, self: Id) returns (r: RunResult)
    requires rt.Sound() && self in rt.worlds && rt.Of(self).startReached && rt.Of(self).handleGiven
    requires !rt.worlds[self].startPending && !rt.worlds[self].createPending && !rt.Of(self).createOpen
    modifies rt
    ensures rt.Sound() && self in rt.worlds && Honest(r, rt.Of(self), rt.worlds[self], rt.paths)
    ensures r.Unobserved? && (r.container == Removed ==> r.stopped && r.logsComplete)
    ensures LostSight(old(rt.log), rt.log, self, rt.paths, r)
  {
    var stopped := StopAndConfirm(rt, self);
    ghost var asked := rt.log;
    if stopped {
      r := AfterStop(rt, self);
    } else {
      r := LeaveUnstopped(rt, self);
    }
    assert Stopping(old(rt.log), asked, self, r.stopped);
  }

  /** The exit was read: logs first, removal only after them. */
  method AfterExit(rt: Runtime, self: Id, exit: Exit) returns (r: RunResult)
    requires rt.Sound() && self in rt.worlds && Ended(rt.worlds[self], exit)
    requires var f := rt.Of(self); !f.createOpen && f.startReached && f.handleGiven && f.stoppedSaid
    modifies rt
    ensures rt.Sound() && self in rt.worlds && Honest(r, rt.Of(self), rt.worlds[self], rt.paths)
    ensures r.Finished? && r.exit == exit
    ensures Tidying(old(rt.log), rt.log, self, rt.paths, r.logsComplete, r.container)
  {
    var complete, left := SaveAndRemove(rt, self);
    TidyingFacts(old(rt.log), rt.log, rt.earlier, self, rt.paths, complete, left);
    r := Finished(exit, complete, left);
  }

  // ---------------------------------------------------------------- watching the running container

  /** After `n` looks the container was seen running or not seen, the last `unseen` times not, never five times. */
  ghost predicate Looked(from: Log, to: Log, id: Id, n: nat, unseen: nat)
  {
    if n == 0 then to == from && unseen == 0
    else
      to.Then? &&
      if unseen == 0 then to.last == SaidRunning(id) && InSight(from, to.before, id, n - 1)
      else unseen <= 5 && to.last == SaidNothing(id) && Looked(from, to.before, id, n - 1, unseen - 1)
  }

  ghost predicate InSight(from: Log, to: Log, id: Id, n: nat)
  {
    exists unseen: nat :: unseen < 5 && Looked(from, to, id, n, unseen)
  }

  /** How a watch ends: with the exit that was read, with the fifth unanswered look in a row, or not yet. */
  ghost predicate Watching(from: Log, to: Log, id: Id, paths: bool, polls: nat, r: Option<RunResult>)
  {
    match r
    case None => InSight(from, to, id, polls)
    case Some(result) => exists n: nat, u: nat, seen :: WatchEnds(from, seen, to, id, paths, polls, result, n, u)
  }

  ghost predicate WatchEnds(from: Log, seen: Log, to: Log, id: Id, paths: bool, polls: nat, r: RunResult, n: nat,
                            u: nat)
  {
    Looked(from, seen, id, n, u) &&
    if r.Finished? then
      n < polls && u < 5 && Tidying(Then(seen, SaidExited(id, r.exit)), to, id, paths, r.logsComplete, r.container)
    else n <= polls && u == 5 && LostSight(seen, to, id, paths, r)
  }

  method Watch(rt: Runtime, self: Id, polls: nat) returns (r: Option<RunResult>)
    requires rt.Sound() && self in rt.worlds && rt.Of(self).startReached && rt.Of(self).handleGiven
    requires !rt.worlds[self].startPending && !rt.worlds[self].createPending && !rt.Of(self).createOpen
    modifies rt
    ensures rt.Sound() && self in rt.worlds
    ensures r.Some? ==> Honest(r.value, rt.Of(self), rt.worlds[self], rt.paths)
    ensures r.None? ==> rt.Of(self).handleGiven
    ensures Watching(old(rt.log), rt.log, self, rt.paths, polls, r)
  {
    var failures: nat := 0;
    for i := 0 to polls
      invariant rt.Sound() && self in rt.worlds && rt.Of(self).startReached && rt.Of(self).handleGiven
      invariant !rt.worlds[self].startPending && !rt.worlds[self].createPending && !rt.Of(self).createOpen
      invariant failures < POLL_FAILURES_TOLERATED && Looked(old(rt.log), rt.log, self, i, failures)
    {
      ghost var seen := rt.log;
      var state := rt.InspectState(self);
      match state {
        case Ok(Some(exit)) =>
          var result := AfterExit(rt, self, exit);
          assert WatchEnds(old(rt.log), seen, rt.log, self, rt.paths, polls, result, i, failures);
          return Some(result);
        case Ok(None) =>
          assert Looked(old(rt.log), seen, self, i, failures);
          failures := 0;
        case Err(_) =>
          failures := failures + 1;
          if failures >= POLL_FAILURES_TOLERATED {
            seen := rt.log;
            var result := AfterLostSight(rt, self);
            assert WatchEnds(old(rt.log), seen, rt.log, self, rt.paths, polls, result, i + 1, failures);
            return Some(result);
          }
      }
    }
    return None;
  }

  /** What the start's answer leads to. */
  ghost predicate Started(sent: Log, to: Log, id: Id, answer: Answer, paths: bool, polls: nat, r: Option<RunResult>)
  {
    match answer
    case NotSpawned => r.Some? && r.value.NotStarted? && Removing(sent, to, id, r.value.container)
    case NoAnswer => r.Some? && FailedStart(sent, to, id, paths, false, r.value)
    case Refused => r.Some? && FailedStart(sent, to, id, paths, true, r.value)
    case Accepted => Watching(Then(sent, HandleGiven(id)), to, id, paths, polls, r)
  }

  /** Everything from the start on. */
  method RunStarted(rt: Runtime, self: Id, polls: nat) returns (r: Option<RunResult>, ghost answer: Answer)
    requires rt.Sound() && self in rt.worlds && Quiet(rt.worlds[self]) && !rt.worlds[self].createPending
    requires var f := rt.Of(self); !f.startReached && !f.handleGiven && !f.createOpen && !f.saved
    modifies rt
    ensures rt.Sound() && self in rt.worlds
    ensures r.Some? ==> Honest(r.value, rt.Of(self), rt.worlds[self], rt.paths)
    ensures r.None? ==> rt.Of(self).handleGiven
    ensures Started(Then(old(rt.log), StartSent(self, answer)), rt.log, self, answer, rt.paths, polls, r)
  {
    var started := rt.Start(self);
    answer := started;
    match started {
      case NotSpawned =>
        var left := RemoveContainerFact(rt, self);
        r := Some(NotStarted(left));
      case NoAnswer =>
        var result := AfterFailedStart(rt, self, false);
        r := Some(result);
      case Refused =>
        var result := AfterFailedStart(rt, self, true);
        r := Some(result);
      case Accepted =>
        rt.Record(HandleGiven(self));
        r := Watch(rt, self, polls);
    }
  }

  /** The log of a whole run, and the result it must have. */
  ghost predicate Running(to: Log, id: Id, s: Setup, paths: bool, polls: nat, r: Option<RunResult>)
  {
    if r.Some? && Preparing(Nothing, to, id, s, r) then true
    else
      exists made, answer ::
        && Preparing(Nothing, made, id, s, None)
        && Started(Then(made, StartSent(id, answer)), to, id, answer, paths, polls, r)
  }

  /**
   `run_inner`, for as long as `polls` looks at the running container. Whatever the runtime
   answers or fails to answer, the commands sent are those of `Running`, every result is honest
   and every `rm` was justified; `None` is a run that is still going.
   */
  method Run(rt: Runtime, self: Id, s: Setup, polls: nat) returns (r: Option<RunResult>)
    requires rt.Sound() && rt.log == Nothing && self in rt.worlds && self !in rt.earlier && Gone(rt.worlds[self])
    modifies rt
    ensures rt.Sound() && self in rt.worlds
    ensures r.Some? ==> Honest(r.value, rt.Of(self), rt.worlds[self], rt.paths)
    ensures r.None? ==> rt.Of(self).handleGiven
    ensures Running(rt.log, self, s, rt.paths, polls, r)
  {
    r := Prepare(rt, self, s);
    if r.Some? { return; }
    ghost var made := rt.log;
    ghost var answer: Answer;
    r, answer := RunStarted(rt, self, polls);
    assert Started(Then(made, StartSent(self, answer)), rt.log, self, answer, rt.paths, polls, r);
  }
}
