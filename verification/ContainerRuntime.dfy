/**
 The container runtime as the agent sees it through its command line. Each call may fail to
 spawn, answer, or time out with its effect applied, not applied or applied later. Answers of
 `inspect` are truthful; between calls the containers move on by themselves.
 */
module ContainerRuntime {
  import opened Common
  import opened ContainerState

  /** One container, and the requests that may still take effect on it. */
  datatype World = World(truth: Truth, createPending: bool, startPending: bool)

  type Id = string

  type Worlds = map<Id, World>

  /** Not running, and no request left that could start it. */
  predicate Quiet(w: World)
  {
    !w.truth.Running? && !w.startPending
  }

  predicate Ended(w: World, exit: Exit)
  {
    (w.truth == Exited(exit) || w.truth.Absent?) && !w.createPending && !w.startPending
  }

  /** Not there, and no request left that could bring it about. */
  predicate Gone(w: World)
  {
    w == World(Absent, false, false)
  }

  /**
   What may happen to a container on its own: it exits, is killed or removed, and requests that
   timed out take effect.
   */
  predicate Drift(w: World, v: World)
  {
    && (v.createPending ==> w.createPending)
    && (v.startPending ==> w.startPending)
    && match w.truth
       case Absent => v.truth.Absent? || (w.createPending && (v.truth.Created? || w.startPending))
       case Created => v.truth.Created? || v.truth.Absent? || w.startPending
       case Running => !v.truth.Created? || w.createPending
       case Exited(_) =>
         v.truth == w.truth || v.truth.Absent? || (w.createPending && (v.truth.Created? || w.startPending))
  }

  predicate AllDrift(a: Worlds, b: Worlds)
  {
    a.Keys == b.Keys && forall id :: id in a ==> Drift(a[id], b[id])
  }

  lemma AllDriftTransitive(a: Worlds, b: Worlds, c: Worlds)
    requires AllDrift(a, b) && AllDrift(b, c)
    ensures AllDrift(a, c)
  {
    forall id | id in a
      ensures Drift(a[id], c[id])
    {
      assert id in b && Drift(a[id], b[id]) && Drift(b[id], c[id]);
    }
  }

  // ---------------------------------------------------------------- what was sent and answered

  datatype Answer = NotSpawned | NoAnswer | Refused | Accepted

  /** Every command that was sent, with what came back; `SaidNothing` is a question without an answer. */
  datatype Event =
    | CreateSent(id: Id, answer: Answer)
    | StartSent(id: Id, answer: Answer)
    | HandleGiven(id: Id)
    | SaidRunning(id: Id)
    | SaidStopped(id: Id)
    | SaidExited(id: Id, exit: Exit)
    | SaidPresent(id: Id, byName: bool)
    | SaidAbsent(id: Id)
    | SaidNothing(id: Id)
    | LogsSaved(id: Id)
    | LogsFailed(id: Id)
    | KillSent(id: Id)
    | RmSent(id: Id)

  /**
   What a log tells about one container: `createOpen` is a create that reached the runtime and
   was not answered, `saved` are logs taken after an inspect said the container had stopped.
   */
  datatype Facts = Facts(
    createReached: bool, createOpen: bool, startReached: bool, handleGiven: bool,
    stoppedSaid: bool, absentSaid: bool, saved: bool)

  function Note(f: Facts, e: Event): (r: Facts)
  {
    match e
    case CreateSent(_, answer) =>
      f.(createReached := f.createReached || !answer.NotSpawned?, createOpen := answer.NoAnswer?, absentSaid := false)
    case StartSent(_, answer) =>
      if answer.NotSpawned? then f else f.(startReached := true, stoppedSaid := false, saved := false)
    case HandleGiven(_) => f.(handleGiven := true)
    case SaidStopped(_) => f.(stoppedSaid := true)
    case SaidExited(_, _) => f.(stoppedSaid := true)
    case SaidAbsent(_) => f.(stoppedSaid := true, absentSaid := true)
    case LogsSaved(_) => f.(saved := f.saved || f.stoppedSaid)
    case _ => f
  }

  /** What was sent and answered so far, the last event outermost. */
  datatype Log = Nothing | Then(before: Log, last: Event)

  /** Containers of an `earlier` process may have been started by it. */
  function Observed(log: Log, earlier: set<Id>, id: Id): (f: Facts)
  {
    match log
    case Nothing => Facts(false, false, id in earlier, false, false, false, false)
    case Then(before, last) =>
      var f := Observed(before, earlier, id);
      if last.id == id then Note(f, last) else f
  }

  /**
   `rm` may be sent to a container that never got a start, or once it was said to have stopped and
   its logs were saved.
   */
  predicate MayRemove(f: Facts, paths: bool)
  {
    f.startReached ==> f.stoppedSaid && (paths ==> f.saved)
  }

  predicate Justified(log: Log, earlier: set<Id>, paths: bool)
  {
    match log
    case Nothing => true
    case Then(before, last) =>
      Justified(before, earlier, paths) && (last.RmSent? ==> MayRemove(Observed(before, earlier, last.id), paths))
  }

  // ---------------------------------------------------------------- what the facts mean

  predicate Prefix(p: Log, log: Log)
  {
    p == log || (log.Then? && Prefix(p, log.before))
  }

  /** A start of the container that reached the runtime. */
  predicate Starts(e: Event, id: Id)
  {
    e.StartSent? && e.id == id && !e.answer.NotSpawned?
  }

  /** An inspect said that the container does not run. */
  predicate Stops(e: Event, id: Id)
  {
    e.id == id && (e.SaidStopped? || e.SaidExited? || e.SaidAbsent?)
  }

  /** The log goes on from `p`, and no start has reached the container since. */
  predicate NoStartSince(p: Log, log: Log, id: Id)
  {
    p == log || (log.Then? && !Starts(log.last, id) && NoStartSince(p, log.before, id))
  }

  predicate NoCreateSince(p: Log, log: Log, id: Id)
  {
    p == log || (log.Then? && !(log.last.CreateSent? && log.last.id == id) && NoCreateSince(p, log.before, id))
  }

  ghost predicate Reached(log: Log, id: Id)
  {
    exists p :: Prefix(p, log) && p.Then? && Starts(p.last, id)
  }

  lemma {:induction false} ReachedMeans(log: Log, earlier: set<Id>, id: Id)
    ensures Observed(log, earlier, id).startReached <==> id in earlier || Reached(log, id)
  {
    match log {
      case Nothing =>
      case Then(before, last) =>
        ReachedMeans(before, earlier, id);
        ReachedThen(before, last, id);
    }
  }

  lemma ReachedThen(before: Log, last: Event, id: Id)
    ensures Reached(Then(before, last), id) <==> Reached(before, id) || Starts(last, id)
  {
    var log := Then(before, last);
    if Reached(before, id) {
      var p :| Prefix(p, before) && p.Then? && Starts(p.last, id);
      assert Prefix(p, log);
    }
    if Starts(last, id) {
      assert Prefix(log, log);
    }
  }

  /** Said at `p` to have stopped, and not started since. */
  predicate StoppedSince(p: Log, log: Log, id: Id)
  {
    p.Then? && Stops(p.last, id) && NoStartSince(p, log, id)
  }

  lemma {:induction false} StoppedMeans(log: Log, earlier: set<Id>, id: Id) returns (p: Log)
    requires Observed(log, earlier, id).stoppedSaid
    ensures StoppedSince(p, log, id)
  {
    if Stops(log.last, id) {
      p := log;
    } else {
      p := StoppedMeans(log.before, earlier, id);
    }
  }

  /** The logs were saved somewhere behind `p`, and the container has not been started since. */
  ghost predicate SavedSince(p: Log, log: Log, id: Id)
  {
    exists q: Log :: q.Then? && q.last == LogsSaved(id) && NoStartSince(p, q.before, id) && NoStartSince(q, log, id)
  }

  lemma {:induction false} SavedMeans(log: Log, earlier: set<Id>, id: Id) returns (p: Log)
    requires Observed(log, earlier, id).saved
    ensures StoppedSince(p, log, id) && SavedSince(p, log, id)
  {
    if Observed(log.before, earlier, id).saved {
      p := SavedMeans(log.before, earlier, id);
      var q: Log :|
        q.Then? && q.last == LogsSaved(id) && NoStartSince(p, q.before, id) && NoStartSince(q, log.before, id);
      assert NoStartSince(q, log, id);
    } else {
      p := StoppedMeans(log.before, earlier, id);
      assert NoStartSince(log, log, id);
    }
  }

  lemma {:induction false} JustifiedAt(log: Log, earlier: set<Id>, paths: bool, p: Log)
    requires Justified(log, earlier, paths) && Prefix(p, log) && p.Then? && p.last.RmSent?
    ensures MayRemove(Observed(p.before, earlier, p.last.id), paths)
  {
    if p != log {
      JustifiedAt(log.before, earlier, paths, p);
    }
  }

  /**
   A justified log, spelled out: every `rm` to a container whose start may have reached the
   runtime comes after an inspect that answered not running or absent, with no start in
   between, and - if logs were asked for - after its logs were saved behind that answer.
   */
  lemma RemovalsComeLast(log: Log, earlier: set<Id>, paths: bool, before: Log, id: Id)
    requires Justified(log, earlier, paths) && Prefix(Then(before, RmSent(id)), log)
    requires id in earlier || Reached(before, id)
    ensures exists p :: StoppedSince(p, before, id) && (paths ==> SavedSince(p, before, id))
  {
    JustifiedAt(log, earlier, paths, Then(before, RmSent(id)));
    ReachedMeans(before, earlier, id);
    if paths {
      var p := SavedMeans(before, earlier, id);
      assert StoppedSince(p, before, id);
    } else {
      var p := StoppedMeans(before, earlier, id);
      assert StoppedSince(p, before, id);
    }
  }

  /** `absentSaid`, spelled out: an inspect answered absent after the last create. */
  lemma {:induction false} AbsentMeans(log: Log, earlier: set<Id>, id: Id) returns (p: Log)
    requires Observed(log, earlier, id).absentSaid
    ensures p.Then? && p.last == SaidAbsent(id) && NoCreateSince(p, log, id)
  {
    if log.last == SaidAbsent(id) {
      p := log;
    } else {
      p := AbsentMeans(log.before, earlier, id);
    }
  }

  // ---------------------------------------------------------------- reading an inspect answer

  /** A word of the answer; the text of an integer is kept as the integer. */
  datatype Token = Text(text: string) | Integer(value: int)

  /** A time that was never set. */
  predicate NeverStarted(started: seq<Token>)
  {
    started == [] || (started[0].Text? && "0001-01-01" <= started[0].text)
  }

  /** `parse_inspect_state`: `<running> <exit code> <oom> <started at>`. */
  function ParseInspectState(fields: seq<Token>): (r: Result<Option<Exit>, string>)
  {
    if |fields| < 3 then Err("UNREADABLE")
    else if fields[0] == Text("true") then Ok(None)
    else if fields[0] != Text("false") then Err("UNREADABLE")
    else if !fields[1].Integer? then Err("UNREADABLE")
    else if fields[2] != Text("true") && fields[2] != Text("false") then Err("UNREADABLE")
    else if NeverStarted(fields[3..]) then Err("INSPECT_NEVER_STARTED")
    else Ok(Some(Exit(fields[1].value, fields[2] == Text("true"))))
  }

  /** Nothing but a well-formed answer is taken for a state; an exit needs all four words and a start that happened. */
  lemma ParsesIff(fields: seq<Token>, exit: Exit)
    ensures ParseInspectState(fields) == Ok(None) <==> |fields| >= 3 && fields[0] == Text("true")
    ensures ParseInspectState(fields) == Ok(Some(exit)) <==>
              && |fields| >= 4 && fields[0] == Text("false") && fields[1] == Integer(exit.code)
              && fields[2] == Text(if exit.oom then "true" else "false")
              && !(fields[3].Text? && "0001-01-01" <= fields[3].text)
  {
    assert |fields| >= 4 ==> fields[3..][0] == fields[3];
    assert "true" != "false" by {
      assert |"true"| != |"false"|;
    }
  }

  function Flag(b: bool): (t: Token)
  {
    Text(if b then "true" else "false")
  }

  /** What the runtime prints about a container that exists; one that never started has the zero time. */
  function Show(truth: Truth, startedAt: seq<Token>): (r: seq<Token>)
  {
    match truth
    case Running => [Flag(true), Integer(0), Flag(false)] + startedAt
    case Exited(exit) => [Flag(false), Integer(exit.code), Flag(exit.oom)] + startedAt
    case _ => [Flag(false), Integer(0), Flag(false), Text("0001-01-01T00:00:00Z")]
  }

  /** The answer read back is the truth; a container that was only created is not taken for one that exited with 0. */
  lemma ParseShown(truth: Truth, startedAt: seq<Token>)
    requires !NeverStarted(startedAt)
    ensures var r := ParseInspectState(Show(truth, startedAt));
            match truth
            case Running => r == Ok(None)
            case Exited(exit) => r == Ok(Some(exit))
            case _ => r.Err?
  {
    assert Show(Created, startedAt)[3..] == [Text("0001-01-01T00:00:00Z")];
    match truth {
      case Exited(_) => assert Show(truth, startedAt)[3..] == startedAt;
      case _ =>
    }
  }

  // ---------------------------------------------------------------- the calls

  /** What a create does to a container that did not exist; only an unanswered one may take effect later. */
  predicate CreateEffect(answer: Answer, w: World)
  {
    match answer
    case NotSpawned => Gone(w)
    case Accepted => w == World(Created, false, false)
    case Refused => w == World(Created, false, false) || Gone(w)
    case NoAnswer => w == World(Created, false, false) || w == World(Absent, true, false) || Gone(w)
  }

  /** What the answer to a yes-or-no question is logged as. */
  function SaidOf(r: Result<bool, string>, yes: Event, no: Event): (e: Event)
  {
    match r
    case Err(_) => SaidNothing(yes.id)
    case Ok(answer) => if answer then yes else no
  }

  /** What a look at the state is logged as. */
  function LookOf(id: Id, r: Result<Option<Exit>, string>): (e: Event)
  {
    match r
    case Err(_) => SaidNothing(id)
    case Ok(None) => SaidRunning(id)
    case Ok(Some(exit)) => SaidExited(id, exit)
  }

  class Runtime {
    var worlds: Worlds
    /** Another container has the name this attempt uses. */
    var nameTaken: bool
    var log: Log
    /** Whether the caller asks for logs at all. */
    const paths: bool
    /** Containers left by an earlier process. */
    const earlier: set<Id>

    ghost predicate Sound()
      reads this
    {
      Justified(log, earlier, paths)
    }

    ghost function Of(id: Id): (f: Facts)
      reads this
    {
      Observed(log, earlier, id)
    }

    constructor (worlds: Worlds, earlier: set<Id>, paths: bool)
      ensures this.worlds == worlds && this.earlier == earlier && this.paths == paths && log == Nothing && Sound()
    {
      this.worlds, this.earlier, this.paths, this.log := worlds, earlier, paths, Nothing;
      this.nameTaken := *;
    }

    /** Time passes. */
    method Pass()
      modifies this`worlds, this`nameTaken
      ensures AllDrift(old(worlds), worlds)
    {
      var next: Worlds := *;
      if AllDrift(worlds, next) {
        worlds := next;
      }
      nameTaken := *;
    }

    method Record(e: Event)
      requires Sound() && (e.RmSent? ==> MayRemove(Of(e.id), paths))
      modifies this`log
      ensures Sound() && log == Then(old(log), e) && Of(e.id) == Note(old(Of(e.id)), e)
    {
      log := Then(log, e);
    }

    method InspectRunning(id: Id) returns (r: Result<bool, string>)
      requires Sound() && id in worlds
      modifies this
      ensures Sound() && AllDrift(old(worlds), worlds)
      ensures r.Ok? ==> r.value == worlds[id].truth.Running?
      ensures log == Then(old(log), SaidOf(r, SaidRunning(id), SaidStopped(id)))
      ensures Of(id) == Note(old(Of(id)), SaidOf(r, SaidRunning(id), SaidStopped(id)))
    {
      Pass();
      var answered: bool := *;
      if !answered {
        Record(SaidNothing(id));
        return Err("UNKNOWN");
      }
      if worlds[id].truth.Running? {
        Record(SaidRunning(id));
        return Ok(true);
      }
      Record(SaidStopped(id));
      return Ok(false);
    }

    method InspectExists(id: Id, byName: bool) returns (r: Result<bool, string>)
      requires Sound() && id in worlds
      modifies this
      ensures Sound() && AllDrift(old(worlds), worlds)
      ensures r == Ok(false) ==> worlds[id].truth.Absent?
      ensures r == Ok(true) && !byName ==> !worlds[id].truth.Absent?
      ensures log == Then(old(log), SaidOf(r, SaidPresent(id, byName), SaidAbsent(id)))
      ensures Of(id) == Note(old(Of(id)), SaidOf(r, SaidPresent(id, byName), SaidAbsent(id)))
    {
      Pass();
      var answered: bool := *;
      if !answered {
        Record(SaidNothing(id));
        return Err("UNKNOWN");
      }
      if !worlds[id].truth.Absent? || (byName && nameTaken) {
        Record(SaidPresent(id, byName));
        return Ok(true);
      }
      Record(SaidAbsent(id));
      return Ok(false);
    }

    method InspectState(id: Id) returns (r: Result<Option<Exit>, string>)
      requires Sound() && id in worlds
      modifies this
      ensures Sound() && AllDrift(old(worlds), worlds)
      ensures r.Ok? && r.value.Some? ==> worlds[id].truth == Exited(r.value.value)
      ensures r == Ok(None) ==> worlds[id].truth.Running?
      ensures log == Then(old(log), LookOf(id, r))
      ensures Of(id) == Note(old(Of(id)), LookOf(id, r))
    {
      Pass();
      var answered: bool, startedAt: seq<Token> := *, *;
      if !answered || worlds[id].truth.Absent? || NeverStarted(startedAt) {
        r := Err("UNKNOWN");
      } else {
        ParseShown(worlds[id].truth, startedAt);
        r := ParseInspectState(Show(worlds[id].truth, startedAt));
      }
      Record(LookOf(id, r));
    }

    method Kill(id: Id)
      requires Sound() && id in worlds
      modifies this
      ensures Sound() && AllDrift(old(worlds), worlds)
      ensures log == Then(old(log), KillSent(id))
      ensures Of(id) == Note(old(Of(id)), KillSent(id))
    {
      Record(KillSent(id));
      Pass();
    }

    /** `save_logs`: without output paths there is nothing to do, and it succeeds. */
    method SaveLogs(id: Id) returns (ok: bool)
      requires Sound() && id in worlds
      modifies this
      ensures Sound() && AllDrift(old(worlds), worlds)
      ensures log == if !paths then old(log) else Then(old(log), if ok then LogsSaved(id) else LogsFailed(id))
      ensures !paths ==> ok
      ensures paths ==> Of(id) == Note(old(Of(id)), if ok then LogsSaved(id) else LogsFailed(id))
    {
      if !paths {
        return true;
      }
      Pass();
      ok := *;
      if worlds[id].truth.Absent? { ok := false; }
      Record(if ok then LogsSaved(id) else LogsFailed(id));
    }

    method Rm(id: Id)
      requires Sound() && id in worlds && MayRemove(Of(id), paths)
      modifies this
      ensures Sound() && AllDrift(old(worlds), worlds)
      ensures log == Then(old(log), RmSent(id))
      ensures Of(id) == Note(old(Of(id)), RmSent(id))
    {
      Record(RmSent(id));
      Pass();
    }

    method Create(id: Id) returns (answer: Answer)
      requires Sound() && id in worlds && Gone(worlds[id])
      modifies this
      ensures Sound() && worlds.Keys == old(worlds.Keys)
      ensures log == Then(old(log), CreateSent(id, answer))
      ensures Of(id) == Note(old(Of(id)), CreateSent(id, answer))
      ensures Quiet(worlds[id])
      ensures answer.NotSpawned? ==> Gone(worlds[id])
      ensures !answer.NoAnswer? ==> !worlds[id].createPending
    {
      Pass();
      answer := *;
      Record(CreateSent(id, answer));
      if answer.NotSpawned? { return; }
      var effect: World := *;
      if !CreateEffect(answer, effect) {
        effect := World(Created, false, false);
      }
      var made := worlds[id := effect];
      worlds := made;
      Pass();
      assert Drift(made[id], worlds[id]);
    }

    /** A start that was answered has taken effect, if at all, before its answer. */
    method Start(id: Id) returns (answer: Answer)
      requires Sound() && id in worlds && Quiet(worlds[id])
      modifies this
      ensures Sound() && worlds.Keys == old(worlds.Keys)
      ensures log == Then(old(log), StartSent(id, answer))
      ensures Of(id) == Note(old(Of(id)), StartSent(id, answer))
      ensures answer.NotSpawned? ==> Drift(old(worlds)[id], worlds[id])
      ensures !answer.NoAnswer? ==> !worlds[id].startPending
      ensures worlds[id].createPending ==> old(worlds)[id].createPending
    {
      Pass();
      answer := *;
      Record(StartSent(id, answer));
      if answer.NotSpawned? { return; }
      var applied: bool := *;
      var w := worlds[id];
      var begun := worlds[id := World(if applied && w.truth.Created? then Running else w.truth, w.createPending,
          answer.NoAnswer?)];
      worlds := begun;
      Pass();
      assert Drift(begun[id], worlds[id]);
    }
  }
}
