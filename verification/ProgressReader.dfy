/**
 Bounded reading of the progress file. Any number of calls of `read_bounded` share one
 atomic counter; each call and the reader thread it may spawn take one atomic step at a
 time, in any order. A reader may never finish.
 */
module ProgressReader {

  const MAX_STUCK_READS: nat := 4

  datatype Outcome = TimedOut | Malformed | Delivered

  /** Where the calling thread stands. */
  datatype Caller =
    | NotCalled
    | Refused       // the counter was full: the increment is still to be undone
    | Admitted      // about to spawn the reader
    | SpawnFailed   // no thread came up: the increment is still to be undone
    | Waiting
    | Returned(outcome: Outcome)

  /** Where its reader thread stands; a finished or panicked reader has dropped its guard. */
  datatype Reader = NoReader | Alive(sent: bool) | Gone(sent: bool)

  datatype Call = Call(caller: Caller, reader: Reader)

  datatype State = State(calls: seq<Call>, counter: int)

  datatype Step =
    | FetchAdd(i: nat)
    | UndoRefused(i: nat)
    | Spawn(i: nat, ok: bool)
    | UndoSpawn(i: nat)
    | Send(i: nat)
    | DropGuard(i: nat)
    | Receive(i: nat)
    | Timeout(i: nat)
    | Disconnected(i: nat)

  ghost predicate Enabled(s: State, step: Step)
  {
    step.i < |s.calls| &&
    var c := s.calls[step.i];
    match step
    case FetchAdd(_) => c.caller.NotCalled?
    case UndoRefused(_) => c.caller.Refused?
    case Spawn(_, _) => c.caller.Admitted?
    case UndoSpawn(_) => c.caller.SpawnFailed?
    case Send(_) => c.reader == Alive(false)
    case DropGuard(_) => c.reader.Alive?
    case Receive(_) => c.caller.Waiting? && !c.reader.NoReader? && c.reader.sent
    case Timeout(_) => c.caller.Waiting?
    case Disconnected(_) => c.caller.Waiting? && c.reader == Gone(false)
  }

  function Effect(c: Call, counter: int, step: Step): (r: (Call, int))
  {
    match step
    case FetchAdd(_) => (c.(caller := if counter >= MAX_STUCK_READS then Refused else Admitted), counter + 1)
    case UndoRefused(_) => (c.(caller := Returned(TimedOut)), counter - 1)
    case Spawn(_, ok) => (if ok then Call(Waiting, Alive(false)) else c.(caller := SpawnFailed), counter)
    case UndoSpawn(_) => (c.(caller := Returned(Malformed)), counter - 1)
    case Send(_) => (c.(reader := Alive(true)), counter)
    case DropGuard(_) => (c.(reader := Gone(c.reader.Alive? && c.reader.sent)), counter - 1)
    case Receive(_) => (c.(caller := Returned(Delivered)), counter)
    case Timeout(_) => (c.(caller := Returned(TimedOut)), counter)
    case Disconnected(_) => (c.(caller := Returned(Malformed)), counter)
  }

  function Next(s: State, step: Step): (r: State)
    requires step.i < |s.calls|
  {
    var (c, counter) := Effect(s.calls[step.i], s.counter, step);
    State(s.calls[step.i := c], counter)
  }

  /** A reader thread is running, is about to be spawned, or its failed spawn is not yet undone. */
  function Reads(c: Call): (n: nat)
    ensures n <= 1
  {
    if c.caller.Admitted? || c.caller.SpawnFailed? || c.reader.Alive? then 1 else 0
  }

  function BacksOff(c: Call): (n: nat)
    ensures n <= 1
  {
    if c.caller.Refused? then 1 else 0
  }

  function Sum(calls: seq<Call>, weight: Call -> nat): (n: nat)
  {
    if calls == [] then 0 else weight(calls[0]) + Sum(calls[1..], weight)
  }

  function Readers(s: State): (n: nat)
  {
    Sum(s.calls, Reads)
  }

  function BackingOff(s: State): (n: nat)
  {
    Sum(s.calls, BacksOff)
  }

  /**
   A reader exists only behind a caller that has left the admission code, and what was returned is
   true: a result only if the reader sent one, "malformed" only if none ran or it ended without.
   */
  ghost predicate Consistent(c: Call)
  {
    match c.caller
    case Waiting => !c.reader.NoReader?
    case Returned(Delivered) => !c.reader.NoReader? && c.reader.sent
    case Returned(Malformed) => c.reader.NoReader? || c.reader == Gone(false)
    case Returned(TimedOut) => true
    case _ => c.reader.NoReader?
  }

  ghost predicate Inv(s: State)
  {
    && (forall i :: 0 <= i < |s.calls| ==> Consistent(s.calls[i]))
    && s.counter == Readers(s) + BackingOff(s)
    && Readers(s) <= MAX_STUCK_READS
  }

  lemma {:induction false} SumUpdate(calls: seq<Call>, i: nat, c: Call, weight: Call -> nat)
    requires i < |calls|
    ensures Sum(calls[i := c], weight) == Sum(calls, weight) - weight(calls[i]) + weight(c)
  {
    if i == 0 {
      assert calls[0 := c][1..] == calls[1..];
    } else {
      assert calls[i := c][1..] == calls[1..][i - 1 := c];
      SumUpdate(calls[1..], i - 1, c, weight);
    }
  }

  lemma StepKeeps(s: State, step: Step)
    requires Inv(s) && Enabled(s, step)
    ensures Inv(Next(s, step))
  {
    var c := Effect(s.calls[step.i], s.counter, step).0;
    SumUpdate(s.calls, step.i, c, Reads);
    SumUpdate(s.calls, step.i, c, BacksOff);
  }

  ghost predicate Init(s: State)
  {
    s.counter == 0 && forall i :: 0 <= i < |s.calls| ==> s.calls[i] == Call(NotCalled, NoReader)
  }

  lemma {:induction false} IdleSum(calls: seq<Call>, weight: Call -> nat)
    requires forall i :: 0 <= i < |calls| ==> weight(calls[i]) == 0
    ensures Sum(calls, weight) == 0
  {
    if calls != [] {
      assert weight(calls[0]) == 0;
      forall i | 0 <= i < |calls[1..]|
        ensures weight(calls[1..][i]) == 0
      {
        assert calls[1..][i] == calls[i + 1];
      }
      IdleSum(calls[1..], weight);
    }
  }

  ghost predicate Reachable(s: State, schedule: seq<Step>)
    decreases |schedule|
  {
    if schedule == [] then Init(s)
    else
      var last := schedule[|schedule| - 1];
      exists p :: Reachable(p, schedule[..|schedule| - 1]) && Enabled(p, last) && s == Next(p, last)
  }

  /**
   In every interleaving the counter is the number of live (or starting) readers plus the
   callers about to back off, at most four readers are alive, and once every call has
   returned and every reader has ended the counter is zero again.
   */
  lemma {:induction false} ReadersBounded(s: State, schedule: seq<Step>)
    requires Reachable(s, schedule)
    ensures s.counter == Readers(s) + BackingOff(s)
    ensures Readers(s) <= 4
    ensures Finished(s) ==> s.counter == 0
    ensures Inv(s)
    decreases |schedule|
  {
    if schedule == [] {
      IdleSum(s.calls, Reads);
      IdleSum(s.calls, BacksOff);
    } else {
      var last := schedule[|schedule| - 1];
      var p :| Reachable(p, schedule[..|schedule| - 1]) && Enabled(p, last) && s == Next(p, last);
      ReadersBounded(p, schedule[..|schedule| - 1]);
      StepKeeps(p, last);
    }
    if Finished(s) {
      IdleSum(s.calls, Reads);
      IdleSum(s.calls, BacksOff);
    }
  }

  ghost predicate Finished(s: State)
  {
    forall i :: 0 <= i < |s.calls| ==>
                  (s.calls[i].caller.Returned? || s.calls[i].caller.NotCalled?) && !s.calls[i].reader.Alive?
  }

  // ---------------------------------------------------------------- what a call comes to

  /** The steps can be taken one after another and lead to `t`. */
  ghost predicate Runs(s: State, steps: seq<Step>, t: State)
    decreases |steps|
  {
    if steps == [] then s == t else Enabled(s, steps[0]) && Runs(Next(s, steps[0]), steps[1..], t)
  }

  function With(s: State, i: nat, caller: Caller, reader: Reader, counter: int): (t: State)
    requires i < |s.calls|
  {
    State(s.calls[i := Call(caller, reader)], counter)
  }

  lemma First(s: State, step: Step, next: State, rest: seq<Step>, t: State)
    requires Enabled(s, step) && Next(s, step) == next && Runs(next, rest, t)
    ensures Runs(s, [step] + rest, t)
  {
    assert ([step] + rest)[1..] == rest;
  }

  lemma Last(s: State, step: Step, t: State)
    requires Enabled(s, step) && Next(s, step) == t
    ensures Runs(s, [step], t)
  {
    assert [step][1..] == [];
  }

  /** A call that finds the counter full returns at once, without a reader and with the counter as it was. */
  lemma RefusedCall(s: State, i: nat)
    requires i < |s.calls| && s.calls[i] == Call(NotCalled, NoReader) && s.counter >= 4
    ensures Runs(s, [FetchAdd(i)] + [UndoRefused(i)], With(s, i, Returned(TimedOut), NoReader, s.counter))
  {
    var t := With(s, i, Returned(TimedOut), NoReader, s.counter);
    var refused := With(s, i, Refused, NoReader, s.counter + 1);
    Last(refused, UndoRefused(i), t);
    First(s, FetchAdd(i), refused, [UndoRefused(i)], t);
  }

  /** A call whose reader cannot be spawned says so and gives its place back. */
  lemma UnspawnedCall(s: State, i: nat)
    requires i < |s.calls| && s.calls[i] == Call(NotCalled, NoReader) && s.counter < 4
    ensures Runs(s, [FetchAdd(i)] + ([Spawn(i, false)] + [UndoSpawn(i)]),
                 With(s, i, Returned(Malformed), NoReader, s.counter))
  {
    var t := With(s, i, Returned(Malformed), NoReader, s.counter);
    var failed := With(s, i, SpawnFailed, NoReader, s.counter + 1);
    var admitted := With(s, i, Admitted, NoReader, s.counter + 1);
    Last(failed, UndoSpawn(i), t);
    First(admitted, Spawn(i, false), failed, [UndoSpawn(i)], t);
    First(s, FetchAdd(i), admitted, [Spawn(i, false)] + [UndoSpawn(i)], t);
  }

  /** What a reader and its caller do once it runs, and what the call returns. */
  datatype Course = Delivers | Panics | TooLate

  function Steps(i: nat, course: Course): (steps: seq<Step>)
  {
    match course
    case Delivers => [Send(i)] + ([Receive(i)] + [DropGuard(i)])
    case Panics => [DropGuard(i)] + [Disconnected(i)]
    case TooLate => [Timeout(i)] + ([Send(i)] + [DropGuard(i)])
  }

  function Result(course: Course): (c: Call)
  {
    match course
    case Delivers => Call(Returned(Delivered), Gone(true))
    case Panics => Call(Returned(Malformed), Gone(false))
    case TooLate => Call(Returned(TimedOut), Gone(true))
  }

  lemma WaitingCall(s: State, i: nat, n: int, course: Course)
    requires i < |s.calls|
    ensures Runs(With(s, i, Waiting, Alive(false), n + 1), Steps(i, course), State(s.calls[i := Result(course)], n))
  {
    var waiting, t := With(s, i, Waiting, Alive(false), n + 1), State(s.calls[i := Result(course)], n);
    match course {
      case Delivers =>
        var sent := With(s, i, Waiting, Alive(true), n + 1);
        var received := With(s, i, Returned(Delivered), Alive(true), n + 1);
        Last(received, DropGuard(i), t);
        First(sent, Receive(i), received, [DropGuard(i)], t);
        First(waiting, Send(i), sent, [Receive(i)] + [DropGuard(i)], t);
      case Panics =>
        var ended := With(s, i, Waiting, Gone(false), n);
        Last(ended, Disconnected(i), t);
        First(waiting, DropGuard(i), ended, [Disconnected(i)], t);
      case TooLate =>
        var left := With(s, i, Returned(TimedOut), Alive(false), n + 1);
        var sent := With(s, i, Returned(TimedOut), Alive(true), n + 1);
        Last(sent, DropGuard(i), t);
        First(left, Send(i), sent, [DropGuard(i)], t);
        First(waiting, Timeout(i), left, [Send(i)] + [DropGuard(i)], t);
    }
  }

  /**
   A call that gets a place and a reader: the result is delivered if it comes in time, a reader that
   ends without one is reported as malformed and one that is late as timed out, and each way the
   counter is as before.
   */
  lemma AdmittedCall(s: State, i: nat, course: Course)
    requires i < |s.calls| && s.calls[i] == Call(NotCalled, NoReader) && s.counter < 4
    ensures Runs(s, [FetchAdd(i)] + ([Spawn(i, true)] + Steps(i, course)),
                 State(s.calls[i := Result(course)], s.counter))
  {
    var t := State(s.calls[i := Result(course)], s.counter);
    var admitted := With(s, i, Admitted, NoReader, s.counter + 1);
    var waiting := With(s, i, Waiting, Alive(false), s.counter + 1);
    WaitingCall(s, i, s.counter, course);
    First(admitted, Spawn(i, true), waiting, Steps(i, course), t);
    First(s, FetchAdd(i), admitted, [Spawn(i, true)] + Steps(i, course), t);
  }
}
