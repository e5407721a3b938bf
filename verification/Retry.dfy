/**
 The reconnect loop of `run`. Errors are strings, and what the loop does with one is
 decided by the markers in it, so the rewriting of errors after an execution attempt has
 to destroy every marker.
 */
module Retry {
  import opened Common
  import opened Text

  const RETRYABLE_CONNECTION: string := "RETRYABLE_CONNECTION"
  const RETRYABLE_RESUME: string := "RETRYABLE_RESUME"
  const RETRYABLE: string := "RETRYABLE_"
  const AMBIGUOUS_RENEW: string := "AMBIGUOUS_RENEW"

  datatype SessionError = Retryable(reason: string) | Fatal(reason: string) | AmbiguousRenew(reason: string)

  /** `SessionError::from(String)`. */
  function Classify(error: string): (r: SessionError)
  {
    if Contains(error, RETRYABLE_CONNECTION) || Contains(error, RETRYABLE_RESUME) then Retryable(error)
    else if Contains(error, AMBIGUOUS_RENEW) then AmbiguousRenew(error)
    else Fatal(error)
  }

  const NOTE_1: string := "WORKLOAD_EXECUTION_ATTEMPTED: "
  const NOTE_2: string := "이 연결에서 워크로드 실행을 시도했다"
  const NOTE_3: string := "(기동 성공 여부와 무관) — "
  const NOTE_4: string := "재접속하면 같은 Grant 로 다시 "
  const NOTE_5: string := "실행할 수 있으므로 재시도하지 않는다: "
  const ATTEMPTED_NOTE: string := NOTE_1 + NOTE_2 + NOTE_3 + NOTE_4 + NOTE_5

  /** `not_retried_after_workload`. */
  function NotRetried(error: string): (r: string)
  {
    ATTEMPTED_NOTE + Replace(Replace(error, RETRYABLE, "RETRYABLE(억제)_"), AMBIGUOUS_RENEW, "AMBIGUOUS(억제)_RENEW")
  }

  lemma RetryableDefused()
    ensures Defused(RETRYABLE, "RETRYABLE", "(억제)", "_", RETRYABLE)
    ensures "RETRYABLE" + "(억제)" + "_" == "RETRYABLE(억제)_"
  {
    assert Clashes("_", RETRYABLE, 0) by { assert "_"[0 + 0] != RETRYABLE[0]; }
  }

  lemma AmbiguousDefused()
    ensures Defused(AMBIGUOUS_RENEW, "AMBIGUOUS", "(억제)", "_RENEW", AMBIGUOUS_RENEW)
    ensures "AMBIGUOUS" + "(억제)" + "_RENEW" == "AMBIGUOUS(억제)_RENEW"
  {
    var y := "_RENEW";
    forall j | 0 <= j < |y|
      ensures Clashes(y, AMBIGUOUS_RENEW, j)
    {
      assert y[j + 0] != AMBIGUOUS_RENEW[0];
    }
  }

  lemma AmbiguousKeepsRetryableOut()
    ensures Defused(AMBIGUOUS_RENEW, "AMBIGUOUS", "(억제)", "_RENEW", RETRYABLE)
  {
    var y := "_RENEW";
    forall j | 0 <= j < |y|
      ensures Clashes(y, RETRYABLE, j)
    {
      if j == 1 {
        assert y[1 + 2] != RETRYABLE[2];
      } else {
        assert y[j + 0] != RETRYABLE[0];
      }
    }
  }

  lemma LongerMarker(s: string, p: string, q: string)
    requires p <= q && Contains(s, q)
    ensures Contains(s, p)
  {
    var i :| 0 <= i <= |s| && OccursAt(s, q, i);
    assert s[i..i + |p|] == s[i..i + |q|][..|p|];
    assert OccursAt(s, p, i);
  }

  lemma NoteIsPlain()
    ensures 'B' !in ATTEMPTED_NOTE
  {
    assert 'B' !in NOTE_1 && 'B' !in NOTE_2;
    assert 'B' !in NOTE_3 && 'B' !in NOTE_4;
    assert 'B' !in NOTE_5;
  }

  /** Whatever an error says, after an execution attempt it is fatal. */
  lemma NotRetriedIsFatal(error: string)
    ensures Classify(NotRetried(error)) == Fatal(NotRetried(error))
  {
    var once := Replace(error, RETRYABLE, "RETRYABLE(억제)_");
    var twice := Replace(once, AMBIGUOUS_RENEW, "AMBIGUOUS(억제)_RENEW");
    RetryableDefused();
    AmbiguousDefused();
    AmbiguousKeepsRetryableOut();
    ReplaceRemoves(error, RETRYABLE, "RETRYABLE", "(억제)", "_", RETRYABLE);
    ReplaceRemoves(once, AMBIGUOUS_RENEW, "AMBIGUOUS", "(억제)", "_RENEW", RETRYABLE);
    ReplaceRemoves(once, AMBIGUOUS_RENEW, "AMBIGUOUS", "(억제)", "_RENEW", AMBIGUOUS_RENEW);
    MarkersAbsent(twice);
  }

  lemma MarkersAbsent(rewritten: string)
    requires !Contains(rewritten, RETRYABLE) && !Contains(rewritten, AMBIGUOUS_RENEW)
    ensures Classify(ATTEMPTED_NOTE + rewritten).Fatal?
  {
    NoteIsPlain();
    assert RETRYABLE[6] == 'B' && AMBIGUOUS_RENEW[2] == 'B';
    PrependAbsent(ATTEMPTED_NOTE, rewritten, RETRYABLE, 'B');
    PrependAbsent(ATTEMPTED_NOTE, rewritten, AMBIGUOUS_RENEW, 'B');
    var error := ATTEMPTED_NOTE + rewritten;
    if Contains(error, RETRYABLE_CONNECTION) {
      LongerMarker(error, RETRYABLE, RETRYABLE_CONNECTION);
    }
    if Contains(error, RETRYABLE_RESUME) {
      LongerMarker(error, RETRYABLE, RETRYABLE_RESUME);
    }
  }

  // ---------------------------------------------------------------- the loop

  /** What one turn of the loop meets: the dial fails, or a session runs and ends. */
  datatype Connection =
    | DialFailed(error: string)
    | Session(executionAttempted: bool, failure: Option<string>)

  datatype RunResult =
    | Done
    | Failed(reason: string)
    | RecoveryDisabled(reason: string)
    | ReconnectExhausted

  const DIAL_FAILED: string := "Coordinator connect failed: "

  /** `run_one_connection` around the inner session, and the dial error of the caller. */
  function ConnectionError(c: Connection): (r: Option<string>)
  {
    match c
    case DialFailed(error) => Some(DIAL_FAILED + error)
    case Session(attempted, failure) =>
      if failure.Some? && attempted then Some(NotRetried(failure.value)) else failure
  }

  function Attempts(cs: seq<Connection>): (n: nat)
  {
    if cs == [] then 0
    else Attempts(cs[1..]) + if cs[0].Session? && cs[0].executionAttempted then 1 else 0
  }

  ghost predicate Attempted(c: Connection)
  {
    c.Session? && c.executionAttempted
  }

  lemma {:induction false} AttemptsLast(cs: seq<Connection>)
    requires cs != [] && forall i :: 0 <= i < |cs| - 1 ==> !Attempted(cs[i])
    ensures Attempts(cs) == if Attempted(cs[|cs| - 1]) then 1 else 0
  {
    if |cs| > 1 {
      assert !Attempted(cs[0]);
      forall i | 0 <= i < |cs[1..]| - 1
        ensures !Attempted(cs[1..][i])
      {
        assert !Attempted(cs[i + 1]);
      }
      AttemptsLast(cs[1..]);
    } else {
      assert cs[1..] == [];
    }
  }

  /** The error carries a marker that asks for another connection. */
  predicate AsksAgain(error: string, recoverAmbiguous: bool)
  {
    || Contains(error, "RETRYABLE_CONNECTION") || Contains(error, "RETRYABLE_RESUME")
    || (recoverAmbiguous && Contains(error, "AMBIGUOUS_RENEW"))
  }

  /** Another connection may follow: this one failed with such an error and did not attempt to execute anything. */
  predicate Retried(c: Connection, recoverAmbiguous: bool)
  {
    match c
    case DialFailed(error) => AsksAgain(DIAL_FAILED + error, recoverAmbiguous)
    case Session(attempted, failure) => !attempted && failure.Some? && AsksAgain(failure.value, recoverAmbiguous)
  }

  lemma RetriedIff(c: Connection, recoverAmbiguous: bool)
    ensures Retried(c, recoverAmbiguous) <==>
              && ConnectionError(c).Some?
              && var e := Classify(ConnectionError(c).value);
              e.Retryable? || (e.AmbiguousRenew? && recoverAmbiguous)
    ensures Retried(c, recoverAmbiguous) ==> !Attempted(c)
  {
    if Attempted(c) && c.failure.Some? {
      NotRetriedIsFatal(c.failure.value);
    }
  }

  /** What the loop returns when this connection is its last. */
  predicate EndsWith(c: Connection, recoverAmbiguous: bool, result: RunResult)
  {
    if Retried(c, recoverAmbiguous) then result == ReconnectExhausted
    else
      match c
      case DialFailed(error) => result == Gives(DIAL_FAILED + error)
      case Session(_, None) => result == Done
      case Session(attempted, Some(error)) => result == if attempted then Failed(NotRetried(error)) else Gives(error)
  }

  /** The result of an error that is not retried. */
  function Gives(error: string): (result: RunResult)
  {
    if Contains(error, "AMBIGUOUS_RENEW") then RecoveryDisabled(error) else Failed(error)
  }

  /**
   The reconnect loop of `run`. `connections[i]` is what attempt `i` meets and `expired[i]`
   says that the retry budget has run out before it. Only the first `used` connections are
   made; at most one of them attempts to execute the workload, and then it is the last. The
   loop goes on exactly as long as connections are retried, attempts are left and the budget
   lasts.
   */
  method Run(maxAttempts: nat, recoverAmbiguous: bool, connections: seq<Connection>, expired: seq<bool>)
    returns (result: RunResult, used: nat)
    requires |connections| >= maxAttempts && |expired| >= maxAttempts
    ensures used <= maxAttempts && (used == 0 <==> maxAttempts == 0)
    ensures Attempts(connections[..used]) <= 1
    ensures forall i :: 0 <= i < used && Attempted(connections[i]) ==> i == used - 1
    ensures forall i :: 0 <= i < used - 1 ==> Retried(connections[i], recoverAmbiguous)
    ensures forall i :: 0 < i < used ==> !expired[i]
    ensures 0 < used < maxAttempts ==> !Retried(connections[used - 1], recoverAmbiguous) || expired[used]
    ensures used == 0 ==> result == ReconnectExhausted
    ensures used > 0 ==> EndsWith(connections[used - 1], recoverAmbiguous, result)
  {
    used := 0;
    for attempt := 0 to maxAttempts
      invariant used == attempt
      invariant forall i :: 0 <= i < attempt ==> Retried(connections[i], recoverAmbiguous) && !Attempted(connections[i])
      invariant forall i :: 0 < i < attempt ==> !expired[i]
    {
      if attempt > 0 && expired[attempt] {
        NoneAttempted(connections[..used]);
        return ReconnectExhausted, used;
      }
      used := attempt + 1;
      LastAttempted(connections, used);
      RetriedIff(connections[attempt], recoverAmbiguous);
      var error := ConnectionError(connections[attempt]);
      if error.None? {
        return Done, used;
      }
      if Attempted(connections[attempt]) {
        NotRetriedIsFatal(connections[attempt].failure.value);
      }
      match Classify(error.value)
      case Retryable(_) =>
        if attempt + 1 >= maxAttempts {
          return ReconnectExhausted, used;
        }
      case Fatal(reason) =>
        return Failed(reason), used;
      case AmbiguousRenew(reason) =>
        if !recoverAmbiguous {
          return RecoveryDisabled(reason), used;
        }
        if attempt + 1 >= maxAttempts {
          return ReconnectExhausted, used;
        }
    }
    NoneAttempted(connections[..used]);
    return ReconnectExhausted, used;
  }

  lemma LastAttempted(cs: seq<Connection>, n: nat)
    requires 0 < n <= |cs| && forall i :: 0 <= i < n - 1 ==> !Attempted(cs[i])
    ensures Attempts(cs[..n]) <= 1
  {
    forall i | 0 <= i < n - 1
      ensures !Attempted(cs[..n][i])
    {
      assert !Attempted(cs[i]);
    }
    AttemptsLast(cs[..n]);
  }

  lemma {:induction false} NoneAttempted(cs: seq<Connection>)
    requires forall i :: 0 <= i < |cs| ==> !Attempted(cs[i])
    ensures Attempts(cs) == 0
  {
    if cs != [] {
      AttemptsLast(cs);
    }
  }
}
