/** Names of checkpoint folders: `step-` followed by decimal digits of a 64-bit number. */
module StepName {
  import opened Common

  const PREFIX: string := "step-"

  predicate IsDigit(c: char)
  {
    '0' <= c <= '9'
  }

  function Digit(c: char): (n: nat)
    requires IsDigit(c)
    ensures n < 10
  {
    c as int - '0' as int
  }

  predicate AllDigits(s: string)
  {
    forall i :: 0 <= i < |s| ==> IsDigit(s[i])
  }

  function Decimal(digits: string): (n: nat)
    requires AllDigits(digits)
  {
    if digits == "" then 0
    else Decimal(digits[..|digits| - 1]) * 10 + Digit(digits[|digits| - 1])
  }

  /** `step_of`: leading zeros are accepted, a number that does not fit is not a step. */
  function StepOf(name: string): (r: Option<nat>)
  {
    if PREFIX <= name && AllDigits(name[|PREFIX|..]) && name != PREFIX && Decimal(name[|PREFIX|..]) < TWO_64
    then Some(Decimal(name[|PREFIX|..]))
    else None
  }

  function Zeros(n: nat): (s: string)
    ensures |s| == n && AllDigits(s)
  {
    if n == 0 then "" else Zeros(n - 1) + "0"
  }

  lemma {:induction false} ZerosAreZero(n: nat)
    ensures Decimal(Zeros(n)) == 0
  {
    if n > 0 {
      assert Zeros(n)[..n - 1] == Zeros(n - 1);
      ZerosAreZero(n - 1);
    }
  }

  lemma {:induction false} ZeroIsZeros(a: string)
    requires AllDigits(a) && Decimal(a) == 0
    ensures a == Zeros(|a|)
  {
    if a != "" {
      ZeroIsZeros(a[..|a| - 1]);
      assert a == a[..|a| - 1] + [a[|a| - 1]];
    }
  }

  lemma SnocIff(a: string, c: char, b: string, d: char)
    ensures a + [c] == b + [d] <==> a == b && c == d
  {
    assert (a + [c])[..|a|] == a && (b + [d])[..|b|] == b;
    if a + [c] == b + [d] {
      assert (a + [c])[|a|] == c && (b + [d])[|b|] == d;
    }
  }

  lemma DigitIff(c: char, d: char)
    requires IsDigit(c) && IsDigit(d)
    ensures Digit(c) == Digit(d) <==> c == d
  {
    assert c == (Digit(c) + '0' as int) as char && d == (Digit(d) + '0' as int) as char;
  }

  lemma TenIff(a: nat, x: nat, b: nat, y: nat)
    requires x < 10 && y < 10
    ensures a * 10 + x == b * 10 + y <==> a == b && x == y
  {
  }

  lemma LastDigitIff(a: string, b: string)
    requires a != "" && b != "" && AllDigits(a) && AllDigits(b)
    ensures Decimal(a) == Decimal(b) <==>
            Decimal(a[..|a| - 1]) == Decimal(b[..|b| - 1]) && a[|a| - 1] == b[|b| - 1]
  {
    var c, d := a[|a| - 1], b[|b| - 1];
    DigitIff(c, d);
    TenIff(Decimal(a[..|a| - 1]), Digit(c), Decimal(b[..|b| - 1]), Digit(d));
  }

  /** Two digit strings stand for the same number exactly when they differ in leading zeros only. */
  lemma {:induction false} SameNumberIff(a: string, b: string)
    requires AllDigits(a) && AllDigits(b) && |a| <= |b|
    ensures Decimal(a) == Decimal(b) <==> b == Zeros(|b| - |a|) + a
  {
    var zeros := Zeros(|b| - |a|);
    if a == "" {
      assert zeros + a == zeros;
      ZerosAreZero(|b|);
      if Decimal(b) == 0 {
        ZeroIsZeros(b);
      }
    } else {
      var a', b' := a[..|a| - 1], b[..|b| - 1];
      SameNumberIff(a', b');
      LastDigitIff(a, b);
      assert b == b' + [b[|b| - 1]] && zeros + a == (zeros + a') + [a[|a| - 1]];
      SnocIff(b', b[|b| - 1], zeros + a', a[|a| - 1]);
    }
  }

  /** The steps are the names `step-` with digits behind it that fit 64 bits. */
  lemma StepOfDigits(digits: string)
    ensures StepOf(PREFIX + digits) == if digits != "" && AllDigits(digits) && Decimal(digits) < TWO_64
        then Some(Decimal(digits)) else None
  {
    assert (PREFIX + digits)[|PREFIX|..] == digits;
  }

  /** Which folders carry the same number: `step-1` and `step-01`, but never `step-1` and `step-10`. */
  lemma SameStepIff(a: string, b: string)
    requires StepOf(PREFIX + a).Some? && StepOf(PREFIX + b).Some? && |a| <= |b|
    ensures StepOf(PREFIX + a) == StepOf(PREFIX + b) <==> b == Zeros(|b| - |a|) + a
  {
    StepOfDigits(a);
    StepOfDigits(b);
    SameNumberIff(a, b);
  }

  /** A number as `format!` prints it. */
  function Printed(n: nat): (digits: string)
    ensures digits != ""
  {
    if n < 10 then [(n + '0' as int) as char] else Printed(n / 10) + [(n % 10 + '0' as int) as char]
  }

  lemma {:induction false} PrintedReads(n: nat)
    ensures AllDigits(Printed(n)) && Decimal(Printed(n)) == n
    ensures n > 0 ==> Printed(n)[0] != '0'
    ensures n == 0 ==> Printed(n) == "0"
  {
    var digits := Printed(n);
    if n >= 10 {
      PrintedReads(n / 10);
      assert digits[..|digits| - 1] == Printed(n / 10);
    } else {
      assert digits[..0] == "" && Decimal("") == 0;
    }
  }

  /** No digit string is shorter than the printed number. */
  lemma {:induction false} PrintedShortest(digits: string)
    requires digits != "" && AllDigits(digits)
    ensures |Printed(Decimal(digits))| <= |digits|
  {
    var n, before := Decimal(digits), digits[..|digits| - 1];
    if n >= 10 {
      assert n / 10 == Decimal(before);
      assert before != "";
      PrintedShortest(before);
    }
  }

  lemma PrintedIsStep(n: nat, k: nat)
    requires n < TWO_64
    ensures StepOf(PREFIX + (Zeros(k) + Printed(n))) == Some(n)
  {
    PrintedReads(n);
    SameNumberIff(Printed(n), Zeros(k) + Printed(n));
    StepOfDigits(Zeros(k) + Printed(n));
  }

  lemma StepIsPrinted(name: string) returns (k: nat)
    requires StepOf(name).Some?
    ensures StepOf(name).value < TWO_64 && name == PREFIX + (Zeros(k) + Printed(StepOf(name).value))
  {
    var digits := name[|PREFIX|..];
    var n := Decimal(digits);
    PrintedReads(n);
    PrintedShortest(digits);
    SameNumberIff(Printed(n), digits);
    k := |digits| - |Printed(n)|;
    assert name == PREFIX + digits;
  }

  /** A step is exactly a printed 64-bit number behind the prefix, possibly with zeros before it. */
  ghost predicate Names(name: string, n: nat)
  {
    n < 0x1_0000_0000_0000_0000 && exists k: nat :: name == "step-" + (Zeros(k) + Printed(n))
  }

  lemma StepOfIff(name: string, n: nat)
    ensures StepOf(name) == Some(n) <==> Names(name, n)
  {
    if Names(name, n) {
      var k: nat :| name == "step-" + (Zeros(k) + Printed(n));
      PrintedIsStep(n, k);
    }
    if StepOf(name) == Some(n) {
      var k := StepIsPrinted(name);
    }
  }
}
