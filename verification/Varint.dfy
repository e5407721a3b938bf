/**
 Base 128 varints: the loops of `encode_varint` and `decode_varint`, proved against
 the recursive definition `Encode`. Bit operations on non-negative integers are
 written as arithmetic: `n & 0x7F` is `n % 128`, `n >> 7` is `n / 128`, and setting
 a clear bit 7 adds 128.
 */
module Varint {
  import opened Common

  datatype DecodeError = Truncated | TooLong | NonMinimal

  const TWO_63: int := 0x8000_0000_0000_0000
  const TWO_70: int := 0x40_0000_0000_0000_0000

  /** The minimal encoding of `n`: seven bits a byte, least significant group first. */
  function Encode(n: nat): (r: bytes)
    ensures |r| >= 1
  {
    if n < 128 then [n] else [n % 128 + 128] + Encode(n / 128)
  }

  function Pow128(k: nat): (r: nat)
    ensures r >= 1
  {
    if k == 0 then 1 else 128 * Pow128(k - 1)
  }

  /** `encode_varint`: a negative number is refused, every other one gets its minimal encoding. */
  method EncodeVarint(n: int) returns (r: Option<bytes>)
    ensures r == if n < 0 then None else Some(Encode(n))
  {
    if n < 0 {
      return None;
    }
    var rest: nat := n;
    var out: bytes := [];
    while rest >= 128
      invariant out + Encode(rest) == Encode(n)
    {
      assert out + Encode(rest) == (out + [rest % 128 + 128]) + Encode(rest / 128);
      out := out + [rest % 128 + 128];
      rest := rest / 128;
    }
    return Some(out + [rest]);
  }

  /** `Encode` is a prefix code: no continuation makes two numbers look alike. */
  lemma {:induction false} EncodePrefixFree(a: nat, b: nat, x: bytes, y: bytes)
    requires Encode(a) + x == Encode(b) + y
    ensures a == b && x == y
  {
    var s, t := Encode(a) + x, Encode(b) + y;
    assert s[0] == Encode(a)[0] && t[0] == Encode(b)[0];
    if a < 128 {
      assert b < 128;
      assert x == s[1..] && y == t[1..];
    } else {
      assert b >= 128;
      assert s[1..] == Encode(a / 128) + x;
      assert t[1..] == Encode(b / 128) + y;
      EncodePrefixFree(a / 128, b / 128, x, y);
    }
  }

  lemma EncodeInjective(a: nat, b: nat)
    ensures Encode(a) == Encode(b) <==> a == b
  {
    if Encode(a) == Encode(b) {
      assert Encode(a) + [] == Encode(b) + [];
      EncodePrefixFree(a, b, [], []);
    }
  }

  /** A number needs at most `k` bytes exactly when it is below 128^k. */
  lemma {:induction false} EncodeLength(n: nat, k: nat)
    requires k >= 1
    ensures |Encode(n)| <= k <==> n < Pow128(k)
  {
    if k == 1 {
      assert Pow128(1) == 128 * Pow128(0) == 128;
    } else if n < 128 {
      assert Pow128(k) == 128 * Pow128(k - 1) >= 128;
    } else {
      EncodeLength(n / 128, k - 1);
      assert Pow128(k) == 128 * Pow128(k - 1);
    }
  }

  lemma TenGroups()
    ensures Pow128(9) == TWO_63 && Pow128(10) == TWO_70
  {
    assert Pow128(1) == 128;
    assert Pow128(2) == 0x4000;
    assert Pow128(3) == 0x20_0000;
    assert Pow128(4) == 0x1000_0000;
    assert Pow128(5) == 0x8_0000_0000;
    assert Pow128(6) == 0x400_0000_0000;
    assert Pow128(7) == 0x2_0000_0000_0000;
    assert Pow128(8) == 0x100_0000_0000_0000;
  }

  /** The value of a run of groups, whatever their continuation bits. */
  function Groups(s: bytes): (r: nat)
  {
    if s == [] then 0 else s[0] % 128 + 128 * Groups(s[1..])
  }

  lemma {:induction false} GroupsAppend(s: bytes, b: byte)
    ensures Groups(s + [b]) == Groups(s) + (b % 128) * Pow128(|s|)
  {
    if s == [] {
      assert Groups([b]) == b % 128 + 128 * Groups([]);
    } else {
      assert (s + [b])[1..] == s[1..] + [b];
      GroupsAppend(s[1..], b);
      var p := Pow128(|s| - 1);
      assert Pow128(|s|) == 128 * p;
      assert 128 * ((b % 128) * p) == (b % 128) * (128 * p);
    }
  }

  lemma NextGroup(buf: bytes, start: nat, pos: nat)
    requires start <= pos < |buf|
    ensures Groups(buf[start..pos + 1]) == Groups(buf[start..pos]) + (buf[pos] % 128) * Pow128(pos - start)
    ensures Pow128(pos - start + 1) == 128 * Pow128(pos - start)
  {
    GroupsAppend(buf[start..pos], buf[pos]);
    assert buf[start..pos + 1] == buf[start..pos] + [buf[pos]];
  }

  /** Every byte but the last carries the continuation bit, and the last one does not. */
  ghost predicate Terminated(s: bytes)
  {
    |s| >= 1 && s[|s| - 1] < 128 && forall i :: 0 <= i < |s| - 1 ==> s[i] >= 128
  }

  lemma {:induction false} EncodeTerminated(n: nat)
    ensures Terminated(Encode(n))
  {
    if n >= 128 {
      EncodeTerminated(n / 128);
    }
  }

  lemma LowGroup(n: nat)
    ensures (n % 128 + 128) % 128 + 128 * (n / 128) == n
  {
  }

  lemma {:induction false} EncodeGroups(n: nat)
    ensures Groups(Encode(n)) == n
  {
    if n >= 128 {
      EncodeGroups(n / 128);
      LowGroup(n);
      assert Encode(n)[1..] == Encode(n / 128);
    }
  }

  /** Two terminated prefixes of one buffer are the same prefix. */
  lemma TerminatedUnique(buf: bytes, i: nat, j: nat)
    requires i <= |buf| && j <= |buf|
    requires Terminated(buf[..i]) && Terminated(buf[..j])
    ensures i == j
  {
  }

  /** The loop of `decode_varint`: reads groups up to the first byte without a continuation bit. */
  method ReadGroups(buf: bytes, start: nat) returns (r: Result<(nat, nat), DecodeError>)
    ensures r.Ok? ==>
              && start < r.value.1 <= |buf| && r.value.1 - start <= 10
              && Terminated(buf[start..r.value.1])
              && r.value.0 == Groups(buf[start..r.value.1])
    ensures r.Err? ==> GaveUp(buf, start, r.error)
  {
    var pos, result: nat, weight: nat := start, 0, 1;
    var shift := 0;
    if start > |buf| {
      return Err(Truncated);
    }
    while true
      invariant start <= pos <= |buf|
      invariant shift == 7 * (pos - start) <= 63
      invariant weight == Pow128(pos - start)
      invariant result == Groups(buf[start..pos])
      invariant forall i :: start <= i < pos ==> buf[i] >= 128
      decreases |buf| - pos
    {
      if pos >= |buf| {
        return Err(Truncated);
      }
      var b: int := buf[pos];
      NextGroup(buf, start, pos);
      pos := pos + 1;
      result := result + (b % 128) * weight;
      if b < 128 {
        return Ok((result, pos));
      }
      shift := shift + 7;
      if shift > 63 {
        return Err(TooLong);
      }
      weight := 128 * weight;
    }
  }

  /** The number `n` stands minimally encoded at offset `start`. */
  ghost predicate EncodedAt(buf: bytes, start: nat, n: nat)
  {
    start <= |buf| && Encode(n) <= buf[start..]
  }

  /** What a number below 2^70 encoded at `start` says about the bytes there. */
  lemma EncodedShape(buf: bytes, start: nat, n: nat)
    requires EncodedAt(buf, start, n) && n < TWO_70
    ensures |Encode(n)| <= 10 && start + |Encode(n)| <= |buf|
    ensures buf[start..start + |Encode(n)|] == Encode(n)
    ensures Terminated(buf[start..start + |Encode(n)|])
    ensures buf[start + |Encode(n)| - 1] < 128
  {
    EncodeTerminated(n);
    TenGroups();
    EncodeLength(n, 10);
    assert buf[start..start + |Encode(n)|] == Encode(n);
    assert buf[start + |Encode(n)| - 1] == Encode(n)[|Encode(n)| - 1];
  }

  /**
   `decode_varint`: at most ten groups, and the bytes read must be exactly the minimal
   encoding of the value. So it accepts at an offset if and only if some number below
   2^70 is minimally encoded there, and then returns that number and the next offset.
   */
  method DecodeVarint(buf: bytes, start: nat) returns (r: Result<(nat, nat), DecodeError>)
    ensures r.Ok? ==> EncodedAt(buf, start, r.value.0) && r.value.0 < TWO_70 && r.value.1 == start + |Encode(r.value.0)|
    ensures forall n: nat :: n < TWO_70 && EncodedAt(buf, start, n) ==> r == Ok((n, start + |Encode(n)|))
    ensures r.Err? && r.error != NonMinimal ==> GaveUp(buf, start, r.error)
  {
    var groups := ReadGroups(buf, start);
    if groups.Err? {
      NothingEncoded(buf, start, groups.error);
      return groups;
    }
    var (result, pos) := groups.value;
    OnlyEncoding(buf, start, pos);
    if pos - start > 1 && buf[pos - 1] == 0 {
      TrailingZero(buf[start..pos]);
      return Err(NonMinimal);
    }
    var again := EncodeVarint(result);
    if again != Some(buf[start..pos]) {
      return Err(NonMinimal);
    }
    EncodeLength(result, 10);
    TenGroups();
    return Ok((result, pos));
  }

  /** What the loop has seen when it gives up. */
  ghost predicate GaveUp(buf: bytes, start: nat, error: DecodeError)
  {
    match error
    case Truncated => forall i :: start <= i < |buf| ==> buf[i] >= 128
    case TooLong => start + 10 <= |buf| && forall i :: start <= i < start + 10 ==> buf[i] >= 128
    case NonMinimal => false
  }

  lemma NothingEncoded(buf: bytes, start: nat, error: DecodeError)
    requires GaveUp(buf, start, error)
    ensures forall n: nat :: n < TWO_70 ==> !EncodedAt(buf, start, n)
  {
    forall n: nat | n < TWO_70
      ensures !EncodedAt(buf, start, n)
    {
      if EncodedAt(buf, start, n) {
        EncodedShape(buf, start, n);
        assert false;
      }
    }
  }

  lemma OnlyEncoding(buf: bytes, start: nat, pos: nat)
    requires start <= pos <= |buf| && Terminated(buf[start..pos])
    ensures forall n: nat :: n < TWO_70 && EncodedAt(buf, start, n) ==>
              Encode(n) == buf[start..pos] && Groups(buf[start..pos]) == n && pos == start + |Encode(n)|
  {
    forall n: nat | n < TWO_70 && EncodedAt(buf, start, n)
      ensures Encode(n) == buf[start..pos] && Groups(buf[start..pos]) == n && pos == start + |Encode(n)|
    {
      ReadIsEncoding(buf, start, pos, n);
    }
  }

  lemma TrailingZero(s: bytes)
    requires |s| > 1 && s[|s| - 1] == 0
    ensures forall n: nat :: Encode(n) != s
  {
    forall n: nat
      ensures Encode(n) != s
    {
      EncodeLastNonZero(n);
    }
  }

  /** The bytes the loop stopped after are the encoding, if there is one. */
  lemma ReadIsEncoding(buf: bytes, start: nat, pos: nat, n: nat)
    requires start <= pos <= |buf| && Terminated(buf[start..pos])
    requires EncodedAt(buf, start, n) && n < TWO_70
    ensures Encode(n) == buf[start..pos] && Groups(buf[start..pos]) == n && pos == start + |Encode(n)|
  {
    EncodedShape(buf, start, n);
    EncodeGroups(n);
    var tail := buf[start..];
    assert tail[..pos - start] == buf[start..pos];
    assert tail[..|Encode(n)|] == buf[start..start + |Encode(n)|];
    TerminatedUnique(tail, |Encode(n)|, pos - start);
  }

  /** Minimal encodings of more than one byte never end in a zero byte. */
  lemma {:induction false} EncodeLastNonZero(n: nat)
    ensures |Encode(n)| > 1 ==> Encode(n)[|Encode(n)| - 1] != 0
  {
    if n >= 128 {
      EncodeLastNonZero(n / 128);
    }
  }

  /** Rule j: a signed integer is encoded as its 64-bit two's complement. */
  function EncodeSigned(i: int): (r: bytes)
  {
    Encode(i % TWO_64)
  }

  ghost predicate IsInt64(i: int)
  {
    -TWO_63 <= i < TWO_63
  }

  lemma SignedInjective(a: int, b: int)
    requires IsInt64(a) && IsInt64(b)
    ensures EncodeSigned(a) == EncodeSigned(b) <==> a == b
  {
    EncodeInjective(a % TWO_64, b % TWO_64);
    Wrapped(a);
    Wrapped(b);
  }

  lemma Wrapped(i: int)
    requires IsInt64(i)
    ensures i % TWO_64 == if i < 0 then i + TWO_64 else i
  {
  }

  /** A 64-bit integer takes ten bytes exactly when it is negative. */
  lemma NegativeTakesTenBytes(i: int)
    requires IsInt64(i)
    ensures |EncodeSigned(i)| == 10 <==> i < 0
    ensures |EncodeSigned(i)| <= 10
  {
    TenGroups();
    EncodeLength(i % TWO_64, 9);
    EncodeLength(i % TWO_64, 10);
    Wrapped(i);
  }
}
