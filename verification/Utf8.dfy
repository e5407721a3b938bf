/** `str.encode("utf-8")`: Dafny's `char` is a Unicode scalar value, so every string encodes. */
module Utf8 {
  import opened Common

  function EncodeChar(c: char): (r: bytes)
    ensures |r| >= 1
  {
    var n := c as int;
    if n < 0x80 then [n]
    else if n < 0x800 then [0xC0 + n / 64, 0x80 + n % 64]
    else if n < 0x1_0000 then [0xE0 + n / 64 / 64, 0x80 + n / 64 % 64, 0x80 + n % 64]
    else [0xF0 + n / 64 / 64 / 64, 0x80 + n / 64 / 64 % 64, 0x80 + n / 64 % 64, 0x80 + n % 64]
  }

  function Encode(s: string): (r: bytes)
    ensures s == "" <==> r == []
  {
    if s == "" then [] else EncodeChar(s[0]) + Encode(s[1..])
  }

  /** The number of bytes a lead byte announces. */
  function LeadLength(b: byte): (n: nat)
  {
    if b < 0xC0 then 1 else if b < 0xE0 then 2 else if b < 0xF0 then 3 else 4
  }

  lemma LeadByte(c: char)
    ensures |EncodeChar(c)| == LeadLength(EncodeChar(c)[0])
  {
  }

  /** A character is recovered from its bytes. */
  lemma CharInjective(c: char, d: char)
    requires EncodeChar(c) == EncodeChar(d)
    ensures c == d
  {
    var (n, m) := (c as int, d as int);
    assert |EncodeChar(c)| == |EncodeChar(d)|;
    assert EncodeChar(c)[0] == EncodeChar(d)[0];
    if n >= 0x80 {
      assert EncodeChar(c)[1] == EncodeChar(d)[1];
      if n >= 0x800 {
        assert EncodeChar(c)[2] == EncodeChar(d)[2];
        if n >= 0x1_0000 {
          assert EncodeChar(c)[3] == EncodeChar(d)[3];
        }
      }
    }
  }

  lemma {:induction false} EncodeInjective(s: string, t: string)
    ensures Encode(s) == Encode(t) <==> s == t
  {
    if s != "" && t != "" && Encode(s) == Encode(t) {
      var (c, d) := (s[0], t[0]);
      LeadByte(c);
      LeadByte(d);
      assert Encode(s)[0] == EncodeChar(c)[0] && Encode(t)[0] == EncodeChar(d)[0];
      var k := |EncodeChar(c)|;
      assert Encode(s)[..k] == EncodeChar(c) && Encode(t)[..k] == EncodeChar(d);
      assert Encode(s)[k..] == Encode(s[1..]) && Encode(t)[k..] == Encode(t[1..]);
      CharInjective(c, d);
      EncodeInjective(s[1..], t[1..]);
      assert s == [c] + s[1..] && t == [d] + t[1..];
    }
  }

  // ---------------------------------------------------------------- reading it back

  /** The number a lead byte and its continuation bytes spell, by the table in section 3 of RFC 3629. */
  function Spelled(b: bytes): (n: int)
    requires 1 <= |b| <= 4
  {
    var lead: int := b[0];
    if |b| == 1 then lead
    else if |b| == 2 then (lead - 0xC0) * 64 + Low(b[1])
    else if |b| == 3 then ((lead - 0xE0) * 64 + Low(b[1])) * 64 + Low(b[2])
    else (((lead - 0xF0) * 64 + Low(b[1])) * 64 + Low(b[2])) * 64 + Low(b[3])
  }

  function Low(b: byte): (n: int)
  {
    b as int - 0x80
  }

  /** The bytes spell a scalar value that needs that many of them. */
  predicate Legal(b: bytes)
  {
    && 1 <= |b| <= 4
    && (forall i :: 1 <= i < |b| ==> 0x80 <= b[i] < 0xC0)
    && var n := Spelled(b);
       && (0 <= n < 0xD800 || 0xE000 <= n < 0x11_0000)
       && |b| == if n < 0x80 then 1 else if n < 0x800 then 2 else if n < 0x1_0000 then 3 else 4
  }

  /** A strict UTF-8 decoder: overlong forms, surrogates and stray continuation bytes are refused. */
  function Decode(b: bytes): (r: Option<string>)
    decreases |b|
  {
    if b == [] then Some("")
    else
      var k := LeadLength(b[0]);
      if k > |b| || !Legal(b[..k]) then None
      else
        match Decode(b[k..])
        case None => None
        case Some(rest) => Some([Spelled(b[..k]) as char] + rest)
  }

  lemma LegalChar(c: char)
    ensures Legal(EncodeChar(c)) && Spelled(EncodeChar(c)) == c as int
  {
    var n := c as int;
    assert n == n / 64 * 64 + n % 64 && n / 64 == n / 64 / 64 * 64 + n / 64 % 64;
    assert n / 64 / 64 == n / 64 / 64 / 64 * 64 + n / 64 / 64 % 64;
  }

  /** What is written decodes to the string, by the layout of the standard. */
  lemma {:induction false} DecodeEncoded(s: string)
    ensures Decode(Encode(s)) == Some(s)
  {
    if s != "" {
      var c, rest := s[0], Encode(s[1..]);
      var k := |EncodeChar(c)|;
      LeadByte(c);
      LegalChar(c);
      DecodeEncoded(s[1..]);
      assert Encode(s)[..k] == EncodeChar(c) && Encode(s)[k..] == rest && Encode(s)[0] == EncodeChar(c)[0];
      assert s == [c] + s[1..];
    }
  }
}
