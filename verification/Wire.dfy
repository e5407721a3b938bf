/**
 The wire form: a message is a sequence of records, each a varint or a length-delimited
 payload behind a tag. `Flatten` writes the records out; it is injective, so the bytes
 can be read back in one way only.
 */
module Wire {
  import opened Common
  import Varint

  const WIRETYPE_VARINT: nat := 0
  const WIRETYPE_LEN: nat := 2

  datatype Record =
    | VarintRecord(number: nat, value: nat)
    | LenRecord(number: nat, payload: bytes)

  function EncodeTag(number: nat, wiretype: nat): (r: bytes)
    requires wiretype < 8
  {
    Varint.Encode(8 * number + wiretype)
  }

  function EncodeLenDelimited(number: nat, payload: bytes): (r: bytes)
  {
    EncodeTag(number, WIRETYPE_LEN) + Varint.Encode(|payload|) + payload
  }

  function EncodeRecord(record: Record): (r: bytes)
    ensures |r| >= 1
  {
    match record
    case VarintRecord(number, value) => EncodeTag(number, WIRETYPE_VARINT) + Varint.Encode(value)
    case LenRecord(number, payload) => EncodeLenDelimited(number, payload)
  }

  function Flatten(records: seq<Record>): (r: bytes)
    ensures records == [] <==> r == []
  {
    if records == [] then [] else EncodeRecord(records[0]) + Flatten(records[1..])
  }

  lemma {:induction false} FlattenAppend(s: seq<Record>, t: seq<Record>)
    ensures Flatten(s + t) == Flatten(s) + Flatten(t)
  {
    if s == [] {
      assert s + t == t;
    } else {
      assert (s + t)[1..] == s[1..] + t;
      FlattenAppend(s[1..], t);
    }
  }

  function WireType(record: Record): (w: nat)
    ensures w < 8
  {
    if record.VarintRecord? then WIRETYPE_VARINT else WIRETYPE_LEN
  }

  /** What follows the tag of a record. */
  function Body(record: Record): (r: bytes)
  {
    match record
    case VarintRecord(_, value) => Varint.Encode(value)
    case LenRecord(_, payload) => Varint.Encode(|payload|) + payload
  }

  lemma TagThenBody(record: Record, rest: bytes)
    ensures EncodeRecord(record) + rest == EncodeTag(record.number, WireType(record)) + (Body(record) + rest)
  {
  }

  /** Records are self-delimiting. */
  lemma RecordPrefixFree(p: Record, q: Record, x: bytes, y: bytes)
    requires EncodeRecord(p) + x == EncodeRecord(q) + y
    ensures p == q && x == y
  {
    TagThenBody(p, x);
    TagThenBody(q, y);
    TagPrefixFree(p, q, Body(p) + x, Body(q) + y);
    BodyPrefixFree(p, q, x, y);
  }

  lemma TagPrefixFree(p: Record, q: Record, x: bytes, y: bytes)
    requires EncodeTag(p.number, WireType(p)) + x == EncodeTag(q.number, WireType(q)) + y
    ensures p.number == q.number && WireType(p) == WireType(q) && x == y
  {
    Varint.EncodePrefixFree(8 * p.number + WireType(p), 8 * q.number + WireType(q), x, y);
  }

  lemma BodyPrefixFree(p: Record, q: Record, x: bytes, y: bytes)
    requires p.number == q.number && WireType(p) == WireType(q)
    requires Body(p) + x == Body(q) + y
    ensures p == q && x == y
  {
    if p.VarintRecord? {
      Varint.EncodePrefixFree(p.value, q.value, x, y);
    } else {
      LenPrefixFree(p.payload, q.payload, x, y);
    }
  }

  lemma LenPrefixFree(s: bytes, t: bytes, x: bytes, y: bytes)
    requires (Varint.Encode(|s|) + s) + x == (Varint.Encode(|t|) + t) + y
    ensures s == t && x == y
  {
    Associate(Varint.Encode(|s|), s, x);
    Associate(Varint.Encode(|t|), t, y);
    Varint.EncodePrefixFree(|s|, |t|, s + x, t + y);
    PrefixSplit(s, t, x, y);
  }

  lemma Associate(s: bytes, t: bytes, u: bytes)
    ensures (s + t) + u == s + (t + u)
  {
  }

  lemma PrefixSplit(s: bytes, t: bytes, x: bytes, y: bytes)
    requires s + x == t + y && |s| == |t|
    ensures s == t && x == y
  {
    assert s == (s + x)[..|s|] && t == (t + y)[..|t|];
    assert x == (s + x)[|s|..] && y == (t + y)[|t|..];
  }

  lemma {:induction false} FlattenInjective(s: seq<Record>, t: seq<Record>)
    ensures Flatten(s) == Flatten(t) <==> s == t
  {
    if s != [] && t != [] && Flatten(s) == Flatten(t) {
      RecordPrefixFree(s[0], t[0], Flatten(s[1..]), Flatten(t[1..]));
      FlattenInjective(s[1..], t[1..]);
      assert s == [s[0]] + s[1..] && t == [t[0]] + t[1..];
    }
  }
}
