/**
 What the canonical bytes are, read back by a reader that knows nothing of the encoder: tags
 with the wire types of the Protocol Buffers encoding, base 128 varints, length-delimited
 payloads.
 */
module CanonicalLayout {
  import opened Common
  import opened Wire
  import opened CanonicalEncoding
  import CanonicalTheorem
  import Dictionary
  import Sorting
  import Utf8
  import Varint

  // ---------------------------------------------------------------- the reader

  datatype Item = Scalar(field: nat, value: nat) | Content(field: nat, payload: bytes)

  /** A base 128 varint, least significant group first, and what follows it. */
  function ReadVarint(b: bytes): (r: Option<(nat, bytes)>)
    ensures r.Some? ==> |r.value.1| < |b|
    decreases |b|
  {
    if b == [] then None
    else if b[0] < 128 then Some((b[0], b[1..]))
    else
      match ReadVarint(b[1..])
      case None => None
      case Some((high, rest)) => Some((b[0] - 128 + 128 * high, rest))
  }

  /** The items of a message: wire type 0 is a varint, wire type 2 a payload behind its length. */
  function Read(b: bytes): (r: Option<seq<Item>>)
    decreases |b|
  {
    if b == [] then Some([])
    else
      match ReadVarint(b)
      case None => None
      case Some((tag, rest)) =>
        match ReadVarint(rest)
        case None => None
        case Some((n, tail)) =>
          if tag % 8 == 0 then Prepend(Scalar(tag / 8, n), Read(tail))
          else if tag % 8 == 2 && n <= |tail| then Prepend(Content(tag / 8, tail[..n]), Read(tail[n..]))
          else None
  }

  function Prepend(item: Item, items: Option<seq<Item>>): (r: Option<seq<Item>>)
  {
    match items
    case None => None
    case Some(rest) => Some([item] + rest)
  }

  function ItemOf(r: Record): (item: Item)
  {
    match r
    case VarintRecord(number, value) => Scalar(number, value)
    case LenRecord(number, payload) => Content(number, payload)
  }

  function Items(rs: seq<Record>): (items: seq<Item>)
    ensures |items| == |rs|
  {
    if rs == [] then [] else [ItemOf(rs[0])] + Items(rs[1..])
  }

  lemma {:induction false} ReadEncoded(n: nat, rest: bytes)
    ensures ReadVarint(Varint.Encode(n) + rest) == Some((n, rest))
  {
    var code := Varint.Encode(n) + rest;
    if n >= 128 {
      ReadEncoded(n / 128, rest);
      assert code[1..] == Varint.Encode(n / 128) + rest;
      assert code[0] == n % 128 + 128;
    } else {
      assert code[1..] == rest;
    }
  }

  lemma ReadVarintRecord(number: nat, value: nat, rest: bytes)
    ensures Read(EncodeRecord(VarintRecord(number, value)) + rest) == Prepend(Scalar(number, value), Read(rest))
  {
    var code := EncodeRecord(VarintRecord(number, value)) + rest;
    TagThenBody(VarintRecord(number, value), rest);
    ReadEncoded(8 * number, Varint.Encode(value) + rest);
    ReadEncoded(value, rest);
    assert ReadVarint(code) == Some((8 * number, Varint.Encode(value) + rest));
    assert 8 * number % 8 == 0 && 8 * number / 8 == number;
  }

  lemma ReadLenRecord(number: nat, payload: bytes, rest: bytes)
    ensures Read(EncodeRecord(LenRecord(number, payload)) + rest) == Prepend(Content(number, payload), Read(rest))
  {
    var code := EncodeRecord(LenRecord(number, payload)) + rest;
    TagThenBody(LenRecord(number, payload), rest);
    var size := Varint.Encode(|payload|);
    Associate(size, payload, rest);
    ReadEncoded(8 * number + 2, size + (payload + rest));
    ReadEncoded(|payload|, payload + rest);
    assert ReadVarint(code) == Some((8 * number + 2, size + (payload + rest)));
    assert (8 * number + 2) % 8 == 2 && (8 * number + 2) / 8 == number;
    assert (payload + rest)[..|payload|] == payload && (payload + rest)[|payload|..] == rest;
  }

  /** Whatever records are written are read back, in order. */
  lemma {:induction false} ReadFlatten(rs: seq<Record>)
    ensures Read(Flatten(rs)) == Some(Items(rs))
  {
    if rs != [] {
      match rs[0] {
        case VarintRecord(number, value) => ReadVarintRecord(number, value, Flatten(rs[1..]));
        case LenRecord(number, payload) => ReadLenRecord(number, payload, Flatten(rs[1..]));
      }
      ReadFlatten(rs[1..]);
    }
  }

  // ---------------------------------------------------------------- order

  lemma {:induction false} ItemAt(rs: seq<Record>, i: nat)
    requires i < |rs|
    ensures Items(rs)[i] == ItemOf(rs[i])
  {
    if i > 0 {
      ItemAt(rs[1..], i - 1);
    }
  }

  lemma FieldsAscend(fs: seq<Field>)
    requires DistinctNumbers(fs)
    ensures NumbersAscend(SortedFields(fs))
  {
    Sorting.SortAscending(fs, ByNumber);
    var sorted := SortedFields(fs);
    forall i, j | 0 <= i < j < |sorted|
      ensures sorted[i].number < sorted[j].number
    {
      assert ByNumber(sorted[i], sorted[j]);
    }
  }

  ghost predicate NeverDescends(rs: seq<Record>)
  {
    forall i, j :: 0 <= i < j < |rs| ==> rs[i].number <= rs[j].number
  }

  lemma AppendNeverDescends(a: seq<Record>, b: seq<Record>, own: nat)
    requires forall r :: r in a ==> r.number == own
    requires forall r :: r in b ==> own < r.number
    requires NeverDescends(b)
    ensures NeverDescends(a + b)
  {
    var rs := a + b;
    forall i, j | 0 <= i < j < |rs|
      ensures rs[i].number <= rs[j].number
    {
      assert if i < |a| then rs[i] in a else rs[i] == b[i - |a|];
      assert if j < |a| then rs[j] in a else rs[j] == b[j - |a|] && rs[j] in b;
    }
  }

  lemma FieldRecordsUniform(S: Schemas, f: Field, m: Message)
    ensures forall r :: r in FieldRecords(S, f, m) ==> r.number == f.number
  {
    forall r | r in FieldRecords(S, f, m)
      ensures r.number == f.number
    {
      CanonicalTheorem.FieldRecordNumbers(S, f, m, r);
    }
  }

  ghost predicate NumbersAscend(fs: seq<Field>)
  {
    forall i, j :: 0 <= i < j < |fs| ==> fs[i].number < fs[j].number
  }

  lemma {:induction false} RecordsAscend(S: Schemas, fs: seq<Field>, m: Message)
    requires NumbersAscend(fs)
    ensures NeverDescends(Records(S, fs, m))
  {
    if fs != [] {
      var tail := Records(S, fs[1..], m);
      RecordsAscend(S, fs[1..], m);
      forall r | r in tail
        ensures fs[0].number < r.number
      {
        CanonicalTheorem.RecordsNumbers(S, fs[1..], m, r);
      }
      FieldRecordsUniform(S, fs[0], m);
      AppendNeverDescends(FieldRecords(S, fs[0], m), tail, fs[0].number);
    }
  }

  // ---------------------------------------------------------------- one field

  /** The items of one field number, in order. */
  function Of(items: seq<Item>, number: nat): (r: seq<Item>)
  {
    if items == [] then []
    else (if items[0].field == number then [items[0]] else []) + Of(items[1..], number)
  }

  lemma {:induction false} OfAppend(a: seq<Item>, b: seq<Item>, number: nat)
    ensures Of(a + b, number) == Of(a, number) + Of(b, number)
  {
    if a == [] {
      assert a + b == b;
    } else {
      assert (a + b)[1..] == a[1..] + b;
      OfAppend(a[1..], b, number);
    }
  }

  lemma {:induction false} ItemsAppend(a: seq<Record>, b: seq<Record>)
    ensures Items(a + b) == Items(a) + Items(b)
  {
    if a == [] {
      assert a + b == b;
    } else {
      assert (a + b)[1..] == a[1..] + b;
      ItemsAppend(a[1..], b);
    }
  }

  lemma {:induction false} OfUniform(rs: seq<Record>, own: nat, number: nat)
    requires forall r :: r in rs ==> r.number == own
    ensures Of(Items(rs), number) == if number == own then Items(rs) else []
  {
    if rs != [] {
      assert rs[0] in rs;
      OfUniform(rs[1..], own, number);
    }
  }

  lemma {:induction false} OfRecords(S: Schemas, fs: seq<Field>, m: Message, f: Field)
    requires DistinctNumbers(fs)
    ensures f in fs ==> Of(Items(Records(S, fs, m)), f.number) == Items(FieldRecords(S, f, m))
    ensures (forall g :: g in fs ==> g.number != f.number) ==> Of(Items(Records(S, fs, m)), f.number) == []
  {
    if fs != [] {
      var head, tail := FieldRecords(S, fs[0], m), Records(S, fs[1..], m);
      FieldRecordsUniform(S, fs[0], m);
      OfUniform(head, fs[0].number, f.number);
      ItemsAppend(head, tail);
      OfAppend(Items(head), Items(tail), f.number);
      OfRecords(S, fs[1..], m, f);
      assert fs == [fs[0]] + fs[1..];
    }
  }

  // ---------------------------------------------------------------- what a field is written as

  /** Lexicographic order, by the first place where the strings part. */
  ghost predicate Below(a: bytes, b: bytes)
  {
    exists k: nat :: PartAt(a, b, k)
  }

  ghost predicate PartAt(a: bytes, b: bytes, k: nat)
  {
    && k <= |a| && k < |b|
    && a[..k] == b[..k]
    && (k == |a| || a[k] < b[k])
  }

  lemma {:induction false} LessIsBelow(a: bytes, b: bytes)
    requires Dictionary.Less(a, b)
    ensures Below(a, b)
  {
    if a == [] || a[0] < b[0] {
      assert PartAt(a, b, 0);
    } else {
      LessIsBelow(a[1..], b[1..]);
      var k: nat :| PartAt(a[1..], b[1..], k);
      assert a[..k + 1] == [a[0]] + a[1..][..k] && b[..k + 1] == [b[0]] + b[1..][..k];
      assert PartAt(a, b, k + 1);
    }
  }

  /** A map entry: key in field 1, value in field 2 unless it is empty. */
  function EntryItems(key: bytes, value: bytes): (items: seq<Item>)
  {
    [Content(1, key)] + if value == [] then [] else [Content(2, value)]
  }

  ghost predicate IsEntry(item: Item, number: nat, key: bytes, value: bytes)
  {
    item.Content? && item.field == number && Read(item.payload) == Some(EntryItems(key, value))
  }

  /** One item for each entry, the keys strictly ascending. */
  ghost predicate EntriesWritten(number: nat, es: Dictionary.Entries, items: seq<Item>)
  {
    exists ps: seq<(bytes, bytes)> :: EntriesAre(number, es, items, ps)
  }

  ghost predicate EntriesAre(number: nat, es: Dictionary.Entries, items: seq<Item>, ps: seq<(bytes, bytes)>)
  {
    && |items| == |ps| == |es|
    && (forall i :: 0 <= i < |ps| ==> IsEntry(items[i], number, ps[i].0, ps[i].1))
    && (forall i, j :: 0 <= i < j < |ps| ==> Below(ps[i].0, ps[j].0))
    && (forall e :: e in es ==> (Utf8.Encode(e.0), Utf8.Encode(e.1)) in ps)
  }

  function TextItems(number: nat, ss: seq<string>): (items: seq<Item>)
  {
    seq(|ss|, i requires 0 <= i < |ss| => Content(number, Utf8.Encode(ss[i])))
  }

  function NestedItems(S: Schemas, number: nat, schema: string, ms: seq<Message>): (items: seq<Item>)
  {
    seq(|ms|, i requires 0 <= i < |ms| => Content(number, Canonical(S, schema, ms[i])))
  }

  /** What stands in the bytes for one field: nothing for what is excluded, absent or default. */
  ghost predicate Written(S: Schemas, f: Field, m: Message, items: seq<Item>)
  {
    if f.number == 90 || f.name == "manifest_hash" || f.name !in m.fields then items == []
    else
      match (f.kind, m.fields[f.name])
      case (UintKind, Number(n)) => 0 <= n && items == if n == 0 then [] else [Scalar(f.number, n)]
      case (EnumKind, Number(n)) => 0 <= n && items == if n == 0 then [] else [Scalar(f.number, n)]
      case (IntKind, Number(n)) => SignedWritten(f.number, n, items)
      case (BoolKind, Flag(b)) => items == if b then [Scalar(f.number, 1)] else []
      case (StringKind, Text(s)) => items == if s == "" then [] else [Content(f.number, Utf8.Encode(s))]
      case (BytesKind, Blob(bs)) => items == if bs == [] then [] else [Content(f.number, bs)]
      case (RepeatedStringKind, Texts(ss)) => items == TextItems(f.number, ss)
      case (MapKind, Dict(es)) => EntriesWritten(f.number, es, items)
      case (MessageKind(schema), Nested(inner)) =>
        var payload := Canonical(S, schema, inner);
        items == if payload == [] then [] else [Content(f.number, payload)]
      case (RepeatedMessageKind(schema), NestedList(ms)) => items == NestedItems(S, f.number, schema, ms)
      case (_, v) => v == Unset && items == []
  }

  /** Two's complement in 64 bits. */
  ghost predicate SignedWritten(number: nat, n: int, items: seq<Item>)
  {
    if n == 0 then items == []
    else if n > 0 then items == [Scalar(number, n)]
    else n + 0x1_0000_0000_0000_0000 >= 0 && items == [Scalar(number, n + 0x1_0000_0000_0000_0000)]
  }

  lemma ItemsOne(r: Record)
    ensures Items([r]) == [ItemOf(r)]
  {
    assert [r][1..] == [];
  }

  lemma ItemsOf(rs: seq<Record>, items: seq<Item>)
    requires |rs| == |items| && forall i :: 0 <= i < |rs| ==> ItemOf(rs[i]) == items[i]
    ensures Items(rs) == items
  {
    forall i | 0 <= i < |rs|
      ensures Items(rs)[i] == items[i]
    {
      ItemAt(rs, i);
    }
  }

  lemma EntryReads(p: (bytes, bytes))
    ensures Read(EntryBytes(p)) == Some(EntryItems(p.0, p.1))
  {
    var rs := [LenRecord(1, p.0)] + if p.1 == [] then [] else [LenRecord(2, p.1)];
    ReadFlatten(rs);
    ItemsOf(rs, EntryItems(p.0, p.1));
  }

  lemma EntriesLaidOut(number: nat, es: Dictionary.Entries)
    requires Dictionary.DistinctKeys(es)
    ensures EntriesWritten(number, es, Items(EntryRecords(number, Dictionary.Sorted(es))))
  {
    var ps := Dictionary.Sorted(es);
    var rs := EntryRecords(number, ps);
    forall i | 0 <= i < |ps|
      ensures IsEntry(Items(rs)[i], number, ps[i].0, ps[i].1)
    {
      ItemAt(rs, i);
      EntryReads(ps[i]);
    }
    Dictionary.SortedAscending(es);
    forall i, j | 0 <= i < j < |ps|
      ensures Below(ps[i].0, ps[j].0)
    {
      assert Dictionary.ByKey(ps[i], ps[j]);
      LessIsBelow(ps[i].0, ps[j].0);
    }
    forall e | e in es
      ensures (Utf8.Encode(e.0), Utf8.Encode(e.1)) in ps
    {
      Dictionary.SortedMember(es, e);
    }
    assert EntriesAre(number, es, Items(rs), ps);
  }

  lemma ScalarLaidOut(S: Schemas, f: Field, m: Message)
    requires FieldTyped(S, f, m) && Kept(f) && Get(m, f.name).Number?
    requires f.kind.UintKind? || f.kind.EnumKind? || f.kind.IntKind?
    ensures Written(S, f, m, Items(FieldRecords(S, f, m)))
  {
    var n := Get(m, f.name).n;
    if n != 0 {
      ItemsOne(VarintRecord(f.number, n % TWO_64));
      if n >= 0 {
        ItemsOne(VarintRecord(f.number, n));
      }
    }
  }

  lemma FieldLaidOut(S: Schemas, f: Field, m: Message)
    requires Kept(f) ==> FieldTyped(S, f, m)
    ensures Written(S, f, m, Items(FieldRecords(S, f, m)))
  {
    var v := Get(m, f.name);
    var rs := FieldRecords(S, f, m);
    if !Kept(f) || v == Unset {
    } else {
      match f.kind
      case UintKind => ScalarLaidOut(S, f, m);
      case EnumKind => ScalarLaidOut(S, f, m);
      case IntKind => ScalarLaidOut(S, f, m);
      case BoolKind => ItemsOne(VarintRecord(f.number, 1));
      case StringKind => ItemsOne(LenRecord(f.number, Utf8.Encode(v.s)));
      case BytesKind => ItemsOne(LenRecord(f.number, v.bs));
      case RepeatedStringKind => ItemsOf(rs, TextItems(f.number, v.ss));
      case MapKind => EntriesLaidOut(f.number, v.es);
      case MessageKind(schema) =>
        ItemsOne(LenRecord(f.number, Canonical(S, schema, v.m)));
        CanonicalTheorem.EmptyHasNoRecords(S, SortedFields(S[schema]));
      case RepeatedMessageKind(schema) => ItemsOf(rs, NestedItems(S, f.number, schema, v.ms));
    }
  }

  // ---------------------------------------------------------------- the whole message

  /** The bytes read back as items in ascending field number, each of a field, each field's as it must be written. */
  ghost predicate LaidOut(S: Schemas, fs: seq<Field>, m: Message, items: seq<Item>)
  {
    && (forall i, j :: 0 <= i < j < |items| ==> items[i].field <= items[j].field)
    && (forall item :: item in items ==> exists f :: f in fs && f.number == item.field)
    && (forall f :: f in fs ==> Written(S, f, m, Of(items, f.number)))
  }

  lemma ItemsAscend(rs: seq<Record>)
    requires NeverDescends(rs)
    ensures forall i, j :: 0 <= i < j < |rs| ==> Items(rs)[i].field <= Items(rs)[j].field
  {
    forall i, j | 0 <= i < j < |rs|
      ensures Items(rs)[i].field <= Items(rs)[j].field
    {
      ItemAt(rs, i);
      ItemAt(rs, j);
    }
  }

  lemma ItemsBelong(S: Schemas, fs: seq<Field>, m: Message, item: Item)
    requires item in Items(Records(S, fs, m))
    ensures exists f :: f in fs && f.number == item.field
  {
    var rs := Records(S, fs, m);
    var i :| 0 <= i < |rs| && Items(rs)[i] == item;
    ItemAt(rs, i);
    CanonicalTheorem.RecordsNumbers(S, fs, m, rs[i]);
    var k :| 0 <= k < |fs| && fs[k].number == rs[i].number;
    assert fs[k] in fs;
  }

  lemma ItemsLaidOut(S: Schemas, fs: seq<Field>, m: Message)
    requires DistinctNumbers(fs)
    requires forall f :: f in fs && Kept(f) ==> FieldTyped(S, f, m)
    ensures LaidOut(S, fs, m, Items(Records(S, SortedFields(fs), m)))
  {
    var sorted := SortedFields(fs);
    var rs := Records(S, sorted, m);
    CanonicalTheorem.SortedFieldsDistinct(fs);
    FieldsAscend(fs);
    RecordsAscend(S, sorted, m);
    ItemsAscend(rs);
    forall item | item in Items(rs)
      ensures exists f :: f in fs && f.number == item.field
    {
      ItemsBelong(S, sorted, m, item);
    }
    forall f | f in fs
      ensures Written(S, f, m, Of(Items(rs), f.number))
    {
      OfRecords(S, sorted, m, f);
      FieldLaidOut(S, f, m);
    }
  }

  /** Canonical bytes read back as exactly the kept, non-default fields, in ascending field number. */
  lemma CanonicalReads(S: Schemas, name: string, m: Message) returns (items: seq<Item>)
    requires WellFormed(S) && WellTyped(S, name, m)
    ensures Read(Canonical(S, name, m)) == Some(items)
    ensures LaidOut(S, S[name], m, items)
  {
    items := Items(Records(S, SortedFields(S[name]), m));
    ReadFlatten(Records(S, SortedFields(S[name]), m));
    ItemsLaidOut(S, S[name], m);
  }
}
