/** `canonical_encode` as the loop it is, appending to one byte buffer, proved to write `Canonical`. */
module CanonicalEncoder {
  import opened Common
  import opened Wire
  import opened CanonicalEncoding
  import opened CanonicalLayout
  import Dictionary
  import Utf8
  import Varint

  method CanonicalEncode(S: Schemas, name: string, m: Message) returns (out: bytes)
    requires WellTyped(S, name, m)
    ensures out == Canonical(S, name, m)
    ensures WellFormed(S) ==> Read(out).Some? && LaidOut(S, S[name], m, Read(out).value)
    decreases m, 1
  {
    var fs := SortedFields(S[name]);
    out := [];
    for i := 0 to |fs|
      invariant out == Flatten(Records(S, fs[..i], m))
    {
      RecordsSnoc(S, fs[..i], fs[i], m);
      assert fs[..i + 1] == fs[..i] + [fs[i]];
      FlattenAppend(Records(S, fs[..i], m), FieldRecords(S, fs[i], m));
      if fs[i].number == SIGNATURE_FIELD_NUMBER || fs[i].name == DERIVED_HASH_FIELD {
        assert Flatten(Records(S, fs[..i], m)) + [] == Flatten(Records(S, fs[..i], m));
        continue;
      }
      assert fs[i] in fs && fs[i] in S[name];
      var chunk := EncodeField(S, fs[i], m);
      out := out + chunk;
    }
    assert fs[..|fs|] == fs;
    if WellFormed(S) {
      ghost var items := CanonicalReads(S, name, m);
    }
  }

  lemma {:induction false} RecordsSnoc(S: Schemas, fs: seq<Field>, f: Field, m: Message)
    ensures Records(S, fs + [f], m) == Records(S, fs, m) + FieldRecords(S, f, m)
  {
    if fs == [] {
      assert [f][1..] == [];
    } else {
      assert (fs + [f])[1..] == fs[1..] + [f];
      RecordsSnoc(S, fs[1..], f, m);
    }
  }

  lemma FlattenOne(r: Record)
    ensures Flatten([r]) == EncodeRecord(r)
  {
    assert [r][1..] == [];
    assert EncodeRecord(r) + [] == EncodeRecord(r);
  }

  lemma FlattenSnoc(rs: seq<Record>, i: nat)
    requires i < |rs|
    ensures Flatten(rs[..i + 1]) == Flatten(rs[..i]) + EncodeRecord(rs[i])
  {
    assert rs[..i + 1] == rs[..i] + [rs[i]];
    FlattenAppend(rs[..i], [rs[i]]);
    FlattenOne(rs[i]);
  }

  /** One turn of the field loop, for a field that is not excluded. */
  method EncodeField(S: Schemas, f: Field, m: Message) returns (chunk: bytes)
    requires Kept(f) && FieldTyped(S, f, m)
    ensures chunk == Flatten(FieldRecords(S, f, m))
    decreases m, 0
  {
    var v := Get(m, f.name);
    if IsDefault(v) {
      return [];
    }
    match f.kind
    case UintKind => chunk := EncodeNumber(f.number, v.n);
    case EnumKind => chunk := EncodeNumber(f.number, v.n);
    case IntKind => chunk := EncodeNumber(f.number, v.n % TWO_64);
    case BoolKind => chunk := EncodeNumber(f.number, 1);
    case StringKind =>
      FlattenOne(LenRecord(f.number, Utf8.Encode(v.s)));
      chunk := EncodeLenDelimited(f.number, Utf8.Encode(v.s));
    case BytesKind =>
      FlattenOne(LenRecord(f.number, v.bs));
      chunk := EncodeLenDelimited(f.number, v.bs);
    case RepeatedStringKind => chunk := EncodeTexts(f.number, v.ss);
    case MapKind => chunk := EncodeEntries(f.number, v.es);
    case MessageKind(schema) =>
      var inner := CanonicalEncode(S, schema, v.m);
      if inner == [] {
        return [];
      }
      FlattenOne(LenRecord(f.number, inner));
      chunk := EncodeLenDelimited(f.number, inner);
    case RepeatedMessageKind(schema) =>
      ghost var rs := FieldRecords(S, f, m);
      chunk := [];
      for i := 0 to |v.ms|
        invariant chunk == Flatten(rs[..i])
      {
        FlattenSnoc(rs, i);
        var inner := CanonicalEncode(S, schema, v.ms[i]);
        chunk := chunk + EncodeLenDelimited(f.number, inner);
      }
      assert rs[..|rs|] == rs;
  }

  method EncodeNumber(number: nat, value: nat) returns (chunk: bytes)
    ensures chunk == Flatten([VarintRecord(number, value)])
  {
    FlattenOne(VarintRecord(number, value));
    var tail := Varint.EncodeVarint(value);
    chunk := EncodeTag(number, WIRETYPE_VARINT) + tail.value;
  }

  method EncodeTexts(number: nat, ss: seq<string>) returns (chunk: bytes)
    ensures chunk == Flatten(TextRecords(number, ss))
  {
    ghost var rs := TextRecords(number, ss);
    chunk := [];
    for i := 0 to |ss|
      invariant chunk == Flatten(rs[..i])
    {
      FlattenSnoc(rs, i);
      chunk := chunk + EncodeLenDelimited(number, Utf8.Encode(ss[i]));
    }
    assert rs[..|rs|] == rs;
  }

  method EncodeEntries(number: nat, es: Dictionary.Entries) returns (chunk: bytes)
    ensures chunk == Flatten(EntryRecords(number, Dictionary.Sorted(es)))
  {
    var entries := Dictionary.Sorted(es);
    ghost var rs := EntryRecords(number, entries);
    chunk := [];
    for i := 0 to |entries|
      invariant chunk == Flatten(rs[..i])
    {
      FlattenSnoc(rs, i);
      var inner := EncodeEntry(entries[i]);
      chunk := chunk + EncodeLenDelimited(number, inner);
    }
    assert rs[..|rs|] == rs;
  }

  method EncodeEntry(entry: (bytes, bytes)) returns (inner: bytes)
    ensures inner == EntryBytes(entry)
  {
    var (kb, vb) := entry;
    FlattenAppend([LenRecord(1, kb)], if vb == [] then [] else [LenRecord(2, vb)]);
    FlattenOne(LenRecord(1, kb));
    FlattenOne(LenRecord(2, vb));
    inner := EncodeLenDelimited(1, kb);
    if vb != [] {
      inner := inner + EncodeLenDelimited(2, vb);
    }
  }
}
