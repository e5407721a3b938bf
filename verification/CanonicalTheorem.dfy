/**
 Two well-typed messages have the same canonical bytes exactly when they have the same
 normal form. Bytes determine records (`Wire.FlattenInjective`), records determine each
 field's records because field numbers differ, and a field's records determine its
 normal value.
 */
module CanonicalTheorem {
  import opened Common
  import opened Wire
  import opened CanonicalEncoding
  import Dictionary
  import Sorting
  import Utf8
  import Varint

  // ---------------------------------------------------------------- fields in order

  lemma SortedFieldsDistinct(fs: seq<Field>)
    requires DistinctNumbers(fs)
    ensures DistinctNumbers(SortedFields(fs))
    ensures forall f :: f in SortedFields(fs) <==> f in fs
  {
    Sorting.SortAscending(fs, ByNumber);
  }

  lemma FieldRecordNumbers(S: Schemas, f: Field, m: Message, r: Record)
    requires r in FieldRecords(S, f, m)
    ensures r.number == f.number
  {
  }

  lemma {:induction false} RecordsNumbers(S: Schemas, fs: seq<Field>, m: Message, r: Record)
    requires r in Records(S, fs, m)
    ensures exists i :: 0 <= i < |fs| && fs[i].number == r.number
  {
    if r in FieldRecords(S, fs[0], m) {
      FieldRecordNumbers(S, fs[0], m, r);
    } else {
      RecordsNumbers(S, fs[1..], m, r);
      var i :| 0 <= i < |fs[1..]| && fs[1..][i].number == r.number;
      assert fs[i + 1].number == r.number;
    }
  }

  /** The runs of one field number can be told apart from what follows them. */
  lemma RunSplit(p: seq<Record>, q: seq<Record>, x: seq<Record>, y: seq<Record>, number: nat)
    requires p + x == q + y
    requires forall r :: r in p || r in q ==> r.number == number
    requires forall r :: r in x || r in y ==> r.number != number
    ensures p == q && x == y
  {
    var s := p + x;
    RunLength(s, p, x, number);
    RunLength(s, q, y, number);
    var i := if |p| < |q| then |p| else |q|;
    assert i < |s| ==> (s[i].number == number <==> i < |p|);
    assert |p| == |q|;
    assert p == s[..|p|] && q == s[..|p|] && x == s[|p|..] && y == s[|p|..];
  }

  lemma RunLength(s: seq<Record>, p: seq<Record>, x: seq<Record>, number: nat)
    requires s == p + x
    requires forall r :: r in p ==> r.number == number
    requires forall r :: r in x ==> r.number != number
    ensures forall i :: 0 <= i < |s| ==> (s[i].number == number <==> i < |p|)
  {
    forall i | 0 <= i < |s|
      ensures s[i].number == number <==> i < |p|
    {
      assert if i < |p| then s[i] in p else s[i] in x;
    }
  }

  ghost predicate SameField(S: Schemas, f: Field, a: Message, b: Message)
  {
    FieldRecords(S, f, a) == FieldRecords(S, f, b)
  }

  lemma {:induction false} RecordsIffFields(S: Schemas, fs: seq<Field>, a: Message, b: Message)
    requires DistinctNumbers(fs)
    ensures Records(S, fs, a) == Records(S, fs, b) <==> forall f :: f in fs ==> SameField(S, f, a, b)
  {
    if fs != [] {
      var f := fs[0];
      var rest := fs[1..];
      assert fs == [f] + rest;
      RecordsIffFields(S, rest, a, b);
      assert (forall g :: g in fs ==> SameField(S, g, a, b)) <==>
          SameField(S, f, a, b) && forall g :: g in rest ==> SameField(S, g, a, b);
      if Records(S, fs, a) == Records(S, fs, b) {
        forall r | r in Records(S, rest, a) || r in Records(S, rest, b)
          ensures r.number != f.number
        {
          RecordsNumbers(S, rest, if r in Records(S, rest, a) then a else b, r);
        }
        forall r | r in FieldRecords(S, f, a) || r in FieldRecords(S, f, b)
          ensures r.number == f.number
        {
          FieldRecordNumbers(S, f, if r in FieldRecords(S, f, a) then a else b, r);
        }
        RunSplit(FieldRecords(S, f, a), FieldRecords(S, f, b), Records(S, rest, a), Records(S, rest, b), f.number);
      }
    }
  }

  /** Bytes agree exactly when every field's records do. */
  lemma CanonicalIffFields(S: Schemas, name: string, a: Message, b: Message)
    requires WellFormed(S) && name in S
    ensures Canonical(S, name, a) == Canonical(S, name, b) <==> forall f :: f in S[name] ==> SameField(S, f, a, b)
  {
    var fs := SortedFields(S[name]);
    SortedFieldsDistinct(S[name]);
    FlattenInjective(Records(S, fs, a), Records(S, fs, b));
    RecordsIffFields(S, fs, a, b);
  }

  // ---------------------------------------------------------------- normal forms, field by field

  lemma NormalAt(S: Schemas, name: string, m: Message, f: Field)
    requires WellFormed(S) && name in S && f in S[name]
    ensures f.number in Normal(S, name, m) <==> NormalField(S, f, m).Some?
    ensures f.number in Normal(S, name, m) ==> Normal(S, name, m)[f.number] == NormalField(S, f, m).value
  {
    var fs := S[name];
    forall g | g in fs && g.number == f.number
      ensures g == f
    {
      var i :| 0 <= i < |fs| && fs[i] == f;
      var j :| 0 <= j < |fs| && fs[j] == g;
    }
  }

  ghost predicate SameNormal(S: Schemas, f: Field, a: Message, b: Message)
    requires WellFormed(S)
  {
    NormalField(S, f, a) == NormalField(S, f, b)
  }

  lemma SameNormalAt(S: Schemas, name: string, a: Message, b: Message, f: Field)
    requires WellFormed(S) && name in S && f in S[name]
    ensures var (na, nb) := (Normal(S, name, a), Normal(S, name, b));
            && (na == nb ==> SameNormal(S, f, a, b))
            && (SameNormal(S, f, a, b) ==> (f.number in na <==> f.number in nb))
            && (SameNormal(S, f, a, b) && f.number in na ==> na[f.number] == nb[f.number])
  {
    NormalAt(S, name, a, f);
    NormalAt(S, name, b, f);
  }

  lemma NormalKey(S: Schemas, name: string, m: Message, n: nat) returns (f: Field)
    requires WellFormed(S) && name in S && n in Normal(S, name, m)
    ensures f in S[name] && f.number == n
  {
    f :| f in S[name] && NormalField(S, f, m).Some? && f.number == n;
  }

  lemma SameNormalsAt(S: Schemas, name: string, a: Message, b: Message, n: nat)
    requires WellFormed(S) && name in S && n in Normal(S, name, a)
    requires forall f :: f in S[name] ==> SameNormal(S, f, a, b)
    ensures n in Normal(S, name, b) && Normal(S, name, a)[n] == Normal(S, name, b)[n]
  {
    var f := NormalKey(S, name, a, n);
    SameNormalAt(S, name, a, b, f);
  }

  lemma SameNormalsEqual(na: map<nat, Norm>, nb: map<nat, Norm>)
    requires forall n :: n in na ==> n in nb && na[n] == nb[n]
    requires forall n :: n in nb ==> n in na && na[n] == nb[n]
    ensures na == nb
  {
  }

  lemma NormalIffFields(S: Schemas, name: string, a: Message, b: Message)
    requires WellFormed(S) && name in S
    ensures Normal(S, name, a) == Normal(S, name, b) <==> forall f :: f in S[name] ==> SameNormal(S, f, a, b)
  {
    forall f | f in S[name] && Normal(S, name, a) == Normal(S, name, b)
      ensures SameNormal(S, f, a, b)
    {
      SameNormalAt(S, name, a, b, f);
    }
    if forall f :: f in S[name] ==> SameNormal(S, f, a, b) {
      assert forall f :: f in S[name] ==> SameNormal(S, f, b, a);
      forall n | n in Normal(S, name, a)
        ensures n in Normal(S, name, b) && Normal(S, name, a)[n] == Normal(S, name, b)[n]
      {
        SameNormalsAt(S, name, a, b, n);
      }
      forall n | n in Normal(S, name, b)
        ensures n in Normal(S, name, a) && Normal(S, name, a)[n] == Normal(S, name, b)[n]
      {
        SameNormalsAt(S, name, b, a, n);
      }
      SameNormalsEqual(Normal(S, name, a), Normal(S, name, b));
    }
  }

  // ---------------------------------------------------------------- nothing left

  const EMPTY: Message := Message(map[])

  lemma {:induction false} EmptyHasNoRecords(S: Schemas, fs: seq<Field>)
    ensures Records(S, fs, EMPTY) == []
  {
    if fs != [] {
      EmptyHasNoRecords(S, fs[1..]);
      assert FieldRecords(S, fs[0], EMPTY) == [];
    }
  }

  lemma EmptyField(S: Schemas, f: Field)
    requires WellFormed(S)
    ensures NormalField(S, f, EMPTY).None? && FieldRecords(S, f, EMPTY) == []
  {
    assert Get(EMPTY, f.name) == Unset;
  }

  lemma EmptyHasNoNormal(S: Schemas, name: string)
    requires WellFormed(S) && name in S
    ensures Normal(S, name, EMPTY) == map[]
    ensures forall f :: f in S[name] ==> NormalField(S, f, EMPTY).None? && FieldRecords(S, f, EMPTY) == []
  {
    forall f | f in S[name]
      ensures NormalField(S, f, EMPTY).None? && FieldRecords(S, f, EMPTY) == []
    {
      EmptyField(S, f);
    }
  }

  /** A field leaves no record exactly when it leaves nothing in the normal form. */
  lemma {:induction false} FieldEmptyIff(S: Schemas, f: Field, m: Message)
    requires WellFormed(S) && (Kept(f) ==> FieldTyped(S, f, m))
    ensures FieldRecords(S, f, m) == [] <==> NormalField(S, f, m).None?
    decreases m, 0
  {
    var v := Get(m, f.name);
    if Kept(f) && f.kind.MessageKind? && v.Nested? {
      EmptyIff(S, f.kind.schema, v.m);
      if IsDefault(v) {
        assert v.m == EMPTY;
        EmptyHasNoNormal(S, f.kind.schema);
      }
    }
  }

  lemma {:induction false} EmptyIff(S: Schemas, name: string, m: Message)
    requires WellFormed(S) && WellTyped(S, name, m)
    ensures Canonical(S, name, m) == [] <==> Normal(S, name, m) == map[]
    decreases m, 1
  {
    EmptyHasNoRecords(S, SortedFields(S[name]));
    EmptyHasNoNormal(S, name);
    CanonicalIffFields(S, name, m, EMPTY);
    NormalIffFields(S, name, m, EMPTY);
    forall f | f in S[name]
      ensures SameField(S, f, m, EMPTY) <==> SameNormal(S, f, m, EMPTY)
    {
      FieldEmptyIff(S, f, m);
    }
  }

  // ---------------------------------------------------------------- one field of two messages

  lemma TextsIff(number: nat, ss: seq<string>, ts: seq<string>)
    ensures TextRecords(number, ss) == TextRecords(number, ts) <==> ss == ts
  {
    var (p, q) := (TextRecords(number, ss), TextRecords(number, ts));
    if p == q {
      forall i | 0 <= i < |ss|
        ensures ss[i] == ts[i]
      {
        assert p[i] == q[i];
        Utf8.EncodeInjective(ss[i], ts[i]);
      }
    }
  }

  lemma EntryBytesInjective(p: (bytes, bytes), q: (bytes, bytes))
    ensures EntryBytes(p) == EntryBytes(q) <==> p == q
  {
    var rp := [LenRecord(1, p.0)] + if p.1 == [] then [] else [LenRecord(2, p.1)];
    var rq := [LenRecord(1, q.0)] + if q.1 == [] then [] else [LenRecord(2, q.1)];
    FlattenInjective(rp, rq);
    if rp == rq {
      assert rp[0] == rq[0];
      assert |rp| == 2 ==> rp[1] == rq[1];
    }
  }

  lemma EntriesIff(number: nat, ps: seq<(bytes, bytes)>, qs: seq<(bytes, bytes)>)
    ensures EntryRecords(number, ps) == EntryRecords(number, qs) <==> ps == qs
  {
    var (p, q) := (EntryRecords(number, ps), EntryRecords(number, qs));
    if p == q {
      forall i | 0 <= i < |ps|
        ensures ps[i] == qs[i]
      {
        assert p[i] == q[i];
        EntryBytesInjective(ps[i], qs[i]);
      }
    }
  }

  /** Repeated messages keep their order and their empty elements. */
  lemma {:induction false} NestedListIff(S: Schemas, f: Field, a: Message, b: Message)
    requires WellFormed(S) && Kept(f) && FieldTyped(S, f, a) && FieldTyped(S, f, b)
    requires f.kind.RepeatedMessageKind?
    requires FieldRecords(S, f, a) != [] && FieldRecords(S, f, b) != []
    ensures SameField(S, f, a, b) <==> SameNormal(S, f, a, b)
    decreases a, 0
  {
    var schema := f.kind.schema;
    var (xs, ys) := (Get(a, f.name).ms, Get(b, f.name).ms);
    var (p, q) := (FieldRecords(S, f, a), FieldRecords(S, f, b));
    var (n, k) := (NormalField(S, f, a).value.ms, NormalField(S, f, b).value.ms);
    if |xs| == |ys| {
      forall i | 0 <= i < |xs|
        ensures p[i] == q[i] <==> n[i] == k[i]
      {
        CanonicalIffNormal(S, schema, xs[i], ys[i]);
      }
      assert p == q ==> n == k;
      assert n == k ==> p == q;
    }
  }

  predicate IsScalar(k: Kind)
  {
    k.UintKind? || k.EnumKind? || k.IntKind? || k.BoolKind? || k.StringKind? || k.BytesKind?
  }

  lemma ScalarIff(S: Schemas, f: Field, a: Message, b: Message)
    requires WellFormed(S) && Kept(f) && IsScalar(f.kind) && FieldTyped(S, f, a) && FieldTyped(S, f, b)
    requires FieldRecords(S, f, a) != [] && FieldRecords(S, f, b) != []
    ensures SameField(S, f, a, b) <==> SameNormal(S, f, a, b)
  {
    var (v, w) := (Get(a, f.name), Get(b, f.name));
    match f.kind {
      case IntKind =>
        Varint.Wrapped(v.n);
        Varint.Wrapped(w.n);
      case StringKind => Utf8.EncodeInjective(v.s, w.s);
      case _ =>
    }
  }

  lemma CollectionIff(S: Schemas, f: Field, a: Message, b: Message)
    requires WellFormed(S) && Kept(f) && (f.kind.RepeatedStringKind? || f.kind.MapKind?)
    requires FieldTyped(S, f, a) && FieldTyped(S, f, b)
    requires FieldRecords(S, f, a) != [] && FieldRecords(S, f, b) != []
    ensures SameField(S, f, a, b) <==> SameNormal(S, f, a, b)
  {
    var (v, w) := (Get(a, f.name), Get(b, f.name));
    if f.kind.MapKind? {
      EntriesIff(f.number, Dictionary.Sorted(v.es), Dictionary.Sorted(w.es));
      Dictionary.SortedIffSameMap(v.es, w.es);
    } else {
      TextsIff(f.number, v.ss, w.ss);
    }
  }

  /** The records of one field agree exactly when its normal values do. */
  lemma {:induction false} FieldIff(S: Schemas, f: Field, a: Message, b: Message)
    requires WellFormed(S) && (Kept(f) ==> FieldTyped(S, f, a) && FieldTyped(S, f, b))
    ensures SameField(S, f, a, b) <==> SameNormal(S, f, a, b)
    decreases a, 1
  {
    FieldEmptyIff(S, f, a);
    FieldEmptyIff(S, f, b);
    if FieldRecords(S, f, a) != [] && FieldRecords(S, f, b) != [] {
      if IsScalar(f.kind) {
        ScalarIff(S, f, a, b);
      } else {
        match f.kind {
          case MessageKind(schema) => CanonicalIffNormal(S, schema, Get(a, f.name).m, Get(b, f.name).m);
          case RepeatedMessageKind(_) => NestedListIff(S, f, a, b);
          case _ => CollectionIff(S, f, a, b);
        }
      }
    }
  }

  /**
   The law of the encoder: equal canonical bytes exactly for messages that agree after
   dropping signatures and derived hashes at every depth, defaults, and single nested
   messages that become empty; dict order is immaterial, list order and empty list
   elements are kept.
   */
  lemma {:induction false} CanonicalIffNormal(S: Schemas, name: string, a: Message, b: Message)
    requires WellFormed(S) && WellTyped(S, name, a) && WellTyped(S, name, b)
    ensures Canonical(S, name, a) == Canonical(S, name, b) <==> Normal(S, name, a) == Normal(S, name, b)
    decreases a, 2
  {
    CanonicalIffFields(S, name, a, b);
    NormalIffFields(S, name, a, b);
    forall f | f in S[name]
      ensures SameField(S, f, a, b) <==> SameNormal(S, f, a, b)
    {
      FieldIff(S, f, a, b);
    }
  }
}
