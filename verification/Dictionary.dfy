/**
 A Python dict of strings, as the sequence of its entries in insertion order, and the
 order the encoder puts them in: ascending by the UTF-8 bytes of the key.
 */
module Dictionary {
  import opened Common
  import Sorting
  import Utf8

  type Entries = seq<(string, string)>

  ghost predicate DistinctKeys(es: Entries)
  {
    forall i, j :: 0 <= i < j < |es| ==> es[i].0 != es[j].0
  }

  /** The dict the entries build, a later entry overriding an earlier one. */
  ghost function AsMap(es: Entries): (m: map<string, string>)
  {
    if es == [] then map[] else map[es[0].0 := es[0].1] + AsMap(es[1..])
  }

  ghost predicate Maps(m: map<string, string>, k: string, v: string)
  {
    k in m && m[k] == v
  }

  /** Python's order on `bytes`. */
  predicate Less(a: bytes, b: bytes)
  {
    b != [] && (a == [] || a[0] < b[0] || (a[0] == b[0] && Less(a[1..], b[1..])))
  }

  function Pair(e: (string, string)): (r: (bytes, bytes))
  {
    (Utf8.Encode(e.0), Utf8.Encode(e.1))
  }

  function Pairs(es: Entries): (r: seq<(bytes, bytes)>)
    ensures |r| == |es| && forall i :: 0 <= i < |es| ==> r[i] == Pair(es[i])
  {
    seq(|es|, i requires 0 <= i < |es| => Pair(es[i]))
  }

  const ByKey: ((bytes, bytes), (bytes, bytes)) -> bool := (p: (bytes, bytes), q: (bytes, bytes)) => Less(p.0, q.0)

  /** The entries as bytes, in the order they are encoded. */
  function Sorted(es: Entries): (r: seq<(bytes, bytes)>)
  {
    Sorting.Sort(Pairs(es), ByKey)
  }

  lemma {:induction false} LessTransitive(a: bytes, b: bytes, c: bytes)
    requires Less(a, b) && Less(b, c)
    ensures Less(a, c)
  {
    if a != [] && a[0] == b[0] == c[0] {
      LessTransitive(a[1..], b[1..], c[1..]);
    }
  }

  lemma {:induction false} LessIrreflexive(a: bytes)
    ensures !Less(a, a)
  {
    if a != [] {
      LessIrreflexive(a[1..]);
    }
  }

  lemma {:induction false} LessTotal(a: bytes, b: bytes)
    ensures a == b || Less(a, b) || Less(b, a)
  {
    if a != [] && b != [] && a[0] == b[0] {
      LessTotal(a[1..], b[1..]);
      assert a == [a[0]] + a[1..] && b == [b[0]] + b[1..];
    }
  }

  lemma ByKeyStrict()
    ensures Sorting.StrictOrder(ByKey)
  {
    forall p: (bytes, bytes)
      ensures !ByKey(p, p)
    {
      LessIrreflexive(p.0);
    }
    forall p: (bytes, bytes), q: (bytes, bytes), r: (bytes, bytes) | ByKey(p, q) && ByKey(q, r)
      ensures ByKey(p, r)
    {
      LessTransitive(p.0, q.0, r.0);
    }
  }

  lemma SortedAscending(es: Entries)
    requires DistinctKeys(es)
    ensures Sorting.Ascending(Sorted(es), ByKey)
  {
    var ps := Pairs(es);
    forall i, j | 0 <= i < j < |ps|
      ensures ByKey(ps[i], ps[j]) || ByKey(ps[j], ps[i])
    {
      Utf8.EncodeInjective(es[i].0, es[j].0);
      LessTotal(ps[i].0, ps[j].0);
    }
    ByKeyStrict();
    Sorting.SortAscending(ps, ByKey);
  }

  lemma PairInjective(e: (string, string), d: (string, string))
    ensures Pair(e) == Pair(d) <==> e == d
  {
    Utf8.EncodeInjective(e.0, d.0);
    Utf8.EncodeInjective(e.1, d.1);
  }

  lemma SortedMember(es: Entries, e: (string, string))
    ensures Pair(e) in Sorted(es) <==> e in es
  {
    assert Pair(e) in Sorted(es) <==> Pair(e) in Pairs(es);
    if e in es {
      var i :| 0 <= i < |es| && es[i] == e;
      assert Pairs(es)[i] == Pair(e);
    }
    if Pair(e) in Pairs(es) {
      var i :| 0 <= i < |es| && Pairs(es)[i] == Pair(e);
      PairInjective(es[i], e);
    }
  }

  lemma {:induction false} MapMember(es: Entries, k: string, v: string)
    requires DistinctKeys(es)
    ensures (k, v) in es <==> Maps(AsMap(es), k, v)
    ensures k in AsMap(es) ==> exists i :: 0 <= i < |es| && es[i].0 == k
  {
    if es != [] {
      assert es == [es[0]] + es[1..];
      MapMember(es[1..], k, v);
      if k in AsMap(es[1..]) {
        var i :| 0 <= i < |es[1..]| && es[1..][i].0 == k;
        assert es[i + 1].0 == k;
      } else if (k, v) in es[1..] {
        assert false;
      }
    }
  }

  /** Two dicts are encoded in the same entries exactly when they are equal, whatever their insertion order. */
  lemma SortedIffSameMap(a: Entries, b: Entries)
    requires DistinctKeys(a) && DistinctKeys(b)
    ensures Sorted(a) == Sorted(b) <==> AsMap(a) == AsMap(b)
  {
    if Sorted(a) == Sorted(b) {
      forall k, v
        ensures Maps(AsMap(a), k, v) <==> Maps(AsMap(b), k, v)
      {
        MapMember(a, k, v);
        MapMember(b, k, v);
        SortedMember(a, (k, v));
        SortedMember(b, (k, v));
      }
      SameMembers(AsMap(a), AsMap(b));
    }
    if AsMap(a) == AsMap(b) {
      forall p
        ensures p in Sorted(a) <==> p in Sorted(b)
      {
        if p in Sorted(a) { MemberMoves(a, b, p); }
        if p in Sorted(b) { MemberMoves(b, a, p); }
      }
      SortedAscending(a);
      SortedAscending(b);
      ByKeyStrict();
      Sorting.AscendingUnique(Sorted(a), Sorted(b), ByKey);
    }
  }

  lemma SameMembers(m: map<string, string>, n: map<string, string>)
    requires forall k, v :: Maps(m, k, v) <==> Maps(n, k, v)
    ensures m == n
  {
    forall k | k in m
      ensures k in n && m[k] == n[k]
    {
      assert Maps(m, k, m[k]);
    }
    forall k | k in n
      ensures k in m
    {
      assert Maps(n, k, n[k]);
    }
  }

  lemma MemberMoves(a: Entries, b: Entries, p: (bytes, bytes))
    requires DistinctKeys(a) && DistinctKeys(b) && AsMap(a) == AsMap(b)
    requires p in Sorted(a)
    ensures p in Sorted(b)
  {
    assert p in Pairs(a);
    var i :| 0 <= i < |a| && Pairs(a)[i] == p;
    var (k, v) := a[i];
    assert (k, v) in a;
    MapMember(a, k, v);
    MapMember(b, k, v);
    SortedMember(b, (k, v));
  }
}
