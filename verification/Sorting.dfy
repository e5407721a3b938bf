/**
 Sorting by a strict order. The callers sort sequences whose elements are pairwise
 comparable, so the result is strictly ascending and is the only such arrangement.
 */
module Sorting {

  ghost predicate StrictOrder<T(!new)>(less: (T, T) -> bool)
  {
    && (forall x :: !less(x, x))
    && (forall x, y, z :: less(x, y) && less(y, z) ==> less(x, z))
  }

  ghost predicate Ascending<T>(s: seq<T>, less: (T, T) -> bool)
  {
    forall i, j :: 0 <= i < j < |s| ==> less(s[i], s[j])
  }

  /** Any two positions hold comparable elements; in particular there are no duplicates. */
  ghost predicate Comparable<T>(s: seq<T>, less: (T, T) -> bool)
  {
    forall i, j :: 0 <= i < j < |s| ==> less(s[i], s[j]) || less(s[j], s[i])
  }

  ghost predicate SameElements<T(!new)>(s: seq<T>, t: seq<T>)
  {
    forall x :: x in s <==> x in t
  }

  function Insert<T(!new)>(x: T, s: seq<T>, less: (T, T) -> bool): (r: seq<T>)
    ensures forall y :: y in r <==> y == x || y in s
    ensures |r| == |s| + 1
  {
    if s == [] then [x]
    else if less(x, s[0]) then [x] + s
    else
      var rest := Insert(x, s[1..], less);
      assert s == [s[0]] + s[1..];
      [s[0]] + rest
  }

  function Sort<T(!new)>(s: seq<T>, less: (T, T) -> bool): (r: seq<T>)
    ensures SameElements(r, s)
    ensures |r| == |s|
  {
    if s == [] then []
    else
      assert s == [s[0]] + s[1..];
      Insert(s[0], Sort(s[1..], less), less)
  }

  lemma {:induction false} InsertAscending<T(!new)>(x: T, s: seq<T>, less: (T, T) -> bool)
    requires StrictOrder(less) && Ascending(s, less)
    requires forall y :: y in s ==> less(x, y) || less(y, x)
    ensures Ascending(Insert(x, s, less), less)
  {
    if s != [] && !less(x, s[0]) {
      InsertAscending(x, s[1..], less);
      var rest := Insert(x, s[1..], less);
      forall j | 0 <= j < |rest|
        ensures less(s[0], rest[j])
      {
        assert rest[j] in rest;
      }
    }
  }

  lemma {:induction false} SortAscending<T(!new)>(s: seq<T>, less: (T, T) -> bool)
    requires StrictOrder(less) && Comparable(s, less)
    ensures Ascending(Sort(s, less), less)
  {
    if s != [] {
      SortAscending(s[1..], less);
      forall y | y in Sort(s[1..], less)
        ensures less(s[0], y) || less(y, s[0])
      {
        assert y in s[1..];
      }
      InsertAscending(s[0], Sort(s[1..], less), less);
    }
  }

  /** An ascending sequence is determined by its elements. */
  lemma {:induction false} AscendingUnique<T(!new)>(s: seq<T>, t: seq<T>, less: (T, T) -> bool)
    requires StrictOrder(less) && Ascending(s, less) && Ascending(t, less)
    requires SameElements(s, t)
    ensures s == t
  {
    if s == [] {
      FirstElement(t);
    } else {
      assert s[0] in t && t != [];
      assert t[0] in s;
      assert s[0] == t[0];
      forall x
        ensures x in s[1..] <==> x in t[1..]
      {
        TailElements(s, x, less);
        TailElements(t, x, less);
      }
      AscendingUnique(s[1..], t[1..], less);
    }
  }

  lemma FirstElement<T(!new)>(s: seq<T>)
    ensures s == [] || exists x :: x in s
  {
    if s != [] {
      assert s[0] in s;
    }
  }

  lemma TailElements<T(!new)>(s: seq<T>, x: T, less: (T, T) -> bool)
    requires StrictOrder(less) && Ascending(s, less) && s != []
    ensures x in s[1..] <==> x in s && x != s[0]
  {
    assert s == [s[0]] + s[1..];
    if x in s[1..] {
      var i :| 0 <= i < |s[1..]| && s[1..][i] == x;
      assert less(s[0], s[i + 1]);
    }
  }
}
