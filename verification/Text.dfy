/** Substring search and `str::replace`, with a criterion for text that a replacement removes for good. */
module Text {

  predicate OccursAt(s: string, p: string, i: nat)
  {
    i + |p| <= |s| && s[i..i + |p|] == p
  }

  predicate Contains(s: string, p: string)
  {
    exists i :: 0 <= i <= |s| && OccursAt(s, p, i)
  }

  /** Every non-overlapping occurrence of `from`, left to right, becomes `to`. */
  function Replace(s: string, from: string, to: string): (r: string)
    requires from != ""
    decreases |s|
  {
    if |s| < |from| then s
    else if s[..|from|] == from then to + Replace(s[|from|..], from, to)
    else [s[0]] + Replace(s[1..], from, to)
  }

  ghost predicate Disjoint(s: string, p: string)
  {
    forall c :: c in s ==> c !in p
  }

  /** No occurrence of `p` can begin inside `y`, whatever follows `y`. */
  ghost predicate NoStart(y: string, p: string)
  {
    forall j :: 0 <= j < |y| ==> Clashes(y, p, j)
  }

  ghost predicate Clashes(y: string, p: string, j: nat)
  {
    exists k :: 0 <= k < |p| && j + k < |y| && y[j + k] != p[k]
  }

  /**
   Replacing `from` by `x + sep + y` cannot bring `p` about: `x` only begins `from` and is
   too short for `p`, `sep` has none of its characters, and `p` cannot begin in `y`.
   */
  ghost predicate Defused(from: string, x: string, sep: string, y: string, p: string)
  {
    x <= from && |x| < |p| && sep != "" && Disjoint(sep, p) && NoStart(y, p)
  }

  /** A beginning of the output free of `sep` was already a beginning of the input. */
  lemma {:induction false} PrefixUnchanged(s: string, from: string, x: string, sep: string, y: string, w: string)
    requires from != "" && x <= from && sep != "" && Disjoint(sep, w)
    requires w <= Replace(s, from, x + sep + y)
    ensures w <= s
    decreases |s|
  {
    if |s| >= |from| && w != "" {
      var out := Replace(s, from, x + sep + y);
      if s[..|from|] == from {
        assert out[..|x|] == x && out[|x|] == sep[0];
        if |w| > |x| {
          SepInPrefix(w, out, x, sep);
          assert false;
        }
        assert w == out[..|w|] == x[..|w|] == from[..|w|] == s[..|w|];
      } else {
        assert out[1..] == Replace(s[1..], from, x + sep + y);
        PrefixUnchanged(s[1..], from, x, sep, y, w[1..]);
        assert s == [s[0]] + s[1..];
      }
    }
  }

  /** Text in front that lacks a character of `p`, and ends in one foreign to `p`, adds no occurrence. */
  lemma PrependAbsent(a: string, b: string, p: string, c: char)
    requires !Contains(b, p) && c in p && c !in a
    requires a != "" && a[|a| - 1] !in p
    ensures !Contains(a + b, p)
  {
    var m :| 0 <= m < |p| && p[m] == c;
    forall i | 0 <= i < |a|
      ensures !OccursAt(a + b, p, i)
    {
      if i + m < |a| {
        assert (a + b)[i + m] in a;
        Mismatch(a + b, p, i, m);
      } else {
        assert p[|a| - 1 - i] in p;
        Mismatch(a + b, p, i, |a| - 1 - i);
      }
    }
    ConcatAbsent(a, b, p);
  }

  lemma SepInPrefix(w: string, out: string, x: string, sep: string)
    requires w <= out && |x| < |w| && sep != "" && out[|x|] == sep[0]
    ensures !Disjoint(sep, w)
  {
    assert w[|x|] == sep[0] && sep[0] in sep && w[|x|] in w;
  }

  /** An occurrence in `a + b` begins in `a` or lies in `b`. */
  lemma ConcatAbsent(a: string, b: string, p: string)
    requires !Contains(b, p) && forall i :: 0 <= i < |a| ==> !OccursAt(a + b, p, i)
    ensures !Contains(a + b, p)
  {
    forall i | |a| <= i <= |a + b|
      ensures !OccursAt(a + b, p, i)
    {
      assert !OccursAt(b, p, i - |a|);
    }
  }

  /** No occurrence of `p` begins inside the replacement text. */
  lemma NotInReplacement(from: string, x: string, sep: string, y: string, p: string, rest: string, i: nat)
    requires Defused(from, x, sep, y, p) && i < |x + sep + y|
    ensures !OccursAt(x + sep + y + rest, p, i)
  {
    var s := x + sep + y + rest;
    if i < |x| + |sep| {
      var m := if i < |x| then |x| - i else 0;
      assert s[i + m] == sep[i + m - |x|];
      assert sep[i + m - |x|] in sep;
      assert m < |p| && p[m] in p && s[i + m] != p[m];
      Mismatch(s, p, i, m);
    } else {
      var j := i - |x| - |sep|;
      assert Clashes(y, p, j);
      var k :| 0 <= k < |p| && j + k < |y| && y[j + k] != p[k];
      assert s[i + k] == y[j + k];
      Mismatch(s, p, i, k);
    }
  }

  lemma Mismatch(s: string, p: string, i: nat, k: nat)
    requires k < |p| && i + k < |s| && s[i + k] != p[k]
    ensures !OccursAt(s, p, i)
  {
    assert i + |p| <= |s| ==> s[i..i + |p|][k] == s[i + k];
  }

  /** After the replacement `p` is absent if it was absent before, or if it is what was replaced. */
  lemma {:induction false} ReplaceRemoves(s: string, from: string, x: string, sep: string, y: string, p: string)
    requires from != "" && Defused(from, x, sep, y, p)
    requires p == from || !Contains(s, p)
    ensures !Contains(Replace(s, from, x + sep + y), p)
    decreases |s|
  {
    var to := x + sep + y;
    if |s| < |from| {
      assert p == from ==> forall i :: 0 <= i <= |s| ==> !OccursAt(s, p, i);
    } else if s[..|from|] == from {
      var rest := s[|from|..];
      assert s == s[..|from|] + rest;
      TailAbsent(s[..|from|], rest, from, p);
      ReplaceRemoves(rest, from, x, sep, y, p);
      var out := Replace(rest, from, to);
      forall i | 0 <= i < |to|
        ensures !OccursAt(to + out, p, i)
      {
        NotInReplacement(from, x, sep, y, p, out, i);
      }
      ConcatAbsent(to, out, p);
    } else {
      assert s == [s[0]] + s[1..];
      TailAbsent([s[0]], s[1..], from, p);
      ReplaceRemoves(s[1..], from, x, sep, y, p);
      HeadAbsent(s, from, x, sep, y, p);
      ConcatAbsent([s[0]], Replace(s[1..], from, to), p);
    }
  }

  lemma HeadAbsent(s: string, from: string, x: string, sep: string, y: string, p: string)
    requires from != "" && Defused(from, x, sep, y, p)
    requires p == from || !Contains(s, p)
    requires |s| >= |from| && s[..|from|] != from
    ensures !OccursAt(Replace(s, from, x + sep + y), p, 0)
  {
    var out := Replace(s, from, x + sep + y);
    if OccursAt(out, p, 0) {
      assert p == out[..|p|];
      PrefixUnchanged(s, from, x, sep, y, p);
      assert OccursAt(s, p, 0);
      assert false;
    }
  }

  lemma TailAbsent(head: string, rest: string, from: string, p: string)
    requires p == from || !Contains(head + rest, p)
    ensures p == from || !Contains(rest, p)
  {
    if Contains(rest, p) && p != from {
      var i :| 0 <= i <= |rest| && OccursAt(rest, p, i);
      assert (head + rest)[|head| + i..|head| + i + |p|] == rest[i..i + |p|];
      assert OccursAt(head + rest, p, |head| + i);
    }
  }
}
