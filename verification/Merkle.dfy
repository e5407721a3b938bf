/**
 The Merkle root of a chunk list. Hashes are free constructors: a leaf hash is `Leaf`,
 an inner hash is `Node`, so "collision-free" is equality of trees. The loop pairs
 neighbours level by level and promotes an odd last node; the reference is the
 recursive split at the largest power of two below the length, the shape of
 section 2.1 of RFC 6962.
 */
module Merkle {
  import opened Common

  datatype Tree = Leaf(chunk: bytes) | Node(left: Tree, right: Tree)

  function Leaves(t: Tree): (r: seq<bytes>)
    ensures |r| >= 1
  {
    match t
    case Leaf(chunk) => [chunk]
    case Node(left, right) => Leaves(left) + Leaves(right)
  }

  function Hashed(chunks: seq<bytes>): (r: seq<Tree>)
  {
    seq(|chunks|, i requires 0 <= i < |chunks| => Leaf(chunks[i]))
  }

  ghost predicate PowerOfTwo(k: nat)
  {
    k == 1 || (k > 1 && k % 2 == 0 && PowerOfTwo(k / 2))
  }

  /** The largest power of two strictly below `n`. */
  function SplitPoint(n: nat): (k: nat)
    requires n >= 2
    ensures PowerOfTwo(k) && k < n <= 2 * k
  {
    if n == 2 then 1 else 2 * SplitPoint((n + 1) / 2)
  }

  lemma {:induction false} SplitPointUnique(n: nat, k: nat)
    requires n >= 2 && PowerOfTwo(k) && k < n <= 2 * k
    ensures k == SplitPoint(n)
  {
    if n > 2 {
      assert k > 1;
      SplitPointUnique((n + 1) / 2, k / 2);
    }
  }

  /** The reference tree over a non-empty row of subtrees. */
  function Split(row: seq<Tree>): (t: Tree)
    requires row != []
    decreases |row|
  {
    if |row| == 1 then row[0]
    else
      var k := SplitPoint(|row|);
      Node(Split(row[..k]), Split(row[k..]))
  }

  /** One level of the loop: neighbours are joined, an odd last node is promoted. */
  function Pair(row: seq<Tree>): (r: seq<Tree>)
    ensures |r| == (|row| + 1) / 2
  {
    if |row| < 2 then row else [Node(row[0], row[1])] + Pair(row[2..])
  }

  lemma {:induction false} PairAppend(s: seq<Tree>, t: seq<Tree>)
    requires |s| % 2 == 0
    ensures Pair(s + t) == Pair(s) + Pair(t)
  {
    if s == [] {
      assert s + t == t && Pair(s) + Pair(t) == Pair(t);
    } else {
      assert (s + t)[2..] == s[2..] + t;
      PairAppend(s[2..], t);
    }
  }

  /** Pairing a row does not change the tree above it. */
  lemma SplitPointHalves(n: nat)
    requires n > 2
    ensures SplitPoint(n) == 2 * SplitPoint((n + 1) / 2)
  {
  }

  lemma {:induction false} PairKeepsSplit(row: seq<Tree>)
    requires row != []
    ensures Split(Pair(row)) == Split(row)
    decreases |row|
  {
    if |row| == 2 {
      assert Pair(row) == [Node(row[0], row[1])] + Pair(row[2..]);
    } else if |row| > 2 {
      var k := SplitPoint(|row|);
      SplitPointHalves(|row|);
      PairHalves(row, k);
      PairKeepsSplit(row[..k]);
      PairKeepsSplit(row[k..]);
    }
  }

  lemma PairHalves(row: seq<Tree>, k: nat)
    requires k <= |row| && k % 2 == 0
    ensures Pair(row)[..k / 2] == Pair(row[..k]) && Pair(row)[k / 2..] == Pair(row[k..])
  {
    assert row == row[..k] + row[k..];
    PairAppend(row[..k], row[k..]);
  }

  /** `merkle_root_hex`. */
  method MerkleRoot(chunks: seq<bytes>) returns (root: Option<Tree>)
    ensures chunks == [] ==> root == None
    ensures chunks != [] ==> root == Some(Split(Hashed(chunks)))
  {
    if chunks == [] {
      return None;
    }
    var level := Hashed(chunks);
    while |level| > 1
      invariant level != [] && Split(level) == Split(Hashed(chunks))
      decreases |level|
    {
      PairKeepsSplit(level);
      level := NextLevel(level);
    }
    return Some(level[0]);
  }

  /** The inner loop over one level. */
  method NextLevel(level: seq<Tree>) returns (next: seq<Tree>)
    ensures next == Pair(level)
  {
    next := [];
    var i := 0;
    while i + 1 < |level|
      invariant 0 <= i <= |level| && i % 2 == 0
      invariant next == Pair(level[..i])
      decreases |level| - i
    {
      PairNext(level, i);
      next := next + [Node(level[i], level[i + 1])];
      i := i + 2;
    }
    if |level| % 2 == 1 {
      PairLast(level);
      next := next + [level[|level| - 1]];
    } else {
      assert level[..i] == level;
    }
  }

  lemma PairNext(level: seq<Tree>, i: nat)
    requires i + 1 < |level| && i % 2 == 0
    ensures Pair(level[..i + 2]) == Pair(level[..i]) + [Node(level[i], level[i + 1])]
  {
    var two := [level[i], level[i + 1]];
    assert level[..i + 2] == level[..i] + two;
    PairAppend(level[..i], two);
    assert two[2..] == [];
  }

  lemma PairLast(level: seq<Tree>)
    requires |level| % 2 == 1
    ensures Pair(level) == Pair(level[..|level| - 1]) + [level[|level| - 1]]
  {
    var last := [level[|level| - 1]];
    assert level == level[..|level| - 1] + last;
    PairAppend(level[..|level| - 1], last);
  }

  function LeavesOf(row: seq<Tree>): (r: seq<bytes>)
  {
    if row == [] then [] else Leaves(row[0]) + LeavesOf(row[1..])
  }

  lemma {:induction false} LeavesOfAppend(s: seq<Tree>, t: seq<Tree>)
    ensures LeavesOf(s + t) == LeavesOf(s) + LeavesOf(t)
  {
    if s == [] {
      assert s + t == t;
    } else {
      assert (s + t)[1..] == s[1..] + t;
      LeavesOfAppend(s[1..], t);
    }
  }

  lemma {:induction false} SplitLeaves(row: seq<Tree>)
    requires row != []
    ensures Leaves(Split(row)) == LeavesOf(row)
    decreases |row|
  {
    if |row| == 1 {
      assert row[1..] == [];
    } else {
      var k := SplitPoint(|row|);
      assert row == row[..k] + row[k..];
      LeavesOfAppend(row[..k], row[k..]);
      SplitLeaves(row[..k]);
      SplitLeaves(row[k..]);
    }
  }

  lemma {:induction false} HashedLeaves(chunks: seq<bytes>)
    ensures LeavesOf(Hashed(chunks)) == chunks
  {
    if chunks != [] {
      assert Hashed(chunks)[1..] == Hashed(chunks[1..]);
      HashedLeaves(chunks[1..]);
    }
  }

  /** The root holds the chunks as its leaves in order, so it determines the list. */
  lemma RootDeterminesChunks(a: seq<bytes>, b: seq<bytes>)
    requires a != [] && b != []
    ensures Leaves(Split(Hashed(a))) == a
    ensures Split(Hashed(a)) == Split(Hashed(b)) <==> a == b
  {
    SplitLeaves(Hashed(a));
    SplitLeaves(Hashed(b));
    HashedLeaves(a);
    HashedLeaves(b);
  }
}
