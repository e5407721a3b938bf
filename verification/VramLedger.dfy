/**
 The VRAM limiting shim: a table of live blocks, the accounted use and its peak, changed
 under one lock. `size_t` arithmetic wraps at 2^64, as in C. The driver's answer to an
 allocation is an input; a pointer it hands out is one it is not holding, and the table
 only names pointers the driver still holds.
 */
module VramLedger {
  import opened Common

  const MAX_LIVE: nat := 4096
  const CUDA_ERROR_OUT_OF_MEMORY: int := 2

  type Size = n: int | 0 <= n < 0x1_0000_0000_0000_0000

  datatype Block = Block(p: int, n: Size)

  /** The shim's globals, and the bytes of blocks that found no room in the table. */
  datatype Ledger = Ledger(live: seq<Block>, used: Size, peak: Size, limit: Size, dropped: nat)

  function Sum(s: seq<Block>): (r: nat)
  {
    if s == [] then 0 else s[0].n + Sum(s[1..])
  }

  /** The bytes really handed out and not given back. */
  function Exact(s: Ledger): (r: nat)
  {
    Sum(s.live) + s.dropped
  }

  /** Position of the first block at `p`, or the length of the table. */
  function Find(live: seq<Block>, p: int): (i: nat)
    ensures i <= |live|
    ensures i < |live| ==> live[i].p == p
    ensures forall j :: 0 <= j < i ==> live[j].p != p
  {
    if live == [] then 0 else if live[0].p == p then 0 else 1 + Find(live[1..], p)
  }

  function SwapRemove(s: seq<Block>, i: nat): (r: seq<Block>)
    requires i < |s|
    ensures |r| == |s| - 1
  {
    s[i := s[|s| - 1]][..|s| - 1]
  }

  /** What `cuMemAlloc_v2` does when the driver would answer `rc` and `p`. */
  function AllocStep(s: Ledger, bytes: Size, rc: int, p: int): (r: (Ledger, int))
  {
    var total := (s.used + bytes) % TWO_64;
    if s.limit != 0 && total > s.limit then (s, CUDA_ERROR_OUT_OF_MEMORY)
    else if rc != 0 then (s, rc)
    else
      var s' := if |s.live| < MAX_LIVE then s.(live := s.live + [Block(p, bytes)])
          else s.(dropped := s.dropped + bytes);
      (s'.(used := total, peak := if total > s.peak then total else s.peak), 0)
  }

  /** What `cuMemFree_v2` does to the ledger. */
  function FreeStep(s: Ledger, p: int): (r: Ledger)
  {
    var i := Find(s.live, p);
    if i < |s.live| then s.(live := SwapRemove(s.live, i), used := (s.used - s.live[i].n) % TWO_64) else s
  }

  class Shim {
    const live: array<Block>
    var liveN: nat
    var used: Size
    var peak: Size
    var limit: Size
    var inited: bool
    const configured: Size  // the limit in the environment, read at the first call
    ghost var dropped: nat

    ghost predicate Valid()
      reads this
    {
      live.Length == MAX_LIVE && liveN <= MAX_LIVE && (inited ==> limit == configured)
    }

    ghost function State(): (s: Ledger)
      reads this, live
      requires Valid()
    {
      Ledger(live[..liveN], used, peak, configured, dropped)
    }

    constructor (configured: Size)
      ensures Valid() && State() == Ledger([], 0, 0, configured, 0)
    {
      live := new Block[MAX_LIVE](_ => Block(0, 0));
      this.configured := configured;
      liveN, used, peak, limit, inited, dropped := 0, 0, 0, 0, false, 0;
    }

    method InitLocked()
      requires Valid()
      modifies this`limit, this`inited
      ensures Valid() && inited
    {
      if !inited {
        inited := true;
        limit := configured;
      }
    }

    method Alloc(bytes: Size, driverRc: int, driverPtr: int) returns (rc: int)
      requires Valid()
      modifies this, live
      ensures Valid()
      ensures (State(), rc) == AllocStep(old(State()), bytes, driverRc, driverPtr)
      // Over the limit the answer is CUDA's "out of memory"; the table takes 4096 blocks.
      ensures configured != 0 && (old(used) + bytes) % 0x1_0000_0000_0000_0000 > configured ==>
                rc == 2 && State() == old(State())
      ensures rc == 0 && old(liveN) < 4096 ==>
                State().live == old(State()).live + [Block(driverPtr, bytes)] && dropped == old(dropped)
      ensures rc == 0 && old(liveN) >= 4096 ==>
                State().live == old(State()).live && dropped == old(dropped) + bytes
    {
      InitLocked();
      if limit != 0 && (used + bytes) % TWO_64 > limit {
        return CUDA_ERROR_OUT_OF_MEMORY;
      }
      rc := driverRc;
      if rc == 0 {
        if liveN < MAX_LIVE {
          live[liveN] := Block(driverPtr, bytes);
          liveN := liveN + 1;
          assert live[..liveN] == old(live[..liveN]) + [Block(driverPtr, bytes)];
        } else {
          dropped := dropped + bytes;
        }
        used := (used + bytes) % TWO_64;
        if used > peak {
          peak := used;
        }
      }
    }

    /** The linear search through the table. */
    method FindLive(p: int) returns (i: nat)
      requires Valid()
      ensures i == Find(live[..liveN], p)
    {
      i := 0;
      while i < liveN
        invariant i <= liveN
        invariant forall j :: 0 <= j < i ==> live[j].p != p
      {
        if live[i].p == p {
          FindUnique(live[..liveN], p, i);
          return;
        }
        i := i + 1;
      }
      assert Find(live[..liveN], p) == |live[..liveN]|;
    }

    method Free(p: int)
      requires Valid()
      modifies this, live
      ensures Valid() && State() == FreeStep(old(State()), p)
    {
      InitLocked();
      ghost var table := live[..liveN];
      var i := FindLive(p);
      if i < liveN {
        used := (used - live[i].n) % TWO_64;
        liveN := liveN - 1;
        live[i] := live[liveN];
        assert live[..liveN] == SwapRemove(table, i);
      }
    }
  }

  lemma FindUnique(s: seq<Block>, p: int, i: nat)
    requires i < |s| && s[i].p == p && forall j :: 0 <= j < i ==> s[j].p != p
    ensures Find(s, p) == i
  {
  }

  // ---------------------------------------------------------------- every run

  datatype Call = AllocCall(bytes: Size, rc: int, p: int) | FreeCall(p: int)

  ghost predicate Distinct(s: seq<Block>)
  {
    forall i, j :: 0 <= i < j < |s| ==> s[i].p != s[j].p
  }

  ghost predicate Names(s: seq<Block>, p: int)
  {
    exists i :: 0 <= i < |s| && s[i].p == p
  }

  function Next(s: Ledger, c: Call): (r: Ledger)
  {
    match c
    case AllocCall(bytes, rc, p) => AllocStep(s, bytes, rc, p).0
    case FreeCall(p) => FreeStep(s, p)
  }

  /** The driver never hands out a pointer the table still names. */
  ghost predicate DriverHonest(s: Ledger, c: Call)
  {
    c.AllocCall? && c.rc == 0 ==> !Names(s.live, c.p)
  }

  ghost predicate Accounted(s: Ledger)
  {
    && |s.live| <= MAX_LIVE
    && Distinct(s.live)
    && s.used == Exact(s) % TWO_64
    && (s.limit != 0 ==> s.peak <= s.limit)
  }

  lemma {:induction false} SumAppend(s: seq<Block>, b: Block)
    ensures Sum(s + [b]) == Sum(s) + b.n
  {
    if s != [] {
      assert (s + [b])[1..] == s[1..] + [b];
      SumAppend(s[1..], b);
    }
  }

  lemma {:induction false} SumUpdate(s: seq<Block>, i: nat, b: Block)
    requires i < |s|
    ensures Sum(s[i := b]) == Sum(s) - s[i].n + b.n
  {
    if i == 0 {
      assert s[0 := b][1..] == s[1..];
    } else {
      assert s[i := b][1..] == s[1..][i - 1 := b];
      SumUpdate(s[1..], i - 1, b);
    }
  }

  lemma SumSwapRemove(s: seq<Block>, i: nat)
    requires i < |s|
    ensures Sum(SwapRemove(s, i)) == Sum(s) - s[i].n
  {
    var last := s[|s| - 1];
    SumUpdate(s, i, last);
    DropLast(s[i := last]);
    assert s[i := last][|s| - 1] == last;
  }

  lemma DropLast(t: seq<Block>)
    requires t != []
    ensures Sum(t) == Sum(t[..|t| - 1]) + t[|t| - 1].n
  {
    assert t == t[..|t| - 1] + [t[|t| - 1]];
    SumAppend(t[..|t| - 1], t[|t| - 1]);
  }

  lemma WrapAdd(x: int, y: int)
    ensures (x % TWO_64 + y) % TWO_64 == (x + y) % TWO_64
  {
  }

  lemma FreeKeeps(s: Ledger, p: int)
    requires Accounted(s)
    ensures Accounted(FreeStep(s, p)) && Exact(FreeStep(s, p)) <= Exact(s)
  {
    var i := Find(s.live, p);
    if i < |s.live| {
      SumSwapRemove(s.live, i);
      WrapAdd(Exact(s), 0 - s.live[i].n);
      assert Distinct(SwapRemove(s.live, i));
    }
  }

  lemma AllocKeeps(s: Ledger, bytes: Size, rc: int, p: int)
    requires Accounted(s) && DriverHonest(s, AllocCall(bytes, rc, p))
    ensures Accounted(AllocStep(s, bytes, rc, p).0)
  {
    SumAppend(s.live, Block(p, bytes));
    WrapAdd(Exact(s), bytes);
    if rc == 0 {
      assert Distinct(s.live + [Block(p, bytes)]) by {
        forall i | 0 <= i < |s.live|
          ensures s.live[i].p != p
        {
          assert !Names(s.live, p);
        }
      }
    }
  }

  /** A run of locked calls, every one answered by an honest driver. */
  ghost predicate IsRun(states: seq<Ledger>, calls: seq<Call>, limit: Size)
  {
    && |states| == |calls| + 1
    && states[0] == Ledger([], 0, 0, limit, 0)
    && forall i :: 0 <= i < |calls| ==> StepAt(states, calls, i)
  }

  ghost predicate StepAt(states: seq<Ledger>, calls: seq<Call>, i: nat)
    requires i < |calls| && |states| == |calls| + 1
  {
    DriverHonest(states[i], calls[i]) && states[i + 1] == Next(states[i], calls[i])
  }

  /**
   In every run the accounted use is the exact use modulo 2^64, live pointers stay
   distinct and, under a limit, no peak passes it.
   */
  lemma {:induction false} RunAccounted(states: seq<Ledger>, calls: seq<Call>, limit: Size, k: nat)
    requires IsRun(states, calls, limit) && k < |states|
    ensures Accounted(states[k]) && states[k].limit == limit
  {
    if k > 0 {
      RunAccounted(states, calls, limit, k - 1);
      var (s, c) := (states[k - 1], calls[k - 1]);
      assert StepAt(states, calls, k - 1);
      match c
      case AllocCall(bytes, rc, p) => AllocKeeps(s, bytes, rc, p);
      case FreeCall(p) => FreeKeeps(s, p);
    }
  }

  lemma RunPeakWithinLimit(states: seq<Ledger>, calls: seq<Call>, limit: Size, k: nat)
    requires IsRun(states, calls, limit) && k < |states|
    ensures limit != 0 ==> states[k].peak <= limit
  {
    RunAccounted(states, calls, limit, k);
  }

  /**
   As long as the exact use has stayed below 2^64, the accounted use is the exact use and
   has never been above the peak, so never above the limit.
   */
  lemma RunWithinLimit(states: seq<Ledger>, calls: seq<Call>, limit: Size, k: nat)
    requires IsRun(states, calls, limit) && k < |states|
    requires forall i :: 0 <= i <= k ==> Fits(states[i])
    ensures states[k].used == Exact(states[k]) <= states[k].peak
    ensures limit != 0 ==> Exact(states[k]) <= limit
  {
    RunExact(states, calls, limit, k);
    RunPeakWithinLimit(states, calls, limit, k);
  }

  lemma {:induction false} RunExact(states: seq<Ledger>, calls: seq<Call>, limit: Size, k: nat)
    requires IsRun(states, calls, limit) && k < |states|
    requires forall i :: 0 <= i <= k ==> Fits(states[i])
    ensures ExactlyAccounted(states[k])
  {
    if k > 0 {
      RunExact(states, calls, limit, k - 1);
      RunStepExact(states, calls, limit, k);
    }
  }

  lemma RunStepExact(states: seq<Ledger>, calls: seq<Call>, limit: Size, k: nat)
    requires IsRun(states, calls, limit) && 0 < k < |states|
    requires ExactlyAccounted(states[k - 1]) && Fits(states[k])
    ensures ExactlyAccounted(states[k])
  {
    RunAccounted(states, calls, limit, k - 1);
    assert StepAt(states, calls, k - 1);
    StepExact(states[k - 1], calls[k - 1], states[k]);
  }

  ghost predicate Fits(s: Ledger)
  {
    Exact(s) < TWO_64
  }

  ghost predicate ExactlyAccounted(s: Ledger)
  {
    s.used == Exact(s) <= s.peak
  }

  lemma StepExact(s: Ledger, c: Call, s': Ledger)
    requires Accounted(s) && DriverHonest(s, c) && s' == Next(s, c)
    requires ExactlyAccounted(s) && Fits(s')
    ensures ExactlyAccounted(s')
  {
    match c
    case AllocCall(bytes, rc, p) =>
      AllocKeeps(s, bytes, rc, p);
      SumAppend(s.live, Block(p, bytes));
    case FreeCall(p) =>
      FreeKeeps(s, p);
  }

  /** The accounted use is the exact one if and only if the exact one fits `size_t`. */
  lemma ExactIffFits(s: Ledger)
    requires Accounted(s)
    ensures s.used == Exact(s) <==> Exact(s) < TWO_64
  {
  }

  const ONE_MIB: int := 0x10_0000

  /**
   Once it does not fit, even a free can push the accounted use over the limit - here one MiB,
   the smallest that can be set. It takes a driver that grants a request of almost 2^64 bytes.
   */
  lemma WrapBreaksLimit() returns (states: seq<Ledger>, calls: seq<Call>)
    ensures IsRun(states, calls, ONE_MIB)
    ensures states[|states| - 1].used > states[|states| - 1].limit
  {
    calls := [AllocCall(5, 0, 1), AllocCall(TWO_64 - 3, 0, 2), FreeCall(1)];
    var s0 := Ledger([], 0, 0, ONE_MIB, 0);
    var s1 := Ledger([Block(1, 5)], 5, 5, ONE_MIB, 0);
    var s2 := Ledger([Block(1, 5), Block(2, TWO_64 - 3)], 2, 5, ONE_MIB, 0);
    var s3 := Ledger([Block(2, TWO_64 - 3)], TWO_64 - 3, 5, ONE_MIB, 0);
    assert Next(s0, calls[0]) == s1;
    assert Next(s1, calls[1]) == s2;
    assert Find(s2.live, 1) == 0;
    assert Next(s2, calls[2]) == s3;
    states := [s0, s1, s2, s3];
  }
}
