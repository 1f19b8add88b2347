/**
 Fixed-size block pools (kernel/mempool.c) on values: the free list as a sequence of block numbers, and runs of
 allocations and frees in which nobody frees a block twice.
 */
module PoolSpec {
  import opened KernelTypes
  import opened KernelSpec

  /** POOL_ALIGN_SIZE of a size, in 32-bit arithmetic. */
  function AlignSize(n: nat, P: nat): nat
    requires P > 0
  {
    var w: nat := (n + P - 1) % TWO32;
    w - w % P
  }

  /** The size every block gets: block_size rounded up to whole pointers of P bytes, and at least one. */
  function Stride(blockSize: nat, P: nat): nat
    requires P > 0
  {
    if AlignSize(blockSize, P) < P then P else AlignSize(blockSize, P)
  }

  /**
   It is a multiple of the pointer size with room for a pointer, and has room for the user's bytes exactly when the
   rounding does not wrap; then it is the smallest such multiple.
   */
  lemma StrideIsLeast(blockSize: nat, P: nat, s: nat)
    requires P in {4, 8} && blockSize < TWO32
    ensures Stride(blockSize, P) % P == 0 && P <= Stride(blockSize, P) < TWO32
    ensures Stride(blockSize, P) >= blockSize <==> blockSize + P - 1 < TWO32
    ensures blockSize + P - 1 < TWO32 && s % P == 0 && s >= P && s >= blockSize ==> Stride(blockSize, P) <= s
  {
    if P == 4 { StrideOf4(blockSize, s); } else { StrideOf8(blockSize, s); }
  }

  lemma StrideOf4(blockSize: nat, s: nat)
    requires blockSize < TWO32
    ensures Stride(blockSize, 4) % 4 == 0 && 4 <= Stride(blockSize, 4) < TWO32
    ensures Stride(blockSize, 4) >= blockSize <==> blockSize + 3 < TWO32
    ensures blockSize + 3 < TWO32 && s % 4 == 0 && s >= 4 && s >= blockSize ==> Stride(blockSize, 4) <= s
  {
  }

  lemma StrideOf8(blockSize: nat, s: nat)
    requires blockSize < TWO32
    ensures Stride(blockSize, 8) % 8 == 0 && 8 <= Stride(blockSize, 8) < TWO32
    ensures Stride(blockSize, 8) >= blockSize <==> blockSize + 7 < TWO32
    ensures blockSize + 7 < TWO32 && s % 8 == 0 && s >= 8 && s >= blockSize ==> Stride(blockSize, 8) <= s
  {
  }

  /** free_list as block numbers, total_blocks, min_free_count; `held` are the blocks handed out. */
  datatype Blocks = Blocks(free: seq<nat>, total: nat, minFree: nat, held: set<nat>)

  /** The free list os_mempool_create builds: the last block first. */
  function Descending(n: nat): seq<nat> {
    if n == 0 then [] else [n - 1] + Descending(n - 1)
  }

  function New(total: nat): Blocks {
    Blocks(Descending(total), total, total, {})
  }

  /** os_mempool_alloc */
  function Alloc(x: Blocks): Blocks {
    if x.free == [] then x
    else x.(free := x.free[1..], minFree := if |x.free| - 1 < x.minFree then |x.free| - 1 else x.minFree,
            held := x.held + {x.free[0]})
  }

  /** os_mempool_free of block k */
  function Free(x: Blocks, k: nat): Blocks {
    x.(free := [k] + x.free, held := x.held - {k})
  }

  datatype PoolOp = DoAlloc | DoFree(k: nat)

  /** The caller frees only what it holds. */
  predicate Enabled(x: Blocks, op: PoolOp) {
    op.DoFree? ==> op.k in x.held
  }

  function Step(x: Blocks, op: PoolOp): Blocks {
    match op
    case DoAlloc => Alloc(x)
    case DoFree(k) => Free(x, k)
  }

  /** The free list is without repetition and holds exactly the blocks that are not handed out. */
  ghost predicate PoolInv(x: Blocks) {
    && NoDup(x.free)
    && (forall k: nat :: k in x.free <==> k < x.total && k !in x.held)
    && (forall k: nat :: k in x.held ==> k < x.total)
  }

  lemma AllocInv(x: Blocks)
    requires PoolInv(x)
    ensures PoolInv(Alloc(x))
    ensures x.free != [] ==> x.free[0] !in x.held
  {
    if x.free != [] {
      NoDupTail(x.free);
      assert x.free == [x.free[0]] + x.free[1..];
      assert x.free[0] in x.free;
    }
  }

  lemma FreeInv(x: Blocks, k: nat)
    requires PoolInv(x) && k in x.held
    ensures PoolInv(Free(x, k))
  {
    FreeKeepsDistinctIff(x, k);
  }

  /**
   os_mempool_free checks bounds and alignment only: the list stays free of repetition exactly when k was not on it.
   */
  lemma FreeKeepsDistinctIff(x: Blocks, k: nat)
    requires NoDup(x.free)
    ensures NoDup(Free(x, k).free) <==> k !in x.free
  {
    var f := [k] + x.free;
    if k in x.free {
      var j :| 0 <= j < |x.free| && x.free[j] == k;
      assert f[0] == f[j + 1];
    } else {
      forall i, j | 0 <= i < j < |f| ensures f[i] != f[j] {
        assert f[j] == x.free[j - 1] && f[j] in x.free;
        assert i > 0 ==> f[i] == x.free[i - 1];
      }
    }
  }

  lemma {:induction false} NewInv(n: nat)
    ensures NoDup(Descending(n)) && |Descending(n)| == n && forall k: nat :: k in Descending(n) <==> k < n
  {
    if n > 0 {
      NewInv(n - 1);
      FreeKeepsDistinctIff(Blocks(Descending(n - 1), n, n, {}), n - 1);
      assert Descending(n) == Free(Blocks(Descending(n - 1), n, n, {}), n - 1).free;
      assert forall k: nat :: k in Descending(n) <==> k == n - 1 || k in Descending(n - 1);
    }
  }

  predicate CanRun(x: Blocks, ops: seq<PoolOp>)
    decreases |ops|
  {
    ops != [] ==> Enabled(x, ops[0]) && CanRun(Step(x, ops[0]), ops[1..])
  }

  function Run(x: Blocks, ops: seq<PoolOp>): Blocks
    decreases |ops|
  {
    if ops == [] then x else Run(Step(x, ops[0]), ops[1..])
  }

  /** The fewest free blocks in any state of the run. */
  function Lowest(x: Blocks, ops: seq<PoolOp>): nat
    decreases |ops|
  {
    if ops == [] then |x.free|
    else
      var r := Lowest(Step(x, ops[0]), ops[1..]);
      if |x.free| < r then |x.free| else r
  }

  lemma {:induction false} RunInv(x: Blocks, ops: seq<PoolOp>)
    requires PoolInv(x) && CanRun(x, ops) && x.minFree <= |x.free|
    ensures PoolInv(Run(x, ops))
    ensures Run(x, ops).total == x.total
    ensures Run(x, ops).minFree == if Lowest(x, ops) < x.minFree then Lowest(x, ops) else x.minFree
    decreases |ops|
  {
    if ops != [] {
      match ops[0] {
        case DoAlloc => AllocInv(x);
        case DoFree(k) => FreeInv(x, k);
      }
      RunInv(Step(x, ops[0]), ops[1..]);
    }
  }

  /**
   In every run without a double free the free list has no repetition and is exactly the blocks not handed out, so
   that it and the handed-out blocks make up the pool; and min_free_count is the lowest the free list ever was.
   */
  lemma EveryBlockOnce(total: nat, ops: seq<PoolOp>)
    requires CanRun(New(total), ops)
    ensures var x := Run(New(total), ops);
      && NoDup(x.free) && (forall k: nat :: k in x.free <==> k < total && k !in x.held)
      && |x.free| + |x.held| == total
      && x.minFree == Lowest(New(total), ops)
  {
    NewInv(total);
    RunInv(New(total), ops);
    LowestBelow(New(total), ops);
    Counted(Run(New(total), ops).free, Run(New(total), ops).held, total);
  }

  /**
   In every run without a double free an allocation succeeds exactly while not all blocks are handed out, and then
   hands out one that nobody holds; a block given back is the next one handed out.
   */
  lemma AllocSucceedsIff(total: nat, ops: seq<PoolOp>, k: nat)
    requires CanRun(New(total), ops)
    ensures var x := Run(New(total), ops);
      && (if |x.held| < total
          then exists j: nat :: j < total && j !in x.held && Alloc(x).held == x.held + {j} && x.free[..1] == [j]
          else Alloc(x) == x)
      && (k in x.held ==> Alloc(Free(x, k)).held == x.held && Alloc(Free(x, k)).free == x.free)
  {
    EveryBlockOnce(total, ops);
    NewInv(total);
    RunInv(New(total), ops);
    TakesFirst(Run(New(total), ops));
    if k in Run(New(total), ops).held {
      LastFreedFirst(Run(New(total), ops), k);
    }
  }

  lemma TakesFirst(x: Blocks)
    requires PoolInv(x)
    ensures if x.free == [] then Alloc(x) == x
            else exists j: nat :: j < x.total && j !in x.held && Alloc(x).held == x.held + {j} && x.free[..1] == [j]
  {
    if x.free != [] {
      assert x.free[0] in x.free && x.free[..1] == [x.free[0]];
    }
  }

  lemma LastFreedFirst(x: Blocks, k: nat)
    requires k in x.held
    ensures Alloc(Free(x, k)).held == x.held && Alloc(Free(x, k)).free == x.free
  {
    assert ([k] + x.free)[1..] == x.free && (x.held - {k}) + {k} == x.held;
  }

  lemma LowestBelow(x: Blocks, ops: seq<PoolOp>)
    ensures Lowest(x, ops) <= |x.free|
  {
  }

  lemma Inhabited(free: seq<nat>, held: set<nat>)
    ensures free == [] || exists k: nat :: k in free
    ensures held == {} || exists k: nat :: k in held
  {
    if free != [] {
      assert free[0] in free;
    }
  }

  /** A sequence without repetition and a set that share out the numbers below n have n elements between them. */
  lemma {:induction false} Counted(free: seq<nat>, held: set<nat>, n: nat)
    requires NoDup(free) && (forall k: nat :: k in free <==> k < n && k !in held) && (forall k: nat :: k in held ==>
        k < n)
    ensures |free| + |held| == n
    decreases n
  {
    if n == 0 {
      Inhabited(free, held);
    } else if n - 1 in held {
      Counted(free, held - {n - 1}, n - 1);
    } else {
      WithoutKeeps(free, n - 1);
      var i :| 0 <= i < |free| && free[i] == n - 1;
      WithoutAt(free, i);
      Counted(Without(free, n - 1), held, n - 1);
    }
  }
}
