/**
 The block pool in place (kernel/mempool.c): the link of a free block lies in the block's own first bytes. Each call
 is verified against PoolSpec and says which bytes of the pool it may touch.
 */
module MemPools {
  import opened KernelTypes
  import opened KernelSpec
  import opened PoolSpec
  import opened Slots

  /** One byte of the pool; the first byte of a stored pointer stands for the pointer, its other bytes are Rest. */
  datatype Cell = Byte(value: bv8) | Link(next: Option<nat>) | Rest

  /** The address of the i-th free block, NULL behind the last. */
  function AddrOf(free: seq<nat>, i: nat, start: nat, stride: nat): Option<nat> {
    if i < |free| then Some(start + Offset(free[i], stride)) else None
  }

  predicate LinkAt(m: seq<Cell>, free: seq<nat>, i: nat, start: nat, stride: nat)
    requires i < |free| && stride > 0
  {
    && Offset(free[i], stride) + stride <= |m|
    && m[Offset(free[i], stride)] == Link(AddrOf(free, i + 1, start, stride))
  }

  /** Following the links from free[0] spells out the free list. */
  predicate Threaded(m: seq<Cell>, free: seq<nat>, start: nat, stride: nat)
    requires stride > 0
  {
    forall i {:trigger LinkAt(m, free, i, start, stride)} :: 0 <= i < |free| ==> LinkAt(m, free, i, start, stride)
  }

  /** Only bytes of block k differ. */
  predicate Inside(m0: seq<Cell>, m1: seq<Cell>, k: nat, stride: nat) {
    |m1| == |m0| &&
    forall a :: 0 <= a < |m0| && !(Offset(k, stride) <= a < Offset(k, stride) + stride) ==> m1[a] == m0[a]
  }

  /** Whatever is written into a block that is not free, the free list survives it. */
  lemma OthersThreaded(m0: seq<Cell>, m1: seq<Cell>, free: seq<nat>, k: nat, start: nat, stride: nat)
    requires stride > 0 && Threaded(m0, free, start, stride) && k !in free && Inside(m0, m1, k, stride)
    ensures Threaded(m1, free, start, stride)
  {
    forall i | 0 <= i < |free| ensures LinkAt(m1, free, i, start, stride) {
      assert LinkAt(m0, free, i, start, stride);
      assert free[i] in free;
      BlocksApart(free[i], k, stride);
    }
  }

  /** Blocks are disjoint. */
  lemma BlocksApart(j: nat, k: nat, stride: nat)
    requires j != k
    ensures Offset(j, stride) + stride <= Offset(k, stride) || Offset(k, stride) + stride <= Offset(j, stride)
  {
    if j < k { OffsetOrder(j, k, stride); } else { OffsetOrder(k, j, stride); }
  }

  lemma PushThreaded(m0: seq<Cell>, m1: seq<Cell>, free: seq<nat>, k: nat, start: nat, stride: nat)
    requires stride > 0 && Threaded(m0, free, start, stride) && k !in free && Inside(m0, m1, k, stride)
    requires Offset(k, stride) + stride <= |m0| && m1[Offset(k, stride)] == Link(AddrOf(free, 0, start, stride))
    ensures Threaded(m1, [k] + free, start, stride)
  {
    OthersThreaded(m0, m1, free, k, start, stride);
    var f := [k] + free;
    forall i | 0 <= i < |f| ensures LinkAt(m1, f, i, start, stride) {
      if i > 0 {
        assert LinkAt(m1, free, i - 1, start, stride) && f[i] == free[i - 1];
      }
    }
  }

  lemma PopThreaded(m: seq<Cell>, free: seq<nat>, start: nat, stride: nat)
    requires stride > 0 && Threaded(m, free, start, stride) && free != []
    ensures Threaded(m, free[1..], start, stride)
    ensures Offset(free[0], stride) < |m| && m[Offset(free[0], stride)] == Link(AddrOf(free[1..], 0, start, stride))
  {
    assert LinkAt(m, free, 0, start, stride);
    forall i | 0 <= i < |free[1..]| ensures LinkAt(m, free[1..], i, start, stride) {
      assert LinkAt(m, free, i + 1, start, stride);
    }
  }

  class Pool {
    const P: nat                  // sizeof(void*)
    const start: nat              // pool_start
    const mem: array<Cell>        // pool_start up to pool_end
    const stride: nat             // prv_calc_stride(block_size)
    const total: nat              // total_blocks
    var freeList: Option<nat>
    var freeCount: nat
    var minFree: nat

    ghost predicate Rep(x: Blocks)
      reads this, mem
    {
      && 0 < P <= stride && mem.Length == Offset(total, stride)
      && PoolInv(x) && x.total == total && x.minFree == minFree
      && freeCount == |x.free| && freeList == AddrOf(x.free, 0, start, stride)
      && Threaded(mem[..], x.free, start, stride)
    }

    /** The second half of os_mempool_create: every block pushed in turn. */
    constructor (P: nat, start: nat, total: nat, stride: nat)
      requires 0 < P <= stride
      ensures Rep(New(total)) && fresh(mem) && this.P == P && this.start == start && this.stride == stride &&
          this.total == total
    {
      this.P, this.start, this.total, this.stride := P, start, total, stride;
      freeList, freeCount, minFree := None, total, total;
      OffsetIsProduct(total, stride);
      mem := new Cell[total * stride](_ => Byte(0));
      new;
      for i := 0 to total
        invariant freeList == AddrOf(Descending(i), 0, start, stride) && Threaded(mem[..], Descending(i), start, stride)
        invariant mem.Length == Offset(total, stride) && freeCount == minFree == total
      {
        NewInv(i);
        OffsetOrder(i, total, stride);
        OffsetIsProduct(i, stride);
        ghost var m := mem[..];
        StoreLink(i * stride, i);
        PushThreaded(m, mem[..], Descending(i), i, start, stride);
        freeList := Some(start + i * stride);
      }
      NewInv(total);
    }

    /** *(void**)block = pool->free_list, for block k at offset o. */
    method StoreLink(o: nat, ghost k: nat)
      requires 0 < P <= stride && o == Offset(k, stride) && o + stride <= mem.Length
      modifies mem
      ensures Inside(old(mem[..]), mem[..], k, stride) && mem[o] == Link(freeList)
      ensures forall a :: 0 <= a < mem.Length && !(o <= a < o + P) ==> mem[a] == old(mem[a])
    {
      mem[o] := Link(freeList);
      for i := 1 to P
        invariant mem[o] == Link(freeList)
        invariant forall a :: 0 <= a < mem.Length && !(o <= a < o + P) ==> mem[a] == old(mem[a])
      {
        mem[o + i] := Rest;
      }
    }

    /** os_mempool_alloc; it changes no byte of the pool. */
    method Alloc(ghost x: Blocks) returns (ptr: Option<nat>)
      requires Rep(x)
      modifies `freeList, `freeCount, `minFree
      ensures Rep(PoolSpec.Alloc(x)) && ptr == AddrOf(x.free, 0, start, stride)
      ensures x.free != [] ==> x.free[0] < total && x.free[0] !in x.held
    {
      if freeCount == 0 {
        return None;
      }
      PopThreaded(mem[..], x.free, start, stride);
      AllocInv(x);
      assert x.free[0] in x.free;
      ptr := freeList;
      freeList := mem[freeList.value - start].next;
      freeCount := freeCount - 1;
      if freeCount < minFree {
        minFree := freeCount;
      }
    }

    /** The checks os_mempool_free makes: inside the pool and at the start of a block. */
    predicate IsBlock(ptr: Option<nat>)
      requires stride > 0
    {
      ptr.Some? && start <= ptr.value < start + mem.Length && (ptr.value - start) % stride == 0
    }

    /**
     os_mempool_free. Only the link goes into the pool. Nothing stops a second free of the same block: it is linked
     in once more, and the list no longer ends (DoubleFreeNeverEnds).
     */
    method Free(ptr: Option<nat>, ghost x: Blocks) returns (st: Status)
      requires Rep(x)
      modifies `freeList, `freeCount, mem
      ensures st == if IsBlock(ptr) then Ok else ErrParam
      ensures st != Ok ==> Rep(x) && mem[..] == old(mem[..])
      ensures st == Ok ==>
        && (forall a :: 0 <= a < mem.Length && !(ptr.value - start <= a < ptr.value - start + P) ==>
            mem[a] == old(mem[a]))
        && freeList == ptr && freeCount == |x.free| + 1
        && ptr.value - start < mem.Length && mem[ptr.value - start] == Link(AddrOf(x.free, 0, start, stride))
      ensures st == Ok && (ptr.value - start) / stride !in x.free ==>
        (ptr.value - start) / stride in x.held && Rep(PoolSpec.Free(x, (ptr.value - start) / stride))
    {
      if ptr.None? || ptr.value < start || ptr.value >= start + mem.Length {
        return ErrParam;
      }
      var offset := ptr.value - start;
      if offset % stride != 0 {
        return ErrParam;
      }
      ghost var k := offset / stride;
      OffsetOf(offset, stride, total);
      OffsetOrder(k, total, stride);
      StoreLink(offset, k);
      if k !in x.free {
        FreeInv(x, k);
        PushThreaded(old(mem[..]), mem[..], x.free, k, start, stride);
      }
      freeList := ptr;
      freeCount := freeCount + 1;
      return Ok;
    }

    /** The holder of block k stores a byte in it. */
    method UserWrite(a: nat, v: bv8, ghost x: Blocks, ghost k: nat)
      requires Rep(x) && k in x.held && Offset(k, stride) <= a < Offset(k, stride) + stride
      modifies mem
      ensures Rep(x) && a < mem.Length && mem[a] == Byte(v)
      ensures forall b :: 0 <= b < mem.Length && b != a ==> mem[b] == old(mem[b])
    {
      OffsetOrder(k, total, stride);
      mem[a] := Byte(v);
      OthersThreaded(old(mem[..]), mem[..], x.free, k, start, stride);
    }

    /**
     os_mempool_create on a buffer of bufSize bytes at addr, in 32-bit arithmetic. The pool lies inside its buffer
     exactly when the buffer reaches the first aligned address.
     */
    static method Create(P: nat, addr: nat, bufSize: nat, blockSize: nat) returns (st: Status, pool: Pool?)
      requires P in {4, 8} && blockSize < TWO32 && bufSize < TWO32
      ensures st == (if bufSize == 0 || blockSize == 0 then ErrParam
                     else if Usable(addr, bufSize, P) < Stride(blockSize, P) then ErrNoMem else Ok)
      ensures if st != Ok then pool == null
              else && pool != null && fresh(pool) && pool.total > 0 && pool.Rep(New(pool.total))
                   && pool.P == P && pool.stride == Stride(blockSize, P) && pool.start == AlignedUp(addr, P)
                   && pool.mem.Length <= Usable(addr, bufSize, P) < pool.mem.Length + pool.stride
                   && (pool.start + pool.mem.Length <= addr + bufSize <==> AlignedUp(addr, P) <= addr + bufSize)
    {
      if bufSize == 0 || blockSize == 0 {
        return ErrParam, null;
      }
      var aligned := AlignedUp(addr, P);
      var usable := (bufSize - (aligned - addr)) % TWO32;
      StrideIsLeast(blockSize, P, 0);
      if usable < P {
        return ErrNoMem, null;
      }
      var stride := Stride(blockSize, P);
      var n := usable / stride;
      DivBounds(usable, stride);
      if n == 0 {
        return ErrNoMem, null;
      }
      UsableIs(addr, bufSize, P);
      pool := new Pool(P, aligned, n, stride);
      OffsetIsProduct(n, stride);
      st := Ok;
    }
  }

  /** POOL_ALIGN_SIZE of an address; the buffer does not sit at the very end of the address space. */
  function AlignedUp(addr: nat, P: nat): nat
    requires P > 0
  {
    (addr + P - 1) / P * P
  }

  /** The unsigned difference the code takes for the size of the aligned part. */
  function Usable(addr: nat, bufSize: nat, P: nat): nat
    requires P > 0
  {
    (bufSize - (AlignedUp(addr, P) - addr)) % TWO32
  }

  lemma UsableIs(addr: nat, bufSize: nat, P: nat)
    requires P in {4, 8} && bufSize < TWO32
    ensures addr <= AlignedUp(addr, P) < addr + P && AlignedUp(addr, P) % P == 0
    ensures AlignedUp(addr, P) <= addr + bufSize ==> Usable(addr, bufSize, P) == addr + bufSize - AlignedUp(addr, P)
  {
  }

  lemma DivBounds(a: nat, b: nat)
    requires b > 0
    ensures a / b * b <= a < a / b * b + b
    ensures a / b == 0 <==> a < b
  {
    MulMono(1, a / b, b);
  }

  // ---------- A block freed twice ----------

  /** The address reached after n links from ptr, None for NULL. */
  function Walk(m: seq<Cell>, start: nat, ptr: Option<nat>, n: nat): Option<nat> {
    if n == 0 then ptr
    else
      var p := Walk(m, start, ptr, n - 1);
      if p.Some? && start <= p.value < start + |m| && m[p.value - start].Link? then m[p.value - start].next else None
  }

  /** After a second free of block k the list leads back to k for ever: NULL is never reached. */
  lemma {:induction false} DoubleFreeNeverEnds(m0: seq<Cell>, m1: seq<Cell>, free: seq<nat>, k: nat, start: nat,
      stride: nat, n: nat)
    requires stride > 0 && Threaded(m0, free, start, stride) && NoDup(free) && k in free && Inside(m0, m1, k, stride)
    requires Offset(k, stride) < |m1| && m1[Offset(k, stride)] == Link(AddrOf(free, 0, start, stride))
    ensures Walk(m1, start, Some(start + Offset(k, stride)), n).Some?
  {
    var j :| 0 <= j < |free| && free[j] == k;
    WalkCycles(m0, m1, free, j, start, stride, n);
  }

  /** The walk stays on block k and the blocks that were in front of it. */
  lemma {:induction false} WalkCycles(m0: seq<Cell>, m1: seq<Cell>, free: seq<nat>, j: nat, start: nat, stride: nat,
      n: nat)
    requires stride > 0 && Threaded(m0, free, start, stride) && NoDup(free) && j < |free| &&
        Inside(m0, m1, free[j], stride)
    requires Offset(free[j], stride) < |m1| && m1[Offset(free[j], stride)] == Link(AddrOf(free, 0, start, stride))
    ensures exists i ::
      0 <= i <= j && Walk(m1, start, Some(start + Offset(free[j], stride)), n) == AddrOf(free, i, start, stride)
  {
    var k, p := free[j], Some(start + Offset(free[j], stride));
    if n == 0 {
      assert p == AddrOf(free, j, start, stride);
    } else {
      WalkCycles(m0, m1, free, j, start, stride, n - 1);
      var i :| 0 <= i <= j && Walk(m1, start, p, n - 1) == AddrOf(free, i, start, stride);
      assert LinkAt(m0, free, i, start, stride);
      if i == j {
        assert Walk(m1, start, p, n) == AddrOf(free, 0, start, stride);
      } else {
        BlocksApart(free[i], k, stride);
        assert Walk(m1, start, p, n) == AddrOf(free, i + 1, start, stride);
      }
    }
  }
}
