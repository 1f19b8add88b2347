/**
 The heap-4 allocator (kernel/heap4.c) on values: one address-ordered list of free and allocated blocks that tiles
 the pool, first fit with splitting, and coalescing on both sides of a freed block.
 H is the size of a block header and limit the size of the pool; the configured pool is 10240 bytes, the header has
 12 bytes on the 32-bit targets.
 */
module HeapSpec {
  import opened KernelTypes

  const ALIGNMENT: nat := 8

  datatype Block = Block(addr: nat, size: nat, live: bool)

  /** px_block_list and the statistics; splits and coalesces are counted for the accounting law. */
  datatype Heap = Heap(blocks: seq<Block>, freeBytes: nat, minFree: nat, splits: nat, coalesces: nat)

  /** What a 32-bit word keeps of x. */
  function Wrap(x: int): (r: nat)
    ensures r < TWO32
    decreases if x < 0 then 0 - x else x
  {
    if x < 0 - TWO32 then Wrap(x + TWO32) else if x < 0 then x + TWO32 else if x >= TWO32 then Wrap(x - TWO32) else x
  }

  lemma {:induction false} WrapIsMod(x: int)
    ensures Wrap(x) == x % TWO32
    decreases if x < 0 then 0 - x else x
  {
    if x < 0 {
      if x < 0 - TWO32 { WrapIsMod(x + TWO32); }
      ModShift(x);
    } else if x >= TWO32 {
      WrapIsMod(x - TWO32);
      ModShift(x - TWO32);
    }
  }

  lemma ModShift(x: int)
    ensures (x + TWO32) % TWO32 == x % TWO32
  {
  }

  /** ALIGN_UP in 32-bit arithmetic. */
  function AlignUp(n: nat): nat {
    Wrap(n + ALIGNMENT - 1) / ALIGNMENT * ALIGNMENT
  }

  function Min(a: nat, b: nat): nat {
    if a < b then a else b
  }

  // ---------- The block list ----------

  function End(b: Block, H: nat): nat {
    b.addr + H + b.size
  }

  /** The address at which the block after i has to begin. */
  function Limit(bs: seq<Block>, i: nat, limit: nat): nat
    requires i < |bs|
  {
    if i + 1 < |bs| then bs[i + 1].addr else limit
  }

  /** No gap and no overlap: each block ends where the next one, or the end of the pool, begins. */
  predicate Tiled(bs: seq<Block>, H: nat, limit: nat) {
    && bs != [] && bs[0].addr == 0
    && (forall i {:trigger Limit(bs, i, limit)} :: 0 <= i < |bs| ==> End(bs[i], H) == Limit(bs, i, limit))
  }

  /** No two neighbouring blocks are both free. */
  predicate Compact(bs: seq<Block>) {
    forall i :: 0 <= i && i + 1 < |bs| ==> bs[i].live || bs[i + 1].live
  }

  /** The first free block of at least n bytes. */
  function FirstFit(bs: seq<Block>, n: nat): (k: nat)
    ensures k <= |bs|
    ensures k < |bs| ==> !bs[k].live && bs[k].size >= n
    ensures forall i :: 0 <= i < k ==> bs[i].live || bs[i].size < n
  {
    if bs == [] || (!bs[0].live && bs[0].size >= n) then 0 else 1 + FirstFit(bs[1..], n)
  }

  predicate Splits(size: nat, n: nat, H: nat) {
    size >= n + H + ALIGNMENT
  }

  /** Block k split into n allocated bytes and a free rest. */
  function Split(bs: seq<Block>, k: nat, n: nat, H: nat): seq<Block>
    requires k < |bs| && bs[k].size >= n + H
  {
    bs[..k] + [Block(bs[k].addr, n, true), Block(bs[k].addr + H + n, bs[k].size - n - H, false)] + bs[k + 1..]
  }

  /** Blocks i and i + 1 made into one free block. */
  function Merge(bs: seq<Block>, i: nat, H: nat): seq<Block>
    requires i + 1 < |bs|
  {
    bs[..i] + [Block(bs[i].addr, bs[i].size + H + bs[i + 1].size, false)] + bs[i + 2..]
  }

  /** The test prv_insert_block makes before it merges. */
  predicate Joinable(bs: seq<Block>, i: int, H: nat) {
    0 <= i && i + 1 < |bs| && End(bs[i], H) == bs[i + 1].addr && !bs[i].live && !bs[i + 1].live
  }

  function MergeIf(bs: seq<Block>, i: int, H: nat): seq<Block> {
    if Joinable(bs, i, H) then Merge(bs, i, H) else bs
  }

  /** Block k coalesced: first with its predecessor, then with its successor. */
  function Coalesced(f: seq<Block>, k: nat, H: nat): seq<Block> {
    if Joinable(f, k - 1, H) then MergeIf(Merge(f, k - 1, H), k - 1, H) else MergeIf(f, k, H)
  }

  /** Block k freed and coalesced. */
  function Freed(bs: seq<Block>, k: nat, H: nat): seq<Block>
    requires k < |bs|
  {
    Coalesced(bs[k := bs[k].(live := false)], k, H)
  }

  // ---------- The calls ----------

  /** os_heap_init */
  function Initial(H: nat, limit: nat): Heap
    requires H <= limit
  {
    Heap([Block(0, limit - H, false)], limit - H, limit - H, 0, 0)
  }

  /** The position os_heap_alloc takes, |blocks| if there is none. */
  function Place(h: Heap, n: nat): nat {
    if n == 0 then |h.blocks| else FirstFit(h.blocks, AlignUp(n))
  }

  /** Block k, if there is one, handed out with at least size bytes. */
  function AllocAt(h: Heap, k: nat, size: nat, H: nat): Heap
    requires k < |h.blocks| ==> h.blocks[k].size >= size
  {
    if k >= |h.blocks| then h
    else
      var split := Splits(h.blocks[k].size, size, H);
      var free := Wrap(h.freeBytes - (if split then size + H else h.blocks[k].size));
      Heap(if split then Split(h.blocks, k, size, H) else h.blocks[k := h.blocks[k].(live := true)],
           free, Min(h.minFree, free), if split then h.splits + 1 else h.splits, h.coalesces)
  }

  /** os_heap_alloc */
  function Alloc(h: Heap, n: nat, H: nat): Heap {
    AllocAt(h, Place(h, n), AlignUp(n), H)
  }

  /** os_heap_free of the live block at position k */
  function Free(h: Heap, k: nat, H: nat): Heap
    requires k < |h.blocks|
  {
    var bs := Freed(h.blocks, k, H);
    h.(blocks := bs, freeBytes := Wrap(h.freeBytes + h.blocks[k].size),
        coalesces := h.coalesces + |h.blocks| - Min(|bs|, |h.blocks|))
  }

  /** The position of the block whose payload starts at p. */
  function Find(bs: seq<Block>, p: nat, H: nat): (k: nat)
    ensures k <= |bs|
    ensures k < |bs| ==> bs[k].addr + H == p
    ensures forall i :: 0 <= i < k ==> bs[i].addr + H != p
  {
    if bs == [] || bs[0].addr + H == p then 0 else 1 + Find(bs[1..], p, H)
  }

  /** os_heap_get_largest_free_block */
  function Largest(bs: seq<Block>): nat {
    if bs == [] then 0
    else
      var m := Largest(bs[..|bs| - 1]);
      var b := bs[|bs| - 1];
      if !b.live && b.size > m then b.size else m
  }

  // ---------- Tiling and coalescing are kept ----------

  lemma SplitTiled(bs: seq<Block>, k: nat, n: nat, H: nat, limit: nat)
    requires Tiled(bs, H, limit) && k < |bs| && bs[k].size >= n + H
    ensures Tiled(Split(bs, k, n, H), H, limit)
  {
    var c := Split(bs, k, n, H);
    forall i | 0 <= i < |c| ensures End(c[i], H) == Limit(c, i, limit) {
      if i < k {
        assert c[i] == bs[i] && End(bs[i], H) == Limit(bs, i, limit);
      } else if i > k + 1 {
        assert c[i] == bs[i - 1] && End(bs[i - 1], H) == Limit(bs, i - 1, limit);
      } else {
        assert End(bs[k], H) == Limit(bs, k, limit);
      }
    }
  }

  lemma MergeTiled(bs: seq<Block>, i: nat, H: nat, limit: nat)
    requires Tiled(bs, H, limit) && i + 1 < |bs|
    ensures Tiled(Merge(bs, i, H), H, limit)
  {
    var c := Merge(bs, i, H);
    forall j | 0 <= j < |c| ensures End(c[j], H) == Limit(c, j, limit) {
      if j < i {
        assert c[j] == bs[j] && End(bs[j], H) == Limit(bs, j, limit);
      } else if j > i {
        assert c[j] == bs[j + 1] && End(bs[j + 1], H) == Limit(bs, j + 1, limit);
      } else {
        assert End(bs[i], H) == Limit(bs, i, limit) && End(bs[i + 1], H) == Limit(bs, i + 1, limit);
      }
    }
  }

  lemma MarkTiled(bs: seq<Block>, k: nat, live: bool, H: nat, limit: nat)
    requires Tiled(bs, H, limit) && k < |bs|
    ensures Tiled(bs[k := bs[k].(live := live)], H, limit)
  {
    var c := bs[k := bs[k].(live := live)];
    forall i | 0 <= i < |c| ensures End(c[i], H) == Limit(c, i, limit) {
      assert End(bs[i], H) == Limit(bs, i, limit);
    }
  }

  lemma FreedTiled(bs: seq<Block>, k: nat, H: nat, limit: nat)
    requires Tiled(bs, H, limit) && k < |bs|
    ensures Tiled(Freed(bs, k, H), H, limit)
  {
    var f := bs[k := bs[k].(live := false)];
    MarkTiled(bs, k, false, H, limit);
    if Joinable(f, k - 1, H) {
      MergeTiled(f, k - 1, H, limit);
      if Joinable(Merge(f, k - 1, H), k - 1, H) {
        MergeTiled(Merge(f, k - 1, H), k - 1, H, limit);
      }
    } else if Joinable(f, k, H) {
      MergeTiled(f, k, H, limit);
    }
  }

  lemma SplitCompact(bs: seq<Block>, k: nat, n: nat, H: nat)
    requires Compact(bs) && k < |bs| && bs[k].size >= n + H && !bs[k].live
    ensures Compact(Split(bs, k, n, H))
  {
    var c := Split(bs, k, n, H);
    forall i | 0 <= i && i + 1 < |c| ensures c[i].live || c[i + 1].live {
      if i + 1 < k {
        assert c[i] == bs[i] && c[i + 1] == bs[i + 1];
      } else if i > k {
        assert c[i + 1] == bs[i] && (bs[i - 1].live || bs[i].live);
      }
    }
  }

  /** Freeing leaves at most the two gaps around the block to close, and closes both. */
  lemma FreedCompact(bs: seq<Block>, k: nat, H: nat, limit: nat)
    requires Tiled(bs, H, limit) && Compact(bs) && k < |bs|
    ensures Tiled(Freed(bs, k, H), H, limit) && Compact(Freed(bs, k, H))
  {
    var f := bs[k := bs[k].(live := false)];
    MarkTiled(bs, k, false, H, limit);
    if Joinable(f, k - 1, H) {
      var g := Merge(f, k - 1, H);
      MergeTiled(f, k - 1, H, limit);
      GapOnlyAt(bs, f, g, k);
      CloseGap(g, k - 1, H, limit);
    } else {
      assert k > 0 ==> End(f[k - 1], H) == Limit(f, k - 1, limit);
      CloseGap(f, k, H, limit);
    }
  }

  /** Only the pair (k, k + 1) may both be free. */
  predicate CompactBut(bs: seq<Block>, k: nat) {
    forall i :: 0 <= i && i + 1 < |bs| && i != k ==> bs[i].live || bs[i + 1].live
  }

  lemma GapOnlyAt(bs: seq<Block>, f: seq<Block>, g: seq<Block>, k: nat)
    requires Compact(bs) && 0 < k < |bs| && f == bs[k := bs[k].(live := false)] && !f[k - 1].live
    requires |g| == |f| - 1 && g[..k - 1] == f[..k - 1] && g[k..] == f[k + 1..] && !g[k - 1].live
    ensures CompactBut(g, k - 1)
  {
    forall i | 0 <= i && i + 1 < |g| && i != k - 1 ensures g[i].live || g[i + 1].live {
      if i + 1 < k - 1 {
        assert g[i] == g[..k - 1][i] && g[i + 1] == g[..k - 1][i + 1];
      } else if i + 1 == k - 1 {
        assert g[i] == g[..k - 1][i] && bs[k - 2].live;
      } else {
        assert g[i] == g[k..][i - k] && g[i + 1] == g[k..][i + 1 - k];
      }
    }
  }

  lemma CloseGap(bs: seq<Block>, k: nat, H: nat, limit: nat)
    requires Tiled(bs, H, limit) && CompactBut(bs, k) && k < |bs| && !bs[k].live
    ensures Tiled(MergeIf(bs, k, H), H, limit) && Compact(MergeIf(bs, k, H))
  {
    if Joinable(bs, k, H) {
      MergeTiled(bs, k, H, limit);
      var c := Merge(bs, k, H);
      forall i | 0 <= i && i + 1 < |c| ensures c[i].live || c[i + 1].live {
        if i + 1 < k {
          assert c[i] == bs[i] && c[i + 1] == bs[i + 1];
        } else if i + 1 == k {
          assert c[i] == bs[i];
        } else {
          assert c[i + 1] == bs[i + 2] && (i > k ==> c[i] == bs[i + 1]);
        }
      }
    } else {
      assert k + 1 < |bs| ==> End(bs[k], H) == Limit(bs, k, limit);
    }
  }

  /** With nothing live the list is the single block os_heap_init made. */
  lemma NothingLiveMeansOneBlock(bs: seq<Block>, H: nat, limit: nat)
    requires Tiled(bs, H, limit) && Compact(bs) && forall i :: 0 <= i < |bs| ==> !bs[i].live
    ensures H <= limit && bs == [Block(0, limit - H, false)]
  {
    assert End(bs[0], H) == Limit(bs, 0, limit);
  }

  // ---------- Allocation ----------

  /** os_heap_alloc succeeds exactly when anything is asked for and the largest free block will do. */
  lemma AllocSucceedsIff(h: Heap, n: nat)
    requires n + ALIGNMENT - 1 < TWO32
    ensures Place(h, n) < |h.blocks| <==> 0 < n && AlignUp(n) <= Largest(h.blocks)
  {
    LargestIsLargest(h.blocks);
    assert n > 0 ==> AlignUp(n) > 0;
  }

  /**
   A successful allocation hands out a block of at least the rounded size and less than a header and an alignment
   unit more, where the first fit was; a larger block's rest is a free block right behind it, and all others stay.
   */
  lemma AllocHandsOut(h: Heap, n: nat, H: nat)
    requires Place(h, n) < |h.blocks|
    ensures var k, bs, d, size := Place(h, n), h.blocks, Alloc(h, n, H).blocks, AlignUp(n);
      && k < |d| && d[k].live && d[k].addr == bs[k].addr
      && size <= d[k].size < size + H + ALIGNMENT
      && d[..k] == bs[..k]
      && if bs[k].size < size + H + ALIGNMENT then d[k].size == bs[k].size && d[k + 1..] == bs[k + 1..]
         else
           && d[k].size == size && k + 1 < |d| && d[k + 2..] == bs[k + 1..]
           && d[k + 1] == Block(d[k].addr + H + size, bs[k].size - size - H, false)
  {
  }

  /** A request that cannot be met changes nothing. */
  lemma AllocFails(h: Heap, n: nat, H: nat)
    requires Place(h, n) == |h.blocks|
    ensures Alloc(h, n, H) == h
  {
  }

  lemma {:induction false} LargestIsLargest(bs: seq<Block>)
    ensures forall i :: 0 <= i < |bs| && !bs[i].live ==> bs[i].size <= Largest(bs)
    ensures Largest(bs) > 0 ==> exists i :: 0 <= i < |bs| && !bs[i].live && bs[i].size == Largest(bs)
  {
    if bs != [] {
      var r := bs[..|bs| - 1];
      LargestIsLargest(r);
      if Largest(bs) > 0 {
        if Largest(bs) == Largest(r) {
          var i :| 0 <= i < |r| && !r[i].live && r[i].size == Largest(r);
          assert bs[i] == r[i];
        } else {
          assert !bs[|bs| - 1].live && bs[|bs| - 1].size == Largest(bs);
        }
      }
    }
  }

  /** The rounded size covers the request exactly when the rounding does not wrap around. */
  lemma AlignUpCoversIff(n: nat)
    requires n < TWO32
    ensures AlignUp(n) >= n <==> n + ALIGNMENT - 1 < TWO32 || n == 0
    ensures AlignUp(n) % ALIGNMENT == 0 && AlignUp(n) < n + ALIGNMENT
  {
  }

  /** Rounding up a second time changes nothing. */
  lemma AlignUpTwice(n: nat)
    ensures AlignUp(AlignUp(n)) == AlignUp(n) < TWO32
  {
  }

  lemma SplitThenFreed(bs: seq<Block>, k: nat, n: nat, H: nat, limit: nat)
    requires Tiled(bs, H, limit) && Compact(bs) && k < |bs| && !bs[k].live && bs[k].size >= n + H
    ensures Freed(Split(bs, k, n, H), k, H) == bs
  {
    var a := Split(bs, k, n, H);
    var f := a[k := a[k].(live := false)];
    assert k > 0 ==> f[k - 1] == bs[k - 1] && bs[k - 1].live;
    assert Joinable(f, k, H);
    assert Merge(f, k, H) == bs;
  }

  lemma MarkThenFreed(bs: seq<Block>, k: nat, H: nat)
    requires Compact(bs) && k < |bs| && !bs[k].live
    ensures Freed(bs[k := bs[k].(live := true)], k, H) == bs
  {
    var a := bs[k := bs[k].(live := true)];
    var f := a[k := a[k].(live := false)];
    assert f == bs;
    assert k > 0 ==> bs[k - 1].live;
    assert k + 1 < |bs| ==> bs[k + 1].live;
  }

  /** A block handed out and freed again leaves the block list exactly as it was, split or not. */
  lemma RoundTrip(h: Heap, n: nat, H: nat, limit: nat)
    requires Tiled(h.blocks, H, limit) && Compact(h.blocks) && Place(h, n) < |h.blocks|
    ensures Place(h, n) < |Alloc(h, n, H).blocks| && Alloc(h, n, H).blocks[Place(h, n)].live
    ensures Free(Alloc(h, n, H), Place(h, n), H).blocks == h.blocks
  {
    var bs, k, size := h.blocks, Place(h, n), AlignUp(n);
    if Splits(bs[k].size, size, H) {
      SplitThenFreed(bs, k, size, H, limit);
    } else {
      MarkThenFreed(bs, k, H);
    }
  }

  // ---------- Accounting ----------

  function FreeSum(bs: seq<Block>): nat {
    if bs == [] then 0 else FreeSum(bs[..|bs| - 1]) + if bs[|bs| - 1].live then 0 else bs[|bs| - 1].size
  }

  lemma {:induction false} FreeSumConcat(a: seq<Block>, b: seq<Block>)
    ensures FreeSum(a + b) == FreeSum(a) + FreeSum(b)
    decreases |b|
  {
    if b == [] {
      assert a + b == a;
    } else {
      assert (a + b)[..|a + b| - 1] == a + b[..|b| - 1];
      FreeSumConcat(a, b[..|b| - 1]);
    }
  }

  /** Replacing a stretch of the list changes the sum by the difference of the two stretches. */
  lemma FreeSumSwap(bs: seq<Block>, i: nat, j: nat, mid: seq<Block>)
    requires i <= j <= |bs|
    ensures FreeSum(bs[..i] + mid + bs[j..]) == FreeSum(bs) - FreeSum(bs[i..j]) + FreeSum(mid)
  {
    FreeSumOfThree(bs[..i], mid, bs[j..]);
    FreeSumOfThree(bs[..i], bs[i..j], bs[j..]);
    assert bs == bs[..i] + bs[i..j] + bs[j..];
  }

  lemma FreeSumOfThree(a: seq<Block>, b: seq<Block>, c: seq<Block>)
    ensures FreeSum(a + b + c) == FreeSum(a) + FreeSum(b) + FreeSum(c)
  {
    FreeSumConcat(a + b, c);
    FreeSumConcat(a, b);
  }

  lemma FreeSumOfOne(b: Block)
    ensures FreeSum([b]) == if b.live then 0 else b.size
  {
    assert [b][..0] == [];
  }

  lemma FreeSumOfTwo(a: Block, b: Block)
    ensures FreeSum([a, b]) == (if a.live then 0 else a.size) + (if b.live then 0 else b.size)
  {
    assert [a, b] == [a] + [b];
    FreeSumConcat([a], [b]);
    FreeSumOfOne(a);
    FreeSumOfOne(b);
  }

  lemma SplitSum(bs: seq<Block>, k: nat, n: nat, H: nat)
    requires k < |bs| && !bs[k].live && bs[k].size >= n + H
    ensures FreeSum(Split(bs, k, n, H)) == FreeSum(bs) - n - H
  {
    var a, b := Block(bs[k].addr, n, true), Block(bs[k].addr + H + n, bs[k].size - n - H, false);
    FreeSumSwap(bs, k, k + 1, [a, b]);
    FreeSumOfTwo(a, b);
    assert bs[k..k + 1] == [bs[k]];
    FreeSumOfOne(bs[k]);
  }

  lemma MarkSum(bs: seq<Block>, k: nat, live: bool)
    requires k < |bs| && bs[k].live != live
    ensures FreeSum(bs[k := bs[k].(live := live)]) == if live then FreeSum(bs) - bs[k].size
        else FreeSum(bs) + bs[k].size
  {
    var b := bs[k].(live := live);
    assert bs[k := b] == bs[..k] + [b] + bs[k + 1..];
    FreeSumSwap(bs, k, k + 1, [b]);
    assert bs[k..k + 1] == [bs[k]];
    FreeSumOfOne(bs[k]);
    FreeSumOfOne(b);
  }

  /** A merge wins a header for the free payload. */
  lemma MergeSum(bs: seq<Block>, i: int, H: nat)
    ensures |MergeIf(bs, i, H)| == |bs| - (if Joinable(bs, i, H) then 1 else 0)
    ensures FreeSum(MergeIf(bs, i, H)) == FreeSum(bs) + (if Joinable(bs, i, H) then H else 0)
  {
    if Joinable(bs, i, H) {
      var b := Block(bs[i].addr, bs[i].size + H + bs[i + 1].size, false);
      FreeSumSwap(bs, i, i + 2, [b]);
      assert bs[i..i + 2] == [bs[i], bs[i + 1]];
      FreeSumOfTwo(bs[i], bs[i + 1]);
      FreeSumOfOne(b);
    }
  }

  lemma FreedSum(bs: seq<Block>, k: nat, H: nat)
    requires k < |bs| && bs[k].live
    ensures |bs| - 2 <= |Freed(bs, k, H)| <= |bs|
    ensures FreeSum(Freed(bs, k, H)) == FreeSum(bs) + bs[k].size + Times(H, |bs| - |Freed(bs, k, H)|)
  {
    var f := bs[k := bs[k].(live := false)];
    assert Times(H, 1) == H && Times(H, 2) == H + H;
    MarkSum(bs, k, false);
    MergeSum(f, k - 1, H);
    if Joinable(f, k - 1, H) {
      MergeSum(Merge(f, k - 1, H), k - 1, H);
    } else {
      MergeSum(f, k, H);
    }
  }

  /** H * n, by repeated addition. */
  function Times(H: nat, n: nat): nat {
    if n == 0 then 0 else Times(H, n - 1) + H
  }

  lemma {:induction false} TimesAdd(H: nat, a: nat, b: nat)
    ensures Times(H, a + b) == Times(H, a) + Times(H, b)
    decreases b
  {
    if b > 0 { TimesAdd(H, a, b - 1); }
  }

  lemma {:induction false} TimesIsProduct(H: nat, n: nat)
    ensures Times(H, n) == H * n
  {
    if n > 0 { TimesIsProduct(H, n - 1); }
  }

  lemma WrapAdd(x: int, y: int)
    ensures Wrap(Wrap(x) + y) == Wrap(x + y)
  {
    WrapIsMod(x);
    WrapIsMod(Wrap(x) + y);
    WrapIsMod(x + y);
    assert x == TWO32 * (x / TWO32) + x % TWO32;
  }

  /** What os_heap_get_free_size reports lags behind the free payload by one header per coalescing, modulo 2^32. */
  predicate Law(h: Heap, H: nat) {
    && h.freeBytes == Wrap(FreeSum(h.blocks) - Times(H, h.coalesces))
    && |h.blocks| == 1 + h.splits - h.coalesces
  }

  lemma AllocLaw(h: Heap, n: nat, H: nat)
    requires Law(h, H)
    ensures Law(Alloc(h, n, H), H)
  {
    var k, size := Place(h, n), AlignUp(n);
    if k < |h.blocks| {
      if Splits(h.blocks[k].size, size, H) {
        SplitLaw(h, k, size, H);
      } else {
        MarkSum(h.blocks, k, true);
        WrapAdd(FreeSum(h.blocks) - Times(H, h.coalesces), 0 - h.blocks[k].size);
      }
    }
  }

  lemma SplitLaw(h: Heap, k: nat, size: nat, H: nat)
    requires Law(h, H) && k < |h.blocks| && !h.blocks[k].live && h.blocks[k].size >= size + H
    ensures Wrap(h.freeBytes - (size + H)) == Wrap(FreeSum(Split(h.blocks, k, size, H)) - Times(H, h.coalesces))
    ensures |Split(h.blocks, k, size, H)| == |h.blocks| + 1
  {
    SplitSum(h.blocks, k, size, H);
    WrapAdd(FreeSum(h.blocks) - Times(H, h.coalesces), 0 - (size + H));
  }

  lemma FreeLaw(h: Heap, k: nat, H: nat)
    requires Law(h, H) && k < |h.blocks| && h.blocks[k].live
    ensures Law(Free(h, k, H), H)
  {
    FreedSum(h.blocks, k, H);
    CounterAfterFree(h.freeBytes, FreeSum(h.blocks), h.blocks[k].size, h.coalesces, |h.blocks| - |Freed(h.blocks, k,
        H)|, H);
  }

  /** A freed payload of `size` bytes and m coalescings later. */
  lemma CounterAfterFree(counter: nat, sum: nat, size: nat, c: nat, m: nat, H: nat)
    requires counter == Wrap(sum - Times(H, c))
    ensures Wrap(counter + size) == Wrap(sum + size + Times(H, m) - Times(H, c + m))
  {
    TimesAdd(H, c, m);
    WrapAdd(sum - Times(H, c), size);
  }

  lemma WrapDifference(x: int, y: int)
    ensures Wrap(x - y) == Wrap(x) <==> Wrap(y) == 0
  {
    WrapIsMod(x);
    WrapIsMod(y);
    WrapIsMod(x - y);
    assert x == TWO32 * (x / TWO32) + x % TWO32 && y == TWO32 * (y / TWO32) + y % TWO32;
  }

  // ---------- Order and disjointness ----------

  lemma {:induction false} Apart(bs: seq<Block>, i: nat, j: nat, H: nat, limit: nat)
    requires Tiled(bs, H, limit) && i < j < |bs|
    ensures End(bs[i], H) <= bs[j].addr && End(bs[j], H) <= limit
    decreases |bs| - i
  {
    assert End(bs[i], H) == Limit(bs, i, limit) && End(bs[j], H) == Limit(bs, j, limit);
    if i + 1 < j {
      Apart(bs, i + 1, j, H, limit);
    }
    if j + 1 < |bs| {
      Apart(bs, j, j + 1, H, limit);
      Below(bs, j, H, limit);
    }
  }

  lemma {:induction false} Below(bs: seq<Block>, i: nat, H: nat, limit: nat)
    requires Tiled(bs, H, limit) && i < |bs|
    ensures End(bs[i], H) <= limit
    decreases |bs| - i
  {
    assert End(bs[i], H) == Limit(bs, i, limit);
    if i + 1 < |bs| {
      Below(bs, i + 1, H, limit);
    }
  }

  /** Header and payload sizes add up to the pool. */
  function Total(bs: seq<Block>, H: nat): nat {
    if bs == [] then 0 else H + bs[0].size + Total(bs[1..], H)
  }

  lemma {:induction false} TotalIsPool(bs: seq<Block>, H: nat, limit: nat, from: nat)
    requires Tiled(bs, H, limit) && from <= |bs|
    ensures Total(bs[from..], H) == limit - (if from < |bs| then bs[from].addr else limit)
    decreases |bs| - from
  {
    if from < |bs| {
      TotalIsPool(bs, H, limit, from + 1);
      assert bs[from..][1..] == bs[from + 1..] && End(bs[from], H) == Limit(bs, from, limit);
    }
  }

  // ---------- Runs ----------

  /** os_heap_free; anything but the payload address of a live block leaves the heap alone. */
  function FreeAt(h: Heap, p: nat, H: nat): Heap {
    var k := Find(h.blocks, p, H);
    if k < |h.blocks| && h.blocks[k].live then Free(h, k, H) else h
  }

  /** os_heap_realloc of a live block: in place if it is big enough, else allocate, copy and free. */
  function Realloc(h: Heap, p: nat, n: nat, H: nat): Heap {
    var k := Find(h.blocks, p, H);
    if n == 0 then FreeAt(h, p, H)
    else if k < |h.blocks| && AlignUp(n) <= h.blocks[k].size then h
    else if Place(h, AlignUp(n)) == |h.blocks| then h
    else FreeAt(Alloc(h, AlignUp(n), H), p, H)
  }

  datatype HeapOp = DoAlloc(n: nat) | DoFree(p: nat) | DoRealloc(p: nat, n: nat)

  function HeapStep(h: Heap, op: HeapOp, H: nat): Heap {
    match op
    case DoAlloc(n) => Alloc(h, n, H)
    case DoFree(p) => FreeAt(h, p, H)
    case DoRealloc(p, n) => Realloc(h, p, n, H)
  }

  function HeapRun(h: Heap, ops: seq<HeapOp>, H: nat): Heap
    decreases |ops|
  {
    if ops == [] then h else HeapRun(HeapStep(h, ops[0], H), ops[1..], H)
  }

  predicate HeapInv(h: Heap, H: nat, limit: nat) {
    Tiled(h.blocks, H, limit) && Compact(h.blocks) && Law(h, H)
  }

  lemma AllocInv(h: Heap, n: nat, H: nat, limit: nat)
    requires HeapInv(h, H, limit)
    ensures HeapInv(Alloc(h, n, H), H, limit)
  {
    var k := Place(h, n);
    AllocLaw(h, n, H);
    if k < |h.blocks| {
      MarkTiled(h.blocks, k, true, H, limit);
      if Splits(h.blocks[k].size, AlignUp(n), H) {
        SplitTiled(h.blocks, k, AlignUp(n), H, limit);
        SplitCompact(h.blocks, k, AlignUp(n), H);
      }
    }
  }

  lemma FreeAtInv(h: Heap, p: nat, H: nat, limit: nat)
    requires HeapInv(h, H, limit)
    ensures HeapInv(FreeAt(h, p, H), H, limit)
  {
    var k := Find(h.blocks, p, H);
    if k < |h.blocks| && h.blocks[k].live {
      FreedCompact(h.blocks, k, H, limit);
      FreeLaw(h, k, H);
    }
  }

  lemma HeapStepInv(h: Heap, op: HeapOp, H: nat, limit: nat)
    requires HeapInv(h, H, limit)
    ensures HeapInv(HeapStep(h, op, H), H, limit)
  {
    match op
    case DoAlloc(n) => AllocInv(h, n, H, limit);
    case DoFree(p) => FreeAtInv(h, p, H, limit);
    case DoRealloc(p, n) =>
      AllocInv(h, AlignUp(n), H, limit);
      FreeAtInv(Alloc(h, AlignUp(n), H), p, H, limit);
      FreeAtInv(h, p, H, limit);
  }

  lemma InitialInv(H: nat, limit: nat)
    requires H <= limit < TWO32
    ensures HeapInv(Initial(H, limit), H, limit)
  {
    var b := Block(0, limit - H, false);
    assert [b][..0] == [];
  }

  lemma {:induction false} HeapRunInv(h: Heap, ops: seq<HeapOp>, H: nat, limit: nat)
    requires HeapInv(h, H, limit)
    ensures HeapInv(HeapRun(h, ops, H), H, limit)
    decreases |ops|
  {
    if ops != [] {
      HeapStepInv(h, ops[0], H, limit);
      HeapRunInv(HeapStep(h, ops[0], H), ops[1..], H, limit);
    }
  }

  lemma InvSpelledOut(h: Heap, H: nat, limit: nat)
    requires HeapInv(h, H, limit)
    ensures Total(h.blocks, H) == limit && h.freeBytes == Wrap(FreeSum(h.blocks) - H * h.coalesces)
  {
    TotalIsPool(h.blocks, H, limit, 0);
    assert h.blocks[0..] == h.blocks;
    TimesIsProduct(H, h.coalesces);
  }

  /**
   After every run of allocations, frees and reallocations the blocks tile the pool, no two free ones are
   neighbours, and the free counter is off by exactly one header per coalescing.
   */
  lemma EveryRunTiles(ops: seq<HeapOp>, H: nat, limit: nat)
    requires H <= limit < TWO32
    ensures var h := HeapRun(Initial(H, limit), ops, H);
      && Tiled(h.blocks, H, limit) && Compact(h.blocks) && Total(h.blocks, H) == limit
      && h.freeBytes == Wrap(FreeSum(h.blocks) - H * h.coalesces)
      && |h.blocks| == 1 + h.splits - h.coalesces
  {
    InitialInv(H, limit);
    HeapRunInv(Initial(H, limit), ops, H, limit);
    InvSpelledOut(HeapRun(Initial(H, limit), ops, H), H, limit);
  }

  /** Whenever everything has been given back, the pool is again the one block it started as. */
  lemma EmptyAgainIsInitial(ops: seq<HeapOp>, H: nat, limit: nat)
    requires H <= limit < TWO32
    requires var h := HeapRun(Initial(H, limit), ops, H); forall i :: 0 <= i < |h.blocks| ==> !h.blocks[i].live
    ensures HeapRun(Initial(H, limit), ops, H).blocks == Initial(H, limit).blocks
  {
    EveryRunTiles(ops, H, limit);
    NothingLiveMeansOneBlock(HeapRun(Initial(H, limit), ops, H).blocks, H, limit);
  }

  // ---------- The live blocks ----------

  /** The blocks that are handed out, in address order. */
  function Live(bs: seq<Block>): seq<Block> {
    if bs == [] then []
    else Live(bs[..|bs| - 1]) + if bs[|bs| - 1].live then [bs[|bs| - 1]] else []
  }

  lemma {:induction false} LiveConcat(a: seq<Block>, b: seq<Block>)
    ensures Live(a + b) == Live(a) + Live(b)
    decreases |b|
  {
    if b == [] {
      assert a + b == a;
    } else {
      assert (a + b)[..|a + b| - 1] == a + b[..|b| - 1];
      LiveConcat(a, b[..|b| - 1]);
    }
  }

  lemma LiveAround(bs: seq<Block>, k: nat)
    requires k < |bs|
    ensures Live(bs) == Live(bs[..k]) + (if bs[k].live then [bs[k]] else []) + Live(bs[k + 1..])
  {
    assert bs == bs[..k + 1] + bs[k + 1..] && bs[..k + 1][..k] == bs[..k];
    LiveConcat(bs[..k + 1], bs[k + 1..]);
  }

  lemma LiveMerged(bs: seq<Block>, i: int, H: nat)
    ensures Live(MergeIf(bs, i, H)) == Live(bs)
  {
    if Joinable(bs, i, H) {
      var c := Merge(bs, i, H);
      LiveAround(c, i);
      LiveAround(bs, i);
      LiveAround(bs[i + 1..], 0);
      assert c[..i] == bs[..i] && c[i + 1..] == bs[i + 2..];
      assert bs[i + 1..][..0] == [] && bs[i + 1..][1..] == bs[i + 2..];
    }
  }

  /** An allocation adds the block it hands out to the live ones, in its place; the others are as they were. */
  lemma AllocAddsOne(h: Heap, n: nat, H: nat)
    requires Place(h, n) < |h.blocks|
    ensures var k, bs, d := Place(h, n), h.blocks, Alloc(h, n, H).blocks;
      && k < |d| && Live(bs) == Live(bs[..k]) + Live(bs[k + 1..])
      && Live(d) == Live(bs[..k]) + [d[k]] + Live(bs[k + 1..])
  {
    var k, bs, d := Place(h, n), h.blocks, Alloc(h, n, H).blocks;
    AllocHandsOut(h, n, H);
    LiveAround(bs, k);
    LiveAround(d, k);
    assert Live(bs[..k]) + [] + Live(bs[k + 1..]) == Live(bs[..k]) + Live(bs[k + 1..]);
    if bs[k].size >= AlignUp(n) + H + ALIGNMENT {
      FreeFirst(d[k + 1..], bs[k + 1..]);
    }
  }

  lemma FreeFirst(a: seq<Block>, b: seq<Block>)
    requires a != [] && !a[0].live && a[1..] == b
    ensures Live(a) == Live(b)
  {
    LiveAround(a, 0);
    assert a[..0] == [];
  }

  /** Freeing a live block, merges and all, takes exactly that one away. */
  lemma FreeTakesOne(h: Heap, k: nat, H: nat)
    requires k < |h.blocks| && h.blocks[k].live
    ensures var bs := h.blocks;
      && Live(bs) == Live(bs[..k]) + [bs[k]] + Live(bs[k + 1..])
      && Live(Free(h, k, H).blocks) == Live(bs[..k]) + Live(bs[k + 1..])
  {
    var bs := h.blocks;
    var f := bs[k := bs[k].(live := false)];
    LiveAround(bs, k);
    LiveAround(f, k);
    assert f[..k] == bs[..k] && f[k + 1..] == bs[k + 1..];
    assert Live(bs[..k]) + [] + Live(bs[k + 1..]) == Live(bs[..k]) + Live(bs[k + 1..]);
    LiveMerged(f, k - 1, H);
    LiveMerged(f, k, H);
    LiveMerged(MergeIf(f, k - 1, H), k - 1, H);
  }

  /** An address that is no live block's payload is ignored. */
  lemma FreeIgnores(h: Heap, p: nat, H: nat)
    requires forall i :: 0 <= i < |h.blocks| && h.blocks[i].live ==> h.blocks[i].addr + H != p
    ensures FreeAt(h, p, H) == h
  {
  }

  /** The payload address of a live block leads to that block. */
  lemma FindLive(bs: seq<Block>, k: nat, H: nat, limit: nat)
    requires Tiled(bs, H, limit) && 0 < H && k < |bs|
    ensures Find(bs, bs[k].addr + H, H) == k
  {
    var j := Find(bs, bs[k].addr + H, H);
    if j < k { Apart(bs, j, k, H, limit); }
  }

  /** d has b, from free block q of bs, in place of block k. */
  predicate Replaces(bs: seq<Block>, d: seq<Block>, k: nat, q: nat, b: Block, size: nat, H: nat)
    requires k < |bs|
  {
    && q < |bs| && !bs[q].live && b.live && b.addr == bs[q].addr && size <= b.size < size + H + ALIGNMENT
    && multiset(Live(d)) == multiset(Live(bs)) - multiset{bs[k]} + multiset{b}
  }

  /**
   os_heap_realloc of a live block. With size 0 it is freed; if it is large enough, or no free block is, nothing
   happens; otherwise the first fit replaces it among the live ones.
   */
  lemma ReallocReplaces(h: Heap, k: nat, n: nat, H: nat, limit: nat)
    requires HeapInv(h, H, limit) && 0 < H && k < |h.blocks| && h.blocks[k].live
    ensures var bs, size, p := h.blocks, AlignUp(n), h.blocks[k].addr + H;
      var d := Realloc(h, p, n, H);
      if n == 0 then multiset(Live(d.blocks)) == multiset(Live(bs)) - multiset{bs[k]}
      else if size <= bs[k].size || forall i :: 0 <= i < |bs| && !bs[i].live ==> bs[i].size < size
      then d == h
      else exists q, b: Block :: Replaces(bs, d.blocks, k, q, b, size, H) && FirstToFit(bs, q, size)
  {
    FindLive(h.blocks, k, H, limit);
    if n == 0 {
      FreeAtIs(h, k, H, limit);
      FreeTakes(h, k, H);
    } else if AlignUp(n) > h.blocks[k].size {
      Grows(h, k, n, H, limit);
    }
  }

  predicate FirstToFit(bs: seq<Block>, q: nat, size: nat) {
    q < |bs| && !bs[q].live && bs[q].size >= size && forall i :: 0 <= i < q ==> bs[i].live || bs[i].size < size
  }

  lemma NothingFits(h: Heap, size: nat)
    requires 0 < size && AlignUp(size) == size
    ensures Place(h, size) == |h.blocks| <==> forall i :: 0 <= i < |h.blocks| && !h.blocks[i].live ==>
        h.blocks[i].size < size
    ensures Place(h, size) < |h.blocks| ==> FirstToFit(h.blocks, Place(h, size), size)
  {
  }

  lemma ReallocMoves(h: Heap, k: nat, n: nat, H: nat, limit: nat)
    requires Tiled(h.blocks, H, limit) && 0 < H && k < |h.blocks| && h.blocks[k].live
    requires 0 < n && AlignUp(n) > h.blocks[k].size
    ensures var p, size := h.blocks[k].addr + H, AlignUp(n);
      Realloc(h, p, n, H) ==
        if Place(h, size) == |h.blocks| then h else FreeAt(Alloc(h, size, H), p, H)
  {
    FindLive(h.blocks, k, H, limit);
  }

  lemma Grows(h: Heap, k: nat, n: nat, H: nat, limit: nat)
    requires HeapInv(h, H, limit) && 0 < H && k < |h.blocks| && h.blocks[k].live
    requires 0 < n && AlignUp(n) > h.blocks[k].size
    ensures var bs, size, d := h.blocks, AlignUp(n), Realloc(h, h.blocks[k].addr + H, n, H);
      if forall i :: 0 <= i < |bs| && !bs[i].live ==> bs[i].size < size then d == h
      else exists q, b: Block :: Replaces(bs, d.blocks, k, q, b, size, H) && FirstToFit(bs, q, size)
  {
    var size := AlignUp(n);
    AlignUpTwice(n);
    ReallocMoves(h, k, n, H, limit);
    NothingFits(h, size);
    if Place(h, size) < |h.blocks| {
      var j := ThenFreed(h, k, size, H, limit);
      var b := MovedLive(h, k, size, H, Alloc(h, size, H), j);
    }
  }

  lemma OneMore(a: seq<Block>, b: Block, c: seq<Block>)
    ensures multiset(a + [b] + c) == multiset(a + c) + multiset{b}
  {
    assert multiset(a + [b] + c) == multiset(a) + multiset{b} + multiset(c);
    assert multiset(a + c) == multiset(a) + multiset(c);
  }

  /** Where live block k of h is once another block has been handed out. */
  lemma AllocShifts(h: Heap, n: nat, k: nat, H: nat) returns (j: nat)
    requires Place(h, n) < |h.blocks| && k < |h.blocks| && h.blocks[k].live
    ensures j < |Alloc(h, n, H).blocks| && Alloc(h, n, H).blocks[j] == h.blocks[k]
  {
    var q, d := Place(h, n), Alloc(h, n, H).blocks;
    AllocHandsOut(h, n, H);
    if k < q {
      j := k;
      assert d[..q][k] == h.blocks[..q][k];
    } else {
      j := k + |d| - |h.blocks|;
      assert h.blocks[q + 1..][k - q - 1] == h.blocks[k];
    }
  }

  lemma AllocAdds(h: Heap, n: nat, H: nat)
    requires Place(h, n) < |h.blocks|
    ensures var q, d := Place(h, n), Alloc(h, n, H).blocks;
      q < |d| && multiset(Live(d)) == multiset(Live(h.blocks)) + multiset{d[q]}
  {
    var q, bs, d := Place(h, n), h.blocks, Alloc(h, n, H).blocks;
    AllocAddsOne(h, n, H);
    OneMore(Live(bs[..q]), d[q], Live(bs[q + 1..]));
  }

  lemma FreeTakes(h: Heap, k: nat, H: nat)
    requires k < |h.blocks| && h.blocks[k].live
    ensures h.blocks[k] in multiset(Live(h.blocks))
    ensures multiset(Live(Free(h, k, H).blocks)) == multiset(Live(h.blocks)) - multiset{h.blocks[k]}
  {
    FreeTakesOne(h, k, H);
    OneMore(Live(h.blocks[..k]), h.blocks[k], Live(h.blocks[k + 1..]));
  }

  lemma FreeAtIs(h: Heap, k: nat, H: nat, limit: nat)
    requires Tiled(h.blocks, H, limit) && 0 < H && k < |h.blocks| && h.blocks[k].live
    ensures FreeAt(h, h.blocks[k].addr + H, H) == Free(h, k, H)
  {
    FindLive(h.blocks, k, H, limit);
  }

  /** The block handed out, without its surroundings. */
  lemma HandedOut(h: Heap, n: nat, H: nat) returns (b: Block)
    requires Place(h, n) < |h.blocks|
    ensures var q, bs, size := Place(h, n), h.blocks, AlignUp(n);
      && !bs[q].live && b.live && b.addr == bs[q].addr && size <= b.size < size + H + ALIGNMENT
      && multiset(Live(Alloc(h, n, H).blocks)) == multiset(Live(bs)) + multiset{b}
  {
    AllocHandsOut(h, n, H);
    AllocAdds(h, n, H);
    b := Alloc(h, n, H).blocks[Place(h, n)];
  }

  lemma Exchange(a: multiset<Block>, g: multiset<Block>, d: multiset<Block>, x: Block, b: Block)
    requires g == a + multiset{b} && d == g - multiset{x} && x in a
    ensures d == a - multiset{x} + multiset{b}
  {
  }

  /** Live block x of h, at j in g, is freed after b has been handed out. */
  lemma Exchanged(h: Heap, k: nat, g: Heap, j: nat, b: Block, H: nat)
    requires k < |h.blocks| && h.blocks[k].live && j < |g.blocks| && g.blocks[j] == h.blocks[k]
    requires multiset(Live(g.blocks)) == multiset(Live(h.blocks)) + multiset{b}
    ensures multiset(Live(Free(g, j, H).blocks)) == multiset(Live(h.blocks)) - multiset{h.blocks[k]} + multiset{b}
  {
    FreeTakes(g, j, H);
    FreeTakes(h, k, H);
    Exchange(multiset(Live(h.blocks)), multiset(Live(g.blocks)), multiset(Live(Free(g, j, H).blocks)), h.blocks[k], b);
  }

  lemma ThenFreed(h: Heap, k: nat, size: nat, H: nat, limit: nat) returns (j: nat)
    requires HeapInv(h, H, limit) && 0 < H && k < |h.blocks| && h.blocks[k].live
    requires Place(h, size) < |h.blocks|
    ensures j < |Alloc(h, size, H).blocks| && Alloc(h, size, H).blocks[j] == h.blocks[k]
    ensures FreeAt(Alloc(h, size, H), h.blocks[k].addr + H, H) == Free(Alloc(h, size, H), j, H)
  {
    j := AllocShifts(h, size, k, H);
    AllocInv(h, size, H, limit);
    FreeAtIs(Alloc(h, size, H), j, H, limit);
  }

  lemma MovedLive(h: Heap, k: nat, size: nat, H: nat, g: Heap, j: nat) returns (b: Block)
    requires k < |h.blocks| && h.blocks[k].live && AlignUp(size) == size && Place(h, size) < |h.blocks|
    requires g == Alloc(h, size, H) && j < |g.blocks| && g.blocks[j] == h.blocks[k]
    ensures Replaces(h.blocks, Free(g, j, H).blocks, k, Place(h, size), b, size, H)
  {
    b := HandedOut(h, size, H);
    Exchanged(h, k, g, j, b, H);
  }

  // ---------- The minimum ever free ----------

  /** The free counter right after the allocation that the call makes, if it makes one. */
  function Dip(h: Heap, op: HeapOp, H: nat): seq<nat> {
    match op
    case DoAlloc(n) => if Place(h, n) < |h.blocks| then [Alloc(h, n, H).freeBytes] else []
    case DoFree(_) => []
    case DoRealloc(p, n) =>
      var k := Find(h.blocks, p, H);
      if n == 0 || (k < |h.blocks| && AlignUp(n) <= h.blocks[k].size) || Place(h, AlignUp(n)) == |h.blocks| then []
      else [Alloc(h, AlignUp(n), H).freeBytes]
  }

  function Dips(h: Heap, ops: seq<HeapOp>, H: nat): seq<nat>
    decreases |ops|
  {
    if ops == [] then [] else Dip(h, ops[0], H) + Dips(HeapStep(h, ops[0], H), ops[1..], H)
  }

  predicate IsLowest(m: nat, first: nat, dips: seq<nat>) {
    m <= first && (forall x :: x in dips ==> m <= x) && (m == first || m in dips)
  }

  lemma StepLowest(h: Heap, op: HeapOp, H: nat)
    ensures IsLowest(HeapStep(h, op, H).minFree, h.minFree, Dip(h, op, H))
  {
  }

  /** The minimum reported is the lowest value that the free counter has had, at first or after an allocation. */
  lemma {:induction false} MinFreeIsLowest(h: Heap, ops: seq<HeapOp>, H: nat)
    ensures IsLowest(HeapRun(h, ops, H).minFree, h.minFree, Dips(h, ops, H))
    decreases |ops|
  {
    if ops != [] {
      StepLowest(h, ops[0], H);
      MinFreeIsLowest(HeapStep(h, ops[0], H), ops[1..], H);
    }
  }

  // ---------- When the free counter is right ----------

  /** os_heap_get_free_size reports the free payload. */
  predicate Counts(h: Heap) {
    h.freeBytes == Wrap(FreeSum(h.blocks))
  }

  /** Neither neighbour of block k is free. */
  predicate Alone(bs: seq<Block>, k: nat)
    requires k < |bs|
  {
    (k == 0 || bs[k - 1].live) && (k + 1 == |bs| || bs[k + 1].live)
  }

  lemma AllocCounts(h: Heap, n: nat, H: nat)
    requires Counts(h)
    ensures Counts(Alloc(h, n, H))
  {
    var k, size := Place(h, n), AlignUp(n);
    if k < |h.blocks| {
      if Splits(h.blocks[k].size, size, H) {
        SplitSum(h.blocks, k, size, H);
        WrapAdd(FreeSum(h.blocks), 0 - (size + H));
      } else {
        MarkSum(h.blocks, k, true);
        WrapAdd(FreeSum(h.blocks), 0 - h.blocks[k].size);
      }
    }
  }

  /** Freeing block k merges nothing exactly if it is alone. */
  lemma MergesUnlessAlone(bs: seq<Block>, k: nat, H: nat, limit: nat)
    requires Tiled(bs, H, limit) && k < |bs| && bs[k].live
    ensures |Freed(bs, k, H)| == |bs| <==> Alone(bs, k)
    ensures |Freed(bs, k, H)| + 2 >= |bs|
    ensures |Freed(bs, k, H)| + 2 == |bs| ==> 3 * H <= limit
  {
    var f := bs[k := bs[k].(live := false)];
    assert k > 0 ==> End(bs[k - 1], H) == Limit(bs, k - 1, limit);
    assert End(bs[k], H) == Limit(bs, k, limit);
    assert k > 0 ==> (Joinable(f, k - 1, H) <==> !bs[k - 1].live);
    assert Joinable(f, k, H) <==> k + 1 < |bs| && !bs[k + 1].live;
    MergeSum(f, k - 1, H);
    MergeSum(f, k, H);
    if Joinable(f, k - 1, H) {
      MergeSum(Merge(f, k - 1, H), k - 1, H);
      if k + 1 < |bs| {
        Below(bs, k + 1, H, limit);
      }
    }
  }

  /** A free keeps the counter right exactly if both neighbours of the block are allocated, or missing. */
  lemma FreeCountsIff(h: Heap, k: nat, H: nat, limit: nat)
    requires Tiled(h.blocks, H, limit) && 0 < H && limit < TWO32
    requires k < |h.blocks| && h.blocks[k].live && Counts(h)
    ensures Counts(Free(h, k, H)) <==> Alone(h.blocks, k)
  {
    var bs := h.blocks;
    var lost := HeadersWon(bs, k, H, limit);
    WrapAdd(FreeSum(bs), bs[k].size);
    WrapDifference(FreeSum(bs) + bs[k].size + lost, lost);
  }

  /** The headers of the blocks merged away, which the free payload wins and the counter does not see. */
  lemma HeadersWon(bs: seq<Block>, k: nat, H: nat, limit: nat) returns (lost: nat)
    requires Tiled(bs, H, limit) && 0 < H && limit < TWO32 && k < |bs| && bs[k].live
    ensures FreeSum(Freed(bs, k, H)) == FreeSum(bs) + bs[k].size + lost
    ensures lost < TWO32 && (lost == 0 <==> Alone(bs, k))
  {
    FreedSum(bs, k, H);
    MergesUnlessAlone(bs, k, H, limit);
    assert Times(H, 0) == 0 && Times(H, 1) == H && Times(H, 2) == H + H;
    Below(bs, k, H, limit);
    lost := Times(H, |bs| - |Freed(bs, k, H)|);
  }

  predicate FreesAlone(h: Heap, p: nat, H: nat) {
    var k := Find(h.blocks, p, H);
    k < |h.blocks| && h.blocks[k].live ==> Alone(h.blocks, k)
  }

  /** The block that the call gives back, if any, is alone. */
  predicate MergesNothing(h: Heap, op: HeapOp, H: nat) {
    match op
    case DoAlloc(_) => true
    case DoFree(p) => FreesAlone(h, p, H)
    case DoRealloc(p, n) =>
      var k := Find(h.blocks, p, H);
      if n == 0 then FreesAlone(h, p, H)
      else if k < |h.blocks| && AlignUp(n) <= h.blocks[k].size then true
      else if Place(h, AlignUp(n)) == |h.blocks| then true
      else FreesAlone(Alloc(h, AlignUp(n), H), p, H)
  }

  lemma FreeAtCountsIff(h: Heap, p: nat, H: nat, limit: nat)
    requires Tiled(h.blocks, H, limit) && 0 < H && limit < TWO32 && Counts(h)
    ensures Counts(FreeAt(h, p, H)) <==> FreesAlone(h, p, H)
  {
    var k := Find(h.blocks, p, H);
    if k < |h.blocks| && h.blocks[k].live {
      FreeCountsIff(h, k, H, limit);
    }
  }

  lemma StepCountsIff(h: Heap, op: HeapOp, H: nat, limit: nat)
    requires HeapInv(h, H, limit) && 0 < H && limit < TWO32 && Counts(h)
    ensures Counts(HeapStep(h, op, H)) <==> MergesNothing(h, op, H)
  {
    match op
    case DoAlloc(n) => AllocCounts(h, n, H);
    case DoFree(p) => FreeAtCountsIff(h, p, H, limit);
    case DoRealloc(p, n) =>
      AllocCounts(h, AlignUp(n), H);
      AllocInv(h, AlignUp(n), H, limit);
      FreeAtCountsIff(Alloc(h, AlignUp(n), H), p, H, limit);
      FreeAtCountsIff(h, p, H, limit);
  }

  predicate CountsAlong(h: Heap, ops: seq<HeapOp>, H: nat)
    decreases |ops|
  {
    Counts(h) && (ops != [] ==> CountsAlong(HeapStep(h, ops[0], H), ops[1..], H))
  }

  predicate NeverMerges(h: Heap, ops: seq<HeapOp>, H: nat)
    decreases |ops|
  {
    ops != [] ==> MergesNothing(h, ops[0], H) && NeverMerges(HeapStep(h, ops[0], H), ops[1..], H)
  }

  lemma {:induction false} CountsAlongIff(h: Heap, ops: seq<HeapOp>, H: nat, limit: nat)
    requires HeapInv(h, H, limit) && 0 < H && limit < TWO32 && Counts(h)
    ensures CountsAlong(h, ops, H) <==> NeverMerges(h, ops, H)
    decreases |ops|
  {
    if ops != [] {
      StepCountsIff(h, ops[0], H, limit);
      HeapStepInv(h, ops[0], H, limit);
      if MergesNothing(h, ops[0], H) {
        CountsAlongIff(HeapStep(h, ops[0], H), ops[1..], H, limit);
      }
    }
  }

  /** os_heap_get_free_size is right in every state of a run exactly if no block given back has a free neighbour. */
  lemma FreeSizeExactIff(ops: seq<HeapOp>, H: nat, limit: nat)
    requires 0 < H <= limit < TWO32
    ensures CountsAlong(Initial(H, limit), ops, H) <==> NeverMerges(Initial(H, limit), ops, H)
  {
    InitialInv(H, limit);
    CountsAlongIff(Initial(H, limit), ops, H, limit);
  }

  /** Already the first block handed out and given back makes it wrong. */
  lemma LagReachable(H: nat, limit: nat)
    requires 0 < H && H + ALIGNMENT + H + ALIGNMENT <= limit < TWO32
    ensures !Counts(HeapRun(Initial(H, limit), [DoAlloc(1), DoFree(H)], H))
  {
    var h := Initial(H, limit);
    var a := HeapStep(h, DoAlloc(1), H);
    var ops := [DoAlloc(1), DoFree(H)];
    assert ops[1..] == [DoFree(H)] && ops[1..][1..] == [];
    InitialInv(H, limit);
    AllocInv(h, 1, H, limit);
    AllocCounts(h, 1, H);
    assert AlignUp(1) == ALIGNMENT;
    assert a.blocks == [Block(0, ALIGNMENT, true), Block(H + ALIGNMENT, limit - H - ALIGNMENT - H, false)];
    assert FirstFit(h.blocks, ALIGNMENT) == 0 && Find(a.blocks, H, H) == 0;
    assert !FreesAlone(a, H, H);
    FreeAtCountsIff(a, H, H, limit);
    assert HeapRun(h, ops, H) == HeapRun(a, [DoFree(H)], H) == FreeAt(a, H, H);
  }

  // ---------- Alignment ----------

  /** Every size and every payload address is a multiple of the alignment. */
  predicate Aligned(bs: seq<Block>, H: nat) {
    forall i :: 0 <= i < |bs| ==> bs[i].size % ALIGNMENT == 0 && (bs[i].addr + H) % ALIGNMENT == 0
  }

  predicate LiveAligned(bs: seq<Block>, H: nat) {
    forall i :: 0 <= i < |bs| && bs[i].live ==> (bs[i].addr + H) % ALIGNMENT == 0
  }

  lemma MergeAligned(bs: seq<Block>, i: int, H: nat)
    requires Aligned(bs, H) && H % ALIGNMENT == 0
    ensures Aligned(MergeIf(bs, i, H), H)
  {
    if Joinable(bs, i, H) {
      var c := Merge(bs, i, H);
      forall j | 0 <= j < |c| ensures c[j].size % ALIGNMENT == 0 && (c[j].addr + H) % ALIGNMENT == 0 {
        if j < i { assert c[j] == bs[j]; } else if j > i { assert c[j] == bs[j + 1]; }
      }
    }
  }

  lemma FreeAtAligned(h: Heap, p: nat, H: nat)
    requires Aligned(h.blocks, H) && H % ALIGNMENT == 0
    ensures Aligned(FreeAt(h, p, H).blocks, H)
  {
    var k := Find(h.blocks, p, H);
    if k < |h.blocks| && h.blocks[k].live {
      var f := h.blocks[k := h.blocks[k].(live := false)];
      MergeAligned(f, k - 1, H);
      MergeAligned(f, k, H);
      MergeAligned(MergeIf(f, k - 1, H), k - 1, H);
    }
  }

  lemma SplitAligned(bs: seq<Block>, k: nat, n: nat, H: nat)
    requires Aligned(bs, H) && H % ALIGNMENT == 0 && n % ALIGNMENT == 0
    requires k < |bs| && bs[k].size >= n + H
    ensures Aligned(Split(bs, k, n, H), H)
  {
    var c := Split(bs, k, n, H);
    forall j | 0 <= j < |c| ensures c[j].size % ALIGNMENT == 0 && (c[j].addr + H) % ALIGNMENT == 0 {
      if j < k { assert c[j] == bs[j]; } else if j > k + 1 { assert c[j] == bs[j - 1]; }
    }
  }

  lemma AllocAligned(h: Heap, n: nat, H: nat)
    requires Aligned(h.blocks, H) && H % ALIGNMENT == 0
    ensures Aligned(Alloc(h, n, H).blocks, H)
  {
    var k := Place(h, n);
    if k < |h.blocks| && Splits(h.blocks[k].size, AlignUp(n), H) {
      SplitAligned(h.blocks, k, AlignUp(n), H);
    }
  }

  lemma {:induction false} HeapRunAligned(h: Heap, ops: seq<HeapOp>, H: nat)
    requires Aligned(h.blocks, H) && H % ALIGNMENT == 0
    ensures Aligned(HeapRun(h, ops, H).blocks, H)
    decreases |ops|
  {
    if ops != [] {
      match ops[0] {
        case DoAlloc(n) => AllocAligned(h, n, H);
        case DoFree(p) => FreeAtAligned(h, p, H);
        case DoRealloc(p, n) =>
          AllocAligned(h, AlignUp(n), H);
          FreeAtAligned(Alloc(h, AlignUp(n), H), p, H);
          FreeAtAligned(h, p, H);
      }
      HeapRunAligned(HeapStep(h, ops[0], H), ops[1..], H);
    }
  }

  /**
   Payloads are aligned in every run exactly when the header size is a multiple of the alignment; on a 32-bit
   target it is 12, and already the first allocation is off by four.
   */
  lemma AlignedIff(H: nat, limit: nat)
    requires H + ALIGNMENT <= limit && limit % ALIGNMENT == 0
    ensures (forall ops :: LiveAligned(HeapRun(Initial(H, limit), ops, H).blocks, H)) <==> H % ALIGNMENT == 0
  {
    if H % ALIGNMENT == 0 {
      forall ops ensures LiveAligned(HeapRun(Initial(H, limit), ops, H).blocks, H) {
        HeapRunAligned(Initial(H, limit), ops, H);
      }
    } else {
      FirstPayload(H, limit);
    }
  }

  lemma FirstPayload(H: nat, limit: nat)
    requires H + ALIGNMENT <= limit
    ensures var bs := HeapRun(Initial(H, limit), [DoAlloc(1)], H).blocks; bs != [] && bs[0].live && bs[0].addr == 0
  {
    var ops := [DoAlloc(1)];
    assert ops[1..] == [];
  }
}
