/**
 The heap-4 allocator in place (kernel/heap4.c): block headers live in the pool they describe, every call walks and
 relinks them there. Each method is verified against the block list of HeapSpec and says which cells it may change.
 */
module Heap4 {
  import opened KernelTypes
  import opened HeapSpec

  /**
   One byte of the pool. The first byte of a header stands for its fields (`top` is the allocated bit of the size
   word, `size` its other 31 bits), the remaining bytes of a header are Rest.
   */
  datatype Cell = Byte(value: nat) | Head(next: Option<nat>, size: nat, top: bool) | Rest

  function AddrAt(bs: seq<Block>, i: int): Option<nat> {
    if 0 <= i < |bs| then Some(bs[i].addr) else None
  }

  /** Block i ends before block j begins. */
  predicate Before(bs: seq<Block>, i: nat, j: nat, H: nat)
    requires i < |bs| && j < |bs|
  {
    End(bs[i], H) <= bs[j].addr
  }

  /** The blocks lie in the pool in address order and do not overlap; gaps are allowed. */
  predicate Laid(bs: seq<Block>, H: nat, limit: nat) {
    && (forall i :: 0 <= i < |bs| ==> End(bs[i], H) <= limit)
    && (forall i, j {:trigger Before(bs, i, j, H)} :: 0 <= i < j < |bs| ==> Before(bs, i, j, H))
  }

  lemma AddressOrder(bs: seq<Block>, H: nat, limit: nat)
    requires Laid(bs, H, limit) && H > 0
    ensures forall i, j :: 0 <= i < j < |bs| ==> bs[i].addr < bs[j].addr
  {
    forall i, j | 0 <= i < j < |bs| ensures bs[i].addr < bs[j].addr {
      assert Before(bs, i, j, H);
    }
  }

  predicate InPayload(b: Block, H: nat, a: int) {
    b.addr + H <= a < End(b, H)
  }

  lemma CutIsLaid(bs: seq<Block>, k: nat, H: nat, limit: nat)
    requires Laid(bs, H, limit) && k < |bs|
    ensures Laid(Cut(bs, k), H, limit)
  {
    var c := Cut(bs, k);
    forall x, y | 0 <= x < y < |c| ensures Before(c, x, y, H) {
      assert Before(bs, if x < k then x else x + 1, if y < k then y else y + 1, H);
    }
  }

  lemma MarkIsLaid(bs: seq<Block>, k: nat, live: bool, H: nat, limit: nat)
    requires Laid(bs, H, limit) && k < |bs|
    ensures Laid(bs[k := bs[k].(live := live)], H, limit)
  {
    var c := bs[k := bs[k].(live := live)];
    forall x, y | 0 <= x < y < |c| ensures Before(c, x, y, H) {
      assert Before(bs, x, y, H);
    }
  }

  lemma MergeIsLaid(bs: seq<Block>, i: nat, H: nat, limit: nat)
    requires Laid(bs, H, limit) && Joinable(bs, i, H)
    ensures Laid(Merge(bs, i, H), H, limit)
  {
    var c := Merge(bs, i, H);
    forall x, y | 0 <= x < y < |c| ensures Before(c, x, y, H) {
      assert Before(bs, if x < i then x else x + 1, if y <= i then y else y + 1, H);
    }
  }

  lemma SplitIsLaid(bs: seq<Block>, k: nat, n: nat, H: nat, limit: nat)
    requires Laid(bs, H, limit) && k < |bs| && bs[k].size >= n + H
    ensures Laid(Split(bs, k, n, H), H, limit)
  {
    var c := Split(bs, k, n, H);
    forall x | 0 <= x < |c| ensures End(c[x], H) <= limit {
      assert End(bs[if x <= k then x else x - 1], H) <= limit;
    }
    forall x, y | 0 <= x < y < |c| ensures Before(c, x, y, H) {
      var x', y' := if x <= k then x else x - 1, if y <= k then y else y - 1;
      assert x' < y' ==> Before(bs, x', y', H);
    }
  }

  // ---------- Memory contents ----------

  predicate Header(m: seq<Cell>, bs: seq<Block>, i: nat)
    requires i < |bs|
  {
    bs[i].addr < |m| && m[bs[i].addr] == Head(AddrAt(bs, i + 1), bs[i].size, bs[i].live)
  }

  /** Following the links from bs[0] spells out bs. */
  predicate Headers(m: seq<Cell>, bs: seq<Block>) {
    forall i {:trigger Header(m, bs, i)} :: 0 <= i < |bs| ==> Header(m, bs, i)
  }

  /** Only cells from lo up to hi differ. */
  predicate Within(m0: seq<Cell>, m1: seq<Cell>, lo: nat, hi: nat) {
    |m1| == |m0| && forall a :: 0 <= a < |m1| && !(lo <= a < hi) ==> m1[a] == m0[a]
  }

  /** Only the first header cells of block k and of its predecessor differ. */
  predicate Near(m0: seq<Cell>, m1: seq<Cell>, bs: seq<Block>, k: nat)
    requires k < |bs|
  {
    |m1| == |m0| &&
    forall x :: 0 <= x < |m0| && x != bs[k].addr && (k == 0 || x != bs[k - 1].addr) ==> m1[x] == m0[x]
  }

  /** The payload of every live block is the same in both. */
  ghost predicate Kept(m0: seq<Cell>, m1: seq<Cell>, bs: seq<Block>, H: nat) {
    |m1| == |m0| &&
    forall i, a :: 0 <= i < |bs| && bs[i].live && InPayload(bs[i], H, a) && a < |m1| ==> m1[a] == m0[a]
  }

  /** Header cells are nobody's payload. */
  lemma NearKeeps(m0: seq<Cell>, m1: seq<Cell>, bs: seq<Block>, k: nat, H: nat)
    requires H > 0 && Laid(bs, H, |m0|) && k < |bs| && Near(m0, m1, bs, k)
    ensures Kept(m0, m1, bs, H)
  {
    forall i, a | 0 <= i < |bs| && bs[i].live && InPayload(bs[i], H, a) && a < |m1| ensures m1[a] == m0[a] {
      PayloadHasNoHead(bs, i, k, a, H, |m0|);
      if k > 0 {
        PayloadHasNoHead(bs, i, k - 1, a, H, |m0|);
      }
    }
  }

  /** No byte of a payload belongs to a header or to another payload. */
  lemma PayloadHasNoHead(bs: seq<Block>, i: nat, j: nat, a: nat, H: nat, limit: nat)
    requires H > 0 && Laid(bs, H, limit) && i < |bs| && j < |bs| && InPayload(bs[i], H, a)
    ensures !(bs[j].addr <= a < bs[j].addr + H)
    ensures InPayload(bs[j], H, a) ==> i == j
  {
    assert j < i ==> Before(bs, j, i, H);
    assert i < j ==> Before(bs, i, j, H);
  }

  /** Anything may happen inside a free block: live payloads are elsewhere. */
  lemma FreeBlockKeeps(m0: seq<Cell>, m1: seq<Cell>, bs: seq<Block>, k: nat, H: nat)
    requires Laid(bs, H, |m0|) && k < |bs| && !bs[k].live && Within(m0, m1, bs[k].addr, End(bs[k], H))
    ensures Kept(m0, m1, bs, H)
  {
    forall i, a | 0 <= i < |bs| && bs[i].live && InPayload(bs[i], H, a) && a < |m1| ensures m1[a] == m0[a] {
      assert i < k ==> Before(bs, i, k, H);
      assert k < i ==> Before(bs, k, i, H);
    }
  }

  lemma SplitHeaders(m0: seq<Cell>, m1: seq<Cell>, bs: seq<Block>, k: nat, n: nat, H: nat)
    requires H > 0 && Headers(m0, bs) && Laid(bs, H, |m0|) && k < |bs| && bs[k].size >= n + H
    requires Within(m0, m1, bs[k].addr, End(bs[k], H))
    requires m1[bs[k].addr] == Head(Some(bs[k].addr + H + n), n, false)
    requires m1[bs[k].addr + H + n] == Head(AddrAt(bs, k + 1), bs[k].size - n - H, false)
    ensures Headers(m1, Split(bs, k, n, H)[k := Block(bs[k].addr, n, false)])
    ensures Laid(Split(bs, k, n, H)[k := Block(bs[k].addr, n, false)], H, |m1|)
  {
    SplitIsLaid(bs, k, n, H, |m0|);
    MarkIsLaid(Split(bs, k, n, H), k, false, H, |m0|);
    var c := Split(bs, k, n, H)[k := Block(bs[k].addr, n, false)];
    forall i | 0 <= i < |c| ensures Header(m1, c, i) {
      if i < k {
        assert Header(m0, bs, i) && Before(bs, i, k, H) && c[i] == bs[i];
      } else if i > k + 1 {
        assert Header(m0, bs, i - 1) && Before(bs, k, i - 1, H) && c[i] == bs[i - 1];
      }
    }
  }

  /** Only the header of block k has changed, its address not. */
  lemma MarkHeaders(m0: seq<Cell>, m1: seq<Cell>, bs: seq<Block>, k: nat, live: bool, H: nat)
    requires H > 0 && Headers(m0, bs) && Laid(bs, H, |m0|) && k < |bs|
    requires Within(m0, m1, bs[k].addr, bs[k].addr + 1)
    requires m1[bs[k].addr] == Head(AddrAt(bs, k + 1), bs[k].size, live)
    ensures Headers(m1, bs[k := bs[k].(live := live)]) && Laid(bs[k := bs[k].(live := live)], H, |m1|)
  {
    var c := bs[k := bs[k].(live := live)];
    MarkIsLaid(bs, k, live, H, |m0|);
    forall i | 0 <= i < |c| ensures Header(m1, c, i) {
      assert Header(m0, bs, i);
      assert i < k ==> Before(bs, i, k, H);
      assert i > k ==> Before(bs, k, i, H);
    }
  }

  lemma CutHeaders(m0: seq<Cell>, m1: seq<Cell>, bs: seq<Block>, k: nat, H: nat)
    requires H > 0 && Headers(m0, bs) && Laid(bs, H, |m0|) && k < |bs| && |m1| == |m0|
    requires forall x :: 0 <= x < |m0| && (k == 0 || x != bs[k - 1].addr) ==> m1[x] == m0[x]
    requires k > 0 ==>
      bs[k - 1].addr < |m0| && m1[bs[k - 1].addr] == Head(AddrAt(bs, k + 1), bs[k - 1].size, bs[k - 1].live)
    ensures Headers(m1, Cut(bs, k)) && Laid(Cut(bs, k), H, |m1|)
  {
    CutIsLaid(bs, k, H, |m0|);
    var c := Cut(bs, k);
    forall i | 0 <= i < |c| ensures Header(m1, c, i) {
      if i < k {
        assert Header(m0, bs, i) && c[i] == bs[i] && (i < k - 1 ==> Before(bs, i, k - 1, H));
      } else {
        assert Header(m0, bs, i + 1) && c[i] == bs[i + 1] && (k > 0 ==> Before(bs, k - 1, i + 1, H));
      }
    }
  }

  /** The reverse: block k linked in between its neighbours. */
  lemma SpliceHeaders(m0: seq<Cell>, m1: seq<Cell>, bs: seq<Block>, k: nat, H: nat)
    requires H > 0 && k < |bs| && Headers(m0, Cut(bs, k)) && Laid(bs, H, |m0|) && |m1| == |m0|
    requires Near(m0, m1, bs, k)
    requires bs[k].addr < |m0| && m1[bs[k].addr] == Head(AddrAt(bs, k + 1), bs[k].size, bs[k].live)
    requires k > 0 ==>
      bs[k - 1].addr < |m0| && m1[bs[k - 1].addr] == Head(Some(bs[k].addr), bs[k - 1].size, bs[k - 1].live)
    ensures Headers(m1, bs)
  {
    var c := Cut(bs, k);
    forall i | 0 <= i < |bs| ensures Header(m1, bs, i) {
      if i < k {
        assert Header(m0, c, i) && c[i] == bs[i] && Before(bs, i, k, H);
        assert i < k - 1 ==> Before(bs, i, k - 1, H);
      } else if i > k {
        assert Header(m0, c, i - 1) && c[i - 1] == bs[i] && Before(bs, k, i, H);
        assert k > 0 ==> Before(bs, k - 1, i, H);
      }
    }
  }

  lemma MergeHeaders(m0: seq<Cell>, m1: seq<Cell>, bs: seq<Block>, k: nat, H: nat)
    requires H > 0 && Headers(m0, bs) && Laid(bs, H, |m0|) && Joinable(bs, k, H)
    requires Within(m0, m1, bs[k].addr, bs[k].addr + 1)
    requires m1[bs[k].addr] == Head(AddrAt(bs, k + 2), bs[k].size + H + bs[k + 1].size, false)
    ensures Headers(m1, Merge(bs, k, H)) && Laid(Merge(bs, k, H), H, |m1|)
  {
    MergeIsLaid(bs, k, H, |m0|);
    var c := Merge(bs, k, H);
    forall j | 0 <= j < |c| ensures Header(m1, c, j) {
      if j < k {
        assert c[j] == bs[j] && Header(m0, bs, j) && Before(bs, j, k, H);
      } else if j > k {
        assert c[j] == bs[j + 1] && Header(m0, bs, j + 1) && Before(bs, k, j + 1, H);
      }
    }
  }

  /** A change inside the payload of one live block touches neither headers nor other payloads. */
  lemma PayloadWrite(m0: seq<Cell>, m1: seq<Cell>, bs: seq<Block>, k: nat, H: nat)
    requires H > 0 && Headers(m0, bs) && Laid(bs, H, |m0|) && k < |bs|
    requires Within(m0, m1, bs[k].addr + H, End(bs[k], H))
    ensures Headers(m1, bs)
    ensures forall i, a :: 0 <= i < |bs| && i != k && InPayload(bs[i], H, a) && a < |m1| ==> m1[a] == m0[a]
  {
    forall i | 0 <= i < |bs| ensures Header(m1, bs, i) {
      assert Header(m0, bs, i);
      assert i < k ==> Before(bs, i, k, H);
      assert k < i ==> Before(bs, k, i, H);
    }
    forall i, a | 0 <= i < |bs| && i != k && InPayload(bs[i], H, a) && a < |m1| ensures m1[a] == m0[a] {
      assert i < k ==> Before(bs, i, k, H);
      assert k < i ==> Before(bs, k, i, H);
    }
  }

  /** The first len cells from p in m0 are the first len cells from r in m1. */
  predicate CarriedOver(m0: seq<Cell>, m1: seq<Cell>, p: nat, r: nat, len: nat) {
    p + len <= |m0| && r + len <= |m1| && m1[r..r + len] == m0[p..p + len]
  }

  /** The position that block i has after block k was handed out. */
  function Shifted(h: Heap, k: nat, size: nat, i: nat, H: nat): nat
    requires k < |h.blocks|
  {
    if i > k && Splits(h.blocks[k].size, size, H) then i + 1 else i
  }

  /** Handing out block k leaves every other block as it is, and gives k at least the size asked for. */
  lemma AllocAtShape(h: Heap, k: nat, size: nat, i: nat, H: nat)
    requires k < |h.blocks| && h.blocks[k].size >= size && i < |h.blocks| && i != k
    ensures var g, j := AllocAt(h, k, size, H), Shifted(h, k, size, i, H);
      && j < |g.blocks| && g.blocks[j] == h.blocks[i]
      && k < |g.blocks| && g.blocks[k].live && g.blocks[k].addr == h.blocks[k].addr &&
          size <= g.blocks[k].size <= h.blocks[k].size
  {
  }

  lemma KeptInBoth(m0: seq<Cell>, m1: seq<Cell>, h: Heap, k: nat, size: nat, H: nat)
    requires k < |h.blocks| && h.blocks[k].size >= size && !h.blocks[k].live
    requires Kept(m0, m1, AllocAt(h, k, size, H).blocks, H)
    ensures Kept(m0, m1, h.blocks, H)
  {
    var g := AllocAt(h, k, size, H);
    forall i, a | 0 <= i < |h.blocks| && h.blocks[i].live && InPayload(h.blocks[i], H, a) &&
        a < |m1| ensures m1[a] == m0[a] {
      AllocAtShape(h, k, size, i, H);
      assert InPayload(g.blocks[Shifted(h, k, size, i, H)], H, a);
    }
  }

  lemma KeptTwice(m0: seq<Cell>, m1: seq<Cell>, m2: seq<Cell>, bs: seq<Block>, H: nat)
    requires Kept(m0, m1, bs, H) && Kept(m1, m2, bs, H)
    ensures Kept(m0, m2, bs, H)
  {
  }

  lemma CarriedTwice(m0: seq<Cell>, m1: seq<Cell>, m2: seq<Cell>, p: nat, r: nat, len: nat)
    requires CarriedOver(m0, m1, p, r, len) && CarriedOver(m1, m2, r, r, len)
    ensures CarriedOver(m0, m2, p, r, len)
  {
  }

  /** The first len bytes of live block k stay. */
  lemma Untouched(m0: seq<Cell>, m1: seq<Cell>, bs: seq<Block>, k: nat, len: nat, H: nat)
    requires k < |bs| && bs[k].live && len <= bs[k].size && Kept(m0, m1, bs, H) && End(bs[k], H) <= |m0|
    ensures CarriedOver(m0, m1, bs[k].addr + H, bs[k].addr + H, len)
  {
    var p := bs[k].addr + H;
    forall a | p <= a < p + len ensures m1[a] == m0[a] {
      assert InPayload(bs[k], H, a);
    }
  }

  /** Two blocks never start at the same address. */
  lemma FindIs(bs: seq<Block>, k: nat, p: nat, H: nat, limit: nat)
    requires Laid(bs, H, limit) && H > 0 && k < |bs| && bs[k].addr + H == p
    ensures Find(bs, p, H) == k
  {
    AddressOrder(bs, H, limit);
  }

  class Pool {
    const H: nat                  // sizeof(os_block_header_t)
    const mem: array<Cell>        // uc_heap from its aligned start
    var list: Option<nat>         // px_block_list
    var freeBytes: nat
    var minFree: nat

    /** The list that starts at px_block_list spells out bs. */
    ghost predicate Chain(bs: seq<Block>)
      reads this`list, mem
    {
      H > 0 && Laid(bs, H, mem.Length) && list == AddrAt(bs, 0) && Headers(mem[..], bs)
    }

    ghost predicate Rep(h: Heap)
      reads this, mem
    {
      Chain(h.blocks) && Tiled(h.blocks, H, mem.Length) && freeBytes == h.freeBytes && minFree == h.minFree
    }

    /** os_heap_init */
    constructor (H: nat, limit: nat)
      requires 0 < H <= limit < TWO32 / 2
      ensures this.H == H && mem.Length == limit && fresh(mem) && Rep(Initial(H, limit))
    {
      this.H := H;
      mem := new Cell[limit](i => if 0 <= i < H then Rest else Byte(0));
      list, freeBytes, minFree := Some(0), limit - H, limit - H;
      new;
      mem[0] := Head(None, limit - H, false);
      assert Header(mem[..], Initial(H, limit).blocks, 0);
    }

    /** The first-fit walk of os_heap_alloc. */
    method FindFit(n: nat, ghost bs: seq<Block>) returns (block: Option<nat>)
      requires Chain(bs)
      ensures block == AddrAt(bs, FirstFit(bs, n))
    {
      ghost var k := 0;
      block := list;
      while block.Some?
        invariant 0 <= k <= |bs| && block == AddrAt(bs, k)
        invariant FirstFit(bs, n) == k + FirstFit(bs[k..], n)
        decreases |bs| - k
      {
        assert Header(mem[..], bs, k) && bs[k..][0] == bs[k] && bs[k..][1..] == bs[k + 1..];
        if !mem[block.value].top && mem[block.value].size >= n {
          break;
        }
        block := mem[block.value].next;
        k := k + 1;
      }
    }

    /** os_heap_get_largest_free_block */
    method LargestFree(ghost bs: seq<Block>) returns (largest: nat)
      requires Chain(bs)
      ensures largest == Largest(bs)
    {
      ghost var k := 0;
      var block := list;
      largest := 0;
      while block.Some?
        invariant 0 <= k <= |bs| && block == AddrAt(bs, k) && largest == Largest(bs[..k])
        decreases |bs| - k
      {
        assert Header(mem[..], bs, k) && bs[..k + 1][..k] == bs[..k] && bs[..k + 1][k] == bs[k];
        if !mem[block.value].top {
          var sz := mem[block.value].size;
          if sz > largest {
            largest := sz;
          }
        }
        block := mem[block.value].next;
        k := k + 1;
      }
      assert bs[..k] == bs;
    }

    // ---------- Allocation ----------

    /** A header made in the pool: H cells. */
    method NewHeader(a: nat, next: Option<nat>, size: nat)
      requires 0 < H && a + H <= mem.Length
      modifies mem
      ensures mem[a] == Head(next, size, false) && Within(old(mem[..]), mem[..], a, a + H)
    {
      mem[a] := Head(next, size, false);
      for i := 1 to H
        invariant mem[a] == Head(next, size, false) && Within(old(mem[..]), mem[..], a, a + H)
      {
        mem[a + i] := Rest;
      }
    }

    /** The split in os_heap_alloc; the front part is marked allocated later. */
    method SplitBlock(a: nat, n: nat, ghost bs: seq<Block>, ghost k: nat)
      requires Chain(bs) && AddrAt(bs, k) == Some(a) && bs[k].size >= n + H
      modifies mem
      ensures k < |Split(bs, k, n, H)|
      ensures Chain(Split(bs, k, n, H)[k := Block(a, n, false)])
      ensures Within(old(mem[..]), mem[..], a, End(bs[k], H))
    {
      assert Header(mem[..], bs, k);
      var b := a + H + n;
      NewHeader(b, mem[a].next, mem[a].size - n - H);
      mem[a] := Head(Some(b), n, false);
      SplitHeaders(old(mem[..]), mem[..], bs, k, n, H);
    }

    /** prv_block_set_allocated and prv_block_set_free */
    method Mark(a: nat, live: bool, ghost bs: seq<Block>, ghost k: nat)
      requires Chain(bs) && AddrAt(bs, k) == Some(a)
      modifies mem
      ensures Chain(bs[k := bs[k].(live := live)])
      ensures Within(old(mem[..]), mem[..], a, a + 1)
    {
      assert Header(mem[..], bs, k);
      mem[a] := mem[a].(top := live);
      MarkHeaders(old(mem[..]), mem[..], bs, k, live, H);
    }

    /** The part of os_heap_alloc that turns free block k into an allocated one of n bytes. */
    method TakeBlock(a: nat, n: nat, ghost bs: seq<Block>, ghost k: nat) returns (taken: nat)
      requires Chain(bs) && AddrAt(bs, k) == Some(a) && bs[k].size >= n
      modifies mem
      ensures Chain(if Splits(bs[k].size, n, H) then Split(bs, k, n, H) else bs[k := bs[k].(live := true)])
      ensures taken == if Splits(bs[k].size, n, H) then n + H else bs[k].size
      ensures Within(old(mem[..]), mem[..], a, End(bs[k], H))
    {
      assert Header(mem[..], bs, k);
      var size := mem[a].size;
      if size >= n + H + ALIGNMENT {
        SplitBlock(a, n, bs, k);
        ghost var c := Split(bs, k, n, H)[k := Block(a, n, false)];
        Mark(a, true, c, k);
        assert c[k := c[k].(live := true)] == Split(bs, k, n, H);
        taken := n + H;
      } else {
        Mark(a, true, bs, k);
        taken := size;
      }
    }

    /** The counters of os_heap_alloc */
    method Consume(taken: nat)
      modifies `freeBytes, `minFree
      ensures freeBytes == Wrap(old(freeBytes) - taken) && minFree == Min(old(minFree), freeBytes)
    {
      freeBytes := Wrap(freeBytes - taken);
      if freeBytes < minFree {
        minFree := freeBytes;
      }
    }

    /** os_heap_alloc: NULL is None. */
    method Alloc(n: nat, ghost h: Heap) returns (ptr: Option<nat>)
      requires Rep(h) && n < TWO32
      modifies `freeBytes, `minFree, mem
      ensures Rep(HeapSpec.Alloc(h, n, H))
      ensures var k := Place(h, n); ptr == if k < |h.blocks| then Some(h.blocks[k].addr + H) else None
      ensures Kept(old(mem[..]), mem[..], h.blocks, H)
    {
      if n == 0 {
        return None;
      }
      ptr := AllocRounded(AlignUp(n), h);
    }

    /** The address os_heap_alloc returns for block k. */
    ghost function PayloadAt(bs: seq<Block>, k: nat): Option<nat> {
      if k < |bs| then Some(bs[k].addr + H) else None
    }

    /** os_heap_alloc once the size is rounded up */
    method AllocRounded(size: nat, ghost h: Heap) returns (ptr: Option<nat>)
      requires Rep(h)
      modifies `freeBytes, `minFree, mem
      ensures Rep(AllocAt(h, FirstFit(h.blocks, size), size, H))
      ensures ptr == PayloadAt(h.blocks, FirstFit(h.blocks, size))
      ensures Kept(old(mem[..]), mem[..], h.blocks, H)
    {
      ghost var k := FirstFit(h.blocks, size);
      var block := FindFit(size, h.blocks);
      if block.None? {
        return None;
      }
      var taken := TakeBlock(block.value, size, h.blocks, k);
      Consume(taken);
      FreeBlockKeeps(old(mem[..]), mem[..], h.blocks, k, H);
      TakenTiled(h, k, size);
      ptr := Some(block.value + H);
    }

    lemma TakenTiled(h: Heap, k: nat, size: nat)
      requires Tiled(h.blocks, H, mem.Length) && k < |h.blocks| && !h.blocks[k].live && h.blocks[k].size >= size
      ensures Tiled(if Splits(h.blocks[k].size, size, H) then Split(h.blocks, k, size, H)
                    else h.blocks[k := h.blocks[k].(live := true)], H, mem.Length)
    {
      if Splits(h.blocks[k].size, size, H) {
        SplitTiled(h.blocks, k, size, H, mem.Length);
      } else {
        MarkTiled(h.blocks, k, true, H, mem.Length);
      }
    }

    // ---------- Release ----------

    /** The walk of os_heap_free to the block before a. */
    method FindPrev(a: nat, ghost bs: seq<Block>, ghost k: nat) returns (prev: Option<nat>)
      requires Chain(bs) && AddrAt(bs, k) == Some(a)
      ensures prev == AddrAt(bs, k - 1)
    {
      AddressOrder(bs, H, mem.Length);
      prev := None;
      var iter := list;
      ghost var j := 0;
      while iter.Some? && iter.value != a
        invariant 0 <= j <= k && iter == AddrAt(bs, j) && prev == AddrAt(bs, j - 1)
        decreases k - j
      {
        assert Header(mem[..], bs, j);
        prev := iter;
        iter := mem[iter.value].next;
        j := j + 1;
      }
    }

    /** The first half of os_heap_free's relinking: block a leaves the list. */
    method Remove(a: nat, ghost bs: seq<Block>, ghost k: nat)
      requires Chain(bs) && AddrAt(bs, k) == Some(a)
      modifies `list, mem
      ensures Chain(Cut(bs, k))
      ensures a < mem.Length && mem[a] == old(mem[a]) && Near(old(mem[..]), mem[..], bs, k)
    {
      var prev := FindPrev(a, bs, k);
      assert Header(mem[..], bs, k);
      if prev.Some? {
        assert Header(mem[..], bs, k - 1) && Before(bs, k - 1, k, H);
        mem[prev.value] := mem[prev.value].(next := mem[a].next);
      } else {
        list := mem[a].next;
      }
      CutHeaders(old(mem[..]), mem[..], bs, k, H);
    }

    /** The address-order walk of prv_insert_block; bs is the list with the block already in it. */
    method FindGap(a: nat, ghost bs: seq<Block>, ghost k: nat) returns (prev: Option<nat>, iter: Option<nat>)
      requires AddrAt(bs, k) == Some(a) && Chain(Cut(bs, k)) && Laid(bs, H, mem.Length)
      ensures prev == AddrAt(bs, k - 1) && iter == AddrAt(bs, k + 1)
    {
      AddressOrder(bs, H, mem.Length);
      prev, iter := None, list;
      ghost var c, j := Cut(bs, k), 0;
      while iter.Some?
        invariant 0 <= j <= k && iter == AddrAt(c, j) && prev == AddrAt(c, j - 1)
        decreases k - j
      {
        assert Header(mem[..], c, j);
        if iter.value > a {
          break;
        }
        prev := iter;
        iter := mem[iter.value].next;
        j := j + 1;
      }
    }

    /** prv_insert_block without the coalescing */
    method LinkIn(a: nat, ghost bs: seq<Block>, ghost k: nat) returns (prev: Option<nat>)
      requires AddrAt(bs, k) == Some(a) && Chain(Cut(bs, k)) && Laid(bs, H, mem.Length)
      requires a < mem.Length && mem[a].Head? && mem[a].size == bs[k].size && mem[a].top == bs[k].live
      modifies `list, mem
      ensures Chain(bs) && prev == AddrAt(bs, k - 1) && Near(old(mem[..]), mem[..], bs, k)
    {
      var iter: Option<nat>;
      prev, iter := FindGap(a, bs, k);
      mem[a] := mem[a].(next := iter);
      if prev.Some? {
        assert Header(old(mem[..]), Cut(bs, k), k - 1) && Before(bs, k - 1, k, H);
        mem[prev.value] := mem[prev.value].(next := Some(a));
      } else {
        list := Some(a);
      }
      SpliceHeaders(old(mem[..]), mem[..], bs, k, H);
    }

    /** Two free neighbours become one block. */
    method Join(a: nat, ghost bs: seq<Block>, ghost i: nat)
      requires Chain(bs) && AddrAt(bs, i) == Some(a) && Joinable(bs, i, H)
      modifies mem
      ensures Chain(Merge(bs, i, H)) && Within(old(mem[..]), mem[..], a, a + 1)
      ensures a < mem.Length && mem[a].Head? && !mem[a].top
    {
      assert Header(mem[..], bs, i) && Header(mem[..], bs, i + 1);
      var b := mem[a].next.value;
      mem[a] := Head(mem[b].next, mem[a].size + H + mem[b].size, false);
      MergeHeaders(old(mem[..]), mem[..], bs, i, H);
    }

    /** The second coalescing test of prv_insert_block, on the free block at a. */
    method JoinNext(a: nat, ghost bs: seq<Block>, ghost i: nat)
      requires Chain(bs) && AddrAt(bs, i) == Some(a) && !bs[i].live
      modifies mem
      ensures Chain(MergeIf(bs, i, H)) && Within(old(mem[..]), mem[..], a, a + 1)
      ensures a < mem.Length && mem[a].Head? && !mem[a].top
    {
      assert Header(mem[..], bs, i);
      var next := mem[a].next;
      if next.Some? {
        assert Header(mem[..], bs, i + 1);
        if a + H + mem[a].size == next.value && !mem[next.value].top {
          Join(a, bs, i);
        }
      }
    }

    /** Block a merged into its predecessor, and then the second test. */
    method JoinPrev(prev: nat, a: nat, ghost f: seq<Block>, ghost k: nat)
      requires AddrAt(f, k) == Some(a) && Chain(f) && Some(prev) == AddrAt(f, k - 1) && Joinable(f, k - 1, H)
      requires a < mem.Length && mem[a].Head? && !mem[a].top
      modifies mem
      ensures Chain(Coalesced(f, k, H)) && Within(old(mem[..]), mem[..], prev, prev + 1)
      ensures mem[a].Head? && !mem[a].top
    {
      Join(prev, f, k - 1);
      JoinNext(prev, Merge(f, k - 1, H), k - 1);
    }

    /** The coalescing in prv_insert_block */
    method JoinBoth(prev: Option<nat>, a: nat, ghost f: seq<Block>, ghost k: nat)
      requires AddrAt(f, k) == Some(a) && Chain(f) && !f[k].live && prev == AddrAt(f, k - 1)
      modifies mem
      ensures Chain(Coalesced(f, k, H)) && Near(old(mem[..]), mem[..], f, k)
      ensures a < mem.Length && mem[a].Head? && !mem[a].top
    {
      assert Header(mem[..], f, k);
      if prev.Some? {
        assert Header(mem[..], f, k - 1);
        if prev.value + H + mem[prev.value].size == a && !mem[prev.value].top {
          JoinPrev(prev.value, a, f, k);
          return;
        }
      }
      JoinNext(a, f, k);
    }

    /** prv_insert_block of a free block; f is the list with that block in its place. */
    method Insert(a: nat, ghost f: seq<Block>, ghost k: nat)
      requires AddrAt(f, k) == Some(a) && Chain(Cut(f, k)) && Laid(f, H, mem.Length) && !f[k].live
      requires a < mem.Length && mem[a].Head? && mem[a].size == f[k].size && !mem[a].top
      modifies `list, mem
      ensures Chain(Coalesced(f, k, H)) && Near(old(mem[..]), mem[..], f, k)
      ensures mem[a].Head? && !mem[a].top
    {
      var prev := LinkIn(a, f, k);
      JoinBoth(prev, a, f, k);
    }

    /** What the caller of os_heap_free may pass: NULL, an allocated block's payload, or one already free. */
    ghost predicate Freeable(ptr: Option<nat>, h: Heap)
      reads mem
    {
      ptr.Some? ==>
        && H <= ptr.value && ptr.value - H < mem.Length && mem[ptr.value - H].Head?
        && (mem[ptr.value - H].top ==> Find(h.blocks, ptr.value, H) < |h.blocks|)
    }

    /** os_heap_free. Its header stays behind with the bit clear, so a second free of the same address is refused. */
    method Free(ptr: Option<nat>, ghost h: Heap)
      requires Rep(h) && Freeable(ptr, h)
      modifies this, mem
      ensures Rep(if ptr.Some? then FreeAt(h, ptr.value, H) else h)
      ensures Kept(old(mem[..]), mem[..], h.blocks, H)
      ensures ptr.Some? ==> mem[ptr.value - H].Head? && !mem[ptr.value - H].top
    {
      if ptr.None? {
        return;
      }
      var block := ptr.value - H;
      ghost var k := Find(h.blocks, ptr.value, H);
      assert k < |h.blocks| ==> Header(mem[..], h.blocks, k);
      if mem[block].top {
        FreeBlock(block, h, k);
      }
    }

    /** The part of os_heap_free behind the sanity check */
    method FreeBlock(block: nat, ghost h: Heap, ghost k: nat)
      requires Rep(h) && AddrAt(h.blocks, k) == Some(block)
      modifies this, mem
      ensures Rep(HeapSpec.Free(h, k, H)) && Kept(old(mem[..]), mem[..], h.blocks, H)
      ensures block < mem.Length && mem[block].Head? && !mem[block].top
    {
      assert Header(mem[..], h.blocks, k);
      Credit(mem[block].size, h, k);
      Release(block, h.blocks, k);
      NearKeeps(old(mem[..]), mem[..], h.blocks, k, H);
      FreedTiled(h.blocks, k, H, mem.Length);
    }

    /** The counter of os_heap_free */
    method Credit(size: nat, ghost h: Heap, ghost k: nat)
      requires k < |h.blocks| && size == h.blocks[k].size && freeBytes == h.freeBytes
      modifies `freeBytes
      ensures freeBytes == HeapSpec.Free(h, k, H).freeBytes
    {
      freeBytes := Wrap(freeBytes + size);
    }

    /** The relinking of os_heap_free */
    method Release(block: nat, ghost bs: seq<Block>, ghost k: nat)
      requires Chain(bs) && AddrAt(bs, k) == Some(block)
      modifies `list, mem
      ensures Chain(Freed(bs, k, H)) && Near(old(mem[..]), mem[..], bs, k)
      ensures block < mem.Length && mem[block].Head? && !mem[block].top
    {
      ghost var f := bs[k := bs[k].(live := false)];
      Mark(block, false, bs, k);
      assert Header(mem[..], f, k);
      Remove(block, f, k);
      assert Cut(f, k) == Cut(bs, k);
      Insert(block, f, k);
    }

    // ---------- Reallocation ----------

    /** memcpy between two stretches that do not overlap. */
    method Copy(q: nat, p: nat, len: nat)
      requires p + len <= mem.Length && q + len <= mem.Length && (p + len <= q || q + len <= p)
      modifies mem
      ensures CarriedOver(old(mem[..]), mem[..], p, q, len)
      ensures Within(old(mem[..]), mem[..], q, q + len)
    {
      for i := 0 to len
        invariant forall a :: q <= a < q + i ==> mem[a] == old(mem[..])[a - q + p]
        invariant Within(old(mem[..]), mem[..], q, q + len)
      {
        assert mem[p + i] == mem[..][p + i] == old(mem[..])[p + i];
        mem[q + i] := mem[p + i];
      }
    }

    /** The old payload copied into block q of g, where nobody else has anything. */
    method CopyOver(r: nat, p: nat, len: nat, ghost h: Heap, ghost g: Heap, ghost k: nat, ghost q: nat, ghost size: nat)
      requires Grown(h, g, k, q, size) && PayloadAt(h.blocks, k) == Some(p) && PayloadAt(h.blocks, q) == Some(r)
      requires h.blocks[k].size == len < size && Rep(g) && Laid(h.blocks, H, mem.Length)
      modifies mem
      ensures Rep(g) && Kept(old(mem[..]), mem[..], h.blocks, H) && CarriedOver(old(mem[..]), mem[..], p, r, len)
    {
      AllocAtShape(h, q, size, k, H);
      assert k < q ==> Before(h.blocks, k, q, H);
      assert q < k ==> Before(h.blocks, q, k, H);
      Copy(r, p, len);
      FreeBlockKeeps(old(mem[..]), mem[..], h.blocks, q, H);
      PayloadWrite(old(mem[..]), mem[..], g.blocks, q, H);
    }

    /** Free block q of h was handed out in g, with at least size bytes; block k of h is live. */
    ghost predicate Grown(h: Heap, g: Heap, k: nat, q: nat, size: nat) {
      && k < |h.blocks| && q < |h.blocks| && h.blocks[k].live && !h.blocks[q].live
      && h.blocks[q].size >= size && g == AllocAt(h, q, size, H)
    }

    lemma HeaderAt(bs: seq<Block>, k: nat)
      requires Chain(bs) && k < |bs|
      ensures H <= bs[k].addr + H && bs[k].addr < mem.Length
      ensures mem[bs[k].addr] == Head(AddrAt(bs, k + 1), bs[k].size, bs[k].live)
    {
      assert Header(mem[..], bs, k);
    }

    /** The release of the old block j, which leaves the new block q alone. */
    method FreeOld(p: nat, r: nat, len: nat, ghost g: Heap, ghost j: nat, ghost q: nat)
      requires Rep(g) && PayloadAt(g.blocks, j) == Some(p)
      requires q < |g.blocks| && g.blocks[q].live && len <= g.blocks[q].size && g.blocks[q].addr + H == r
      modifies this, mem
      ensures Rep(FreeAt(g, p, H)) && Kept(old(mem[..]), mem[..], g.blocks, H)
      ensures CarriedOver(old(mem[..]), mem[..], r, r, len)
    {
      FindIs(g.blocks, j, p, H, mem.Length);
      HeaderAt(g.blocks, j);
      Free(Some(p), g);
      Untouched(old(mem[..]), mem[..], g.blocks, q, len, H);
    }

    /** os_heap_realloc after the allocation: copy, then free. */
    method MoveTo(r: nat, p: nat, len: nat, ghost h: Heap, ghost g: Heap, ghost k: nat, ghost q: nat, ghost size: nat)
      requires Grown(h, g, k, q, size) && PayloadAt(h.blocks, k) == Some(p) && PayloadAt(h.blocks, q) == Some(r)
      requires h.blocks[k].size == len < size && Rep(g) && Laid(h.blocks, H, mem.Length)
      modifies this, mem
      ensures Rep(FreeAt(g, p, H)) && Kept(old(mem[..]), mem[..], h.blocks, H) &&
          CarriedOver(old(mem[..]), mem[..], p, r, len)
    {
      CopyOver(r, p, len, h, g, k, q, size);
      ghost var m, j := mem[..], Shifted(h, q, size, k, H);
      AllocAtShape(h, q, size, k, H);
      FreeOld(p, r, len, g, j, q);
      KeptInBoth(m, mem[..], h, q, size, H);
      KeptTwice(old(mem[..]), m, mem[..], h.blocks, H);
      CarriedTwice(old(mem[..]), m, mem[..], p, r, len);
    }

    /** The growing half of os_heap_realloc. */
    method Grow(p: nat, size: nat, ghost h: Heap, ghost k: nat) returns (r: Option<nat>)
      requires Rep(h) && PayloadAt(h.blocks, k) == Some(p) && h.blocks[k].live && h.blocks[k].size < size < TWO32
      requires AlignUp(size) == size
      modifies this, mem
      ensures r == PayloadAt(h.blocks, Place(h, size))
      ensures Rep(if r.Some? then FreeAt(HeapSpec.Alloc(h, size, H), p, H) else h)
      ensures Kept(old(mem[..]), mem[..], h.blocks, H)
      ensures r.Some? ==> CarriedOver(old(mem[..]), mem[..], p, r.value, h.blocks[k].size)
    {
      assert Header(mem[..], h.blocks, k);
      var oldSize := mem[p - H].size;
      r := Alloc(size, h);
      if r.Some? {
        ghost var m := mem[..];
        Untouched(old(mem[..]), m, h.blocks, k, oldSize, H);
        MoveTo(r.value, p, oldSize, h, HeapSpec.Alloc(h, size, H), k, Place(h, size), size);
        KeptTwice(old(mem[..]), m, mem[..], h.blocks, H);
      }
    }

    /** os_heap_realloc of the payload of a live block */
    method Resize(p: nat, n: nat, ghost h: Heap, ghost k: nat) returns (r: Option<nat>)
      requires Rep(h) && n < TWO32 && k == Find(h.blocks, p, H) && k < |h.blocks| && h.blocks[k].live
      modifies this, mem
      ensures Rep(HeapSpec.Realloc(h, p, n, H)) && Kept(old(mem[..]), mem[..], h.blocks, H)
      ensures r == if n == 0 then None
                   else if AlignUp(n) <= h.blocks[k].size then Some(p)
                   else PayloadAt(h.blocks, Place(h, AlignUp(n)))
      ensures r.Some? ==> CarriedOver(old(mem[..]), mem[..], p, r.value, h.blocks[k].size)
    {
      assert Header(mem[..], h.blocks, k);
      if n == 0 {
        Free(Some(p), h);
        return None;
      }
      var size := AlignUp(n);
      if size <= mem[p - H].size {
        return Some(p);
      }
      AlignUpTwice(n);
      r := Grow(p, size, h, k);
    }

    /** os_heap_realloc of NULL, or of the payload of a live block. */
    method Realloc(ptr: Option<nat>, n: nat, ghost h: Heap) returns (r: Option<nat>)
      requires Rep(h) && n < TWO32
      requires ptr.Some? ==> var k := Find(h.blocks, ptr.value, H); k < |h.blocks| && h.blocks[k].live
      modifies this, mem
      ensures Rep(if ptr.Some? then HeapSpec.Realloc(h, ptr.value, n, H) else HeapSpec.Alloc(h, n, H))
      ensures var k, q := if ptr.Some? then Find(h.blocks, ptr.value, H) else 0,
                          Place(h, if ptr.Some? then AlignUp(n) else n);
        r == if ptr.Some? && n == 0 then None
             else if ptr.Some? && AlignUp(n) <= h.blocks[k].size then ptr
             else if q < |h.blocks| then Some(h.blocks[q].addr + H) else None
      ensures Kept(old(mem[..]), mem[..], h.blocks, H)
      ensures ptr.Some? && r.Some? ==> CarriedOver(old(mem[..]), mem[..], ptr.value, r.value,
          h.blocks[Find(h.blocks, ptr.value, H)].size)
    {
      if ptr.None? {
        r := Alloc(n, h);
      } else {
        r := Resize(ptr.value, n, h, Find(h.blocks, ptr.value, H));
      }
    }

    /** The owner of live block k stores into its payload. */
    method UserWrite(a: nat, v: nat, ghost h: Heap, ghost k: nat)
      requires Rep(h) && k < |h.blocks| && h.blocks[k].live && InPayload(h.blocks[k], H, a)
      modifies mem
      ensures Rep(h) && a < mem.Length && mem[a] == Byte(v)
      ensures forall i, x :: 0 <= i < |h.blocks| && i != k && InPayload(h.blocks[i], H, x) && x < mem.Length ==>
          mem[x] == old(mem[x])
    {
      mem[a] := Byte(v);
      PayloadWrite(old(mem[..]), mem[..], h.blocks, k, H);
    }
  }
}
