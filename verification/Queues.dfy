/**
 The message queue in place (kernel/queue.c): a byte ring indexed by head and tail, with two wait lists of the
 kernel. Each call is verified against the first-in first-out sequence of QueueSpec.
 */
module Queues {
  import opened KernelTypes
  import opened KernelSpec
  import opened KernelSteps
  import opened Kernels
  import opened QueueSpec
  import opened Slots

  // ---------- Slots of the byte buffer ----------

  /** Slot k holds the item. */
  predicate Holds(buf: seq<bv8>, k: nat, size: nat, item: Item) {
    Offset(k, size) + size <= |buf| && buf[Offset(k, size)..Offset(k, size) + size] == item
  }

  /** The slot of item i of a queue that starts at slot `first`. */
  function Slot(first: nat, i: nat, max: nat): nat {
    if first + i >= max then first + i - max else first + i
  }

  /** Stepping an index by one item, modulo the size of the buffer, is stepping to the next slot. */
  lemma StepIndex(k: nat, size: nat, max: nat)
    requires k < max && 0 < size
    ensures 0 < Offset(max, size) && (Offset(k, size) + size) % Offset(max, size) == Offset(Next(k, max), size)
  {
    assert Offset(k + 1, size) == Offset(k, size) + size;
    OffsetOrder(0, max, size);
    if k + 1 < max {
      OffsetOrder(k + 1, max, size);
      SmallMod(Offset(k + 1, size), Offset(max, size));
    }
  }

  /** Writing one slot leaves the others as they are. */
  lemma OtherSlot(b0: seq<bv8>, b1: seq<bv8>, k: nat, j: nat, size: nat, item: Item)
    requires |b1| == |b0| && Holds(b0, j, size, item) && j != k
    requires forall a :: 0 <= a < |b0| && !(Offset(k, size) <= a < Offset(k, size) + size) ==> b1[a] == b0[a]
    ensures Holds(b1, j, size, item)
  {
    if j < k { OffsetOrder(j, k, size); } else { OffsetOrder(k, j, size); }
    var o := Offset(j, size);
    forall a | o <= a < o + size ensures b1[a] == b0[a] {}
    assert b1[o..o + size] == b0[o..o + size];
  }

  /** The ring holds the items of q, in order, from slot q.first on. */
  ghost predicate Ring(buf: seq<bv8>, q: Q, size: nat) {
    && 0 < size && q.first < q.max && |q.items| <= q.max && |buf| == Offset(q.max, size)
    && forall i {:trigger q.items[i]} :: 0 <= i < |q.items| ==> Holds(buf, Slot(q.first, i, q.max), size, q.items[i])
  }

  lemma SlotsDiffer(first: nat, i: nat, j: nat, max: nat)
    requires first < max && i < max && j < max && i != j
    ensures Slot(first, i, max) != Slot(first, j, max) && Slot(first, i, max) < max
  {
  }

  lemma RingAfterSend(b0: seq<bv8>, b1: seq<bv8>, q: Q, size: nat, item: Item)
    requires Ring(b0, q, size) && HasRoom(q)
    requires var k := Slot(q.first, |q.items|, q.max);
      && |b1| == |b0| && Holds(b1, k, size, item)
      && forall a :: 0 <= a < |b0| && !(Offset(k, size) <= a < Offset(k, size) + size) ==> b1[a] == b0[a]
    ensures Ring(b1, SendQ(q, item), size)
  {
    var n, d := |q.items|, SendQ(q, item);
    forall i {:trigger d.items[i]} | 0 <= i < |d.items| ensures Holds(b1, Slot(q.first, i, q.max), size, d.items[i]) {
      if i < n {
        SlotsDiffer(q.first, i, n, q.max);
        OtherSlot(b0, b1, Slot(q.first, n, q.max), Slot(q.first, i, q.max), size, q.items[i]);
      }
    }
  }

  lemma RingAfterReceive(buf: seq<bv8>, q: Q, size: nat)
    requires Ring(buf, q, size) && q.items != []
    ensures Ring(buf, ReceiveQ(q), size)
    ensures Slot(q.first, |q.items|, q.max) == Slot(Next(q.first, q.max), |q.items| - 1, q.max)
  {
    var d := ReceiveQ(q);
    forall i {:trigger d.items[i]} | 0 <= i < |d.items| ensures Holds(buf, Slot(d.first, i, q.max), size, d.items[i]) {
      assert d.items[i] == q.items[i + 1] && Slot(d.first, i, q.max) == Slot(q.first, i + 1, q.max);
    }
  }

  // ---------- The object ----------

  class Queue {
    const kernel: Kernel
    const buffer: array<bv8>
    const itemSize: nat
    const maxItems: nat
    var count: nat
    var head: nat
    var tail: nat
    const sw: nat                 // stands for the address of send_wait_list
    const rw: nat                 // stands for the address of recv_wait_list

    /** head and tail are the byte indices of the first slot in use and of the first one that is not. */
    ghost predicate Is(q: Q)
      reads this, buffer
    {
      && q.max == maxItems && q.sw == sw && q.rw == rw && count == |q.items|
      && Ring(buffer[..], q, itemSize)
      && head == Offset(q.first, itemSize)
      && tail == Offset(Slot(q.first, |q.items|, q.max), itemSize)
    }

    /** os_queue_create; the buffer comes from the heap. */
    constructor (k: Kernel, itemSize: nat, maxItems: nat, ghost s: Sys)
      requires k.Rep(s) && Inv(s) && 0 < itemSize && 0 < maxItems && itemSize * maxItems < TWO32
      modifies k`waitLists
      ensures kernel == k && fresh(buffer) && this.itemSize == itemSize
      ensures k.Rep(NewObject(NewObject(s))) && Inv(NewObject(NewObject(s)))
      ensures Is(Q([], maxItems, 0, |s.waits|, |s.waits| + 1))
    {
      OffsetIsProduct(maxItems, itemSize);
      kernel, this.itemSize, this.maxItems := k, itemSize, maxItems;
      buffer := new bv8[itemSize * maxItems];
      count, head, tail := 0, 0, 0;
      var v := k.NewWaitList(s);
      sw := v;
      var u := k.NewWaitList(NewObject(s));
      rw := u;
    }

    /** memcpy into the buffer at byte index `at` */
    method CopyIn(at: nat, item: Item)
      requires at + |item| <= buffer.Length
      modifies buffer
      ensures buffer[at..at + |item|] == item
      ensures forall a :: 0 <= a < buffer.Length && !(at <= a < at + |item|) ==> buffer[a] == old(buffer[a])
    {
      for i := 0 to |item|
        invariant forall a :: at <= a < at + i ==> buffer[a] == item[a - at]
        invariant forall a :: 0 <= a < buffer.Length && !(at <= a < at + i) ==> buffer[a] == old(buffer[a])
      {
        buffer[at + i] := item[i];
      }
    }

    /** memcpy out of the buffer at byte index `at` */
    method CopyOut(at: nat) returns (item: Item)
      requires at + itemSize <= buffer.Length
      ensures item == buffer[at..at + itemSize]
    {
      item := [];
      for i := 0 to itemSize
        invariant item == buffer[at..at + i]
      {
        item := item + [buffer[at + i]];
      }
    }

    /** prv_wake_task */
    method Wake(w: nat, ghost s: Sys)
      requires kernel.Rep(s) && Inv(s) && w < |s.waits|
      modifies kernel`ready, kernel`bitmap, kernel`waitLists, kernel.tcbs`next, kernel.tcbs`prev, kernel.tcbs`task
      ensures kernel.Rep(WakeTask(s, w))
    {
      WakeTaskInv(s, w);
      var tcb := kernel.waitLists[w];
      if tcb != null {
        kernel.Wake(tcb, s);
      }
    }

    /** The buffer half of os_queue_send. */
    method Push(item: Item, ghost q: Q)
      requires Is(q) && |item| == itemSize && HasRoom(q)
      modifies this`count, this`tail, buffer
      ensures Is(SendQ(q, item))
    {
      ghost var k := Slot(q.first, |q.items|, q.max);
      OffsetOrder(k, maxItems, itemSize);
      CopyIn(tail, item);
      RingAfterSend(old(buffer[..]), buffer[..], q, itemSize, item);
      StepIndex(k, itemSize, maxItems);
      tail := (tail + itemSize) % buffer.Length;
      count := count + 1;
    }

    /** The buffer half of os_queue_receive. */
    method Pop(ghost q: Q) returns (item: Item)
      requires Is(q) && q.items != []
      modifies this`count, this`head
      ensures Is(ReceiveQ(q)) && item == q.items[0]
    {
      item := Front(q);
      RingAfterReceive(buffer[..], q, itemSize);
      StepIndex(q.first, itemSize, maxItems);
      head := (head + itemSize) % buffer.Length;
      count := count - 1;
    }

    method Front(ghost q: Q) returns (item: Item)
      requires Is(q) && q.items != []
      ensures item == q.items[0]
    {
      OffsetOrder(q.first, maxItems, itemSize);
      assert Holds(buffer[..], Slot(q.first, 0, q.max), itemSize, q.items[0]);
      item := CopyOut(head);
    }

    /** An item stored, and a receiver woken. */
    method Deliver(item: Item, ghost s: Sys, ghost q: Q)
      requires kernel.Rep(s) && Inv(s) && Is(q) && |item| == itemSize && HasRoom(q) && rw < |s.waits|
      modifies this`count, this`tail, buffer
      modifies kernel`ready, kernel`bitmap, kernel`waitLists, kernel.tcbs`next, kernel.tcbs`prev, kernel.tcbs`task
      ensures Is(SendQ(q, item)) && kernel.Rep(WakeTask(s, rw))
    {
      Push(item, q);
      Wake(rw, s);
    }

    /** prv_block_task for the caller */
    method Await(w: nat, reason: Reason, timeout: nat, ghost s: Sys)
      requires kernel.Rep(s) && Inv(s) && CanCall(s) && w < |s.waits|
      modifies kernel`ready, kernel`bitmap, kernel`waitLists, kernel.tcbs`next, kernel.tcbs`prev, kernel.tcbs`task
      ensures kernel.Rep(Park(s, w, reason, timeout))
    {
      kernel.BlockOn(kernel.current, w, reason, timeout, s);
    }

    /** os_queue_send, without the yield it may ask for; a parked sender is later told Ok or a timeout. */
    method Send(item: Item, timeout: nat, ghost s: Sys, ghost q: Q) returns (st: Status)
      requires kernel.Rep(s) && Inv(s) && CanCall(s) && Is(q) && |item| == itemSize && sw < |s.waits| && rw < |s.waits|
      modifies this`count, this`tail, buffer
      modifies kernel`ready, kernel`bitmap, kernel`waitLists, kernel.tcbs`next, kernel.tcbs`prev, kernel.tcbs`task
      ensures st == SendStatus(q, timeout) && Is(SendQ(q, item)) && kernel.Rep(SendSys(s, q, timeout))
    {
      if count < maxItems {
        Deliver(item, s, q);
        return Ok;
      }
      if timeout == 0 {
        return ErrFull;
      }
      Await(sw, QueueSend, timeout, s);
      return Parked;
    }

    /** An item taken, and a sender woken. */
    method Collect(ghost s: Sys, ghost q: Q) returns (item: Item)
      requires kernel.Rep(s) && Inv(s) && Is(q) && q.items != [] && sw < |s.waits|
      modifies this`count, this`head
      modifies kernel`ready, kernel`bitmap, kernel`waitLists, kernel.tcbs`next, kernel.tcbs`prev, kernel.tcbs`task
      ensures Is(ReceiveQ(q)) && kernel.Rep(WakeTask(s, sw)) && item == q.items[0]
    {
      item := Pop(q);
      Wake(sw, s);
    }

    /** os_queue_receive */
    method Receive(timeout: nat, ghost s: Sys, ghost q: Q) returns (st: Status, item: Item)
      requires kernel.Rep(s) && Inv(s) && CanCall(s) && Is(q) && sw < |s.waits| && rw < |s.waits|
      modifies this`count, this`head
      modifies kernel`ready, kernel`bitmap, kernel`waitLists, kernel.tcbs`next, kernel.tcbs`prev, kernel.tcbs`task
      ensures st == ReceiveStatus(q, timeout) && Is(ReceiveQ(q)) && kernel.Rep(ReceiveSys(s, q, timeout))
      ensures st == Ok ==> item == q.items[0]
    {
      item := [];
      if count > 0 {
        item := Collect(s, q);
        return Ok, item;
      }
      if timeout == 0 {
        return ErrEmpty, [];
      }
      Await(rw, QueueRecv, timeout, s);
      return Parked, [];
    }

    /** The end of os_queue_send and os_queue_receive, when a parked caller runs again: no item moves. */
    method Resume(ghost s: Sys) returns (st: Status)
      requires kernel.Rep(s) && CanCall(s)
      ensures st == ResumeStatus(s) == if s.tasks[s.current.value].timedOut then ErrTimeout else Ok
    {
      st := kernel.ReturnStatus(s);
    }

    /** os_queue_peek */
    method Peek(ghost q: Q) returns (st: Status, item: Item)
      requires Is(q)
      ensures if q.items == [] then st == ErrEmpty else st == Ok && item == q.items[0]
    {
      if count == 0 {
        return ErrEmpty, [];
      }
      item := Front(q);
      st := Ok;
    }

    /** os_queue_overwrite */
    method Overwrite(item: Item, ghost s: Sys, ghost q: Q) returns (st: Status)
      requires kernel.Rep(s) && Inv(s) && Is(q) && |item| == itemSize && rw < |s.waits|
      modifies this`count, this`tail, buffer
      modifies kernel`ready, kernel`bitmap, kernel`waitLists, kernel.tcbs`next, kernel.tcbs`prev, kernel.tcbs`task
      ensures st == OverwriteStatus(q) && Is(OverwriteQ(q, item)) && kernel.Rep(OverwriteSys(s, q))
    {
      if maxItems != 1 {
        return ErrState;
      }
      if count == 0 {
        assert q.items + [item] == [item];
        Deliver(item, s, q);
      } else {
        Replace(item, q);
      }
      return Ok;
    }

    method Replace(item: Item, ghost q: Q)
      requires Is(q) && |item| == itemSize && maxItems == 1 && q.items != []
      modifies buffer
      ensures Is(OverwriteQ(q, item))
    {
      OffsetOrder(q.first, maxItems, itemSize);
      CopyIn(head, item);
      assert Holds(buffer[..], Slot(q.first, 0, q.max), itemSize, item);
    }

    /** os_queue_reset */
    method Reset(ghost s: Sys, ghost q: Q) returns (st: Status)
      requires kernel.Rep(s) && Is(q) && sw < |s.waits| && rw < |s.waits|
      modifies this`count, this`head, this`tail
      ensures st == ResetStatus(s, q) && Is(ResetQ(s, q)) && kernel.Rep(s)
    {
      if kernel.waitLists[sw] != null || kernel.waitLists[rw] != null {
        return ErrState;
      }
      count, head, tail := 0, 0, 0;
      return Ok;
    }
  }
}
