/**
 The mutex object (kernel/mutex.c) on top of the kernel: boosting moves the owner between ready lists, a contended
 caller joins the wait list, and the last unlock hands the mutex over. Each call is verified against MutexSpec.
 */
module Mutexes {
  import opened KernelTypes
  import opened KernelSpec
  import opened KernelSteps
  import opened WaitLists
  import opened Effects
  import opened Kernels
  import opened MutexSpec

  // ---------- What the calls do to the kernel ----------

  /** prv_boost_priority */
  function BoostSys(s: Sys, m: Mx): Sys
    requires CanCall(s) && (m.owner.Some? ==> m.owner.value < |s.tasks|)
  {
    var t := s.current.value;
    if Boosts(s.tasks, m, t) then SetPriority(s, m.owner.value, s.tasks[t].prio) else s
  }

  /** os_mutex_lock: a contended caller boosts the owner and, if it is to wait, is parked. */
  function LockSys(s: Sys, m: Mx, w: nat, timeout: nat): Sys
    requires CanCall(s) && (m.owner.Some? ==> m.owner.value < |s.tasks|)
  {
    var s1 := BoostSys(s, m);
    if Contended(m, s.current.value) && timeout != 0 && CanCall(s1) then Park(s1, w, MutexLock, timeout) else s1
  }

  /** prv_restore_priority, then prv_wake_and_transfer. */
  function UnlockSys(s: Sys, m: Mx): Sys
    requires CanCall(s)
  {
    var t := s.current.value;
    if !Frees(m, t) then s
    else
      var s1 := SetPriority(s, t, m.orig);
      if m.waiters != [] && m.waiters[0] < |s1.tasks| then Release(s1, m.waiters[0]) else s1
  }

  ghost predicate SamePrios(tasks: seq<Task>, tasks': seq<Task>) {
    |tasks'| == |tasks| && forall x :: PrioOf(tasks', x) == PrioOf(tasks, x)
  }

  lemma BoostShape(s: Sys, m: Mx)
    requires Inv(s) && CanCall(s) && (m.owner.Some? ==> m.owner.value < |s.tasks|)
    ensures var d := BoostSys(s, m);
      && Inv(d) && CanCall(d) && d.tasks == LockTasks(s.tasks, m, s.current.value)
      && d.waits == s.waits && d.current == s.current
  {
    var t := s.current.value;
    InvAt(s, t);
    if Boosts(s.tasks, m, t) {
      InvAt(s, m.owner.value);
      SetPriorityInv(s, m.owner.value, s.tasks[t].prio);
    }
  }

  /** What os_mutex_lock does to priorities and to the wait list is what MutexSpec says. */
  lemma LockShape(s: Sys, m: Mx, w: nat, timeout: nat)
    requires Inv(s) && CanCall(s) && w < |s.waits| && m.waiters == s.waits[w]
    requires m.owner.Some? ==> m.owner.value < |s.tasks|
    ensures var t, d := s.current.value, LockSys(s, m, w, timeout);
      && Inv(d) && w < |d.waits| && d.waits[w] == LockMx(s.tasks, m, t, timeout != 0).waiters
      && SamePrios(LockTasks(s.tasks, m, t), d.tasks)
  {
    BoostShape(s, m);
    if Contended(m, s.current.value) && timeout != 0 {
      ParkInv(BoostSys(s, m), w, MutexLock, timeout);
      ParkWaiters(BoostSys(s, m), w, MutexLock, timeout);
    }
  }

  lemma HeadWaits(s: Sys, w: nat)
    requires Inv(s) && w < |s.waits| && s.waits[w] != []
    ensures s.waits[w][0] < |s.tasks| && s.tasks[s.waits[w][0]].blockedOn == Some(w)
    ensures s.tasks[s.waits[w][0]].prio < NUM_PRIORITIES
  {
    WaitersAreOn(s, {}, w);
    InvAt(s, s.waits[w][0]);
  }

  lemma DetachCommutes(s: Sys, t: nat, r: Task, h: nat)
    requires t < |s.tasks| && h < |s.tasks| && t != h
    ensures Detach(Put(s, t, r), h) == Put(Detach(s, h), t, r)
  {
  }

  lemma AddCommutes(s: Sys, t: nat, r: Task, h: nat)
    requires t < |s.tasks| && h < |s.tasks| && t != h
    ensures AddToReady(Put(s, t, r), h) == Put(AddToReady(s, h), t, r)
  {
    assert AddToReady(Put(s, t, r), h).tasks == Put(AddToReady(s, h), t, r).tasks;
  }

  lemma PutCommutes(s: Sys, t: nat, r: Task, h: nat, q: Task)
    requires t < |s.tasks| && h < |s.tasks| && t != h
    ensures Put(Put(s, t, r), h, q) == Put(Put(s, h, q), t, r)
  {
    assert Put(Put(s, t, r), h, q).tasks == Put(Put(s, h, q), t, r).tasks;
  }

  /** Waking h does not look at task t. */
  lemma ReleaseCommutes(s: Sys, t: nat, r: Task, h: nat)
    requires t < |s.tasks| && h < |s.tasks| && t != h
    ensures Release(Put(s, t, r), h) == Put(Release(s, h), t, r)
  {
    var q := s.tasks[h].(blockedOn := None, reason := NoReason, delay := 0, timedOut := false);
    DetachCommutes(s, t, r, h);
    PutCommutes(Detach(s, h), t, r, h, q);
    AddCommutes(Put(Detach(s, h), h, q), t, r, h);
  }

  /** o gets priority p: READY, it goes to the end of its new ready list; otherwise only the field changes. */
  ghost predicate Reprioritised(s: Sys, d: Sys, o: nat, p: nat) {
    && o < |s.tasks|
    && var r := s.tasks[o].(prio := p);
       if s.tasks[o].state == Ready then Moves(s, d, o, r) && LastOn(d, OnReady(p), o)
       else ListsKept(s, d) && d.tasks == s.tasks[o := r]
  }

  /** What os_mutex_lock does to the kernel: first the boost, if there is one, and then the wait, if there is one. */
  lemma LockEffect(s: Sys, m: Mx, w: nat, timeout: nat) returns (s1: Sys)
    requires Inv(s) && CanCall(s) && w < |s.waits| && (m.owner.Some? ==> m.owner.value < |s.tasks|)
    ensures var t, d := s.current.value, LockSys(s, m, w, timeout);
      && (if m.owner.Some? && m.owner.value != t && s.tasks[t].prio < s.tasks[m.owner.value].prio
          then Reprioritised(s, s1, m.owner.value, s.tasks[t].prio) else s1 == s)
      && (if m.owner.Some? && m.owner.value != t && timeout != 0 then Parks(s1, d, t, w, MutexLock, timeout)
          else d == s1)
  {
    var t := s.current.value;
    s1 := BoostSys(s, m);
    BoostShape(s, m);
    InvAt(s, t);
    if Boosts(s.tasks, m, t) {
      SetPriorityEffect(s, m.owner.value, s.tasks[t].prio);
    }
    if Contended(m, t) && timeout != 0 {
      ParkEffect(s1, w, MutexLock, timeout);
    }
  }

  /** The lists after the unlock: the RUNNING caller stays where it is, whatever its priority. */
  function UnlockLists(s: Sys, m: Mx): Sys
    requires CanCall(s)
  {
    if Frees(m, s.current.value) && m.waiters != [] && m.waiters[0] < |s.tasks| then Release(s, m.waiters[0]) else s
  }

  predicate Runs(s: Sys)
    requires CanCall(s)
  {
    s.tasks[s.current.value].state == Running
  }

  predicate Unlocking(s: Sys, m: Mx, w: nat) {
    CanCall(s) && w < |s.waits| && m.waiters == s.waits[w]
  }

  /** Waking the first waiter changes neither the caller nor any priority. */
  lemma WokenShape(s: Sys, w: nat, t: nat)
    requires Inv(s) && w < |s.waits| && s.waits[w] != [] && t < |s.tasks| && s.tasks[t].state == Running
    ensures s.waits[w][0] < |s.tasks| && s.waits[w][0] != t
    ensures var l := Release(s, s.waits[w][0]);
      && Inv(l) && l.waits == s.waits[w := s.waits[w][1..]] && l.current == s.current
      && SamePrios(s.tasks, l.tasks) && l.tasks[t] == s.tasks[t]
  {
    HeadWaits(s, w);
    InvAt(s, s.waits[w][0]);
    InvAt(s, t);
    ReleaseInv(s, s.waits[w][0]);
    ReleaseWaiters(s, w, 0);
    assert Cut(s.waits[w], 0) == s.waits[w][1..];
  }

  /** What os_mutex_unlock does to priorities and to the wait list is what MutexSpec says. */
  lemma UnlockShape(s: Sys, m: Mx, w: nat)
    requires Inv(s) && Unlocking(s, m, w) && Runs(s)
    ensures var t, l := s.current.value, UnlockLists(s, m);
      && Inv(l) && w < |l.waits| && l.waits[w] == UnlockMx(s.tasks, m, t).waiters
      && l.current == s.current && |l.tasks| == |s.tasks| && l.tasks[t] == s.tasks[t]
      && UnlockSys(s, m) == (if Frees(m, t) then Put(l, t, s.tasks[t].(prio := m.orig)) else l)
      && SamePrios(UnlockTasks(s.tasks, m, t), UnlockSys(s, m).tasks)
  {
    if Frees(m, s.current.value) && m.waiters != [] {
      HandedOverShape(s, m, w);
    }
  }

  lemma HandedOverShape(s: Sys, m: Mx, w: nat)
    requires Inv(s) && Unlocking(s, m, w) && Runs(s) && Frees(m, s.current.value) && m.waiters != []
    ensures m.waiters[0] < |s.tasks|
    ensures var t, l := s.current.value, Release(s, m.waiters[0]);
      && Inv(l) && w < |l.waits| && l.waits[w] == m.waiters[1..]
      && l.current == s.current && |l.tasks| == |s.tasks| && l.tasks[t] == s.tasks[t]
      && UnlockSys(s, m) == Put(l, t, s.tasks[t].(prio := m.orig))
      && SamePrios(WithPrio(s.tasks, t, m.orig), UnlockSys(s, m).tasks)
  {
    var t := s.current.value;
    WokenShape(s, w, t);
    ReleaseCommutes(s, t, s.tasks[t].(prio := m.orig), m.waiters[0]);
  }

  /** A READY caller moves to the ready list of its restored priority, so nothing is out of order. */
  lemma RestoreReady(s: Sys, p: nat)
    requires Inv(s) && CanCall(s) && !Runs(s) && p < NUM_PRIORITIES
    ensures var t, s1 := s.current.value, SetPriority(s, s.current.value, p);
      Inv(s1) && s1.waits == s.waits && s1.tasks == WithPrio(s.tasks, t, p)
  {
    var t := s.current.value;
    InvAt(s, t);
    SetPriorityInv(s, t, p);
    assert SetPriority(s, t, p).tasks == WithPrio(s.tasks, t, p);
  }

  lemma WokenHead(s: Sys, w: nat)
    requires Inv(s) && w < |s.waits| && s.waits[w] != []
    ensures s.waits[w][0] < |s.tasks|
    ensures var l := Release(s, s.waits[w][0]);
      Inv(l) && l.waits == s.waits[w := s.waits[w][1..]] && SamePrios(s.tasks, l.tasks)
  {
    HeadWaits(s, w);
    ReleaseInv(s, s.waits[w][0]);
    ReleaseWaiters(s, w, 0);
    assert Cut(s.waits[w], 0) == s.waits[w][1..];
  }

  /** The last unlock of a READY caller. */
  lemma ReadyUnlockShape(s: Sys, m: Mx, w: nat)
    requires Inv(s) && Unlocking(s, m, w) && !Runs(s) && Frees(m, s.current.value) && m.orig < NUM_PRIORITIES
    ensures var t, d := s.current.value, UnlockSys(s, m);
      && Inv(d) && w < |d.waits| && d.waits[w] == UnlockMx(s.tasks, m, t).waiters
      && SamePrios(UnlockTasks(s.tasks, m, t), d.tasks)
  {
    RestoreReady(s, m.orig);
    if m.waiters != [] {
      WokenHead(SetPriority(s, s.current.value, m.orig), w);
    }
  }

  /** The caller is not among the waiters. */
  lemma CallerElsewhere(s: Sys, w: nat)
    requires Inv(s) && CanCall(s) && w < |s.waits| && s.waits[w] != []
    ensures s.waits[w][0] < |s.tasks| && s.waits[w][0] != s.current.value
  {
    HeadWaits(s, w);
    InvAt(s, s.waits[w][0]);
    InvAt(s, s.current.value);
  }

  /** The unlock in two halves: d after the first, and what passing the mutex on makes of it. */
  lemma RestoredReady(s: Sys, m: Mx, w: nat) returns (d: Sys)
    requires Inv(s) && Unlocking(s, m, w) && !Runs(s) && Frees(m, s.current.value) && m.orig < NUM_PRIORITIES
    ensures d == SetPriority(s, s.current.value, m.orig) && Inv(d) && w < |d.waits| && d.waits[w] == m.waiters
    ensures if m.waiters == [] then UnlockSys(s, m) == d &&
        UnlockMx(s.tasks, m, s.current.value) == Mx(None, 0, m.orig, [])
            else && m.waiters[0] < |d.tasks| && UnlockSys(s, m) == Release(d, m.waiters[0])
                 && UnlockMx(s.tasks, m, s.current.value) == Mx(Some(m.waiters[0]), 1, d.tasks[m.waiters[0]].prio,
                     m.waiters[1..])
  {
    d := SetPriority(s, s.current.value, m.orig);
    RestoreReady(s, m.orig);
    if m.waiters != [] {
      CallerElsewhere(s, w);
    }
  }

  /**
   What os_mutex_unlock does to the kernel: the recorded priority restored and the first waiter woken, in this order
   for a READY caller, whose ready list both may change; for a RUNNING one the order makes no difference.
   */
  lemma UnlockEffect(s: Sys, m: Mx, w: nat) returns (s1: Sys)
    requires Inv(s) && Unlocking(s, m, w) && m.orig < NUM_PRIORITIES
    ensures var t, d := s.current.value, UnlockSys(s, m);
      if m.owner != Some(t) || m.locks > 1 then d == s
      else if Runs(s) then WakesFirst(s, s1, m.waiters) && Reprioritised(s1, d, t, m.orig)
      else Reprioritised(s, s1, t, m.orig) && WakesFirst(s1, d, m.waiters)
  {
    var t := s.current.value;
    s1 := s;
    if Frees(m, t) {
      if Runs(s) {
        s1 := UnlockLists(s, m);
        UnlockShape(s, m, w);
        FirstWakes(s, w);
      } else {
        s1 := SetPriority(s, t, m.orig);
        SetPriorityEffect(s, t, m.orig);
        RestoreReady(s, m.orig);
        FirstWakes(s1, w);
      }
    }
  }

  lemma FirstWakes(s: Sys, w: nat)
    requires Inv(s) && w < |s.waits|
    ensures s.waits[w] != [] ==> s.waits[w][0] < |s.tasks| && Wakes(s, Release(s, s.waits[w][0]), s.waits[w][0])
  {
    if s.waits[w] != [] {
      HeadWaits(s, w);
      ReleaseEffect(s, s.waits[w][0]);
    }
  }

  // ---------- The object ----------

  class Mutex {
    const kernel: Kernel
    var owner: Tcb?
    var lockCount: nat
    var originalPrio: nat
    const w: nat                  // stands for the address of wait_list

    ghost predicate Is(m: Mx, s: Sys)
      reads this, kernel
    {
      && w < |s.waits| && m == Mx(IdOf(owner), lockCount, originalPrio, s.waits[w])
      && kernel.Known(owner) && originalPrio < NUM_PRIORITIES && (owner != null ==> lockCount > 0)
    }

    /** os_mutex_create */
    constructor (k: Kernel, ghost s: Sys)
      requires k.Rep(s) && Inv(s)
      modifies k`waitLists
      ensures kernel == k && k.Rep(NewObject(s)) && Inv(NewObject(s)) && w == |s.waits| && Is(NEW_MUTEX, NewObject(s))
    {
      kernel, owner, lockCount, originalPrio := k, null, 0, 0;
      var v := k.NewWaitList(s);
      w := v;
    }

    /** os_mutex_lock; a parked caller returns Ok later, as the owner. */
    method Lock(timeout: nat, ghost s: Sys, ghost m: Mx) returns (st: Status)
      requires kernel.Rep(s) && Inv(s) && CanCall(s) && Is(m, s)
      modifies this`owner, this`lockCount, this`originalPrio
      modifies kernel`ready, kernel`bitmap, kernel`waitLists, kernel.tcbs`next, kernel.tcbs`prev, kernel.tcbs`task
      ensures m.owner.Some? ==> m.owner.value < |s.tasks|
      ensures st == LockStatus(m, s.current.value, timeout != 0)
      ensures kernel.Rep(LockSys(s, m, w, timeout)) && Inv(LockSys(s, m, w, timeout))
      ensures Is(LockMx(s.tasks, m, s.current.value, timeout != 0), LockSys(s, m, w, timeout))
      ensures SamePrios(LockTasks(s.tasks, m, s.current.value), LockSys(s, m, w, timeout).tasks)
    {
      LockShape(s, m, w, timeout);
      var current := kernel.current;
      if owner == null || owner == current {
        Acquire(s, m);
        return Ok;
      }
      st := LockContended(timeout, s, m);
    }

    /** os_mutex_lock of a free mutex, or once more by its owner. */
    method Acquire(ghost s: Sys, ghost m: Mx)
      requires kernel.Rep(s) && Inv(s) && CanCall(s) && Is(m, s) && !Contended(m, s.current.value)
      modifies this`owner, this`lockCount, this`originalPrio
      ensures Is(LockMx(s.tasks, m, s.current.value, true), s) && kernel.Rep(s)
    {
      var current := kernel.current;
      InvAt(s, current.id);
      if owner == null {
        owner, lockCount, originalPrio := current, 1, current.task.prio;
      } else {
        lockCount := lockCount + 1;
      }
    }

    /** os_mutex_lock of a mutex that another task owns. */
    method LockContended(timeout: nat, ghost s: Sys, ghost m: Mx) returns (st: Status)
      requires kernel.Rep(s) && Inv(s) && CanCall(s) && Is(m, s) && Contended(m, s.current.value)
      modifies kernel`ready, kernel`bitmap, kernel`waitLists, kernel.tcbs`next, kernel.tcbs`prev, kernel.tcbs`task
      ensures m.owner.value < |s.tasks| && kernel.Rep(LockSys(s, m, w, timeout))
      ensures st == if timeout != 0 then Parked else ErrWouldBlock
    {
      BoostShape(s, m);
      Boost(s, m);
      if timeout == 0 {
        return ErrWouldBlock;
      }
      kernel.BlockOn(kernel.current, w, MutexLock, timeout, BoostSys(s, m));
      return Parked;
    }

    /** prv_boost_priority */
    method Boost(ghost s: Sys, ghost m: Mx)
      requires kernel.Rep(s) && Inv(s) && CanCall(s) && Is(m, s) && Contended(m, s.current.value)
      modifies kernel`ready, kernel`bitmap, kernel.tcbs`next, kernel.tcbs`prev, kernel.tcbs`task
      ensures m.owner.value < |s.tasks| && kernel.Rep(BoostSys(s, m))
    {
      var current := kernel.current;
      InvAt(s, current.id);
      InvAt(s, owner.id);
      if current.task.prio < owner.task.prio {
        var _ := kernel.TaskSetPriority(owner, current.task.prio, s);
      }
    }

    /** prv_wake_and_transfer when somebody waits */
    method WakeFirst(woken: Tcb, ghost s: Sys)
      requires kernel.Rep(s) && Inv(s) && kernel.Known(woken) && w < |s.waits| && First(s.waits[w]) == Some(woken.id)
      modifies this`owner, this`lockCount, this`originalPrio
      modifies kernel`ready, kernel`bitmap, kernel`waitLists, kernel.tcbs`next, kernel.tcbs`prev, kernel.tcbs`task
      ensures woken.id < |s.tasks| && kernel.Rep(Release(s, woken.id)) && Inv(Release(s, woken.id))
      ensures owner == woken && lockCount == 1 && originalPrio == s.tasks[woken.id].prio < NUM_PRIORITIES
    {
      HeadWaits(s, w);
      owner, lockCount, originalPrio := woken, 1, woken.task.prio;
      kernel.Wake(woken, s);
    }

    /** prv_wake_and_transfer */
    method HandOver(ghost s: Sys)
      requires kernel.Rep(s) && Inv(s) && w < |s.waits|
      modifies this`owner, this`lockCount, this`originalPrio
      modifies kernel`ready, kernel`bitmap, kernel`waitLists, kernel.tcbs`next, kernel.tcbs`prev, kernel.tcbs`task
      ensures if s.waits[w] == []
              then && kernel.Rep(s) && owner == old(owner) && lockCount == old(lockCount)
                   && originalPrio == old(originalPrio)
              else && s.waits[w][0] < |s.tasks| && kernel.Rep(Release(s, s.waits[w][0]))
                   && Inv(Release(s, s.waits[w][0]))
                   && IdOf(owner) == Some(s.waits[w][0]) && kernel.Known(owner) && lockCount == 1
                   && originalPrio == s.tasks[s.waits[w][0]].prio < NUM_PRIORITIES
    {
      var woken := kernel.waitLists[w];
      if woken != null {
        WakeFirst(woken, s);
      }
    }

    /**
     os_mutex_unlock, but for the yield at its end. A boosted RUNNING caller stays on the ready list of its boosted
     priority: then, and only then, the kernel's invariant is lost (UnlockInvIff).
     */
    method Unlock(ghost s: Sys, ghost m: Mx) returns (st: Status)
      requires kernel.Rep(s) && Inv(s) && Unlocking(s, m, w) && Is(m, s)
      modifies this`owner, this`lockCount, this`originalPrio
      modifies kernel`ready, kernel`bitmap, kernel`waitLists, kernel.tcbs`next, kernel.tcbs`prev, kernel.tcbs`task
      ensures st == UnlockStatus(m, s.current.value)
      ensures if Runs(s) || !Frees(m, s.current.value)
              then kernel.RepBut(UnlockLists(s, m), UnlockSys(s, m).tasks)
              else kernel.Rep(UnlockSys(s, m)) && Inv(UnlockSys(s, m))
      ensures Is(UnlockMx(s.tasks, m, s.current.value), if Runs(s) then UnlockLists(s, m) else UnlockSys(s, m))
    {
      var current := kernel.current;
      if owner != current {
        return ErrState;
      }
      lockCount := lockCount - 1;
      if lockCount > 0 {
        return Ok;
      }
      if current.task.state == Running {
        GiveUp(s, m);
      } else {
        GiveUpReady(s, m);
      }
      return Ok;
    }

    /** The owner cleared, and the mutex passed on, in a kernel that is in order. */
    method PassOn(ghost s: Sys)
      requires kernel.Rep(s) && Inv(s) && w < |s.waits| && lockCount == 0 && originalPrio < NUM_PRIORITIES
      modifies this`owner, this`lockCount, this`originalPrio
      modifies kernel`ready, kernel`bitmap, kernel`waitLists, kernel.tcbs`next, kernel.tcbs`prev, kernel.tcbs`task
      ensures var l := s.waits[w];
        if l == [] then kernel.Rep(s) && Is(Mx(None, 0, old(originalPrio), []), s)
        else && l[0] < |s.tasks| && kernel.Rep(Release(s, l[0])) && Inv(Release(s, l[0]))
             && Is(Mx(Some(l[0]), 1, s.tasks[l[0]].prio, l[1..]), Release(s, l[0]))
    {
      if s.waits[w] != [] {
        WokenHead(s, w);
      }
      owner := null;
      HandOver(s);
    }

    /** prv_restore_priority of a READY task */
    method Requeue(ghost s: Sys, ghost d: Sys, prio: nat)
      requires kernel.Rep(s) && Inv(s) && CanCall(s) && !Runs(s) && prio < NUM_PRIORITIES
      requires d == SetPriority(s, s.current.value, prio)
      modifies kernel`ready, kernel`bitmap, kernel.tcbs`next, kernel.tcbs`prev, kernel.tcbs`task
      ensures kernel.Rep(d)
    {
      var _ := kernel.TaskSetPriority(kernel.current, prio, s);
    }

    /** The end of os_mutex_unlock for a READY caller: restore, then pass on. */
    method GiveUpReady(ghost s: Sys, ghost m: Mx)
      requires kernel.Rep(s) && Inv(s) && Unlocking(s, m, w) && !Runs(s) && Frees(m, s.current.value)
      requires lockCount == 0 && originalPrio == m.orig < NUM_PRIORITIES
      modifies this`owner, this`lockCount, this`originalPrio
      modifies kernel`ready, kernel`bitmap, kernel`waitLists, kernel.tcbs`next, kernel.tcbs`prev, kernel.tcbs`task
      ensures kernel.Rep(UnlockSys(s, m)) && Inv(UnlockSys(s, m))
      ensures Is(UnlockMx(s.tasks, m, s.current.value), UnlockSys(s, m))
    {
      ghost var d := RestoredReady(s, m, w);
      Requeue(s, d, originalPrio);
      PassOn(d);
    }

    /** The owner cleared, and the mutex passed on. */
    method Transfer(ghost s: Sys, ghost m: Mx)
      requires kernel.Rep(s) && Inv(s) && Unlocking(s, m, w) && Runs(s) && Frees(m, s.current.value)
      requires lockCount == 0 && originalPrio == m.orig < NUM_PRIORITIES
      modifies this`owner, this`lockCount, this`originalPrio
      modifies kernel`ready, kernel`bitmap, kernel`waitLists, kernel.tcbs`next, kernel.tcbs`prev, kernel.tcbs`task
      ensures kernel.Rep(UnlockLists(s, m)) && Is(UnlockMx(s.tasks, m, s.current.value), UnlockLists(s, m))
    {
      UnlockShape(s, m, w);
      owner := null;
      HandOver(s);
    }

    /**
     The end of os_mutex_unlock for a RUNNING caller. The waiter is woken before the priority is restored; by
     ReleaseCommutes it makes no difference.
     */
    method GiveUp(ghost s: Sys, ghost m: Mx)
      requires kernel.Rep(s) && Inv(s) && Unlocking(s, m, w) && Runs(s) && Frees(m, s.current.value)
      requires lockCount == 0 && originalPrio == m.orig < NUM_PRIORITIES
      modifies this`owner, this`lockCount, this`originalPrio
      modifies kernel`ready, kernel`bitmap, kernel`waitLists, kernel.tcbs`next, kernel.tcbs`prev, kernel.tcbs`task
      ensures kernel.RepBut(UnlockLists(s, m), UnlockSys(s, m).tasks)
      ensures Is(UnlockMx(s.tasks, m, s.current.value), UnlockLists(s, m))
    {
      UnlockShape(s, m, w);
      var current, prio := kernel.current, originalPrio;
      Transfer(s, m);
      Restore(current, prio, UnlockLists(s, m));
    }

    /** prv_restore_priority of the RUNNING task */
    method Restore(t: Tcb, prio: nat, ghost s: Sys)
      requires kernel.Rep(s) && Inv(s) && kernel.Known(t) && t.task.state == Running && prio < NUM_PRIORITIES
      modifies kernel`ready, kernel`bitmap, kernel.tcbs`next, kernel.tcbs`prev, kernel.tcbs`task
      ensures t.id < |s.tasks| && kernel.RepBut(s, s.tasks[t.id := s.tasks[t.id].(prio := prio)])
    {
      var _ := kernel.TaskSetPriority(t, prio, s);
      ghost var r := s.tasks[t.id].(prio := prio);
      if Enabled(s, DoSetPriority(t.id, prio)) {
        assert Put(s, t.id, r).tasks == s.tasks && Put(s, t.id, r) == s;
      }
    }
  }

  /** The unlock leaves the kernel in order exactly when the caller was not RUNNING with a boosted priority. */
  lemma UnlockInvIff(s: Sys, m: Mx, w: nat)
    requires Inv(s) && Unlocking(s, m, w) && Frees(m, s.current.value) && m.orig < NUM_PRIORITIES
    ensures Inv(UnlockSys(s, m)) <==> (Runs(s) ==> s.tasks[s.current.value].prio == m.orig)
  {
    if Runs(s) {
      UnlockShape(s, m, w);
      SetPriorityInvIff(UnlockLists(s, m), s.current.value, m.orig);
    } else {
      ReadyUnlockShape(s, m, w);
    }
  }
}
