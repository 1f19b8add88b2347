/**
 The kernel proper: task table, ready lists, blocked list and scheduler
 (kernel/task.c, kernel/scheduler.c, kernel/notify.c), in place, on control blocks.
 Rep(s) ties the pointers to an abstract state s of KernelSpec; every method is given the
 abstract state it starts from and says which step of KernelSteps it carries out.
 */
module Kernels {
  import opened KernelTypes
  import opened KernelSpec
  import opened KernelSteps

  /** os_tcb_t; `id` is the task's index in task_table. */
  class Tcb {
    const id: nat
    var task: Task
    var next: Tcb?
    var prev: Tcb?

    constructor (id: nat, prio: nat)
      ensures this.id == id && task == NewTask(prio) && next == null && prev == null
    {
      this.id, task, next, prev := id, NewTask(prio), null, null;
    }
  }

  /** __builtin_ctz: the lowest set bit at or above p. */
  function Ctz(b: seq<bool>, p: nat): (q: nat)
    requires p <= |b|
    ensures p <= q <= |b|
    ensures q < |b| ==> b[q]
    ensures forall i :: p <= i < q ==> !b[i]
    decreases |b| - p
  {
    if p == |b| || b[p] then p else Ctz(b, p + 1)
  }

  /** The bitmap's lowest set bit is the first non-empty ready list. */
  lemma TopIsCtz(b: seq<bool>, r: seq<seq<nat>>, p: nat)
    requires p <= |r| <= |b|
    requires forall i :: 0 <= i < |b| ==> (b[i] <==> i < |r| && r[i] != [])
    ensures if Top(r, p) < |r| then Ctz(b, p) == Top(r, p) else Ctz(b, p) == |b|
  {
  }

  /** os_ready_list_t */
  datatype ReadyList = ReadyList(head: Tcb?, tail: Tcb?, count: nat)

  function IdOf(t: Tcb?): Option<nat> {
    if t == null then None else Some(t.id)
  }

  class Kernel {
    var ready: seq<ReadyList>         // ready_list
    var bitmap: seq<bool>             // ready_bitmap, bit by bit
    var blockedList: Tcb?             // blocked_list
    var waitLists: seq<Tcb?>          // the wait_list of every synchronisation object created
    var current: Tcb?                 // current_task_ptr
    var tcbs: seq<Tcb>                // task_table
    var tick: nat                     // system_tick

    /** t is NULL or in the table. */
    ghost predicate Known(t: Tcb?)
      reads this`tcbs
    {
      t != null ==> t.id < |tcbs| && tcbs[t.id] == t
    }

    /** The next and prev pointers spell out n and p. */
    ghost predicate LinksAre(n: seq<Option<nat>>, p: seq<Option<nat>>)
      reads this`tcbs, tcbs`next, tcbs`prev
    {
      && |tcbs| == |n| == |p|
      && (forall i {:trigger tcbs[i]} :: 0 <= i < |tcbs| ==> tcbs[i].id == i)
      && (forall i {:trigger tcbs[i].next} :: 0 <= i < |tcbs| ==> IdOf(tcbs[i].next) == n[i] && Known(tcbs[i].next))
      && (forall i {:trigger tcbs[i].prev} :: 0 <= i < |tcbs| ==> IdOf(tcbs[i].prev) == p[i] && Known(tcbs[i].prev))
    }

    ghost predicate FieldsAre(tasks: seq<Task>)
      reads this`tcbs, tcbs`task
    {
      |tcbs| == |tasks| && forall i {:trigger tcbs[i].task} :: 0 <= i < |tcbs| ==> tcbs[i].task == tasks[i]
    }

    ghost predicate ReadyIs(r: seq<seq<nat>>)
      reads this`tcbs, this`ready
    {
      && |ready| == |r|
      && (forall p :: 0 <= p < |r| ==>
            && IdOf(ready[p].head) == First(r[p]) && Known(ready[p].head)
            && IdOf(ready[p].tail) == Last(r[p]) && Known(ready[p].tail)
            && ready[p].count == |r[p]|)
    }

    ghost predicate BitmapIs(r: seq<seq<nat>>)
      reads this`bitmap
    {
      && |bitmap| == 32 && |r| == NUM_PRIORITIES
      && (forall p :: 0 <= p < |bitmap| ==> (bitmap[p] <==> p < NUM_PRIORITIES && r[p] != []))
    }

    ghost predicate WaitsAre(ws: seq<seq<nat>>)
      reads this`tcbs, this`waitLists
    {
      && |waitLists| == |ws|
      && (forall w :: 0 <= w < |ws| ==> IdOf(waitLists[w]) == First(ws[w]) && Known(waitLists[w]))
    }

    /**
     The lists are those of s, but the control blocks say `tasks`: one of them may sit on a list of another priority.
     */
    ghost predicate RepBut(s: Sys, tasks: seq<Task>)
      reads this, tcbs
    {
      && FieldsAre(tasks) && LinksAre(Nexts(s), Prevs(s))
      && ReadyIs(s.ready) && BitmapIs(s.ready)
      && IdOf(blockedList) == First(s.blocked) && Known(blockedList)
      && WaitsAre(s.waits)
      && IdOf(current) == s.current && Known(current)
    }

    /** The pointers represent s. */
    ghost predicate Rep(s: Sys)
      reads this, tcbs
    {
      RepBut(s, s.tasks)
    }

    ghost predicate Waits(s: Sys, w: nat, t: nat) {
      t < |s.tasks| && HomeOf(s.tasks[t]) == OnWait(w)
    }

    /** os_task_init_ready_list */
    constructor ()
      ensures Rep(Sys([], seq(NUM_PRIORITIES, _ => []), [], [], None)) && tick == 0
    {
      ready := seq(NUM_PRIORITIES, _ => ReadyList(null, null, 0));
      bitmap := seq(32, _ => false);
      blockedList, waitLists, current, tcbs, tick := null, [], null, [], 0;
    }

    /** What every unlinking routine does to the links: neighbours closed up, t on its own. */
    method Unlink(t: Tcb, ghost n: seq<Option<nat>>, ghost p: seq<Option<nat>>)
      requires LinksAre(n, p) && Known(t)
      modifies tcbs`next, tcbs`prev
      ensures LinksAre(NextsWithout(n, p, t.id), PrevsWithout(n, p, t.id))
    {
      if t.prev != null {
        t.prev.next := t.next;
      }
      if t.next != null {
        t.next.prev := t.prev;
      }
      t.next := null;
      t.prev := null;
    }

    /** The list-head half of os_task_remove_from_ready: the ready list p shrinks from r[p] to l. */
    method ShrinkReady(t: Tcb, p: nat, ghost r: seq<seq<nat>>, ghost l: seq<nat>)
      requires ReadyIs(r) && BitmapIs(r) && p < |r| && Known(t.next) && Known(t.prev)
      requires |r[p]| > 0 && |l| == |r[p]| - 1
      requires First(l) == (if t.prev == null then IdOf(t.next) else First(r[p]))
      requires Last(l) == (if t.next == null then IdOf(t.prev) else Last(r[p]))
      modifies this`ready, this`bitmap
      ensures ReadyIs(r[p := l]) && BitmapIs(r[p := l])
    {
      if t.prev == null {
        ready := ready[p := ready[p].(head := t.next)];
      }
      if t.next == null {
        ready := ready[p := ready[p].(tail := t.prev)];
      }
      if ready[p].count > 0 {
        ready := ready[p := ready[p].(count := ready[p].count - 1)];
      }
      if ready[p].head == null {
        bitmap := bitmap[p := false];
      }
    }

    /** os_task_remove_from_ready */
    method RemoveFromReady(t: Tcb, ghost s: Sys)
      requires Rep(s) && Placed(s, {}) && Known(t) && t.task.state in {Ready, Running}
      modifies this`ready, this`bitmap, tcbs`next, tcbs`prev
      ensures Rep(Detach(s, t.id)) && Placed(Detach(s, t.id), {t.id})
    {
      DetachPlaced(s, t.id);
      DetachEnds(s, t.id);
      DetachLinks(s, t.id);
      ShrinkReady(t, t.task.prio, s.ready, ListOf(Detach(s, t.id), OnReady(t.task.prio)));
      Unlink(t, Nexts(s), Prevs(s));
    }

    /** A plain field write to a task in limbo, or one that leaves it on its list. */
    method Store(t: Tcb, r: Task, ghost s: Sys)
      requires Rep(s) && Known(t)
      requires Placed(s, {t.id}) || HomeOf(r) == HomeOf(t.task)
      modifies t`task
      ensures Rep(Put(s, t.id, r)) && t.task == r
    {
      if HomeOf(r) == HomeOf(t.task) {
        TouchLinks(s, t.id, r);
      } else {
        LimboLinks(s, t.id, r);
      }
      t.task := r;
    }

    /** The pointer half of os_task_add_to_ready. */
    method AppendLinks(t: Tcb, tail: Tcb?, ghost n: seq<Option<nat>>, ghost p: seq<Option<nat>>)
      requires LinksAre(n, p) && Known(t) && Known(tail) && tail != t
      modifies tcbs`next, tcbs`prev
      ensures LinksAre(NextsWith(n, t.id, IdOf(tail), None), PrevsWith(p, t.id, IdOf(tail), None))
    {
      t.next := null;
      t.prev := tail;
      if tail != null {
        tail.next := t;
      }
    }

    /** The list-head half of os_task_add_to_ready. */
    method GrowReady(t: Tcb, p: nat, ghost r: seq<seq<nat>>)
      requires ReadyIs(r) && BitmapIs(r) && p < |r| && Known(t)
      modifies this`ready, this`bitmap
      ensures ReadyIs(r[p := Splice(r[p], |r[p]|, t.id)]) && BitmapIs(r[p := Splice(r[p], |r[p]|, t.id)])
    {
      if ready[p].tail == null {
        ready := ready[p := ready[p].(head := t)];
        bitmap := bitmap[p := true];
      }
      ready := ready[p := ready[p].(tail := t)];
      ready := ready[p := ready[p].(count := ready[p].count + 1)];
    }

    lemma JoinReadyLinks(s: Sys, t: nat)
      requires Placed(s, {t}) && t < |s.tasks| && s.tasks[t].state == Ready
      ensures var p := s.tasks[t].prio;
        && p < |s.ready| && Last(s.ready[p]) != Some(t)
        && Attach(s, t, |s.ready[p]|) == s.(ready := s.ready[p := Splice(s.ready[p], |s.ready[p]|, t)])
        && Nexts(Attach(s, t, |s.ready[p]|)) == NextsWith(Nexts(s), t, Last(s.ready[p]), None)
        && Prevs(Attach(s, t, |s.ready[p]|)) == PrevsWith(Prevs(s), t, Last(s.ready[p]), None)
    {
      var p := s.tasks[t].prio;
      AlwaysFieldsOk(s, {t}, t);
      AttachLinks(s, t, |s.ready[p]|);
      AttachAt(s, t, |s.ready[p]|);
      assert At(s.ready[p], |s.ready[p]| - 1) == Last(s.ready[p]);
      assert At(s.ready[p], |s.ready[p]|) == None;
    }

    method JoinReady(t: Tcb, ghost s: Sys)
      requires Rep(s) && Placed(s, {t.id}) && Known(t) && t.task.state == Ready
      modifies this`ready, this`bitmap, tcbs`next, tcbs`prev
      ensures t.task.prio < |s.ready| && Rep(Attach(s, t.id, |s.ready[t.task.prio]|))
    {
      var p := t.task.prio;
      JoinReadyLinks(s, t.id);
      AppendLinks(t, ready[p].tail, Nexts(s), Prevs(s));
      GrowReady(t, p, s.ready);
    }

    /** os_task_add_to_ready */
    method MakeReady(t: Tcb, ghost s: Sys)
      requires Rep(s) && Placed(s, {t.id}) && Known(t)
      modifies this`ready, this`bitmap, tcbs`next, tcbs`prev, t`task
      ensures Rep(AddToReady(s, t.id)) && Placed(AddToReady(s, t.id), {})
    {
      ghost var r := t.task.(state := Ready);
      AddToReadyPlaced(s, t.id);
      AlwaysFieldsOk(s, {t.id}, t.id);
      PutPlaced(s, t.id, r, {t.id});
      Store(t, t.task.(state := Ready), s);
      JoinReady(t, Put(s, t.id, r));
    }

    /** os_task_remove_from_blocked */
    method RemoveFromBlocked(t: Tcb, ghost s: Sys)
      requires Rep(s) && Placed(s, {}) && Known(t) && HomeOf(t.task) == OnBlocked
      modifies this`blockedList, tcbs`next, tcbs`prev
      ensures Rep(Detach(s, t.id)) && Placed(Detach(s, t.id), {t.id})
    {
      DetachPlaced(s, t.id);
      DetachEnds(s, t.id);
      DetachLinks(s, t.id);
      if t.prev == null {
        blockedList := t.next;
      }
      Unlink(t, Nexts(s), Prevs(s));
    }

    /** The pointer half of os_task_add_to_blocked; it relies on t.prev being NULL already. */
    method PushLinks(t: Tcb, head: Tcb?, ghost n: seq<Option<nat>>, ghost p: seq<Option<nat>>)
      requires LinksAre(n, p) && Known(t) && Known(head) && head != t && t.prev == null
      modifies tcbs`next, tcbs`prev
      ensures LinksAre(NextsWith(n, t.id, None, IdOf(head)), PrevsWith(p, t.id, None, IdOf(head)))
    {
      t.next := head;
      if head != null {
        head.prev := t;
      }
    }

    lemma PushBlockedLinks(s: Sys, t: nat)
      requires Placed(s, {t}) && t < |s.tasks| && HomeOf(s.tasks[t]) == OnBlocked
      ensures Attach(s, t, 0) == s.(blocked := Splice(s.blocked, 0, t))
      ensures First(s.blocked) != Some(t) && Prevs(s)[t] == None
      ensures Nexts(Attach(s, t, 0)) == NextsWith(Nexts(s), t, None, First(s.blocked))
      ensures Prevs(Attach(s, t, 0)) == PrevsWith(Prevs(s), t, None, First(s.blocked))
    {
      LimboLinks(s, t, s.tasks[t]);
      AttachLinks(s, t, 0);
      AttachAt(s, t, 0);
      assert ListOf(s, OnBlocked) == s.blocked;
      assert At(s.blocked, 0) == First(s.blocked);
    }

    method PushBlocked(t: Tcb, ghost s: Sys)
      requires Rep(s) && Placed(s, {t.id}) && Known(t) && HomeOf(t.task) == OnBlocked
      modifies this`blockedList, tcbs`next, tcbs`prev
      ensures Rep(Attach(s, t.id, 0))
    {
      PushBlockedLinks(s, t.id);
      PushLinks(t, blockedList, Nexts(s), Prevs(s));
      blockedList := t;
    }

    /** os_task_remove_from_ready followed by the field writes of the caller. */
    method LeaveReady(t: Tcb, r: Task, ghost s: Sys)
      requires Rep(s) && Placed(s, {}) && Known(t) && t.task.state in {Ready, Running} && FieldsOk(s, r)
      modifies this`ready, this`bitmap, tcbs`next, tcbs`prev, t`task
      ensures Rep(Put(Detach(s, t.id), t.id, r)) && Placed(Put(Detach(s, t.id), t.id, r), {t.id})
      ensures t.task == r
    {
      RemoveFromReady(t, s);
      PutPlaced(Detach(s, t.id), t.id, r, {t.id});
      Store(t, r, Detach(s, t.id));
    }

    /** os_task_add_to_blocked */
    method Block(t: Tcb, timeout: nat, ghost s: Sys)
      requires Rep(s) && Placed(s, {}) && Known(t) && t.task.state in {Ready, Running} && t.task.blockedOn.None?
      modifies this`ready, this`bitmap, this`blockedList, tcbs`next, tcbs`prev, t`task
      ensures Rep(AddToBlocked(s, t.id, timeout))
    {
      AlwaysFieldsOk(s, {}, t.id);
      ghost var s1 := BlockedShape(s, t.id, timeout);
      LeaveReady(t, t.task.(state := Blocked, delay := timeout), s);
      PushBlocked(t, s1);
    }

    /** os_task_add_to_blocked before the task is linked in. */
    lemma BlockedShape(s: Sys, t: nat, timeout: nat) returns (s1: Sys)
      requires t < |s.tasks| && s.tasks[t].blockedOn.None?
      ensures s1 == Put(Detach(s, t), t, s.tasks[t].(state := Blocked, delay := timeout))
      ensures HomeOf(s1.tasks[t]) == OnBlocked && AddToBlocked(s, t, timeout) == Attach(s1, t, 0)
    {
      s1 := Put(Detach(s, t), t, s.tasks[t].(state := Blocked, delay := timeout));
    }

    /** The list half of prv_unblock_task. */
    method UnlinkWait(t: Tcb, w: nat, ghost s: Sys)
      requires Rep(s) && Placed(s, {}) && Known(t) && HomeOf(t.task) == OnWait(w)
      modifies this`waitLists, tcbs`next, tcbs`prev
      ensures Rep(Detach(s, t.id)) && Placed(Detach(s, t.id), {t.id})
    {
      DetachPlaced(s, t.id);
      DetachEnds(s, t.id);
      DetachLinks(s, t.id);
      if t.prev == null {
        waitLists := waitLists[w := t.next];
      }
      Unlink(t, Nexts(s), Prevs(s));
    }

    /** The waiters are chained in list order. */
    ghost predicate Chain(l: seq<nat>, n: seq<Option<nat>>) {
      forall k :: 0 <= k < |l| ==> l[k] < |n| && n[l[k]] == At(l, k + 1)
    }

    lemma WaitsChain(s: Sys, w: nat)
      requires w < |s.waits| && NoDup(s.waits[w])
      requires forall i :: 0 <= i < |s.waits[w]| ==> Waits(s, w, s.waits[w][i])
      ensures Chain(s.waits[w], Nexts(s))
    {
      var l := s.waits[w];
      forall k | 0 <= k < |l| ensures l[k] < |Nexts(s)| && Nexts(s)[l[k]] == At(l, k + 1) {
        assert Waits(s, w, l[k]);
        SuccAt(l, k);
        assert Nexts(s)[l[k]] == Succ(l, l[k]);
      }
    }

    /** k is where a task of priority prio goes in: behind all of its priority or better. */
    ghost predicate IsPlace(l: seq<nat>, tasks: seq<Task>, prio: nat, k: nat) {
      && k <= |l|
      && (forall i :: 0 <= i < k ==> PrioOf(tasks, l[i]) <= prio)
      && (k < |l| ==> prio < PrioOf(tasks, l[k]))
    }

    lemma OnePlace(l: seq<nat>, tasks: seq<Task>, prio: nat, k: nat)
      requires IsPlace(l, tasks, prio, k)
      ensures k == InsertPos(l, tasks, prio)
    {
    }

    /** The search loop of prv_block_task: past every waiter of equal or higher priority. */
    method FindPlace(prio: nat, w: nat, ghost tasks: seq<Task>, ghost l: seq<nat>, ghost n: seq<Option<nat>>,
                     ghost p: seq<Option<nat>>)
      returns (before: Tcb?, iter: Tcb?, ghost k: nat)
      requires LinksAre(n, p) && FieldsAre(tasks) && Chain(l, n)
      requires w < |waitLists| && IdOf(waitLists[w]) == First(l) && Known(waitLists[w])
      ensures Known(before) && Known(iter)
      ensures IsPlace(l, tasks, prio, k) && IdOf(before) == At(l, k - 1) && IdOf(iter) == At(l, k)
    {
      before, iter, k := null, waitLists[w], 0;
      while iter != null
        invariant k <= |l| && Known(before) && Known(iter)
        invariant IdOf(before) == At(l, k - 1) && IdOf(iter) == At(l, k)
        invariant forall i :: 0 <= i < k ==> PrioOf(tasks, l[i]) <= prio
        decreases |l| - k
      {
        if prio < iter.task.prio {
          break;
        }
        before := iter;
        iter := iter.next;
        k := k + 1;
      }
    }

    /** The linking half of prv_block_task. */
    method InsertLinks(t: Tcb, before: Tcb?, iter: Tcb?, ghost n: seq<Option<nat>>, ghost p: seq<Option<nat>>)
      requires LinksAre(n, p) && Known(t) && Known(before) && Known(iter) && before != t && iter != t
      modifies tcbs`next, tcbs`prev
      ensures LinksAre(NextsWith(n, t.id, IdOf(before), IdOf(iter)), PrevsWith(p, t.id, IdOf(before), IdOf(iter)))
    {
      t.next := iter;
      t.prev := before;
      if iter != null {
        iter.prev := t;
      }
      if before != null {
        before.next := t;
      }
    }

    lemma JoinWaitLinks(s: Sys, t: nat, w: nat, k: nat)
      requires Placed(s, {t}) && t < |s.tasks| && HomeOf(s.tasks[t]) == OnWait(w)
      requires w < |s.waits| ==> k <= |s.waits[w]|
      ensures w < |s.waits| && NoDup(s.waits[w]) && t !in s.waits[w]
      ensures forall i :: 0 <= i < |s.waits[w]| ==> Waits(s, w, s.waits[w][i])
      ensures Attach(s, t, k) == s.(waits := s.waits[w := Splice(s.waits[w], k, t)])
      ensures Nexts(Attach(s, t, k)) == NextsWith(Nexts(s), t, At(s.waits[w], k - 1), At(s.waits[w], k))
      ensures Prevs(Attach(s, t, k)) == PrevsWith(Prevs(s), t, At(s.waits[w], k - 1), At(s.waits[w], k))
    {
      AlwaysFieldsOk(s, {t}, t);
      AttachLinks(s, t, k);
      AttachAt(s, t, k);
      MembersBelong(s, {t}, OnWait(w));
      forall i | 0 <= i < |s.waits[w]| ensures Waits(s, w, s.waits[w][i]) {
        assert s.waits[w][i] in ListOf(s, OnWait(w));
      }
    }

    method JoinWait(t: Tcb, w: nat, ghost s: Sys)
      requires Rep(s) && Placed(s, {t.id}) && Known(t) && HomeOf(t.task) == OnWait(w)
      modifies this`waitLists, tcbs`next, tcbs`prev
      ensures w < |s.waits| && Rep(Attach(s, t.id, InsertPos(s.waits[w], s.tasks, t.task.prio)))
    {
      JoinWaitLinks(s, t.id, w, 0);
      WaitsChain(s, w);
      var before, iter, k := FindPlace(t.task.prio, w, s.tasks, s.waits[w], Nexts(s), Prevs(s));
      OnePlace(s.waits[w], s.tasks, t.task.prio, k);
      LinkWait(t, before, iter, w, k, s);
    }

    method LinkWait(t: Tcb, before: Tcb?, iter: Tcb?, w: nat, ghost k: nat, ghost s: Sys)
      requires Rep(s) && Placed(s, {t.id}) && Known(t) && HomeOf(t.task) == OnWait(w) && w < |s.waits| &&
          k <= |s.waits[w]|
      requires Known(before) && Known(iter) && IdOf(before) == At(s.waits[w], k - 1) && IdOf(iter) == At(s.waits[w], k)
      modifies this`waitLists, tcbs`next, tcbs`prev
      ensures Rep(Attach(s, t.id, k))
    {
      JoinWaitLinks(s, t.id, w, k);
      InsertLinks(t, before, iter, Nexts(s), Prevs(s));
      if before == null {
        waitLists := waitLists[w := t];
      }
    }

    /** prv_block_task on the object whose wait list is w. */
    method BlockOn(t: Tcb, w: nat, reason: Reason, timeout: nat, ghost s: Sys)
      requires Rep(s) && Placed(s, {}) && CanCall(s) && t == current && w < |s.waits|
      modifies this`ready, this`bitmap, this`waitLists, tcbs`next, tcbs`prev, t`task
      ensures Rep(Park(s, w, reason, timeout))
    {
      AlwaysFieldsOk(s, {}, t.id);
      var r := t.task.(blockedOn := Some(w), reason := reason, timedOut := false, delay := timeout, state := Blocked);
      ghost var s1 := Put(Detach(s, t.id), t.id, r);
      ParkIs(s, w, reason, timeout, s1);
      MoveToWait(t, r, w, s, s1);
    }

    method MoveToWait(t: Tcb, r: Task, w: nat, ghost s: Sys, ghost s1: Sys)
      requires Rep(s) && Placed(s, {}) && Known(t) && t.task.state in {Ready, Running} && FieldsOk(s, r)
      requires HomeOf(r) == OnWait(w) && s1 == Put(Detach(s, t.id), t.id, r)
      modifies this`ready, this`bitmap, this`waitLists, tcbs`next, tcbs`prev, t`task
      ensures w < |s1.waits| && Rep(Attach(s1, t.id, InsertPos(s1.waits[w], s1.tasks, r.prio)))
    {
      LeaveReady(t, r, s);
      JoinWait(t, w, s1);
    }

    lemma ParkIs(s: Sys, w: nat, reason: Reason, timeout: nat, s1: Sys)
      requires CanCall(s) && w < |s.waits|
      requires var t := s.current.value;
        s1 == Put(Detach(s, t), t, s.tasks[t].(blockedOn := Some(w), reason := reason, timedOut := false,
                                               delay := timeout, state := Blocked))
      ensures var t := s.current.value;
        && w < |s1.waits| && t < |s1.tasks| && HomeOf(s1.tasks[t]) == OnWait(w)
        && Park(s, w, reason, timeout) == Attach(s1, t, InsertPos(s1.waits[w], s1.tasks, s.tasks[t].prio))
    {
    }

    // ---------- Task calls ----------

    /** os_task_create; whether the heap could serve the stack and the control block is the caller's to say. */
    method TaskCreate(hasFunc: bool, prio: nat, stackSize: nat, stackOk: bool, tcbOk: bool, ghost s: Sys)
      returns (st: Status, handle: Tcb?)
      requires Rep(s) && Inv(s)
      modifies this`ready, this`bitmap, this`tcbs, tcbs`next, tcbs`prev
      ensures st == (if !hasFunc || prio >= NUM_PRIORITIES then ErrParam else if |s.tasks| >= MAX_TASKS then ErrFull
                     else if stackSize < 128 then ErrParam else if !stackOk || !tcbOk then ErrNoMem else Ok)
      ensures if st == Ok then Rep(Create(s, prio)) && Inv(Create(s, prio)) && IdOf(handle) == Some(|s.tasks|)
              else Rep(s) && handle == null
    {
      handle := null;
      if !hasFunc || prio >= NUM_PRIORITIES {
        return ErrParam, null;
      }
      if |tcbs| >= MAX_TASKS {
        return ErrFull, null;
      }
      if stackSize < 128 {
        return ErrParam, null;
      }
      if !stackOk || !tcbOk {
        return ErrNoMem, null;
      }
      CreateInv(s, prio);
      handle := AddTask(prio, s);
      return Ok, handle;
    }

    /** The part of os_task_create behind the checks and the allocations. */
    method AddTask(prio: nat, ghost s: Sys) returns (t: Tcb)
      requires Rep(s) && Inv(s) && prio < NUM_PRIORITIES
      modifies this`ready, this`bitmap, this`tcbs, tcbs`next, tcbs`prev
      ensures Rep(Create(s, prio)) && t.id == |s.tasks|
    {
      NewTaskPlaced(s, prio);
      t := new Tcb(|tcbs|, prio);
      tcbs := tcbs + [t];
      MakeReady(t, s.(tasks := s.tasks + [NewTask(prio)]));
    }

    /** os_task_suspend */
    method TaskSuspend(t: Tcb?, ghost s: Sys) returns (st: Status)
      requires Rep(s) && Inv(s) && Known(t)
      modifies this`ready, this`bitmap, tcbs`next, tcbs`prev, tcbs`task
      ensures if t == null then st == ErrParam && Rep(s)
              else st == Ok && Rep(Suspend(s, t.id)) && Inv(Suspend(s, t.id))
    {
      if t == null {
        return ErrParam;
      }
      SuspendInv(s, t.id);
      AlwaysFieldsOk(s, {}, t.id);
      if t.task.state == Ready || t.task.state == Running {
        LeaveReady(t, t.task.(state := Suspended), s);
      }
      return Ok;
    }

    /** os_task_resume */
    method TaskResume(t: Tcb?, ghost s: Sys) returns (st: Status)
      requires Rep(s) && Inv(s) && Known(t)
      modifies this`ready, this`bitmap, tcbs`next, tcbs`prev, tcbs`task
      ensures if t == null then st == ErrParam && Rep(s)
              else st == Ok && Rep(Resume(s, t.id)) && Inv(Resume(s, t.id))
    {
      if t == null {
        return ErrParam;
      }
      ResumeInv(s, t.id);
      if t.task.state == Suspended {
        SameLists(s, s, {t.id});
        MakeReady(t, s);
      }
      return Ok;
    }

    /** os_task_set_priority. A RUNNING task is not moved to the ready list of its new priority. */
    method TaskSetPriority(t: Tcb?, prio: nat, ghost s: Sys) returns (st: Status)
      requires Rep(s) && Inv(s) && Known(t)
      modifies this`ready, this`bitmap, tcbs`next, tcbs`prev, tcbs`task
      ensures if t == null || prio >= NUM_PRIORITIES then st == ErrParam && Rep(s)
              else st == Ok &&
                   if Enabled(s, DoSetPriority(t.id, prio)) then Rep(SetPriority(s, t.id, prio)) &&
                       Inv(SetPriority(s, t.id, prio))
                   else RepBut(s, s.tasks[t.id := s.tasks[t.id].(prio := prio)])
    {
      if t == null || prio >= NUM_PRIORITIES {
        return ErrParam;
      }
      AlwaysFieldsOk(s, {}, t.id);
      if t.task.state == Ready {
        SetPriorityInv(s, t.id, prio);
        ghost var r := t.task.(prio := prio);
        LeaveReady(t, t.task.(prio := prio), s);
        MakeReady(t, Put(Detach(s, t.id), t.id, r));
      } else {
        StorePriority(t, prio, s);
      }
      return Ok;
    }

    method StorePriority(t: Tcb, prio: nat, ghost s: Sys)
      requires Rep(s) && Inv(s) && Known(t) && t.task.state != Ready && prio < NUM_PRIORITIES
      modifies t`task
      ensures if Enabled(s, DoSetPriority(t.id, prio)) then Rep(SetPriority(s, t.id, prio)) &&
          Inv(SetPriority(s, t.id, prio))
              else RepBut(s, s.tasks[t.id := s.tasks[t.id].(prio := prio)])
    {
      ghost var r := t.task.(prio := prio);
      if Enabled(s, DoSetPriority(t.id, prio)) {
        SetPriorityInv(s, t.id, prio);
        TouchLinks(s, t.id, r);
      }
      t.task := t.task.(prio := prio);
    }

    /** os_task_delay up to the point where the task gives up the processor. */
    method TaskDelay(ticks: nat, ghost s: Sys) returns (st: Status)
      requires Rep(s) && Inv(s) && CanCall(s)
      modifies this`ready, this`bitmap, this`blockedList, tcbs`next, tcbs`prev, tcbs`task
      ensures Rep(Delay(s, ticks)) && Inv(Delay(s, ticks)) && st == Ok
    {
      if ticks == 0 {
        return Ok;
      }
      InvAt(s, s.current.value);
      AddToBlockedInv(s, s.current.value, ticks);
      Block(current, ticks, s);
      return Ok;
    }

    /**
     os_task_delay_until up to its call of os_task_delay(ticks): argument checks and wrap-around arithmetic.
     `next` goes to *previous_wake_tick; a difference that is not positive as a signed number means no delay.
     */
    method DelayUntil(previous: Option<nat>, period: nat) returns (st: Status, next: nat, ticks: nat)
      ensures st == if previous.None? || period == 0 || period >= HALF then ErrParam else Ok
      ensures st == Ok ==>
        next == (previous.value + period) % TICKS && ticks == DelayUntilTicks(previous.value, period, tick)
      ensures st != Ok ==> ticks == 0
    {
      if previous.None? || period == 0 || period >= HALF {
        return ErrParam, 0, 0;
      }
      next := (previous.value + period) % TICKS;
      ticks := (next - tick) % TICKS;
      if !(0 < ticks < HALF) {
        ticks := 0;
      }
      st := Ok;
    }

    // ---------- The tick ----------

    /** One iteration of the loop of os_task_tick. */
    method TickTask(t: Tcb, ghost s: Sys)
      requires Rep(s) && Inv(s) && Known(t) && HomeOf(t.task) == OnBlocked
      modifies this`ready, this`bitmap, this`blockedList, tcbs`next, tcbs`prev, t`task
      ensures Rep(TickOne(s, t.id))
    {
      AlwaysFieldsOk(s, {}, t.id);
      if t.task.delay > 0 {
        if t.task.delay - 1 == 0 {
          var r := t.task.(delay := 0);
          if r.blockedOn.Some? {
            r := r.(timedOut := true, blockedOn := None, reason := NoReason);
          }
          LeaveBlocked(t, r, s);
        } else {
          Store(t, t.task.(delay := t.task.delay - 1), s);
        }
      }
    }

    /** os_task_remove_from_blocked, the field writes of the caller, and os_task_add_to_ready. */
    method LeaveBlocked(t: Tcb, r: Task, ghost s: Sys)
      requires Rep(s) && Placed(s, {}) && Known(t) && HomeOf(t.task) == OnBlocked && FieldsOk(s, r)
      modifies this`ready, this`bitmap, this`blockedList, tcbs`next, tcbs`prev, t`task
      ensures Rep(AddToReady(Put(Detach(s, t.id), t.id, r), t.id))
    {
      ghost var s1 := Detach(s, t.id);
      RemoveFromBlocked(t, s);
      PutPlaced(s1, t.id, r, {t.id});
      Store(t, r, s1);
      MakeReady(t, Put(s1, t.id, r));
    }

    /** os_task_tick: the walk over blocked_list, which unlinks under its own feet. */
    method TaskTick(ghost s: Sys)
      requires Rep(s) && Inv(s)
      modifies this`ready, this`bitmap, this`blockedList, tcbs`next, tcbs`prev, tcbs`task
      ensures Rep(Tick(s)) && Inv(Tick(s))
    {
      var t := blockedList;
      ghost var cur: Sys, todo: seq<nat> := s, s.blocked;
      while t != null
        invariant tcbs == old(tcbs) && Rep(cur) && Inv(cur) && Known(t)
        invariant IsSuffix(todo, cur.blocked) && IdOf(t) == First(todo)
        invariant TickAll(cur, todo) == Tick(s)
        decreases |todo|
      {
        var next := t.next;
        TickOneSuffix(cur, todo);
        assert Nexts(cur)[t.id] == NextOf(cur, t.id);
        TickTask(t, cur);
        cur, todo := TickOne(cur, t.id), todo[1..];
        t := next;
      }
    }

    /** os_kernel_tick_increment, as far as tasks are concerned. */
    method TickIncrement(ghost s: Sys)
      requires Rep(s) && Inv(s)
      modifies this`tick, this`ready, this`bitmap, this`blockedList, tcbs`next, tcbs`prev, tcbs`task
      ensures Rep(Tick(s)) && Inv(Tick(s)) && tick == (old(tick) + 1) % TICKS
    {
      tick := (tick + 1) % TICKS;
      TaskTick(s);
    }

    // ---------- The scheduler ----------

    /** os_task_find_highest_ready: a zero test and a count-trailing-zeros on the bitmap. */
    method FindHighestReady(ghost s: Sys) returns (t: Tcb?)
      requires Rep(s)
      ensures IdOf(t) == HighestReady(s) && Known(t)
    {
      var p := Ctz(bitmap, 0);
      TopIsCtz(bitmap, s.ready, 0);
      if p == |bitmap| {
        return null;
      }
      return ready[p].head;
    }

    /** The switch at the end of os_sched_select_next. */
    method Switch(next: Tcb, ghost s: Sys)
      requires Rep(s) && Inv(s) && Known(next) && next.task.state in {Ready, Running}
      modifies this`current, tcbs`task
      ensures Rep(SwitchTo(s, Some(next.id)))
    {
      Demote(s);
      Promote(next, Demoted(s));
    }

    method Demote(ghost s: Sys)
      requires Rep(s) && Inv(s)
      modifies tcbs`task
      ensures Rep(Demoted(s))
    {
      if current != null && current.task.state == Running {
        Store(current, current.task.(state := Ready), s);
      }
    }

    method Promote(next: Tcb, ghost s: Sys)
      requires Rep(s) && Known(next) && next.task.state in {Ready, Running}
      modifies this`current, tcbs`task
      ensures var s1 := s.(current := Some(next.id)); Rep(Put(s1, next.id, s1.tasks[next.id].(state := Running)))
    {
      CurrentLinks(s, next.id);
      current := next;
      Store(next, next.task.(state := Running), s.(current := Some(next.id)));
    }

    /** The round-robin step: the running task goes to the tail of its list. */
    method Rotate(t: Tcb, ghost s: Sys)
      requires Rep(s) && Inv(s) && Known(t) && t.task.state in {Ready, Running}
      modifies this`ready, this`bitmap, tcbs`next, tcbs`prev, tcbs`task
      ensures Rep(AddToReady(Detach(s, t.id), t.id)) && Inv(AddToReady(Detach(s, t.id), t.id))
    {
      RotateInv(s, t.id);
      RemoveFromReady(t, s);
      MakeReady(t, Detach(s, t.id));
    }

    method SwitchToHighest(ghost s: Sys)
      requires Rep(s) && Inv(s)
      modifies this`current, tcbs`task
      ensures Rep(SwitchTo(s, HighestReady(s)))
    {
      var next := FindHighestReady(s);
      if next != null {
        HighestIsReady(s);
        Switch(next, s);
      }
    }

    /** The round-robin step and what follows it. */
    method RotateAndSwitch(t: Tcb, ghost s: Sys)
      requires Rep(s) && Inv(s) && Known(t) && t.task.state in {Ready, Running}
      modifies this`ready, this`bitmap, this`current, tcbs`next, tcbs`prev, tcbs`task
      ensures var s1 := AddToReady(Detach(s, t.id), t.id); Rep(SwitchTo(s1, HighestReady(s1)))
    {
      Rotate(t, s);
      SwitchToHighest(AddToReady(Detach(s, t.id), t.id));
    }

    /** os_sched_select_next */
    method SelectNextTask(ghost s: Sys)
      requires Rep(s) && Inv(s)
      modifies this`ready, this`bitmap, this`current, tcbs`next, tcbs`prev, tcbs`task
      ensures Rep(SelectNext(s)) && Inv(SelectNext(s))
    {
      SelectInv(s);
      var next := FindHighestReady(s);
      if next != null {
        HighestIsReady(s);
        if next == current {
          RotateAndSwitch(next, s);
        } else {
          Switch(next, s);
        }
      }
    }

    // ---------- Waiting and waking ----------

    /** A new synchronisation object registers its wait list, which starts as NULL. */
    method NewWaitList(ghost s: Sys) returns (w: nat)
      requires Rep(s) && Inv(s)
      modifies this`waitLists
      ensures w == |s.waits| && Rep(NewObject(s)) && Inv(NewObject(s))
    {
      NewObjectInv(s);
      NewObjectLinks(s);
      w := |waitLists|;
      waitLists := waitLists + [null];
    }

    /** prv_unblock_task and the field resets and os_task_add_to_ready that follow it in every wake routine. */
    method Wake(t: Tcb, ghost s: Sys)
      requires Rep(s) && Inv(s) && Known(t) && t.task.blockedOn.Some?
      modifies this`ready, this`bitmap, this`waitLists, tcbs`next, tcbs`prev, t`task
      ensures Rep(Release(s, t.id)) && Inv(Release(s, t.id))
    {
      ReleaseInv(s, t.id);
      InvAt(s, t.id);
      ghost var s1 := Detach(s, t.id);
      UnlinkWait(t, t.task.blockedOn.value, s);
      var r := t.task.(blockedOn := None, reason := NoReason, delay := 0, timedOut := false);
      PutPlaced(s1, t.id, r, {t.id});
      Store(t, r, s1);
      MakeReady(t, Put(s1, t.id, r));
    }

    // ---------- The end of a blocking call ----------

    /**
     The end of os_sem_take, os_mutex_lock, os_queue_send and os_queue_receive, when a parked caller runs again: a
     status, and nothing else happens.
     */
    method ReturnStatus(ghost s: Sys) returns (st: Status)
      requires Rep(s) && CanCall(s)
      ensures st == ResumeStatus(s) == if s.tasks[s.current.value].timedOut then ErrTimeout else Ok
    {
      if current.task.timedOut {
        return ErrTimeout;
      }
      return Ok;
    }

    /** The end of os_eventgroup_wait_bits */
    method ReturnBits(ghost s: Sys) returns (bits: bv32)
      requires Rep(s) && CanCall(s)
      ensures bits == s.tasks[s.current.value].returnBits
    {
      bits := current.task.returnBits;
    }

    // ---------- Notifications ----------

    /** os_task_notify; the yield it may ask for is a later scheduling step. */
    method NotifyGive(t: Tcb?, v: nat, ghost s: Sys) returns (st: Status)
      requires Rep(s) && Inv(s) && Known(t)
      modifies this`ready, this`bitmap, this`blockedList, tcbs`next, tcbs`prev, tcbs`task
      ensures if t == null then st == ErrParam && Rep(s)
              else st == Ok && Rep(NotifyTask(s, t.id, v)) && Inv(NotifyTask(s, t.id, v))
    {
      if t == null {
        return ErrParam;
      }
      NotifyInv(s, t.id, v);
      InvAt(s, t.id);
      var r := t.task.(notifyValue := v, notifyPending := true);
      TouchInv(s, t.id, r);
      Store(t, r, s);
      ghost var s1 := Put(s, t.id, r);
      if t.task.state == Blocked && t.task.reason == Notify {
        NotifyWake(t, s1);
      }
      return Ok;
    }

    method NotifyWake(t: Tcb, ghost s: Sys)
      requires Rep(s) && Placed(s, {}) && Known(t) && HomeOf(t.task) == OnBlocked
      modifies this`ready, this`bitmap, this`blockedList, tcbs`next, tcbs`prev, t`task
      ensures var r := s.tasks[t.id].(reason := NoReason, delay := 0, timedOut := false);
        Rep(AddToReady(Put(Detach(s, t.id), t.id, r), t.id))
    {
      AlwaysFieldsOk(s, {}, t.id);
      LeaveBlocked(t, t.task.(reason := NoReason, delay := 0, timedOut := false), s);
    }

    /** The end of os_task_notify_wait, when the task runs again: the same test, and no second wait. */
    method NotifyResume(ghost s: Sys) returns (st: Status, value: nat)
      requires Rep(s) && Inv(s) && CanCall(s)
      modifies tcbs`task
      ensures Rep(NotifyWait(s, 0)) && Inv(NotifyWait(s, 0))
      ensures var r := s.tasks[s.current.value];
        if r.notifyPending then st == Ok && value == r.notifyValue else st == ErrTimeout
    {
      var t := current;
      NotifyWaitInv(s, 0);
      InvAt(s, t.id);
      if t.task.notifyPending {
        value := t.task.notifyValue;
        Store(t, t.task.(notifyPending := false), s);
        return Ok, value;
      }
      return ErrTimeout, 0;
    }

    /** os_task_notify_wait up to its return or to the point where the task gives up the processor. */
    method NotifyTake(timeout: nat, ghost s: Sys) returns (st: Status, value: nat)
      requires Rep(s) && Inv(s) && (s.current.Some? ==> CanCall(s))
      modifies this`ready, this`bitmap, this`blockedList, tcbs`next, tcbs`prev, tcbs`task
      ensures if s.current.None? then st == ErrParam && Rep(s)
              else Rep(NotifyWait(s, timeout)) && Inv(NotifyWait(s, timeout)) &&
                   var r := s.tasks[s.current.value];
                   if r.notifyPending then st == Ok && value == r.notifyValue
                   else st == if timeout == 0 then ErrTimeout else Parked
    {
      value := 0;
      if current == null {
        return ErrParam, 0;
      }
      var t := current;
      NotifyWaitInv(s, timeout);
      InvAt(s, t.id);
      if t.task.notifyPending {
        value := t.task.notifyValue;
        Store(t, t.task.(notifyPending := false), s);
        return Ok, value;
      }
      if timeout == 0 {
        return ErrTimeout, 0;
      }
      ghost var r := t.task.(reason := Notify, timedOut := false);
      TouchInv(s, t.id, r);
      Store(t, t.task.(reason := Notify, timedOut := false), s);
      Block(t, if timeout == WAIT_FOREVER then 0 else timeout, Put(s, t.id, r));
      return Parked, 0;
    }
  }
}
