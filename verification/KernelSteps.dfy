/** The kernel calls as steps on values, and the invariant every run of them keeps. */
module KernelSteps {
  import opened KernelTypes
  import opened KernelSpec

  // ---------- Task calls ----------

  /** The list work of os_task_create. */
  function Create(s: Sys, prio: nat): Sys {
    AddToReady(s.(tasks := s.tasks + [NewTask(prio)]), |s.tasks|)
  }

  /** A synchronisation object comes into being with an empty wait list. */
  function NewObject(s: Sys): Sys {
    s.(waits := s.waits + [[]])
  }

  function Suspend(s: Sys, t: nat): Sys
    requires t < |s.tasks|
  {
    var r := s.tasks[t];
    if r.state in {Ready, Running} then Put(Detach(s, t), t, r.(state := Suspended)) else s
  }

  function Resume(s: Sys, t: nat): Sys
    requires t < |s.tasks|
  {
    if s.tasks[t].state == Suspended then AddToReady(s, t) else s
  }

  function SetPriority(s: Sys, t: nat, p: nat): Sys
    requires t < |s.tasks|
  {
    var r := s.tasks[t].(prio := p);
    if r.state == Ready then AddToReady(Put(Detach(s, t), t, r), t) else Put(s, t, r)
  }

  /** os_task_add_to_blocked: off the ready list, then to the front of blocked_list. */
  function AddToBlocked(s: Sys, t: nat, timeout: nat): Sys
    requires t < |s.tasks|
  {
    var r := s.tasks[t].(state := Blocked, delay := timeout);
    Attach(Put(Detach(s, t), t, r), t, 0)
  }

  function Delay(s: Sys, ticks: nat): Sys
    requires CanCall(s)
  {
    if ticks == 0 then s else AddToBlocked(s, s.current.value, ticks)
  }

  /** The ticks os_task_delay_until sleeps for, all of it in 32-bit arithmetic; 0 means that it returns at once. */
  function DelayUntilTicks(previous: nat, period: nat, now: nat): nat {
    var ticks := (((previous + period) % TICKS) - now) % TICKS;
    if 0 < ticks < HALF then ticks else 0
  }

  // ---------- The tick ----------

  /** One iteration of the loop of os_task_tick. */
  function TickOne(s: Sys, t: nat): Sys {
    if t >= |s.tasks| || s.tasks[t].delay == 0 then s
    else
      var r := s.tasks[t].(delay := s.tasks[t].delay - 1);
      if r.delay > 0 then Put(s, t, r)
      else
        var r1 := if r.blockedOn.Some? then r.(timedOut := true, blockedOn := None, reason := NoReason) else r;
        AddToReady(Put(Detach(s, t), t, r1), t)
  }

  function TickAll(s: Sys, todo: seq<nat>): Sys
    decreases |todo|
  {
    if todo == [] then s else TickAll(TickOne(s, todo[0]), todo[1..])
  }

  /** os_task_tick: the whole blocked list, front to back. */
  function Tick(s: Sys): Sys {
    TickAll(s, s.blocked)
  }

  // ---------- The scheduler ----------

  /** The lowest-numbered non-empty ready list at or above p. */
  function Top(ready: seq<seq<nat>>, p: nat): (q: nat)
    requires p <= |ready|
    ensures p <= q <= |ready|
    ensures q < |ready| ==> ready[q] != []
    ensures forall i :: p <= i < q ==> ready[i] == []
    decreases |ready| - p
  {
    if p == |ready| || ready[p] != [] then p else Top(ready, p + 1)
  }

  function HighestReady(s: Sys): Option<nat> {
    var p := Top(s.ready, 0);
    if p < |s.ready| then Some(s.ready[p][0]) else None
  }

  /** os_sched_select_next: rotate if the running task is still at the head, then switch. */
  function SelectNext(s: Sys): Sys {
    var next := HighestReady(s);
    if next.None? || next.value >= |s.tasks| then s
    else if next == s.current then
      var s1 := AddToReady(Detach(s, next.value), next.value);
      SwitchTo(s1, HighestReady(s1))
    else SwitchTo(s, next)
  }

  /** The outgoing task is READY again. */
  function Demoted(s: Sys): Sys {
    if s.current.Some? && s.current.value < |s.tasks| && s.tasks[s.current.value].state == Running
    then Put(s, s.current.value, s.tasks[s.current.value].(state := Ready)) else s
  }

  function SwitchTo(s: Sys, next: Option<nat>): Sys {
    if next.None? || next.value >= |s.tasks| then s
    else
      var s1 := Demoted(s).(current := next);
      Put(s1, next.value, s1.tasks[next.value].(state := Running))
  }

  // ---------- Waiting on a synchronisation object ----------

  /** prv_block_task for the running task on wait list w. */
  function Park(s: Sys, w: nat, reason: Reason, timeout: nat): Sys
    requires CanCall(s)
  {
    var t := s.current.value;
    var r := s.tasks[t].(blockedOn := Some(w), reason := reason, timedOut := false, delay := timeout, state := Blocked);
    var s1 := Put(Detach(s, t), t, r);
    Attach(s1, t, InsertPos(ListOf(s1, OnWait(w)), s1.tasks, r.prio))
  }

  /** prv_unblock_task, then back to the ready list with no timeout recorded. */
  function Release(s: Sys, t: nat): Sys
    requires t < |s.tasks|
  {
    var r := s.tasks[t].(blockedOn := None, reason := NoReason, delay := 0, timedOut := false);
    AddToReady(Put(Detach(s, t), t, r), t)
  }

  // ---------- Notifications ----------

  function NotifyTask(s: Sys, t: nat, v: nat): Sys
    requires t < |s.tasks|
  {
    var r := s.tasks[t].(notifyValue := v, notifyPending := true);
    var s1 := Put(s, t, r);
    if r.state == Blocked && r.reason == Notify then
      AddToReady(Put(Detach(s1, t), t, r.(reason := NoReason, delay := 0, timedOut := false)), t)
    else s1
  }

  /** os_task_notify_wait up to the point where it returns or gives up the processor. */
  function NotifyWait(s: Sys, timeout: nat): Sys
    requires CanCall(s)
  {
    var t := s.current.value;
    var r := s.tasks[t];
    if r.notifyPending then Put(s, t, r.(notifyPending := false))
    else if timeout == 0 then s
    else AddToBlocked(Put(s, t, r.(reason := Notify, timedOut := false)), t,
                      if timeout == WAIT_FOREVER then 0 else timeout)
  }

  // ---------- Runs ----------

  datatype Op =
    | DoCreate(prio: nat)
    | DoNewObject                        // a synchronisation object with an empty wait list
    | DoSuspend(t: nat)
    | DoResume(t: nat)
    | DoSetPriority(t: nat, prio: nat)
    | DoDelay(ticks: nat)
    | DoTick
    | DoSelect
    | DoNotify(t: nat, value: nat)
    | DoNotifyWait(timeout: nat)
    | DoPark(w: nat, reason: Reason, timeout: nat)
    | DoRelease(t: nat)

  /** When a call may be made at all; calls on the caller's behalf need a caller. */
  predicate Enabled(s: Sys, op: Op) {
    match op
    case DoCreate(prio) => prio < NUM_PRIORITIES
    case DoNewObject => true
    case DoSuspend(t) => t < |s.tasks|
    case DoResume(t) => t < |s.tasks|
    case DoSetPriority(t, p) =>
      t < |s.tasks| && p < NUM_PRIORITIES && (s.tasks[t].state == Running ==> p == s.tasks[t].prio)
    case DoDelay(_) => CanCall(s)
    case DoTick => true
    case DoSelect => true
    case DoNotify(t, _) => t < |s.tasks|
    case DoNotifyWait(_) => CanCall(s)
    case DoPark(w, reason, _) => CanCall(s) && w < |s.waits| && reason !in {NoReason, Notify}
    case DoRelease(t) => t < |s.tasks| && s.tasks[t].blockedOn.Some?
  }

  function Step(s: Sys, op: Op): Sys
    requires Enabled(s, op)
  {
    match op
    case DoCreate(prio) => Create(s, prio)
    case DoNewObject => NewObject(s)
    case DoSuspend(t) => Suspend(s, t)
    case DoResume(t) => Resume(s, t)
    case DoSetPriority(t, p) => SetPriority(s, t, p)
    case DoDelay(ticks) => Delay(s, ticks)
    case DoTick => Tick(s)
    case DoSelect => SelectNext(s)
    case DoNotify(t, v) => NotifyTask(s, t, v)
    case DoNotifyWait(timeout) => NotifyWait(s, timeout)
    case DoPark(w, reason, timeout) => Park(s, w, reason, timeout)
    case DoRelease(t) => Release(s, t)
  }

  // ---------- What the steps do to the task table ----------

  /** Off its list, with new fields, and at the end of its ready list: no other task has changed. */
  lemma MovedTasks(s: Sys, u: nat, r: Task)
    requires u < |s.tasks|
    ensures AddToReady(Put(Detach(s, u), u, r), u).tasks == s.tasks[u := r.(state := Ready)]
  {
    var d := AddToReady(Put(Detach(s, u), u, r), u);
    assert Detach(s, u).tasks == s.tasks;
    assert d.tasks == s.tasks[u := r][u := r.(state := Ready)];
  }

  lemma ParkTasks(s: Sys, w: nat, reason: Reason, timeout: nat)
    requires CanCall(s)
    ensures var t, d := s.current.value, Park(s, w, reason, timeout);
      && |d.tasks| == |s.tasks| && d.tasks[t].state == Blocked && !d.tasks[t].timedOut &&
          d.tasks[t].prio == s.tasks[t].prio
      && (forall u :: 0 <= u < |s.tasks| && u != t ==> d.tasks[u] == s.tasks[u])
  {
  }

  lemma BlockedTasks(s: Sys, t: nat, timeout: nat)
    requires t < |s.tasks|
    ensures AddToBlocked(s, t, timeout).tasks == s.tasks[t := s.tasks[t].(state := Blocked, delay := timeout)]
  {
    assert Detach(s, t).tasks == s.tasks;
  }

  // ---------- Every step keeps the invariant ----------

  /** What the invariant says of one task. */
  lemma InvAt(s: Sys, t: nat)
    requires Inv(s) && t < |s.tasks|
    ensures FieldsOk(s, s.tasks[t]) && Tagged(s.tasks[t]) && MayRun(s, t) && AtHome(s, t)
  {
  }

  /** A well-placed state that differs from s in the fields of one task only. */
  lemma InvFrom(s: Sys, d: Sys, t: nat)
    requires Inv(s) && Placed(d, {}) && t < |s.tasks| == |d.tasks|
    requires d.tasks == s.tasks[t := d.tasks[t]] && d.current == s.current
    requires Tagged(d.tasks[t]) && MayRun(d, t)
    ensures Inv(d)
  {
    forall x | 0 <= x < |d.tasks| ensures Tagged(d.tasks[x]) && MayRun(d, x) {
      InvAt(s, x);
    }
  }

  /** New fields that name the same list. */
  lemma TouchInv(s: Sys, t: nat, r: Task)
    requires Inv(s) && t < |s.tasks| && FieldsOk(s, r) && Tagged(r)
    requires HomeOf(r) == HomeOf(s.tasks[t])
    requires r.state == Running ==> s.current == Some(t)
    ensures Inv(Put(s, t, r))
  {
    PutPlaced(s, t, r, {});
    InvFrom(s, Put(s, t, r), t);
  }

  /** Off one list, new fields, onto position k of another list. */
  lemma MoveInv(s: Sys, t: nat, r: Task, k: nat)
    requires Inv(s) && t < |s.tasks| && FieldsOk(s, r) && Tagged(r)
    requires HomeOf(s.tasks[t]) != Nowhere && HomeOf(r) != Nowhere && r.state != Running
    requires k <= |ListOf(Put(Detach(s, t), t, r), HomeOf(r))|
    ensures Inv(Attach(Put(Detach(s, t), t, r), t, k))
  {
    var s1 := Put(Detach(s, t), t, r);
    DetachPlaced(s, t);
    PutPlaced(Detach(s, t), t, r, {t});
    AttachPlaced(s1, t, k);
    InvFrom(s, Attach(s1, t, k), t);
  }

  /** Off one list, new fields, onto the tail of a ready list. */
  lemma WakeInv(s: Sys, t: nat, r: Task)
    requires Inv(s) && t < |s.tasks| && FieldsOk(s, r) && HomeOf(s.tasks[t]) != Nowhere
    requires r.blockedOn.None? && r.reason in {NoReason, Notify}
    ensures Inv(AddToReady(Put(Detach(s, t), t, r), t))
  {
    DetachPlaced(s, t);
    PutPlaced(Detach(s, t), t, r, {t});
    AddToReadyPlaced(Put(Detach(s, t), t, r), t);
    InvFrom(s, AddToReady(Put(Detach(s, t), t, r), t), t);
  }

  /** Moving a task that is nowhere, or one whose fields stay put, changes no list. */
  lemma SameLists(s: Sys, d: Sys, limbo: set<nat>)
    requires Placed(s, {}) && |d.tasks| >= |s.tasks| && d.tasks[..|s.tasks|] == s.tasks
    requires d.ready == s.ready && |d.waits| >= |s.waits|
    requires forall h :: ListOf(d, h) == ListOf(s, h)
    requires forall x :: x in limbo ==> x >= |s.tasks| || HomeOf(s.tasks[x]) == Nowhere
    requires forall x :: |s.tasks| <= x < |d.tasks| ==> x in limbo && FieldsOk(d, d.tasks[x])
    ensures Placed(d, limbo)
  {
    PlacedEverywhere(s, {});
    forall g, i | 0 <= i < |ListOf(d, g)| ensures Belongs(d, limbo, g, ListOf(d, g)[i]) {
      assert ListOf(d, g)[i] in ListOf(d, g);
    }
    forall x | 0 <= x < |d.tasks| && x !in limbo ensures AtHome(d, x) {
      assert AtHome(s, x);
    }
  }

  /** A new control block is in limbo and has no links. */
  lemma NewTaskPlaced(s: Sys, prio: nat)
    requires Placed(s, {}) && prio < NUM_PRIORITIES
    ensures var d := s.(tasks := s.tasks + [NewTask(prio)]);
      Placed(d, {|s.tasks|}) && Nexts(d) == Nexts(s) + [None] && Prevs(d) == Prevs(s) + [None]
  {
    var t := |s.tasks|;
    var d := s.(tasks := s.tasks + [NewTask(prio)]);
    forall g ensures ListOf(d, g) == ListOf(s, g) {}
    SameLists(s, d, {t});
    LimboLinks(d, t, d.tasks[t]);
    forall i | 0 <= i < |s.tasks| ensures NextOf(d, i) == NextOf(s, i) && PrevOf(d, i) == PrevOf(s, i) {}
  }

  lemma CreateInv(s: Sys, prio: nat)
    requires Inv(s) && prio < NUM_PRIORITIES
    ensures Inv(Create(s, prio))
  {
    var t := |s.tasks|;
    var d := s.(tasks := s.tasks + [NewTask(prio)]);
    NewTaskPlaced(s, prio);
    AddToReadyPlaced(d, t);
    forall x | 0 <= x < |d.tasks| ensures Tagged(Create(s, prio).tasks[x]) && MayRun(Create(s, prio), x) {
      if x < t { InvAt(s, x); }
    }
  }

  lemma NewObjectInv(s: Sys)
    requires Inv(s)
    ensures Inv(NewObject(s))
  {
    var d := NewObject(s);
    forall g ensures ListOf(d, g) == ListOf(s, g) {}
    SameLists(s, d, {});
    forall x | 0 <= x < |d.tasks| ensures Tagged(d.tasks[x]) && MayRun(d, x) {
      InvAt(s, x);
    }
  }

  lemma NewObjectLinks(s: Sys)
    requires Inv(s)
    ensures Nexts(NewObject(s)) == Nexts(s) && Prevs(NewObject(s)) == Prevs(s)
  {
    var d := NewObject(s);
    forall g ensures ListOf(d, g) == ListOf(s, g) {}
    forall i | 0 <= i < |s.tasks| ensures NextOf(d, i) == NextOf(s, i) && PrevOf(d, i) == PrevOf(s, i) {}
  }

  lemma CurrentLinks(s: Sys, c: nat)
    ensures Nexts(s.(current := Some(c))) == Nexts(s) && Prevs(s.(current := Some(c))) == Prevs(s)
  {
    var d := s.(current := Some(c));
    forall g ensures ListOf(d, g) == ListOf(s, g) {}
    forall i | 0 <= i < |s.tasks| ensures NextOf(d, i) == NextOf(s, i) && PrevOf(d, i) == PrevOf(s, i) {}
  }

  lemma SuspendInv(s: Sys, t: nat)
    requires Inv(s) && t < |s.tasks|
    ensures Inv(Suspend(s, t))
  {
    if s.tasks[t].state in {Ready, Running} {
      var r := s.tasks[t].(state := Suspended);
      InvAt(s, t);
      DetachPlaced(s, t);
      PutPlaced(Detach(s, t), t, r, {t});
      NowherePlaced(Put(Detach(s, t), t, r), t);
      InvFrom(s, Suspend(s, t), t);
    }
  }

  lemma ResumeInv(s: Sys, t: nat)
    requires Inv(s) && t < |s.tasks|
    ensures Inv(Resume(s, t))
  {
    if s.tasks[t].state == Suspended {
      SameLists(s, s, {t});
      AddToReadyPlaced(s, t);
      InvAt(s, t);
      InvFrom(s, Resume(s, t), t);
    }
  }

  lemma AddToBlockedInv(s: Sys, t: nat, timeout: nat)
    requires Inv(s) && t < |s.tasks| && s.tasks[t].state in {Ready, Running}
    ensures Inv(AddToBlocked(s, t, timeout))
  {
    InvAt(s, t);
    MoveInv(s, t, s.tasks[t].(state := Blocked, delay := timeout), 0);
  }

  lemma TickOneInv(s: Sys, t: nat)
    requires Inv(s) && t < |s.tasks| && HomeOf(s.tasks[t]) == OnBlocked
    ensures Inv(TickOne(s, t))
  {
    var r := s.tasks[t];
    InvAt(s, t);
    if r.delay > 1 {
      TouchInv(s, t, r.(delay := r.delay - 1));
    } else if r.delay == 1 {
      WakeInv(s, t, r.(delay := 0));
    }
  }

  predicate IsSuffix(todo: seq<nat>, l: seq<nat>) {
    |todo| <= |l| && l[|l| - |todo|..] == todo
  }

  /** The tasks still to be visited are the tail of blocked_list, before and after each iteration. */
  lemma TickOneSuffix(s: Sys, todo: seq<nat>)
    requires Inv(s) && IsSuffix(todo, s.blocked) && todo != []
    ensures todo[0] < |s.tasks| && HomeOf(s.tasks[todo[0]]) == OnBlocked
    ensures NextOf(s, todo[0]) == First(todo[1..])
    ensures Inv(TickOne(s, todo[0])) && IsSuffix(todo[1..], TickOne(s, todo[0]).blocked)
  {
    var k := |s.blocked| - |todo|;
    var t := s.blocked[k];
    assert todo[0] == t && todo[1..] == s.blocked[k + 1..];
    assert ListOf(s, OnBlocked) == s.blocked && t in ListOf(s, OnBlocked);
    MembersBelong(s, {}, OnBlocked);
    assert NoDup(ListOf(s, OnBlocked));
    SuccAt(s.blocked, k);
    TickOneInv(s, t);
    InvAt(s, t);
    if s.tasks[t].delay == 1 {
      WithoutAt(s.blocked, k);
      assert TickOne(s, t).blocked == Cut(s.blocked, k);
    }
  }

  lemma {:induction false} TickAllInv(s: Sys, todo: seq<nat>)
    requires Inv(s) && IsSuffix(todo, s.blocked)
    ensures Inv(TickAll(s, todo))
    decreases |todo|
  {
    if todo != [] {
      TickOneSuffix(s, todo);
      TickAllInv(TickOne(s, todo[0]), todo[1..]);
    }
  }

  lemma TickInv(s: Sys)
    requires Inv(s)
    ensures Inv(Tick(s))
  {
    TickAllInv(s, s.blocked);
  }

  lemma RotateInv(s: Sys, t: nat)
    requires Inv(s) && t < |s.tasks| && s.tasks[t].state in {Ready, Running}
    ensures Inv(AddToReady(Detach(s, t), t))
  {
    InvAt(s, t);
    DetachPlaced(s, t);
    AddToReadyPlaced(Detach(s, t), t);
    InvFrom(s, AddToReady(Detach(s, t), t), t);
  }

  lemma CurrentInv(s: Sys, c: nat)
    requires Inv(s) && c < |s.tasks|
    requires s.current.Some? ==> s.tasks[s.current.value].state != Running
    ensures Inv(s.(current := Some(c)))
  {
    var d := s.(current := Some(c));
    forall g ensures ListOf(d, g) == ListOf(s, g) {}
    SameLists(s, d, {});
    forall x | 0 <= x < |d.tasks| ensures Tagged(d.tasks[x]) && MayRun(d, x) {
      InvAt(s, x);
    }
  }

  lemma DemotedInv(s: Sys)
    requires Inv(s)
    ensures Inv(Demoted(s))
    ensures s.current.Some? ==> Demoted(s).tasks[s.current.value].state != Running
  {
    if s.current.Some? && s.tasks[s.current.value].state == Running {
      InvAt(s, s.current.value);
      TouchInv(s, s.current.value, s.tasks[s.current.value].(state := Ready));
    }
  }

  lemma SwitchInv(s: Sys, next: nat)
    requires Inv(s) && next < |s.tasks| && s.tasks[next].state in {Ready, Running}
    ensures Inv(SwitchTo(s, Some(next)))
  {
    DemotedInv(s);
    CurrentInv(Demoted(s), next);
    var s2 := Demoted(s).(current := Some(next));
    InvAt(s2, next);
    TouchInv(s2, next, s2.tasks[next].(state := Running));
  }

  lemma HighestIsReady(s: Sys)
    requires Inv(s) && HighestReady(s).Some?
    ensures var t := HighestReady(s).value;
      t < |s.tasks| && s.tasks[t].state in {Ready, Running} && s.tasks[t].prio == Top(s.ready, 0)
  {
    var p := Top(s.ready, 0);
    MembersBelong(s, {}, OnReady(p));
    assert s.ready[p][0] in ListOf(s, OnReady(p));
    InvAt(s, s.ready[p][0]);
  }

  lemma SelectInv(s: Sys)
    requires Inv(s)
    ensures Inv(SelectNext(s))
  {
    var next := HighestReady(s);
    if next.Some? {
      HighestIsReady(s);
      if next == s.current {
        var s1 := AddToReady(Detach(s, next.value), next.value);
        RotateInv(s, next.value);
        if HighestReady(s1).Some? {
          HighestIsReady(s1);
          SwitchInv(s1, HighestReady(s1).value);
        }
      } else {
        SwitchInv(s, next.value);
      }
    }
  }

  lemma ParkInv(s: Sys, w: nat, reason: Reason, timeout: nat)
    requires Inv(s) && Enabled(s, DoPark(w, reason, timeout))
    ensures Inv(Park(s, w, reason, timeout))
  {
    var t := s.current.value;
    var r := s.tasks[t].(blockedOn := Some(w), reason := reason, timedOut := false, delay := timeout, state := Blocked);
    InvAt(s, t);
    var s1 := Put(Detach(s, t), t, r);
    MoveInv(s, t, r, InsertPos(ListOf(s1, OnWait(w)), s1.tasks, r.prio));
  }

  lemma ReleaseInv(s: Sys, t: nat)
    requires Inv(s) && t < |s.tasks| && s.tasks[t].blockedOn.Some?
    ensures Inv(Release(s, t))
  {
    InvAt(s, t);
    WakeInv(s, t, s.tasks[t].(blockedOn := None, reason := NoReason, delay := 0, timedOut := false));
  }

  lemma NotifyInv(s: Sys, t: nat, v: nat)
    requires Inv(s) && t < |s.tasks|
    ensures Inv(NotifyTask(s, t, v))
  {
    var r := s.tasks[t].(notifyValue := v, notifyPending := true);
    InvAt(s, t);
    TouchInv(s, t, r);
    if r.state == Blocked && r.reason == Notify {
      WakeInv(Put(s, t, r), t, r.(reason := NoReason, delay := 0, timedOut := false));
    }
  }

  lemma NotifyWaitInv(s: Sys, timeout: nat)
    requires Inv(s) && CanCall(s)
    ensures Inv(NotifyWait(s, timeout))
  {
    var t := s.current.value;
    var r := s.tasks[t];
    InvAt(s, t);
    if r.notifyPending {
      TouchInv(s, t, r.(notifyPending := false));
    } else if timeout != 0 {
      TouchInv(s, t, r.(reason := Notify, timedOut := false));
      AddToBlockedInv(Put(s, t, r.(reason := Notify, timedOut := false)), t,
                      if timeout == WAIT_FOREVER then 0 else timeout);
    }
  }

  lemma SetPriorityInv(s: Sys, t: nat, p: nat)
    requires Inv(s) && Enabled(s, DoSetPriority(t, p))
    ensures Inv(SetPriority(s, t, p))
  {
    var r := s.tasks[t].(prio := p);
    InvAt(s, t);
    if r.state == Ready {
      WakeInv(s, t, r);
    } else {
      TouchInv(s, t, r);
    }
  }

  lemma SetPriorityRunning(s: Sys, t: nat, p: nat)
    requires Inv(s) && t < |s.tasks| && s.tasks[t].state == Running && p != s.tasks[t].prio
    ensures !Inv(SetPriority(s, t, p))
  {
    var d := SetPriority(s, t, p);
    assert ListOf(d, OnReady(p)) == ListOf(s, OnReady(p));
    MembersBelong(s, {}, OnReady(p));
    assert !AtHome(d, t);
  }

  /** os_task_set_priority keeps the invariant exactly when the task is not running or keeps its priority. */
  lemma SetPriorityInvIff(s: Sys, t: nat, p: nat)
    requires Inv(s) && t < |s.tasks| && p < NUM_PRIORITIES
    ensures Inv(SetPriority(s, t, p)) <==> s.tasks[t].state != Running || p == s.tasks[t].prio
  {
    if s.tasks[t].state != Running || p == s.tasks[t].prio {
      SetPriorityInv(s, t, p);
    } else {
      SetPriorityRunning(s, t, p);
    }
  }

  lemma StepInv(s: Sys, op: Op)
    requires Inv(s) && Enabled(s, op)
    ensures Inv(Step(s, op))
  {
    match op
    case DoCreate(prio) => CreateInv(s, prio);
    case DoNewObject => NewObjectInv(s);
    case DoSuspend(t) => SuspendInv(s, t);
    case DoResume(t) => ResumeInv(s, t);
    case DoSetPriority(t, p) => SetPriorityInv(s, t, p);
    case DoDelay(ticks) => if ticks != 0 { AddToBlockedInv(s, s.current.value, ticks); }
    case DoTick => TickInv(s);
    case DoSelect => SelectInv(s);
    case DoNotify(t, v) => NotifyInv(s, t, v);
    case DoNotifyWait(timeout) => NotifyWaitInv(s, timeout);
    case DoPark(w, reason, timeout) => ParkInv(s, w, reason, timeout);
    case DoRelease(t) => ReleaseInv(s, t);
  }
}
