/**
 What each kernel call changes, spelled out: which task gets which fields, where it stands afterwards, and that no
 other task and no other order has changed.
 */
module Effects {
  import opened KernelTypes
  import opened KernelSpec
  import opened KernelSteps
  import opened KernelRuns
  import opened WaitLists
  import opened Delays

  /** Task t has the fields r, and on every list the others stand as they did. */
  ghost predicate Moves(s: Sys, d: Sys, t: nat, r: Task) {
    && t < |s.tasks| && d.tasks == s.tasks[t := r] && d.current == s.current
    && |d.ready| == |s.ready| && |d.waits| == |s.waits|
    && forall h {:trigger ListOf(d, h)} :: Without(ListOf(d, h), t) == Without(ListOf(s, h), t)
  }

  predicate LastOn(s: Sys, h: Home, t: nat) {
    ListOf(s, h) != [] && ListOf(s, h)[|ListOf(s, h)| - 1] == t
  }

  predicate FirstOn(s: Sys, h: Home, t: nat) {
    ListOf(s, h) != [] && ListOf(s, h)[0] == t
  }

  /** No list is different. */
  predicate ListsKept(s: Sys, d: Sys) {
    d.ready == s.ready && d.blocked == s.blocked && d.waits == s.waits && d.current == s.current
  }

  // ---------- One task leaves a list and joins another ----------

  lemma {:induction false} WithoutAbsent(l: seq<nat>, t: nat)
    requires t !in l
    ensures Without(l, t) == l
  {
    if l != [] {
      assert l == [l[0]] + l[1..];
      WithoutAbsent(l[1..], t);
    }
  }

  lemma WithoutSpliced(l: seq<nat>, k: nat, t: nat)
    requires k <= |l| && NoDup(l) && t !in l
    ensures Without(Splice(l, k, t), t) == l
  {
    SpliceKeeps(l, k, t);
    WithoutAt(Splice(l, k, t), k);
    assert Cut(Splice(l, k, t), k) == l;
  }

  lemma WithoutTwice(l: seq<nat>, t: nat)
    requires NoDup(l)
    ensures Without(Without(l, t), t) == Without(l, t)
  {
    WithoutKeeps(l, t);
    WithoutAbsent(Without(l, t), t);
  }

  /** t taken off its list. */
  lemma DetachRest(s: Sys, t: nat, h: Home)
    requires Placed(s, {}) && t < |s.tasks|
    ensures ListOf(Detach(s, t), h) == Without(ListOf(s, h), t)
    ensures NoDup(ListOf(Detach(s, t), h)) && t !in ListOf(Detach(s, t), h)
  {
    PlacedEverywhere(s, {});
    WithoutKeeps(ListOf(s, h), t);
    if h != HomeOf(s.tasks[t]) {
      assert t in ListOf(s, h) ==> Belongs(s, {}, h, t);
      WithoutAbsent(ListOf(s, h), t);
    }
  }

  lemma ListsOfPut(s: Sys, t: nat, r: Task, h: Home)
    requires t < |s.tasks|
    ensures ListOf(Put(s, t, r), h) == ListOf(s, h)
  {
  }

  /** ... given new fields, and put into the list that these name. */
  lemma JoinMoves(s: Sys, t: nat, r: Task, k: nat)
    requires Placed(s, {}) && t < |s.tasks|
    requires k <= |ListOf(Put(Detach(s, t), t, r), HomeOf(r))|
    ensures Moves(s, Attach(Put(Detach(s, t), t, r), t, k), t, r)
    ensures HasList(s, HomeOf(r)) ==>
      var l := Without(ListOf(s, HomeOf(r)), t);
      k <= |l| && ListOf(Attach(Put(Detach(s, t), t, r), t, k), HomeOf(r)) == Splice(l, k, t)
  {
    var s1 := Put(Detach(s, t), t, r);
    var d := Attach(s1, t, k);
    forall h ensures Without(ListOf(d, h), t) == Without(ListOf(s, h), t) {
      DetachRest(s, t, h);
      ListsOfPut(Detach(s, t), t, r, h);
      JoinOne(s1, t, k, h);
    }
    DetachRest(s, t, HomeOf(r));
    ListsOfPut(Detach(s, t), t, r, HomeOf(r));
    JoinOne(s1, t, k, HomeOf(r));
  }

  lemma JoinOne(s: Sys, t: nat, k: nat, h: Home)
    requires t < |s.tasks| && k <= |ListOf(s, HomeOf(s.tasks[t]))| && NoDup(ListOf(s, h)) && t !in ListOf(s, h)
    ensures Without(ListOf(Attach(s, t, k), h), t) == ListOf(s, h)
    ensures h == HomeOf(s.tasks[t]) && HasList(s, h) ==> ListOf(Attach(s, t, k), h) == Splice(ListOf(s, h), k, t)
  {
    if h == HomeOf(s.tasks[t]) && HasList(s, h) {
      WithoutSpliced(ListOf(s, h), k, t);
    } else {
      WithoutAbsent(ListOf(s, h), t);
    }
  }

  /** t, with the fields r, goes to the end of its ready list. */
  lemma ReadyMoves(s: Sys, t: nat, r: Task)
    requires Placed(s, {}) && t < |s.tasks| && r.prio < |s.ready|
    ensures var d, r1 := AddToReady(Put(Detach(s, t), t, r), t), r.(state := Ready);
      Moves(s, d, t, r1) && LastOn(d, OnReady(r.prio), t)
  {
    var s1, r1 := Put(Detach(s, t), t, r), r.(state := Ready);
    var k := |ListOf(Put(Detach(s, t), t, r1), OnReady(r.prio))|;
    assert Put(s1, t, r1) == Put(Detach(s, t), t, r1);
    JoinMoves(s, t, r1, k);
  }

  /** t goes to the front of blocked_list. */
  lemma BlockMoves(s: Sys, t: nat, timeout: nat)
    requires Placed(s, {}) && t < |s.tasks| && s.tasks[t].blockedOn.None?
    ensures var d, r := AddToBlocked(s, t, timeout), s.tasks[t].(state := Blocked, delay := timeout);
      Moves(s, d, t, r) && FirstOn(d, OnBlocked, t)
  {
    JoinMoves(s, t, s.tasks[t].(state := Blocked, delay := timeout), 0);
  }

  // ---------- The calls ----------

  /** A new task has these fields, is the last of its ready list, and everything else is as it was. */
  lemma CreateEffect(s: Sys, prio: nat)
    requires Inv(s) && Enabled(s, DoCreate(prio))
    ensures var d := Step(s, DoCreate(prio));
      && |d.tasks| == |s.tasks| + 1 && d.tasks[..|s.tasks|] == s.tasks
      && (var r := d.tasks[|s.tasks|];
          && r.prio == prio && r.state == Ready && r.delay == 0 && r.blockedOn == None && r.reason == NoReason
          && !r.timedOut && !r.notifyPending && r.notifyValue == 0)
      && d.ready == s.ready[prio := s.ready[prio] + [|s.tasks|]]
      && d.blocked == s.blocked && d.waits == s.waits && d.current == s.current
  {
    var l := s.ready[prio];
    assert Splice(l, |l|, |s.tasks|) == l + [|s.tasks|];
  }

  /** A READY or RUNNING task is taken off its list, and stays off; any other is left alone. */
  lemma SuspendEffect(s: Sys, t: nat)
    requires Inv(s) && Enabled(s, DoSuspend(t))
    ensures var d := Step(s, DoSuspend(t));
      if s.tasks[t].state in {Ready, Running}
      then Moves(s, d, t, s.tasks[t].(state := Suspended)) && forall h :: t !in ListOf(d, h)
      else d == s
  {
    if s.tasks[t].state in {Ready, Running} {
      var d := Step(s, DoSuspend(t));
      forall h ensures Without(ListOf(d, h), t) == Without(ListOf(s, h), t) && t !in ListOf(d, h) {
        DetachRest(s, t, h);
        assert NoDup(ListOf(s, h));
        WithoutTwice(ListOf(s, h), t);
      }
    }
  }

  /** A SUSPENDED task becomes READY, the last of its list; any other is left alone. */
  lemma ResumeEffect(s: Sys, t: nat)
    requires Inv(s) && Enabled(s, DoResume(t))
    ensures var d := Step(s, DoResume(t));
      if s.tasks[t].state == Suspended
      then Moves(s, d, t, s.tasks[t].(state := Ready)) && LastOn(d, OnReady(s.tasks[t].prio), t)
      else d == s
  {
    if s.tasks[t].state == Suspended {
      InvAt(s, t);
      assert Put(Detach(s, t), t, s.tasks[t]) == s;
      ReadyMoves(s, t, s.tasks[t]);
    }
  }

  /** Suspending a task and resuming it puts it behind the others of its priority, and changes nothing else. */
  lemma SuspendResume(s: Sys, t: nat)
    requires Inv(s) && t < |s.tasks| && s.tasks[t].state in {Ready, Running}
    ensures var d := Step(Step(s, DoSuspend(t)), DoResume(t));
      Inv(d) && Moves(s, d, t, s.tasks[t].(state := Ready)) && LastOn(d, OnReady(s.tasks[t].prio), t)
  {
    var m := Step(s, DoSuspend(t));
    StepInv(s, DoSuspend(t));
    StepInv(m, DoResume(t));
    SuspendEffect(s, t);
    ResumeEffect(m, t);
    var d := Step(m, DoResume(t));
    assert d.tasks == s.tasks[t := s.tasks[t].(state := Ready)];
    forall h ensures Without(ListOf(d, h), t) == Without(ListOf(s, h), t) {
      assert Without(ListOf(d, h), t) == Without(ListOf(m, h), t);
    }
  }

  /** A READY task goes to the end of its new list, more urgent or less; any other only gets the field. */
  lemma SetPriorityEffect(s: Sys, t: nat, p: nat)
    requires Inv(s) && Callable(s, DoSetPriority(t, p))
    ensures var d, r := Called(s, DoSetPriority(t, p)), s.tasks[t].(prio := p);
      if s.tasks[t].state == Ready then Moves(s, d, t, r) && LastOn(d, OnReady(p), t)
      else ListsKept(s, d) && d.tasks == s.tasks[t := r]
  {
    if s.tasks[t].state == Ready {
      ReadyMoves(s, t, s.tasks[t].(prio := p));
    }
  }

  /** No ticks, no delay; else the caller is first on blocked_list, with the ticks to go. */
  lemma DelayEffect(s: Sys, ticks: nat)
    requires Inv(s) && Enabled(s, DoDelay(ticks))
    ensures var t, d := s.current.value, Step(s, DoDelay(ticks));
      if ticks == 0 then d == s
      else Moves(s, d, t, s.tasks[t].(state := Blocked, delay := ticks)) && FirstOn(d, OnBlocked, t)
  {
    InvAt(s, s.current.value);
    if ticks != 0 {
      BlockMoves(s, s.current.value, ticks);
    }
  }

  /** The caller stands on w behind everybody as urgent and before everybody less so. */
  lemma ParkEffect(s: Sys, w: nat, reason: Reason, timeout: nat)
    requires Inv(s) && Enabled(s, DoPark(w, reason, timeout))
    ensures Parks(s, Step(s, DoPark(w, reason, timeout)), s.current.value, w, reason, timeout)
  {
    var t := s.current.value;
    var r := s.tasks[t].(blockedOn := Some(w), reason := reason, timedOut := false, delay := timeout, state := Blocked);
    ParkWaiters(s, w, reason, timeout);
    JoinMoves(s, t, r, InsertPos(ListOf(Put(Detach(s, t), t, r), OnWait(w)), Put(Detach(s, t), t, r).tasks, r.prio));
  }

  /** t is parked on w for the reason, at the place of its priority. */
  ghost predicate Parks(s: Sys, d: Sys, t: nat, w: nat, reason: Reason, timeout: nat) {
    && t < |s.tasks| && w < |s.waits| && w < |d.waits|
    && Moves(s, d, t, s.tasks[t].(blockedOn := Some(w), reason := reason, timedOut := false, delay := timeout,
                                  state := Blocked))
    && exists k :: 0 <= k <= |s.waits[w]| && d.waits[w] == s.waits[w][..k] + [t] + s.waits[w][k..]
         && (forall i :: 0 <= i < k ==> PrioOf(s.tasks, s.waits[w][i]) <= s.tasks[t].prio)
         && (k < |s.waits[w]| ==> s.tasks[t].prio < PrioOf(s.tasks, s.waits[w][k]))
  }

  /** t leaves the wait list it is on and goes to the end of its ready list, waiting for nothing. */
  ghost predicate Wakes(s: Sys, d: Sys, t: nat) {
    && t < |s.tasks| && LastOn(d, OnReady(s.tasks[t].prio), t)
    && Moves(s, d, t, s.tasks[t].(blockedOn := None, reason := NoReason, delay := 0, timedOut := false,
                                  state := Ready))
  }

  /** The first of the waiters l is woken, if there is one. */
  ghost predicate WakesFirst(s: Sys, d: Sys, l: seq<nat>) {
    if l == [] then d == s else Wakes(s, d, l[0])
  }

  lemma ReleaseEffect(s: Sys, t: nat)
    requires Inv(s) && Enabled(s, DoRelease(t))
    ensures Wakes(s, Step(s, DoRelease(t)), t)
  {
    InvAt(s, t);
    ReadyMoves(s, t, s.tasks[t].(blockedOn := None, reason := NoReason, delay := 0, timedOut := false));
  }

  /** The value is stored; a task blocked with the notification reason goes to the end of its ready list. */
  lemma NotifyEffect(s: Sys, t: nat, v: nat)
    requires Inv(s) && Enabled(s, DoNotify(t, v))
    ensures var d, r := Step(s, DoNotify(t, v)), s.tasks[t].(notifyValue := v, notifyPending := true);
      if s.tasks[t].state == Blocked && s.tasks[t].reason == Notify
      then Moves(s, d, t, r.(reason := NoReason, delay := 0, timedOut := false, state := Ready)) &&
           LastOn(d, OnReady(r.prio), t)
      else ListsKept(s, d) && d.tasks == s.tasks[t := r]
  {
    var r := s.tasks[t].(notifyValue := v, notifyPending := true);
    var s1 := Put(s, t, r);
    InvAt(s, t);
    if r.state == Blocked && r.reason == Notify {
      PutPlaced(s, t, r, {});
      ReadyMoves(s1, t, r.(reason := NoReason, delay := 0, timedOut := false));
      SeenThrough(s, t, r, Step(s, DoNotify(t, v)));
    }
  }

  /** A change of fields before the move is not seen after it. */
  lemma SeenThrough(s: Sys, t: nat, r: Task, d: Sys)
    requires t < |s.tasks| && t < |d.tasks| && Moves(Put(s, t, r), d, t, d.tasks[t])
    ensures Moves(s, d, t, d.tasks[t])
  {
    forall h ensures Without(ListOf(d, h), t) == Without(ListOf(s, h), t) {
      ListsOfPut(s, t, r, h);
    }
  }

  /** A pending value is taken; else a wait without a timeout is refused and any other goes to blocked_list. */
  lemma NotifyWaitEffect(s: Sys, timeout: nat)
    requires Inv(s) && Enabled(s, DoNotifyWait(timeout))
    ensures var t, d := s.current.value, Step(s, DoNotifyWait(timeout));
      if s.tasks[t].notifyPending then ListsKept(s, d) && d.tasks == s.tasks[t := s.tasks[t].(notifyPending := false)]
      else if timeout == 0 then d == s
      else
        && FirstOn(d, OnBlocked, t)
        && Moves(s, d, t, s.tasks[t].(reason := Notify, timedOut := false, state := Blocked,
                                      delay := if timeout == WAIT_FOREVER then 0 else timeout))
  {
    var t := s.current.value;
    var r := s.tasks[t].(reason := Notify, timedOut := false);
    InvAt(s, t);
    if !s.tasks[t].notifyPending && timeout != 0 {
      PutPlaced(s, t, r, {});
      BlockMoves(Put(s, t, r), t, if timeout == WAIT_FOREVER then 0 else timeout);
      SeenThrough(s, t, r, Step(s, DoNotifyWait(timeout)));
    }
  }

  /** With nobody ready nothing happens; otherwise only ready lists and states change, as SelectShape says. */
  lemma SelectEffect(s: Sys)
    requires Inv(s)
    ensures var d := Step(s, DoSelect);
      && d.blocked == s.blocked && d.waits == s.waits
      && ((forall p :: 0 <= p < |s.ready| ==> s.ready[p] == []) ==> d == s)
  {
    if HighestReady(s).Some? {
      HighestIsReady(s);
      if HighestReady(s) == s.current {
        RotateReady(s);
      }
    }
  }

  // ---------- The tick ----------

  /** Those of l that a tick leaves where they are. */
  function Kept(l: seq<nat>, tasks: seq<Task>): seq<nat> {
    if l == [] then [] else (if l[0] < |tasks| && tasks[l[0]].delay == 1 then [] else [l[0]]) + Kept(l[1..], tasks)
  }

  /** Those of l, and of priority p, whose last tick it is. */
  function Due(l: seq<nat>, tasks: seq<Task>, p: nat): seq<nat> {
    if l == [] then []
    else (if l[0] < |tasks| && tasks[l[0]].delay == 1 && tasks[l[0]].prio == p then [l[0]] else []) +
         Due(l[1..], tasks, p)
  }

  /** What a tick on the tasks in todo, behind pre on blocked_list, makes of the lists. */
  ghost predicate TickedLists(s: Sys, d: Sys, pre: seq<nat>, todo: seq<nat>) {
    && d.blocked == pre + Kept(todo, s.tasks) && d.waits == s.waits && d.current == s.current
    && |d.ready| == |s.ready|
    && forall p :: 0 <= p < |s.ready| ==> d.ready[p] == s.ready[p] + Due(todo, s.tasks, p)
  }

  lemma {:induction false} TickAllLists(s: Sys, pre: seq<nat>, todo: seq<nat>)
    requires Inv(s) && s.blocked == pre + todo
    ensures TickedLists(s, TickAll(s, todo), pre, todo)
    decreases |todo|
  {
    if todo == [] {
      assert pre + [] == pre;
    } else {
      var x, m := todo[0], TickOne(s, todo[0]);
      assert s.blocked[|pre|..] == todo;
      TickOneSuffix(s, todo);
      TickOneLists(s, pre, todo);
      OthersDue(s, pre, todo);
      var front := if s.tasks[x].delay == 1 then pre else pre + [x];
      assert m.blocked == front + todo[1..];
      TickAllLists(m, front, todo[1..]);
      Continue(s, m, TickAll(s, todo), pre, todo);
    }
  }

  /** One iteration, and then the others. */
  lemma Continue(s: Sys, m: Sys, d: Sys, pre: seq<nat>, todo: seq<nat>)
    requires todo != [] && todo[0] < |s.tasks|
    requires OneTicked(s, m, todo[0])
    requires Kept(todo[1..], m.tasks) == Kept(todo[1..], s.tasks)
    requires forall p :: Due(todo[1..], m.tasks, p) == Due(todo[1..], s.tasks, p)
    requires TickedLists(m, d, if s.tasks[todo[0]].delay == 1 then pre else pre + [todo[0]], todo[1..])
    ensures TickedLists(s, d, pre, todo)
  {
    var x, rest := todo[0], todo[1..];
    Regroup(pre, if s.tasks[x].delay == 1 then [] else [x], Kept(rest, s.tasks));
    assert pre + [] == pre;
    forall p | 0 <= p < |s.ready| ensures d.ready[p] == s.ready[p] + Due(todo, s.tasks, p) {
      Regroup(s.ready[p], One(s, x, p), Due(rest, s.tasks, p));
    }
  }

  lemma Regroup(a: seq<nat>, b: seq<nat>, c: seq<nat>)
    ensures (a + b) + c == a + (b + c)
  {
  }

  /** x, if it is due and of priority p. */
  function One(s: Sys, x: nat, p: nat): seq<nat>
    requires x < |s.tasks|
  {
    if s.tasks[x].delay == 1 && s.tasks[x].prio == p then [x] else []
  }

  /** One iteration of the loop, on the ready lists. */
  ghost predicate OneTicked(s: Sys, m: Sys, x: nat) {
    && x < |s.tasks| && m.waits == s.waits && m.current == s.current && |m.ready| == |s.ready|
    && forall p :: 0 <= p < |s.ready| ==>
         m.ready[p] == s.ready[p] + One(s, x, p)
  }

  lemma TickOneLists(s: Sys, pre: seq<nat>, todo: seq<nat>)
    requires Inv(s) && s.blocked == pre + todo && todo != []
    ensures var x, m := todo[0], TickOne(s, todo[0]);
      && OneTicked(s, m, x) && m.blocked == if s.tasks[x].delay == 1 then pre + todo[1..] else s.blocked
  {
    var x := todo[0];
    assert s.blocked[|pre|..] == todo;
    TickOneSuffix(s, todo);
    InvAt(s, x);
    if s.tasks[x].delay == 1 {
      assert s.blocked == ListOf(s, OnBlocked) && s.blocked[|pre|] == x;
      assert NoDup(ListOf(s, OnBlocked));
      WithoutAt(s.blocked, |pre|);
      assert Cut(s.blocked, |pre|) == pre + todo[1..];
      LastOfReady(Put(Detach(s, x), x, s.tasks[x].(delay := 0)), x);
    }
  }

  lemma LastOfReady(s: Sys, x: nat)
    requires x < |s.tasks| && s.tasks[x].prio < |s.ready|
    ensures var p := s.tasks[x].prio; AddToReady(s, x).ready == s.ready[p := s.ready[p] + [x]]
    ensures AddToReady(s, x).blocked == s.blocked && AddToReady(s, x).waits == s.waits
    ensures AddToReady(s, x).current == s.current
  {
    var l := s.ready[s.tasks[x].prio];
    assert Splice(l, |l|, x) == l + [x];
  }

  /** One iteration changes nothing for the tasks behind. */
  lemma OthersDue(s: Sys, pre: seq<nat>, todo: seq<nat>)
    requires Inv(s) && s.blocked == pre + todo && todo != []
    ensures var m := TickOne(s, todo[0]);
      && Kept(todo[1..], m.tasks) == Kept(todo[1..], s.tasks)
      && forall p :: Due(todo[1..], m.tasks, p) == Due(todo[1..], s.tasks, p)
  {
    var x, m := todo[0], TickOne(s, todo[0]);
    assert s.blocked[|pre|..] == todo;
    TickOneSuffix(s, todo);
    assert s.blocked == ListOf(s, OnBlocked) && NoDup(ListOf(s, OnBlocked));
    TickOneEffect(s, x, x);
    forall i | 0 <= i < |todo[1..]| && todo[1..][i] < |s.tasks|
      ensures m.tasks[todo[1..][i]] == s.tasks[todo[1..][i]]
    {
      assert todo[1..][i] == s.blocked[|pre| + 1 + i] && s.blocked[|pre|] == x;
      TickOneEffect(s, x, todo[1..][i]);
    }
    forall p ensures Due(todo[1..], m.tasks, p) == Due(todo[1..], s.tasks, p) {
      SameDue(todo[1..], s.tasks, m.tasks, p);
    }
    SameDue(todo[1..], s.tasks, m.tasks, 0);
  }

  lemma {:induction false} SameDue(l: seq<nat>, tasks: seq<Task>, tasks': seq<Task>, p: nat)
    requires |tasks'| == |tasks| && forall i :: 0 <= i < |l| && l[i] < |tasks| ==> tasks'[l[i]] == tasks[l[i]]
    ensures Kept(l, tasks') == Kept(l, tasks) && Due(l, tasks', p) == Due(l, tasks, p)
  {
    if l != [] {
      SameDue(l[1..], tasks, tasks', p);
    }
  }

  /** The tick moves each task whose last tick it is to the end of its ready list, in the order of blocked_list. */
  lemma TickLists(s: Sys)
    requires Inv(s)
    ensures var d := Step(s, DoTick);
      && d.blocked == Kept(s.blocked, s.tasks) && d.waits == s.waits && d.current == s.current
      && |d.ready| == |s.ready|
      && forall p :: 0 <= p < |s.ready| ==> d.ready[p] == s.ready[p] + Due(s.blocked, s.tasks, p)
  {
    assert [] + s.blocked == s.blocked;
    TickAllLists(s, [], s.blocked);
    assert [] + Kept(s.blocked, s.tasks) == Kept(s.blocked, s.tasks);
  }
}
