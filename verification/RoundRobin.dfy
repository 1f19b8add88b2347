/**
 Bounded waiting under round robin: a task of the top priority becomes current after a number of
 scheduling steps fixed by its place in the list, whatever else its peers do meanwhile.
 */
module RoundRobin {
  import opened KernelTypes
  import opened KernelSpec
  import opened KernelSteps
  import opened KernelRuns

  /** The position of t in l. */
  function Pos(l: seq<nat>, t: nat): nat {
    if l == [] || l[0] == t then 0 else 1 + Pos(l[1..], t)
  }

  /** How many scheduling steps t still has to wait for. */
  function Wait(l: seq<nat>, t: nat, current: Option<nat>): nat {
    Pos(l, t) + if First(l) == current then 0 else 1
  }

  /** Priority p is the top priority and t is ready at it. */
  predicate Contends(s: Sys, t: nat, p: nat) {
    t < |s.tasks| && p < |s.ready| && Top(s.ready, 0) == p && HomeOf(s.tasks[t]) == OnReady(p)
  }

  /** Until t is current, nothing of higher priority becomes ready and nobody moves t itself. */
  predicate Steady(s: Sys, ops: seq<Op>, t: nat, p: nat)
    requires CanRun(s, ops)
    decreases |ops|
  {
    s.current == Some(t) ||
    (Contends(s, t, p) && (ops != [] ==>
      !(ops[0].DoSetPriority? && ops[0].t == t) && Steady(Step(s, ops[0]), ops[1..], t, p)))
  }

  function Selections(ops: seq<Op>): nat {
    if ops == [] then 0 else (if ops[0].DoSelect? then 1 else 0) + Selections(ops[1..])
  }

  lemma {:induction false} AppendKeepsPos(l: seq<nat>, t: nat, x: nat)
    requires t in l
    ensures Pos(l + [x], t) == Pos(l, t) < |l|
  {
    if l[0] != t {
      assert (l + [x])[1..] == l[1..] + [x];
      AppendKeepsPos(l[1..], t, x);
    }
  }

  lemma {:induction false} WithoutPos(l: seq<nat>, t: nat, x: nat)
    requires t in l && x != t
    ensures Pos(Without(l, x), t) <= Pos(l, t)
  {
    if l[0] != t && l[0] != x {
      assert (([l[0]] + Without(l[1..], x))[1..]) == Without(l[1..], x);
      WithoutPos(l[1..], t, x);
    }
  }

  /** A peer that leaves never makes t wait longer, even if it was at the head. */
  lemma LeaveKeepsWait(l: seq<nat>, t: nat, x: nat, c: Option<nat>)
    requires t in l && x != t
    ensures Wait(Without(l, x), t, c) <= Wait(l, t, c)
  {
    WithoutPos(l, t, x);
  }

  lemma ArriveKeepsWait(l: seq<nat>, t: nat, x: nat, c: Option<nat>)
    requires t in l
    ensures Wait(Splice(l, |l|, x), t, c) == Wait(l, t, c)
  {
    AppendKeepsPos(l, t, x);
    assert Splice(l, |l|, x) == l + [x];
  }

  /** The ready list p after a peer x has left its list and taken new fields. */
  lemma MovedAway(s: Sys, x: nat, r: Task, t: nat, p: nat)
    requires Placed(s, {}) && t < |s.tasks| && HomeOf(s.tasks[t]) == OnReady(p)
    requires x < |s.tasks| && x != t
    ensures var d := Put(Detach(s, x), x, r);
      p < |d.ready| == |s.ready| && t in s.ready[p] && t in d.ready[p] && d.current == s.current
      && Wait(d.ready[p], t, s.current) <= Wait(s.ready[p], t, s.current)
  {
    assert AtHome(s, t) && FieldsOk(s, s.tasks[t]) && NoDup(ListOf(s, OnReady(p)));
    WithoutKeeps(s.ready[p], x);
    LeaveKeepsWait(s.ready[p], t, x, s.current);
  }

  lemma Joined(s: Sys, x: nat, t: nat, p: nat)
    requires x < |s.tasks| && p < |s.ready| && t in s.ready[p]
    ensures var d := AddToReady(s, x);
      |d.ready| == |s.ready| && t in d.ready[p] && d.current == s.current
      && Wait(d.ready[p], t, s.current) == Wait(s.ready[p], t, s.current)
  {
    ArriveKeepsWait(s.ready[p], t, x, s.current);
    var l := s.ready[p];
    assert forall y :: y in l ==> y in l + [x];
    assert Splice(l, |l|, x) == l + [x];
  }

  /** Off one list, onto the tail of a ready list: the shape of most wake-ups. */
  lemma MovedToReady(s: Sys, x: nat, r: Task, t: nat, p: nat)
    requires Placed(s, {}) && t < |s.tasks| && HomeOf(s.tasks[t]) == OnReady(p)
    requires x < |s.tasks| && x != t
    ensures var d := AddToReady(Put(Detach(s, x), x, r), x);
      p < |d.ready| == |s.ready| && t in d.ready[p] && d.current == s.current
      && Wait(d.ready[p], t, s.current) <= Wait(s.ready[p], t, s.current)
  {
    MovedAway(s, x, r, t, p);
    Joined(Put(Detach(s, x), x, r), x, t, p);
  }

  lemma {:induction false} TickKeepsWait(s: Sys, todo: seq<nat>, t: nat, p: nat)
    requires Inv(s) && IsSuffix(todo, s.blocked) && t < |s.tasks| && HomeOf(s.tasks[t]) == OnReady(p)
    ensures var d := TickAll(s, todo);
      p < |d.ready| == |s.ready| && d.current == s.current
      && Wait(d.ready[p], t, s.current) <= Wait(s.ready[p], t, s.current)
    decreases |todo|
  {
    AlwaysFieldsOk(s, {}, t);
    if todo != [] {
      var x := todo[0];
      TickOneSuffix(s, todo);
      var d := TickOne(s, x);
      if s.tasks[x].delay == 1 {
        InvAt(s, x);
        MovedToReady(s, x, s.tasks[x].(delay := 0), t, p);
      }
      TickKeepsWait(d, todo[1..], t, p);
    }
  }

  /** The caller of a blocking call gives up its own place only. */
  lemma CallerKeepsWait(s: Sys, op: Op, t: nat, p: nat)
    requires Inv(s) && Enabled(s, op) && (op.DoDelay? || op.DoNotifyWait? || op.DoPark?)
    requires Contends(s, t, p) && s.current != Some(t)
    ensures var d := Step(s, op);
      d.current == s.current && p < |d.ready| && Wait(d.ready[p], t, s.current) <= Wait(s.ready[p], t, s.current)
  {
    match op
    case DoDelay(ticks) =>
      DelayKeepsWait(s, ticks, t, p);
    case DoNotifyWait(timeout) =>
      NotifyWaitKeepsWait(s, timeout, t, p);
    case DoPark(w, reason, timeout) =>
      ParkKeepsWait(s, w, reason, timeout, t, p);
  }

  lemma DelayKeepsWait(s: Sys, ticks: nat, t: nat, p: nat)
    requires Inv(s) && CanCall(s) && Contends(s, t, p) && s.current != Some(t)
    ensures var d := Delay(s, ticks);
      d.current == s.current && p < |d.ready| && Wait(d.ready[p], t, s.current) <= Wait(s.ready[p], t, s.current)
  {
    var x := s.current.value;
    MovedAway(s, x, s.tasks[x].(state := Blocked, delay := ticks), t, p);
  }

  lemma ParkKeepsWait(s: Sys, w: nat, reason: Reason, timeout: nat, t: nat, p: nat)
    requires Inv(s) && Enabled(s, DoPark(w, reason, timeout)) && Contends(s, t, p) && s.current != Some(t)
    ensures var d := Park(s, w, reason, timeout);
      d.current == s.current && p < |d.ready| && Wait(d.ready[p], t, s.current) <= Wait(s.ready[p], t, s.current)
  {
    var x := s.current.value;
    var r := s.tasks[x].(blockedOn := Some(w), reason := reason, timedOut := false, delay := timeout, state := Blocked);
    MovedAway(s, x, r, t, p);
  }

  /** Creation, suspension, resumption and priority changes of other tasks. */
  lemma TaskCallKeepsWait(s: Sys, op: Op, t: nat, p: nat)
    requires Inv(s) && Enabled(s, op) && (op.DoCreate? || op.DoSuspend? || op.DoResume? || op.DoSetPriority?)
    requires Contends(s, t, p) && Contends(Step(s, op), t, p) && !(op.DoSetPriority? && op.t == t)
    ensures var d := Step(s, op);
      d.current == s.current && Wait(d.ready[p], t, s.current) <= Wait(s.ready[p], t, s.current)
  {
    assert AtHome(s, t);
    match op
    case DoCreate(prio) =>
      Joined(s.(tasks := s.tasks + [NewTask(prio)]), |s.tasks|, t, p);
    case DoSuspend(x) =>
      if x != t { MovedAway(s, x, s.tasks[x].(state := Suspended), t, p); }
    case DoResume(x) =>
      if s.tasks[x].state == Suspended { Joined(s, x, t, p); }
    case DoSetPriority(x, q) =>
      MovedToReady(s, x, s.tasks[x].(prio := q), t, p);
  }

  /** No call but a scheduling step makes t wait longer. */
  lemma OthersKeepWait(s: Sys, op: Op, t: nat, p: nat)
    requires Inv(s) && Enabled(s, op) && !op.DoSelect? && s.current != Some(t)
    requires !(op.DoSetPriority? && op.t == t)
    requires Contends(s, t, p) && Contends(Step(s, op), t, p)
    ensures Step(s, op).current == s.current
    ensures Wait(Step(s, op).ready[p], t, s.current) <= Wait(s.ready[p], t, s.current)
  {
    match op
    case DoTick => TickKeepsWait(s, s.blocked, t, p);
    case DoNotify(x, v) => NotifyKeepsWait(s, x, v, t, p);
    case DoNewObject =>
    case DoRelease(x) =>
      InvAt(s, x);
      MovedToReady(s, x, s.tasks[x].(blockedOn := None, reason := NoReason, delay := 0, timedOut := false), t, p);
    case _ =>
      if op.DoDelay? || op.DoNotifyWait? || op.DoPark? {
        CallerKeepsWait(s, op, t, p);
      } else {
        TaskCallKeepsWait(s, op, t, p);
      }
  }

  lemma NotifyKeepsWait(s: Sys, x: nat, v: nat, t: nat, p: nat)
    requires Inv(s) && x < |s.tasks| && Contends(s, t, p)
    ensures var d := NotifyTask(s, x, v);
      d.current == s.current && p < |d.ready| && Wait(d.ready[p], t, s.current) <= Wait(s.ready[p], t, s.current)
  {
    var r := s.tasks[x].(notifyValue := v, notifyPending := true);
    if r.state == Blocked && r.reason == Notify {
      AlwaysFieldsOk(s, {}, x);
      PutPlaced(s, x, r, {});
      MovedToReady(Put(s, x, r), x, r.(reason := NoReason, delay := 0, timedOut := false), t, p);
    }
  }

  lemma NotifyWaitKeepsWait(s: Sys, timeout: nat, t: nat, p: nat)
    requires Inv(s) && CanCall(s) && Contends(s, t, p) && s.current != Some(t)
    ensures var d := NotifyWait(s, timeout);
      d.current == s.current && p < |d.ready| && Wait(d.ready[p], t, s.current) <= Wait(s.ready[p], t, s.current)
  {
    var x := s.current.value;
    if !s.tasks[x].notifyPending && timeout != 0 {
      var r := s.tasks[x].(reason := Notify, timedOut := false);
      AlwaysFieldsOk(s, {}, x);
      PutPlaced(s, x, r, {});
      MovedAway(Put(s, x, r), x, r.(state := Blocked, delay := if timeout == WAIT_FOREVER then 0 else timeout), t, p);
    }
  }

  /** A scheduling step brings t exactly one place closer; the last one makes it current. */
  lemma SelectShortensWait(s: Sys, t: nat, p: nat)
    requires Inv(s) && Contends(s, t, p) && s.current != Some(t)
    ensures Wait(s.ready[p], t, s.current) > 0
    ensures var d := SelectNext(s);
      && p < |d.ready| && t in d.ready[p]
      && Wait(d.ready[p], t, d.current) == Wait(s.ready[p], t, s.current) - 1
      && (Wait(s.ready[p], t, s.current) == 1 ==> d.current == Some(t))
  {
    assert AtHome(s, t);
    var l := s.ready[p];
    SelectShape(s);
    if s.current == Some(l[0]) {
      assert t in l[1..];
      AppendKeepsPos(l[1..], t, l[0]);
    }
    var d := SelectNext(s);
    FirstIffPosZero(d.ready[p], t);
  }

  lemma FirstIffPosZero(l: seq<nat>, t: nat)
    requires t in l
    ensures Pos(l, t) == 0 <==> First(l) == Some(t)
  {
  }

  /** One step of a steady run: the wait drops by one exactly at the scheduling steps. */
  lemma SteadyStep(s: Sys, op: Op, t: nat, p: nat)
    requires Inv(s) && Enabled(s, op) && s.current != Some(t) && Contends(s, t, p)
    requires !(op.DoSetPriority? && op.t == t)
    requires Contends(Step(s, op), t, p)
    ensures Wait(Step(s, op).ready[p], t, Step(s, op).current) + (if op.DoSelect? then 1 else 0)
              <= Wait(s.ready[p], t, s.current)
  {
    if op.DoSelect? {
      SelectShortensWait(s, t, p);
    } else {
      OthersKeepWait(s, op, t, p);
    }
  }

  /** t is current somewhere along the run. */
  ghost predicate GetsItsTurn(s: Sys, ops: seq<Op>, t: nat)
    requires CanRun(s, ops)
  {
    exists k :: 0 <= k <= |ops| && CanRun(s, ops[..k]) && Run(s, ops[..k]).current == Some(t)
  }

  lemma TurnLater(s: Sys, ops: seq<Op>, t: nat)
    requires CanRun(s, ops) && ops != [] && GetsItsTurn(Step(s, ops[0]), ops[1..], t)
    ensures GetsItsTurn(s, ops, t)
  {
    var d := Step(s, ops[0]);
    var k :| 0 <= k <= |ops[1..]| && CanRun(d, ops[1..][..k]) && Run(d, ops[1..][..k]).current == Some(t);
    assert ops[..k + 1][1..] == ops[1..][..k];
    assert CanRun(s, ops[..k + 1]) && Run(s, ops[..k + 1]).current == Some(t);
  }

  /**
   Bounded waiting: with at least Wait scheduling steps in a steady run, t is current in some state of it.
   Wait is at most its place in the ready list plus one.
   */
  lemma {:induction false} BoundedWaiting(s: Sys, ops: seq<Op>, t: nat, p: nat)
    requires Inv(s) && CanRun(s, ops) && Steady(s, ops, t, p)
    requires Contends(s, t, p) ==> Selections(ops) >= Wait(s.ready[p], t, s.current)
    ensures GetsItsTurn(s, ops, t)
    decreases |ops|
  {
    if s.current == Some(t) {
      assert CanRun(s, ops[..0]) && Run(s, ops[..0]).current == Some(t);
    } else {
      SelectShortensWait(s, t, p);
      var d := Step(s, ops[0]);
      StepInv(s, ops[0]);
      if Contends(d, t, p) {
        SteadyStep(s, ops[0], t, p);
      }
      BoundedWaiting(d, ops[1..], t, p);
      TurnLater(s, ops, t);
    }
  }

  /** The bound in terms of the place in the list alone. */
  lemma WaitBound(s: Sys, t: nat, p: nat)
    requires Inv(s) && Contends(s, t, p)
    ensures Pos(s.ready[p], t) <= Wait(s.ready[p], t, s.current) <= Pos(s.ready[p], t) + 1
    ensures Wait(s.ready[p], t, s.current) <= |s.ready[p]|
  {
    assert AtHome(s, t);
    AppendKeepsPos(s.ready[p], t, 0);
  }
}
