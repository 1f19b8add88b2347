/** What holds over whole runs of kernel calls: one list per task, the scheduler's choice, bounded waiting. */
module KernelRuns {
  import opened KernelTypes
  import opened KernelSpec
  import opened KernelSteps

  /** The state os_task_init_ready_list leaves. */
  function Boot(): Sys {
    Sys([], seq(NUM_PRIORITIES, _ => []), [], [], None)
  }

  predicate CanRun(s: Sys, ops: seq<Op>)
    decreases |ops|
  {
    ops != [] ==> Enabled(s, ops[0]) && CanRun(Step(s, ops[0]), ops[1..])
  }

  function Run(s: Sys, ops: seq<Op>): Sys
    requires CanRun(s, ops)
    decreases |ops|
  {
    if ops == [] then s else Run(Step(s, ops[0]), ops[1..])
  }

  lemma BootInv()
    ensures Inv(Boot())
  {
    var s := Boot();
    forall h ensures ListOf(s, h) == [] {}
  }

  lemma {:induction false} RunInv(s: Sys, ops: seq<Op>)
    requires Inv(s) && CanRun(s, ops)
    ensures Inv(Run(s, ops))
    decreases |ops|
  {
    if ops != [] {
      StepInv(s, ops[0]);
      RunInv(Step(s, ops[0]), ops[1..]);
    }
  }

  /**
   In every reachable state a task is on the list its own fields name, once, and on no other list;
   a suspended task is on none.
   */
  lemma OneListPerTask(ops: seq<Op>, t: nat, h: Home)
    requires CanRun(Boot(), ops) && t < |Run(Boot(), ops).tasks|
    ensures var s := Run(Boot(), ops);
      && (t in ListOf(s, h) <==> h != Nowhere && HomeOf(s.tasks[t]) == h)
      && NoDup(ListOf(s, h))
      && (forall x :: x in ListOf(s, h) ==> x < |s.tasks|)
  {
    BootInv();
    RunInv(Boot(), ops);
    PlacedEverywhere(Run(Boot(), ops), {});
    assert AtHome(Run(Boot(), ops), t);
  }

  // ---------- Exactly which runs keep the lists in order ----------

  /** The calls that can be made: the priority of a RUNNING task can be changed too. */
  predicate Callable(s: Sys, op: Op) {
    match op
    case DoSetPriority(t, p) => t < |s.tasks| && p < NUM_PRIORITIES
    case _ => Enabled(s, op)
  }

  function Called(s: Sys, op: Op): Sys
    requires Callable(s, op)
  {
    match op
    case DoSetPriority(t, p) => SetPriority(s, t, p)
    case _ => Step(s, op)
  }

  lemma CalledInvIff(s: Sys, op: Op)
    requires Inv(s) && Callable(s, op)
    ensures Inv(Called(s, op)) <==> Enabled(s, op)
  {
    match op
    case DoSetPriority(t, p) => SetPriorityInvIff(s, t, p);
    case _ => StepInv(s, op);
  }

  predicate AllCallable(s: Sys, ops: seq<Op>)
    decreases |ops|
  {
    ops != [] ==> Callable(s, ops[0]) && AllCallable(Called(s, ops[0]), ops[1..])
  }

  ghost predicate InvAlong(s: Sys, ops: seq<Op>)
    requires AllCallable(s, ops)
    decreases |ops|
  {
    Inv(s) && (ops != [] ==> InvAlong(Called(s, ops[0]), ops[1..]))
  }

  /** Every state of a run has its lists in order if and only if no RUNNING task is given another priority. */
  lemma {:induction false} InvAlongIff(s: Sys, ops: seq<Op>)
    requires Inv(s) && AllCallable(s, ops)
    ensures InvAlong(s, ops) <==> CanRun(s, ops)
    decreases |ops|
  {
    if ops != [] {
      CalledInvIff(s, ops[0]);
      if Enabled(s, ops[0]) {
        InvAlongIff(Called(s, ops[0]), ops[1..]);
      }
    }
  }

  // ---------- The scheduler's choice ----------

  lemma RotateReady(s: Sys)
    requires Inv(s) && HighestReady(s).Some? && HighestReady(s) == s.current
    ensures var p := Top(s.ready, 0); var t := s.current.value;
      && t < |s.tasks| && s.tasks[t].prio == p && s.tasks[t].state in {Ready, Running}
      && AddToReady(Detach(s, t), t) ==
           s.(ready := s.ready[p := s.ready[p][1..] + [t]], tasks := s.tasks[t := s.tasks[t].(state := Ready)])
      && Top(AddToReady(Detach(s, t), t).ready, 0) == p
  {
    HighestIsReady(s);
    var p := Top(s.ready, 0);
    var t := s.current.value;
    var l := s.ready[p];
    assert ListOf(s, OnReady(p)) == l && NoDup(ListOf(s, OnReady(p)));
    WithoutAt(l, 0);
    assert Splice(l[1..], |l| - 1, t) == l[1..] + [t];
    var d := AddToReady(Detach(s, t), t);
    assert Cut(l, 0) == l[1..];
    TopUnique(d.ready, p);
  }

  lemma TopUnique(r: seq<seq<nat>>, p: nat)
    requires p < |r| && r[p] != [] && forall i :: 0 <= i < p ==> r[i] == []
    ensures Top(r, 0) == p
  {
  }

  /**
   After os_sched_select_next the current task heads the first non-empty ready list, it alone is RUNNING,
   and nothing ready has a higher priority.
   */
  lemma SelectsHighest(s: Sys)
    requires Inv(s) && HighestReady(s).Some?
    ensures var d := SelectNext(s);
      && d.current.Some? && d.current == HighestReady(d) && d.current.value < |d.tasks|
      && (forall x :: 0 <= x < |d.tasks| ==> (d.tasks[x].state == Running <==> d.current == Some(x)))
      && (forall x :: 0 <= x < |d.tasks| && d.tasks[x].state in {Ready, Running}
            ==> d.tasks[d.current.value].prio <= d.tasks[x].prio)
  {
    var d := SelectNext(s);
    SelectInv(s);
    SelectShape(s);
    HighestIsReady(d);
    forall x | 0 <= x < |d.tasks| ensures d.tasks[x].state == Running <==> d.current == Some(x) {
      InvAt(d, x);
    }
    forall x | 0 <= x < |d.tasks| && d.tasks[x].state in {Ready, Running}
      ensures d.tasks[d.current.value].prio <= d.tasks[x].prio
    {
      InvAt(d, x);
    }
  }

  /** What os_sched_select_next does to the top list and the current task. */
  lemma SelectShape(s: Sys)
    requires Inv(s) && HighestReady(s).Some?
    ensures var d, p := SelectNext(s), Top(s.ready, 0); var l := s.ready[p];
      && d.ready == (if s.current == Some(l[0]) then s.ready[p := l[1..] + [l[0]]] else s.ready)
      && d.current == Some(d.ready[p][0]) && d.current == HighestReady(d)
      && d.current.value < |d.tasks| && d.tasks[d.current.value].state == Running
  {
    HighestIsReady(s);
    var p := Top(s.ready, 0);
    if HighestReady(s) == s.current {
      RotateReady(s);
      RotateInv(s, s.current.value);
      HighestIsReady(AddToReady(Detach(s, s.current.value), s.current.value));
    }
  }
}
