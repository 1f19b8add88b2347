/** Delays: how long a task sleeps, and the drift-free periodic schedule across the wrap of the tick counter. */
module Delays {
  import opened KernelTypes
  import opened KernelSpec
  import opened KernelSteps
  import opened KernelRuns

  // ---------- What one tick does to each task ----------

  /** The effect of os_task_tick on one task of blocked_list. */
  function Aged(r: Task): Task {
    if r.delay == 0 then r
    else if r.delay > 1 then r.(delay := r.delay - 1)
    else r.(delay := 0, state := Ready)
  }

  lemma TickOneEffect(s: Sys, x: nat, t: nat)
    requires Inv(s) && x < |s.tasks| && t < |s.tasks| && HomeOf(s.tasks[x]) == OnBlocked
    ensures |TickOne(s, x).tasks| == |s.tasks|
    ensures TickOne(s, x).tasks[t] == if t == x then Aged(s.tasks[t]) else s.tasks[t]
  {
    InvAt(s, x);
  }

  lemma {:induction false} TickAllEffect(s: Sys, todo: seq<nat>, t: nat)
    requires Inv(s) && IsSuffix(todo, s.blocked) && NoDup(todo) && t < |s.tasks|
    ensures |TickAll(s, todo).tasks| == |s.tasks|
    ensures TickAll(s, todo).tasks[t] == if t in todo then Aged(s.tasks[t]) else s.tasks[t]
    decreases |todo|
  {
    if todo != [] {
      TickOneSuffix(s, todo);
      TickOneEffect(s, todo[0], t);
      NoDupTail(todo);
      TickAllEffect(TickOne(s, todo[0]), todo[1..], t);
      assert todo == [todo[0]] + todo[1..];
    }
  }

  /** os_task_tick ages every task on blocked_list once and touches no other. */
  lemma TickEffect(s: Sys, t: nat)
    requires Inv(s) && t < |s.tasks|
    ensures |Tick(s).tasks| == |s.tasks|
    ensures Tick(s).tasks[t] == if HomeOf(s.tasks[t]) == OnBlocked then Aged(s.tasks[t]) else s.tasks[t]
  {
    assert ListOf(s, OnBlocked) == s.blocked && NoDup(ListOf(s, OnBlocked)) && AtHome(s, t);
    MembersBelong(s, {}, OnBlocked);
    TickAllEffect(s, s.blocked, t);
  }

  // ---------- A delay lasts exactly its ticks ----------

  function Ticks(ops: seq<Op>): nat {
    if ops == [] then 0 else (if ops[0].DoTick? then 1 else 0) + Ticks(ops[1..])
  }

  /**
   t sleeps on blocked_list, in a delay or in a wait for a notification, with d ticks to go, or for good if d is 0.
   */
  predicate Sleeps(s: Sys, t: nat, d: nat) {
    t < |s.tasks| && HomeOf(s.tasks[t]) == OnBlocked && s.tasks[t].delay == d
  }

  /** What one call leaves of d ticks. */
  function Left(d: nat, op: Op): nat {
    if op.DoTick? && d > 0 then d - 1 else d
  }

  predicate Notifies(op: Op, t: nat) {
    op.DoNotify? && op.t == t
  }

  /** No notification comes for t in the run, or none that t would heed. */
  predicate Quiet(s: Sys, ops: seq<Op>, t: nat)
    requires t < |s.tasks|
  {
    s.tasks[t].reason == Notify ==> forall i :: 0 <= i < |ops| ==> !Notifies(ops[i], t)
  }

  /** t is READY and on the ready list of its priority. */
  predicate IsReady(s: Sys, t: nat) {
    t < |s.tasks| && s.tasks[t].state == Ready && s.tasks[t].prio < |s.ready| && t in s.ready[s.tasks[t].prio]
  }

  /** The fields that decide how long t stays on blocked_list. */
  predicate SameSleep(s: Sys, s': Sys, t: nat)
    requires t < |s.tasks|
  {
    && t < |s'.tasks| && HomeOf(s'.tasks[t]) == HomeOf(s.tasks[t])
    && s'.tasks[t].delay == s.tasks[t].delay && s'.tasks[t].reason == s.tasks[t].reason
  }

  lemma CallersLeaveBlocked(s: Sys, op: Op, t: nat)
    requires Inv(s) && Enabled(s, op) && (op.DoDelay? || op.DoNotifyWait? || op.DoPark?)
    requires t < |s.tasks| && s.tasks[t].state == Blocked
    ensures SameSleep(s, Step(s, op), t)
  {
    match op
    case DoPark(w, reason, timeout) => ParkTasks(s, w, reason, timeout);
    case DoDelay(ticks) => BlockedTasks(s, s.current.value, ticks);
    case DoNotifyWait(timeout) =>
      var c := s.current.value;
      var s1 := Put(s, c, s.tasks[c].(reason := Notify, timedOut := false));
      BlockedTasks(s1, c, if timeout == WAIT_FOREVER then 0 else timeout);
  }

  lemma TaskCallsLeaveBlocked(s: Sys, op: Op, t: nat)
    requires Inv(s) && Enabled(s, op) && t < |s.tasks| && HomeOf(s.tasks[t]) == OnBlocked
    requires op.DoCreate? || op.DoSuspend? || op.DoResume? || op.DoSetPriority? || op.DoNewObject?
    ensures SameSleep(s, Step(s, op), t)
  {
    match op
    case DoSetPriority(x, p) => MovedTasks(s, x, s.tasks[x].(prio := p));
    case DoSuspend(x) => SuspendTasks(s, x);
    case _ =>
  }

  lemma SuspendTasks(s: Sys, x: nat)
    requires x < |s.tasks|
    ensures Suspend(s, x).tasks ==
      if s.tasks[x].state in {Ready, Running} then s.tasks[x := s.tasks[x].(state := Suspended)] else s.tasks
  {
  }

  lemma NotifyLeavesBlocked(s: Sys, x: nat, v: nat, t: nat)
    requires Inv(s) && x < |s.tasks| && t < |s.tasks| && HomeOf(s.tasks[t]) == OnBlocked
    ensures if x == t && s.tasks[t].reason == Notify then IsReady(NotifyTask(s, x, v), t)
            else SameSleep(s, NotifyTask(s, x, v), t)
  {
    if x == t && s.tasks[t].reason == Notify {
      NotifyInv(s, x, v);
      ReadyMeansListed(NotifyTask(s, x, v), t);
    }
  }

  /** Apart from the tick, only a notification can move a task off blocked_list. */
  lemma OthersLeaveBlocked(s: Sys, op: Op, t: nat)
    requires Inv(s) && Enabled(s, op) && !op.DoTick?
    requires t < |s.tasks| && HomeOf(s.tasks[t]) == OnBlocked
    ensures if op.DoNotify? && op.t == t && s.tasks[t].reason == Notify then IsReady(Step(s, op), t)
            else SameSleep(s, Step(s, op), t)
  {
    if op.DoSelect? {
      SelectLeavesBlocked(s, t);
    } else if op.DoNotify? {
      NotifyLeavesBlocked(s, op.t, op.value, t);
    } else if op.DoDelay? || op.DoNotifyWait? || op.DoPark? {
      CallersLeaveBlocked(s, op, t);
    } else if !op.DoRelease? {
      TaskCallsLeaveBlocked(s, op, t);
    }
  }

  lemma ReadyMeansListed(s: Sys, t: nat)
    requires Inv(s) && t < |s.tasks| && s.tasks[t].state == Ready
    ensures IsReady(s, t)
  {
    InvAt(s, t);
  }

  /** Only the tick moves a sleeper that heeds no notification. */
  lemma SleepStep(s: Sys, op: Op, t: nat, d: nat)
    requires Inv(s) && Enabled(s, op) && Sleeps(s, t, d) && !(Notifies(op, t) && s.tasks[t].reason == Notify)
    ensures if op.DoTick? && d == 1 then IsReady(Step(s, op), t) else Sleeps(Step(s, op), t, Left(d, op))
    ensures Step(s, op).tasks[t].reason == s.tasks[t].reason
  {
    if op.DoTick? {
      TickEffect(s, t);
      TickInv(s);
      if d == 1 {
        ReadyMeansListed(Tick(s), t);
      }
    } else {
      OthersLeaveBlocked(s, op, t);
    }
  }

  lemma SelectLeavesBlocked(s: Sys, t: nat)
    requires Inv(s) && t < |s.tasks| && s.tasks[t].state == Blocked
    ensures t < |SelectNext(s).tasks| && SelectNext(s).tasks[t] == s.tasks[t]
  {
    if HighestReady(s).Some? {
      HighestIsReady(s);
      if HighestReady(s) == s.current {
        RotateReady(s);
        RotateInv(s, s.current.value);
        HighestIsReady(AddToReady(Detach(s, s.current.value), s.current.value));
      }
    }
  }

  /** t is asleep in every state of the run, with as many ticks to go as the ticks so far have left. */
  predicate SleepsAlong(s: Sys, ops: seq<Op>, t: nat, d: nat)
    requires CanRun(s, ops)
    decreases |ops|
  {
    Sleeps(s, t, d) && (ops != [] ==> SleepsAlong(Step(s, ops[0]), ops[1..], t, Left(d, ops[0])))
  }

  /**
   Over a run with fewer ticks than it has to go, or with any number if it sleeps for good, a task sleeps through
   exactly when no notification comes that it heeds, whatever the other tasks do.
   */
  lemma {:induction false} SleepsThroughIff(s: Sys, ops: seq<Op>, t: nat, d: nat)
    requires Inv(s) && CanRun(s, ops) && Sleeps(s, t, d) && (d == 0 || Ticks(ops) < d)
    ensures SleepsAlong(s, ops, t, d) <==> Quiet(s, ops, t)
    decreases |ops|
  {
    if ops != [] {
      StepInv(s, ops[0]);
      if Notifies(ops[0], t) && s.tasks[t].reason == Notify {
        OthersLeaveBlocked(s, ops[0], t);
      } else {
        SleepStep(s, ops[0], t, d);
        SleepsThroughIff(Step(s, ops[0]), ops[1..], t, Left(d, ops[0]));
        QuietSplits(s, Step(s, ops[0]), ops, t);
      }
    }
  }

  lemma QuietSplits(s: Sys, d: Sys, ops: seq<Op>, t: nat)
    requires t < |s.tasks| && t < |d.tasks| && d.tasks[t].reason == s.tasks[t].reason && ops != []
    requires !(Notifies(ops[0], t) && s.tasks[t].reason == Notify)
    ensures Quiet(s, ops, t) <==> Quiet(d, ops[1..], t)
  {
    assert ops == [ops[0]] + ops[1..];
  }

  /** ... and is then still asleep at the end, with n ticks less to go after n ticks. */
  lemma {:induction false} SleepLasts(s: Sys, ops: seq<Op>, t: nat, d: nat)
    requires Inv(s) && CanRun(s, ops) && Sleeps(s, t, d) && (d == 0 || Ticks(ops) < d) && Quiet(s, ops, t)
    ensures Sleeps(Run(s, ops), t, if d == 0 then 0 else d - Ticks(ops))
    ensures Run(s, ops).tasks[t].reason == s.tasks[t].reason
    decreases |ops|
  {
    if ops != [] {
      StepInv(s, ops[0]);
      SleepStep(s, ops[0], t, d);
      QuietSplits(s, Step(s, ops[0]), ops, t);
      SleepLasts(Step(s, ops[0]), ops[1..], t, Left(d, ops[0]));
    }
  }

  lemma {:induction false} RunAppend(s: Sys, ops: seq<Op>, op: Op)
    requires CanRun(s, ops + [op])
    ensures CanRun(s, ops) && Enabled(Run(s, ops), op)
    ensures Run(s, ops + [op]) == Step(Run(s, ops), op)
    decreases |ops|
  {
    if ops != [] {
      assert (ops + [op])[1..] == ops[1..] + [op];
      RunAppend(Step(s, ops[0]), ops[1..], op);
    } else {
      assert (ops + [op])[1..] == [];
    }
  }

  /** The d-th tick, and no earlier one, makes the task READY. */
  lemma WakesOnTheTick(s: Sys, ops: seq<Op>, t: nat, d: nat)
    requires Inv(s) && CanRun(s, ops + [DoTick]) && Sleeps(s, t, d) && Ticks(ops) == d - 1 && Quiet(s, ops, t)
    ensures CanRun(s, ops) && Sleeps(Run(s, ops), t, 1)
    ensures IsReady(Run(s, ops + [DoTick]), t)
    ensures Run(s, ops + [DoTick]).tasks[t].reason == s.tasks[t].reason
  {
    RunAppend(s, ops, DoTick);
    SleepLasts(s, ops, t, d);
    RunInv(s, ops);
    SleepStep(Run(s, ops), DoTick, t, 1);
  }

  /**
   Which other call can end a delay: a notification, exactly when blocked_reason still says NOTIFY.
   os_task_delay never writes that field and a timed-out os_task_notify_wait leaves it set.
   */
  lemma EarlyWakeIff(s: Sys, op: Op, t: nat)
    requires Inv(s) && Enabled(s, op) && !op.DoTick?
    requires t < |s.tasks| && HomeOf(s.tasks[t]) == OnBlocked
    ensures t < |Step(s, op).tasks|
    ensures Step(s, op).tasks[t].state != Blocked <==> op.DoNotify? && op.t == t && s.tasks[t].reason == Notify
  {
    OthersLeaveBlocked(s, op, t);
  }

  /** A notification wait that nobody answers ends on its last tick and leaves NOTIFY behind. */
  lemma TimeoutLeavesReason(s: Sys, timeout: nat, ops: seq<Op>)
    requires Inv(s) && CanCall(s) && !s.tasks[s.current.value].notifyPending && 0 < timeout && timeout != WAIT_FOREVER
    requires CanRun(NotifyWait(s, timeout), ops + [DoTick]) && Ticks(ops) == timeout - 1
    requires forall i :: 0 <= i < |ops| ==> !Notifies(ops[i], s.current.value)
    ensures var c, d := s.current.value, Run(NotifyWait(s, timeout), ops + [DoTick]);
      IsReady(d, c) && d.tasks[c].reason == Notify
  {
    WaitSleeps(s, timeout);
    WakesOnTheTick(NotifyWait(s, timeout), ops, s.current.value, timeout);
  }

  /** A parked notification wait sleeps for its timeout, or for good. */
  lemma WaitSleeps(s: Sys, timeout: nat)
    requires Inv(s) && CanCall(s) && !s.tasks[s.current.value].notifyPending && 0 < timeout
    ensures var c, d := s.current.value, NotifyWait(s, timeout);
      Inv(d) && Sleeps(d, c, if timeout == WAIT_FOREVER then 0 else timeout) && d.tasks[c].reason == Notify
  {
    InvAt(s, s.current.value);
    NotifyWaitInv(s, timeout);
  }

  lemma DelayCutShort(s: Sys, n: nat, v: nat)
    requires Inv(s) && CanCall(s) && n > 0 && s.tasks[s.current.value].reason == Notify
    ensures var c, d := s.current.value, Delay(s, n);
      && c < |d.tasks| && HomeOf(d.tasks[c]) == OnBlocked && d.tasks[c].delay == n
      && IsReady(Step(d, DoNotify(c, v)), c)
  {
    InvAt(s, s.current.value);
    AddToBlockedInv(s, s.current.value, n);
    OthersLeaveBlocked(Delay(s, n), DoNotify(s.current.value, v), s.current.value);
  }

  /** A lone task of priority 3, current, on its ready list or on blocked_list. */
  function OneTask(r: Task): Sys {
    Sys([r], Boot().ready[3 := if r.state == Blocked then [] else [0]], if r.state == Blocked then [0]
        else [], [], Some(0))
  }

  predicate Reaches(s: Sys, ops: seq<Op>, d: Sys) {
    CanRun(s, ops) && Run(s, ops) == d
  }

  lemma ReachesVia(s: Sys, op: Op, m: Sys, ops: seq<Op>, d: Sys) returns (longer: seq<Op>)
    requires Enabled(s, op) && Step(s, op) == m && Reaches(m, ops, d)
    ensures Reaches(s, longer, d)
  {
    longer := [op] + ops;
    assert longer[1..] == ops;
  }

  lemma FirstSteps() returns (s1: Sys)
    ensures Step(Boot(), DoCreate(3)) == s1 && Step(s1, DoSelect) == OneTask(NewTask(3).(state := Running))
  {
    s1 := Step(Boot(), DoCreate(3));
    assert Splice<nat>([], 0, 0) == [0];
    assert s1.ready == Boot().ready[3 := [0]];
    TopUnique(s1.ready, 3);
  }

  lemma WaitStep()
    ensures var s := OneTask(NewTask(3).(state := Running));
      Enabled(s, DoNotifyWait(1))
      && Step(s, DoNotifyWait(1)) == OneTask(NewTask(3).(state := Blocked, delay := 1, reason := Notify))
  {
    assert Splice<nat>([], 0, 0) == [0] && Without([0], 0) == [];
  }

  lemma TimeoutStep()
    ensures Step(OneTask(NewTask(3).(state := Blocked, delay := 1, reason := Notify)), DoTick)
      == OneTask(NewTask(3).(reason := Notify))
  {
    assert Splice<nat>([], 0, 0) == [0] && Without([0], 0) == [];
    var s := OneTask(NewTask(3).(state := Blocked, delay := 1, reason := Notify));
    assert Tick(s) == TickAll(TickOne(s, 0), []);
  }

  lemma SelectStep()
    ensures Step(OneTask(NewTask(3).(reason := Notify)), DoSelect)
      == OneTask(NewTask(3).(state := Running, reason := Notify))
  {
    var s := OneTask(NewTask(3).(reason := Notify));
    assert Splice<nat>([], 0, 0) == [0] && Without([0], 0) == [];
    TopUnique(s.ready, 3);
    assert AddToReady(Detach(s, 0), 0) == s;
  }

  /** Such a state is reachable: a notification wait of one tick, the tick, and the task runs on. */
  lemma StaleReasonReachable()
    ensures exists ops, d :: Reaches(Boot(), ops, d) && CanCall(d) && d.tasks[d.current.value].reason == Notify
  {
    var r := NewTask(3);
    var s1 := FirstSteps();
    WaitStep();
    TimeoutStep();
    SelectStep();
    var s2, s3 := OneTask(r.(state := Running)), OneTask(r.(state := Blocked, delay := 1, reason := Notify));
    var s4, s5 := OneTask(r.(reason := Notify)), OneTask(r.(state := Running, reason := Notify));
    var ops := ReachesVia(s4, DoSelect, s5, [], s5);
    ops := ReachesVia(s3, DoTick, s4, ops, s5);
    ops := ReachesVia(s2, DoNotifyWait(1), s3, ops, s5);
    ops := ReachesVia(s1, DoSelect, s2, ops, s5);
    ops := ReachesVia(Boot(), DoCreate(3), s1, ops, s5);
  }

  // ---------- os_task_delay_until ----------

  lemma ModAdd(a: int, b: int)
    ensures ((a % TICKS) + b) % TICKS == (a + b) % TICKS
  {
    assert a == TICKS * (a / TICKS) + a % TICKS;
  }

  lemma ModSub(a: int, b: int)
    ensures ((a % TICKS) - (b % TICKS)) % TICKS == (a - b) % TICKS
  {
    assert a == TICKS * (a / TICKS) + a % TICKS && b == TICKS * (b / TICKS) + b % TICKS;
  }

  /** The signed reading of the difference is the difference exactly within half a turn of the counter. */
  lemma SignedExactIff(ahead: int)
    ensures (if 0 < ahead % TICKS < HALF then ahead % TICKS else 0) == (if ahead > 0 then ahead else 0)
      <==> if ahead > 0 then ahead < HALF else (0 - ahead) % TICKS <= HALF
  {
    if ahead < 0 {
      Negated(0 - ahead);
    } else if ahead >= TICKS {
      assert ahead % TICKS < ahead;
    }
  }

  /**
   The call sleeps until the deadline in unbounded time, or returns at once if that has passed, exactly when the
   deadline is less than a half-turn of the counter ahead, or less than or exactly one behind, up to whole turns.
   */
  lemma DelayUntilExact(trueNow: nat, trueDeadline: nat, period: nat, previous: nat)
    requires 0 < period < HALF && period <= trueDeadline
    requires previous == (trueDeadline - period) % TICKS
    ensures DelayUntilTicks(previous, period, trueNow % TICKS) ==
        (if trueDeadline > trueNow then trueDeadline - trueNow else 0)
      <==> if trueDeadline > trueNow then trueDeadline - trueNow < HALF
           else (trueNow - trueDeadline) % TICKS <= HALF
  {
    DifferenceOfTicks(trueNow, trueDeadline, period, previous);
    SignedExactIff(trueDeadline - trueNow);
    assert 0 - (trueDeadline - trueNow) == trueNow - trueDeadline;
  }

  lemma DifferenceOfTicks(trueNow: nat, trueDeadline: nat, period: nat, previous: nat)
    requires period <= trueDeadline && previous == (trueDeadline - period) % TICKS
    ensures (((previous + period) % TICKS) - trueNow % TICKS) % TICKS == (trueDeadline - trueNow) % TICKS
  {
    ModAdd(trueDeadline - period, period);
    ModSub(trueDeadline, trueNow);
  }

  lemma Negated(late: nat)
    ensures (0 - late) % TICKS == if late % TICKS == 0 then 0 else TICKS - late % TICKS
  {
    assert late == TICKS * (late / TICKS) + late % TICKS;
  }

  /** previous_wake_tick after k calls. */
  function Schedule(start: nat, period: nat, k: nat): nat {
    if k == 0 then start else (Schedule(start, period, k - 1) + period) % TICKS
  }

  /** After k calls the schedule stands at start + k periods, late calls included. */
  lemma {:induction false} ScheduleNeverDrifts(start: nat, period: nat, k: nat)
    requires start < TICKS
    ensures Schedule(start, period, k) == (start + k * period) % TICKS
  {
    if k > 0 {
      ScheduleNeverDrifts(start, period, k - 1);
      ModAdd(start + (k - 1) * period, period);
      Distribute(k, period);
    }
  }

  lemma Distribute(k: nat, period: nat)
    requires k > 0
    ensures (k - 1) * period + period == k * period
  {
  }

  /**
   One period: a task that is on time sleeps until its deadline and not a tick longer or shorter, although every
   quantity it computes with has wrapped.
   */
  lemma PeriodicWake(s: Sys, trueNow: nat, trueDeadline: nat, period: nat, previous: nat, ops: seq<Op>)
    requires Inv(s) && CanCall(s) && Quiet(s, ops, s.current.value)
    requires 0 < period < HALF && period <= trueDeadline && trueNow < trueDeadline < trueNow + HALF
    requires previous == (trueDeadline - period) % TICKS
    requires CanRun(Delay(s, DelayUntilTicks(previous, period, trueNow % TICKS)), ops + [DoTick])
    requires trueNow + Ticks(ops) + 1 == trueDeadline
    ensures var c, d := s.current.value, Delay(s, DelayUntilTicks(previous, period, trueNow % TICKS));
      && CanRun(d, ops) && Sleeps(Run(d, ops), c, 1) && IsReady(Run(d, ops + [DoTick]), c)
  {
    DelayUntilExact(trueNow, trueDeadline, period, previous);
    var c, n := s.current.value, trueDeadline - trueNow;
    InvAt(s, c);
    AddToBlockedInv(s, c, n);
    DelaySleeps(s, n);
    WakesOnTheTick(Delay(s, n), ops, c, n);
  }

  lemma DelaySleeps(s: Sys, n: nat)
    requires Inv(s) && CanCall(s) && n > 0
    ensures Sleeps(Delay(s, n), s.current.value, n)
    ensures Delay(s, n).tasks[s.current.value].reason == s.tasks[s.current.value].reason
  {
    InvAt(s, s.current.value);
  }

  /**
   Every period: the call number k + 1 of a schedule that began at `start` in unbounded time, made less than a
   half-turn before its deadline, makes the task READY on the tick start + (k + 1) * period.
   */
  lemma EveryPeriodOnTime(s: Sys, start: nat, period: nat, k: nat, trueNow: nat, ops: seq<Op>)
    requires Inv(s) && CanCall(s) && Quiet(s, ops, s.current.value) && 0 < period < HALF
    requires trueNow < start + (k + 1) * period < trueNow + HALF
    requires var ticks := DelayUntilTicks(Schedule(start % TICKS, period, k), period, trueNow % TICKS);
      CanRun(Delay(s, ticks), ops + [DoTick])
    requires trueNow + Ticks(ops) + 1 == start + (k + 1) * period
    ensures var ticks := DelayUntilTicks(Schedule(start % TICKS, period, k), period, trueNow % TICKS);
      IsReady(Run(Delay(s, ticks), ops + [DoTick]), s.current.value)
  {
    ScheduleStands(start, period, k);
    PeriodicWake(s, trueNow, start + (k + 1) * period, period, Schedule(start % TICKS, period, k), ops);
  }

  lemma ScheduleStands(start: nat, period: nat, k: nat)
    ensures Schedule(start % TICKS, period, k) == (start + (k + 1) * period - period) % TICKS
    ensures period <= start + (k + 1) * period
  {
    ScheduleNeverDrifts(start % TICKS, period, k);
    ModAdd(start, k * period);
    Distribute(k + 1, period);
  }
}
