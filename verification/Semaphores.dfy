/**
 Counting semaphores with direct hand-off (kernel/semaphore.c): the object on top of the kernel, and over whole
 runs the conservation of its units and the order in which waiters are served.
 */
module Semaphores {
  import opened KernelTypes
  import opened KernelSpec
  import opened KernelSteps
  import opened WaitLists
  import opened Effects
  import opened Kernels

  // ---------- The steps on values ----------

  /** os_sem_t; w names its wait list. */
  datatype Sem = Sem(count: nat, max: nat, w: nat)

  /** os_sem_take, up to its return or to the point where the caller is parked. */
  function TakeStatus(m: Sem, timeout: nat): Status {
    if m.count > 0 then Ok else if timeout == 0 then ErrEmpty else Parked
  }

  function TakeSem(m: Sem): Sem {
    if m.count > 0 then m.(count := m.count - 1) else m
  }

  function TakeSys(s: Sys, m: Sem, timeout: nat): Sys
    requires CanCall(s)
  {
    if TakeStatus(m, timeout) == Parked then Park(s, m.w, SemTake, timeout) else s
  }

  /** os_sem_give */
  function GiveStatus(s: Sys, m: Sem): Status
    requires m.w < |s.waits|
  {
    if s.waits[m.w] != [] || m.count < m.max then Ok else ErrFull
  }

  function GiveSem(s: Sys, m: Sem): Sem
    requires m.w < |s.waits|
  {
    if s.waits[m.w] == [] && m.count < m.max then m.(count := m.count + 1) else m
  }

  function GiveSys(s: Sys, m: Sem): Sys
    requires m.w < |s.waits|
  {
    if s.waits[m.w] != [] && s.waits[m.w][0] < |s.tasks| then Release(s, s.waits[m.w][0]) else s
  }

  // ---------- The object ----------

  class Semaphore {
    const kernel: Kernel
    var count: nat
    var maxCount: nat
    const w: nat                  // stands for the address of wait_list

    ghost predicate Is(m: Sem)
      reads this
    {
      m == Sem(count, maxCount, w)
    }

    constructor (k: Kernel, max: nat, initial: nat, ghost s: Sys)
      requires k.Rep(s) && Inv(s) && max > 0 && initial <= max
      modifies k`waitLists
      ensures kernel == k && k.Rep(NewObject(s)) && Inv(NewObject(s)) && Is(Sem(initial, max, |s.waits|))
    {
      kernel, count, maxCount := k, initial, max;
      var v := k.NewWaitList(s);
      w := v;
    }

    /** os_sem_create_counting; os_sem_create_binary is the case of maximum 1 and initial count 0. */
    static method CreateCounting(k: Kernel, max: nat, initial: nat, ghost s: Sys) returns (st: Status, sem: Semaphore?)
      requires k.Rep(s) && Inv(s)
      modifies k`waitLists
      ensures st == if max == 0 || initial > max then ErrParam else Ok
      ensures if st == Ok then sem != null && k.Rep(NewObject(s)) && sem.kernel == k &&
          sem.Is(Sem(initial, max, |s.waits|))
              else sem == null && k.Rep(s)
    {
      if max == 0 || initial > max {
        return ErrParam, null;
      }
      sem := new Semaphore(k, max, initial, s);
      st := Ok;
    }

    /** os_sem_take; a parked caller returns Ok later, or a timeout once the semaphore is deleted. */
    method Take(timeout: nat, ghost s: Sys, ghost m: Sem) returns (st: Status)
      requires kernel.Rep(s) && Inv(s) && CanCall(s) && Is(m) && w < |s.waits|
      modifies this`count
      modifies kernel`ready, kernel`bitmap, kernel`waitLists, kernel.tcbs`next, kernel.tcbs`prev, kernel.tcbs`task
      ensures st == TakeStatus(m, timeout) && Is(TakeSem(m)) && kernel.Rep(TakeSys(s, m, timeout))
    {
      if count > 0 {
        count := count - 1;
        return Ok;
      }
      if timeout == 0 {
        return ErrEmpty;
      }
      kernel.BlockOn(kernel.current, w, SemTake, timeout, s);
      return Parked;
    }

    /** os_sem_take_from_isr */
    method TakeFromIsr(ghost s: Sys, ghost m: Sem) returns (st: Status)
      requires kernel.Rep(s) && Is(m)
      modifies this`count
      ensures st == TakeStatus(m, 0) && Is(TakeSem(m)) && kernel.Rep(s)
    {
      if count > 0 {
        count := count - 1;
        return Ok;
      }
      return ErrEmpty;
    }

    /**
     os_sem_give and os_sem_give_from_isr, but for the yield they ask for; woken is the task that was handed the unit.
     */
    method Give(ghost s: Sys, ghost m: Sem) returns (st: Status, woken: Tcb?)
      requires kernel.Rep(s) && Inv(s) && Is(m) && w < |s.waits|
      modifies this`count
      modifies kernel`ready, kernel`bitmap, kernel`waitLists, kernel.tcbs`next, kernel.tcbs`prev, kernel.tcbs`task
      ensures st == GiveStatus(s, m) && Is(GiveSem(s, m)) && kernel.Rep(GiveSys(s, m))
      ensures IdOf(woken) == First(s.waits[w])
    {
      woken := kernel.waitLists[w];
      if woken != null {
        ReleaseWaiters(s, w, 0);
        kernel.Wake(woken, s);
        return Ok, woken;
      }
      if count < maxCount {
        count := count + 1;
        return Ok, null;
      }
      return ErrFull, null;
    }
  }

  // ---------- Whole runs ----------

  /** The kernel, one semaphore, and a ledger of what it has done; `stamp` records when each waiter arrived. */
  datatype World = World(s: Sys, m: Sem, gives: nat, grants: nat, stamp: map<nat, nat>, now: nat)

  datatype SemOp = Take(timeout: nat) | TakeFromIsr | Give | Other(op: Op)

  predicate SemEnabled(x: World, op: SemOp) {
    match op
    case Take(_) => CanCall(x.s)
    case TakeFromIsr => true
    case Give => true
    case Other(o) => Enabled(x.s, o) && Foreign(o, x.m.w)
  }

  function SemStep(x: World, op: SemOp): World
    requires SemEnabled(x, op) && x.m.w < |x.s.waits|
  {
    match op
    case Take(timeout) =>
      var st := TakeStatus(x.m, timeout);
      World(TakeSys(x.s, x.m, timeout), TakeSem(x.m), x.gives, if st == Ok then x.grants + 1 else x.grants,
            if st == Parked then x.stamp[x.s.current.value := x.now] else x.stamp, x.now + 1)
    case TakeFromIsr =>
      x.(m := TakeSem(x.m), grants := if x.m.count > 0 then x.grants + 1 else x.grants)
    case Give =>
      var ok := GiveStatus(x.s, x.m) == Ok;
      x.(s := GiveSys(x.s, x.m), m := GiveSem(x.s, x.m), gives := if ok then x.gives + 1 else x.gives,
         grants := if x.s.waits[x.m.w] != [] then x.grants + 1 else x.grants)
    case Other(o) => x.(s := Step(x.s, o))
  }

  /** Units in and out balance, the count is in range, and nobody waits while there is a unit. */
  ghost predicate Balanced(x: World, initial: nat, max: nat) {
    && Inv(x.s) && x.m.w < |x.s.waits|
    && x.m.count <= x.m.max == max
    && (x.s.waits[x.m.w] != [] ==> x.m.count == 0)
    && initial + x.gives == x.grants + x.m.count
  }

  /** The wait list in priority order with ties in order of arrival. */
  ghost predicate Queued(x: World) {
    && Inv(x.s) && x.m.w < |x.s.waits|
    && Ordered(x.s.waits[x.m.w], x.s.tasks, x.stamp)
    && Stamped(x.s.waits[x.m.w], x.stamp, x.now)
  }

  lemma TakeKeeps(x: World, timeout: nat, initial: nat, max: nat)
    requires Balanced(x, initial, max) && CanCall(x.s)
    ensures Balanced(SemStep(x, Take(timeout)), initial, max)
    ensures Queued(x) ==> Queued(SemStep(x, Take(timeout)))
  {
    if TakeStatus(x.m, timeout) == Parked {
      ParkInv(x.s, x.m.w, SemTake, timeout);
      ParkWaiters(x.s, x.m.w, SemTake, timeout);
      if Queued(x) {
        ParkKeepsOrder(x.s, x.m.w, SemTake, timeout, x.stamp, x.now);
      }
    }
  }

  lemma GiveKeeps(x: World, initial: nat, max: nat)
    requires Balanced(x, initial, max)
    ensures Balanced(SemStep(x, Give), initial, max)
    ensures Queued(x) ==> Queued(SemStep(x, Give))
  {
    if x.s.waits[x.m.w] != [] {
      ReleaseWaiters(x.s, x.m.w, 0);
      ReleaseInv(x.s, x.s.waits[x.m.w][0]);
      if Queued(x) {
        ReleaseKeepsOrder(x.s, x.m.w, 0, x.stamp, x.now);
      }
    }
  }

  lemma OtherKeepsBalance(x: World, o: Op, initial: nat, max: nat)
    requires Balanced(x, initial, max) && SemEnabled(x, Other(o))
    ensures Balanced(SemStep(x, Other(o)), initial, max)
  {
    StepInv(x.s, o);
    ForeignOnlyFewer(x.s, o, x.m.w);
    var l := Step(x.s, o).waits[x.m.w];
    if l != [] {
      assert l[0] in l;
    }
  }

  lemma SemStepBalanced(x: World, op: SemOp, initial: nat, max: nat)
    requires Balanced(x, initial, max) && SemEnabled(x, op)
    ensures Balanced(SemStep(x, op), initial, max)
  {
    match op
    case Take(timeout) => TakeKeeps(x, timeout, initial, max);
    case TakeFromIsr =>
    case Give => GiveKeeps(x, initial, max);
    case Other(o) => OtherKeepsBalance(x, o, initial, max);
  }

  /** Nobody changes the priority of a waiter, or wakes it other than by a give. */
  predicate LeavesQueue(x: World, op: SemOp) {
    op.Other? ==> Minds(x.s, op.op, x.m.w)
  }

  lemma SemStepQueued(x: World, op: SemOp, initial: nat, max: nat)
    requires Balanced(x, initial, max) && Queued(x) && SemEnabled(x, op) && LeavesQueue(x, op)
    ensures Queued(SemStep(x, op))
  {
    match op
    case Take(timeout) => TakeKeeps(x, timeout, initial, max);
    case TakeFromIsr =>
    case Give => GiveKeeps(x, initial, max);
    case Other(o) =>
      StepInv(x.s, o);
      OthersKeepWaiters(x.s, o, x.m.w);
      SamePriosKeepOrder(x.s.waits[x.m.w], x.s.tasks, Step(x.s, o).tasks, x.stamp);
  }

  predicate SemCanRun(x: World, ops: seq<SemOp>)
    decreases |ops|
  {
    x.m.w < |x.s.waits| && (ops != [] ==> SemEnabled(x, ops[0]) && SemCanRun(SemStep(x, ops[0]), ops[1..]))
  }

  function SemRun(x: World, ops: seq<SemOp>): World
    requires SemCanRun(x, ops)
    decreases |ops|
  {
    if ops == [] then x else SemRun(SemStep(x, ops[0]), ops[1..])
  }

  lemma {:induction false} SemRunBalanced(x: World, ops: seq<SemOp>, initial: nat, max: nat)
    requires Balanced(x, initial, max) && SemCanRun(x, ops)
    ensures Balanced(SemRun(x, ops), initial, max)
    decreases |ops|
  {
    if ops != [] {
      SemStepBalanced(x, ops[0], initial, max);
      SemRunBalanced(SemStep(x, ops[0]), ops[1..], initial, max);
    }
  }

  /** A semaphore just created; nobody has called yet. */
  function NewWorld(s: Sys, max: nat, initial: nat): World {
    World(NewObject(s), Sem(initial, max, |s.waits|), 0, 0, map[], 0)
  }

  /**
   From a new semaphore on, whatever else happens: the units handed in are the units handed out plus the count, the
   count stays in range, and nobody waits while a unit is there to be taken.
   */
  lemma UnitsAreConserved(s: Sys, max: nat, initial: nat, ops: seq<SemOp>)
    requires Inv(s) && 0 < max && initial <= max && SemCanRun(NewWorld(s, max, initial), ops)
    ensures var x := SemRun(NewWorld(s, max, initial), ops);
      && initial + x.gives == x.grants + x.m.count
      && x.m.count <= max
      && x.m.w < |x.s.waits| && (x.s.waits[x.m.w] != [] ==> x.m.count == 0)
  {
    NewObjectInv(s);
    SemRunBalanced(NewWorld(s, max, initial), ops, initial, max);
  }

  // ---------- What each call answers, from the ledger ----------

  /** The units that are neither handed out nor taken: what has come in less what has gone out. */
  function Stock(x: World, initial: nat): int {
    initial + x.gives - x.grants
  }

  /**
   In every reachable state a take is served exactly while units are in stock, and then there is one less; without
   stock it is refused, with no timeout, or leaves its caller BLOCKED on the wait list.
   */
  lemma TakeServedIff(s: Sys, max: nat, initial: nat, ops: seq<SemOp>, timeout: nat)
    requires Inv(s) && 0 < max && initial <= max && SemCanRun(NewWorld(s, max, initial), ops)
    requires CanCall(SemRun(NewWorld(s, max, initial), ops).s)
    ensures var x := SemRun(NewWorld(s, max, initial), ops);
      && x.m.w < |x.s.waits|
      && var st, d := TakeStatus(x.m, timeout), SemStep(x, Take(timeout));
         && (st == Ok <==> Stock(x, initial) > 0)
         && (st == Ok ==> d.s == x.s && Stock(d, initial) == Stock(x, initial) - 1)
         && (st != Ok ==> d.m == x.m && st == if timeout == 0 then ErrEmpty else Parked)
         && (st == ErrEmpty ==> d.s == x.s)
         && (st == Parked ==> Parks(x.s, d.s, x.s.current.value, x.m.w, SemTake, timeout))
  {
    NewObjectInv(s);
    SemRunBalanced(NewWorld(s, max, initial), ops, initial, max);
    var x := SemRun(NewWorld(s, max, initial), ops);
    if TakeStatus(x.m, timeout) == Parked {
      ParkEffect(x.s, x.m.w, SemTake, timeout);
    }
  }

  /**
   In every reachable state a give is refused exactly when nobody waits and the stock is at its maximum. One that
   finds a waiter wakes the first and leaves the stock; any other adds a unit, which the next take gets.
   */
  lemma GiveRefusedIff(s: Sys, max: nat, initial: nat, ops: seq<SemOp>)
    requires Inv(s) && 0 < max && initial <= max && SemCanRun(NewWorld(s, max, initial), ops)
    ensures var x := SemRun(NewWorld(s, max, initial), ops);
      && x.m.w < |x.s.waits|
      && var l, st, d := x.s.waits[x.m.w], GiveStatus(x.s, x.m), SemStep(x, Give);
         && (st == ErrFull <==> l == [] && Stock(x, initial) == max)
         && (st == ErrFull ==> d.s == x.s && d.m == x.m)
         && (st != ErrFull ==> st == Ok)
         && (l != [] ==> Wakes(x.s, d.s, l[0]) && d.m == x.m && Stock(d, initial) == Stock(x, initial))
         && (l == [] && st == Ok ==>
               && d.s == x.s && Stock(d, initial) == Stock(x, initial) + 1
               && forall timeout :: TakeStatus(d.m, timeout) == Ok)
  {
    NewObjectInv(s);
    SemRunBalanced(NewWorld(s, max, initial), ops, initial, max);
    var x := SemRun(NewWorld(s, max, initial), ops);
    if x.s.waits[x.m.w] != [] {
      ReleaseWaiters(x.s, x.m.w, 0);
      ReleaseEffect(x.s, x.s.waits[x.m.w][0]);
    }
  }

  // ---------- The order of service ----------

  predicate AllLeaveQueue(x: World, ops: seq<SemOp>)
    requires SemCanRun(x, ops)
    decreases |ops|
  {
    ops != [] ==> LeavesQueue(x, ops[0]) && AllLeaveQueue(SemStep(x, ops[0]), ops[1..])
  }

  lemma {:induction false} SemRunQueued(x: World, ops: seq<SemOp>, initial: nat, max: nat)
    requires Balanced(x, initial, max) && Queued(x) && SemCanRun(x, ops) && AllLeaveQueue(x, ops)
    ensures Queued(SemRun(x, ops))
    decreases |ops|
  {
    if ops != [] {
      SemStepBalanced(x, ops[0], initial, max);
      SemStepQueued(x, ops[0], initial, max);
      SemRunQueued(SemStep(x, ops[0]), ops[1..], initial, max);
    }
  }

  /**
   In every run that leaves the waiters' priorities alone a unit goes to the waiter of highest priority, and among
   equals to the one that has waited longest.
   */
  lemma GiveServesFirstInOrder(s: Sys, max: nat, initial: nat, ops: seq<SemOp>, other: nat)
    requires Inv(s) && 0 < max && initial <= max && SemCanRun(NewWorld(s, max, initial), ops)
    requires AllLeaveQueue(NewWorld(s, max, initial), ops)
    requires var x := SemRun(NewWorld(s, max, initial), ops); x.m.w < |x.s.waits| && other in x.s.waits[x.m.w]
    ensures var x := SemRun(NewWorld(s, max, initial), ops);
      var t, d := x.s.waits[x.m.w][0], SemStep(x, Give);
      && t < |d.s.tasks| && d.s.tasks[t].state == Ready && !d.s.tasks[t].timedOut
      && d.m == x.m && d.s.waits[x.m.w] == x.s.waits[x.m.w][1..]
      && (other == t || Before(x.s.tasks, x.stamp, t, other))
  {
    NewObjectInv(s);
    SemRunBalanced(NewWorld(s, max, initial), ops, initial, max);
    SemRunQueued(NewWorld(s, max, initial), ops, initial, max);
    ServesFirst(SemRun(NewWorld(s, max, initial), ops), other);
  }

  lemma ServesFirst(x: World, other: nat)
    requires Queued(x) && other in x.s.waits[x.m.w]
    ensures var t, d := x.s.waits[x.m.w][0], SemStep(x, Give);
      && t < |d.s.tasks| && d.s.tasks[t].state == Ready && !d.s.tasks[t].timedOut
      && d.m == x.m && d.s.waits[x.m.w] == x.s.waits[x.m.w][1..]
      && (other == t || Before(x.s.tasks, x.stamp, t, other))
  {
    var l := x.s.waits[x.m.w];
    ReleaseWaiters(x.s, x.m.w, 0);
    var j :| 0 <= j < |l| && l[j] == other;
    assert j > 0 ==> Before(x.s.tasks, x.stamp, l[0], l[j]);
  }
}
