/**
 Mutexes with priority inheritance (kernel/mutex.c) on values: what lock and unlock do to the priorities of the tasks
 and to the mutex, and what that adds up to over whole runs, for one mutex and for many.
 Of a task only its priority matters here; a task makes calls only while it waits for no mutex.
 */
module MutexSpec {
  import opened KernelTypes
  import opened KernelSpec
  import opened WaitLists

  /** os_mutex_t */
  datatype Mx = Mx(owner: Option<nat>, locks: nat, orig: nat, waiters: seq<nat>)

  /** os_mutex_create */
  const NEW_MUTEX := Mx(None, 0, 0, [])

  /** os_task_set_priority as far as priorities go. */
  function WithPrio(tasks: seq<Task>, t: nat, p: nat): seq<Task> {
    if t < |tasks| then tasks[t := tasks[t].(prio := p)] else tasks
  }

  // ---------- The calls ----------

  predicate Contended(m: Mx, t: nat) {
    m.owner.Some? && m.owner.value != t
  }

  /** os_mutex_lock by task t, up to its return or to the point where t is parked. */
  function LockStatus(m: Mx, t: nat, wait: bool): Status {
    if !Contended(m, t) then Ok else if wait then Parked else ErrWouldBlock
  }

  predicate Boosts(tasks: seq<Task>, m: Mx, t: nat) {
    Contended(m, t) && PrioOf(tasks, t) < PrioOf(tasks, m.owner.value)
  }

  function LockTasks(tasks: seq<Task>, m: Mx, t: nat): seq<Task> {
    if Boosts(tasks, m, t) then WithPrio(tasks, m.owner.value, PrioOf(tasks, t)) else tasks
  }

  function LockMx(tasks: seq<Task>, m: Mx, t: nat, wait: bool): Mx {
    if m.owner.None? then Mx(Some(t), 1, PrioOf(tasks, t), m.waiters)
    else if m.owner.value == t then m.(locks := m.locks + 1)
    else if wait then m.(waiters := Splice(m.waiters, InsertPos(m.waiters, LockTasks(tasks, m, t), PrioOf(tasks,
        t)), t))
    else m
  }

  /** os_mutex_unlock by task t */
  function UnlockStatus(m: Mx, t: nat): Status {
    if m.owner == Some(t) then Ok else ErrState
  }

  /** The call gives the mutex up for good. */
  predicate Frees(m: Mx, t: nat) {
    m.owner == Some(t) && m.locks <= 1
  }

  function UnlockTasks(tasks: seq<Task>, m: Mx, t: nat): seq<Task> {
    if Frees(m, t) then WithPrio(tasks, t, m.orig) else tasks
  }

  function UnlockMx(tasks: seq<Task>, m: Mx, t: nat): Mx {
    if m.owner != Some(t) then m
    else if m.locks > 1 then m.(locks := m.locks - 1)
    else if m.waiters == [] then Mx(None, 0, m.orig, [])
    else Mx(Some(m.waiters[0]), 1, PrioOf(tasks, m.waiters[0]), m.waiters[1..])
  }

  datatype MutexOp = Lock(t: nat, wait: bool) | Unlock(t: nat)

  // ---------- One mutex ----------

  /** `asked` are the priorities of the contended lock calls since the owner got the mutex. */
  datatype One = One(tasks: seq<Task>, m: Mx, asked: seq<nat>, stamp: map<nat, nat>, now: nat)

  predicate OneEnabled(x: One, op: MutexOp) {
    op.t < |x.tasks| && op.t !in x.m.waiters
  }

  function OneStep(x: One, op: MutexOp): One {
    match op
    case Lock(t, wait) =>
      One(LockTasks(x.tasks, x.m, t), LockMx(x.tasks, x.m, t, wait),
          if Contended(x.m, t) then x.asked + [PrioOf(x.tasks, t)] else if x.m.owner.None? then [] else x.asked,
          if LockStatus(x.m, t, wait) == Parked then x.stamp[t := x.now] else x.stamp, x.now + 1)
    case Unlock(t) =>
      x.(tasks := UnlockTasks(x.tasks, x.m, t), m := UnlockMx(UnlockTasks(x.tasks, x.m, t), x.m, t),
         asked := if Frees(x.m, t) then [] else x.asked)
  }

  /** The most urgent of p and all that asked. */
  function Least(p: nat, asked: seq<nat>): nat {
    if asked == [] then p
    else
      var r := Least(p, asked[..|asked| - 1]);
      if asked[|asked| - 1] < r then asked[|asked| - 1] else r
  }

  lemma LeastAdds(p: nat, asked: seq<nat>, q: nat)
    ensures Least(p, asked + [q]) == if q < Least(p, asked) then q else Least(p, asked)
  {
    assert (asked + [q])[..|asked|] == asked;
  }

  /** The priorities the tasks have when nobody is boosted. */
  predicate OneInv(x: One, base: seq<Task>) {
    && |x.tasks| == |base|
    && (forall w :: w in x.m.waiters ==> w < |base|)
    && Ordered(x.m.waiters, base, x.stamp) && Stamped(x.m.waiters, x.stamp, x.now)
    && match x.m.owner
       case None => x.m.waiters == [] && x.m.locks == 0 && x.tasks == base
       case Some(o) =>
         && o < |base| && o !in x.m.waiters && x.m.locks > 0 && x.m.orig == base[o].prio
         && x.tasks == WithPrio(base, o, Least(base[o].prio, x.asked))
         && (forall w :: w in x.m.waiters ==> PrioOf(x.tasks, o) <= PrioOf(base, w))
  }

  /** After a contended call the owner is as urgent as the caller and as everyone before. */
  lemma BoostIsLeast(x: One, t: nat, base: seq<Task>)
    requires OneInv(x, base) && t < |base| && Contended(x.m, t)
    ensures var o, tasks := x.m.owner.value, LockTasks(x.tasks, x.m, t);
      && tasks == WithPrio(base, o, Least(base[o].prio, x.asked + [PrioOf(x.tasks, t)]))
      && PrioOf(tasks, o) <= PrioOf(x.tasks, o) && PrioOf(tasks, o) <= base[t].prio
      && (forall u :: u != o ==> PrioOf(tasks, u) == PrioOf(base, u) == PrioOf(x.tasks, u))
  {
    LeastAdds(base[x.m.owner.value].prio, x.asked, PrioOf(x.tasks, t));
  }

  lemma AcquireKeepsOne(x: One, t: nat, wait: bool, base: seq<Task>)
    requires OneInv(x, base) && OneEnabled(x, Lock(t, wait)) && x.m.owner.None?
    ensures OneInv(OneStep(x, Lock(t, wait)), base)
  {
    assert WithPrio(base, t, base[t].prio) == base;
  }

  lemma RecurseKeepsOne(x: One, t: nat, wait: bool, base: seq<Task>)
    requires OneInv(x, base) && OneEnabled(x, Lock(t, wait)) && x.m.owner == Some(t)
    ensures OneInv(OneStep(x, Lock(t, wait)), base)
  {
  }

  lemma RefusedKeepsOne(x: One, t: nat, base: seq<Task>)
    requires OneInv(x, base) && OneEnabled(x, Lock(t, false)) && Contended(x.m, t)
    ensures OneInv(OneStep(x, Lock(t, false)), base)
  {
    BoostIsLeast(x, t, base);
  }

  lemma ParkedKeepsOne(x: One, t: nat, base: seq<Task>)
    requires OneInv(x, base) && OneEnabled(x, Lock(t, true)) && Contended(x.m, t)
    ensures OneInv(OneStep(x, Lock(t, true)), base)
  {
    var d, o := OneStep(x, Lock(t, true)), x.m.owner.value;
    BoostIsLeast(x, t, base);
    WaitKeepsOne(x, t, base);
    forall w | w in d.m.waiters ensures w < |base| && w != o && PrioOf(d.tasks, o) <= PrioOf(base, w) {
      assert w == t || w in x.m.waiters;
    }
  }

  lemma LockKeepsOne(x: One, t: nat, wait: bool, base: seq<Task>)
    requires OneInv(x, base) && OneEnabled(x, Lock(t, wait))
    ensures OneInv(OneStep(x, Lock(t, wait)), base)
  {
    if x.m.owner.None? {
      AcquireKeepsOne(x, t, wait, base);
    } else if x.m.owner.value == t {
      RecurseKeepsOne(x, t, wait, base);
    } else if wait {
      ParkedKeepsOne(x, t, base);
    } else {
      RefusedKeepsOne(x, t, base);
    }
  }

  /** The newcomer is put in by its base priority, behind its equals. */
  lemma WaitKeepsOne(x: One, t: nat, base: seq<Task>)
    requires OneInv(x, base) && OneEnabled(x, Lock(t, true)) && Contended(x.m, t)
    ensures var d := OneStep(x, Lock(t, true));
      && Ordered(d.m.waiters, base, d.stamp) && Stamped(d.m.waiters, d.stamp, d.now)
      && (forall w :: w in d.m.waiters ==> w == t || w in x.m.waiters)
  {
    var tasks, l := LockTasks(x.tasks, x.m, t), x.m.waiters;
    var k := InsertPos(l, base, PrioOf(base, t));
    SamePlace(l, tasks, base, PrioOf(base, t));
    InsertKeepsOrder(l, base, x.stamp, x.now, t);
    SpliceOnlyAdds(l, k, t);
  }

  lemma {:induction false} SamePlace(l: seq<nat>, tasks: seq<Task>, tasks': seq<Task>, p: nat)
    requires forall i :: 0 <= i < |l| ==> PrioOf(tasks', l[i]) == PrioOf(tasks, l[i])
    ensures InsertPos(l, tasks', p) == InsertPos(l, tasks, p)
  {
    if l != [] { SamePlace(l[1..], tasks, tasks', p); }
  }

  /** The first in order is as urgent as the rest and not among them. */
  lemma HeadIsLeast(l: seq<nat>, tasks: seq<Task>, stamp: map<nat, nat>)
    requires Ordered(l, tasks, stamp) && l != []
    ensures forall w :: w in l[1..] ==> PrioOf(tasks, l[0]) <= PrioOf(tasks, w) && w != l[0] && w in l
  {
    forall w | w in l[1..] ensures PrioOf(tasks, l[0]) <= PrioOf(tasks, w) && w != l[0] && w in l {
      var i :| 0 <= i < |l[1..]| && l[1..][i] == w;
      assert Before(tasks, stamp, l[0], l[i + 1]);
    }
  }

  lemma UnlockKeepsOne(x: One, t: nat, base: seq<Task>)
    requires OneInv(x, base) && OneEnabled(x, Unlock(t))
    ensures OneInv(OneStep(x, Unlock(t)), base)
    ensures Frees(x.m, t) ==> OneStep(x, Unlock(t)).tasks == base
  {
    if Frees(x.m, t) {
      assert OneStep(x, Unlock(t)).tasks == base;
      if x.m.waiters != [] {
        HandOffKeepsOne(x, t, base);
      }
    }
  }

  lemma HandOffKeepsOne(x: One, t: nat, base: seq<Task>)
    requires OneInv(x, base) && OneEnabled(x, Unlock(t)) && Frees(x.m, t) && x.m.waiters != []
    requires OneStep(x, Unlock(t)).tasks == base
    ensures OneInv(OneStep(x, Unlock(t)), base)
  {
    var l := x.m.waiters;
    CutKeepsOrder(l, base, x.stamp, x.now, 0);
    HeadIsLeast(l, base, x.stamp);
    assert Cut(l, 0) == l[1..] && l[0] in l && WithPrio(base, l[0], base[l[0]].prio) == base;
  }

  lemma StepKeepsOne(x: One, op: MutexOp, base: seq<Task>)
    requires OneInv(x, base) && OneEnabled(x, op)
    ensures OneInv(OneStep(x, op), base)
  {
    match op
    case Lock(t, wait) => LockKeepsOne(x, t, wait, base);
    case Unlock(t) => UnlockKeepsOne(x, t, base);
  }

  predicate OneCanRun(x: One, ops: seq<MutexOp>)
    decreases |ops|
  {
    ops != [] ==> OneEnabled(x, ops[0]) && OneCanRun(OneStep(x, ops[0]), ops[1..])
  }

  function OneRun(x: One, ops: seq<MutexOp>): One
    decreases |ops|
  {
    if ops == [] then x else OneRun(OneStep(x, ops[0]), ops[1..])
  }

  lemma {:induction false} OneRunInv(x: One, ops: seq<MutexOp>, base: seq<Task>)
    requires OneInv(x, base) && OneCanRun(x, ops)
    ensures OneInv(OneRun(x, ops), base)
    decreases |ops|
  {
    if ops != [] {
      StepKeepsOne(x, ops[0], base);
      OneRunInv(OneStep(x, ops[0]), ops[1..], base);
    }
  }

  /**
   Priority inheritance on one mutex, in every reachable state: somebody waits only for an owner, the owner does not
   wait, it runs at the most urgent of its own priority and those of all who asked since it got the mutex, hence is
   at least as urgent as every waiter; everybody else has its own priority.
   */
  lemma InheritanceHolds(base: seq<Task>, ops: seq<MutexOp>)
    requires OneCanRun(One(base, NEW_MUTEX, [], map[], 0), ops)
    ensures var x := OneRun(One(base, NEW_MUTEX, [], map[], 0), ops);
      && (x.m.waiters != [] ==> x.m.owner.Some?)
      && (x.m.owner.Some? ==>
            var o := x.m.owner.value;
            && o < |base| && o !in x.m.waiters
            && PrioOf(x.tasks, o) == Least(base[o].prio, x.asked)
            && (forall w :: w in x.m.waiters ==> PrioOf(x.tasks, o) <= PrioOf(x.tasks, w)))
      && (forall t :: 0 <= t < |base| && x.m.owner != Some(t) ==> PrioOf(x.tasks, t) == base[t].prio)
  {
    OneRunInv(One(base, NEW_MUTEX, [], map[], 0), ops, base);
  }

  /** The last unlock undoes every boost and hands the mutex to the waiter first in order, who owns it once. */
  lemma HandOff(base: seq<Task>, ops: seq<MutexOp>, t: nat)
    requires OneCanRun(One(base, NEW_MUTEX, [], map[], 0), ops)
    requires var x := OneRun(One(base, NEW_MUTEX, [], map[], 0), ops); OneEnabled(x, Unlock(t)) && Frees(x.m, t)
    ensures var x := OneRun(One(base, NEW_MUTEX, [], map[], 0), ops);
      var d := OneStep(x, Unlock(t));
      && d.tasks == base
      && d.m.owner == First(x.m.waiters)
      && (d.m.owner.Some? ==> d.m.locks == 1 && d.m.waiters == x.m.waiters[1..])
      && (forall i :: 0 < i < |x.m.waiters| ==> Before(base, x.stamp, x.m.waiters[0], x.m.waiters[i]))
  {
    OneRunInv(One(base, NEW_MUTEX, [], map[], 0), ops, base);
    UnlockKeepsOne(OneRun(One(base, NEW_MUTEX, [], map[], 0), ops), t, base);
  }

  // ---------- A mutex counts its owner's calls ----------

  /** A ledger on the side: the owner's successful locks less its unlocks, since it got the mutex. */
  function Owed(x: One, op: MutexOp, n: nat): nat {
    match op
    case Lock(t, _) => if x.m.owner.None? || x.m.owner == Some(t) then n + 1 else n
    case Unlock(t) =>
      if x.m.owner != Some(t) then n
      else if n > 1 then n - 1
      else if x.m.waiters != [] then 1 else 0
  }

  function OwedAlong(x: One, ops: seq<MutexOp>, n: nat): nat
    decreases |ops|
  {
    if ops == [] then n else OwedAlong(OneStep(x, ops[0]), ops[1..], Owed(x, ops[0], n))
  }

  /** The owner holds the mutex as long as it owes an unlock. */
  predicate Counted(x: One, n: nat) {
    x.m.locks == n && (n > 0 <==> x.m.owner.Some?)
  }

  lemma StepCounted(x: One, op: MutexOp, n: nat, base: seq<Task>)
    requires OneInv(x, base) && OneEnabled(x, op) && Counted(x, n)
    ensures Counted(OneStep(x, op), Owed(x, op, n))
  {
  }

  lemma {:induction false} RunCounted(x: One, ops: seq<MutexOp>, n: nat, base: seq<Task>)
    requires OneInv(x, base) && OneCanRun(x, ops) && Counted(x, n)
    ensures Counted(OneRun(x, ops), OwedAlong(x, ops, n)) && OneInv(OneRun(x, ops), base)
    decreases |ops|
  {
    if ops != [] {
      StepCounted(x, ops[0], n, base);
      StepKeepsOne(x, ops[0], base);
      RunCounted(OneStep(x, ops[0]), ops[1..], Owed(x, ops[0], n), base);
    }
  }

  /**
   In every reachable state the mutex has an owner exactly while that ledger is positive, and the next call does this:
   a lock of a free mutex makes the caller its owner; one by the owner succeeds and leaves it the owner; any other is
   refused or queues the caller, as it wishes, and takes nothing from the owner. An unlock by the owner leaves it the
   owner while it owes more than this one, and otherwise passes the mutex to the first waiter, if any; an unlock by
   anybody else is an error and changes nothing.
   */
  lemma LocksAreCounted(base: seq<Task>, ops: seq<MutexOp>, op: MutexOp)
    requires OneCanRun(One(base, NEW_MUTEX, [], map[], 0), ops)
    requires OneEnabled(OneRun(One(base, NEW_MUTEX, [], map[], 0), ops), op)
    ensures var x0 := One(base, NEW_MUTEX, [], map[], 0);
      var x, n := OneRun(x0, ops), OwedAlong(x0, ops, 0);
      var d := OneStep(x, op);
      && (n > 0 <==> x.m.owner.Some?)
      && match op
         case Lock(t, wait) =>
           if x.m.owner.None? then d.m.owner == Some(t) && LockStatus(x.m, t, wait) == Ok
           else if x.m.owner == Some(t) then
             d.m.owner == Some(t) && d.m.waiters == x.m.waiters && d.tasks == x.tasks && LockStatus(x.m, t, wait) == Ok
           else
             && d.m.owner == x.m.owner
             && if wait then LockStatus(x.m, t, wait) == Parked && t in d.m.waiters
                else LockStatus(x.m, t, wait) == ErrWouldBlock && d.m.waiters == x.m.waiters
         case Unlock(t) =>
           if x.m.owner != Some(t) then d == x && UnlockStatus(x.m, t) == ErrState
           else
             && UnlockStatus(x.m, t) == Ok
             && if n > 1 then d.m.owner == Some(t) && d.m.waiters == x.m.waiters && d.tasks == x.tasks
                else d.m.owner == (if x.m.waiters == [] then None else Some(x.m.waiters[0]))
  {
    var x0 := One(base, NEW_MUTEX, [], map[], 0);
    RunCounted(x0, ops, 0, base);
    var x := OneRun(x0, ops);
    if op.Lock? && Contended(x.m, op.t) && op.wait {
      var k := InsertPos(x.m.waiters, LockTasks(x.tasks, x.m, op.t), PrioOf(x.tasks, op.t));
      assert OneStep(x, op).m.waiters[k] == op.t;
    }
  }

  /** n times the same call */
  function Times(op: MutexOp, n: nat): seq<MutexOp> {
    if n == 0 then [] else [op] + Times(op, n - 1)
  }

  lemma {:induction false} LockTimes(x: One, t: nat, wait: bool, n: nat)
    requires (x.m.owner.None? && x.m.locks == 0) || x.m.owner == Some(t)
    requires t < |x.tasks| && t !in x.m.waiters
    ensures OneCanRun(x, Times(Lock(t, wait), n))
    ensures var d := OneRun(x, Times(Lock(t, wait), n));
      && d.m.locks == x.m.locks + n && d.m.waiters == x.m.waiters && |d.tasks| == |x.tasks|
      && d.m.owner == if n == 0 then x.m.owner else Some(t)
    decreases n
  {
    if n > 0 {
      assert Times(Lock(t, wait), n)[1..] == Times(Lock(t, wait), n - 1);
      LockTimes(OneStep(x, Lock(t, wait)), t, wait, n - 1);
    }
  }

  lemma {:induction false} UnlockTimes(x: One, t: nat, k: nat)
    requires x.m.owner == Some(t) && k < x.m.locks && t < |x.tasks| && t !in x.m.waiters
    ensures OneCanRun(x, Times(Unlock(t), k))
    ensures var d := OneRun(x, Times(Unlock(t), k));
      d.m.owner == Some(t) && d.m.locks == x.m.locks - k && d.m.waiters == x.m.waiters && |d.tasks| == |x.tasks|
    decreases k
  {
    if k > 0 {
      assert Times(Unlock(t), k)[1..] == Times(Unlock(t), k - 1);
      UnlockTimes(OneStep(x, Unlock(t)), t, k - 1);
    }
  }

  /** After n locks of a free mutex fewer than n unlocks leave it with its owner, and the n-th frees it. */
  lemma AsManyUnlocksAsLocks(base: seq<Task>, t: nat, wait: bool, n: nat, k: nat)
    requires t < |base| && k < n
    ensures var x := OneRun(One(base, NEW_MUTEX, [], map[], 0), Times(Lock(t, wait), n));
      var y := OneRun(x, Times(Unlock(t), k));
      && y.m.owner == Some(t)
      && (OneStep(y, Unlock(t)).m.owner == None <==> k + 1 == n)
  {
    var x0 := One(base, NEW_MUTEX, [], map[], 0);
    LockTimes(x0, t, wait, n);
    UnlockTimes(OneRun(x0, Times(Lock(t, wait), n)), t, k);
  }

  // ---------- Many mutexes ----------

  /** `first` records the mutex each task acquired first since it last held none. */
  datatype Many = Many(tasks: seq<Task>, ms: seq<Mx>, first: seq<Option<nat>>)

  datatype ManyOp = At(i: nat, op: MutexOp)

  predicate Idle(x: Many, t: nat) {
    forall i :: 0 <= i < |x.ms| ==> x.ms[i].owner != Some(t)
  }

  predicate ManyEnabled(x: Many, o: ManyOp) {
    && o.i < |x.ms| && o.op.t < |x.tasks| && |x.first| == |x.tasks|
    && forall i :: 0 <= i < |x.ms| ==> o.op.t !in x.ms[i].waiters
  }

  function Begin(first: seq<Option<nat>>, t: nat, i: nat): seq<Option<nat>> {
    if t < |first| && first[t].None? then first[t := Some(i)] else first
  }

  function ManyStep(x: Many, o: ManyOp): Many
    requires ManyEnabled(x, o)
  {
    var i, m := o.i, x.ms[o.i];
    match o.op
    case Lock(t, wait) =>
      Many(LockTasks(x.tasks, m, t), x.ms[i := LockMx(x.tasks, m, t, wait)],
           if m.owner.None? then Begin(x.first, t, i) else x.first)
    case Unlock(t) =>
      var tasks := UnlockTasks(x.tasks, m, t);
      var first := if Frees(m, t) && x.first[t] == Some(i) then x.first[t := None] else x.first;
      Many(tasks, x.ms[i := UnlockMx(tasks, m, t)],
           if Frees(m, t) && m.waiters != [] then Begin(first, m.waiters[0], i) else first)
  }

  /** The mutex acquired first is given up last. */
  predicate Disciplined(x: Many, o: ManyOp) {
    o.op.Unlock? && o.i < |x.ms| && o.op.t < |x.first| && Frees(x.ms[o.i], o.op.t) && x.first[o.op.t] == Some(o.i) ==>
      forall j :: 0 <= j < |x.ms| && j != o.i ==> x.ms[j].owner != Some(o.op.t)
  }

  /** What holds of one task: idle at its own priority, or owner of a mutex that remembers it. */
  predicate Accounted(x: Many, base: seq<Task>, t: nat) {
    && t < |x.first| && t < |base|
    && match x.first[t]
       case None => PrioOf(x.tasks, t) == base[t].prio && Idle(x, t)
       case Some(f) => f < |x.ms| && x.ms[f].owner == Some(t) && x.ms[f].orig == base[t].prio
  }

  predicate Sound(m: Mx, n: nat) {
    && (m.owner.Some? ==> m.owner.value < n) && (m.owner.None? ==> m.waiters == [])
    && forall i :: 0 <= i < |m.waiters| ==> m.waiters[i] < n
  }

  predicate ManyInv(x: Many, base: seq<Task>) {
    && |x.tasks| == |x.first| == |base|
    && (forall i {:trigger Sound(x.ms[i], |base|)} :: 0 <= i < |x.ms| ==> Sound(x.ms[i], |base|))
    && (forall t {:trigger Accounted(x, base, t)} :: 0 <= t < |base| ==> Accounted(x, base, t))
  }

  lemma LockKeepsMany(x: Many, i: nat, t: nat, wait: bool, base: seq<Task>)
    requires ManyInv(x, base) && ManyEnabled(x, At(i, Lock(t, wait)))
    ensures ManyInv(ManyStep(x, At(i, Lock(t, wait))), base)
  {
    var d := ManyStep(x, At(i, Lock(t, wait)));
    assert Sound(x.ms[i], |base|);
    forall j | 0 <= j < |d.ms| ensures Sound(d.ms[j], |base|) {
      assert Sound(x.ms[j], |base|);
    }
    forall u | 0 <= u < |base| ensures Accounted(d, base, u) {
      assert Accounted(x, base, u);
    }
  }

  lemma UnlockKeepsMany(x: Many, i: nat, t: nat, base: seq<Task>)
    requires ManyInv(x, base) && ManyEnabled(x, At(i, Unlock(t))) && Disciplined(x, At(i, Unlock(t)))
    ensures ManyInv(ManyStep(x, At(i, Unlock(t))), base)
  {
    var d := ManyStep(x, At(i, Unlock(t)));
    assert Sound(x.ms[i], |base|);
    forall j | 0 <= j < |d.ms| ensures Sound(d.ms[j], |base|) {
      assert Sound(x.ms[j], |base|);
    }
    forall u | 0 <= u < |base| ensures Accounted(d, base, u) {
      assert Accounted(x, base, u);
      assert Accounted(x, base, t);
      assert x.ms[i].waiters != [] ==> x.ms[i].waiters[0] in x.ms[i].waiters;
    }
  }

  predicate ManyCanRun(x: Many, ops: seq<ManyOp>)
    decreases |ops|
  {
    ops != [] ==> ManyEnabled(x, ops[0]) && ManyCanRun(ManyStep(x, ops[0]), ops[1..])
  }

  /** Every task gives up last the mutex it acquired first. */
  predicate AllDisciplined(x: Many, ops: seq<ManyOp>)
    requires ManyCanRun(x, ops)
    decreases |ops|
  {
    ops != [] ==> Disciplined(x, ops[0]) && AllDisciplined(ManyStep(x, ops[0]), ops[1..])
  }

  function ManyRun(x: Many, ops: seq<ManyOp>): Many
    requires ManyCanRun(x, ops)
    decreases |ops|
  {
    if ops == [] then x else ManyRun(ManyStep(x, ops[0]), ops[1..])
  }

  lemma {:induction false} ManyRunInv(x: Many, ops: seq<ManyOp>, base: seq<Task>)
    requires ManyInv(x, base) && ManyCanRun(x, ops) && AllDisciplined(x, ops)
    ensures ManyInv(ManyRun(x, ops), base)
    decreases |ops|
  {
    if ops != [] {
      match ops[0].op {
        case Lock(t, wait) => LockKeepsMany(x, ops[0].i, t, wait, base);
        case Unlock(t) => UnlockKeepsMany(x, ops[0].i, t, base);
      }
      ManyRunInv(ManyStep(x, ops[0]), ops[1..], base);
    }
  }

  function NewMany(base: seq<Task>, n: nat): Many {
    Many(base, seq(n, _ => NEW_MUTEX), seq(|base|, _ => None))
  }

  /**
   However many mutexes there are and whoever boosts whom: a task that holds none is back at its own priority,
   as long as every task gives up last the mutex it acquired first.
   */
  lemma OwnPriorityWheneverIdle(base: seq<Task>, n: nat, ops: seq<ManyOp>)
    requires ManyCanRun(NewMany(base, n), ops) && AllDisciplined(NewMany(base, n), ops)
    ensures var x := ManyRun(NewMany(base, n), ops);
      forall t :: 0 <= t < |base| && Idle(x, t) ==> PrioOf(x.tasks, t) == base[t].prio
  {
    var x0 := NewMany(base, n);
    forall i | 0 <= i < |x0.ms| ensures Sound(x0.ms[i], |base|) { assert x0.ms[i] == NEW_MUTEX; }
    forall t | 0 <= t < |base| ensures Accounted(x0, base, t) { assert x0.first[t] == None; }
    ManyRunInv(x0, ops, base);
    var x := ManyRun(x0, ops);
    forall t | 0 <= t < |base| && Idle(x, t) ensures PrioOf(x.tasks, t) == base[t].prio {
      assert Accounted(x, base, t);
    }
  }

  // ---------- What goes wrong otherwise ----------

  ghost predicate IdleAtBase(x: Many, base: seq<Task>) {
    forall t :: 0 <= t < |base| && Idle(x, t) ==> PrioOf(x.tasks, t) == base[t].prio
  }

  /** t owns a mutex other than i. */
  predicate HoldsOther(x: Many, t: nat, i: nat) {
    exists j :: 0 <= j < |x.ms| && j != i && x.ms[j].owner == Some(t)
  }

  /**
   The exact condition, whatever the order: a call keeps idle tasks at their own priority unless it gives up the
   last mutex its caller holds and the caller did not have its own priority when it got that mutex.
   */
  lemma IdleAtBaseIff(x: Many, o: ManyOp, base: seq<Task>)
    requires ManyEnabled(x, o) && |x.tasks| == |base| && IdleAtBase(x, base)
    ensures IdleAtBase(ManyStep(x, o), base) <==>
      (o.op.Unlock? && Frees(x.ms[o.i], o.op.t) && !HoldsOther(x, o.op.t, o.i) ==> x.ms[o.i].orig == base[o.op.t].prio)
  {
    var d, t, i := ManyStep(x, o), o.op.t, o.i;
    forall u | 0 <= u < |base| && u != t && Idle(d, u) ensures PrioOf(d.tasks, u) == base[u].prio {
      OthersStayIdle(x, o, u);
    }
    if o.op.Unlock? && Frees(x.ms[i], t) {
      LastUnlockIdles(x, i, t);
    } else {
      CallerUnchanged(x, o, base);
    }
  }

  lemma LastUnlockIdles(x: Many, i: nat, t: nat)
    requires ManyEnabled(x, At(i, Unlock(t))) && Frees(x.ms[i], t)
    ensures Idle(ManyStep(x, At(i, Unlock(t))), t) <==> !HoldsOther(x, t, i)
    ensures PrioOf(ManyStep(x, At(i, Unlock(t))).tasks, t) == x.ms[i].orig
  {
    var d := ManyStep(x, At(i, Unlock(t)));
    if HoldsOther(x, t, i) {
      var j :| 0 <= j < |x.ms| && j != i && x.ms[j].owner == Some(t);
      assert d.ms[j].owner == Some(t);
    } else {
      assert x.ms[i].waiters != [] ==> x.ms[i].waiters[0] in x.ms[i].waiters;
      forall j | 0 <= j < |d.ms| ensures d.ms[j].owner != Some(t) {
        assert j != i ==> d.ms[j].owner == x.ms[j].owner;
      }
    }
  }

  /** Whoever is idle after another task's call was idle before it, at the same priority. */
  lemma OthersStayIdle(x: Many, o: ManyOp, u: nat)
    requires ManyEnabled(x, o) && u != o.op.t && Idle(ManyStep(x, o), u)
    ensures Idle(x, u) && PrioOf(ManyStep(x, o).tasks, u) == PrioOf(x.tasks, u)
  {
    var d := ManyStep(x, o);
    forall j | 0 <= j < |x.ms| ensures x.ms[j].owner != Some(u) {
      assert d.ms[j].owner != Some(u);
    }
    assert d.ms[o.i].owner != Some(u);
  }

  lemma CallerUnchanged(x: Many, o: ManyOp, base: seq<Task>)
    requires ManyEnabled(x, o) && |x.tasks| == |base| && IdleAtBase(x, base)
    requires o.op.Lock? || !Frees(x.ms[o.i], o.op.t)
    ensures Idle(ManyStep(x, o), o.op.t) ==> PrioOf(ManyStep(x, o).tasks, o.op.t) == base[o.op.t].prio
  {
    var d, t := ManyStep(x, o), o.op.t;
    if Idle(d, t) {
      forall j | 0 <= j < |x.ms| ensures x.ms[j].owner != Some(t) {
        assert d.ms[j].owner != Some(t);
      }
      assert Idle(x, t);
    }
  }

  /** Task 0 takes mutex 0, is boosted by task 1, takes mutex 1 and gives mutex 0 up first: it keeps the boost. */
  lemma OutOfOrderRelease(a: Task, b: Task)
    ensures var x := NewMany([a, b], 2);
      var x1 := ManyStep(x, At(0, Lock(0, true)));
      ManyEnabled(x1, At(0, Lock(1, false))) &&
      var x2 := ManyStep(x1, At(0, Lock(1, false)));
      ManyEnabled(x2, At(1, Lock(0, true))) &&
      var x3 := ManyStep(x2, At(1, Lock(0, true)));
      ManyEnabled(x3, At(0, Unlock(0))) && (!Disciplined(x3, At(0, Unlock(0)))) &&
      var x4 := ManyStep(x3, At(0, Unlock(0)));
      ManyEnabled(x4, At(1, Unlock(0))) &&
      var x5 := ManyStep(x4, At(1, Unlock(0)));
      Idle(x5, 0) && (PrioOf(x5.tasks, 0) == a.prio <==> a.prio <= b.prio)
  {
    var x3 := ManyStep(ManyStep(ManyStep(NewMany([a, b], 2), At(0, Lock(0, true))), At(0, Lock(1, false))), At(1,
        Lock(0, true)));
    assert x3.ms[1].owner == Some(0);
  }

  // ---------- Inheritance over many mutexes ----------

  /** The owner of m is at least as urgent as each of its waiters. */
  predicate Serves(tasks: seq<Task>, m: Mx) {
    m.owner.Some? ==> forall w :: w in m.waiters ==> PrioOf(tasks, m.owner.value) <= PrioOf(tasks, w)
  }

  predicate Inherits(x: Many) {
    forall i {:trigger Serves(x.tasks, x.ms[i])} :: 0 <= i < |x.ms| ==> Serves(x.tasks, x.ms[i])
  }

  /** Every mutex without an owner is without waiters, and they are all in the table. */
  predicate AllSound(x: Many) {
    forall i {:trigger Sound(x.ms[i], |x.tasks|)} :: 0 <= i < |x.ms| ==> Sound(x.ms[i], |x.tasks|)
  }

  /** The recorded priority is at least as urgent as every waiter of the other mutexes of t. */
  predicate CoversOthers(x: Many, i: nat, t: nat)
    requires i < |x.ms|
  {
    forall j, w :: 0 <= j < |x.ms| && j != i && x.ms[j].owner == Some(t) && w in x.ms[j].waiters ==>
      x.ms[i].orig <= PrioOf(x.tasks, w)
  }

  /** The first waiter is at least as urgent as the others. */
  predicate HeadLeads(tasks: seq<Task>, m: Mx) {
    m.waiters != [] ==> forall w :: w in m.waiters[1..] ==> PrioOf(tasks, m.waiters[0]) <= PrioOf(tasks, w)
  }

  lemma UnlockServesOther(x: Many, i: nat, t: nat, j: nat)
    requires ManyEnabled(x, At(i, Unlock(t))) && Frees(x.ms[i], t) && j < |x.ms| && j != i
    ensures Serves(UnlockTasks(x.tasks, x.ms[i], t), x.ms[j]) <==>
      if x.ms[j].owner == Some(t) then forall w :: w in x.ms[j].waiters ==> x.ms[i].orig <= PrioOf(x.tasks, w)
      else Serves(x.tasks, x.ms[j])
  {
    var tasks, m := UnlockTasks(x.tasks, x.ms[i], t), x.ms[j];
    forall w | w in m.waiters ensures PrioOf(tasks, w) == PrioOf(x.tasks, w) {
      assert w != t;
    }
  }

  lemma UnlockServesNext(x: Many, i: nat, t: nat)
    requires ManyEnabled(x, At(i, Unlock(t))) && Frees(x.ms[i], t)
    ensures var tasks := UnlockTasks(x.tasks, x.ms[i], t);
      Serves(tasks, UnlockMx(tasks, x.ms[i], t)) <==> HeadLeads(x.tasks, x.ms[i])
  {
    var tasks, m := UnlockTasks(x.tasks, x.ms[i], t), x.ms[i];
    if m.waiters != [] {
      assert m.waiters[0] in m.waiters;
      forall w | w in m.waiters[1..] ensures PrioOf(tasks, w) == PrioOf(x.tasks, w) {
        assert w in m.waiters;
      }
    }
  }

  /**
   Giving up a mutex for good leaves every owner as urgent as its waiters exactly when the priority it restores is
   as urgent as every waiter of the other mutexes of its caller, and the first waiter of this one as the others.
   */
  lemma UnlockInheritsIff(x: Many, i: nat, t: nat)
    requires ManyEnabled(x, At(i, Unlock(t))) && Frees(x.ms[i], t) && Inherits(x)
    ensures Inherits(ManyStep(x, At(i, Unlock(t)))) <==> CoversOthers(x, i, t) && HeadLeads(x.tasks, x.ms[i])
  {
    var d := ManyStep(x, At(i, Unlock(t)));
    UnlockServesNext(x, i, t);
    forall j | 0 <= j < |x.ms| && j != i
      ensures Serves(d.tasks, d.ms[j]) <==>
        (x.ms[j].owner == Some(t) ==> forall w :: w in x.ms[j].waiters ==> x.ms[i].orig <= PrioOf(x.tasks, w))
    {
      assert Serves(x.tasks, x.ms[j]);
      UnlockServesOther(x, i, t, j);
    }
    assert Inherits(d) <==> Serves(d.tasks, d.ms[i]) && forall j :: 0 <= j < |x.ms| && j != i ==>
        Serves(d.tasks, d.ms[j]);
  }

  /** Whoever o waits for is at least as urgent as p, or is o. */
  predicate ChainReady(x: Many, o: nat, p: nat) {
    forall k :: 0 <= k < |x.ms| && o in x.ms[k].waiters && x.ms[k].owner.Some? ==>
      x.ms[k].owner.value == o || PrioOf(x.tasks, x.ms[k].owner.value) <= p
  }

  lemma BoostServesIff(x: Many, i: nat, t: nat, k: nat)
    requires i < |x.ms| && t < |x.tasks| && Boosts(x.tasks, x.ms[i], t) && AllSound(x) && k < |x.ms|
    requires Serves(x.tasks, x.ms[k])
    ensures var o, p := x.ms[i].owner.value, PrioOf(x.tasks, t);
      Serves(LockTasks(x.tasks, x.ms[i], t), x.ms[k]) <==>
      (o in x.ms[k].waiters && x.ms[k].owner.Some? ==>
          x.ms[k].owner.value == o || PrioOf(x.tasks, x.ms[k].owner.value) <= p)
  {
    assert Sound(x.ms[i], |x.tasks|);
  }

  /** A contended caller joins no list whose owner is less urgent. */
  lemma JoinServes(tasks: seq<Task>, m: Mx, t: nat)
    requires Contended(m, t) && m.owner.value < |tasks| && t < |tasks|
    ensures Serves(LockTasks(tasks, m, t), LockMx(tasks, m, t, true)) <==> Serves(LockTasks(tasks, m, t), m)
  {
    var k := InsertPos(m.waiters, LockTasks(tasks, m, t), PrioOf(tasks, t));
    var l := Splice(m.waiters, k, t);
    SpliceOnlyAdds(m.waiters, k, t);
    forall w | w in m.waiters ensures w in l {
      var j :| 0 <= j < |m.waiters| && m.waiters[j] == w;
      assert l[if j < k then j else j + 1] == w;
    }
  }

  /**
   A lock call leaves every owner as urgent as its waiters exactly when, if it boosts an owner, each mutex this
   owner waits for in turn has an owner as urgent as the caller: a boost is passed on one step only.
   */
  lemma LockInheritsIff(x: Many, i: nat, t: nat, wait: bool)
    requires ManyEnabled(x, At(i, Lock(t, wait))) && AllSound(x) && Inherits(x)
    ensures Inherits(ManyStep(x, At(i, Lock(t, wait)))) <==>
      (Boosts(x.tasks, x.ms[i], t) ==> ChainReady(x, x.ms[i].owner.value, PrioOf(x.tasks, t)))
  {
    var d, tasks := ManyStep(x, At(i, Lock(t, wait))), LockTasks(x.tasks, x.ms[i], t);
    assert Sound(x.ms[i], |x.tasks|);
    if Contended(x.ms[i], t) {
      JoinServes(x.tasks, x.ms[i], t);
    }
    forall k | 0 <= k < |x.ms| ensures Serves(d.tasks, d.ms[k]) <==> Serves(tasks, x.ms[k]) {
      assert Serves(x.tasks, x.ms[k]);
    }
    if Boosts(x.tasks, x.ms[i], t) {
      forall k | 0 <= k < |x.ms|
        ensures var o, p := x.ms[i].owner.value, PrioOf(x.tasks, t);
          Serves(tasks, x.ms[k]) <==> (o in x.ms[k].waiters && x.ms[k].owner.Some? ==>
                                         x.ms[k].owner.value == o || PrioOf(x.tasks, x.ms[k].owner.value) <= p)
      {
        assert Serves(x.tasks, x.ms[k]);
        BoostServesIff(x, i, t, k);
      }
    } else {
      forall k | 0 <= k < |x.ms| ensures Serves(d.tasks, d.ms[k]) {
        assert Serves(x.tasks, x.ms[k]);
      }
    }
    assert |d.ms| == |x.ms|;
    assert Inherits(d) <==> forall k :: 0 <= k < |x.ms| ==> Serves(tasks, x.ms[k]);
  }

  /** What a caller could check before the call. */
  predicate KeepsInheritance(x: Many, o: ManyOp)
    requires o.i < |x.ms|
  {
    match o.op
    case Lock(t, _) => Boosts(x.tasks, x.ms[o.i], t) ==> ChainReady(x, x.ms[o.i].owner.value, PrioOf(x.tasks, t))
    case Unlock(t) => Frees(x.ms[o.i], t) ==> CoversOthers(x, o.i, t) && HeadLeads(x.tasks, x.ms[o.i])
  }

  lemma StepInheritsIff(x: Many, o: ManyOp)
    requires ManyEnabled(x, o) && AllSound(x) && Inherits(x)
    ensures Inherits(ManyStep(x, o)) <==> KeepsInheritance(x, o)
  {
    match o.op
    case Lock(t, wait) => LockInheritsIff(x, o.i, t, wait);
    case Unlock(t) =>
      if Frees(x.ms[o.i], t) {
        UnlockInheritsIff(x, o.i, t);
      } else {
        forall j | 0 <= j < |x.ms| ensures Serves(ManyStep(x, o).tasks, ManyStep(x, o).ms[j]) {
          assert Serves(x.tasks, x.ms[j]);
        }
      }
  }

  lemma StepSound(x: Many, o: ManyOp)
    requires ManyEnabled(x, o) && AllSound(x)
    ensures AllSound(ManyStep(x, o))
  {
    var d := ManyStep(x, o);
    assert Sound(x.ms[o.i], |x.tasks|);
    forall j | 0 <= j < |d.ms| ensures Sound(d.ms[j], |d.tasks|) {
      assert Sound(x.ms[j], |x.tasks|);
    }
  }

  /** In every state of the run each owner is as urgent as its waiters. */
  predicate InheritsAlong(x: Many, ops: seq<ManyOp>)
    requires ManyCanRun(x, ops)
    decreases |ops|
  {
    Inherits(x) && (ops != [] ==> InheritsAlong(ManyStep(x, ops[0]), ops[1..]))
  }

  predicate AllKeepInheritance(x: Many, ops: seq<ManyOp>)
    requires ManyCanRun(x, ops)
    decreases |ops|
  {
    ops != [] ==> KeepsInheritance(x, ops[0]) && AllKeepInheritance(ManyStep(x, ops[0]), ops[1..])
  }

  lemma {:induction false} InheritsAlongIff(x: Many, ops: seq<ManyOp>)
    requires ManyCanRun(x, ops) && AllSound(x) && Inherits(x)
    ensures InheritsAlong(x, ops) <==> AllKeepInheritance(x, ops)
    decreases |ops|
  {
    if ops != [] {
      StepInheritsIff(x, ops[0]);
      StepSound(x, ops[0]);
      if Inherits(ManyStep(x, ops[0])) {
        InheritsAlongIff(ManyStep(x, ops[0]), ops[1..]);
      }
    }
  }

  /**
   From new mutexes on, every owner is as urgent as all its waiters in every state of a run exactly when each call
   of the run meets its condition.
   */
  lemma NestedInheritanceIff(base: seq<Task>, n: nat, ops: seq<ManyOp>)
    requires ManyCanRun(NewMany(base, n), ops)
    ensures InheritsAlong(NewMany(base, n), ops) <==> AllKeepInheritance(NewMany(base, n), ops)
  {
    var x := NewMany(base, n);
    forall i | 0 <= i < |x.ms| ensures Serves(x.tasks, x.ms[i]) && Sound(x.ms[i], |x.tasks|) {
      assert x.ms[i] == NEW_MUTEX;
    }
    InheritsAlongIff(x, ops);
  }

  /** The condition does fail: task 0 takes both mutexes, task 1 waits for the first, task 0 gives up the second. */
  lemma NestedInheritanceLost(a: Task, b: Task)
    ensures var x := NewMany([a, b], 2);
      var x1 := ManyStep(x, At(0, Lock(0, true)));
      ManyEnabled(x1, At(1, Lock(0, true))) &&
      var x2 := ManyStep(x1, At(1, Lock(0, true)));
      ManyEnabled(x2, At(0, Lock(1, true))) &&
      var x3 := ManyStep(x2, At(0, Lock(1, true)));
      && ManyEnabled(x3, At(1, Unlock(0))) && AllSound(x3) && Inherits(x3)
      && (Inherits(ManyStep(x3, At(1, Unlock(0)))) <==> a.prio <= b.prio)
  {
    var x3 := ManyStep(ManyStep(ManyStep(NewMany([a, b], 2), At(0, Lock(0, true))), At(1, Lock(0, true))), At(0,
        Lock(1, true)));
    assert Splice<nat>([], 0, 1) == [1];
    var m0 := Mx(Some(0), 1, a.prio, []);
    var low := if b.prio < a.prio then b.prio else a.prio;
    assert x3 == Many([a.(prio := low), b], [m0.(waiters := [1]), m0], [Some(0), None]);
    GivesUpSecond(a, b, low);
  }

  lemma GivesUpSecond(a: Task, b: Task, low: nat)
    requires low == if b.prio < a.prio then b.prio else a.prio
    ensures var m0 := Mx(Some(0), 1, a.prio, []);
      var x := Many([a.(prio := low), b], [m0.(waiters := [1]), m0], [Some(0), None]);
      && ManyEnabled(x, At(1, Unlock(0))) && AllSound(x) && Inherits(x)
      && (Inherits(ManyStep(x, At(1, Unlock(0)))) <==> a.prio <= b.prio)
  {
    var m0 := Mx(Some(0), 1, a.prio, []);
    var x := Many([a.(prio := low), b], [m0.(waiters := [1]), m0], [Some(0), None]);
    assert |x.ms| == 2 && x.ms[0].waiters == [1] && x.ms[1] == m0;
    assert Serves(x.tasks, x.ms[0]) && Serves(x.tasks, x.ms[1]);
    assert Sound(x.ms[0], 2) && Sound(x.ms[1], 2);
    UnlockInheritsIff(x, 1, 0);
    assert 1 in x.ms[0].waiters && PrioOf(x.tasks, 1) == b.prio;
  }
}
