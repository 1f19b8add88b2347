/**
 Runs of a mutex on the kernel (kernel/mutex.c, kernel/task.c): which of them keep the ready lists in order, and one
 that does not.
 */
module MutexRuns {
  import opened KernelTypes
  import opened KernelSpec
  import opened KernelSteps
  import opened KernelRuns
  import opened WaitLists
  import opened Resumes
  import opened MutexSpec
  import opened Mutexes

  /** The kernel and one mutex, whose wait list is w in what follows. */
  datatype Pair = Pair(s: Sys, m: Mx)

  datatype Act = DoLock(timeout: nat) | DoUnlock | DoCall(op: Op)

  /** A waiter of the mutex is released by an unlock, or not at all. */
  predicate ActEnabled(x: Pair, w: nat, act: Act) {
    match act
    case DoLock(_) => CanCall(x.s) && (x.m.owner.Some? ==> x.m.owner.value < |x.s.tasks|)
    case DoUnlock => CanCall(x.s)
    case DoCall(op) =>
      Callable(x.s, op) && Foreign(op, w) && (op.DoRelease? ==> x.s.tasks[op.t].blockedOn != Some(w))
  }

  function ActStep(x: Pair, w: nat, act: Act): Pair
    requires ActEnabled(x, w, act)
  {
    match act
    case DoLock(timeout) =>
      Pair(LockSys(x.s, x.m, w, timeout), LockMx(x.s.tasks, x.m, x.s.current.value, timeout != 0))
    case DoUnlock => Pair(UnlockSys(x.s, x.m), UnlockMx(x.s.tasks, x.m, x.s.current.value))
    case DoCall(op) => x.(s := Called(x.s, op))
  }

  /** The mutex and the kernel agree on who waits. */
  predicate Tied(x: Pair, w: nat) {
    && w < |x.s.waits| && x.m.waiters == x.s.waits[w] && x.m.orig < NUM_PRIORITIES
    && (x.m.owner.Some? ==> x.m.owner.value < |x.s.tasks|)
  }

  /** The call gives no RUNNING task another priority: it neither sets one, nor gives up a boosted caller's mutex. */
  predicate KeepsPlace(x: Pair, act: Act) {
    match act
    case DoLock(_) => true
    case DoUnlock =>
      CanCall(x.s) && Frees(x.m, x.s.current.value) && Runs(x.s) ==> x.s.tasks[x.s.current.value].prio == x.m.orig
    case DoCall(op) => Enabled(x.s, op)
  }

  lemma LockKeepsTied(x: Pair, w: nat, timeout: nat)
    requires Inv(x.s) && Tied(x, w) && CanCall(x.s)
    ensures Inv(ActStep(x, w, DoLock(timeout)).s) && Tied(ActStep(x, w, DoLock(timeout)), w)
  {
    LockShape(x.s, x.m, w, timeout);
    InvAt(x.s, x.s.current.value);
  }

  lemma UnlockKeepsTied(x: Pair, w: nat)
    requires Inv(x.s) && Tied(x, w) && CanCall(x.s) && KeepsPlace(x, DoUnlock)
    ensures Inv(ActStep(x, w, DoUnlock).s) && Tied(ActStep(x, w, DoUnlock), w)
  {
    if Frees(x.m, x.s.current.value) {
      UnlockInvIff(x.s, x.m, w);
      if x.m.waiters != [] {
        HeadWaits(x.s, w);
      }
      if Runs(x.s) {
        UnlockShape(x.s, x.m, w);
      } else {
        ReadyUnlockShape(x.s, x.m, w);
      }
    }
  }

  lemma SameWaitList(s: Sys, op: Op, w: nat)
    requires Inv(s) && Enabled(s, op) && Foreign(op, w) && w < |s.waits|
    requires op.DoRelease? ==> s.tasks[op.t].blockedOn != Some(w)
    ensures w < |Step(s, op).waits| && Step(s, op).waits[w] == s.waits[w]
  {
    if Minds(s, op, w) {
      OthersKeepWaiters(s, op, w);
    } else {
      InvAt(s, op.t);
    }
  }

  lemma CallKeepsTied(x: Pair, w: nat, op: Op)
    requires Inv(x.s) && Tied(x, w) && ActEnabled(x, w, DoCall(op)) && Enabled(x.s, op)
    ensures Inv(Step(x.s, op)) && Tied(x.(s := Step(x.s, op)), w)
  {
    StepInv(x.s, op);
    SameWaitList(x.s, op, w);
    if x.m.owner.Some? {
      StepKeepsBits(x.s, op, x.m.owner.value);
    }
  }

  lemma ActInvIff(x: Pair, w: nat, act: Act)
    requires Inv(x.s) && Tied(x, w) && ActEnabled(x, w, act)
    ensures Inv(ActStep(x, w, act).s) <==> KeepsPlace(x, act)
    ensures KeepsPlace(x, act) ==> Tied(ActStep(x, w, act), w)
  {
    match act
    case DoLock(timeout) => LockKeepsTied(x, w, timeout);
    case DoUnlock =>
      if KeepsPlace(x, act) {
        UnlockKeepsTied(x, w);
      } else {
        UnlockInvIff(x.s, x.m, w);
      }
    case DoCall(op) =>
      CalledInvIff(x.s, op);
      if Enabled(x.s, op) {
        CallKeepsTied(x, w, op);
      }
  }

  predicate ActsCanRun(x: Pair, w: nat, acts: seq<Act>)
    decreases |acts|
  {
    acts != [] ==> ActEnabled(x, w, acts[0]) && ActsCanRun(ActStep(x, w, acts[0]), w, acts[1..])
  }

  function ActsRun(x: Pair, w: nat, acts: seq<Act>): Pair
    requires ActsCanRun(x, w, acts)
    decreases |acts|
  {
    if acts == [] then x else ActsRun(ActStep(x, w, acts[0]), w, acts[1..])
  }

  ghost predicate InOrderAlong(x: Pair, w: nat, acts: seq<Act>)
    requires ActsCanRun(x, w, acts)
    decreases |acts|
  {
    Inv(x.s) && (acts != [] ==> InOrderAlong(ActStep(x, w, acts[0]), w, acts[1..]))
  }

  predicate AllKeepPlace(x: Pair, w: nat, acts: seq<Act>)
    requires ActsCanRun(x, w, acts)
    decreases |acts|
  {
    acts != [] ==> KeepsPlace(x, acts[0]) && AllKeepPlace(ActStep(x, w, acts[0]), w, acts[1..])
  }

  /**
   Every state of a run with locks, unlocks and any other calls has each task on the list of its priority if and only
   if no RUNNING task gives up a mutex while boosted, and none is given another priority by a call.
   */
  lemma {:induction false} InOrderIff(x: Pair, w: nat, acts: seq<Act>)
    requires Inv(x.s) && Tied(x, w) && ActsCanRun(x, w, acts)
    ensures InOrderAlong(x, w, acts) <==> AllKeepPlace(x, w, acts)
    decreases |acts|
  {
    if acts != [] {
      ActInvIff(x, w, acts[0]);
      if KeepsPlace(x, acts[0]) {
        InOrderIff(ActStep(x, w, acts[0]), w, acts[1..]);
      }
    }
  }

  lemma {:induction false} EndsInOrder(x: Pair, w: nat, acts: seq<Act>)
    requires Inv(x.s) && Tied(x, w) && ActsCanRun(x, w, acts) && AllKeepPlace(x, w, acts)
    ensures Inv(ActsRun(x, w, acts).s) && Tied(ActsRun(x, w, acts), w)
    decreases |acts|
  {
    if acts != [] {
      ActInvIff(x, w, acts[0]);
      EndsInOrder(ActStep(x, w, acts[0]), w, acts[1..]);
    }
  }

  // ---------- A run that ends with a task on the wrong list ----------

  predicate Leads(x: Pair, acts: seq<Act>, y: Pair) {
    ActsCanRun(x, 0, acts) && AllKeepPlace(x, 0, acts) && ActsRun(x, 0, acts) == y
  }

  lemma Then(x: Pair, act: Act, m: Pair, acts: seq<Act>, y: Pair) returns (longer: seq<Act>)
    requires ActEnabled(x, 0, act) && KeepsPlace(x, act) && ActStep(x, 0, act) == m && Leads(m, acts, y)
    ensures Leads(x, longer, y)
  {
    longer := [act] + acts;
    assert longer[1..] == acts;
  }

  const LOW := NewTask(5)
  const HIGH := NewTask(3)

  /** Task 0 and task 1, the ready lists of priorities 3 and 5, and the wait list of the mutex. */
  function Two(r: Task, q: Task, three: seq<nat>, five: seq<nat>, wait: seq<nat>, current: nat): Sys {
    Sys([r, q], Boot().ready[3 := three][5 := five], [], [wait], Some(current))
  }

  /** A task of priority 5 runs ... */
  function Alone(): Sys {
    Sys([LOW.(state := Running)], Boot().ready[5 := [0]], [], [[]], Some(0))
  }

  /** ... holds the mutex, and is joined by one of priority 3, which runs instead ... */
  function Joined(current: nat): Pair {
    Pair(Two(LOW.(state := if current == 0 then Running else Ready), HIGH.(state := if current == 1 then Running
        else Ready), [1], [0], [], current), Mx(Some(0), 1, 5, []))
  }

  /** ... and waits for the mutex, with the first boosted. */
  function Boosted(state: State, current: nat): Pair {
    Pair(Two(LOW.(prio := 3, state := state),
             HIGH.(state := Blocked, blockedOn := Some(0), reason := MutexLock, delay := 1), [0], [], [1], current),
         Mx(Some(0), 1, 5, [1]))
  }

  lemma AloneRuns() returns (s1: Sys)
    ensures Create(NewObject(Boot()), 5) == s1 && SelectNext(s1) == Alone()
  {
    s1 := Sys([LOW], Boot().ready[5 := [0]], [], [[]], None);
    assert Splice<nat>([], 0, 0) == [0];
    assert Create(NewObject(Boot()), 5) == s1;
    TopUnique(s1.ready, 5);
  }

  lemma SecondJoins()
    ensures Create(Alone(), 3) == Joined(0).s && SelectNext(Joined(0).s) == Joined(1).s
  {
    assert Splice<nat>([], 0, 1) == [1];
    assert Create(Alone(), 3) == Joined(0).s;
    TopUnique(Joined(0).s.ready, 3);
  }

  lemma SecondBoosts()
    ensures LockSys(Joined(1).s, Joined(1).m, 0, 1) == Boosted(Ready, 1).s
    ensures LockMx(Joined(1).s.tasks, Joined(1).m, 1, true) == Boosted(Ready, 1).m
  {
    var x := Joined(1);
    assert Splice<nat>([], 0, 1) == [1] && Splice<nat>([1], 1, 0) == [1, 0];
    assert Without([0], 0) == [] && Without([1, 0], 1) == [0];
    assert BoostSys(x.s, x.m) == Two(LOW.(prio := 3), HIGH.(state := Running), [1, 0], [], [], 1);
  }

  lemma FirstRunsOn()
    ensures SelectNext(Boosted(Ready, 1).s) == Boosted(Running, 0).s
  {
    TopUnique(Boosted(Ready, 1).s.ready, 3);
  }

  /** From there on: the owner is boosted and runs again. */
  lemma JoinedLeads() returns (acts: seq<Act>)
    ensures Leads(Joined(0), acts, Boosted(Running, 0))
  {
    var y := Boosted(Running, 0);
    SecondJoins();
    SecondBoosts();
    FirstRunsOn();
    acts := Then(Boosted(Ready, 1), DoCall(DoSelect), y, [], y);
    acts := Then(Joined(1), DoLock(1), Boosted(Ready, 1), acts, y);
    acts := Then(Joined(0), DoCall(DoSelect), Joined(1), acts, y);
  }

  lemma AloneLeads() returns (acts: seq<Act>)
    ensures Leads(Pair(Alone(), NEW_MUTEX), acts, Boosted(Running, 0))
  {
    var y, m1 := Boosted(Running, 0), Mx(Some(0), 1, 5, []);
    SecondJoins();
    acts := JoinedLeads();
    acts := Then(Pair(Alone(), m1), DoCall(DoCreate(3)), Joined(0), acts, y);
    acts := Then(Pair(Alone(), NEW_MUTEX), DoLock(1), Pair(Alone(), m1), acts, y);
  }

  lemma BootLeads() returns (acts: seq<Act>)
    ensures Leads(Pair(NewObject(Boot()), NEW_MUTEX), acts, Boosted(Running, 0))
  {
    var y := Boosted(Running, 0);
    var s1 := AloneRuns();
    acts := AloneLeads();
    acts := Then(Pair(s1, NEW_MUTEX), DoCall(DoSelect), Pair(Alone(), NEW_MUTEX), acts, y);
    acts := Then(Pair(NewObject(Boot()), NEW_MUTEX), DoCall(DoCreate(5)), Pair(s1, NEW_MUTEX), acts, y);
  }

  /** Its unlock puts its priority back to 5, and it stays on the ready list of priority 3. */
  lemma LeftBehind()
    ensures CanCall(Boosted(Running, 0).s)
    ensures var d := UnlockSys(Boosted(Running, 0).s, Boosted(Running, 0).m);
      |d.tasks| == 2 && |d.ready| == NUM_PRIORITIES && d.tasks[0].prio == 5 && d.ready[3] == [0, 1] && d.ready[5] == []
  {
    assert Splice([0], 1, 1) == [0, 1];
  }

  /**
   From boot: a task of priority 5 takes the mutex, one of priority 3 is created, runs, boosts it and waits, and the
   first runs on. Everything is in order, and its unlock ends that (LeftBehind says how).
   */
  lemma BoostedUnlockReachable() returns (acts: seq<Act>)
    ensures Leads(Pair(NewObject(Boot()), NEW_MUTEX), acts, Boosted(Running, 0))
    ensures var y := Boosted(Running, 0); Inv(y.s) && ActEnabled(y, 0, DoUnlock) && !Inv(ActStep(y, 0, DoUnlock).s)
  {
    acts := BootLeads();
    BootInv();
    NewObjectInv(Boot());
    EndsInOrder(Pair(NewObject(Boot()), NEW_MUTEX), 0, acts);
    LeftBehind();
    ActInvIff(Boosted(Running, 0), 0, DoUnlock);
  }
}
