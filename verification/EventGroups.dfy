/**
 Event groups (kernel/eventgroup.c): a loop that wakes waiters and clears bits while it walks their list, and
 the proof that it never leaves a waiter asleep whose condition holds.
 */
module EventGroups {
  import opened KernelTypes
  import opened KernelSpec
  import opened KernelSteps
  import opened WaitLists
  import opened Kernels
  import opened Resumes
  import opened Effects
  import opened Bits

  const WAIT_ALL: bv32 := 0x8000_0000
  const CLEAR_ON_EXIT: bv32 := 0x4000_0000

  // ---------- The steps on values ----------

  /** The test that os_eventgroup_wait_bits and prv_check_condition both make. */
  predicate Met(bits: bv32, wanted: bv32, options: bv32) {
    if options & WAIT_ALL != 0 then bits & wanted == wanted else bits & wanted != 0
  }

  /** prv_check_condition */
  predicate Cond(bits: bv32, r: Task) {
    Met(bits, r.waitBits, r.waitOptions)
  }

  function ClearedOnExit(bits: bv32, wanted: bv32, options: bv32): bv32 {
    if options & CLEAR_ON_EXIT != 0 then bits & !wanted else bits
  }

  /** The kernel and the bits of one event group. */
  datatype Group = Group(s: Sys, bits: bv32)

  /** One iteration of the loop of os_eventgroup_set_bits. */
  function Visit(e: Group, t: nat): Group {
    if t >= |e.s.tasks| || !Cond(e.bits, e.s.tasks[t]) then e
    else
      var r := e.s.tasks[t].(returnBits := e.bits);
      Group(Release(Put(e.s, t, r), t), ClearedOnExit(e.bits, r.waitBits, r.waitOptions))
  }

  /** The loop: a fold over the waiters in list order, each seeing the bits its predecessors left. */
  function Sweep(e: Group, todo: seq<nat>): Group
    decreases |todo|
  {
    if todo == [] then e else Sweep(Visit(e, todo[0]), todo[1..])
  }

  function SetBits(e: Group, w: nat, b: bv32): Group
    requires w < |e.s.waits|
  {
    Sweep(e.(bits := e.bits | b), e.s.waits[w])
  }

  /** os_eventgroup_clear_bits */
  function ClearBits(e: Group, b: bv32): Group {
    e.(bits := e.bits & !b)
  }

  /** prv_block_task with the wait condition recorded. */
  function ParkFor(s: Sys, w: nat, wanted: bv32, options: bv32, timeout: nat): Sys
    requires CanCall(s)
  {
    var t := s.current.value;
    Park(Put(s, t, s.tasks[t].(waitBits := wanted, waitOptions := options, returnBits := 0)), w, EventWait, timeout)
  }

  /** os_eventgroup_wait_bits up to its return or to the point where the caller is parked. */
  function WaitBits(e: Group, w: nat, wanted: bv32, options: bv32, timeout: nat): Group
    requires CanCall(e.s)
  {
    if Met(e.bits, wanted, options) then e.(bits := ClearedOnExit(e.bits, wanted, options))
    else if timeout == 0 then e
    else e.(s := ParkFor(e.s, w, wanted, options, timeout))
  }

  // ---------- Bits ----------

  /** With WAIT_ALL every bit wanted is on, without it some bit is both wanted and on. */
  ghost predicate Satisfied(bits: bv32, wanted: bv32, options: bv32) {
    if options & WAIT_ALL != 0 then forall m :: IsBit(m) && On(wanted, m) ==> On(bits, m)
    else exists m :: IsBit(m) && On(wanted, m) && On(bits, m)
  }

  lemma MetIff(bits: bv32, wanted: bv32, options: bv32)
    ensures Met(bits, wanted, options) <==> Satisfied(bits, wanted, options)
  {
    AllIff(bits, wanted);
    AnyIff(bits, wanted);
  }

  /** What clear-on-exit takes away: the wanted bits, and only those. */
  lemma ClearedBits(bits: bv32, wanted: bv32, options: bv32, m: bv32)
    requires IsBit(m)
    ensures On(ClearedOnExit(bits, wanted, options), m) <==>
      On(bits, m) && !(options & CLEAR_ON_EXIT != 0 && On(wanted, m))
  {
    OnAfterClear(bits, wanted, m);
  }

  /** The condition of a waiter. */
  ghost predicate Content(bits: bv32, r: Task) {
    Satisfied(bits, r.waitBits, r.waitOptions)
  }

  lemma CondIff(bits: bv32, r: Task)
    ensures Cond(bits, r) <==> Content(bits, r)
  {
    MetIff(bits, r.waitBits, r.waitOptions);
  }

  /** Clearing bits never makes a condition true. */
  lemma ClearingNeverMeets(bits: bv32, gone: bv32, wanted: bv32, options: bv32)
    requires !Met(bits, wanted, options)
    ensures !Met(bits & !gone, wanted, options)
  {
    NotAll(bits, gone, wanted);
    NotAny(bits, gone, wanted);
  }

  lemma NotAll(bits: bv32, gone: bv32, wanted: bv32)
    ensures bits & wanted != wanted ==> (bits & !gone) & wanted != wanted
  {
  }

  lemma NotAny(bits: bv32, gone: bv32, wanted: bv32)
    ensures bits & wanted == 0 ==> (bits & !gone) & wanted == 0
  {
  }

  // ---------- The walk ----------

  lemma VisitEffect(e: Group, w: nat, k: nat)
    requires Inv(e.s) && w < |e.s.waits| && k < |e.s.waits[w]|
    ensures var t := e.s.waits[w][k]; t < |e.s.tasks| && HomeOf(e.s.tasks[t]) == OnWait(w)
    ensures var t, d := e.s.waits[w][k], Visit(e, e.s.waits[w][k]);
      && Inv(d.s) && |d.s.waits| == |e.s.waits| && d.s.current == e.s.current
      && if Cond(e.bits, e.s.tasks[t]) then
           && d.s.waits[w] == Cut(e.s.waits[w], k)
           && d.s.tasks == e.s.tasks[t := e.s.tasks[t].(returnBits := e.bits, blockedOn := None, reason := NoReason,
                                                        delay := 0, timedOut := false, state := Ready)]
           && d.bits == ClearedOnExit(e.bits, e.s.tasks[t].waitBits, e.s.tasks[t].waitOptions)
         else d == e
  {
    WaitersAreOn(e.s, {}, w);
    var t := e.s.waits[w][k];
    if Cond(e.bits, e.s.tasks[t]) {
      var r := e.s.tasks[t].(returnBits := e.bits);
      InvAt(e.s, t);
      TouchInv(e.s, t, r);
      ReleaseWaiters(Put(e.s, t, r), w, k);
      ReleaseInv(Put(e.s, t, r), t);
    }
  }

  /** The part of the list behind the visited waiter is as it was, and so is the visited waiter's own successor. */
  lemma VisitSuffix(e: Group, w: nat, todo: seq<nat>)
    requires Inv(e.s) && w < |e.s.waits| && IsSuffix(todo, e.s.waits[w]) && todo != []
    ensures todo[0] < |e.s.tasks| && HomeOf(e.s.tasks[todo[0]]) == OnWait(w)
    ensures NextOf(e.s, todo[0]) == First(todo[1..])
    ensures var d := Visit(e, todo[0]); Inv(d.s) && w < |d.s.waits| && IsSuffix(todo[1..], d.s.waits[w])
  {
    var l := e.s.waits[w];
    var k := |l| - |todo|;
    assert todo[0] == l[k] && todo[1..] == l[k + 1..];
    VisitEffect(e, w, k);
    assert ListOf(e.s, OnWait(w)) == l && NoDup(ListOf(e.s, OnWait(w)));
    SuccAt(l, k);
  }

  /** No waiter in l has its condition true. */
  predicate NoneMet(s: Sys, bits: bv32, l: seq<nat>) {
    forall i :: 0 <= i < |l| ==> l[i] < |s.tasks| && !Cond(bits, s.tasks[l[i]])
  }

  ghost predicate NoneSatisfied(s: Sys, bits: bv32, l: seq<nat>) {
    forall i :: 0 <= i < |l| ==>
      l[i] < |s.tasks| && !Content(bits, s.tasks[l[i]])
  }

  lemma NoneMetIff(s: Sys, bits: bv32, l: seq<nat>)
    ensures NoneMet(s, bits, l) <==> NoneSatisfied(s, bits, l)
  {
    forall i | 0 <= i < |l| && l[i] < |s.tasks|
      ensures Cond(bits, s.tasks[l[i]]) <==> Content(bits, s.tasks[l[i]])
    {
      CondIff(bits, s.tasks[l[i]]);
    }
  }

  /** Visiting one more waiter: the part of the list already walked holds no true condition. */
  lemma VisitNoneMet(e: Group, w: nat, k: nat)
    requires Inv(e.s) && w < |e.s.waits| && k < |e.s.waits[w]| && NoneMet(e.s, e.bits, e.s.waits[w][..k])
    ensures var d := Visit(e, e.s.waits[w][k]);
      && w < |d.s.waits| && |d.s.waits[w]| >= |e.s.waits[w]| - k - 1
      && NoneMet(d.s, d.bits, d.s.waits[w][..|d.s.waits[w]| - (|e.s.waits[w]| - k - 1)])
  {
    var l, t := e.s.waits[w], e.s.waits[w][k];
    var d := Visit(e, t);
    VisitEffect(e, w, k);
    if Cond(e.bits, e.s.tasks[t]) {
      assert d.s.waits[w][..k] == l[..k];
      assert NoDup(ListOf(e.s, OnWait(w)));
      forall i | 0 <= i < k ensures l[i] < |d.s.tasks| && !Cond(d.bits, d.s.tasks[l[i]]) {
        assert l[..k][i] == l[i] && !Cond(e.bits, e.s.tasks[l[..k][i]]);
        var r := e.s.tasks[l[i]];
        if e.s.tasks[t].waitOptions & CLEAR_ON_EXIT != 0 {
          ClearingNeverMeets(e.bits, e.s.tasks[t].waitBits, r.waitBits, r.waitOptions);
        }
      }
    } else {
      assert l[..k + 1] == l[..k] + [t];
    }
  }

  /** The waiters in front of todo, already walked past, have no true condition. */
  predicate WalkedPast(e: Group, w: nat, todo: seq<nat>) {
    && w < |e.s.waits| && IsSuffix(todo, e.s.waits[w])
    && NoneMet(e.s, e.bits, e.s.waits[w][..|e.s.waits[w]| - |todo|])
  }

  lemma VisitWalksPast(e: Group, w: nat, todo: seq<nat>)
    requires Inv(e.s) && WalkedPast(e, w, todo) && todo != []
    ensures Inv(Visit(e, todo[0]).s) && WalkedPast(Visit(e, todo[0]), w, todo[1..])
  {
    var k := |e.s.waits[w]| - |todo|;
    VisitSuffix(e, w, todo);
    NoneMetAt(e, w, todo, k);
  }

  lemma NoneMetAt(e: Group, w: nat, todo: seq<nat>, k: nat)
    requires Inv(e.s) && WalkedPast(e, w, todo) && todo != [] && k == |e.s.waits[w]| - |todo|
    ensures var d := Visit(e, todo[0]);
      && w < |d.s.waits| && |d.s.waits[w]| >= |todo[1..]|
      && NoneMet(d.s, d.bits, d.s.waits[w][..|d.s.waits[w]| - |todo[1..]|])
  {
    assert todo[0] == e.s.waits[w][k] && |todo[1..]| == |e.s.waits[w]| - k - 1;
    VisitNoneMet(e, w, k);
  }

  lemma {:induction false} SweepNoneMet(e: Group, w: nat, todo: seq<nat>)
    requires Inv(e.s) && WalkedPast(e, w, todo)
    ensures Inv(Sweep(e, todo).s) && WalkedPast(Sweep(e, todo), w, [])
    decreases |todo|
  {
    if todo != [] {
      VisitWalksPast(e, w, todo);
      SweepNoneMet(Visit(e, todo[0]), w, todo[1..]);
    }
  }

  /** After os_eventgroup_set_bits no waiter is left whose condition holds. */
  lemma SetBitsNoneMet(e: Group, w: nat, b: bv32)
    requires Inv(e.s) && w < |e.s.waits|
    ensures var d := SetBits(e, w, b);
      && Inv(d.s) && w < |d.s.waits| && NoneMet(d.s, d.bits, d.s.waits[w])
      && NoneSatisfied(d.s, d.bits, d.s.waits[w])
  {
    SweepNoneMet(e.(bits := e.bits | b), w, e.s.waits[w]);
    var d := SetBits(e, w, b);
    assert d.s.waits[w][..|d.s.waits[w]|] == d.s.waits[w];
    NoneMetIff(d.s, d.bits, d.s.waits[w]);
  }

  /** What a sweep can do to one waiter: leave it be, or wake it with bits that meet its condition. */
  predicate Served(r: Task, r': Task) {
    if r'.state == Blocked then r' == r
    else
      && r'.state == Ready && r'.blockedOn == None && !r'.timedOut && r'.delay == 0
      && r'.waitBits == r.waitBits && r'.waitOptions == r.waitOptions && r'.prio == r.prio
      && Cond(r'.returnBits, r)
  }

  /** Every task is left alone unless it was still to be visited, and is served properly if it was. */
  lemma {:induction false} SweepServes(e: Group, w: nat, todo: seq<nat>, t: nat)
    requires Inv(e.s) && w < |e.s.waits| && IsSuffix(todo, e.s.waits[w]) && NoDup(todo) && t < |e.s.tasks|
    ensures var d := Sweep(e, todo);
      && |d.s.tasks| == |e.s.tasks|
      && (if t in todo then Served(e.s.tasks[t], d.s.tasks[t]) else d.s.tasks[t] == e.s.tasks[t])
    decreases |todo|
  {
    if todo != [] {
      FirstVisit(e, w, todo, t);
      SweepServes(Visit(e, todo[0]), w, todo[1..], t);
    }
  }

  lemma FirstVisit(e: Group, w: nat, todo: seq<nat>, t: nat)
    requires Inv(e.s) && w < |e.s.waits| && IsSuffix(todo, e.s.waits[w]) && NoDup(todo) && todo != []
    requires t < |e.s.tasks|
    ensures t in todo <==> t == todo[0] || t in todo[1..]
    ensures NoDup(todo[1..]) && todo[0] !in todo[1..]
    ensures var d := Visit(e, todo[0]);
      && Inv(d.s) && w < |d.s.waits| && IsSuffix(todo[1..], d.s.waits[w]) && |d.s.tasks| == |e.s.tasks|
      && (if t == todo[0] then Served(e.s.tasks[t], d.s.tasks[t]) else d.s.tasks[t] == e.s.tasks[t])
  {
    VisitSuffix(e, w, todo);
    VisitOne(e, w, todo, t);
    NoDupTail(todo);
    assert todo == [todo[0]] + todo[1..];
  }

  lemma VisitOne(e: Group, w: nat, todo: seq<nat>, t: nat)
    requires Inv(e.s) && w < |e.s.waits| && IsSuffix(todo, e.s.waits[w]) && todo != [] && t < |e.s.tasks|
    ensures var d := Visit(e, todo[0]);
      && |d.s.tasks| == |e.s.tasks|
      && (if t == todo[0] then Served(e.s.tasks[t], d.s.tasks[t]) else d.s.tasks[t] == e.s.tasks[t])
  {
    assert todo[0] == e.s.waits[w][|e.s.waits[w]| - |todo|];
    VisitEffect(e, w, |e.s.waits[w]| - |todo|);
  }

  /** a holds no bit that b lacks. */
  predicate Within(a: bv32, b: bv32) {
    a & !b == 0
  }

  lemma WithinTrans(a: bv32, b: bv32, c: bv32)
    requires Within(a, b) && Within(b, c)
    ensures Within(a, c)
  {
  }

  lemma VisitShrinks(e: Group, t: nat)
    ensures Within(Visit(e, t).bits, e.bits)
  {
    ClearShrinks(e.bits, 0);
    if t < |e.s.tasks| { ClearShrinks(e.bits, e.s.tasks[t].waitBits); }
  }

  /** The bits of b are off in after, and the others are as they were before. */
  predicate TurnedOff(before: bv32, after: bv32, b: bv32) {
    after & b == 0 && after & !b == before & !b
  }

  lemma TurnsOff(bits: bv32, b: bv32)
    ensures TurnedOff(bits, bits & !b, b)
  {
  }

  lemma ClearShrinks(bits: bv32, gone: bv32)
    ensures Within(bits & !gone, bits) && Within(bits, bits)
  {
  }

  /** Within one call no bit comes back once a woken waiter has cleared it. */
  lemma {:induction false} SweepShrinks(e: Group, todo: seq<nat>)
    ensures Within(Sweep(e, todo).bits, e.bits)
    decreases |todo|
  {
    if todo == [] {
      ClearShrinks(e.bits, 0);
    } else {
      VisitShrinks(e, todo[0]);
      SweepShrinks(Visit(e, todo[0]), todo[1..]);
      WithinTrans(Sweep(e, todo).bits, Visit(e, todo[0]).bits, e.bits);
    }
  }

  /** The first waiter whose condition holds is woken, and is given all the bits. */
  lemma {:induction false} SweepWakesFirst(e: Group, w: nat, todo: seq<nat>, k: nat)
    requires Inv(e.s) && w < |e.s.waits| && IsSuffix(todo, e.s.waits[w]) && NoDup(todo) && k < |todo|
    requires forall i :: 0 <= i < |todo| ==> todo[i] < |e.s.tasks|
    requires Cond(e.bits, e.s.tasks[todo[k]]) && forall i :: 0 <= i < k ==> !Cond(e.bits, e.s.tasks[todo[i]])
    ensures var d := Sweep(e, todo);
      && todo[k] < |d.s.tasks| && d.s.tasks[todo[k]].state == Ready && d.s.tasks[todo[k]].returnBits == e.bits
    decreases |todo|
  {
    VisitSuffix(e, w, todo);
    NoDupTail(todo);
    if k == 0 {
      VisitEffect(e, w, |e.s.waits[w]| - |todo|);
      SweepServes(Visit(e, todo[0]), w, todo[1..], todo[0]);
    } else {
      SweepWakesFirst(e, w, todo[1..], k - 1);
    }
  }

  // ---------- The object ----------

  class EventGroup {
    const kernel: Kernel
    var bits: bv32
    const w: nat                  // stands for the address of wait_list

    /** os_eventgroup_create */
    constructor (k: Kernel, ghost s: Sys)
      requires k.Rep(s) && Inv(s)
      modifies k`waitLists
      ensures kernel == k && k.Rep(NewObject(s)) && Inv(NewObject(s)) && bits == 0 && w == |s.waits|
    {
      kernel, bits := k, 0;
      var v := k.NewWaitList(s);
      w := v;
    }

    /** os_eventgroup_clear_bits: the named bits are off and the others as they were; see also ClearKeepsInv. */
    method Clear(b: bv32)
      modifies this`bits
      ensures TurnedOff(old(bits), bits, b)
    {
      TurnsOff(bits, b);
      bits := bits & !b;
    }

    /** One iteration of the loop below. */
    method VisitWaiter(t: Tcb, ghost e: Group)
      requires kernel.Rep(e.s) && Inv(e.s) && kernel.Known(t) && bits == e.bits
      requires t.task.blockedOn.Some?
      modifies this`bits, t`task
      modifies kernel`ready, kernel`bitmap, kernel`waitLists, kernel.tcbs`next, kernel.tcbs`prev
      ensures kernel.Rep(Visit(e, t.id).s) && bits == Visit(e, t.id).bits
    {
      if Cond(bits, t.task) {
        var wanted, options := t.task.waitBits, t.task.waitOptions;
        WakeWith(t, e.s);
        ClearFor(wanted, options);
      }
    }

    /** What a woken waiter takes with it. */
    method ClearFor(wanted: bv32, options: bv32)
      modifies this`bits
      ensures bits == ClearedOnExit(old(bits), wanted, options)
    {
      if options & CLEAR_ON_EXIT != 0 {
        bits := bits & !wanted;
      }
    }

    /** The waiter is told the bits it woke on, and goes from the wait list to its ready list. */
    method WakeWith(t: Tcb, ghost s: Sys)
      requires kernel.Rep(s) && Inv(s) && kernel.Known(t) && t.task.blockedOn.Some?
      modifies t`task
      modifies kernel`ready, kernel`bitmap, kernel`waitLists, kernel.tcbs`next, kernel.tcbs`prev
      ensures kernel.Rep(Release(Put(s, t.id, s.tasks[t.id].(returnBits := bits)), t.id))
    {
      ghost var r := t.task.(returnBits := bits);
      InvAt(s, t.id);
      TouchInv(s, t.id, r);
      kernel.Store(t, t.task.(returnBits := bits), s);
      kernel.Wake(t, Put(s, t.id, r));
    }

    /** os_eventgroup_set_bits and its interrupt variant, but for the yield they ask for. */
    method Set(b: bv32, ghost e: Group)
      requires kernel.Rep(e.s) && Inv(e.s) && bits == e.bits && w < |e.s.waits|
      modifies this`bits
      modifies kernel`ready, kernel`bitmap, kernel`waitLists, kernel.tcbs`next, kernel.tcbs`prev, kernel.tcbs`task
      ensures kernel.Rep(SetBits(e, w, b).s) && bits == SetBits(e, w, b).bits
    {
      ghost var e1 := e.(bits := e.bits | b);
      SetBitsIsSweep(e, e1, b);
      bits := bits | b;
      WalkWaiters(e1);
    }

    lemma SetBitsIsSweep(e: Group, e1: Group, b: bv32)
      requires w < |e.s.waits| && e1 == e.(bits := e.bits | b)
      ensures SetBits(e, w, b) == Sweep(e1, e1.s.waits[w])
    {
    }

    /** The loop of os_eventgroup_set_bits, which unlinks waiters and clears bits as it goes. */
    method WalkWaiters(ghost e: Group)
      requires kernel.Rep(e.s) && Inv(e.s) && bits == e.bits && w < |e.s.waits|
      modifies this`bits
      modifies kernel`ready, kernel`bitmap, kernel`waitLists, kernel.tcbs`next, kernel.tcbs`prev, kernel.tcbs`task
      ensures kernel.Rep(Sweep(e, e.s.waits[w]).s) && bits == Sweep(e, e.s.waits[w]).bits
    {
      var t := kernel.waitLists[w];
      ghost var cur: Group, todo: seq<nat> := e, e.s.waits[w];
      while t != null
        invariant kernel.tcbs == old(kernel.tcbs) && kernel.Rep(cur.s) && Inv(cur.s) && kernel.Known(t)
        invariant bits == cur.bits && w < |cur.s.waits|
        invariant IsSuffix(todo, cur.s.waits[w]) && IdOf(t) == First(todo)
        invariant Sweep(cur, todo) == Sweep(e, e.s.waits[w])
        decreases |todo|
      {
        var next := t.next;
        NextWaiter(cur, todo);
        VisitWaiter(t, cur);
        cur, todo := Visit(cur, t.id), todo[1..];
        t := next;
      }
    }

    lemma NextWaiter(e: Group, todo: seq<nat>)
      requires Inv(e.s) && w < |e.s.waits| && IsSuffix(todo, e.s.waits[w]) && todo != []
      ensures todo[0] < |e.s.tasks| && e.s.tasks[todo[0]].blockedOn.Some?
      ensures Nexts(e.s)[todo[0]] == First(todo[1..])
      ensures var d := Visit(e, todo[0]); Inv(d.s) && w < |d.s.waits| && IsSuffix(todo[1..], d.s.waits[w])
    {
      VisitSuffix(e, w, todo);
      assert Nexts(e.s)[todo[0]] == NextOf(e.s, todo[0]);
    }

    /** os_eventgroup_wait_bits up to its return, or up to the point where the caller is parked. */
    method Wait(wanted: bv32, options: bv32, timeout: nat, ghost e: Group) returns (parked: bool, result: bv32)
      requires kernel.Rep(e.s) && Inv(e.s) && CanCall(e.s) && bits == e.bits && w < |e.s.waits|
      modifies this`bits
      modifies kernel`ready, kernel`bitmap, kernel`waitLists, kernel.tcbs`next, kernel.tcbs`prev, kernel.tcbs`task
      ensures kernel.Rep(WaitBits(e, w, wanted, options, timeout).s) &&
          bits == WaitBits(e, w, wanted, options, timeout).bits
      ensures parked <==> !Satisfied(e.bits, wanted, options) && timeout != 0
      ensures result == if Satisfied(e.bits, wanted, options) then e.bits else 0
    {
      MetIff(bits, wanted, options);
      if Met(bits, wanted, options) {
        result := bits;
        ClearFor(wanted, options);
        return false, result;
      }
      if timeout == 0 {
        return false, 0;
      }
      Park(wanted, options, timeout, e.s);
      return true, 0;
    }

    /** prv_block_task for the caller. */
    method Park(wanted: bv32, options: bv32, timeout: nat, ghost s: Sys)
      requires kernel.Rep(s) && Inv(s) && CanCall(s) && w < |s.waits|
      modifies kernel`ready, kernel`bitmap, kernel`waitLists, kernel.tcbs`next, kernel.tcbs`prev, kernel.tcbs`task
      ensures kernel.Rep(ParkFor(s, w, wanted, options, timeout))
    {
      var t := kernel.current;
      ghost var r := t.task.(waitBits := wanted, waitOptions := options, returnBits := 0);
      InvAt(s, t.id);
      TouchInv(s, t.id, r);
      kernel.Store(t, t.task.(waitBits := wanted, waitOptions := options, returnBits := 0), s);
      kernel.BlockOn(t, w, EventWait, timeout, Put(s, t.id, r));
    }
  }

  // ---------- Whole runs ----------

  datatype GroupOp =
    | DoSet(b: bv32)
    | DoClear(b: bv32)
    | DoWait(wanted: bv32, options: bv32, timeout: nat)
    | DoOther(op: Op)

  predicate GroupEnabled(e: Group, w: nat, op: GroupOp) {
    match op
    case DoSet(_) => true
    case DoClear(_) => true
    case DoWait(_, _, _) => CanCall(e.s)
    case DoOther(o) => Enabled(e.s, o) && Foreign(o, w)
  }

  function GroupStep(e: Group, w: nat, op: GroupOp): Group
    requires w < |e.s.waits| && GroupEnabled(e, w, op)
  {
    match op
    case DoSet(b) => SetBits(e, w, b)
    case DoClear(b) => ClearBits(e, b)
    case DoWait(wanted, options, timeout) => WaitBits(e, w, wanted, options, timeout)
    case DoOther(o) => e.(s := Step(e.s, o))
  }

  /** No lost wakeup: nobody waits for a condition that holds. */
  ghost predicate GroupInv(e: Group, w: nat) {
    Inv(e.s) && w < |e.s.waits| && NoneMet(e.s, e.bits, e.s.waits[w])
  }

  lemma FewerNoneMet(s: Sys, s': Sys, w: nat, bits: bv32)
    requires OnlyFewer(s, s', w) && NoneMet(s, bits, s.waits[w])
    ensures NoneMet(s', bits, s'.waits[w])
  {
    forall i | 0 <= i < |s'.waits[w]| ensures s'.waits[w][i] < |s'.tasks| && !Cond(bits, s'.tasks[s'.waits[w][i]]) {
      var x := s'.waits[w][i];
      assert x in s'.waits[w];
      var j :| 0 <= j < |s.waits[w]| && s.waits[w][j] == x;
    }
  }

  lemma WaitKeepsInv(e: Group, w: nat, wanted: bv32, options: bv32, timeout: nat)
    requires GroupInv(e, w) && CanCall(e.s)
    ensures GroupInv(WaitBits(e, w, wanted, options, timeout), w)
  {
    if Met(e.bits, wanted, options) {
      if options & CLEAR_ON_EXIT != 0 {
        ClearKeepsInv(e, w, wanted);
      }
    } else if timeout != 0 {
      ParkForKeepsInv(e, w, wanted, options, timeout);
    }
  }

  lemma ClearKeepsInv(e: Group, w: nat, gone: bv32)
    requires GroupInv(e, w)
    ensures GroupInv(ClearBits(e, gone), w)
  {
    forall i | 0 <= i < |e.s.waits[w]| ensures !Cond(e.bits & !gone, e.s.tasks[e.s.waits[w][i]]) {
      var r := e.s.tasks[e.s.waits[w][i]];
      ClearingNeverMeets(e.bits, gone, r.waitBits, r.waitOptions);
    }
  }

  lemma ParkForInv(s: Sys, w: nat, wanted: bv32, options: bv32, timeout: nat)
    requires Inv(s) && CanCall(s) && w < |s.waits|
    ensures Inv(Put(s, s.current.value, s.tasks[s.current.value].(waitBits := wanted, waitOptions := options,
        returnBits := 0)))
    ensures Inv(ParkFor(s, w, wanted, options, timeout))
  {
    var t := s.current.value;
    var r := s.tasks[t].(waitBits := wanted, waitOptions := options, returnBits := 0);
    InvAt(s, t);
    TouchInv(s, t, r);
    ParkInv(Put(s, t, r), w, EventWait, timeout);
  }

  lemma ParkForWaiters(s: Sys, w: nat, wanted: bv32, options: bv32, timeout: nat)
    requires Inv(s) && CanCall(s) && w < |s.waits|
    ensures var t, d := s.current.value, ParkFor(s, w, wanted, options, timeout);
      && w < |d.waits| && |d.tasks| == |s.tasks|
      && d.tasks[t].waitBits == wanted && d.tasks[t].waitOptions == options
      && (forall x :: 0 <= x < |s.tasks| && x != t ==> d.tasks[x] == s.tasks[x])
      && (forall x :: x in d.waits[w] ==> x == t || x in s.waits[w])
  {
    var t := s.current.value;
    var s1 := Put(s, t, s.tasks[t].(waitBits := wanted, waitOptions := options, returnBits := 0));
    ParkForInv(s, w, wanted, options, timeout);
    ParkWaiters(s1, w, EventWait, timeout);
    SpliceOnlyAdds(s.waits[w], InsertPos(s1.waits[w], s1.tasks, s1.tasks[t].prio), t);
  }

  lemma ParkForKeepsInv(e: Group, w: nat, wanted: bv32, options: bv32, timeout: nat)
    requires GroupInv(e, w) && CanCall(e.s) && !Met(e.bits, wanted, options)
    ensures GroupInv(e.(s := ParkFor(e.s, w, wanted, options, timeout)), w)
  {
    var d := ParkFor(e.s, w, wanted, options, timeout);
    ParkForInv(e.s, w, wanted, options, timeout);
    ParkForWaiters(e.s, w, wanted, options, timeout);
    WaitersAreOn(d, {}, w);
    forall i | 0 <= i < |d.waits[w]| ensures !Cond(e.bits, d.tasks[d.waits[w][i]]) {
      assert d.waits[w][i] in d.waits[w];
    }
  }

  lemma GroupStepKeepsInv(e: Group, w: nat, op: GroupOp)
    requires GroupInv(e, w) && GroupEnabled(e, w, op)
    ensures GroupInv(GroupStep(e, w, op), w)
  {
    match op
    case DoSet(b) => SetBitsNoneMet(e, w, b);
    case DoClear(b) => ClearKeepsInv(e, w, b);
    case DoWait(wanted, options, timeout) => WaitKeepsInv(e, w, wanted, options, timeout);
    case DoOther(o) =>
      StepInv(e.s, o);
      ForeignOnlyFewer(e.s, o, w);
      FewerNoneMet(e.s, Step(e.s, o), w, e.bits);
  }

  predicate GroupCanRun(e: Group, w: nat, ops: seq<GroupOp>)
    decreases |ops|
  {
    w < |e.s.waits| && (ops != [] ==> GroupEnabled(e, w, ops[0]) && GroupCanRun(GroupStep(e, w, ops[0]), w, ops[1..]))
  }

  function GroupRun(e: Group, w: nat, ops: seq<GroupOp>): Group
    requires GroupCanRun(e, w, ops)
    decreases |ops|
  {
    if ops == [] then e else GroupRun(GroupStep(e, w, ops[0]), w, ops[1..])
  }

  lemma {:induction false} GroupRunInv(e: Group, w: nat, ops: seq<GroupOp>)
    requires GroupInv(e, w) && GroupCanRun(e, w, ops)
    ensures GroupInv(GroupRun(e, w, ops), w)
    decreases |ops|
  {
    if ops != [] {
      GroupStepKeepsInv(e, w, ops[0]);
      GroupRunInv(GroupStep(e, w, ops[0]), w, ops[1..]);
    }
  }

  /** From a new event group on, no reachable state has a waiter whose condition holds. */
  lemma NoLostWakeup(s: Sys, ops: seq<GroupOp>)
    requires Inv(s) && GroupCanRun(Group(NewObject(s), 0), |s.waits|, ops)
    ensures var e := GroupRun(Group(NewObject(s), 0), |s.waits|, ops);
      |s.waits| < |e.s.waits| && NoneSatisfied(e.s, e.bits, e.s.waits[|s.waits|])
  {
    NewObjectInv(s);
    GroupRunInv(Group(NewObject(s), 0), |s.waits|, ops);
    var e := GroupRun(Group(NewObject(s), 0), |s.waits|, ops);
    NoneMetIff(e.s, e.bits, e.s.waits[|s.waits|]);
  }

  // ---------- What each call does, bit by bit ----------

  /**
   A wait returns at once exactly when its condition holds, with the wanted bits cleared if asked for and no other;
   otherwise it is refused, with no timeout, or leaves its caller BLOCKED with the condition recorded.
   */
  lemma WaitEffect(e: Group, w: nat, wanted: bv32, options: bv32, timeout: nat)
    requires Inv(e.s) && CanCall(e.s) && w < |e.s.waits|
    ensures var t, d := e.s.current.value, WaitBits(e, w, wanted, options, timeout);
      if Satisfied(e.bits, wanted, options) then
        && d.s == e.s
        && forall m :: IsBit(m) ==>
             (On(d.bits, m) <==> On(e.bits, m) && !(options & CLEAR_ON_EXIT != 0 && On(wanted, m)))
      else
        && d.bits == e.bits
        && if timeout == 0 then d.s == e.s
           else
             var r := e.s.tasks[t].(waitBits := wanted, waitOptions := options, returnBits := 0);
             Parks(e.s.(tasks := e.s.tasks[t := r]), d.s, t, w, EventWait, timeout)
  {
    MetIff(e.bits, wanted, options);
    if Met(e.bits, wanted, options) {
      forall m | IsBit(m)
        ensures On(WaitBits(e, w, wanted, options, timeout).bits, m) <==>
          On(e.bits, m) && !(options & CLEAR_ON_EXIT != 0 && On(wanted, m))
      {
        ClearedBits(e.bits, wanted, options, m);
      }
    } else if timeout != 0 {
      var t := e.s.current.value;
      ParkForInv(e.s, w, wanted, options, timeout);
      ParkEffect(Put(e.s, t, e.s.tasks[t].(waitBits := wanted, waitOptions := options, returnBits := 0)), w, EventWait,
                 timeout);
    }
  }

  /** A clear turns off the named bits, and nothing else happens. */
  lemma ClearEffect(e: Group, b: bv32, m: bv32)
    requires IsBit(m)
    ensures ClearBits(e, b).s == e.s && (On(ClearBits(e, b).bits, m) <==> On(e.bits, m) && !On(b, m))
  {
    var after := Off(e.bits, b, m);
    assert ClearBits(e, b) == Group(e.s, after);
  }

  /** A waiter with these fields takes bit m with it when it is woken. */
  predicate Wants(r: Task, m: bv32) {
    r.waitOptions & CLEAR_ON_EXIT != 0 && On(r.waitBits, m)
  }

  /** t, a waiter in s, is awake in d and has taken bit m. */
  predicate Takes(s: Sys, d: Sys, t: nat, m: bv32) {
    t < |s.tasks| && t < |d.tasks| && d.tasks[t].state == Ready && Wants(s.tasks[t], m)
  }

  /** The k-th waiter is woken exactly if the bits its predecessors left satisfy it, and is told those bits. */
  lemma {:induction false} SweepWakesIff(e: Group, w: nat, todo: seq<nat>, k: nat)
    requires Inv(e.s) && w < |e.s.waits| && IsSuffix(todo, e.s.waits[w]) && NoDup(todo) && k < |todo|
    ensures var t, left, d := todo[k], Sweep(e, todo[..k]).bits, Sweep(e, todo);
      && t < |e.s.tasks| && t < |d.s.tasks|
      && (d.s.tasks[t].state == Ready <==> Cond(left, e.s.tasks[t]))
      && (d.s.tasks[t].state == Ready ==> d.s.tasks[t].returnBits == left)
    decreases |todo|
  {
    if k > 0 {
      WaitsInTodo(e, w, todo, k);
      FirstVisit(e, w, todo, todo[k]);
      SweepWakesIff(Visit(e, todo[0]), w, todo[1..], k - 1);
      assert todo[..k][0] == todo[0] && todo[..k][1..] == todo[1..][..k - 1];
    } else {
      FirstWakesIff(e, w, todo);
    }
  }

  lemma WaitsInTodo(e: Group, w: nat, todo: seq<nat>, k: nat)
    requires Inv(e.s) && w < |e.s.waits| && IsSuffix(todo, e.s.waits[w]) && NoDup(todo) && k < |todo|
    ensures todo[k] < |e.s.tasks| && HomeOf(e.s.tasks[todo[k]]) == OnWait(w)
    ensures k > 0 ==> todo[k] != todo[0]
  {
    WaitersAreOn(e.s, {}, w);
    assert todo[k] == e.s.waits[w][|e.s.waits[w]| - |todo| + k];
  }

  lemma FirstWakesIff(e: Group, w: nat, todo: seq<nat>)
    requires Inv(e.s) && w < |e.s.waits| && IsSuffix(todo, e.s.waits[w]) && NoDup(todo) && todo != []
    ensures var t, d := todo[0], Sweep(e, todo);
      && t < |e.s.tasks| && t < |d.s.tasks|
      && (d.s.tasks[t].state == Ready <==> Cond(e.bits, e.s.tasks[t]))
      && (d.s.tasks[t].state == Ready ==> d.s.tasks[t].returnBits == e.bits)
  {
    WaitsInTodo(e, w, todo, 0);
    VisitSuffix(e, w, todo);
    NoDupTail(todo);
    VisitEffect(e, w, |e.s.waits[w]| - |todo|);
    SweepServes(Visit(e, todo[0]), w, todo[1..], todo[0]);
  }

  /** A bit is on at the end exactly if it was on before and no waiter that was woken takes it. */
  lemma {:induction false} SweepBits(e: Group, w: nat, todo: seq<nat>, m: bv32)
    requires Inv(e.s) && w < |e.s.waits| && IsSuffix(todo, e.s.waits[w]) && NoDup(todo) && IsBit(m)
    ensures var d := Sweep(e, todo);
      On(d.bits, m) <==> On(e.bits, m) && forall k :: 0 <= k < |todo| ==> !Takes(e.s, d.s, todo[k], m)
    decreases |todo|
  {
    if todo != [] {
      var v, d := Visit(e, todo[0]), Sweep(e, todo);
      WaitsInTodo(e, w, todo, 0);
      FirstVisit(e, w, todo, todo[0]);
      SweepBits(v, w, todo[1..], m);
      FirstTakes(e, w, todo, m);
      forall k | 0 <= k < |todo[1..]| ensures Takes(v.s, d.s, todo[1..][k], m) <==> Takes(e.s, d.s, todo[k + 1], m) {
        SameTaker(e, w, todo, k + 1);
      }
      OneMoreTaker(e.s, v.s, d.s, todo, m);
    }
  }

  lemma SameTaker(e: Group, w: nat, todo: seq<nat>, k: nat)
    requires Inv(e.s) && w < |e.s.waits| && IsSuffix(todo, e.s.waits[w]) && NoDup(todo) && 0 < k < |todo|
    ensures var v := Visit(e, todo[0]);
      |v.s.tasks| == |e.s.tasks| && todo[k] < |e.s.tasks| && v.s.tasks[todo[k]] == e.s.tasks[todo[k]]
  {
    WaitsInTodo(e, w, todo, k);
    FirstVisit(e, w, todo, todo[k]);
  }

  lemma OneMoreTaker(s: Sys, v: Sys, d: Sys, todo: seq<nat>, m: bv32)
    requires todo != []
    requires forall k :: 0 <= k < |todo[1..]| ==>
      (Takes(v, d, todo[1..][k], m) <==> Takes(s, d, todo[k + 1], m))
    ensures (forall k :: 0 <= k < |todo| ==> !Takes(s, d, todo[k], m)) <==>
      !Takes(s, d, todo[0], m) && forall k :: 0 <= k < |todo[1..]| ==> !Takes(v, d, todo[1..][k], m)
  {
    if !Takes(s, d, todo[0], m) && forall k :: 0 <= k < |todo[1..]| ==> !Takes(v, d, todo[1..][k], m) {
      forall k | 0 <= k < |todo| ensures !Takes(s, d, todo[k], m) {
        assert k > 0 ==> !Takes(v, d, todo[1..][k - 1], m);
      }
    }
  }

  lemma FirstTakes(e: Group, w: nat, todo: seq<nat>, m: bv32)
    requires Inv(e.s) && w < |e.s.waits| && IsSuffix(todo, e.s.waits[w]) && NoDup(todo) && todo != [] && IsBit(m)
    ensures On(Visit(e, todo[0]).bits, m) <==> On(e.bits, m) && !Takes(e.s, Sweep(e, todo).s, todo[0], m)
  {
    WaitsInTodo(e, w, todo, 0);
    FirstBroadcast(e, w, todo);
    VisitedBits(e, todo[0], m);
  }

  lemma VisitedBits(e: Group, t: nat, m: bv32)
    requires t < |e.s.tasks| && IsBit(m)
    ensures On(Visit(e, t).bits, m) <==> On(e.bits, m) && !(Cond(e.bits, e.s.tasks[t]) && Wants(e.s.tasks[t], m))
  {
    var r := e.s.tasks[t];
    ClearedBits(e.bits, r.waitBits, r.waitOptions, m);
  }

  /**
   os_eventgroup_set_bits goes through the waiters in list order and wakes each exactly if the bits left by those
   before it satisfy it; the waiter is told these bits.
   */
  lemma SetWakesIff(e: Group, w: nat, b: bv32, k: nat)
    requires Inv(e.s) && w < |e.s.waits| && k < |e.s.waits[w]|
    ensures var t, d := e.s.waits[w][k], SetBits(e, w, b).s;
      var left := Sweep(Group(e.s, e.bits | b), e.s.waits[w][..k]).bits;
      && t < |e.s.tasks| && t < |d.tasks|
      && (d.tasks[t].state == Ready <==> Satisfied(left, e.s.tasks[t].waitBits, e.s.tasks[t].waitOptions))
      && (d.tasks[t].state == Ready ==> d.tasks[t].returnBits == left)
  {
    WholeList(e.s, w);
    SweepWakesIff(Group(e.s, e.bits | b), w, e.s.waits[w], k);
    CondIff(Sweep(Group(e.s, e.bits | b), e.s.waits[w][..k]).bits, e.s.tasks[e.s.waits[w][k]]);
  }

  lemma WholeList(s: Sys, w: nat)
    requires Inv(s) && w < |s.waits|
    ensures NoDup(s.waits[w]) && IsSuffix(s.waits[w], s.waits[w])
  {
    assert s.waits[w] == ListOf(s, OnWait(w)) && NoDup(ListOf(s, OnWait(w)));
  }

  /** In the end a bit is on exactly if it was on or was set, and no waiter that was woken took it. */
  lemma SetLeavesBits(e: Group, w: nat, b: bv32, m: bv32)
    requires Inv(e.s) && w < |e.s.waits| && IsBit(m)
    ensures var l, d := e.s.waits[w], SetBits(e, w, b);
      On(d.bits, m) <==> On(e.bits | b, m) && forall k :: 0 <= k < |l| ==> !Takes(e.s, d.s, l[k], m)
  {
    WholeList(e.s, w);
    SweepBits(Group(e.s, e.bits | b), w, e.s.waits[w], m);
  }

  // ---------- What a waiter is told ----------

  /** t waits on w for the condition, or has been woken on bits that meet it. */
  ghost predicate Awaits(e: Group, w: nat, t: nat, wanted: bv32, options: bv32) {
    && Inv(e.s) && w < |e.s.waits| && t < |e.s.tasks|
    && e.s.tasks[t].waitBits == wanted && e.s.tasks[t].waitOptions == options
    && (t in e.s.waits[w] || Met(e.s.tasks[t].returnBits, wanted, options))
  }

  /** t does not wait for bits once more, and nobody but the group itself releases it. */
  predicate LetsWait(e: Group, op: GroupOp, t: nat) {
    match op
    case DoWait(_, _, _) => e.s.current != Some(t)
    case DoOther(o) => !(o.DoRelease? && o.t == t)
    case _ => true
  }

  lemma SetAwaits(e: Group, w: nat, b: bv32, t: nat, wanted: bv32, options: bv32)
    requires Awaits(e, w, t, wanted, options)
    ensures Awaits(SetBits(e, w, b), w, t, wanted, options)
  {
    var l, d := e.s.waits[w], SetBits(e, w, b);
    SetBitsNoneMet(e, w, b);
    SetBitsServes(e, w, b, t);
    if t in l && d.s.tasks[t].state == Blocked {
      WaitersAreOn(e.s, {}, w);
      StaysOnList(d.s, w, t);
    }
  }

  lemma SetBitsServes(e: Group, w: nat, b: bv32, t: nat)
    requires Inv(e.s) && w < |e.s.waits| && t < |e.s.tasks|
    ensures var l, d := e.s.waits[w], SetBits(e, w, b);
      && t < |d.s.tasks|
      && (if t in l then Served(e.s.tasks[t], d.s.tasks[t]) else d.s.tasks[t] == e.s.tasks[t])
  {
    var e1, l := e.(bits := e.bits | b), e.s.waits[w];
    assert l == ListOf(e.s, OnWait(w)) && NoDup(ListOf(e.s, OnWait(w)));
    assert l == l[0..] && IsSuffix(l, e1.s.waits[w]);
    SweepServes(e1, w, l, t);
  }

  lemma StaysOnList(s: Sys, w: nat, t: nat)
    requires Inv(s) && w < |s.waits| && t < |s.tasks| && HomeOf(s.tasks[t]) == OnWait(w)
    ensures t in s.waits[w]
  {
    InvAt(s, t);
  }

  lemma WaitAwaits(e: Group, w: nat, op: GroupOp, t: nat, wanted: bv32, options: bv32)
    requires Awaits(e, w, t, wanted, options) && op.DoWait? && GroupEnabled(e, w, op) && e.s.current != Some(t)
    ensures Awaits(GroupStep(e, w, op), w, t, wanted, options)
  {
    if !Met(e.bits, op.wanted, op.options) && op.timeout != 0 {
      var c, d := e.s.current.value, ParkFor(e.s, w, op.wanted, op.options, op.timeout);
      ParkForInv(e.s, w, op.wanted, op.options, op.timeout);
      ParkForWaiters(e.s, w, op.wanted, op.options, op.timeout);
      if t in e.s.waits[w] {
        WaitersAreOn(e.s, {}, w);
        StaysOnList(d, w, t);
      }
    }
  }

  lemma OtherAwaits(e: Group, w: nat, o: Op, t: nat, wanted: bv32, options: bv32)
    requires Awaits(e, w, t, wanted, options) && GroupEnabled(e, w, DoOther(o)) && LetsWait(e, DoOther(o), t)
    ensures Awaits(GroupStep(e, w, DoOther(o)), w, t, wanted, options)
  {
    StepInv(e.s, o);
    StepKeepsBits(e.s, o, t);
    ForeignOnlyFewer(e.s, o, w);
    if t in e.s.waits[w] {
      StaysWaiting(e.s, o, w, t);
    }
  }

  lemma StepAwaits(e: Group, w: nat, op: GroupOp, t: nat, wanted: bv32, options: bv32)
    requires Awaits(e, w, t, wanted, options) && GroupEnabled(e, w, op) && LetsWait(e, op, t)
    ensures Awaits(GroupStep(e, w, op), w, t, wanted, options)
  {
    match op
    case DoSet(b) => SetAwaits(e, w, b, t, wanted, options);
    case DoClear(b) =>
    case DoWait(_, _, _) => WaitAwaits(e, w, op, t, wanted, options);
    case DoOther(o) => OtherAwaits(e, w, o, t, wanted, options);
  }

  predicate AllLetWait(e: Group, w: nat, ops: seq<GroupOp>, t: nat)
    requires GroupCanRun(e, w, ops)
    decreases |ops|
  {
    ops != [] ==> LetsWait(e, ops[0], t) && AllLetWait(GroupStep(e, w, ops[0]), w, ops[1..], t)
  }

  lemma {:induction false} RunAwaits(e: Group, w: nat, ops: seq<GroupOp>, t: nat, wanted: bv32, options: bv32)
    requires Awaits(e, w, t, wanted, options) && GroupCanRun(e, w, ops) && AllLetWait(e, w, ops, t)
    ensures Awaits(GroupRun(e, w, ops), w, t, wanted, options)
    decreases |ops|
  {
    if ops != [] {
      StepAwaits(e, w, ops[0], t, wanted, options);
      RunAwaits(GroupStep(e, w, ops[0]), w, ops[1..], t, wanted, options);
    }
  }

  lemma ParkedAwaits(e: Group, w: nat, wanted: bv32, options: bv32, timeout: nat)
    requires Inv(e.s) && w < |e.s.waits| && CanCall(e.s) && !Met(e.bits, wanted, options) && timeout != 0
    ensures Awaits(WaitBits(e, w, wanted, options, timeout), w, e.s.current.value, wanted, options)
  {
    var t, d := e.s.current.value, ParkFor(e.s, w, wanted, options, timeout);
    var s1 := Put(e.s, t, e.s.tasks[t].(waitBits := wanted, waitOptions := options, returnBits := 0));
    ParkForInv(e.s, w, wanted, options, timeout);
    ParkForWaiters(e.s, w, wanted, options, timeout);
    ParkWaiters(s1, w, EventWait, timeout);
    assert d.waits[w][InsertPos(s1.waits[w], s1.tasks, s1.tasks[t].prio)] == t;
  }

  /**
   A caller that had to wait returns, when it runs again, bits that met its condition, whatever was set, cleared or
   done by other tasks meanwhile, and however long it was READY before it ran.
   */
  lemma WaitReturnsMetBits(e: Group, w: nat, wanted: bv32, options: bv32, timeout: nat, ops: seq<GroupOp>)
    requires Inv(e.s) && w < |e.s.waits| && CanCall(e.s) && !Satisfied(e.bits, wanted, options) && timeout != 0
    requires var e1, t := WaitBits(e, w, wanted, options, timeout), e.s.current.value;
      GroupCanRun(e1, w, ops) && AllLetWait(e1, w, ops, t)
    ensures var t, d := e.s.current.value, GroupRun(WaitBits(e, w, wanted, options, timeout), w, ops);
      && t < |d.s.tasks|
      && (d.s.current == Some(t) && CanCall(d.s) ==> Satisfied(d.s.tasks[t].returnBits, wanted, options))
  {
    var e1, t := WaitBits(e, w, wanted, options, timeout), e.s.current.value;
    MetIff(e.bits, wanted, options);
    ParkedAwaits(e, w, wanted, options, timeout);
    RunAwaits(e1, w, ops, t, wanted, options);
    WaitersAreOn(GroupRun(e1, w, ops).s, {}, w);
    MetIff(GroupRun(e1, w, ops).s.tasks[t].returnBits, wanted, options);
  }

  /** No waiter in l asks for its bits to be cleared. */
  predicate NoneClears(s: Sys, l: seq<nat>) {
    forall x :: x in l ==> x < |s.tasks| && s.tasks[x].waitOptions & CLEAR_ON_EXIT == 0
  }

  lemma VisitClearsNothing(e: Group, w: nat, todo: seq<nat>)
    requires Inv(e.s) && w < |e.s.waits| && IsSuffix(todo, e.s.waits[w]) && NoDup(todo) && todo != []
    requires NoneClears(e.s, todo)
    ensures Visit(e, todo[0]).bits == e.bits && NoneClears(Visit(e, todo[0]).s, todo[1..])
  {
    assert todo[0] in todo && todo == [todo[0]] + todo[1..];
    NoDupTail(todo);
    forall x | x in todo[1..]
      ensures x < |Visit(e, todo[0]).s.tasks| && Visit(e, todo[0]).s.tasks[x].waitOptions & CLEAR_ON_EXIT == 0
    {
      assert x in todo;
      VisitOne(e, w, todo, x);
    }
  }

  /** Without clear-on-exit among the waiters no bit is lost. */
  lemma {:induction false} SweepKeepsBits(e: Group, w: nat, todo: seq<nat>)
    requires Inv(e.s) && w < |e.s.waits| && IsSuffix(todo, e.s.waits[w]) && NoDup(todo) && NoneClears(e.s, todo)
    ensures Sweep(e, todo).bits == e.bits
    decreases |todo|
  {
    if todo != [] {
      VisitSuffix(e, w, todo);
      VisitClearsNothing(e, w, todo);
      NoDupTail(todo);
      SweepKeepsBits(Visit(e, todo[0]), w, todo[1..]);
    }
  }

  /** ... and exactly those waiters are woken whose condition holds of the bits the walk starts with. */
  lemma {:induction false} SweepBroadcasts(e: Group, w: nat, todo: seq<nat>, k: nat)
    requires Inv(e.s) && w < |e.s.waits| && IsSuffix(todo, e.s.waits[w]) && NoDup(todo) && NoneClears(e.s, todo)
    requires k < |todo|
    ensures var t, d := todo[k], Sweep(e, todo);
      t < |e.s.tasks| && t < |d.s.tasks| && (d.s.tasks[t].state == Ready <==> Cond(e.bits, e.s.tasks[t]))
    decreases |todo|
  {
    if k > 0 {
      VisitSuffix(e, w, todo);
      NoDupTail(todo);
      VisitOne(e, w, todo, todo[k]);
      VisitClearsNothing(e, w, todo);
      SweepBroadcasts(Visit(e, todo[0]), w, todo[1..], k - 1);
    } else {
      FirstBroadcast(e, w, todo);
    }
  }

  lemma FirstBroadcast(e: Group, w: nat, todo: seq<nat>)
    requires Inv(e.s) && w < |e.s.waits| && IsSuffix(todo, e.s.waits[w]) && NoDup(todo) && todo != []
    ensures var t, d := todo[0], Sweep(e, todo);
      t < |e.s.tasks| && t < |d.s.tasks| && (d.s.tasks[t].state == Ready <==> Cond(e.bits, e.s.tasks[t]))
  {
    VisitSuffix(e, w, todo);
    NoDupTail(todo);
    VisitOne(e, w, todo, todo[0]);
    SweepServes(Visit(e, todo[0]), w, todo[1..], todo[0]);
  }
}
