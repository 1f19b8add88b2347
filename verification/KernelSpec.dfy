/**
 What every kernel call does to the task table and to the lists, on plain values.
 Tasks are named by their index in the task table; class Kernel (Kernel.dfy) carries
 the same steps out on control blocks and pointers, and is verified against this module.
 */
module KernelSpec {
  import opened KernelTypes

  const NUM_PRIORITIES: nat := 8
  const MAX_TASKS: nat := 16
  const WAIT_FOREVER: nat := 0xFFFF_FFFF
  const TICKS: nat := 0x1_0000_0000
  const HALF: nat := 0x8000_0000

  /** The list a task belongs on. */
  datatype Home = OnReady(p: nat) | OnBlocked | OnWait(w: nat) | Nowhere

  datatype Sys = Sys(
    tasks: seq<Task>,
    ready: seq<seq<nat>>,     // ready_list, one per priority
    blocked: seq<nat>,        // blocked_list
    waits: seq<seq<nat>>,     // the wait_list of every synchronisation object
    current: Option<nat>)     // current_task_ptr

  /** A task's own fields say which list it must be on. */
  function HomeOf(t: Task): Home {
    match t.state
    case Ready => OnReady(t.prio)
    case Running => OnReady(t.prio)
    case Suspended => Nowhere
    case Blocked => if t.blockedOn.Some? then OnWait(t.blockedOn.value) else OnBlocked
  }

  predicate HasList(s: Sys, h: Home) {
    match h
    case OnReady(p) => p < |s.ready|
    case OnBlocked => true
    case OnWait(w) => w < |s.waits|
    case Nowhere => false
  }

  function ListOf(s: Sys, h: Home): seq<nat> {
    if !HasList(s, h) then [] else
      match h
      case OnReady(p) => s.ready[p]
      case OnBlocked => s.blocked
      case OnWait(w) => s.waits[w]
      case Nowhere => []
  }

  function SetList(s: Sys, h: Home, l: seq<nat>): Sys {
    if !HasList(s, h) then s else
      match h
      case OnReady(p) => s.(ready := s.ready[p := l])
      case OnBlocked => s.(blocked := l)
      case OnWait(w) => s.(waits := s.waits[w := l])
      case Nowhere => s
  }

  /** s without the first occurrence of x */
  function Without(s: seq<nat>, x: nat): seq<nat> {
    if s == [] then [] else if s[0] == x then s[1..] else [s[0]] + Without(s[1..], x)
  }

  predicate NoDup(s: seq<nat>) {
    forall i, j :: 0 <= i < j < |s| ==> s[i] != s[j]
  }

  function PrioOf(tasks: seq<Task>, t: nat): nat {
    if t < |tasks| then tasks[t].prio else 0
  }

  /** The first position held by a task of strictly lower priority than p. */
  function InsertPos(l: seq<nat>, tasks: seq<Task>, p: nat): (k: nat)
    ensures k <= |l|
    ensures forall i :: 0 <= i < k ==> PrioOf(tasks, l[i]) <= p
    ensures k < |l| ==> p < PrioOf(tasks, l[k])
  {
    if l == [] || p < PrioOf(tasks, l[0]) then 0 else 1 + InsertPos(l[1..], tasks, p)
  }

  // ---------- The invariant ----------

  predicate FieldsOk(s: Sys, t: Task) {
    t.prio < |s.ready| && (t.blockedOn.Some? ==> t.blockedOn.value < |s.waits|)
  }

  /** Every task outside `limbo` is on the list its fields name and on no other; limbo tasks are on none. */
  ghost predicate Placed(s: Sys, limbo: set<nat>) {
    && |s.ready| == NUM_PRIORITIES
    && (forall t {:trigger FieldsOk(s, s.tasks[t])} :: 0 <= t < |s.tasks| ==> FieldsOk(s, s.tasks[t]))
    && (forall h, i {:trigger Belongs(s, limbo, h, ListOf(s, h)[i])} ::
          0 <= i < |ListOf(s, h)| ==> Belongs(s, limbo, h, ListOf(s, h)[i]))
    && (forall h {:trigger NoDup(ListOf(s, h))} :: NoDup(ListOf(s, h)))
    && (forall t {:trigger AtHome(s, t)} :: 0 <= t < |s.tasks| && t !in limbo ==> AtHome(s, t))
  }

  /** Task t is on the list its fields name. */
  predicate AtHome(s: Sys, t: nat)
    requires t < |s.tasks|
  {
    HomeOf(s.tasks[t]) != Nowhere ==> t in ListOf(s, HomeOf(s.tasks[t]))
  }

  predicate Belongs(s: Sys, limbo: set<nat>, h: Home, t: nat) {
    t < |s.tasks| && t !in limbo && HomeOf(s.tasks[t]) == h
  }

  /** blocked_on and blocked_reason name a synchronisation object exactly while the task waits for one. */
  predicate Tagged(t: Task) {
    if t.blockedOn.Some? then t.state == Blocked && t.reason !in {NoReason, Notify}
    else t.reason in {NoReason, Notify}
  }

  /** Only the current task may be RUNNING. */
  predicate MayRun(s: Sys, t: nat)
    requires t < |s.tasks|
  {
    s.tasks[t].state == Running ==> s.current == Some(t)
  }

  ghost predicate Inv(s: Sys) {
    && Placed(s, {})
    && (s.current.Some? ==> s.current.value < |s.tasks|)
    && (forall t {:trigger Tagged(s.tasks[t])} :: 0 <= t < |s.tasks| ==> Tagged(s.tasks[t]))
    && (forall t {:trigger MayRun(s, t)} :: 0 <= t < |s.tasks| ==> MayRun(s, t))
  }

  /** A task is running code only while it is on a ready list. */
  predicate CanCall(s: Sys) {
    && s.current.Some? && s.current.value < |s.tasks|
    && s.tasks[s.current.value].state in {Ready, Running}
  }

  /** What os_sem_take, os_mutex_lock, os_queue_send and os_queue_receive return when a parked caller runs again. */
  function ResumeStatus(s: Sys): Status
    requires CanCall(s)
  {
    if s.tasks[s.current.value].timedOut then ErrTimeout else Ok
  }

  // ---------- List primitives ----------

  function Put(s: Sys, t: nat, r: Task): Sys
    requires t < |s.tasks|
  {
    s.(tasks := s.tasks[t := r])
  }

  /** Take t off the list its fields name. */
  function Detach(s: Sys, t: nat): Sys
    requires t < |s.tasks|
  {
    var h := HomeOf(s.tasks[t]);
    SetList(s, h, Without(ListOf(s, h), t))
  }

  /** Put t at position k of the list its fields name. */
  function Attach(s: Sys, t: nat, k: nat): Sys
    requires t < |s.tasks|
    requires k <= |ListOf(s, HomeOf(s.tasks[t]))|
  {
    var h := HomeOf(s.tasks[t]);
    SetList(s, h, Splice(ListOf(s, h), k, t))
  }

  /** os_task_add_to_ready */
  function AddToReady(s: Sys, t: nat): Sys
    requires t < |s.tasks|
  {
    var s1 := Put(s, t, s.tasks[t].(state := Ready));
    Attach(s1, t, |ListOf(s1, OnReady(s.tasks[t].prio))|)
  }

  // ---------- Placement lemmas ----------

  lemma NoDupTail(s: seq<nat>)
    requires NoDup(s) && s != []
    ensures NoDup(s[1..]) && s[0] !in s[1..]
  {
    var r := s[1..];
    forall i, j | 0 <= i < j < |r| ensures r[i] != r[j] {
      assert s[i + 1] != s[j + 1];
    }
  }

  lemma {:induction false} WithoutAt(s: seq<nat>, k: nat)
    requires k < |s| && NoDup(s)
    ensures Without(s, s[k]) == Cut(s, k)
  {
    if k > 0 {
      NoDupTail(s);
      WithoutAt(s[1..], k - 1);
      assert s[k] == s[1..][k - 1];
      assert [s[0]] + Cut(s[1..], k - 1) == Cut(s, k);
    } else {
      assert s[1..] == Cut(s, 0);
    }
  }

  lemma {:induction false} WithoutKeeps(s: seq<nat>, x: nat)
    requires NoDup(s)
    ensures NoDup(Without(s, x))
    ensures forall y :: y in Without(s, x) <==> y in s && y != x
  {
    if s != [] {
      NoDupTail(s);
      WithoutKeeps(s[1..], x);
      assert s == [s[0]] + s[1..];
    }
  }

  lemma SpliceKeeps(s: seq<nat>, k: nat, x: nat)
    requires k <= |s| && NoDup(s) && x !in s
    ensures NoDup(Splice(s, k, x))
    ensures forall y :: y in Splice(s, k, x) <==> y in s || y == x
  {
    var c := Splice(s, k, x);
    assert c[k] == x;
    forall y | y in s ensures y in c {
      var i :| 0 <= i < |s| && s[i] == y;
      assert c[if i < k then i else i + 1] == y;
    }
  }

  lemma MembersBelong(s: Sys, limbo: set<nat>, h: Home)
    requires Placed(s, limbo)
    ensures forall x :: x in ListOf(s, h) ==> Belongs(s, limbo, h, x)
  {
    forall x | x in ListOf(s, h) ensures Belongs(s, limbo, h, x) {
      var j :| 0 <= j < |ListOf(s, h)| && ListOf(s, h)[j] == x;
      assert Belongs(s, limbo, h, ListOf(s, h)[j]);
    }
  }

  /** Placed, task by task and list by list, where a proof wants all of it. */
  lemma PlacedEverywhere(s: Sys, limbo: set<nat>)
    requires Placed(s, limbo)
    ensures forall t {:trigger s.tasks[t]} :: 0 <= t < |s.tasks| ==> FieldsOk(s, s.tasks[t])
    ensures forall t {:trigger s.tasks[t]} :: 0 <= t < |s.tasks| && t !in limbo ==> AtHome(s, t)
    ensures forall h {:trigger ListOf(s, h)} :: NoDup(ListOf(s, h))
    ensures forall h, x :: x in ListOf(s, h) ==> Belongs(s, limbo, h, x)
  {
    forall t | 0 <= t < |s.tasks| ensures FieldsOk(s, s.tasks[t]) && (t !in limbo ==> AtHome(s, t)) {
      assert FieldsOk(s, s.tasks[t]);
    }
    forall h ensures NoDup(ListOf(s, h)) {
      assert NoDup(ListOf(s, h));
    }
    forall h, x | x in ListOf(s, h) ensures Belongs(s, limbo, h, x) {
      MembersBelong(s, limbo, h);
    }
  }

  lemma AlwaysFieldsOk(s: Sys, limbo: set<nat>, t: nat)
    requires Placed(s, limbo) && t < |s.tasks|
    ensures FieldsOk(s, s.tasks[t]) && |s.ready| == NUM_PRIORITIES
  {
  }

  lemma DetachPlaced(s: Sys, t: nat)
    requires Placed(s, {}) && t < |s.tasks| && HomeOf(s.tasks[t]) != Nowhere
    ensures HasList(s, HomeOf(s.tasks[t])) && t in ListOf(s, HomeOf(s.tasks[t]))
    ensures Placed(Detach(s, t), {t})
  {
    var h := HomeOf(s.tasks[t]);
    PlacedEverywhere(s, {});
    assert FieldsOk(s, s.tasks[t]) && AtHome(s, t);
    WithoutKeeps(ListOf(s, h), t);
    var d := Detach(s, t);
    forall g ensures ListOf(d, g) == (if g == h then Without(ListOf(s, h), t) else ListOf(s, g)) {}
    forall g, i | 0 <= i < |ListOf(d, g)| ensures Belongs(d, {t}, g, ListOf(d, g)[i]) {
      assert ListOf(d, g)[i] in ListOf(d, g);
    }
    forall x | 0 <= x < |d.tasks| && x != t ensures AtHome(d, x) {
      assert AtHome(s, x);
    }
  }

  lemma AttachPlaced(s: Sys, t: nat, k: nat)
    requires Placed(s, {t}) && t < |s.tasks| && HomeOf(s.tasks[t]) != Nowhere
    requires k <= |ListOf(s, HomeOf(s.tasks[t]))|
    ensures HasList(s, HomeOf(s.tasks[t]))
    ensures Placed(Attach(s, t, k), {})
  {
    var h := HomeOf(s.tasks[t]);
    PlacedEverywhere(s, {t});
    assert FieldsOk(s, s.tasks[t]);
    SpliceKeeps(ListOf(s, h), k, t);
    var d := Attach(s, t, k);
    forall g ensures ListOf(d, g) == (if g == h then Splice(ListOf(s, h), k, t) else ListOf(s, g)) {}
    forall g, i | 0 <= i < |ListOf(d, g)| ensures Belongs(d, {}, g, ListOf(d, g)[i]) {
      assert ListOf(d, g)[i] in ListOf(d, g);
    }
    forall x | 0 <= x < |d.tasks| ensures AtHome(d, x) {
      assert x != t ==> AtHome(s, x);
    }
  }

  /** A task in limbo may be given any fields; one outside limbo, any that name the same list. */
  lemma PutPlaced(s: Sys, t: nat, r: Task, limbo: set<nat>)
    requires Placed(s, limbo) && t < |s.tasks| && FieldsOk(s, r)
    requires t in limbo || HomeOf(r) == HomeOf(s.tasks[t])
    ensures Placed(Put(s, t, r), limbo)
  {
    var d := Put(s, t, r);
    PlacedEverywhere(s, limbo);
    forall g ensures ListOf(d, g) == ListOf(s, g) {}
    forall g, i | 0 <= i < |ListOf(d, g)| ensures Belongs(d, limbo, g, ListOf(d, g)[i]) {
      assert ListOf(d, g)[i] in ListOf(d, g);
    }
    forall x | 0 <= x < |d.tasks| && x !in limbo ensures AtHome(d, x) {
      assert AtHome(s, x);
    }
  }

  lemma NowherePlaced(s: Sys, t: nat)
    requires Placed(s, {t}) && t < |s.tasks| && HomeOf(s.tasks[t]) == Nowhere
    ensures Placed(s, {})
  {
    PlacedEverywhere(s, {t});
    forall g, i | 0 <= i < |ListOf(s, g)| ensures Belongs(s, {}, g, ListOf(s, g)[i]) {
      assert ListOf(s, g)[i] in ListOf(s, g);
    }
  }

  lemma AddToReadyPlaced(s: Sys, t: nat)
    requires Placed(s, {t}) && t < |s.tasks|
    ensures Placed(AddToReady(s, t), {})
  {
    assert FieldsOk(s, s.tasks[t]);
    var r := s.tasks[t].(state := Ready);
    PutPlaced(s, t, r, {t});
    AttachPlaced(Put(s, t, r), t, |ListOf(Put(s, t, r), OnReady(r.prio))|);
  }

  // ---------- The links that realise the lists ----------

  /** The element after x in l. */
  function Succ(l: seq<nat>, x: nat): Option<nat> {
    if |l| < 2 then None else if l[0] == x then Some(l[1]) else Succ(l[1..], x)
  }

  /** The element before x in l. */
  function Pred(l: seq<nat>, x: nat): Option<nat> {
    if |l| < 2 then None else if l[1] == x then Some(l[0]) else Pred(l[1..], x)
  }

  function First(l: seq<nat>): Option<nat> {
    if l == [] then None else Some(l[0])
  }

  function Last(l: seq<nat>): Option<nat> {
    if l == [] then None else Some(l[|l| - 1])
  }

  /** The task that t's next pointer must lead to. */
  function NextOf(s: Sys, t: nat): Option<nat>
    requires t < |s.tasks|
  {
    Succ(ListOf(s, HomeOf(s.tasks[t])), t)
  }

  /** The task that t's prev pointer must lead to. */
  function PrevOf(s: Sys, t: nat): Option<nat>
    requires t < |s.tasks|
  {
    Pred(ListOf(s, HomeOf(s.tasks[t])), t)
  }

  function Nexts(s: Sys): seq<Option<nat>> {
    seq(|s.tasks|, i requires 0 <= i < |s.tasks| => NextOf(s, i))
  }

  function Prevs(s: Sys): seq<Option<nat>> {
    seq(|s.tasks|, i requires 0 <= i < |s.tasks| => PrevOf(s, i))
  }

  /** The element at k, if there is one. */
  function At(l: seq<nat>, k: int): Option<nat> {
    if 0 <= k < |l| then Some(l[k]) else None
  }

  /** The next links once t has been cut out: its predecessor skips it. */
  function NextsWithout(n: seq<Option<nat>>, p: seq<Option<nat>>, t: nat): seq<Option<nat>>
    requires |n| == |p| && t < |n|
  {
    seq(|n|, i requires 0 <= i < |n| => if i == t then None else if p[t] == Some(i) then n[t] else n[i])
  }

  function PrevsWithout(n: seq<Option<nat>>, p: seq<Option<nat>>, t: nat): seq<Option<nat>>
    requires |n| == |p| && t < |n|
  {
    seq(|n|, i requires 0 <= i < |n| => if i == t then None else if n[t] == Some(i) then p[t] else p[i])
  }

  /** The next links once t has been put in between two neighbours. */
  function NextsWith(n: seq<Option<nat>>, t: nat, before: Option<nat>, after: Option<nat>): seq<Option<nat>> {
    seq(|n|, i requires 0 <= i < |n| => if i == t then after else if before == Some(i) then Some(t) else n[i])
  }

  function PrevsWith(p: seq<Option<nat>>, t: nat, before: Option<nat>, after: Option<nat>): seq<Option<nat>> {
    seq(|p|, i requires 0 <= i < |p| => if i == t then before else if after == Some(i) then Some(t) else p[i])
  }

  lemma {:induction false} SuccAt(l: seq<nat>, k: nat)
    requires NoDup(l) && k < |l|
    ensures Succ(l, l[k]) == (if k + 1 < |l| then Some(l[k + 1]) else None)
    ensures Pred(l, l[k]) == (if k > 0 then Some(l[k - 1]) else None)
  {
    if |l| >= 2 {
      NoDupTail(l);
      if k == 0 {
        Absent(l[1..], l[0]);
      } else {
        SuccAt(l[1..], k - 1);
        assert l[1..][k - 1] == l[k];
        if k == 1 { Absent(l[1..][1..], l[1]); }
      }
    }
  }

  lemma {:induction false} Absent(l: seq<nat>, x: nat)
    requires x !in l
    ensures Succ(l, x) == None && Pred(l, x) == None
  {
    if |l| >= 2 {
      assert l[0] in l && l[1] in l;
      assert forall y :: y in l[1..] ==> y in l;
      Absent(l[1..], x);
    }
  }

  lemma CutNoDup(l: seq<nat>, k: nat)
    requires NoDup(l) && k < |l|
    ensures NoDup(Cut(l, k)) && l[k] !in Cut(l, k)
  {
  }

  lemma CutLinks(l: seq<nat>, k: nat, x: nat)
    requires NoDup(l) && k < |l|
    ensures Succ(Cut(l, k), x) ==
      (if x == l[k] then None else if k > 0 && x == l[k - 1] then Succ(l, l[k]) else Succ(l, x))
    ensures Pred(Cut(l, k), x) ==
      (if x == l[k] then None else if k + 1 < |l| && x == l[k + 1] then Pred(l, l[k]) else Pred(l, x))
  {
    var c := Cut(l, k);
    CutNoDup(l, k);
    SuccAt(l, k);
    if x == l[k] {
      Absent(c, x);
    } else if x in l {
      var j :| 0 <= j < |l| && l[j] == x;
      SuccAt(l, j);
      if j < k {
        assert c[j] == x;
        SuccAt(c, j);
      } else {
        assert c[j - 1] == x;
        SuccAt(c, j - 1);
      }
    } else {
      Absent(l, x);
      Absent(c, x);
    }
  }

  lemma SpliceLinks(l: seq<nat>, k: nat, t: nat, x: nat)
    requires NoDup(l) && k <= |l| && t !in l
    ensures NoDup(Splice(l, k, t))
    ensures Succ(Splice(l, k, t), x) ==
      (if x == t then (if k < |l| then Some(l[k]) else None)
       else if k > 0 && x == l[k - 1] then Some(t) else Succ(l, x))
    ensures Pred(Splice(l, k, t), x) ==
      (if x == t then (if k > 0 then Some(l[k - 1]) else None)
       else if k < |l| && x == l[k] then Some(t) else Pred(l, x))
  {
    var c := Splice(l, k, t);
    SpliceKeeps(l, k, t);
    assert c[k] == t;
    SuccAt(c, k);
    if x in l {
      var j :| 0 <= j < |l| && l[j] == x;
      SuccAt(l, j);
      SuccAt(c, if j < k then j else j + 1);
    } else {
      Absent(l, x);
      if x != t { Absent(c, x); }
    }
  }

  /** Detach, seen list by list. */
  lemma DetachAt(s: Sys, t: nat) returns (k: nat)
    requires Placed(s, {}) && t < |s.tasks| && HomeOf(s.tasks[t]) != Nowhere
    ensures var l := ListOf(s, HomeOf(s.tasks[t]));
      NoDup(l) && k < |l| && l[k] == t && ListOf(Detach(s, t), HomeOf(s.tasks[t])) == Cut(l, k)
    ensures forall g :: g != HomeOf(s.tasks[t]) ==> ListOf(Detach(s, t), g) == ListOf(s, g)
  {
    var h := HomeOf(s.tasks[t]);
    var l := ListOf(s, h);
    assert FieldsOk(s, s.tasks[t]) && AtHome(s, t) && NoDup(ListOf(s, h));
    k :| 0 <= k < |l| && l[k] == t;
    WithoutAt(l, k);
  }

  lemma NotElsewhere(s: Sys, limbo: set<nat>, i: nat, h: Home)
    requires Placed(s, limbo) && i < |s.tasks| && HomeOf(s.tasks[i]) != h
    ensures i !in ListOf(s, h)
  {
    MembersBelong(s, limbo, h);
  }

  lemma DetachLinkOf(s: Sys, t: nat, i: nat)
    requires Placed(s, {}) && t < |s.tasks| && HomeOf(s.tasks[t]) != Nowhere && i < |s.tasks|
    ensures NextOf(Detach(s, t), i) ==
      (if i == t then None else if PrevOf(s, t) == Some(i) then NextOf(s, t) else NextOf(s, i))
    ensures PrevOf(Detach(s, t), i) ==
      (if i == t then None else if NextOf(s, t) == Some(i) then PrevOf(s, t) else PrevOf(s, i))
  {
    var h := HomeOf(s.tasks[t]);
    var l := ListOf(s, h);
    var k := DetachAt(s, t);
    SuccAt(l, k);
    if HomeOf(s.tasks[i]) == h {
      CutLinks(l, k, i);
    } else {
      NotElsewhere(s, {}, i, h);
      assert (k > 0 ==> l[k - 1] in l) && (k + 1 < |l| ==> l[k + 1] in l);
    }
  }

  /** Unlinking t rewrites the links of t and of its two neighbours. */
  lemma DetachLinks(s: Sys, t: nat)
    requires Placed(s, {}) && t < |s.tasks| && HomeOf(s.tasks[t]) != Nowhere
    ensures Nexts(Detach(s, t)) == NextsWithout(Nexts(s), Prevs(s), t)
    ensures Prevs(Detach(s, t)) == PrevsWithout(Nexts(s), Prevs(s), t)
  {
    forall i | 0 <= i < |s.tasks|
      ensures Nexts(Detach(s, t))[i] == NextsWithout(Nexts(s), Prevs(s), t)[i]
      ensures Prevs(Detach(s, t))[i] == PrevsWithout(Nexts(s), Prevs(s), t)[i]
    {
      DetachLinkOf(s, t, i);
    }
  }

  /** Unlinking t moves the ends of its list only if t was one of them. */
  lemma DetachEnds(s: Sys, t: nat)
    requires Placed(s, {}) && t < |s.tasks| && HomeOf(s.tasks[t]) != Nowhere
    ensures var h := HomeOf(s.tasks[t]); var l, l' := ListOf(s, h), ListOf(Detach(s, t), h);
      && |l| > 0 && |l'| == |l| - 1
      && First(l') == (if PrevOf(s, t).None? then NextOf(s, t) else First(l))
      && Last(l') == (if NextOf(s, t).None? then PrevOf(s, t) else Last(l))
  {
    var h := HomeOf(s.tasks[t]);
    var l := ListOf(s, h);
    assert FieldsOk(s, s.tasks[t]) && AtHome(s, t) && NoDup(ListOf(s, h));
    var k :| 0 <= k < |l| && l[k] == t;
    WithoutAt(l, k);
    SuccAt(l, k);
    assert ListOf(Detach(s, t), h) == Cut(l, k);
  }

  /** Attach, seen list by list. */
  lemma AttachAt(s: Sys, t: nat, k: nat)
    requires Placed(s, {t}) && t < |s.tasks| && HomeOf(s.tasks[t]) != Nowhere
    requires k <= |ListOf(s, HomeOf(s.tasks[t]))|
    ensures var l := ListOf(s, HomeOf(s.tasks[t]));
      NoDup(l) && t !in l && ListOf(Attach(s, t, k), HomeOf(s.tasks[t])) == Splice(l, k, t)
    ensures forall g :: g != HomeOf(s.tasks[t]) ==> ListOf(Attach(s, t, k), g) == ListOf(s, g)
  {
    var h := HomeOf(s.tasks[t]);
    assert FieldsOk(s, s.tasks[t]) && NoDup(ListOf(s, h));
    MembersBelong(s, {t}, h);
  }

  lemma AttachLinkOf(s: Sys, t: nat, k: nat, i: nat)
    requires Placed(s, {t}) && t < |s.tasks| && HomeOf(s.tasks[t]) != Nowhere && i < |s.tasks|
    requires k <= |ListOf(s, HomeOf(s.tasks[t]))|
    ensures var d, l := Attach(s, t, k), ListOf(s, HomeOf(s.tasks[t]));
      && NextOf(d, i) == (if i == t then At(l, k) else if At(l, k - 1) == Some(i) then Some(t) else NextOf(s, i))
      && PrevOf(d, i) == (if i == t then At(l, k - 1) else if At(l, k) == Some(i) then Some(t) else PrevOf(s, i))
  {
    var h := HomeOf(s.tasks[t]);
    var l := ListOf(s, h);
    AttachAt(s, t, k);
    if HomeOf(s.tasks[i]) == h {
      SpliceLinks(l, k, t, i);
    } else {
      NotElsewhere(s, {t}, i, h);
      assert (k > 0 ==> l[k - 1] in l) && (k < |l| ==> l[k] in l);
    }
  }

  /** Linking t in at position k rewrites the links of t and of its two new neighbours. */
  lemma AttachLinks(s: Sys, t: nat, k: nat)
    requires Placed(s, {t}) && t < |s.tasks| && HomeOf(s.tasks[t]) != Nowhere
    requires k <= |ListOf(s, HomeOf(s.tasks[t]))|
    ensures var l := ListOf(s, HomeOf(s.tasks[t]));
      && Nexts(Attach(s, t, k)) == NextsWith(Nexts(s), t, At(l, k - 1), At(l, k))
      && Prevs(Attach(s, t, k)) == PrevsWith(Prevs(s), t, At(l, k - 1), At(l, k))
  {
    var d, l := Attach(s, t, k), ListOf(s, HomeOf(s.tasks[t]));
    forall i | 0 <= i < |s.tasks|
      ensures NextOf(d, i) == (if i == t then At(l, k) else if At(l, k - 1) == Some(i) then Some(t) else NextOf(s, i))
      ensures PrevOf(d, i) == (if i == t then At(l, k - 1) else if At(l, k) == Some(i) then Some(t) else PrevOf(s, i))
    {
      AttachLinkOf(s, t, k, i);
    }
  }

  /** A task in limbo has no links, whatever its fields say. */
  lemma LimboLinks(s: Sys, t: nat, r: Task)
    requires Placed(s, {t}) && t < |s.tasks|
    ensures Nexts(s)[t] == None && Prevs(s)[t] == None
    ensures Nexts(Put(s, t, r)) == Nexts(s) && Prevs(Put(s, t, r)) == Prevs(s)
  {
    PlacedEverywhere(s, {t});
    var d := Put(s, t, r);
    forall g ensures ListOf(d, g) == ListOf(s, g) && t !in ListOf(s, g) {}
    Absent(ListOf(s, HomeOf(s.tasks[t])), t);
    Absent(ListOf(s, HomeOf(r)), t);
    forall i | 0 <= i < |s.tasks| ensures NextOf(d, i) == NextOf(s, i) && PrevOf(d, i) == PrevOf(s, i) {}
  }

  /** New fields that name the same list leave the links alone. */
  lemma TouchLinks(s: Sys, t: nat, r: Task)
    requires t < |s.tasks| && HomeOf(r) == HomeOf(s.tasks[t])
    ensures Nexts(Put(s, t, r)) == Nexts(s) && Prevs(Put(s, t, r)) == Prevs(s)
  {
    var d := Put(s, t, r);
    forall g ensures ListOf(d, g) == ListOf(s, g) {}
    forall i | 0 <= i < |s.tasks| ensures NextOf(d, i) == NextOf(s, i) && PrevOf(d, i) == PrevOf(s, i) {}
  }
}
