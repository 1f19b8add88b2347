/**
 The software timers in place (kernel/timer.c): timer objects linked into the active list and the expired list.
 Each call is verified against the delta list of TimerSpec; callbacks are only recorded.
 */
module Timers {
  import opened KernelTypes
  import opened KernelSpec
  import opened TimerSpec

  /** os_timer_t */
  class Timer {
    const autoReload: bool        // of type OS_TIMER_AUTO_RELOAD, not OS_TIMER_ONE_SHOT
    var period: nat
    var remaining: nat
    var active: bool
    var next: Timer?

    /** os_timer_create with valid arguments */
    constructor (autoReload: bool, period: nat)
      requires 0 < period < TICKS
      ensures this.autoReload == autoReload && this.period == period && !active && next == null
    {
      this.autoReload, this.period, remaining, active, next := autoReload, period, 0, false, null;
    }
  }

  function NodeAt(nodes: seq<Timer>, i: int): Timer? {
    if 0 <= i < |nodes| then nodes[i] else null
  }

  predicate Differ(s: seq<Timer>, i: nat, j: nat)
    requires i < |s| && j < |s|
  {
    s[i] != s[j]
  }

  predicate Distinct(s: seq<Timer>) {
    forall i, j {:trigger Differ(s, i, j)} :: 0 <= i < j < |s| ==> Differ(s, i, j)
  }

  /** The next pointers from head on spell out nodes. */
  ghost predicate Chain(head: Timer?, nodes: seq<Timer>)
    reads nodes
  {
    && head == NodeAt(nodes, 0) && Distinct(nodes)
    && (forall i {:trigger nodes[i].next} :: 0 <= i < |nodes| ==> nodes[i].next == NodeAt(nodes, i + 1))
  }

  /** ... but for what follows t. */
  ghost predicate ChainBut(head: Timer?, nodes: seq<Timer>, t: Timer)
    reads nodes
  {
    && head == NodeAt(nodes, 0) && Distinct(nodes)
    && (forall i {:trigger nodes[i].next} :: 0 <= i < |nodes| && nodes[i] != t ==>
        nodes[i].next == NodeAt(nodes, i + 1))
  }

  lemma ChainWithout(head: Timer?, nodes: seq<Timer>, t: Timer)
    requires ChainBut(head, nodes, t) && t !in nodes
    ensures Chain(head, nodes)
  {
    forall i | 0 <= i < |nodes| ensures nodes[i].next == NodeAt(nodes, i + 1) {
      assert nodes[i] in nodes;
    }
  }

  lemma NotBehind(t: Timer, x: seq<Timer>)
    requires Distinct([t] + x)
    ensures t !in x
  {
    forall i | 0 <= i < |x| ensures x[i] != t {
      assert Differ([t] + x, 0, i + 1);
    }
  }

  lemma Prepended(t: Timer, x: seq<Timer>)
    requires Chain(t.next, x) && Distinct([t] + x)
    ensures Chain(t, [t] + x)
  {
    var y := [t] + x;
    forall i | 0 <= i < |y| ensures y[i].next == NodeAt(y, i + 1) {
      if i > 0 {
        assert y[i] == x[i - 1] && x[i - 1].next == NodeAt(x, i);
      }
    }
  }

  /** With t linked to what follows position k of a disjoint list. */
  lemma IntactIff(head: Timer?, nodes: seq<Timer>, t: Timer, who: seq<Timer>, k: nat)
    requires ChainBut(head, nodes, t) && t.next == NodeAt(who, k) && Apart(who, nodes) && k <= |who|
    ensures Chain(head, nodes) <==> t !in nodes || (nodes[|nodes| - 1] == t && k == |who|)
  {
    if t !in nodes {
      ChainWithout(head, nodes, t);
    } else {
      var j :| 0 <= j < |nodes| && nodes[j] == t;
      assert k < |who| ==> who[k] in who;
      assert j + 1 < |nodes| ==> nodes[j + 1] in nodes && Differ(nodes, j, |nodes| - 1);
      forall i | 0 <= i < |nodes| && i != j ensures nodes[i].next == NodeAt(nodes, i + 1) {
        assert i < j ==> Differ(nodes, i, j);
        assert i > j ==> Differ(nodes, j, i);
      }
      assert Chain(head, nodes) <==> nodes[j].next == NodeAt(nodes, j + 1);
    }
  }

  ghost predicate Entries(l: Line<Timer>)
    reads l.who
  {
    && |l.who| == |l.delta|
    && (forall i {:trigger l.who[i].remaining} :: 0 <= i < |l.who| ==> l.who[i].remaining == l.delta[i])
    && (forall i {:trigger l.who[i].active} :: 0 <= i < |l.who| ==> l.who[i].active)
  }

  ghost predicate Idle(x: seq<Timer>)
    reads x
  {
    forall i {:trigger x[i].active} :: 0 <= i < |x| ==> !x[i].active
  }

  predicate Apart(a: seq<Timer>, b: seq<Timer>) {
    forall t :: t in a ==> t !in b
  }

  lemma SpliceApart(s: seq<Timer>, k: nat, t: Timer, x: seq<Timer>)
    requires Apart(s, x) && t !in x && k <= |s|
    ensures Apart(Splice(s, k, t), x)
  {
  }

  lemma CutApart(s: seq<Timer>, k: nat, x: seq<Timer>)
    requires Apart(s, x) && k < |s|
    ensures Apart(Cut(s, k), x)
  {
  }

  /** The first of s moved to the front of x. */
  lemma PopShape(s: seq<Timer>, x: seq<Timer>)
    requires Distinct(s) && Distinct(x) && Apart(s, x) && s != []
    ensures Distinct(s[1..]) && Distinct([s[0]] + x) && Apart(s[1..], [s[0]] + x)
  {
    var y := [s[0]] + x;
    forall i, j | 0 <= i < j < |s[1..]| ensures Differ(s[1..], i, j) {
      assert Differ(s, i + 1, j + 1);
    }
    forall i, j | 0 <= i < j < |y| ensures Differ(y, i, j) {
      assert s[0] in s && x[j - 1] in x;
      assert i > 0 ==> Differ(x, i - 1, j - 1);
    }
    forall t | t in s[1..] ensures t !in y {
      var i :| 0 <= i < |s[1..]| && s[1..][i] == t;
      assert Differ(s, 0, i + 1);
    }
  }

  lemma NextTurn(l: Line<Timer>, x: seq<Timer>, n: nat)
    requires n < |l.who| == |l.delta|
    ensures l.who[n..][0] == l.who[n] && l.who[n..][1..] == l.who[n + 1..]
    ensures l.delta[n..][0] == l.delta[n] && l.delta[n..][1..] == l.delta[n + 1..]
    ensures [l.who[n]] + (Reversed(l.who[..n]) + x) == Reversed(l.who[..n + 1]) + x
  {
    assert l.who[..n + 1][..n] == l.who[..n];
  }

  lemma SpliceDistinct(s: seq<Timer>, k: nat, t: Timer)
    requires Distinct(s) && k <= |s| && t !in s
    ensures Distinct(Splice(s, k, t))
  {
    var e := Splice(s, k, t);
    SpliceEntries(s, k, t);
    forall i, j | 0 <= i < j < |e| ensures Differ(e, i, j) {
      var a, b := if i < k then i else i - 1, if j < k then j else j - 1;
      if i != k && j != k {
        assert Differ(s, a, b);
      }
    }
  }

  lemma CutDistinct(s: seq<Timer>, k: nat)
    requires Distinct(s) && k < |s|
    ensures Distinct(Cut(s, k))
  {
    var e := Cut(s, k);
    forall i, j | 0 <= i < j < |e| ensures Differ(e, i, j) {
      assert Differ(s, if i < k then i else i + 1, if j < k then j else j + 1);
    }
  }

  lemma CutLacks(s: seq<Timer>, k: nat)
    requires Distinct(s) && k < |s|
    ensures s[k] !in Cut(s, k)
  {
    forall i | 0 <= i < |Cut(s, k)| ensures Cut(s, k)[i] != s[k] {
      assert if i < k then Differ(s, i, k) else Differ(s, k, i + 1);
    }
  }

  class TimerService {
    var activeList: Timer?        // active_timer_list
    var expiredList: Timer?       // expired_list

    /** The two lists spell out l and x. */
    ghost predicate Linked(l: Line<Timer>, x: seq<Timer>)
      reads this, l.who, x
    {
      && Chain(activeList, l.who) && Entries(l)
      && Chain(expiredList, x) && Apart(l.who, x)
    }

    /** ... and a timer that has expired is not active. */
    ghost predicate Rep(l: Line<Timer>, x: seq<Timer>)
      reads this, l.who, x
    {
      Linked(l, x) && Idle(x)
    }

    constructor ()
      ensures Rep(Line([], []), [])
    {
      activeList, expiredList := null, null;
    }

    /** os_timer_create */
    static method Create(hasCallback: bool, autoReload: bool, period: nat) returns (st: Status, timer: Timer?)
      requires period < TICKS
      ensures if !hasCallback || period == 0 then st == ErrParam && timer == null
              else && st == Ok && timer != null && fresh(timer) && !timer.active
                   && timer.period == period && timer.autoReload == autoReload
    {
      if !hasCallback || period == 0 {
        return ErrParam, null;
      }
      timer := new Timer(autoReload, period);
      st := Ok;
    }

    /** The search loop of prv_timer_insert_sorted. */
    method FindPlace(r: nat, ghost l: Line<Timer>) returns (prev: Timer?, iter: Timer?)
      requires Chain(activeList, l.who) && Entries(l)
      ensures prev == NodeAt(l.who, Where(l.delta, r) - 1) && iter == NodeAt(l.who, Where(l.delta, r))
    {
      ghost var k := 0;
      prev, iter := null, activeList;
      while iter != null
        invariant 0 <= k <= |l.who| && iter == NodeAt(l.who, k) && prev == NodeAt(l.who, k - 1)
        invariant Where(l.delta, r) == k + Where(l.delta[k..], r)
        decreases |l.who| - k
      {
        assert l.who[k].remaining == l.delta[k] && l.who[k].next == NodeAt(l.who, k + 1);
        assert l.delta[k..][0] == l.delta[k] && l.delta[k..][1..] == l.delta[k + 1..];
        if r < iter.remaining {
          break;
        }
        prev := iter;
        iter := iter.next;
        k := k + 1;
      }
    }

    /** The arithmetic of prv_timer_insert_sorted. */
    method Share(t: Timer, prev: Timer?, iter: Timer?, ghost l: Line<Timer>)
      requires Entries(l) && Distinct(l.who) && t !in l.who && t.active
      requires var k := Where(l.delta, t.remaining); prev == NodeAt(l.who, k - 1) && iter == NodeAt(l.who, k)
      modifies t`remaining, l.who`remaining
      ensures Entries(Inserted(l, t, old(t.remaining)))
    {
      ghost var r := t.remaining;
      ghost var k := Where(l.delta, r);
      if prev != null {
        assert l.who[k - 1].remaining == l.delta[k - 1];
        t.remaining := t.remaining - prev.remaining;
      }
      assert t.remaining == Own(l.delta, r);
      if iter != null {
        assert l.who[k].remaining == l.delta[k];
        iter.remaining := iter.remaining - t.remaining;
      }
      ghost var e := Inserted(l, t, r);
      forall i | 0 <= i < |e.who| ensures e.who[i].remaining == e.delta[i] && e.who[i].active {
        SpliceAt(l.who, k, t, i);
        SharedAt(l.delta, k, Own(l.delta, r), i);
        if i != k {
          var j := if i < k then i else i - 1;
          assert old(l.who[j].remaining) == l.delta[j] && l.who[j].active;
          assert j < k < |l.who| ==> Differ(l.who, j, k);
          assert j > k ==> Differ(l.who, k, j);
        }
      }
    }

    /** The linking of prv_timer_insert_sorted. */
    method LinkIn(t: Timer, prev: Timer?, iter: Timer?, ghost who: seq<Timer>, ghost k: nat, ghost l: Line<Timer>,
                  ghost x: seq<Timer>)
      requires Chain(activeList, who) && t !in who && k <= |who|
      requires Entries(l) && ChainBut(expiredList, x, t) && Apart(who, x)
      requires prev == NodeAt(who, k - 1) && iter == NodeAt(who, k)
      modifies `activeList, t`next, who`next
      ensures Chain(activeList, Splice(who, k, t)) && Entries(l) && ChainBut(expiredList, x, t) && t.next == iter
    {
      t.next := iter;
      if prev != null {
        prev.next := t;
      } else {
        activeList := t;
      }
      forall i | 0 <= i < |x| && x[i] != t ensures x[i].next == NodeAt(x, i + 1) {
        assert x[i] in x && old(x[i].next) == NodeAt(x, i + 1);
        assert prev != null ==> prev in who;
      }
      ghost var e := Splice(who, k, t);
      forall i | 0 <= i < |e| ensures e[i].next == NodeAt(e, i + 1) {
        SpliceAt(who, k, t, i);
        if i < |who| {
          SpliceAt(who, k, t, i + 1);
        }
        if i != k {
          var j := if i < k then i else i - 1;
          assert old(who[j].next) == NodeAt(who, j + 1);
          assert 0 < k && j < k - 1 ==> Differ(who, j, k - 1);
          assert 0 < k <= j ==> Differ(who, k - 1, j);
        }
      }
      SpliceDistinct(who, k, t);
    }

    /** prv_timer_insert_sorted, of a timer that may still be on the expired list: then that list loses its rest. */
    method Insert(t: Timer, ghost l: Line<Timer>, ghost x: seq<Timer>)
      requires Linked(l, x) && t !in l.who && t.active
      modifies `activeList, l.who`next, l.who`remaining, t`next, t`remaining
      ensures Chain(activeList, Inserted(l, t, old(t.remaining)).who) && Entries(Inserted(l, t, old(t.remaining)))
      ensures ChainBut(expiredList, x, t) && t.next == NodeAt(l.who, Where(l.delta, old(t.remaining)))
    {
      t.next := null;
      ghost var r := t.remaining;
      var prev, iter := FindPlace(t.remaining, l);
      Share(t, prev, iter, l);
      LinkIn(t, prev, iter, l.who, Where(l.delta, r), Inserted(l, t, r), x);
    }

    /** prv_timer_insert_sorted */
    method InsertSorted(t: Timer, ghost l: Line<Timer>, ghost x: seq<Timer>)
      requires Rep(l, x) && t !in l.who && t !in x && t.active
      modifies `activeList, l.who`next, l.who`remaining, t`next, t`remaining
      ensures Rep(Inserted(l, t, old(t.remaining)), x)
    {
      ghost var k := Where(l.delta, t.remaining);
      Insert(t, l, x);
      ChainWithout(expiredList, x, t);
      SpliceApart(l.who, k, t, x);
    }

    /** The list half of prv_timer_remove_from_active. */
    method Unlink(t: Timer, ghost l: Line<Timer>, ghost k: nat, ghost x: seq<Timer>)
      requires Linked(l, x) && k < |l.who| && l.who[k] == t
      modifies `activeList, l.who`next
      ensures t.next == old(t.next)
      ensures Chain(activeList, Cut(l.who, k)) && Entries(l) && Chain(expiredList, x)
    {
      var prev: Timer?, iter := null, activeList;
      ghost var who, j := l.who, 0;
      while iter != null && iter != t
        invariant 0 <= j <= k && iter == NodeAt(who, j) && prev == NodeAt(who, j - 1)
        decreases k - j
      {
        assert who[j].next == NodeAt(who, j + 1);
        prev := iter;
        iter := iter.next;
        j := j + 1;
      }
      assert j < k ==> Differ(who, j, k);
      assert t.next == NodeAt(who, k + 1);
      if iter != null {
        CutOut(t, prev, l, k, x);
      }
    }

    method CutOut(t: Timer, prev: Timer?, ghost l: Line<Timer>, ghost k: nat, ghost x: seq<Timer>)
      requires Linked(l, x) && k < |l.who| && l.who[k] == t && prev == NodeAt(l.who, k - 1)
      modifies `activeList, l.who`next
      ensures t.next == old(t.next)
      ensures Chain(activeList, Cut(l.who, k)) && Entries(l) && Chain(expiredList, x)
    {
      ghost var who := l.who;
      assert t.next == NodeAt(who, k + 1);
      if prev != null {
        assert Differ(who, k - 1, k);
        prev.next := t.next;
      } else {
        activeList := t.next;
      }
      forall i | 0 <= i < |x| ensures x[i].next == NodeAt(x, i + 1) {
        assert x[i] in x && old(x[i].next) == NodeAt(x, i + 1);
        assert prev != null ==> prev in who;
      }
      ghost var e := Cut(who, k);
      forall i | 0 <= i < |e| ensures e[i].next == NodeAt(e, i + 1) {
        var m := if i < k then i else i + 1;
        assert e[i] == who[m] && NodeAt(e, i + 1) == NodeAt(who, if i + 1 < k then i + 1 else i + 2);
        assert old(who[m].next) == NodeAt(who, m + 1);
        assert m < k - 1 ==> Differ(who, m, k - 1);
        assert 0 < k <= m ==> Differ(who, k - 1, m);
      }
      CutDistinct(who, k);
    }

    /** prv_timer_remove_from_active */
    method RemoveFromActive(t: Timer, ghost l: Line<Timer>, ghost x: seq<Timer>, ghost k: nat)
      requires Rep(l, x) && k < |l.who| && l.who[k] == t
      modifies `activeList, l.who`next, l.who`remaining
      ensures Rep(Removed(l, k), x) && t !in Removed(l, k).who
    {
      assert t.next == NodeAt(l.who, k + 1) && t.remaining == l.delta[k];
      Unlink(t, l, k, x);
      CutLacks(l.who, k);
      CutApart(l.who, k, x);
      PassOn(t, l, k);
    }

    /** The arithmetic of prv_timer_remove_from_active. */
    method PassOn(t: Timer, ghost l: Line<Timer>, ghost k: nat)
      requires Entries(l) && Distinct(l.who) && k < |l.who| && l.who[k] == t && t.next == NodeAt(l.who, k + 1)
      modifies l.who`remaining
      ensures Entries(Removed(l, k))
    {
      assert t.remaining == l.delta[k];
      if t.next != null {
        assert l.who[k + 1].remaining == l.delta[k + 1];
        t.next.remaining := (t.next.remaining + t.remaining) % TICKS;
      }
      ghost var e := Removed(l, k);
      forall i | 0 <= i < |e.who| ensures e.who[i].remaining == e.delta[i] && e.who[i].active {
        var m := if i < k then i else i + 1;
        assert old(l.who[m].remaining) == l.delta[m] && l.who[m].active && e.who[i] == l.who[m];
        assert m < k + 1 < |l.who| ==> Differ(l.who, m, k + 1);
        assert k + 1 < m ==> Differ(l.who, k + 1, m);
      }
    }

    // ---------- The calls ----------

    /** The list that os_timer_start inserts into: without the timer. */
    ghost function Without(l: Line<Timer>, k: nat): Line<Timer>
      requires |l.who| == |l.delta|
    {
      if k < |l.who| then Removed(l, k) else l
    }

    /** k is where t is on the list, or its end; and the timer's own flag agrees. */
    ghost predicate Sits(t: Timer, l: Line<Timer>, k: nat)
      reads t
    {
      if t.active then k < |l.who| && l.who[k] == t else k == |l.who| && t !in l.who
    }

    /**
     os_timer_start. The active list is right in any case; the expired list is not cut off exactly if the timer was
     not on it, or was its last and is put last on the active list too.
     */
    method Start(t: Timer, ghost l: Line<Timer>, ghost x: seq<Timer>, ghost k: nat)
      requires Rep(l, x) && Sits(t, l, k)
      modifies `activeList, l.who`next, l.who`remaining, t`next, t`remaining, t`active
      ensures t !in x ==> Rep(Inserted(Without(l, k), t, t.period), x)
      ensures var d := Inserted(Without(l, k), t, t.period); Chain(activeList, d.who) && Entries(d)
      ensures Chain(expiredList, x) <==>
        t !in x || (x[|x| - 1] == t && Where(Without(l, k).delta, t.period) == |Without(l, k).who|)
    {
      if t.active {
        RemoveFromActive(t, l, x, k);
      }
      Arm(t, Without(l, k), x);
    }

    /** The insertion in os_timer_start. */
    method Arm(t: Timer, ghost l: Line<Timer>, ghost x: seq<Timer>)
      requires Rep(l, x) && t !in l.who
      modifies `activeList, l.who`next, l.who`remaining, t`next, t`remaining, t`active
      ensures Chain(activeList, Inserted(l, t, t.period).who) && Entries(Inserted(l, t, t.period))
      ensures Chain(expiredList, x) <==> t !in x || (x[|x| - 1] == t && Where(l.delta, t.period) == |l.who|)
      ensures t !in x ==> Rep(Inserted(l, t, t.period), x)
    {
      t.remaining := t.period;
      t.active := true;
      ghost var p := Where(l.delta, t.period);
      Insert(t, l, x);
      IntactIff(expiredList, x, t, l.who, p);
      if t !in x {
        SpliceApart(l.who, p, t, x);
      }
    }

    /** os_timer_stop, os_timer_delete */
    method Stop(t: Timer, ghost l: Line<Timer>, ghost x: seq<Timer>, ghost k: nat)
      requires Rep(l, x) && Sits(t, l, k)
      modifies `activeList, l.who`next, l.who`remaining, t`active
      ensures Rep(Without(l, k), x) && !t.active
    {
      if t.active {
        RemoveFromActive(t, l, x, k);
        t.active := false;
      }
    }

    /** os_timer_reset */
    method Reset(t: Timer, ghost l: Line<Timer>, ghost x: seq<Timer>, ghost k: nat)
      requires Rep(l, x) && Sits(t, l, k)
      modifies `activeList, l.who`next, l.who`remaining, t`next, t`remaining
      ensures Rep(if old(t.active) then Inserted(Removed(l, k), t, t.period) else l, x)
    {
      if t.active {
        RemoveFromActive(t, l, x, k);
        t.remaining := t.period;
        InsertSorted(t, Removed(l, k), x);
      }
    }

    /** os_timer_change_period */
    method ChangePeriod(t: Timer, period: nat, ghost l: Line<Timer>, ghost x: seq<Timer>,
        ghost k: nat) returns (st: Status)
      requires Rep(l, x) && Sits(t, l, k)
      modifies `activeList, l.who`next, l.who`remaining, t`next, t`remaining, t`period
      ensures st == if period == 0 then ErrParam else Ok
      ensures t.period == if period == 0 then old(t.period) else period
      ensures Rep(if period != 0 && old(t.active) then Inserted(Removed(l, k), t, period) else l, x)
    {
      if period == 0 {
        return ErrParam;
      }
      t.period := period;
      if t.active {
        RemoveFromActive(t, l, x, k);
        t.remaining := period;
        InsertSorted(t, Removed(l, k), x);
      }
      return Ok;
    }

    // ---------- The tick ----------

    /**
     One turn of the loop in os_timer_tick: the first timer goes to the front of the expired list. One that reloads is
     put back on the active list before that, and then its link is given to the expired list: the active list is not
     cut off exactly if the timer is last on it and the expired list is empty.
     */
    method Expire(ghost l: Line<Timer>, ghost x: seq<Timer>)
      requires Rep(l, x) && l.who != []
      modifies this, l.who`next, l.who`active, l.who`remaining
      ensures !l.who[0].autoReload ==> Rep(Line(l.who[1..], l.delta[1..]), [l.who[0]] + x)
      ensures l.who[0].autoReload ==> Reloaded(l.who[0], Line(l.who[1..], l.delta[1..]), x)
    {
      PopShape(l.who, x);
      assert l.who[1..] == Cut(l.who, 0);
      var timer := TakeFirst(l, x);
      if timer.autoReload {
        Reload(timer, Line(l.who[1..], l.delta[1..]), x);
      } else {
        PushExpired(timer, Line(l.who[1..], l.delta[1..]), x);
      }
    }

    /** t is on both lists, and there is one link for the two. */
    ghost predicate Reloaded(t: Timer, l: Line<Timer>, x: seq<Timer>)
      requires |l.who| == |l.delta|
      reads this, t, l.who, x
    {
      var d := Inserted(l, t, t.period);
      && Entries(d) && Chain(expiredList, [t] + x) && ChainBut(activeList, d.who, t)
      && (Chain(activeList, d.who) <==> x == [] && Where(l.delta, t.period) == |l.who|)
    }

    /** The expiry of a timer that reloads, once it is off the active list. */
    method Reload(t: Timer, ghost l: Line<Timer>, ghost x: seq<Timer>)
      requires Rep(l, x) && t !in l.who && t !in x && t.active
      requires Distinct([t] + x) && Apart(l.who, [t] + x)
      modifies this, l.who`next, l.who`remaining, t`next, t`remaining
      ensures Reloaded(t, l, x)
    {
      t.remaining := t.period;
      ghost var k := Where(l.delta, t.period);
      ghost var d := Inserted(l, t, t.period);
      SpliceEntries(l.who, k, t);
      SpliceApart(l.who, k, t, x);
      Insert(t, l, x);
      ChainWithout(expiredList, x, t);
      Relink(t, d, k, x);
      assert k + 1 < |d.who| ==> Differ(d.who, k, |d.who| - 1);
      IntactIff(activeList, d.who, t, x, 0);
    }

    /** timer->next = expired_list, of a timer that is at k on the active list. */
    method Relink(t: Timer, ghost d: Line<Timer>, ghost k: nat, ghost x: seq<Timer>)
      requires Chain(activeList, d.who) && Entries(d) && k < |d.who| && d.who[k] == t && Chain(expiredList, x)
      requires Distinct([t] + x) && Apart(d.who, x)
      modifies `expiredList, t`next
      ensures Chain(expiredList, [t] + x) && ChainBut(activeList, d.who, t) && Entries(d)
      ensures t.next == NodeAt(x, 0)
    {
      NotBehind(t, x);
      t.next := expiredList;
      expiredList := t;
      Prepended(t, x);
    }

    /** The first timer off the active list. */
    method TakeFirst(ghost l: Line<Timer>, ghost x: seq<Timer>) returns (timer: Timer)
      requires Rep(l, x) && l.who != []
      modifies `activeList
      ensures timer == l.who[0] && timer.active
      ensures Rep(Line(l.who[1..], l.delta[1..]), x)
    {
      timer := activeList;
      assert l.who[0].next == NodeAt(l.who, 1) && l.who[0].active;
      activeList := timer.next;
      ghost var w, d := l.who[1..], l.delta[1..];
      PopShape(l.who, x);
      forall i | 0 <= i < |w| ensures w[i].next == NodeAt(w, i + 1) && w[i].remaining == d[i] && w[i].active {
        assert w[i] == l.who[i + 1] && d[i] == l.delta[i + 1] && NodeAt(w, i + 1) == NodeAt(l.who, i + 2);
        assert l.who[i + 1].next == NodeAt(l.who, i + 2) && l.who[i + 1].active;
        assert l.who[i + 1].remaining == l.delta[i + 1];
      }
    }

    /** A one-shot timer put at the front of the expired list. */
    method PushExpired(timer: Timer, ghost l: Line<Timer>, ghost x: seq<Timer>)
      requires Rep(l, x) && timer !in l.who && timer !in x
      requires Distinct([timer] + x) && Apart(l.who, [timer] + x)
      modifies `expiredList, timer`next, timer`active
      ensures Rep(l, [timer] + x)
    {
      timer.active := false;
      timer.next := expiredList;
      expiredList := timer;
      Prepended(timer, x);
    }

    /** active_timer_list->remaining-- */
    method CountDown(ghost l: Line<Timer>, ghost x: seq<Timer>)
      requires Rep(l, x) && activeList != null
      modifies l.who`remaining
      ensures Rep(Line(l.who, Decremented(l.delta)), x)
    {
      assert l.who[0].remaining == l.delta[0];
      activeList.remaining := if activeList.remaining == 0 then TICKS - 1 else activeList.remaining - 1;
      ghost var d := Decremented(l.delta);
      forall i | 0 <= i < |l.who| ensures l.who[i].remaining == d[i] {
        assert old(l.who[i].remaining) == l.delta[i];
        assert i > 0 ==> Differ(l.who, 0, i);
      }
    }

    /** os_timer_tick, on which no timer reloads; the semaphore is given when something expired. */
    method Tick(ghost l: Line<Timer>, ghost x: seq<Timer>) returns (signal: bool)
      requires Rep(l, x) && forall t :: t in Expiring(l) ==> !t.autoReload
      modifies this, l.who`next, l.who`active, l.who`remaining
      ensures Rep(TickLine(l), Reversed(Expiring(l)) + x) && signal == (Expiring(l) != [])
    {
      signal := false;
      if activeList == null {
        assert l.who == [] && Reversed(Expiring(l)) + x == x;
        return;
      }
      CountDown(l, x);
      signal := PopAll(Line(l.who, Decremented(l.delta)), x);
    }

    /** The loop in os_timer_tick. */
    method PopAll(ghost l: Line<Timer>, ghost x: seq<Timer>) returns (signal: bool)
      requires Rep(l, x) && forall t :: t in l.who[..Zeros(l.delta)] ==> !t.autoReload
      modifies this, l.who`next, l.who`active, l.who`remaining
      ensures var z := Zeros(l.delta);
        Rep(Line(l.who[z..], l.delta[z..]), Reversed(l.who[..z]) + x) && signal == (z > 0)
    {
      signal := false;
      ghost var d, n, r := l.delta, 0, Line(l.who, l.delta);
      ghost var y := x;
      while activeList != null && activeList.remaining == 0
        invariant 0 <= n <= |l.who| && Zeros(d) == n + Zeros(d[n..]) && signal == (n > 0)
        invariant r == Line(l.who[n..], d[n..]) && y == Reversed(l.who[..n]) + x && Rep(r, y)
        decreases |l.who| - n
      {
        assert r.who[0].remaining == r.delta[0];
        assert n < Zeros(d) && l.who[..Zeros(d)][n] == r.who[0];
        Expire(r, y);
        NextTurn(l, x, n);
        signal := true;
        r, y, n := Line(r.who[1..], r.delta[1..]), [r.who[0]] + y, n + 1;
      }
      assert activeList != null ==> r.who[0].remaining == r.delta[0];
    }

    /** service task: the expired timers, in the order in which their callbacks are called. */
    method Drain(ghost l: Line<Timer>, ghost x: seq<Timer>) returns (called: seq<Timer>)
      requires Rep(l, x)
      modifies `expiredList, x`next
      ensures called == x && Rep(l, [])
    {
      var list := expiredList;
      expiredList := null;
      called := [];
      ghost var n := 0;
      while list != null
        invariant 0 <= n <= |x| && called == x[..n] && list == NodeAt(x, n)
        invariant expiredList == null && Chain(activeList, l.who) && Entries(l) && Rest(x, n)
        decreases |x| - n
      {
        assert x[n].next == NodeAt(x, n + 1);
        var timer := list;
        list := timer.next;
        Clear(timer, l, x, n);
        called := called + [timer];
        n := n + 1;
      }
    }

    ghost predicate Rest(x: seq<Timer>, n: nat)
      reads x
    {
      forall i {:trigger x[i].next} :: n <= i < |x| ==> x[i].next == NodeAt(x, i + 1)
    }

    method Clear(t: Timer, ghost l: Line<Timer>, ghost x: seq<Timer>, ghost n: nat)
      requires Chain(activeList, l.who) && Entries(l) && Rest(x, n) && Apart(l.who, x) && Distinct(x)
      requires n < |x| && x[n] == t
      modifies t`next
      ensures Chain(activeList, l.who) && Entries(l) && Rest(x, n + 1)
    {
      t.next := null;
      forall i | 0 <= i < |l.who| ensures l.who[i].next == NodeAt(l.who, i + 1) {
        assert old(l.who[i].next) == NodeAt(l.who, i + 1) && l.who[i] in l.who && x[n] in x;
      }
      forall i | n < i < |x| ensures x[i].next == NodeAt(x, i + 1) {
        assert old(x[i].next) == NodeAt(x, i + 1) && Differ(x, n, i);
      }
    }
  }

  lemma OneEntry(a: Timer)
    ensures Inserted(Line([], []), a, 1) == Line([a], [1])
  {
  }

  lemma TwoEntries(a: Timer, b: Timer)
    ensures Inserted(Line([a], [1]), b, 1) == Line([a, b], [1, 0]) && Where([1], 1) == 1
  {
    assert Where([1], 1) == 1;
  }

  lemma BothExpire(a: Timer, b: Timer)
    ensures var l := Line([a, b], [1, 0]); TickLine(l) == Line([], []) && Reversed(Expiring(l)) == [b, a]
  {
    var d := Decremented([1, 0]);
    assert d == [0, 0] && d[1..] == [0];
    assert Zeros(d) == 2;
    assert [a, b][..2] == [a, b] && [a, b][..1] == [a] && [a][..0] == [];
    assert Reversed([a]) == [a] + Reversed<Timer>([]);
  }

  method OneStarted() returns (service: TimerService, a: Timer)
    ensures fresh(service) && fresh(a) && a.period == 1 && !a.autoReload
    ensures service.Rep(Line([a], [1]), [])
  {
    service := new TimerService();
    a := new Timer(false, 1);
    OneEntry(a);
    service.Start(a, Line([], []), [], 0);
  }

  method TwoStarted() returns (service: TimerService, a: Timer, b: Timer)
    ensures fresh(service) && fresh(a) && fresh(b) && a != b && b.period == 1 && !a.autoReload && !b.autoReload
    ensures service.Rep(Line([a, b], [1, 0]), [])
  {
    service, a := OneStarted();
    b := new Timer(false, 1);
    TwoEntries(a, b);
    assert service.Sits(b, Line([a], [1]), 1);
    service.Start(b, Line([a], [1]), [], 1);
  }

  method BothExpired() returns (service: TimerService, a: Timer, b: Timer)
    ensures fresh(service) && fresh(a) && fresh(b) && a != b && b.period == 1
    ensures service.Rep(Line([], []), [b, a])
  {
    service, a, b := TwoStarted();
    BothExpire(a, b);
    var _ := service.Tick(Line([a, b], [1, 0]), []);
    assert [b, a] + [] == [b, a];
  }

  /**
   Two timers expire on one tick; before the service task runs, the first of the two on the expired list is started
   again. The other one has expired, and its callback is never called: nothing leads to it any more.
   */
  method StartLosesExpired() returns (service: TimerService, a: Timer, b: Timer)
    ensures fresh(service) && fresh(a) && fresh(b) && a != b
    ensures service.activeList == b && service.expiredList == b && b.next == null && !a.active
  {
    service, a, b := BothExpired();
    service.Start(b, Line([], []), [b, a], 0);
    OneEntry(b);
    assert [b][0].next == NodeAt([b], 1);
  }
}
