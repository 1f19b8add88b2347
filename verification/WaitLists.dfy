/**
 The wait list of one synchronisation object: highest priority first, first come first served among equals,
 and untouched by every call that is not about the object.
 */
module WaitLists {
  import opened KernelTypes
  import opened KernelSpec
  import opened KernelSteps
  import opened KernelRuns

  /** The priority order, ties broken by the time of arrival. */
  predicate Before(tasks: seq<Task>, stamp: map<nat, nat>, a: nat, b: nat) {
    a in stamp && b in stamp &&
    (PrioOf(tasks, a) < PrioOf(tasks, b) || (PrioOf(tasks, a) == PrioOf(tasks, b) && stamp[a] < stamp[b]))
  }

  /** l is sorted by Before. */
  predicate Ordered(l: seq<nat>, tasks: seq<Task>, stamp: map<nat, nat>) {
    forall i, j :: 0 <= i < j < |l| ==> Before(tasks, stamp, l[i], l[j])
  }

  /** Every arrival so far came before `now`. */
  predicate Stamped(l: seq<nat>, stamp: map<nat, nat>, now: nat) {
    forall i :: 0 <= i < |l| ==> l[i] in stamp && stamp[l[i]] < now
  }

  /** Inserting a newcomer at InsertPos keeps the order: behind its equals, ahead of its inferiors. */
  lemma InsertKeepsOrder(l: seq<nat>, tasks: seq<Task>, stamp: map<nat, nat>, now: nat, t: nat)
    requires Ordered(l, tasks, stamp) && Stamped(l, stamp, now) && t !in l
    ensures var l' := Splice(l, InsertPos(l, tasks, PrioOf(tasks, t)), t);
      Ordered(l', tasks, stamp[t := now]) && Stamped(l', stamp[t := now], now + 1)
  {
    var k := InsertPos(l, tasks, PrioOf(tasks, t));
    var l' := Splice(l, k, t);
    forall i | 0 <= i < |l'| ensures l'[i] == if i < k then l[i] else if i == k then t else l[i - 1] {}
    forall i, j | 0 <= i < j < |l'| ensures Before(tasks, stamp[t := now], l'[i], l'[j]) {
      InsertedBefore(l, tasks, stamp, now, t, k, i, j);
    }
  }

  lemma InsertedBefore(l: seq<nat>, tasks: seq<Task>, stamp: map<nat, nat>, now: nat, t: nat, k: nat, i: nat, j: nat)
    requires Ordered(l, tasks, stamp) && Stamped(l, stamp, now) && t !in l && k <= |l| && i < j <= |l|
    requires i < k == j ==> PrioOf(tasks, l[i]) <= PrioOf(tasks, t)
    requires k < |l| ==> PrioOf(tasks, t) < PrioOf(tasks, l[k])
    ensures var a := if i < k then l[i] else if i == k then t else l[i - 1];
      var b := if j < k then l[j] else if j == k then t else l[j - 1];
      Before(tasks, stamp[t := now], a, b)
  {
    if i == k {
      assert j - 1 > k ==> Before(tasks, stamp, l[k], l[j - 1]);
    } else if j != k {
      assert Before(tasks, stamp, l[if i < k then i else i - 1], l[if j < k then j else j - 1]);
    }
  }

  lemma CutKeepsOrder(l: seq<nat>, tasks: seq<Task>, stamp: map<nat, nat>, now: nat, k: nat)
    requires Ordered(l, tasks, stamp) && Stamped(l, stamp, now) && k < |l|
    ensures Ordered(Cut(l, k), tasks, stamp) && Stamped(Cut(l, k), stamp, now)
  {
    var c := Cut(l, k);
    forall i, j | 0 <= i < j < |c| ensures Before(tasks, stamp, c[i], c[j]) {
      assert Before(tasks, stamp, l[if i < k then i else i + 1], l[if j < k then j else j + 1]);
    }
  }

  /** Fields of tasks off the list, and additions to the table, do not matter. */
  lemma SamePriosKeepOrder(l: seq<nat>, tasks: seq<Task>, tasks': seq<Task>, stamp: map<nat, nat>)
    requires Ordered(l, tasks, stamp)
    requires forall i :: 0 <= i < |l| ==> PrioOf(tasks', l[i]) == PrioOf(tasks, l[i])
    ensures Ordered(l, tasks', stamp)
  {
    forall i, j | 0 <= i < j < |l| ensures Before(tasks', stamp, l[i], l[j]) {
      assert Before(tasks, stamp, l[i], l[j]);
    }
  }

  // ---------- Calls that are about something else ----------

  /** The call does not park its caller on w; only the object that owns w does that. */
  predicate Foreign(op: Op, w: nat) {
    op.DoPark? ==> op.w != w
  }

  /** The call neither parks on w, nor releases a waiter of w, nor re-prioritises one. */
  predicate Minds(s: Sys, op: Op, w: nat) {
    match op
    case DoPark(v, _, _) => v != w
    case DoRelease(t) => t < |s.tasks| && s.tasks[t].blockedOn != Some(w)
    case DoSetPriority(t, _) => t < |s.tasks| && s.tasks[t].blockedOn != Some(w)
    case _ => true
  }

  /** On an event group: the condition a waiter waits for. */
  predicate SameCondition(tasks: seq<Task>, tasks': seq<Task>, x: nat) {
    && x < |tasks| && x < |tasks'|
    && tasks'[x].waitBits == tasks[x].waitBits && tasks'[x].waitOptions == tasks[x].waitOptions
  }

  /** What a waiter waits with: its priority and its condition. */
  predicate SameWish(tasks: seq<Task>, tasks': seq<Task>, x: nat) {
    SameCondition(tasks, tasks', x) && tasks'[x].prio == tasks[x].prio
  }

  /** Wait list w and what its members wait for are the same in both states. */
  predicate SameWaiters(s: Sys, s': Sys, w: nat) {
    && w < |s.waits| && w < |s'.waits| && s'.waits[w] == s.waits[w]
    && forall i :: 0 <= i < |s.waits[w]| ==> SameWish(s.tasks, s'.tasks, s.waits[w][i])
  }

  lemma WaitersAreOn(s: Sys, limbo: set<nat>, w: nat)
    requires Placed(s, limbo) && w < |s.waits|
    ensures forall i :: 0 <= i < |s.waits[w]| ==>
      s.waits[w][i] < |s.tasks| && HomeOf(s.tasks[s.waits[w][i]]) == OnWait(w)
  {
    forall i | 0 <= i < |s.waits[w]|
      ensures s.waits[w][i] < |s.tasks| && HomeOf(s.tasks[s.waits[w][i]]) == OnWait(w)
    {
      assert Belongs(s, limbo, OnWait(w), ListOf(s, OnWait(w))[i]);
    }
  }

  /** A task that is not on w goes off its list, takes new fields and joins a list other than w. */
  /** s' has the wait list w of s, and every task that is on it. */
  predicate SameButOthers(s: Sys, s': Sys, x: nat, w: nat) {
    && w < |s.waits| && w < |s'.waits| && s'.waits[w] == s.waits[w]
    && |s'.tasks| == |s.tasks| && forall i :: 0 <= i < |s.tasks| && i != x ==> s'.tasks[i] == s.tasks[i]
  }

  lemma OthersSameWaiters(s: Sys, s': Sys, x: nat, w: nat)
    requires Placed(s, {}) && x < |s.tasks| && SameButOthers(s, s', x, w) && HomeOf(s.tasks[x]) != OnWait(w)
    ensures SameWaiters(s, s', w)
  {
    WaitersAreOn(s, {}, w);
  }

  lemma MovesOnly(s: Sys, x: nat, r: Task, w: nat)
    requires x < |s.tasks| && w < |s.waits| && HomeOf(s.tasks[x]) != OnWait(w)
    ensures SameButOthers(s, Put(s, x, r), x, w) && SameButOthers(s, Put(Detach(s, x), x, r), x, w)
    ensures SameButOthers(s, AddToReady(s, x), x, w)
    ensures SameButOthers(s, AddToReady(Put(Detach(s, x), x, r), x), x, w)
  {
  }

  lemma PutKeepsWaiters(s: Sys, x: nat, r: Task, w: nat)
    requires Placed(s, {}) && x < |s.tasks| && w < |s.waits| && HomeOf(s.tasks[x]) != OnWait(w)
    ensures SameWaiters(s, Put(s, x, r), w)
    ensures SameWaiters(s, Put(Detach(s, x), x, r), w)
    ensures SameWaiters(s, AddToReady(Put(Detach(s, x), x, r), x), w)
    ensures SameWaiters(s, AddToReady(s, x), w)
  {
    MovesOnly(s, x, r, w);
    OthersSameWaiters(s, Put(s, x, r), x, w);
    OthersSameWaiters(s, Put(Detach(s, x), x, r), x, w);
    OthersSameWaiters(s, AddToReady(Put(Detach(s, x), x, r), x), x, w);
    OthersSameWaiters(s, AddToReady(s, x), x, w);
  }

  lemma {:induction false} TickKeepsWaiters(s: Sys, todo: seq<nat>, w: nat)
    requires Inv(s) && IsSuffix(todo, s.blocked) && w < |s.waits|
    ensures SameWaiters(s, TickAll(s, todo), w)
    decreases |todo|
  {
    WaitersAreOn(s, {}, w);
    if todo != [] {
      var x := todo[0];
      var d := TickOne(s, x);
      TickOneSuffix(s, todo);
      InvAt(s, x);
      if s.tasks[x].delay > 0 {
        PutKeepsWaiters(s, x, s.tasks[x].(delay := s.tasks[x].delay - 1), w);
      }
      TickKeepsWaiters(d, todo[1..], w);
    }
  }

  lemma SwitchKeepsWaiters(s: Sys, next: Option<nat>, w: nat)
    requires Inv(s) && w < |s.waits|
    ensures SameWaiters(s, SwitchTo(s, next), w)
  {
    WaitersAreOn(s, {}, w);
  }

  lemma SelectKeepsWaiters(s: Sys, w: nat)
    requires Inv(s) && w < |s.waits|
    ensures SameWaiters(s, SelectNext(s), w)
  {
    WaitersAreOn(s, {}, w);
    if HighestReady(s).Some? {
      HighestIsReady(s);
      SwitchKeepsWaiters(s, HighestReady(s), w);
      if HighestReady(s) == s.current {
        RotateReady(s);
        RotateInv(s, s.current.value);
        var d := AddToReady(Detach(s, s.current.value), s.current.value);
        SwitchKeepsWaiters(d, HighestReady(d), w);
      }
    }
  }

  lemma NotifyKeepsWaiters(s: Sys, x: nat, v: nat, w: nat)
    requires Inv(s) && x < |s.tasks| && w < |s.waits|
    ensures SameWaiters(s, NotifyTask(s, x, v), w)
  {
    WaitersAreOn(s, {}, w);
    InvAt(s, x);
    var r := s.tasks[x].(notifyValue := v, notifyPending := true);
    if r.state == Blocked && r.reason == Notify {
      TouchInv(s, x, r);
      PutKeepsWaiters(Put(s, x, r), x, r.(reason := NoReason, delay := 0, timedOut := false), w);
    }
  }

  lemma CallersKeepWaiters(s: Sys, op: Op, w: nat)
    requires Inv(s) && Enabled(s, op) && Minds(s, op, w) && w < |s.waits|
    requires op.DoDelay? || op.DoNotifyWait? || op.DoPark?
    ensures SameWaiters(s, Step(s, op), w)
  {
    WaitersAreOn(s, {}, w);
    InvAt(s, s.current.value);
    match op
    case DoDelay(_) =>
    case DoNotifyWait(_) =>
    case DoPark(v, reason, timeout) => ParkElsewhere(s, v, reason, timeout, w);
  }

  lemma ParkElsewhere(s: Sys, v: nat, reason: Reason, timeout: nat, w: nat)
    requires Inv(s) && Enabled(s, DoPark(v, reason, timeout)) && v != w && w < |s.waits|
    ensures SameWaiters(s, Park(s, v, reason, timeout), w)
  {
    WaitersAreOn(s, {}, w);
  }

  lemma TaskCallsKeepWaiters(s: Sys, op: Op, w: nat)
    requires Inv(s) && Enabled(s, op) && w < |s.waits|
    requires op.DoCreate? || op.DoNewObject? || op.DoSuspend? || op.DoResume?
    ensures SameWaiters(s, Step(s, op), w)
  {
    WaitersAreOn(s, {}, w);
  }

  /** Re-prioritising or releasing a task that is not on w. */
  lemma MovesKeepWaiters(s: Sys, op: Op, w: nat)
    requires Inv(s) && Enabled(s, op) && Minds(s, op, w) && w < |s.waits|
    requires op.DoSetPriority? || op.DoRelease?
    ensures SameWaiters(s, Step(s, op), w)
  {
    InvAt(s, op.t);
    var r := if op.DoSetPriority? then s.tasks[op.t].(prio := op.prio)
             else s.tasks[op.t].(blockedOn := None, reason := NoReason, delay := 0, timedOut := false);
    PutKeepsWaiters(s, op.t, r, w);
  }

  lemma OthersKeepWaiters(s: Sys, op: Op, w: nat)
    requires Inv(s) && Enabled(s, op) && Minds(s, op, w) && w < |s.waits|
    ensures SameWaiters(s, Step(s, op), w)
  {
    match op
    case DoTick => TickKeepsWaiters(s, s.blocked, w);
    case DoSelect => SelectKeepsWaiters(s, w);
    case DoNotify(x, v) => NotifyKeepsWaiters(s, x, v, w);
    case _ =>
      if op.DoDelay? || op.DoNotifyWait? || op.DoPark? {
        CallersKeepWaiters(s, op, w);
      } else if op.DoSetPriority? || op.DoRelease? {
        MovesKeepWaiters(s, op, w);
      } else {
        TaskCallsKeepWaiters(s, op, w);
      }
  }

  /** Nobody new waits on w, and whoever still does waits for the same condition. */
  predicate OnlyFewer(s: Sys, s': Sys, w: nat) {
    && w < |s.waits| && w < |s'.waits|
    && forall x :: x in s'.waits[w] ==> x in s.waits[w] && SameCondition(s.tasks, s'.tasks, x)
  }

  /** Whatever else happens, boosts and priority changes of the waiters included, w gets no new waiters. */
  lemma ForeignOnlyFewer(s: Sys, op: Op, w: nat)
    requires Inv(s) && Enabled(s, op) && Foreign(op, w) && w < |s.waits|
    ensures OnlyFewer(s, Step(s, op), w)
  {
    if Minds(s, op, w) {
      OthersKeepWaiters(s, op, w);
      assert SameWaiters(s, Step(s, op), w);
    } else if op.DoRelease? {
      ReleasedFewer(s, op.t, w);
    } else {
      PrioritisedSame(s, op.t, op.prio, w);
    }
  }

  lemma ReleasedFewer(s: Sys, t: nat, w: nat)
    requires Inv(s) && t < |s.tasks| && s.tasks[t].blockedOn == Some(w) && w < |s.waits|
    ensures OnlyFewer(s, Release(s, t), w)
  {
    InvAt(s, t);
    WaitersAreOn(s, {}, w);
    var k :| 0 <= k < |s.waits[w]| && s.waits[w][k] == t;
    ReleaseWaiters(s, w, k);
  }

  lemma PrioritisedSame(s: Sys, t: nat, p: nat, w: nat)
    requires Inv(s) && t < |s.tasks| && s.tasks[t].blockedOn == Some(w) && w < |s.waits|
    ensures OnlyFewer(s, SetPriority(s, t, p), w)
  {
    InvAt(s, t);
    WaitersAreOn(s, {}, w);
  }

  /** A waiter stays on w whatever else happens, unless it is released itself. */
  lemma StaysWaiting(s: Sys, op: Op, w: nat, t: nat)
    requires Inv(s) && Enabled(s, op) && Foreign(op, w) && w < |s.waits| && t in s.waits[w]
    requires op.DoRelease? ==> op.t != t
    ensures w < |Step(s, op).waits| && t in Step(s, op).waits[w]
  {
    if Minds(s, op, w) {
      OthersKeepWaiters(s, op, w);
    } else if op.DoRelease? {
      InvAt(s, op.t);
      WaitersAreOn(s, {}, w);
      var k :| 0 <= k < |s.waits[w]| && s.waits[w][k] == op.t;
      var j :| 0 <= j < |s.waits[w]| && s.waits[w][j] == t;
      ReleaseWaiters(s, w, k);
      assert Cut(s.waits[w], k)[if j < k then j else j - 1] == t;
    } else {
      InvAt(s, op.t);
      WaitersAreOn(s, {}, w);
    }
  }

  // ---------- Calls that are about w ----------

  lemma SpliceOnlyAdds(l: seq<nat>, k: nat, t: nat)
    requires k <= |l|
    ensures forall x :: x in Splice(l, k, t) ==> x == t || x in l
  {
  }

  lemma ParkWaiters(s: Sys, w: nat, reason: Reason, timeout: nat)
    requires Inv(s) && Enabled(s, DoPark(w, reason, timeout))
    ensures var t, d := s.current.value, Park(s, w, reason, timeout);
      && t !in s.waits[w] && w < |d.waits| && |d.tasks| == |s.tasks|
      && d.waits[w] == Splice(s.waits[w], InsertPos(s.waits[w], s.tasks, s.tasks[t].prio), t)
      && (forall x :: PrioOf(d.tasks, x) == PrioOf(s.tasks, x))
  {
    var t := s.current.value;
    WaitersAreOn(s, {}, w);
    InvAt(s, t);
    var r := s.tasks[t].(blockedOn := Some(w), reason := reason, timedOut := false, delay := timeout, state := Blocked);
    var s1 := Put(Detach(s, t), t, r);
    assert s1.waits[w] == s.waits[w] && ListOf(s1, OnWait(w)) == s.waits[w];
    SamePos(s.waits[w], s.tasks, s1.tasks, r.prio);
  }

  lemma SamePos(l: seq<nat>, tasks: seq<Task>, tasks': seq<Task>, p: nat)
    requires forall x :: PrioOf(tasks', x) == PrioOf(tasks, x)
    ensures InsertPos(l, tasks', p) == InsertPos(l, tasks, p)
  {
  }

  lemma ReleaseWaiters(s: Sys, w: nat, k: nat)
    requires Inv(s) && w < |s.waits| && k < |s.waits[w]|
    ensures var t := s.waits[w][k];
      && t < |s.tasks| && s.tasks[t].blockedOn == Some(w)
      && var d := Release(s, t);
         && |d.tasks| == |s.tasks| && |d.waits| == |s.waits|
         && d.waits == s.waits[w := Cut(s.waits[w], k)] && d.current == s.current
         && d.tasks == s.tasks[t := s.tasks[t].(blockedOn := None, reason := NoReason, delay := 0,
             timedOut := false, state := Ready)]
  {
    WaitersAreOn(s, {}, w);
    assert NoDup(ListOf(s, OnWait(w)));
    WithoutAt(s.waits[w], k);
  }

  /** Taking any waiter off w leaves the others in order. */
  lemma ReleaseKeepsOrder(s: Sys, w: nat, k: nat, stamp: map<nat, nat>, now: nat)
    requires Inv(s) && w < |s.waits| && k < |s.waits[w]|
    requires Ordered(s.waits[w], s.tasks, stamp) && Stamped(s.waits[w], stamp, now)
    ensures s.waits[w][k] < |s.tasks|
    ensures var d := Release(s, s.waits[w][k]);
      && w < |d.waits| && Ordered(d.waits[w], d.tasks, stamp) && Stamped(d.waits[w], stamp, now)
  {
    ReleaseWaiters(s, w, k);
    CutKeepsOrder(s.waits[w], s.tasks, stamp, now, k);
    SamePriosKeepOrder(Cut(s.waits[w], k), s.tasks, Release(s, s.waits[w][k]).tasks, stamp);
  }

  /** A parked caller takes its place in the order. */
  lemma ParkKeepsOrder(s: Sys, w: nat, reason: Reason, timeout: nat, stamp: map<nat, nat>, now: nat)
    requires Inv(s) && Enabled(s, DoPark(w, reason, timeout))
    requires Ordered(s.waits[w], s.tasks, stamp) && Stamped(s.waits[w], stamp, now)
    ensures var d := Park(s, w, reason, timeout);
      && w < |d.waits| && Ordered(d.waits[w], d.tasks, stamp[s.current.value := now])
      && Stamped(d.waits[w], stamp[s.current.value := now], now + 1)
  {
    var t := s.current.value;
    var d := Park(s, w, reason, timeout);
    ParkWaiters(s, w, reason, timeout);
    InsertKeepsOrder(s.waits[w], s.tasks, stamp, now, t);
    SamePriosKeepOrder(d.waits[w], s.tasks, d.tasks, stamp[t := now]);
  }
}
