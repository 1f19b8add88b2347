/**
 The software timers' delta list (kernel/timer.c) on values: every entry holds the ticks that separate it from the
 entry before it, so a timer is due after the sum of the entries up to its own. One-shot timers only.
 */
module TimerSpec {
  import opened KernelTypes
  import opened KernelSpec

  /** active_timer_list: the timers, and `remaining` of each. */
  datatype Line<T> = Line(who: seq<T>, delta: seq<nat>)

  /** The search loop of prv_timer_insert_sorted: the first entry above r. */
  function Where(delta: seq<nat>, r: nat): (k: nat)
    ensures k <= |delta|
    ensures k < |delta| ==> r < delta[k]
    ensures forall i :: 0 <= i < k ==> delta[i] <= r
  {
    if delta == [] || r < delta[0] then 0 else 1 + Where(delta[1..], r)
  }

  /** The new timer's own entry. */
  function Own(delta: seq<nat>, r: nat): nat {
    var k := Where(delta, r);
    if k > 0 then r - delta[k - 1] else r
  }

  /** The entry `own` put in at k, at the expense of the entry that was there. */
  function Shared(delta: seq<nat>, k: nat, own: nat): seq<nat>
    requires k <= |delta| && (k < |delta| ==> own <= delta[k])
  {
    Splice(if k < |delta| then delta[k := delta[k] - own] else delta, k, own)
  }

  function InsertedDelta(delta: seq<nat>, r: nat): seq<nat> {
    Shared(delta, Where(delta, r), Own(delta, r))
  }

  /** prv_timer_insert_sorted of a timer with r ticks to go. */
  function Inserted<T>(l: Line<T>, t: T, r: nat): Line<T>
    requires |l.who| == |l.delta|
  {
    Line(Splice(l.who, Where(l.delta, r), t), InsertedDelta(l.delta, r))
  }

  function RemovedDelta(delta: seq<nat>, k: nat): seq<nat>
    requires k < |delta|
  {
    Cut(if k + 1 < |delta| then delta[k + 1 := (delta[k + 1] + delta[k]) % TICKS] else delta, k)
  }

  /** prv_timer_remove_from_active of the timer at position k. */
  function Removed<T>(l: Line<T>, k: nat): Line<T>
    requires k < |l.who| == |l.delta|
  {
    Line(Cut(l.who, k), RemovedDelta(l.delta, k))
  }

  /** How many timers at the front have no ticks left. */
  function Zeros(delta: seq<nat>): (n: nat)
    ensures n <= |delta|
    ensures forall i :: 0 <= i < n ==> delta[i] == 0
    ensures n < |delta| ==> delta[n] != 0
  {
    if delta == [] || delta[0] != 0 then 0 else 1 + Zeros(delta[1..])
  }

  function Decremented(delta: seq<nat>): seq<nat> {
    if delta == [] then [] else delta[0 := if delta[0] == 0 then TICKS - 1 else delta[0] - 1]
  }

  /** os_timer_tick: what stays on the list. */
  function TickLine<T>(l: Line<T>): Line<T>
    requires |l.who| == |l.delta|
  {
    var d := Decremented(l.delta);
    Line(l.who[Zeros(d)..], d[Zeros(d)..])
  }

  /** The timers that expire, in list order. */
  function Expiring<T>(l: Line<T>): seq<T>
    requires |l.who| == |l.delta|
  {
    l.who[..Zeros(Decremented(l.delta))]
  }

  /** The order in which a tick leaves them on expired_list. */
  function Reversed<T>(s: seq<T>): seq<T> {
    if s == [] then [] else [s[|s| - 1]] + Reversed(s[..|s| - 1])
  }

  // ---------- Times ----------

  /** The ticks until entry i is due: the sum of the entries up to and including it. */
  function Time(delta: seq<nat>, i: nat): nat
    requires i < |delta|
  {
    if i == 0 then delta[0] else Time(delta, i - 1) + delta[i]
  }

  lemma {:induction false} TimeSame(a: seq<nat>, b: seq<nat>, i: nat)
    requires i < |a| && i < |b| && forall j :: 0 <= j <= i ==> a[j] == b[j]
    ensures Time(a, i) == Time(b, i)
  {
    if i > 0 { TimeSame(a, b, i - 1); }
  }

  lemma {:induction false} TimeMonotone(d: seq<nat>, i: nat, j: nat)
    requires i <= j < |d|
    ensures Time(d, i) <= Time(d, j)
  {
    if i < j { TimeMonotone(d, i, j - 1); }
  }

  /** The ticks by which a new timer with r to go will be late: all entries strictly before its predecessor. */
  function Late(d: seq<nat>, r: nat): nat {
    var k := Where(d, r);
    if k > 1 then Time(d, k - 2) else 0
  }

  lemma SharedEntries(d: seq<nat>, k: nat, own: nat)
    requires k <= |d| && (k < |d| ==> own <= d[k])
    ensures var e := Shared(d, k, own);
      && |e| == |d| + 1 && e[k] == own
      && (forall i :: 0 <= i < k ==> e[i] == d[i])
      && (k < |d| ==> e[k + 1] == d[k] - own)
      && (forall i {:trigger d[i]} :: k < i < |d| ==> e[i + 1] == d[i])
  {
    SpliceEntries(if k < |d| then d[k := d[k] - own] else d, k, own);
  }

  lemma SpliceEntries<T>(s: seq<T>, k: nat, x: T)
    requires k <= |s|
    ensures var e := Splice(s, k, x);
      && |e| == |s| + 1 && e[k] == x
      && (forall i :: 0 <= i < k ==> e[i] == s[i])
      && (forall i {:trigger s[i]} :: k <= i < |s| ==> e[i + 1] == s[i])
  {
  }

  lemma SpliceAt<T>(s: seq<T>, k: nat, x: T, i: nat)
    requires k <= |s| && i <= |s|
    ensures Splice(s, k, x)[i] == if i < k then s[i] else if i == k then x else s[i - 1]
  {
  }

  lemma SharedAt(d: seq<nat>, k: nat, own: nat, i: nat)
    requires k <= |d| && (k < |d| ==> own <= d[k]) && i <= |d|
    ensures |Shared(d, k, own)| == |d| + 1
    ensures Shared(d, k, own)[i] ==
      if i < k then d[i] else if i == k then own else if i == k + 1 then d[k] - own else d[i - 1]
  {
  }

  /** Insertion delays nobody else, and the new timer is due after r and its lateness. */
  lemma InsertTimes(d: seq<nat>, r: nat)
    ensures var k, e := Where(d, r), InsertedDelta(d, r);
      && |e| == |d| + 1
      && (forall i :: 0 <= i < k ==> Time(e, i) == Time(d, i))
      && Time(e, k) == r + Late(d, r)
      && (forall i {:trigger Time(d, i)} :: k <= i < |d| ==> Time(e, i + 1) == Time(d, i))
  {
    var k, e := Where(d, r), InsertedDelta(d, r);
    SharedEntries(d, Where(d, r), Own(d, r));
    forall i | 0 <= i < k ensures Time(e, i) == Time(d, i) {
      TimeSame(e, d, i);
    }
    forall i {:trigger Time(d, i)} | k <= i < |d| ensures Time(e, i + 1) == Time(d, i) {
      InsertTimesAfter(d, r, i);
    }
    if k > 1 { assert Time(d, k - 1) == Time(d, k - 2) + d[k - 1]; }
  }

  lemma {:induction false} InsertTimesAfter(d: seq<nat>, r: nat, i: nat)
    requires Where(d, r) <= i < |d|
    ensures |InsertedDelta(d, r)| == |d| + 1 && Time(InsertedDelta(d, r), i + 1) == Time(d, i)
  {
    var k, e := Where(d, r), InsertedDelta(d, r);
    SharedEntries(d, Where(d, r), Own(d, r));
    if i > k {
      InsertTimesAfter(d, r, i - 1);
    } else {
      assert Time(e, k + 1) == Time(e, k) + e[k + 1];
      if k > 0 {
        TimeSame(e, d, k - 1);
        assert Time(e, k) == Time(e, k - 1) + e[k];
      }
    }
  }

  /** No entry leaves 32 bits, and the first one is positive. */
  predicate Healthy(d: seq<nat>) {
    (d != [] ==> d[0] > 0) && forall i :: 0 <= i < |d| ==> d[i] < TICKS
  }

  /**
   A timer is on time exactly when at most one timer comes before it, which two comparisons decide; it is never early.
   */
  lemma OnTimeIff(d: seq<nat>, r: nat)
    requires Healthy(d)
    ensures Late(d, r) == 0 <==> |d| <= 1 || r < d[0] || r < d[1]
  {
    var k := Where(d, r);
    if k > 1 {
      TimeMonotone(d, 0, k - 2);
    }
  }

  /** The subtractions in the insertion do not underflow. */
  lemma InsertHealthy(d: seq<nat>, r: nat)
    requires Healthy(d) && 0 < r < TICKS
    ensures Healthy(InsertedDelta(d, r))
    ensures var k := Where(d, r); (k > 0 ==> d[k - 1] <= r) && (k < |d| ==> Own(d, r) < d[k])
  {
  }

  /** Entries k and k + 1 together fit into 32 bits. */
  predicate Fits(d: seq<nat>, k: nat) {
    k + 1 < |d| ==> d[k] + d[k + 1] < TICKS
  }

  lemma RemoveHealthy(d: seq<nat>, k: nat)
    requires Healthy(d) && k < |d| && Fits(d, k)
    ensures Healthy(RemovedDelta(d, k))
  {
  }

  /** Where entry i is once entry k is gone. */
  function Moved(i: nat, k: nat): nat {
    if i > k then i - 1 else i
  }

  predicate Undisturbed(d: seq<nat>, e: seq<nat>, k: nat, i: nat)
    requires i < |d| && i != k && k < |d|
  {
    Moved(i, k) < |e| && Time(e, Moved(i, k)) == Time(d, i)
  }

  lemma {:induction false} RemoveTimes(d: seq<nat>, k: nat, i: nat)
    requires k < |d| && i < |d| && i != k && Healthy(d) && Fits(d, k)
    ensures Undisturbed(d, RemovedDelta(d, k), k, i)
  {
    var e := RemovedDelta(d, k);
    if i < k {
      TimeSame(e, d, i);
    } else if i == k + 1 {
      assert e[k] == d[k] + d[k + 1] && Time(d, k + 1) == Time(d, k) + d[k + 1];
      if k > 0 {
        RemoveTimes(d, k, k - 1);
      }
    } else {
      RemoveTimes(d, k, i - 1);
      assert e[i - 1] == d[i];
    }
  }

  /** Taking a timer out leaves every other timer's time alone exactly when its ticks fit into the next entry. */
  lemma RemoveExactIff(d: seq<nat>, k: nat)
    requires Healthy(d) && k < |d|
    ensures (forall i :: 0 <= i < |d| && i != k ==> Undisturbed(d, RemovedDelta(d, k), k, i)) <==> Fits(d, k)
  {
    var e := RemovedDelta(d, k);
    if Fits(d, k) {
      forall i | 0 <= i < |d| && i != k ensures Undisturbed(d, e, k, i) { RemoveTimes(d, k, i); }
    } else {
      assert e[k] < d[k] + d[k + 1] && Time(d, k + 1) == Time(d, k) + d[k + 1];
      if k > 0 {
        TimeSame(e, d, k - 1);
      }
      assert !Undisturbed(d, e, k, k + 1);
    }
  }

  lemma {:induction false} DecrementTime(d: seq<nat>, i: nat)
    requires Healthy(d) && i < |d|
    ensures Time(Decremented(d), i) == Time(d, i) - 1
  {
    if i > 0 { DecrementTime(d, i - 1); }
  }

  lemma {:induction false} ZerosTime(d: seq<nat>, i: nat)
    requires i < Zeros(d)
    ensures Time(d, i) == 0
  {
    if i > 0 { ZerosTime(d, i - 1); }
  }

  lemma {:induction false} DropTime(d: seq<nat>, z: nat, i: nat)
    requires z + i < |d| && z == Zeros(d)
    ensures Time(d[z..], i) == Time(d, z + i)
  {
    if i > 0 {
      DropTime(d, z, i - 1);
    } else if z > 0 {
      ZerosTime(d, z - 1);
    }
  }

  /** A tick takes off the list exactly the timers that were due after one ... */
  lemma ExpiresIff(d: seq<nat>, i: nat)
    requires Healthy(d) && i < |d|
    ensures i < Zeros(Decremented(d)) <==> Time(d, i) == 1
  {
    var e := Decremented(d);
    DecrementTime(d, i);
    if i < Zeros(e) {
      ZerosTime(e, i);
    } else {
      TimeMonotone(e, Zeros(e), i);
    }
  }

  /** ... and brings every other timer one tick closer. */
  lemma TickTime(d: seq<nat>, i: nat)
    requires Healthy(d) && i < |d| && Zeros(Decremented(d)) <= i
    ensures var e := Decremented(d); Time(e[Zeros(e)..], i - Zeros(e)) == Time(d, i) - 1
  {
    var e := Decremented(d);
    DecrementTime(d, i);
    DropTime(e, Zeros(e), i - Zeros(e));
  }

  lemma TickHealthy(d: seq<nat>)
    requires Healthy(d)
    ensures Healthy(Decremented(d)[Zeros(Decremented(d))..])
  {
  }
}
