/**
 Runs of the timer calls (kernel/timer.c) against true time: when each one-shot timer fires.
 `due`, `log` and `called` are a ledger on the side: the tick each active timer is bound to fire at, every firing so
 far, and the callbacks that the service task has called.
 */
module TimerRuns {
  import opened KernelTypes
  import opened KernelSpec
  import opened TimerSpec

  datatype Fire = Fire(t: nat, at: nat)

  datatype Clock = Clock(
    line: Line<nat>,          // active_timer_list
    period: map<nat, nat>,    // the timers created
    expired: seq<nat>,        // expired_list
    now: nat, due: map<nat, nat>, log: seq<Fire>, called: seq<nat>)

  datatype TimerOp =
    | Create(t: nat, p: nat)
    | Start(t: nat)
    | Stop(t: nat)
    | Reset(t: nat)
    | ChangePeriod(t: nat, p: nat)
    | Tick
    | Drain

  function Index(who: seq<nat>, t: nat): (k: nat)
    ensures k <= |who|
    ensures k < |who| ==> who[k] == t
    ensures k == |who| <==> t !in who
  {
    if who == [] || who[0] == t then 0 else 1 + Index(who[1..], t)
  }

  function Out(l: Line<nat>, t: nat): Line<nat>
    requires |l.who| == |l.delta|
  {
    if t in l.who then Removed(l, Index(l.who, t)) else l
  }

  /** Off the list if it is on it, and on again with its full period. */
  function Begin(c: Clock, t: nat): Clock
    requires |c.line.who| == |c.line.delta| && t in c.period
  {
    var l, r := Out(c.line, t), c.period[t];
    c.(line := Inserted(l, t, r), due := c.due[t := c.now + r + Late(l.delta, r)])
  }

  /** The timer may come off the list without disturbing the next one. */
  predicate CanLeave(c: Clock, t: nat)
    requires |c.line.who| == |c.line.delta|
  {
    t in c.line.who ==> Fits(c.line.delta, Index(c.line.who, t))
  }

  /** A timer still on expired_list must not be started: its link is in use. */
  predicate Legal(c: Clock, op: TimerOp) {
    && |c.line.who| == |c.line.delta|
    && match op
       case Create(t, p) => t !in c.period && 0 < p < TICKS
       case Start(t) => t in c.period && t !in c.expired
       case Stop(t) => t in c.period
       case Reset(t) => t in c.period
       case ChangePeriod(t, p) => t in c.period && 0 < p < TICKS
       case Tick => true
       case Drain => true
  }

  /** Whatever timer the call takes off the list may come off. */
  predicate Leaves(c: Clock, op: TimerOp)
    requires |c.line.who| == |c.line.delta|
  {
    match op
    case Start(t) => CanLeave(c, t)
    case Stop(t) => CanLeave(c, t)
    case Reset(t) => CanLeave(c, t)
    case ChangePeriod(t, _) => CanLeave(c, t)
    case _ => true
  }

  predicate Enabled(c: Clock, op: TimerOp) {
    Legal(c, op) && Leaves(c, op)
  }

  function Fires(who: seq<nat>, at: nat): seq<Fire> {
    if who == [] then [] else [Fire(who[0], at)] + Fires(who[1..], at)
  }

  function Step(c: Clock, op: TimerOp): Clock
    requires Legal(c, op)
  {
    match op
    case Create(t, p) => c.(period := c.period[t := p])
    case Start(t) => Begin(c, t)
    case Stop(t) => c.(line := Out(c.line, t))
    case Reset(t) => if t in c.line.who then Begin(c, t) else c
    case ChangePeriod(t, p) =>
      var c1 := c.(period := c.period[t := p]);
      if t in c.line.who then Begin(c1, t) else c1
    case Tick =>
      c.(line := TickLine(c.line), expired := Reversed(Expiring(c.line)) + c.expired, now := c.now + 1,
         log := c.log + Fires(Expiring(c.line), c.now + 1))
    case Drain => c.(expired := [], called := c.called + c.expired)
  }

  // ---------- The invariant ----------

  /** Entry i of the list, read as a time, is the tick its timer is bound to fire at. */
  predicate OnTime(c: Clock, i: nat)
    requires i < |c.line.who| == |c.line.delta|
  {
    var t := c.line.who[i];
    t in c.period && t in c.due && c.due[t] == c.now + Time(c.line.delta, i)
  }

  ghost predicate ClockInv(c: Clock) {
    && |c.line.who| == |c.line.delta| && NoDup(c.line.who) && Healthy(c.line.delta)
    && (forall i {:trigger OnTime(c, i)} :: 0 <= i < |c.line.who| ==> OnTime(c, i))
    && (forall t :: t in c.period ==> 0 < c.period[t] < TICKS)
  }

  lemma OutInv(c: Clock, t: nat)
    requires ClockInv(c) && CanLeave(c, t)
    ensures ClockInv(c.(line := Out(c.line, t))) && t !in Out(c.line, t).who
    ensures forall u :: u != t ==> (u in Out(c.line, t).who <==> u in c.line.who)
  {
    if t in c.line.who {
      var k, d := Index(c.line.who, t), c.(line := Out(c.line, t));
      RemoveHealthy(c.line.delta, k);
      CutMembers(c.line.who, k);
      forall i | 0 <= i < |d.line.who| ensures OnTime(d, i) {
        CutOnTime(c, k, i);
      }
    }
  }

  lemma CutOnTime(c: Clock, k: nat, i: nat)
    requires ClockInv(c) && k < |c.line.who| && Fits(c.line.delta, k) && i + 1 < |c.line.who|
    ensures var d := c.(line := Removed(c.line, k));
      i < |d.line.who| == |d.line.delta| && OnTime(d, i)
  {
    var j := if i < k then i else i + 1;
    assert OnTime(c, j) && Removed(c.line, k).who[i] == c.line.who[j];
    RemoveTimes(c.line.delta, k, j);
  }

  lemma CutMembers(s: seq<nat>, k: nat)
    requires k < |s| && NoDup(s)
    ensures NoDup(Cut(s, k)) && s[k] !in Cut(s, k)
    ensures forall u :: u != s[k] ==> (u in Cut(s, k) <==> u in s)
  {
    WithoutAt(s, k);
    WithoutKeeps(s, s[k]);
  }

  lemma SpliceMembers(s: seq<nat>, k: nat, t: nat)
    requires k <= |s| && NoDup(s) && t !in s
    ensures NoDup(Splice(s, k, t))
    ensures forall u :: u in Splice(s, k, t) <==> u in s || u == t
  {
    SpliceEntries(s, k, t);
    var e := Splice(s, k, t);
    forall i, j | 0 <= i < j < |e| ensures e[i] != e[j] {
      assert i > k ==> e[i] == s[i - 1];
      assert j > k ==> e[j] == s[j - 1];
    }
    assert forall i :: 0 <= i < |s| ==> s[i] == e[if i < k then i else i + 1];
  }

  /** A timer put in by its period; everybody else keeps the tick it is bound to. */
  lemma InInv(c: Clock, t: nat)
    requires ClockInv(c) && t in c.period && t !in c.line.who
    ensures ClockInv(Begin(c, t))
    ensures forall u :: u in Begin(c, t).line.who <==> u in c.line.who || u == t
  {
    var d, r := Begin(c, t), c.period[t];
    var k := Where(c.line.delta, r);
    InsertHealthy(c.line.delta, r);
    InsertTimes(c.line.delta, r);
    SpliceMembers(c.line.who, k, t);
    forall i | 0 <= i < |d.line.who| ensures OnTime(d, i) {
      SplicedOnTime(c, t, i);
    }
  }

  lemma SplicedOnTime(c: Clock, t: nat, i: nat)
    requires ClockInv(c) && t in c.period && t !in c.line.who && i <= |c.line.who|
    ensures var d := Begin(c, t); i < |d.line.who| == |d.line.delta| && OnTime(d, i)
  {
    var k := Where(c.line.delta, c.period[t]);
    InsertTimes(c.line.delta, c.period[t]);
    SpliceAt(c.line.who, k, t, i);
    if i != k {
      var j := if i < k then i else i - 1;
      assert OnTime(c, j) && Begin(c, t).line.who[i] == c.line.who[j];
      assert Time(Begin(c, t).line.delta, i) == Time(c.line.delta, j);
    }
  }

  lemma BeginInv(c: Clock, t: nat)
    requires ClockInv(c) && t in c.period && CanLeave(c, t)
    ensures ClockInv(Begin(c, t))
    ensures forall u :: u in Begin(c, t).line.who <==> u in c.line.who || u == t
  {
    OutInv(c, t);
    InInv(c.(line := Out(c.line, t)), t);
    assert Begin(c, t) == Begin(c.(line := Out(c.line, t)), t);
  }

  lemma TickInv(c: Clock)
    requires ClockInv(c)
    ensures ClockInv(Step(c, Tick))
    ensures forall u :: u in Step(c, Tick).line.who <==> u in c.line.who && u !in Expiring(c.line)
    ensures forall u :: u in c.line.who ==> u in c.due && (u in Expiring(c.line) <==> c.due[u] == c.now + 1)
  {
    var d, z := Step(c, Tick), Zeros(Decremented(c.line.delta));
    TickHealthy(c.line.delta);
    forall i | 0 <= i < |d.line.who| ensures OnTime(d, i) {
      assert OnTime(c, z + i);
      TickTime(c.line.delta, z + i);
    }
    forall u | u in c.line.who ensures u in c.due && (u in Expiring(c.line) <==> c.due[u] == c.now + 1) {
      var i := Index(c.line.who, u);
      assert OnTime(c, i);
      ExpiresIff(c.line.delta, i);
      assert u in c.line.who[..z] <==> i < z;
    }
    TailMembers(c.line.who, z);
  }

  lemma TailMembers(s: seq<nat>, z: nat)
    requires z <= |s| && NoDup(s)
    ensures NoDup(s[z..]) && forall u :: u in s[z..] <==> u in s && u !in s[..z]
  {
    forall u | u in s ensures u in s[..z] || u in s[z..] {
      var i :| 0 <= i < |s| && s[i] == u;
      if i < z {
        assert s[..z][i] == u;
      } else {
        assert s[z..][i - z] == u;
      }
    }
    forall i, j | 0 <= i < j < |s[z..]| ensures s[z..][i] != s[z..][j] {
      assert s[z + i] != s[z + j];
    }
  }

  lemma StepInv(c: Clock, op: TimerOp)
    requires ClockInv(c) && Enabled(c, op)
    ensures ClockInv(Step(c, op))
  {
    match op
    case Create(t, p) => SameList(c, Step(c, op));
    case Start(t) => BeginInv(c, t);
    case Stop(t) => OutInv(c, t);
    case Reset(t) => if t in c.line.who { BeginInv(c, t); }
    case ChangePeriod(t, p) =>
      var c1 := c.(period := c.period[t := p]);
      SameList(c, c1);
      if t in c.line.who { BeginInv(c1, t); }
    case Tick => TickInv(c);
    case Drain => SameList(c, Step(c, op));
  }

  lemma SameList(c: Clock, d: Clock)
    requires ClockInv(c) && d.line == c.line && d.now == c.now && d.due == c.due
    requires c.period.Keys <= d.period.Keys && forall t :: t in d.period ==> 0 < d.period[t] < TICKS
    ensures ClockInv(d)
  {
    forall i | 0 <= i < |d.line.who| ensures OnTime(d, i) { assert OnTime(c, i); }
  }

  // ---------- When a timer fires ----------

  predicate LegalRun(c: Clock, ops: seq<TimerOp>)
    decreases |ops|
  {
    ops != [] ==> Legal(c, ops[0]) && LegalRun(Step(c, ops[0]), ops[1..])
  }

  /** ... in which no removal disturbs anybody. */
  predicate CanRun(c: Clock, ops: seq<TimerOp>)
    decreases |ops|
  {
    ops != [] ==> Enabled(c, ops[0]) && CanRun(Step(c, ops[0]), ops[1..])
  }

  function Run(c: Clock, ops: seq<TimerOp>): Clock
    requires LegalRun(c, ops)
    decreases |ops|
  {
    if ops == [] then c else Run(Step(c, ops[0]), ops[1..])
  }

  /** The call is not about timer t. */
  predicate Spares(op: TimerOp, t: nat) {
    match op
    case Start(u) => u != t
    case Stop(u) => u != t
    case Reset(u) => u != t
    case ChangePeriod(u, _) => u != t
    case _ => true
  }

  /** The ticks at which t fired. */
  function Firings(log: seq<Fire>, t: nat): seq<nat> {
    if log == [] then [] else (if log[0].t == t then [log[0].at] else []) + Firings(log[1..], t)
  }

  lemma {:induction false} FiringsConcat(a: seq<Fire>, b: seq<Fire>, t: nat)
    ensures Firings(a + b, t) == Firings(a, t) + Firings(b, t)
    decreases |a|
  {
    if a == [] {
      assert a + b == b;
    } else {
      var h := if a[0].t == t then [a[0].at] else [];
      assert (a + b)[0] == a[0] && (a + b)[1..] == a[1..] + b;
      FiringsConcat(a[1..], b, t);
      assert h + (Firings(a[1..], t) + Firings(b, t)) == (h + Firings(a[1..], t)) + Firings(b, t);
    }
  }

  lemma {:induction false} FiringsOf(who: seq<nat>, at: nat, t: nat)
    requires NoDup(who)
    ensures Firings(Fires(who, at), t) == if t in who then [at] else []
  {
    if who != [] {
      NoDupTail(who);
      assert Fires(who, at)[1..] == Fires(who[1..], at);
      FiringsOf(who[1..], at, t);
    }
  }

  /** Timer t fires on its tick, and otherwise nothing happens to it. */
  predicate Spared(c: Clock, d: Clock, t: nat, fires: bool) {
    && (t in d.line.who <==> t in c.line.who && !fires)
    && (t in c.due ==> t in d.due && d.due[t] == c.due[t])
    && Firings(d.log, t) == Firings(c.log, t) + (if fires then [c.now + 1] else [])
  }

  predicate FiresNow(c: Clock, op: TimerOp, t: nat) {
    op == Tick && t in c.line.who && t in c.due && c.due[t] == c.now + 1
  }

  lemma SparedTick(c: Clock, t: nat)
    requires ClockInv(c)
    ensures Spared(c, Step(c, Tick), t, FiresNow(c, Tick, t))
  {
    TickInv(c);
    TickLog(c, t);
  }

  lemma TickLog(c: Clock, t: nat)
    requires |c.line.who| == |c.line.delta| && NoDup(c.line.who)
    ensures Firings(Step(c, Tick).log, t) == Firings(c.log, t) + (if t in Expiring(c.line) then [c.now + 1] else [])
  {
    FiringsConcat(c.log, Fires(Expiring(c.line), c.now + 1), t);
    FiringsOf(Expiring(c.line), c.now + 1, t);
  }

  /** What one call that is not about t does to t. */
  lemma SparedStep(c: Clock, op: TimerOp, t: nat)
    requires ClockInv(c) && Enabled(c, op) && Spares(op, t)
    ensures Spared(c, Step(c, op), t, FiresNow(c, op, t))
  {
    match op
    case Create(u, p) =>
    case Start(u) => BeginInv(c, u);
    case Stop(u) => OutInv(c, u);
    case Reset(u) => if u in c.line.who { BeginInv(c, u); }
    case ChangePeriod(u, p) =>
      SameList(c, c.(period := c.period[u := p]));
      if u in c.line.who { BeginInv(c.(period := c.period[u := p]), u); }
    case Tick => SparedTick(c, t);
    case Drain =>
  }

  lemma {:induction false} IdleStaysIdle(c: Clock, ops: seq<TimerOp>, t: nat)
    requires ClockInv(c) && LegalRun(c, ops) && CanRun(c, ops) && t !in c.line.who && forall i :: 0 <= i < |ops| ==>
        Spares(ops[i], t)
    ensures t !in Run(c, ops).line.who && Firings(Run(c, ops).log, t) == Firings(c.log, t)
    decreases |ops|
  {
    if ops != [] {
      StepInv(c, ops[0]);
      SparedStep(c, ops[0], t);
      IdleStaysIdle(Step(c, ops[0]), ops[1..], t);
    }
  }

  /** Left alone, an active timer fires once, on the tick it is bound to. */
  lemma {:induction false} FiresWhenDue(c: Clock, ops: seq<TimerOp>, t: nat)
    requires ClockInv(c) && LegalRun(c, ops) && CanRun(c, ops) && t in c.line.who && t in c.due && c.now < c.due[t]
    requires forall i :: 0 <= i < |ops| ==> Spares(ops[i], t)
    ensures var d := Run(c, ops);
      && (t in d.line.who <==> d.now < c.due[t])
      && Firings(d.log, t) == Firings(c.log, t) + (if d.now < c.due[t] then [] else [c.due[t]])
    decreases |ops|
  {
    if ops != [] {
      StepInv(c, ops[0]);
      SparedStep(c, ops[0], t);
      var d := Step(c, ops[0]);
      if t in d.line.who {
        FiresWhenDue(d, ops[1..], t);
      } else {
        IdleStaysIdle(d, ops[1..], t);
        NowGrows(d, ops[1..]);
      }
    }
  }

  lemma {:induction false} NowGrows(c: Clock, ops: seq<TimerOp>)
    requires LegalRun(c, ops)
    ensures c.now <= Run(c, ops).now
    decreases |ops|
  {
    if ops != [] { NowGrows(Step(c, ops[0]), ops[1..]); }
  }

  // ---------- Exactly which runs keep time ----------

  /** A removal that does not fit leaves another timer on the list with the wrong time. */
  lemma OutBreaks(c: Clock, t: nat) returns (j: nat)
    requires ClockInv(c) && !CanLeave(c, t)
    ensures var l := Out(c.line, t);
      && j < |l.who| == |l.delta| && l.who[j] != t
      && l.who[j] in c.due && c.due[l.who[j]] != c.now + Time(l.delta, j)
  {
    var k, l := Index(c.line.who, t), Out(c.line, t);
    RemoveExactIff(c.line.delta, k);
    var i :| 0 <= i < |c.line.delta| && i != k && !Undisturbed(c.line.delta, l.delta, k, i);
    assert OnTime(c, i);
    j := Moved(i, k);
    assert l.who[j] == c.line.who[i];
  }

  lemma StopBreaks(c: Clock, t: nat)
    requires ClockInv(c) && !CanLeave(c, t)
    ensures !ClockInv(c.(line := Out(c.line, t)))
  {
    var j := OutBreaks(c, t);
    assert !OnTime(c.(line := Out(c.line, t)), j);
  }

  /** ... and putting the timer back in does not mend it. */
  lemma BeginBreaks(c: Clock, t: nat)
    requires ClockInv(c) && t in c.period && !CanLeave(c, t)
    ensures !ClockInv(Begin(c, t))
  {
    var l, r, d := Out(c.line, t), c.period[t], Begin(c, t);
    var j := OutBreaks(c, t);
    var k := Where(l.delta, r);
    var i := if j < k then j else j + 1;
    InsertTimes(l.delta, r);
    SpliceAt(l.who, k, t, i);
    assert Time(d.line.delta, i) == Time(l.delta, j);
    assert !OnTime(d, i);
  }

  /** One call keeps every timer's time exactly if what it takes off the list may come off. */
  lemma StepKeepsTimeIff(c: Clock, op: TimerOp)
    requires ClockInv(c) && Legal(c, op)
    ensures ClockInv(Step(c, op)) <==> Leaves(c, op)
  {
    if Leaves(c, op) {
      StepInv(c, op);
    } else {
      match op
      case Start(t) => BeginBreaks(c, t);
      case Stop(t) => StopBreaks(c, t);
      case Reset(t) => BeginBreaks(c, t);
      case ChangePeriod(t, p) =>
        SameList(c, c.(period := c.period[t := p]));
        BeginBreaks(c.(period := c.period[t := p]), t);
      case _ =>
    }
  }

  ghost predicate KeepsTime(c: Clock, ops: seq<TimerOp>)
    requires LegalRun(c, ops)
    decreases |ops|
  {
    ClockInv(c) && (ops != [] ==> KeepsTime(Step(c, ops[0]), ops[1..]))
  }

  /**
   In every state of a run the entries add up to the ticks the timers are bound to, if and only if each removal in it
   fits; there is no bound on timers or periods.
   */
  lemma {:induction false} KeepsTimeIff(c: Clock, ops: seq<TimerOp>)
    requires ClockInv(c) && LegalRun(c, ops)
    ensures KeepsTime(c, ops) <==> CanRun(c, ops)
    decreases |ops|
  {
    if ops != [] {
      StepKeepsTimeIff(c, ops[0]);
      if Leaves(c, ops[0]) {
        KeepsTimeIff(Step(c, ops[0]), ops[1..]);
      }
    }
  }

  // ---------- Every firing is called once ----------

  function Who(log: seq<Fire>): multiset<nat> {
    if log == [] then multiset{} else multiset{log[0].t} + Who(log[1..])
  }

  lemma {:induction false} WhoConcat(a: seq<Fire>, b: seq<Fire>)
    ensures Who(a + b) == Who(a) + Who(b)
    decreases |a|
  {
    if a == [] {
      assert a + b == b;
    } else {
      assert (a + b)[0] == a[0] && (a + b)[1..] == a[1..] + b;
      WhoConcat(a[1..], b);
    }
  }

  lemma {:induction false} WhoFires(who: seq<nat>, at: nat)
    ensures Who(Fires(who, at)) == multiset(who)
  {
    if who != [] {
      assert Fires(who, at)[1..] == Fires(who[1..], at) && who == [who[0]] + who[1..];
      WhoFires(who[1..], at);
    }
  }

  lemma {:induction false} ReversedSame(s: seq<nat>)
    ensures multiset(Reversed(s)) == multiset(s)
  {
    if s != [] {
      ReversedSame(s[..|s| - 1]);
      assert s == s[..|s| - 1] + [s[|s| - 1]];
    }
  }

  /** A timer that has fired has been called or is still to be called. */
  predicate AllCalled(c: Clock) {
    Who(c.log) == multiset(c.called) + multiset(c.expired)
  }

  lemma TickCalls(c: Clock)
    requires |c.line.who| == |c.line.delta| && AllCalled(c)
    ensures AllCalled(Step(c, Tick))
  {
    TickLedger(c);
    Recorded(c.log, Expiring(c.line), c.now + 1, c.expired);
    SameCalls(c, Step(c, Tick), multiset(Expiring(c.line)));
  }

  lemma TickLedger(c: Clock)
    requires |c.line.who| == |c.line.delta|
    ensures var x, d := Expiring(c.line), Step(c, Tick);
      d.log == c.log + Fires(x, c.now + 1) && d.called == c.called && d.expired == Reversed(x) + c.expired
  {
  }

  lemma SameCalls(c: Clock, d: Clock, x: multiset<nat>)
    requires AllCalled(c) && d.called == c.called
    requires Who(d.log) == Who(c.log) + x && multiset(d.expired) == x + multiset(c.expired)
    ensures AllCalled(d)
  {
  }

  lemma Recorded(log: seq<Fire>, x: seq<nat>, at: nat, expired: seq<nat>)
    ensures Who(log + Fires(x, at)) == Who(log) + multiset(x)
    ensures multiset(Reversed(x) + expired) == multiset(x) + multiset(expired)
  {
    WhoConcat(log, Fires(x, at));
    WhoFires(x, at);
    ReversedSame(x);
  }

  /** The other calls leave that part of the ledger alone. */
  lemma LedgerKept(c: Clock, op: TimerOp)
    requires Legal(c, op) && !op.Tick? && !op.Drain?
    ensures var d := Step(c, op); d.log == c.log && d.called == c.called && d.expired == c.expired
  {
  }

  lemma StepCalls(c: Clock, op: TimerOp)
    requires Legal(c, op) && AllCalled(c)
    ensures AllCalled(Step(c, op))
  {
    match op
    case Tick => TickCalls(c);
    case Drain => DrainCalls(c);
    case _ => LedgerKept(c, op);
  }

  lemma DrainCalls(c: Clock)
    requires Legal(c, Drain) && AllCalled(c)
    ensures var d := Step(c, Drain); d.expired == [] && Who(d.log) == multiset(d.called)
  {
    assert multiset(c.called + c.expired) == multiset(c.called) + multiset(c.expired);
  }

  lemma {:induction false} RunCalls(c: Clock, ops: seq<TimerOp>)
    requires LegalRun(c, ops) && AllCalled(c)
    ensures AllCalled(Run(c, ops))
    decreases |ops|
  {
    if ops != [] {
      StepCalls(c, ops[0]);
      RunCalls(Step(c, ops[0]), ops[1..]);
    }
  }

  /**
   Over every run each timer has been called as often as it fired, but for those on the expired list; a turn of the
   service task makes up for these.
   */
  lemma CalledAsOftenAsFired(ops: seq<TimerOp>)
    requires LegalRun(NoTimers(), ops)
    ensures var c := FromScratch(ops);
      && Who(c.log) == multiset(c.called) + multiset(c.expired)
      && (Legal(c, Drain) ==> Step(c, Drain).expired == [] && Who(c.log) == multiset(Step(c, Drain).called))
  {
    RunCalls(NoTimers(), ops);
    if Legal(FromScratch(ops), Drain) {
      DrainCalls(FromScratch(ops));
    }
  }

  // ---------- Few timers of moderate periods ----------

  /** At most n timers, with periods of at most p ticks, and none due later than n * p. */
  ghost predicate Modest(c: Clock, n: nat, p: nat) {
    && |c.period| <= n && |c.line.who| == |c.line.delta|
    && (forall t :: t in c.period ==> c.period[t] <= p)
    && (forall i {:trigger Time(c.line.delta, i)} :: 0 <= i < |c.line.delta| ==> Time(c.line.delta, i) <= n * p)
  }

  predicate Small(c: Clock, op: TimerOp, n: nat, p: nat) {
    match op
    case Create(_, q) => |c.period| < n && q <= p
    case ChangePeriod(_, q) => q <= p
    case _ => true
  }

  predicate AllSmall(c: Clock, ops: seq<TimerOp>, n: nat, p: nat)
    requires LegalRun(c, ops)
    decreases |ops|
  {
    ops != [] ==> Small(c, ops[0], n, p) && AllSmall(Step(c, ops[0]), ops[1..], n, p)
  }

  lemma ModestCanLeave(c: Clock, t: nat, n: nat, p: nat)
    requires ClockInv(c) && Modest(c, n, p) && n * p < TICKS
    ensures CanLeave(c, t)
  {
    if t in c.line.who {
      var k, d := Index(c.line.who, t), c.line.delta;
      if k + 1 < |d| {
        assert Time(d, k + 1) == Time(d, k) + d[k + 1] && Time(d, k) >= d[k];
      }
    }
  }

  lemma {:induction false} SeqInSet(s: seq<nat>, m: set<nat>)
    requires NoDup(s) && forall x :: x in s ==> x in m
    ensures |s| <= |m|
  {
    if s != [] {
      NoDupTail(s);
      assert s[0] in s;
      SeqInSet(s[1..], m - {s[0]});
    }
  }

  lemma {:induction false} TimeBelow(d: seq<nat>, i: nat, r: nat)
    requires i < |d| && forall j :: 0 <= j <= i ==> d[j] <= r
    ensures Time(d, i) <= (i + 1) * r
  {
    if i > 0 {
      TimeBelow(d, i - 1, r);
      assert (i + 1) * r == i * r + r;
    }
  }

  lemma ProductBound(k: nat, r: nat, n: nat, p: nat)
    requires k <= n && r <= p
    ensures k * r <= n * p
  {
    assert k * r <= k * p && k * p <= n * p;
  }

  /** A timer put in behind k others is due after at most k, but at least one, times its period. */
  lemma InsertBound(d: seq<nat>, r: nat, n: nat, p: nat)
    requires |d| < n && r <= p
    ensures r + Late(d, r) <= n * p
  {
    var k := Where(d, r);
    if k > 1 {
      TimeBelow(d, k - 2, r);
      assert k * r == (k - 1) * r + r;
      ProductBound(k, r, n, p);
    } else {
      ProductBound(1, r, n, p);
    }
  }

  lemma OutModest(c: Clock, t: nat, n: nat, p: nat)
    requires ClockInv(c) && Modest(c, n, p) && CanLeave(c, t)
    ensures Modest(c.(line := Out(c.line, t)), n, p)
  {
    if t in c.line.who {
      var k, e := Index(c.line.who, t), Out(c.line, t).delta;
      forall i {:trigger Time(e, i)} | 0 <= i < |e| ensures Time(e, i) <= n * p {
        RemoveTimes(c.line.delta, k, if i < k then i else i + 1);
      }
    }
  }

  lemma InModest(c: Clock, t: nat, n: nat, p: nat)
    requires ClockInv(c) && Modest(c, n, p) && t in c.period && t !in c.line.who
    ensures Modest(Begin(c, t), n, p)
  {
    var d, r := c.line.delta, c.period[t];
    var k, e := Where(d, r), InsertedDelta(d, r);
    forall u | u in c.line.who ensures u in c.period.Keys - {t} {
      assert OnTime(c, Index(c.line.who, u));
    }
    SeqInSet(c.line.who, c.period.Keys - {t});
    InsertBound(d, r, n, p);
    InsertTimes(d, r);
    forall i {:trigger Time(e, i)} | 0 <= i < |e| ensures Time(e, i) <= n * p {
      if i > k {
        assert Time(e, i) == Time(d, i - 1);
      } else if i < k {
        assert Time(e, i) == Time(d, i);
      }
    }
  }

  lemma BeginModest(c: Clock, t: nat, n: nat, p: nat)
    requires ClockInv(c) && Modest(c, n, p) && t in c.period && CanLeave(c, t)
    ensures Modest(Begin(c, t), n, p)
  {
    OutInv(c, t);
    OutModest(c, t, n, p);
    InModest(c.(line := Out(c.line, t)), t, n, p);
    assert Begin(c, t) == Begin(c.(line := Out(c.line, t)), t);
  }

  lemma TickModest(c: Clock, n: nat, p: nat)
    requires ClockInv(c) && Modest(c, n, p)
    ensures Modest(Step(c, Tick), n, p)
  {
    var z := Zeros(Decremented(c.line.delta));
    var e := Step(c, Tick).line.delta;
    forall i {:trigger Time(e, i)} | 0 <= i < |e| ensures Time(e, i) <= n * p {
      TickTime(c.line.delta, z + i);
      assert Time(c.line.delta, z + i) <= n * p;
    }
  }

  lemma StepModest(c: Clock, op: TimerOp, n: nat, p: nat)
    requires ClockInv(c) && Modest(c, n, p) && Enabled(c, op) && Small(c, op, n, p)
    ensures Modest(Step(c, op), n, p)
  {
    match op
    case Create(t, q) =>
      assert Step(c, op).period.Keys == c.period.Keys + {t};
    case Start(t) => BeginModest(c, t, n, p);
    case Stop(t) => OutModest(c, t, n, p);
    case Reset(t) => if t in c.line.who { BeginModest(c, t, n, p); }
    case ChangePeriod(t, q) =>
      var c1 := c.(period := c.period[t := q]);
      assert c1.period.Keys == c.period.Keys;
      SameList(c, c1);
      if t in c.line.who { BeginModest(c1, t, n, p); }
    case Tick => TickModest(c, n, p);
    case Drain =>
  }

  /** With n timers of at most p ticks and n * p below 2^32 no removal ever disturbs anybody. */
  lemma {:induction false} ModestRuns(c: Clock, ops: seq<TimerOp>, n: nat, p: nat)
    requires ClockInv(c) && Modest(c, n, p) && n * p < TICKS && LegalRun(c, ops) && AllSmall(c, ops, n, p)
    ensures CanRun(c, ops)
    decreases |ops|
  {
    if ops != [] {
      LegalMeansEnabled(c, ops[0], n, p);
      StepInv(c, ops[0]);
      StepModest(c, ops[0], n, p);
      ModestRuns(Step(c, ops[0]), ops[1..], n, p);
    }
  }

  lemma LegalMeansEnabled(c: Clock, op: TimerOp, n: nat, p: nat)
    requires ClockInv(c) && Modest(c, n, p) && n * p < TICKS && Legal(c, op)
    ensures Enabled(c, op)
  {
    match op
    case Start(t) => ModestCanLeave(c, t, n, p);
    case Stop(t) => ModestCanLeave(c, t, n, p);
    case Reset(t) => ModestCanLeave(c, t, n, p);
    case ChangePeriod(t, _) => ModestCanLeave(c, t, n, p);
    case _ =>
  }

  // ---------- The main results ----------

  /** The clock after the run, started with no timers. */
  function FromScratch(ops: seq<TimerOp>): Clock
    requires LegalRun(NoTimers(), ops)
  {
    Run(NoTimers(), ops)
  }

  function NoTimers(): Clock {
    Clock(Line([], []), map[], [], 0, map[], [], [])
  }

  /**
   In every reachable state the entries add up to the ticks the timers are bound to, and the first is positive;
   n timers with periods of at most p ticks, and n * p below 2^32, is all it takes.
   */
  lemma EveryRunKeepsTime(ops: seq<TimerOp>, n: nat, p: nat)
    requires n * p < TICKS && LegalRun(NoTimers(), ops) && AllSmall(NoTimers(), ops, n, p)
    ensures var c := FromScratch(ops);
      && ClockInv(c) && Modest(c, n, p)
      && (c.line.delta != [] ==> c.line.delta[0] > 0)
      && forall i :: 0 <= i < |c.line.who| ==>
           c.line.who[i] in c.due && c.due[c.line.who[i]] == c.now + Time(c.line.delta, i)
  {
    RunModest(NoTimers(), ops, n, p);
    var c := FromScratch(ops);
    forall i | 0 <= i < |c.line.who|
      ensures c.line.who[i] in c.due && c.due[c.line.who[i]] == c.now + Time(c.line.delta, i)
    {
      assert OnTime(c, i);
    }
  }

  lemma {:induction false} RunModest(c: Clock, ops: seq<TimerOp>, n: nat, p: nat)
    requires ClockInv(c) && Modest(c, n, p) && n * p < TICKS && LegalRun(c, ops) && AllSmall(c, ops, n, p)
    ensures ClockInv(Run(c, ops)) && Modest(Run(c, ops), n, p)
    decreases |ops|
  {
    if ops != [] {
      LegalMeansEnabled(c, ops[0], n, p);
      StepInv(c, ops[0]);
      StepModest(c, ops[0], n, p);
      RunModest(Step(c, ops[0]), ops[1..], n, p);
    }
  }

  /** The call sets t running with r ticks to go: a start, or a reset or a new period while it is active. */
  predicate Arms(c: Clock, op: TimerOp, t: nat, r: nat) {
    match op
    case Start(u) => u == t && t in c.period && r == c.period[t]
    case Reset(u) => u == t && t in c.line.who && t in c.period && r == c.period[t]
    case ChangePeriod(u, p) => u == t && t in c.line.who && r == p
    case _ => false
  }

  /** t has fired once more in d than in c, at tick `at`, or not yet if that is to come. */
  predicate FiresOnce(c: Clock, d: Clock, t: nat, at: nat) {
    Firings(d.log, t) == Firings(c.log, t) + (if d.now < at then [] else [at])
  }

  /** The tick that t is bound to when it is armed with r ticks: the other timers may make it late. */
  function Bound(c: Clock, t: nat, r: nat): nat
    requires |c.line.who| == |c.line.delta|
  {
    c.now + r + Late(Out(c.line, t).delta, r)
  }

  /** At most one timer is there, or r undercuts the first or the second entry. */
  predicate Prompt(l: seq<nat>, r: nat) {
    |l| <= 1 || r < l[0] || r < l[1]
  }

  /**
   A one-shot timer that is started in any reachable state, or reset or given a new period while it is active, and
   then left alone fires exactly once: never before its period has passed, and on time exactly when its period
   undercuts the first or the second entry of the list of the others, or that list has at most one.
   */
  lemma OneShot(before: seq<TimerOp>, op: TimerOp, t: nat, r: nat, ops: seq<TimerOp>, n: nat, p: nat)
    requires n * p < TICKS && LegalRun(NoTimers(), before) && AllSmall(NoTimers(), before, n, p)
    requires var c := FromScratch(before); Legal(c, op) && Arms(c, op, t, r) && Small(c, op, n, p)
    requires var d := Step(FromScratch(before), op); LegalRun(d, ops) && AllSmall(d, ops, n, p)
    requires forall i :: 0 <= i < |ops| ==> Spares(ops[i], t)
    ensures var c := FromScratch(before);
      && FiresOnce(c, Run(Step(c, op), ops), t, Bound(c, t, r))
      && (Bound(c, t, r) == c.now + r <==> Prompt(Out(c.line, t).delta, r))
  {
    Prepared(before, op, ops, n, p);
    ArmedFires(FromScratch(before), op, t, r, ops);
  }

  /** In a run with that bound no call disturbs anybody. */
  lemma Prepared(before: seq<TimerOp>, op: TimerOp, ops: seq<TimerOp>, n: nat, p: nat)
    requires n * p < TICKS && LegalRun(NoTimers(), before) && AllSmall(NoTimers(), before, n, p)
    requires Legal(FromScratch(before), op) && Small(FromScratch(before), op, n, p)
    requires var d := Step(FromScratch(before), op); LegalRun(d, ops) && AllSmall(d, ops, n, p)
    ensures var c, d := FromScratch(before), Step(FromScratch(before), op);
      ClockInv(c) && Enabled(c, op) && ClockInv(d) && CanRun(d, ops)
  {
    var c := FromScratch(before);
    RunModest(NoTimers(), before, n, p);
    LegalMeansEnabled(c, op, n, p);
    StepInv(c, op);
    StepModest(c, op, n, p);
    ModestRuns(Step(c, op), ops, n, p);
  }

  lemma ArmedFires(c: Clock, op: TimerOp, t: nat, r: nat, ops: seq<TimerOp>)
    requires ClockInv(c) && Enabled(c, op) && Arms(c, op, t, r)
    requires LegalRun(Step(c, op), ops) && CanRun(Step(c, op), ops)
    requires forall i :: 0 <= i < |ops| ==> Spares(ops[i], t)
    ensures FiresOnce(c, Run(Step(c, op), ops), t, Bound(c, t, r))
    ensures Bound(c, t, r) == c.now + r <==> Prompt(Out(c.line, t).delta, r)
  {
    var d := Step(c, op);
    Armed(c, op, t, r);
    StepInv(c, op);
    FiresWhenDue(d, ops, t);
    BoundIff(c, t, r);
  }

  lemma BoundIff(c: Clock, t: nat, r: nat)
    requires ClockInv(c) && CanLeave(c, t)
    ensures Bound(c, t, r) == c.now + r <==> Prompt(Out(c.line, t).delta, r)
  {
    OutInv(c, t);
    OnTimeIff(Out(c.line, t).delta, r);
  }

  /** What arming does to the timer: it is on the list, bound to its tick, and has not fired. */
  lemma Armed(c: Clock, op: TimerOp, t: nat, r: nat)
    requires ClockInv(c) && Enabled(c, op) && Arms(c, op, t, r)
    ensures var d := Step(c, op);
      && CanLeave(c, t) && t in d.line.who && t in d.due && d.due[t] == Bound(c, t, r) > d.now
      && d.now == c.now && d.log == c.log
  {
    var c1 := if op.ChangePeriod? then c.(period := c.period[t := r]) else c;
    SameList(c, c1);
    BeginInv(c1, t);
  }

  /** A timer that is stopped in any reachable state, and then left alone, never fires. */
  lemma StoppedNeverFires(before: seq<TimerOp>, t: nat, ops: seq<TimerOp>, n: nat, p: nat)
    requires n * p < TICKS && LegalRun(NoTimers(), before) && AllSmall(NoTimers(), before, n, p)
    requires Legal(FromScratch(before), Stop(t))
    requires var d := Step(FromScratch(before), Stop(t)); LegalRun(d, ops) && AllSmall(d, ops, n, p)
    requires forall i :: 0 <= i < |ops| ==> Spares(ops[i], t)
    ensures var c := FromScratch(before);
      var d := Run(Step(c, Stop(t)), ops);
      t !in d.line.who && Firings(d.log, t) == Firings(c.log, t)
  {
    var c := FromScratch(before);
    Prepared(before, Stop(t), ops, n, p);
    OutInv(c, t);
    IdleStaysIdle(Step(c, Stop(t)), ops, t);
  }

  /** On a timer that is not active a stop or a reset does nothing, and a new period is only noted. */
  lemma IdleCalls(c: Clock, t: nat, p: nat)
    requires Legal(c, ChangePeriod(t, p)) && t !in c.line.who
    ensures Step(c, Stop(t)) == c && Step(c, Reset(t)) == c
    ensures Step(c, ChangePeriod(t, p)) == c.(period := c.period[t := p])
  {
  }

  // ---------- Runs in which a timer is late, or disturbed ----------

  predicate Reaches(c: Clock, ops: seq<TimerOp>, d: Clock) {
    LegalRun(c, ops) && Run(c, ops) == d
  }

  lemma Via(c: Clock, op: TimerOp, m: Clock, ops: seq<TimerOp>, d: Clock)
    requires Legal(c, op) && Step(c, op) == m && Reaches(m, ops, d)
    ensures Reaches(c, [op] + ops, d)
  {
    assert ([op] + ops)[1..] == ops;
  }

  lemma {:induction false} ThenOne(c: Clock, ops: seq<TimerOp>, m: Clock, op: TimerOp, d: Clock)
    requires Reaches(c, ops, m) && Legal(m, op) && Step(m, op) == d
    ensures Reaches(c, ops + [op], d)
    decreases |ops|
  {
    if ops == [] {
      Via(c, op, d, [], d);
      assert ops + [op] == [op] + [];
    } else {
      ThenOne(Step(c, ops[0]), ops[1..], m, op, d);
      Via(c, ops[0], Step(c, ops[0]), ops[1..] + [op], d);
      assert ops + [op] == [ops[0]] + (ops[1..] + [op]);
    }
  }

  /** Three timers with the given periods, started in that order. */
  function ThreeStarts(p: nat, q: nat, r: nat): seq<TimerOp> {
    [Create(0, p), Create(1, q), Create(2, r), Start(0), Start(1), Start(2)]
  }

  lemma ThreeCreated(p: nat, q: nat, r: nat) returns (c: Clock)
    requires 0 < p < TICKS && 0 < q < TICKS && 0 < r < TICKS
    ensures c == NoTimers().(period := map[0 := p, 1 := q, 2 := r])
    ensures Reaches(NoTimers(), [Create(0, p), Create(1, q), Create(2, r)], c)
  {
    var c1 := NoTimers().(period := map[0 := p]);
    var c2 := NoTimers().(period := map[0 := p, 1 := q]);
    c := NoTimers().(period := map[0 := p, 1 := q, 2 := r]);
    Via(c2, Create(2, r), c, [], c);
    Via(c1, Create(1, q), c2, [Create(2, r)], c);
    Via(NoTimers(), Create(0, p), c1, [Create(1, q), Create(2, r)], c);
    assert [Create(2, r)] + [] == [Create(2, r)];
    assert [Create(1, q)] + [Create(2, r)] == [Create(1, q), Create(2, r)];
    assert [Create(0, p)] + [Create(1, q), Create(2, r)] == [Create(0, p), Create(1, q), Create(2, r)];
  }

  lemma FirstStart(c: Clock, p: nat)
    requires c.line == Line([], []) && 0 in c.period && c.period[0] == p
    ensures Begin(c, 0) == c.(line := Line([0], [p]), due := c.due[0 := c.now + p])
  {
  }

  lemma SecondStart(c: Clock, p: nat, q: nat)
    requires p <= q && c.line == Line([0], [p]) && 1 in c.period && c.period[1] == q
    ensures Begin(c, 1) == c.(line := Line([0, 1], [p, q - p]), due := c.due[1 := c.now + q])
  {
    assert Where([p], q) == 1;
  }

  lemma ThirdStart(c: Clock, p: nat, q: nat, r: nat)
    requires p <= q <= r && c.line == Line([0, 1], [p, q - p]) && 2 in c.period && c.period[2] == r
    ensures Begin(c, 2) == c.(line := Line([0, 1, 2], [p, q - p, r - (q - p)]), due := c.due[2 := c.now + r + p])
  {
    assert Where([p, q - p], r) == 2 by {
      assert [p, q - p][1..] == [q - p];
    }
    assert Time([p, q - p], 0) == p;
  }

  /** Of three timers started in order of their periods the last is late by the period of the first. */
  lemma LateReachable(p: nat, q: nat, r: nat)
    requires 0 < p <= q <= r < TICKS
    ensures LegalRun(NoTimers(), ThreeStarts(p, q, r))
    ensures var c := FromScratch(ThreeStarts(p, q, r));
      && c == Clock(Line([0, 1, 2], [p, q - p, r - (q - p)]), map[0 := p, 1 := q, 2 := r], [], 0,
                    map[0 := p, 1 := q, 2 := r + p], [], [])
  {
    var c0 := ThreeCreated(p, q, r);
    var creates := [Create(0, p), Create(1, q), Create(2, r)];
    FirstStart(c0, p);
    var c1 := Step(c0, Start(0));
    SecondStart(c1, p, q);
    var c2 := Step(c1, Start(1));
    ThirdStart(c2, p, q, r);
    var c3 := Step(c2, Start(2));
    ThenOne(NoTimers(), creates, c0, Start(0), c1);
    ThenOne(NoTimers(), creates + [Start(0)], c1, Start(1), c2);
    ThenOne(NoTimers(), creates + [Start(0)] + [Start(1)], c2, Start(2), c3);
    assert creates + [Start(0)] + [Start(1)] + [Start(2)] == ThreeStarts(p, q, r);
  }

  /** Timer 1 stopped, with timers 0 and 2 bound to ticks 0x8000_0000 and 0x1_7FFF_FFFF. */
  function Disturbed(): Clock {
    Clock(Line([0, 2], [HALF, TICKS - 1]), map[0 := HALF, 1 := TICKS - 1, 2 := TICKS - 1], [], 0,
          map[0 := HALF, 1 := TICKS - 1, 2 := TICKS - 1 + HALF], [], [])
  }

  /**
   A reachable list with two neighbours that do not fit: stopping timer 0 there brings timer 2, which was bound to
   fire 2^32 + 2^31 - 1 ticks from now, forward by 2^32 ticks.
   */
  lemma DisturbanceReachable()
    ensures Reaches(NoTimers(), ThreeStarts(HALF, TICKS - 1, TICKS - 1) + [Stop(1)], Disturbed())
    ensures ClockInv(Disturbed()) && Legal(Disturbed(), Stop(0)) && !CanLeave(Disturbed(), 0)
    ensures Step(Disturbed(), Stop(0)).line == Line([2], [HALF - 1])
  {
    var c := MiddleStopped();
    LateReachable(HALF, TICKS - 1, TICKS - 1);
    ThenOne(NoTimers(), ThreeStarts(HALF, TICKS - 1, TICKS - 1), c, Stop(1), Disturbed());
    DisturbedInv();
  }

  lemma MiddleStopped() returns (c: Clock)
    ensures c == Clock(Line([0, 1, 2], [HALF, TICKS - 1 - HALF, HALF]),
                       map[0 := HALF, 1 := TICKS - 1, 2 := TICKS - 1], [], 0,
                       map[0 := HALF, 1 := TICKS - 1, 2 := TICKS - 1 + HALF], [], [])
    ensures Legal(c, Stop(1)) && Step(c, Stop(1)) == Disturbed()
  {
    c := Clock(Line([0, 1, 2], [HALF, TICKS - 1 - HALF, HALF]), map[0 := HALF, 1 := TICKS - 1, 2 := TICKS - 1], [], 0,
               map[0 := HALF, 1 := TICKS - 1, 2 := TICKS - 1 + HALF], [], []);
    assert Index([0, 1, 2], 1) == 1 by { assert [0, 1, 2][1..] == [1, 2]; }
  }

  lemma DisturbedInv()
    ensures ClockInv(Disturbed()) && Legal(Disturbed(), Stop(0)) && !CanLeave(Disturbed(), 0)
    ensures Step(Disturbed(), Stop(0)).line == Line([2], [HALF - 1])
  {
    var d := Disturbed();
    assert Time(d.line.delta, 0) == HALF && Time(d.line.delta, 1) == HALF + TICKS - 1;
    assert OnTime(d, 0) && OnTime(d, 1);
  }
}
