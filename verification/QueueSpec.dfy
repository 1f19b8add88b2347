/**
 Message queues (kernel/queue.c) on values: a bounded first-in first-out sequence of items, and what the calls do to
 the tasks that wait on either side. The ring itself is in Queues.
 */
module QueueSpec {
  import opened KernelTypes
  import opened KernelSpec
  import opened KernelSteps
  import opened WaitLists
  import opened KernelRuns
  import opened Delays
  import opened Resumes
  import opened Effects

  type Item = seq<bv8>

  /** os_queue_t: `first` is the slot of the oldest item; sw and rw name the two wait lists. */
  datatype Q = Q(items: seq<Item>, max: nat, first: nat, sw: nat, rw: nat)

  /** Slot i of a ring of max slots, one step on. */
  function Next(i: nat, max: nat): nat {
    if i + 1 >= max then 0 else i + 1
  }

  // ---------- The calls ----------

  predicate HasRoom(q: Q) {
    |q.items| < q.max
  }

  /** prv_wake_task */
  function WakeTask(s: Sys, w: nat): Sys {
    if w < |s.waits| && s.waits[w] != [] && s.waits[w][0] < |s.tasks| then Release(s, s.waits[w][0]) else s
  }

  /** os_queue_send, up to its return or to the point where the caller is parked. */
  function SendStatus(q: Q, timeout: nat): Status {
    if HasRoom(q) then Ok else if timeout == 0 then ErrFull else Parked
  }

  function SendQ(q: Q, item: Item): Q {
    if HasRoom(q) then q.(items := q.items + [item]) else q
  }

  function SendSys(s: Sys, q: Q, timeout: nat): Sys
    requires CanCall(s)
  {
    if HasRoom(q) then WakeTask(s, q.rw) else if timeout == 0 then s else Park(s, q.sw, QueueSend, timeout)
  }

  /** os_queue_receive */
  function ReceiveStatus(q: Q, timeout: nat): Status {
    if q.items != [] then Ok else if timeout == 0 then ErrEmpty else Parked
  }

  function ReceiveQ(q: Q): Q {
    if q.items != [] then q.(items := q.items[1..], first := Next(q.first, q.max)) else q
  }

  function ReceiveSys(s: Sys, q: Q, timeout: nat): Sys
    requires CanCall(s)
  {
    if q.items != [] then WakeTask(s, q.sw) else if timeout == 0 then s else Park(s, q.rw, QueueRecv, timeout)
  }

  /** os_queue_overwrite, for queues of length one. */
  function OverwriteStatus(q: Q): Status {
    if q.max != 1 then ErrState else Ok
  }

  function OverwriteQ(q: Q, item: Item): Q {
    if q.max != 1 then q else q.(items := [item])
  }

  function OverwriteSys(s: Sys, q: Q): Sys {
    if q.max == 1 && q.items == [] then WakeTask(s, q.rw) else s
  }

  /** os_queue_reset */
  function ResetStatus(s: Sys, q: Q): Status
    requires q.sw < |s.waits| && q.rw < |s.waits|
  {
    if s.waits[q.sw] != [] || s.waits[q.rw] != [] then ErrState else Ok
  }

  function ResetQ(s: Sys, q: Q): Q
    requires q.sw < |s.waits| && q.rw < |s.waits|
  {
    if ResetStatus(s, q) == Ok then q.(items := [], first := 0) else q
  }

  lemma WakeTaskInv(s: Sys, w: nat)
    requires Inv(s) && w < |s.waits|
    ensures Inv(WakeTask(s, w)) && |WakeTask(s, w).waits| == |s.waits|
    ensures s.waits[w] != [] ==> s.waits[w][0] < |s.tasks| && s.tasks[s.waits[w][0]].blockedOn == Some(w)
  {
    if s.waits[w] != [] {
      ReleaseWaiters(s, w, 0);
      ReleaseInv(s, s.waits[w][0]);
    }
  }

  // ---------- Runs ----------

  datatype Call = SendCall(item: Item) | ReceiveCall | OverwriteCall(item: Item) | ResetCall

  /**
   A call: whether the queue could serve it when it was made, and the item that went from or to the caller, if any.
   */
  datatype Pending = Pending(call: Call, possible: bool, moved: seq<Item>)

  /** A call of task t, or of an interrupt, that has returned st. */
  datatype Outcome = Outcome(t: Option<nat>, pending: Pending, st: Status)

  /**
   `sent` are the items accepted, `got` the items handed out, `parked` the calls under way, `done` those that returned.
   */
  datatype World = World(
    s: Sys, q: Q, sent: seq<Item>, got: seq<Item>, parked: map<nat, Pending>, done: seq<Outcome>)

  datatype QueueOp =
    | Send(item: Item, timeout: nat)
    | Receive(timeout: nat)
    | Resume
    | Overwrite(item: Item)
    | Reset
    | Other(op: Op)

  /** The current task runs, and is not in the middle of a call. */
  predicate Free(x: World) {
    CanCall(x.s) && x.s.current.value !in x.parked
  }

  predicate QueueEnabled(x: World, op: QueueOp) {
    && x.q.sw < |x.s.waits| && x.q.rw < |x.s.waits|
    && match op
       case Send(_, _) => Free(x)
       case Receive(_) => Free(x)
       case Resume => CanCall(x.s) && x.s.current.value in x.parked
       case Overwrite(_) => true
       case Reset => true
       case Other(o) => Enabled(x.s, o)
  }

  function Returned(x: World, t: Option<nat>, p: Pending, st: Status): World {
    x.(done := x.done + [Outcome(t, p, st)])
  }

  /** The call of task t has come back with st, or is parked. */
  function Recorded(x: World, t: nat, p: Pending, st: Status): World {
    if st == Parked then x.(parked := x.parked[t := p]) else Returned(x, Some(t), p, st)
  }

  function QueueStep(x: World, op: QueueOp): World
    requires QueueEnabled(x, op)
  {
    match op
    case Send(item, timeout) =>
      var moved := if HasRoom(x.q) then [item] else [];
      Recorded(x.(s := SendSys(x.s, x.q, timeout), q := SendQ(x.q, item), sent := x.sent + moved), x.s.current.value,
               Pending(SendCall(item), HasRoom(x.q), moved), SendStatus(x.q, timeout))
    case Receive(timeout) =>
      var moved := if x.q.items != [] then [x.q.items[0]] else [];
      Recorded(x.(s := ReceiveSys(x.s, x.q, timeout), q := ReceiveQ(x.q), got := x.got + moved), x.s.current.value,
               Pending(ReceiveCall, x.q.items != [], moved), ReceiveStatus(x.q, timeout))
    case Resume =>
      var t := x.s.current.value;
      Recorded(x.(parked := x.parked - {t}), t, x.parked[t], ResumeStatus(x.s))
    case Overwrite(item) =>
      var moved := if x.q.max == 1 then [item] else [];
      var sent := if x.q.max != 1 then x.sent
                  else if x.q.items == [] || x.sent == [] then x.sent + [item] else x.sent[|x.sent| - 1 := item];
      Returned(x.(s := OverwriteSys(x.s, x.q), q := OverwriteQ(x.q, item), sent := sent), x.s.current,
               Pending(OverwriteCall(item), x.q.max == 1, moved), OverwriteStatus(x.q))
    case Reset =>
      var keep := if |x.q.items| <= |x.sent| then |x.sent| - |x.q.items| else 0;
      var sent := if ResetStatus(x.s, x.q) == Ok then x.sent[..keep] else x.sent;
      Returned(x.(q := ResetQ(x.s, x.q), sent := sent), x.s.current,
               Pending(ResetCall, x.s.waits[x.q.sw] == [] && x.s.waits[x.q.rw] == [], []), ResetStatus(x.s, x.q))
    case Other(o) => x.(s := Step(x.s, o))
  }

  ghost predicate QueueInv(x: World, max: nat) {
    && Inv(x.s) && x.q.sw < |x.s.waits| && x.q.rw < |x.s.waits|
    && x.q.max == max && x.q.first < max && |x.q.items| <= max
    && x.sent == x.got + x.q.items
  }

  lemma StepWaits(s: Sys, op: Op)
    requires Inv(s) && Enabled(s, op)
    ensures |Step(s, op).waits| >= |s.waits|
  {
    match op
    case DoTick => TickWaits(s, s.blocked);
    case DoSelect => SelectWaits(s);
    case DoPark(w, reason, timeout) => ParkWaits(s, w, reason, timeout);
    case DoDelay(_) => CallerWaits(s, op);
    case DoNotifyWait(_) => CallerWaits(s, op);
    case _ => TaskWaits(s, op);
  }

  lemma SelectWaits(s: Sys)
    requires Inv(s)
    ensures |SelectNext(s).waits| == |s.waits|
  {
  }

  lemma ParkWaits(s: Sys, w: nat, reason: Reason, timeout: nat)
    requires CanCall(s)
    ensures |Park(s, w, reason, timeout).waits| == |s.waits|
  {
  }

  lemma CallerWaits(s: Sys, op: Op)
    requires Inv(s) && Enabled(s, op) && (op.DoDelay? || op.DoNotifyWait?)
    ensures |Step(s, op).waits| == |s.waits|
  {
  }

  lemma TaskWaits(s: Sys, op: Op)
    requires Enabled(s, op) && !op.DoTick? && !op.DoSelect? && !op.DoPark? && !op.DoDelay? && !op.DoNotifyWait?
    ensures |Step(s, op).waits| >= |s.waits|
  {
  }

  lemma {:induction false} TickWaits(s: Sys, todo: seq<nat>)
    ensures |TickAll(s, todo).waits| == |s.waits|
    decreases |todo|
  {
    if todo != [] { TickWaits(if todo[0] < |s.tasks| then TickOne(s, todo[0]) else s, todo[1..]); }
  }

  lemma SendInv(x: World, item: Item, timeout: nat, max: nat)
    requires QueueInv(x, max) && QueueEnabled(x, Send(item, timeout))
    ensures QueueInv(QueueStep(x, Send(item, timeout)), max)
  {
    WakeTaskInv(x.s, x.q.rw);
    if !HasRoom(x.q) && timeout != 0 {
      ParkInv(x.s, x.q.sw, QueueSend, timeout);
      ParkWaits(x.s, x.q.sw, QueueSend, timeout);
    }
  }

  lemma ReceiveInv(x: World, timeout: nat, max: nat)
    requires QueueInv(x, max) && QueueEnabled(x, Receive(timeout))
    ensures QueueInv(QueueStep(x, Receive(timeout)), max)
  {
    WakeTaskInv(x.s, x.q.sw);
    if x.q.items != [] {
      assert x.q.items == [x.q.items[0]] + x.q.items[1..];
    } else if timeout != 0 {
      ParkInv(x.s, x.q.rw, QueueRecv, timeout);
      ParkWaits(x.s, x.q.rw, QueueRecv, timeout);
    }
  }

  lemma QueueStepInv(x: World, op: QueueOp, max: nat)
    requires QueueInv(x, max) && QueueEnabled(x, op)
    ensures QueueInv(QueueStep(x, op), max)
  {
    match op
    case Send(item, timeout) => SendInv(x, item, timeout, max);
    case Receive(timeout) => ReceiveInv(x, timeout, max);
    case Resume =>
    case Overwrite(item) => WakeTaskInv(x.s, x.q.rw);
    case Reset =>
    case Other(o) =>
      StepInv(x.s, o);
      StepWaits(x.s, o);
  }

  predicate QueueCanRun(x: World, ops: seq<QueueOp>)
    decreases |ops|
  {
    ops != [] ==> QueueEnabled(x, ops[0]) && QueueCanRun(QueueStep(x, ops[0]), ops[1..])
  }

  function QueueRun(x: World, ops: seq<QueueOp>): World
    requires QueueCanRun(x, ops)
    decreases |ops|
  {
    if ops == [] then x else QueueRun(QueueStep(x, ops[0]), ops[1..])
  }

  lemma {:induction false} QueueRunInv(x: World, ops: seq<QueueOp>, max: nat)
    requires QueueInv(x, max) && QueueCanRun(x, ops)
    ensures QueueInv(QueueRun(x, ops), max)
    decreases |ops|
  {
    if ops != [] {
      QueueStepInv(x, ops[0], max);
      QueueRunInv(QueueStep(x, ops[0]), ops[1..], max);
    }
  }

  /** os_queue_create */
  function NewWorld(s: Sys, max: nat): World {
    World(NewObject(NewObject(s)), Q([], max, 0, |s.waits|, |s.waits| + 1), [], [], map[], [])
  }

  /**
   The items handed out so far, in order, followed by those still in the queue, are the items accepted, in order:
   none is lost, repeated or overtaken, and the queue never holds more than it has slots for.
   */
  lemma FirstInFirstOut(s: Sys, max: nat, ops: seq<QueueOp>)
    requires Inv(s) && 0 < max && QueueCanRun(NewWorld(s, max), ops)
    ensures var x := QueueRun(NewWorld(s, max), ops);
      x.sent == x.got + x.q.items && |x.q.items| <= max
  {
    NewObjectInv(s);
    NewObjectInv(NewObject(s));
    QueueRunInv(NewWorld(s, max), ops, max);
  }

  // ---------- What each call does ----------

  lemma WakeTaskEffect(s: Sys, w: nat)
    requires Inv(s) && w < |s.waits|
    ensures WakesFirst(s, WakeTask(s, w), s.waits[w])
  {
    WakeTaskInv(s, w);
    if s.waits[w] != [] {
      ReleaseEffect(s, s.waits[w][0]);
    }
  }

  /** With a free slot the item is appended and the first receiver woken; without, the caller is refused or parked. */
  lemma SendEffect(x: World, item: Item, timeout: nat)
    requires Inv(x.s) && QueueEnabled(x, Send(item, timeout))
    ensures var d, st := QueueStep(x, Send(item, timeout)), SendStatus(x.q, timeout);
      if |x.q.items| < x.q.max
      then st == Ok && d.q == x.q.(items := x.q.items + [item]) && WakesFirst(x.s, d.s, x.s.waits[x.q.rw])
      else
        && d.q == x.q
        && if timeout == 0 then st == ErrFull && d.s == x.s
           else st == Parked && Parks(x.s, d.s, x.s.current.value, x.q.sw, QueueSend, timeout)
  {
    WakeTaskEffect(x.s, x.q.rw);
    if !HasRoom(x.q) && timeout != 0 {
      ParkEffect(x.s, x.q.sw, QueueSend, timeout);
    }
  }

  /** With an item in the queue the oldest is taken and the first sender woken; without, likewise. */
  lemma ReceiveEffect(x: World, timeout: nat)
    requires Inv(x.s) && QueueEnabled(x, Receive(timeout))
    ensures var d, st := QueueStep(x, Receive(timeout)), ReceiveStatus(x.q, timeout);
      if |x.q.items| > 0
      then st == Ok && [x.q.items[0]] + d.q.items == x.q.items && WakesFirst(x.s, d.s, x.s.waits[x.q.sw])
      else
        && d.q == x.q
        && if timeout == 0 then st == ErrEmpty && d.s == x.s
           else st == Parked && Parks(x.s, d.s, x.s.current.value, x.q.rw, QueueRecv, timeout)
  {
    WakeTaskEffect(x.s, x.q.sw);
    if x.q.items == [] && timeout != 0 {
      ParkEffect(x.s, x.q.rw, QueueRecv, timeout);
    }
  }

  /** Only on a queue of length one: the item is what it holds, and the first receiver is woken if it was empty. */
  lemma OverwriteEffect(x: World, item: Item)
    requires Inv(x.s) && QueueEnabled(x, Overwrite(item))
    ensures var d, st := QueueStep(x, Overwrite(item)), OverwriteStatus(x.q);
      if x.q.max != 1 then st == ErrState && d.q == x.q && d.s == x.s
      else
        && st == Ok && d.q == x.q.(items := [item])
        && WakesFirst(x.s, d.s, if x.q.items == [] then x.s.waits[x.q.rw] else [])
  {
    WakeTaskEffect(x.s, x.q.rw);
  }

  /** Refused while anybody waits on either side; otherwise the queue is empty. */
  lemma ResetEffect(x: World)
    requires QueueEnabled(x, Reset)
    ensures var d, st := QueueStep(x, Reset), ResetStatus(x.s, x.q);
      && d.s == x.s
      && if x.s.waits[x.q.sw] == [] && x.s.waits[x.q.rw] == [] then st == Ok && d.q == x.q.(items := [], first := 0)
         else st == ErrState && d.q == x.q
  {
  }

  // ---------- What blocking callers get ----------

  lemma WakeTimesNobodyOut(s: Sys, w: nat, t: nat)
    requires t < |s.tasks| && !s.tasks[t].timedOut
    ensures t < |WakeTask(s, w).tasks| && !WakeTask(s, w).tasks[t].timedOut
  {
  }

  /** A call under way was not possible when it was made, nothing has moved for it, and it will not time out. */
  predicate StillWaits(x: World, t: nat)
    requires t in x.parked
  {
    t < |x.s.tasks| && !x.s.tasks[t].timedOut && Unserved(x.parked[t])
  }

  predicate Unserved(p: Pending) {
    (p.call.SendCall? || p.call.ReceiveCall?) && !p.possible && p.moved == []
  }

  /** It moved an item exactly if it was possible, and is told Ok whenever it was possible or was parked. */
  predicate Fair(o: Outcome) {
    match o.pending.call
    case SendCall(item) =>
      && o.pending.moved == (if o.pending.possible then [item] else [])
      && (o.st == Ok || (!o.pending.possible && o.st == ErrFull))
    case ReceiveCall =>
      && |o.pending.moved| == (if o.pending.possible then 1 else 0)
      && (o.st == Ok || (!o.pending.possible && o.st == ErrEmpty))
    case OverwriteCall(item) =>
      && o.pending.moved == (if o.pending.possible then [item] else [])
      && o.st == if o.pending.possible then Ok else ErrState
    case ResetCall =>
      && o.pending.moved == []
      && o.st == if o.pending.possible then Ok else ErrState
  }

  ghost predicate CallsInv(x: World) {
    && (forall t {:trigger StillWaits(x, t)} :: t in x.parked ==> StillWaits(x, t))
    && (forall i {:trigger Fair(x.done[i])} :: 0 <= i < |x.done| ==> Fair(x.done[i]))
  }

  lemma RecordedCalls(x: World, d: World, t: nat, p: Pending, st: Status)
    requires CallsInv(x) && d.parked == x.parked && d.done == x.done
    requires forall u :: u in x.parked ==> u < |d.s.tasks| && !d.s.tasks[u].timedOut
    requires if st == Parked then t < |d.s.tasks| && !d.s.tasks[t].timedOut && Unserved(p)
        else Fair(Outcome(Some(t), p, st))
    ensures CallsInv(Recorded(d, t, p, st))
  {
    var y := Recorded(d, t, p, st);
    forall u | u in y.parked ensures StillWaits(y, u) {
      assert u in x.parked ==> StillWaits(x, u);
    }
    forall i | 0 <= i < |y.done| ensures Fair(y.done[i]) {
      assert i < |x.done| ==> Fair(x.done[i]);
    }
  }

  lemma OthersWait(x: World, op: Op)
    requires CallsInv(x) && Inv(x.s) && Enabled(x.s, op)
    ensures forall u :: u in x.parked ==> u < |Step(x.s, op).tasks| && !Step(x.s, op).tasks[u].timedOut
  {
    forall u | u in x.parked ensures u < |Step(x.s, op).tasks| && !Step(x.s, op).tasks[u].timedOut {
      assert StillWaits(x, u);
      NobodyTimesOut(x.s, op, u);
    }
  }

  lemma WokenWait(x: World, w: nat)
    requires CallsInv(x)
    ensures forall u :: u in x.parked ==> u < |WakeTask(x.s, w).tasks| && !WakeTask(x.s, w).tasks[u].timedOut
  {
    forall u | u in x.parked ensures u < |WakeTask(x.s, w).tasks| && !WakeTask(x.s, w).tasks[u].timedOut {
      assert StillWaits(x, u);
      WakeTimesNobodyOut(x.s, w, u);
    }
  }

  lemma ParkedWaits(s: Sys, w: nat, reason: Reason, timeout: nat)
    requires CanCall(s)
    ensures s.current.value < |Park(s, w, reason, timeout).tasks|
    ensures !Park(s, w, reason, timeout).tasks[s.current.value].timedOut
  {
  }

  lemma SendCalls(x: World, item: Item, timeout: nat, max: nat)
    requires QueueInv(x, max) && QueueEnabled(x, Send(item, timeout)) && CallsInv(x)
    ensures CallsInv(QueueStep(x, Send(item, timeout)))
  {
    var moved := if HasRoom(x.q) then [item] else [];
    var d := x.(s := SendSys(x.s, x.q, timeout), q := SendQ(x.q, item), sent := x.sent + moved);
    WokenWait(x, x.q.rw);
    if !HasRoom(x.q) && timeout != 0 {
      OthersWait(x, DoPark(x.q.sw, QueueSend, timeout));
      ParkedWaits(x.s, x.q.sw, QueueSend, timeout);
    } else if !HasRoom(x.q) {
      forall u | u in x.parked ensures u < |x.s.tasks| && !x.s.tasks[u].timedOut { assert StillWaits(x, u); }
    }
    RecordedCalls(x, d, x.s.current.value, Pending(SendCall(item), HasRoom(x.q), moved), SendStatus(x.q, timeout));
  }

  lemma ReceiveCalls(x: World, timeout: nat, max: nat)
    requires QueueInv(x, max) && QueueEnabled(x, Receive(timeout)) && CallsInv(x)
    ensures CallsInv(QueueStep(x, Receive(timeout)))
  {
    var moved := if x.q.items != [] then [x.q.items[0]] else [];
    var d := x.(s := ReceiveSys(x.s, x.q, timeout), q := ReceiveQ(x.q), got := x.got + moved);
    WokenWait(x, x.q.sw);
    if x.q.items == [] && timeout != 0 {
      OthersWait(x, DoPark(x.q.rw, QueueRecv, timeout));
      ParkedWaits(x.s, x.q.rw, QueueRecv, timeout);
    } else if x.q.items == [] {
      forall u | u in x.parked ensures u < |x.s.tasks| && !x.s.tasks[u].timedOut { assert StillWaits(x, u); }
    }
    RecordedCalls(x, d, x.s.current.value, Pending(ReceiveCall, x.q.items != [], moved), ReceiveStatus(x.q, timeout));
  }

  /** Nothing about the calls under way has changed but what the tasks do meanwhile. */
  lemma KeptCalls(x: World, d: World)
    requires CallsInv(x) && d.parked == x.parked && d.done == x.done
    requires forall u :: u in x.parked ==> u < |d.s.tasks| && !d.s.tasks[u].timedOut
    ensures CallsInv(d)
  {
    forall u | u in d.parked ensures StillWaits(d, u) { assert StillWaits(x, u); }
  }

  /** ... and one more call has returned. */
  lemma ReturnedCalls(x: World, d: World, t: Option<nat>, p: Pending, st: Status)
    requires CallsInv(x) && d.parked == x.parked && d.done == x.done && Fair(Outcome(t, p, st))
    requires forall u :: u in x.parked ==> u < |d.s.tasks| && !d.s.tasks[u].timedOut
    ensures CallsInv(Returned(d, t, p, st))
  {
    var y := Returned(d, t, p, st);
    forall u | u in y.parked ensures StillWaits(y, u) { assert StillWaits(x, u); }
    forall i | 0 <= i < |y.done| ensures Fair(y.done[i]) {
      assert i < |x.done| ==> Fair(x.done[i]);
    }
  }

  lemma OverwriteCalls(x: World, item: Item)
    requires QueueEnabled(x, Overwrite(item)) && CallsInv(x)
    ensures CallsInv(QueueStep(x, Overwrite(item)))
  {
    var y := QueueStep(x, Overwrite(item));
    var o := y.done[|y.done| - 1];
    WokenWait(x, x.q.rw);
    forall u | u in x.parked ensures u < |x.s.tasks| && !x.s.tasks[u].timedOut { assert StillWaits(x, u); }
    ReturnedCalls(x, y.(done := x.done), o.t, o.pending, o.st);
    assert y == Returned(y.(done := x.done), o.t, o.pending, o.st);
  }

  lemma ResetCalls(x: World)
    requires QueueEnabled(x, Reset) && CallsInv(x)
    ensures CallsInv(QueueStep(x, Reset))
  {
    var y := QueueStep(x, Reset);
    var o := y.done[|y.done| - 1];
    forall u | u in x.parked ensures u < |x.s.tasks| && !x.s.tasks[u].timedOut { assert StillWaits(x, u); }
    ReturnedCalls(x, y.(done := x.done), o.t, o.pending, o.st);
    assert y == Returned(y.(done := x.done), o.t, o.pending, o.st);
  }

  lemma ResumeCalls(x: World)
    requires QueueEnabled(x, Resume) && CallsInv(x)
    ensures CallsInv(QueueStep(x, Resume))
  {
    var t := x.s.current.value;
    var d := x.(parked := x.parked - {t});
    assert StillWaits(x, t);
    forall u | u in d.parked ensures StillWaits(d, u) { assert StillWaits(x, u); }
    var o := Outcome(Some(t), x.parked[t], Ok);
    assert QueueStep(x, Resume) == d.(done := x.done + [o]);
    forall i | 0 <= i < |x.done + [o]| ensures Fair((x.done + [o])[i]) {
      assert i < |x.done| ==> Fair(x.done[i]);
    }
    forall u | u in d.parked ensures StillWaits(QueueStep(x, Resume), u) { assert StillWaits(d, u); }
  }

  lemma StepCalls(x: World, op: QueueOp, max: nat)
    requires QueueInv(x, max) && QueueEnabled(x, op) && CallsInv(x)
    ensures CallsInv(QueueStep(x, op))
  {
    match op
    case Send(item, timeout) => SendCalls(x, item, timeout, max);
    case Receive(timeout) => ReceiveCalls(x, timeout, max);
    case Resume => ResumeCalls(x);
    case Overwrite(item) => OverwriteCalls(x, item);
    case Reset => ResetCalls(x);
    case Other(o) =>
      OthersWait(x, o);
      KeptCalls(x, QueueStep(x, op));
  }

  lemma {:induction false} RunCalls(x: World, ops: seq<QueueOp>, max: nat)
    requires QueueInv(x, max) && CallsInv(x) && QueueCanRun(x, ops)
    ensures CallsInv(QueueRun(x, ops))
    decreases |ops|
  {
    if ops != [] {
      StepCalls(x, ops[0], max);
      QueueStepInv(x, ops[0], max);
      RunCalls(QueueStep(x, ops[0]), ops[1..], max);
    }
  }

  /**
   What Ok means, over every run: a send that returned Ok stored its item exactly if there was room when it was made,
   a receive that returned Ok handed out an item exactly if there was one. Every other call was refused at once; no
   parked call ever times out, so one that was parked is told Ok and has done nothing.
   */
  lemma OkMovesIff(s: Sys, max: nat, ops: seq<QueueOp>, i: nat)
    requires Inv(s) && 0 < max && QueueCanRun(NewWorld(s, max), ops) && i < |QueueRun(NewWorld(s, max), ops).done|
    requires var c := QueueRun(NewWorld(s, max), ops).done[i].pending.call; c.SendCall? || c.ReceiveCall?
    ensures var o := QueueRun(NewWorld(s, max), ops).done[i];
      && (o.st == Ok ==> (o.pending.moved != [] <==> o.pending.possible))
      && (o.pending.call.SendCall? && o.pending.possible ==> o.pending.moved == [o.pending.call.item])
      && (o.st != Ok ==> !o.pending.possible && o.pending.moved == [] && o.st in {ErrFull, ErrEmpty})
  {
    NewObjectInv(s);
    NewObjectInv(NewObject(s));
    RunCalls(NewWorld(s, max), ops, max);
    assert Fair(QueueRun(NewWorld(s, max), ops).done[i]);
  }

  // ---------- What the calls say is what happened ----------

  datatype Ledger = Ledger(sent: seq<Item>, got: seq<Item>)

  /** What a caller must conclude from one more call that has returned. */
  function Concluded(l: Ledger, o: Outcome): Ledger {
    match o.pending.call
    case SendCall(_) => l.(sent := l.sent + o.pending.moved)
    case ReceiveCall => l.(got := l.got + o.pending.moved)
    case OverwriteCall(item) =>
      if o.st != Ok then l
      else if |l.sent| <= |l.got| then l.(sent := l.sent + [item])
      else l.(sent := l.sent[|l.sent| - 1 := item])
    case ResetCall => if o.st != Ok then l else l.(sent := l.got)
  }

  function Replayed(done: seq<Outcome>): Ledger {
    if done == [] then Ledger([], []) else Concluded(Replayed(done[..|done| - 1]), done[|done| - 1])
  }

  predicate Explained(x: World) {
    Replayed(x.done) == Ledger(x.sent, x.got)
  }

  lemma OneMoreCall(x: World, d: World, t: Option<nat>, p: Pending, st: Status)
    requires Explained(x) && d.done == x.done
    requires Concluded(Ledger(x.sent, x.got), Outcome(t, p, st)) == Ledger(d.sent, d.got)
    ensures Explained(Returned(d, t, p, st))
  {
    assert Returned(d, t, p, st).done[..|x.done|] == x.done;
  }

  lemma SendExplained(x: World, item: Item, timeout: nat)
    requires QueueEnabled(x, Send(item, timeout)) && Explained(x)
    ensures Explained(QueueStep(x, Send(item, timeout)))
  {
    var moved := if HasRoom(x.q) then [item] else [];
    var d := x.(s := SendSys(x.s, x.q, timeout), q := SendQ(x.q, item), sent := x.sent + moved);
    if SendStatus(x.q, timeout) == Parked {
      assert x.sent + moved == x.sent;
    } else {
      OneMoreCall(x, d, x.s.current, Pending(SendCall(item), HasRoom(x.q), moved), SendStatus(x.q, timeout));
    }
  }

  lemma ReceiveExplained(x: World, timeout: nat)
    requires QueueEnabled(x, Receive(timeout)) && Explained(x)
    ensures Explained(QueueStep(x, Receive(timeout)))
  {
    var moved := if x.q.items != [] then [x.q.items[0]] else [];
    var d := x.(s := ReceiveSys(x.s, x.q, timeout), q := ReceiveQ(x.q), got := x.got + moved);
    if ReceiveStatus(x.q, timeout) == Parked {
      assert x.got + moved == x.got;
    } else {
      OneMoreCall(x, d, x.s.current, Pending(ReceiveCall, x.q.items != [], moved), ReceiveStatus(x.q, timeout));
    }
  }

  lemma ResumeExplained(x: World)
    requires QueueEnabled(x, Resume) && Explained(x) && CallsInv(x)
    ensures Explained(QueueStep(x, Resume))
  {
    var t := x.s.current.value;
    assert StillWaits(x, t);
    assert x.sent + [] == x.sent && x.got + [] == x.got;
    OneMoreCall(x, x.(parked := x.parked - {t}), Some(t), x.parked[t], ResumeStatus(x.s));
  }

  lemma OverwriteExplained(x: World, item: Item, max: nat)
    requires QueueInv(x, max) && QueueEnabled(x, Overwrite(item)) && Explained(x)
    ensures Explained(QueueStep(x, Overwrite(item)))
  {
    var y := QueueStep(x, Overwrite(item));
    var o := y.done[|y.done| - 1];
    OneMoreCall(x, y.(done := x.done), o.t, o.pending, o.st);
    assert y == Returned(y.(done := x.done), o.t, o.pending, o.st);
  }

  lemma ResetExplained(x: World, max: nat)
    requires QueueInv(x, max) && QueueEnabled(x, Reset) && Explained(x)
    ensures Explained(QueueStep(x, Reset))
  {
    var y := QueueStep(x, Reset);
    var o := y.done[|y.done| - 1];
    assert x.sent[..|x.got|] == x.got;
    OneMoreCall(x, y.(done := x.done), o.t, o.pending, o.st);
    assert y == Returned(y.(done := x.done), o.t, o.pending, o.st);
  }

  lemma StepExplained(x: World, op: QueueOp, max: nat)
    requires QueueInv(x, max) && QueueEnabled(x, op) && CallsInv(x) && Explained(x)
    ensures Explained(QueueStep(x, op))
  {
    match op
    case Send(item, timeout) => SendExplained(x, item, timeout);
    case Receive(timeout) => ReceiveExplained(x, timeout);
    case Resume => ResumeExplained(x);
    case Overwrite(item) => OverwriteExplained(x, item, max);
    case Reset => ResetExplained(x, max);
    case Other(o) =>
  }

  lemma {:induction false} RunExplained(x: World, ops: seq<QueueOp>, max: nat)
    requires QueueInv(x, max) && CallsInv(x) && QueueCanRun(x, ops) && Explained(x)
    ensures Explained(QueueRun(x, ops)) && CallsInv(QueueRun(x, ops))
    decreases |ops|
  {
    if ops != [] {
      StepExplained(x, ops[0], max);
      StepCalls(x, ops[0], max);
      QueueStepInv(x, ops[0], max);
      RunExplained(QueueStep(x, ops[0]), ops[1..], max);
    }
  }

  /**
   Over every run the items accepted and handed out are those that the calls that have returned moved, in the order
   in which they returned, and a call still under way has moved none.
   */
  lemma CallsExplainLedger(s: Sys, max: nat, ops: seq<QueueOp>)
    requires Inv(s) && 0 < max && QueueCanRun(NewWorld(s, max), ops)
    ensures var x := QueueRun(NewWorld(s, max), ops);
      && Replayed(x.done) == Ledger(x.sent, x.got)
      && forall t :: t in x.parked ==> x.parked[t].moved == []
  {
    NewObjectInv(s);
    NewObjectInv(NewObject(s));
    RunExplained(NewWorld(s, max), ops, max);
    var x := QueueRun(NewWorld(s, max), ops);
    forall t | t in x.parked ensures x.parked[t].moved == [] { assert StillWaits(x, t); }
  }

  // ---------- ... and the runs in which Ok means nothing ----------

  /** The current task is more urgent than any other, and some other task is ready. */
  predicate MostUrgent(s: Sys)
    requires CanCall(s)
  {
    && (forall u :: 0 <= u < |s.tasks| && u != s.current.value ==> s.tasks[s.current.value].prio < s.tasks[u].prio)
    && exists u :: 0 <= u < |s.tasks| && u != s.current.value && s.tasks[u].state == Ready
  }

  lemma SomebodyReady(s: Sys, u: nat)
    requires Inv(s) && u < |s.tasks| && s.tasks[u].state == Ready
    ensures HighestReady(s).Some?
  {
    InvAt(s, u);
    assert ListOf(s, OnReady(s.tasks[u].prio)) == s.ready[s.tasks[u].prio] != [];
  }

  lemma ParkInFront(s: Sys, w: nat, reason: Reason, timeout: nat)
    requires Inv(s) && Enabled(s, DoPark(w, reason, timeout)) && MostUrgent(s)
    ensures var t, d := s.current.value, Park(s, w, reason, timeout);
      && Inv(d) && w < |d.waits| && |d.waits| == |s.waits| && d.waits[w] != [] && d.waits[w][0] == t
      && HighestReady(d).Some?
  {
    var t, d := s.current.value, Park(s, w, reason, timeout);
    ParkInv(s, w, reason, timeout);
    ParkWaiters(s, w, reason, timeout);
    ParkWaits(s, w, reason, timeout);
    WaitersAreOn(s, {}, w);
    ParkTasks(s, w, reason, timeout);
    assert InsertPos(s.waits[w], s.tasks, s.tasks[t].prio) == 0;
    var u :| 0 <= u < |s.tasks| && u != t && s.tasks[u].state == Ready;
    SomebodyReady(d, u);
  }

  /** Another task is chosen, and the first waiter stays where it is. */
  lemma SelectPasses(s: Sys, w: nat, t: nat)
    requires Inv(s) && HighestReady(s).Some? && w < |s.waits| && s.waits[w] != [] && s.waits[w][0] == t
    ensures var d := SelectNext(s);
      && Inv(d) && CanCall(d) && d.current != Some(t) && |d.waits| == |s.waits|
      && d.waits[w] == s.waits[w] && t < |s.tasks| == |d.tasks| && d.tasks[t] == s.tasks[t]
      && (forall u :: 0 <= u < |s.tasks| ==> d.tasks[u].prio == s.tasks[u].prio)
  {
    WaitersAreOn(s, {}, w);
    SelectInv(s);
    SelectsHighest(s);
    SelectWaits(s);
    SelectKeepsWaiters(s, w);
    SelectLeavesBlocked(s, t);
    SelectKeepsPrios(s);
  }

  lemma SelectKeepsPrios(s: Sys)
    requires Inv(s)
    ensures |SelectNext(s).tasks| == |s.tasks|
    ensures forall u :: 0 <= u < |s.tasks| ==> SelectNext(s).tasks[u].prio == s.tasks[u].prio
  {
    forall u | 0 <= u < |s.tasks| ensures SelectNext(s).tasks[u].prio == s.tasks[u].prio {
      SelectOnlyStates(s, u);
    }
  }

  /** The first waiter of w is woken; if it is the most urgent task, it runs next, and has not timed out. */
  lemma WakeThenSelect(s: Sys, w: nat, t: nat)
    requires Inv(s) && w < |s.waits| && s.waits[w] != [] && s.waits[w][0] == t
    requires t < |s.tasks| && forall u :: 0 <= u < |s.tasks| && u != t ==> s.tasks[t].prio < s.tasks[u].prio
    ensures var s3 := WakeTask(s, w);
      var s4 := SelectNext(s3);
      && Inv(s3) && Inv(s4) && |s4.waits| == |s.waits| && s4.current == Some(t) && CanCall(s4)
      && !s4.tasks[t].timedOut
  {
    var s3 := WakeTask(s, w);
    ReleaseWaiters(s, w, 0);
    ReleaseInv(s, t);
    SomebodyReady(s3, t);
    SelectInv(s3);
    SelectsHighest(s3);
    SelectWaits(s3);
    SelectKeepsPrios(s3);
    SelectOnlyStates(s3, t);
    TopIsRunnable(s3, t);
  }

  lemma TopIsRunnable(s: Sys, t: nat)
    requires Inv(s) && HighestReady(s).Some? && t < |s.tasks| && s.tasks[t].state == Ready
    requires forall u :: 0 <= u < |s.tasks| && u != t ==> s.tasks[t].prio < s.tasks[u].prio
    ensures SelectNext(s).current == Some(t)
  {
    SelectsHighest(s);
    SelectOnlyStates(s, t);
    SelectKeepsPrios(s);
    SelectInv(s);
  }

  lemma FiveSteps(x: World, x1: World, x2: World, x3: World, x4: World, a: QueueOp, b: QueueOp)
    requires QueueEnabled(x, a) && QueueStep(x, a) == x1
    requires QueueEnabled(x1, Other(DoSelect)) && QueueStep(x1, Other(DoSelect)) == x2
    requires QueueEnabled(x2, b) && QueueStep(x2, b) == x3
    requires QueueEnabled(x3, Other(DoSelect)) && QueueStep(x3, Other(DoSelect)) == x4
    requires QueueEnabled(x4, Resume)
    ensures var ops := [a, Other(DoSelect), b, Other(DoSelect), Resume];
      QueueCanRun(x, ops) && QueueRun(x, ops) == QueueStep(x4, Resume)
  {
    var sel := Other(DoSelect);
    OneStep(x4, Resume, [], QueueStep(x4, Resume));
    OneStep(x3, sel, [Resume], x4);
    OneStep(x2, b, [sel, Resume], x3);
    OneStep(x1, sel, [b, sel, Resume], x2);
    OneStep(x, a, [sel, b, sel, Resume], x1);
  }

  lemma OneStep(x: World, op: QueueOp, rest: seq<QueueOp>, d: World)
    requires QueueEnabled(x, op) && QueueStep(x, op) == d && QueueCanRun(d, rest)
    ensures QueueCanRun(x, [op] + rest) && QueueRun(x, [op] + rest) == QueueRun(d, rest)
  {
    assert ([op] + rest)[1..] == rest;
  }

  lemma WokenWaits(s: Sys, w: nat)
    ensures |WakeTask(s, w).waits| == |s.waits|
  {
  }

  lemma ReceiveParks(x: World, timeout: nat)
    requires QueueEnabled(x, Receive(timeout)) && x.q.items == [] && timeout != 0
    ensures QueueStep(x, Receive(timeout)) == x.(s := Park(x.s, x.q.rw, QueueRecv, timeout),
              parked := x.parked[x.s.current.value := Pending(ReceiveCall, false, [])])
  {
  }

  lemma SendParks(x: World, item: Item, timeout: nat)
    requires QueueEnabled(x, Send(item, timeout)) && !HasRoom(x.q) && timeout != 0
    ensures QueueStep(x, Send(item, timeout)) == x.(s := Park(x.s, x.q.sw, QueueSend, timeout),
              parked := x.parked[x.s.current.value := Pending(SendCall(item), false, [])])
  {
  }

  lemma SendDelivers(x: World, item: Item)
    requires QueueEnabled(x, Send(item, 0)) && HasRoom(x.q)
    ensures var d := QueueStep(x, Send(item, 0));
      && d.s == WakeTask(x.s, x.q.rw) && d.q == SendQ(x.q, item) && d.got == x.got && d.parked == x.parked
  {
  }

  lemma ReceiveCollects(x: World)
    requires QueueEnabled(x, Receive(0)) && x.q.items != []
    ensures var d := QueueStep(x, Receive(0));
      && d.s == WakeTask(x.s, x.q.sw) && d.q == ReceiveQ(x.q) && d.sent == x.sent && d.parked == x.parked
  {
  }

  lemma ResumesOk(x: World)
    requires QueueEnabled(x, Resume) && !x.s.tasks[x.s.current.value].timedOut
    ensures var d, t := QueueStep(x, Resume), x.s.current.value;
      && d.done == x.done + [Outcome(Some(t), x.parked[t], Ok)] && d.q == x.q && d.sent == x.sent && d.got == x.got
  {
  }

  /** The most urgent task parks on w, another runs and wakes it, it runs again: what that does to the kernel. */
  lemma Detour(s: Sys, w: nat, reason: Reason, timeout: nat) returns (s1: Sys, s2: Sys, s3: Sys, s4: Sys)
    requires Inv(s) && Enabled(s, DoPark(w, reason, timeout)) && MostUrgent(s)
    ensures s1 == Park(s, w, reason, timeout) && s2 == SelectNext(s1) && s3 == WakeTask(s2, w) && s4 == SelectNext(s3)
    ensures |s.waits| == |s1.waits| == |s2.waits| == |s3.waits| == |s4.waits|
    ensures CanCall(s2) && s2.current != s.current
    ensures CanCall(s4) && s4.current == s.current && !s4.tasks[s.current.value].timedOut
  {
    s1 := Park(s, w, reason, timeout);
    ParkInFront(s, w, reason, timeout);
    ParkTasks(s, w, reason, timeout);
    SelectPasses(s1, w, s.current.value);
    s2 := SelectNext(s1);
    WakeThenSelect(s2, w, s.current.value);
    s3 := WakeTask(s2, w);
    WokenWaits(s2, w);
    s4 := SelectNext(s3);
  }

  /** The four steps up to the point where the parked receiver runs again. */
  lemma ReceiverWoken(x: World, timeout: nat, item: Item, max: nat) returns (y: World)
    requires QueueInv(x, max) && 0 < max && x.q.items == [] && timeout != 0
    requires CanCall(x.s) && MostUrgent(x.s) && x.parked == map[]
    ensures QueueEnabled(y, Resume) && y.s.current == x.s.current && !y.s.tasks[x.s.current.value].timedOut
    ensures y.parked == map[x.s.current.value := Pending(ReceiveCall, false, [])]
    ensures y.got == x.got && y.q == SendQ(x.q, item)
    ensures var ops := [Receive(timeout), Other(DoSelect), Send(item, 0), Other(DoSelect), Resume];
      QueueCanRun(x, ops) && QueueRun(x, ops) == QueueStep(y, Resume)
  {
    var s1, s2, s3, s4 := Detour(x.s, x.q.rw, QueueRecv, timeout);
    ReceiveParks(x, timeout);
    var x1 := QueueStep(x, Receive(timeout));
    var x2 := x1.(s := s2);
    SendDelivers(x2, item);
    var x3 := QueueStep(x2, Send(item, 0));
    y := x3.(s := s4);
    FiveSteps(x, x1, x2, x3, y, Receive(timeout), Send(item, 0));
  }

  /** A receiver finds nothing and is parked; a sender's item wakes it; it returns Ok, and the item is still there. */
  lemma WokenReceiverGetsNothing(x: World, timeout: nat, item: Item, max: nat)
    requires QueueInv(x, max) && 0 < max && x.q.items == [] && timeout != 0
    requires CanCall(x.s) && MostUrgent(x.s) && x.parked == map[]
    ensures var ops := [Receive(timeout), Other(DoSelect), Send(item, 0), Other(DoSelect), Resume];
      && QueueCanRun(x, ops)
      && var y := QueueRun(x, ops);
         && |y.done| > 0 && y.done[|y.done| - 1] == Outcome(x.s.current, Pending(ReceiveCall, false, []), Ok)
         && y.got == x.got && y.q.items == [item]
  {
    var y := ReceiverWoken(x, timeout, item, max);
    ResumesOk(y);
  }

  /** The four steps up to the point where the parked sender runs again. */
  lemma SenderWoken(x: World, timeout: nat, item: Item, max: nat) returns (y: World)
    requires QueueInv(x, max) && 0 < max && !HasRoom(x.q) && timeout != 0
    requires CanCall(x.s) && MostUrgent(x.s) && x.parked == map[]
    ensures QueueEnabled(y, Resume) && y.s.current == x.s.current && !y.s.tasks[x.s.current.value].timedOut
    ensures y.parked == map[x.s.current.value := Pending(SendCall(item), false, [])]
    ensures y.sent == x.sent && y.q == ReceiveQ(x.q)
    ensures var ops := [Send(item, timeout), Other(DoSelect), Receive(0), Other(DoSelect), Resume];
      QueueCanRun(x, ops) && QueueRun(x, ops) == QueueStep(y, Resume)
  {
    var s1, s2, s3, s4 := Detour(x.s, x.q.sw, QueueSend, timeout);
    SendParks(x, item, timeout);
    var x1 := QueueStep(x, Send(item, timeout));
    var x2 := x1.(s := s2);
    ReceiveCollects(x2);
    var x3 := QueueStep(x2, Receive(0));
    y := x3.(s := s4);
    FiveSteps(x, x1, x2, x3, y, Send(item, timeout), Receive(0));
  }

  /** A sender finds the queue full and is parked; a receiver makes room and wakes it; it returns Ok, its item lost. */
  lemma WokenSenderDeliversNothing(x: World, timeout: nat, item: Item, max: nat)
    requires QueueInv(x, max) && 0 < max && !HasRoom(x.q) && timeout != 0
    requires CanCall(x.s) && MostUrgent(x.s) && x.parked == map[]
    ensures var ops := [Send(item, timeout), Other(DoSelect), Receive(0), Other(DoSelect), Resume];
      && QueueCanRun(x, ops)
      && var y := QueueRun(x, ops);
         && |y.done| > 0
         && y.done[|y.done| - 1] == Outcome(x.s.current, Pending(SendCall(item), false, []), Ok)
         && y.sent == x.sent && y.q.items == x.q.items[1..]
  {
    var y := SenderWoken(x, timeout, item, max);
    ResumesOk(y);
  }
}
