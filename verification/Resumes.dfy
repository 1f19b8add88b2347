/** What a parked caller finds when it runs again: the status, the notification, the bits it was woken on. */
module Resumes {
  import opened KernelTypes
  import opened KernelSpec
  import opened KernelSteps
  import opened KernelRuns
  import opened Delays

  /** At most the state has changed, and that between READY and RUNNING. */
  predicate OnlyState(r: Task, r': Task) {
    && r' == r.(state := r'.state)
    && (r'.state == r.state || (r.state in {Ready, Running} && r'.state in {Ready, Running}))
  }

  lemma SwitchOnlyStates(s: Sys, next: nat, t: nat)
    requires next < |s.tasks| && s.tasks[next].state in {Ready, Running} && t < |s.tasks|
    ensures |SwitchTo(s, Some(next)).tasks| == |s.tasks| && OnlyState(s.tasks[t], SwitchTo(s, Some(next)).tasks[t])
  {
  }

  lemma SelectOnlyStates(s: Sys, t: nat)
    requires Inv(s) && t < |s.tasks|
    ensures |SelectNext(s).tasks| == |s.tasks| && OnlyState(s.tasks[t], SelectNext(s).tasks[t])
  {
    if HighestReady(s).Some? {
      HighestIsReady(s);
      if HighestReady(s) == s.current {
        RotateReady(s);
        RotateInv(s, s.current.value);
        var d := AddToReady(Detach(s, s.current.value), s.current.value);
        HighestIsReady(d);
        SwitchOnlyStates(d, HighestReady(d).value, t);
      } else {
        SwitchOnlyStates(s, HighestReady(s).value, t);
      }
    }
  }

  /** What an event group wrote into a task, and what the task wanted from it. */
  predicate SameBits(r: Task, r': Task) {
    r'.returnBits == r.returnBits && r'.waitBits == r.waitBits && r'.waitOptions == r.waitOptions
  }

  /** The fields that a resumed caller reads are as before; `timedOut` may only have been cleared. */
  predicate TellsTheSame(r: Task, r': Task) {
    && (r'.timedOut ==> r.timedOut) && SameBits(r, r')
    && r'.notifyValue == r.notifyValue && r'.notifyPending == r.notifyPending
  }

  /** The call brings t a notification, or takes one on its behalf. */
  predicate AboutNews(s: Sys, op: Op, t: nat) {
    Notifies(op, t) || (op.DoNotifyWait? && s.current == Some(t))
  }

  /** No other call, no selection and no tick changes what t will be told. */
  lemma StepTellsTheSame(s: Sys, op: Op, t: nat)
    requires Inv(s) && Enabled(s, op) && t < |s.tasks| && !AboutNews(s, op, t)
    ensures t < |Step(s, op).tasks| && TellsTheSame(s.tasks[t], Step(s, op).tasks[t])
  {
    match op
    case DoTick => TickTellsTheSame(s, t);
    case DoSelect => SelectTellsTheSame(s, t);
    case DoDelay(_) => CallerTellsTheSame(s, op, t);
    case DoNotifyWait(_) => CallerTellsTheSame(s, op, t);
    case DoPark(_, _, _) => CallerTellsTheSame(s, op, t);
    case _ => TaskCallTellsTheSame(s, op, t);
  }

  lemma TickTellsTheSame(s: Sys, t: nat)
    requires Inv(s) && t < |s.tasks|
    ensures t < |Tick(s).tasks| && TellsTheSame(s.tasks[t], Tick(s).tasks[t])
  {
    TickEffect(s, t);
  }

  lemma SelectTellsTheSame(s: Sys, t: nat)
    requires Inv(s) && t < |s.tasks|
    ensures t < |SelectNext(s).tasks| && TellsTheSame(s.tasks[t], SelectNext(s).tasks[t])
  {
    SelectOnlyStates(s, t);
  }

  lemma TaskCallTellsTheSame(s: Sys, op: Op, t: nat)
    requires Enabled(s, op) && !op.DoTick? && !op.DoSelect? && !op.DoPark? && !op.DoDelay? && !op.DoNotifyWait?
    requires t < |s.tasks| && !Notifies(op, t)
    ensures t < |Step(s, op).tasks| && TellsTheSame(s.tasks[t], Step(s, op).tasks[t])
  {
    match op
    case DoSetPriority(u, p) => MovedTasks(s, u, s.tasks[u].(prio := p));
    case DoNotify(u, v) => NotifiedTasks(s, u, v);
    case DoRelease(u) =>
      MovedTasks(s, u, s.tasks[u].(blockedOn := None, reason := NoReason, delay := 0, timedOut := false));
    case _ => StartTellsTheSame(s, op, t);
  }

  lemma NotifiedTasks(s: Sys, u: nat, v: nat)
    requires u < |s.tasks|
    ensures var d := NotifyTask(s, u, v);
      && |d.tasks| == |s.tasks| && d.tasks[u].notifyPending && d.tasks[u].notifyValue == v
      && (d.tasks[u].timedOut ==> s.tasks[u].timedOut) && SameBits(s.tasks[u], d.tasks[u])
      && forall t :: 0 <= t < |s.tasks| && t != u ==> d.tasks[t] == s.tasks[t]
  {
    var r := s.tasks[u].(notifyValue := v, notifyPending := true);
    MovedTasks(Put(s, u, r), u, r.(reason := NoReason, delay := 0, timedOut := false));
  }

  lemma StartTellsTheSame(s: Sys, op: Op, t: nat)
    requires Enabled(s, op) && (op.DoCreate? || op.DoNewObject? || op.DoSuspend? || op.DoResume?)
    requires t < |s.tasks|
    ensures t < |Step(s, op).tasks| && TellsTheSame(s.tasks[t], Step(s, op).tasks[t])
  {
  }

  lemma CallerTellsTheSame(s: Sys, op: Op, t: nat)
    requires Enabled(s, op) && (op.DoDelay? || op.DoNotifyWait? || op.DoPark?)
    requires t < |s.tasks| && !AboutNews(s, op, t)
    ensures t < |Step(s, op).tasks| && TellsTheSame(s.tasks[t], Step(s, op).tasks[t])
  {
    match op
    case DoPark(w, reason, timeout) => ParkTellsTheSame(s, w, reason, timeout, t);
    case DoDelay(ticks) => BlockedTasks(s, s.current.value, ticks);
    case DoNotifyWait(timeout) => WaitTasks(s, timeout, t);
  }

  lemma ParkTellsTheSame(s: Sys, w: nat, reason: Reason, timeout: nat, t: nat)
    requires CanCall(s) && t < |s.tasks|
    ensures var d := Park(s, w, reason, timeout); |d.tasks| == |s.tasks| && TellsTheSame(s.tasks[t], d.tasks[t])
  {
  }

  /** A wait for a notification touches nobody else, and marks nobody as timed out. */
  lemma WaitTasks(s: Sys, timeout: nat, t: nat)
    requires CanCall(s) && t < |s.tasks|
    ensures var c, d := s.current.value, NotifyWait(s, timeout);
      && |d.tasks| == |s.tasks| && !d.tasks[c].notifyPending && (d.tasks[t].timedOut ==> s.tasks[t].timedOut)
      && (t != c ==> d.tasks[t] == s.tasks[t]) && SameBits(s.tasks[t], d.tasks[t])
  {
    var c := s.current.value;
    var s1 := Put(s, c, s.tasks[c].(reason := Notify, timedOut := false));
    BlockedTasks(s1, c, if timeout == WAIT_FOREVER then 0 else timeout);
  }

  /** No call of the kernel at all changes the bits. */
  lemma StepKeepsBits(s: Sys, op: Op, t: nat)
    requires Inv(s) && Enabled(s, op) && t < |s.tasks|
    ensures t < |Step(s, op).tasks| && SameBits(s.tasks[t], Step(s, op).tasks[t])
  {
    match op
    case DoNotify(u, v) => NotifiedTasks(s, u, v);
    case DoNotifyWait(timeout) => WaitTasks(s, timeout, t);
    case _ => StepTellsTheSame(s, op, t);
  }

  // ---------- Semaphores, mutexes and queues: the status ----------

  /** No call, no selection and no tick marks a task as timed out. */
  lemma NobodyTimesOut(s: Sys, op: Op, t: nat)
    requires Inv(s) && Enabled(s, op) && t < |s.tasks| && !s.tasks[t].timedOut
    ensures t < |Step(s, op).tasks| && !Step(s, op).tasks[t].timedOut
  {
    match op
    case DoNotify(u, v) => NotifiedTasks(s, u, v);
    case DoNotifyWait(timeout) => WaitTasks(s, timeout, t);
    case _ => StepTellsTheSame(s, op, t);
  }

  lemma {:induction false} RunTimesNobodyOut(s: Sys, ops: seq<Op>, t: nat)
    requires Inv(s) && CanRun(s, ops) && t < |s.tasks| && !s.tasks[t].timedOut
    ensures t < |Run(s, ops).tasks| && !Run(s, ops).tasks[t].timedOut
    decreases |ops|
  {
    if ops != [] {
      NobodyTimesOut(s, ops[0], t);
      StepInv(s, ops[0]);
      RunTimesNobodyOut(Step(s, ops[0]), ops[1..], t);
    }
  }

  /** Whatever happens after a task parked on an object, with whatever timeout, it is told Ok if it runs again. */
  lemma ParkedIsToldOk(s: Sys, w: nat, reason: Reason, timeout: nat, ops: seq<Op>)
    requires Inv(s) && Enabled(s, DoPark(w, reason, timeout)) && CanRun(Park(s, w, reason, timeout), ops)
    ensures var t, d := s.current.value, Run(Park(s, w, reason, timeout), ops);
      t < |d.tasks| && (d.current == Some(t) && CanCall(d) ==> ResumeStatus(d) == Ok)
  {
    ParkInv(s, w, reason, timeout);
    ParkTasks(s, w, reason, timeout);
    RunTimesNobodyOut(Park(s, w, reason, timeout), ops, s.current.value);
  }

  // ---------- Notifications: a mailbox with room for one ----------

  /** What os_task_notify_wait would take. */
  function Mail(r: Task): Option<nat> {
    if r.notifyPending then Some(r.notifyValue) else None
  }

  /** A mailbox for t: a notification replaces what is there, and a wait by t, or the end of one, empties it. */
  function MailAfter(m: Option<nat>, s: Sys, op: Op, t: nat): Option<nat> {
    if Notifies(op, t) then Some(op.value)
    else if op.DoNotifyWait? && s.current == Some(t) then None
    else m
  }

  function MailAlong(m: Option<nat>, s: Sys, ops: seq<Op>, t: nat): Option<nat>
    requires CanRun(s, ops)
    decreases |ops|
  {
    if ops == [] then m else MailAlong(MailAfter(m, s, ops[0], t), Step(s, ops[0]), ops[1..], t)
  }

  lemma StepMail(s: Sys, op: Op, t: nat)
    requires Inv(s) && Enabled(s, op) && t < |s.tasks|
    ensures t < |Step(s, op).tasks| && Mail(Step(s, op).tasks[t]) == MailAfter(Mail(s.tasks[t]), s, op, t)
  {
    if Notifies(op, t) {
      NotifiedTasks(s, t, op.value);
    } else if op.DoNotifyWait? && s.current == Some(t) {
      WaitTasks(s, op.timeout, t);
    } else {
      StepTellsTheSame(s, op, t);
    }
  }

  /**
   Over every run a wait takes the last value given to the task since it last took one, and only then takes anything:
   no notification is lost but by a later one, and none is taken twice.
   */
  lemma {:induction false} MailboxHolds(s: Sys, ops: seq<Op>, t: nat)
    requires Inv(s) && CanRun(s, ops) && t < |s.tasks|
    ensures t < |Run(s, ops).tasks| && Mail(Run(s, ops).tasks[t]) == MailAlong(Mail(s.tasks[t]), s, ops, t)
    decreases |ops|
  {
    if ops != [] {
      StepMail(s, ops[0], t);
      StepInv(s, ops[0]);
      MailboxHolds(Step(s, ops[0]), ops[1..], t);
    }
  }
}
