/** The kernel's common types (common/os_types.h, kernel/task.h) and a few sequence operations. */
module KernelTypes {

  /** One more than the largest 32-bit word. */
  const TWO32: nat := 0x1_0000_0000

  datatype Option<+T> = None | Some(value: T)

  datatype State = Ready | Running | Suspended | Blocked

  datatype Reason =
    | NoReason
    | QueueSend
    | QueueRecv
    | SemTake
    | MutexLock
    | EventWait
    | Notify

  /** os_status_t; Parked says that the call left the processor and will be resumed later. */
  datatype Status =
    | Ok
    | ErrNoMem
    | ErrParam
    | ErrState
    | ErrFull
    | ErrEmpty
    | ErrTimeout
    | ErrWouldBlock
    | Parked

  /** The fields of os_tcb_t other than its two links. */
  datatype Task = Task(
    prio: nat, state: State, delay: nat,
    blockedOn: Option<nat>,       // the wait list the task is on, None for NULL
    reason: Reason, timedOut: bool,
    waitBits: bv32, waitOptions: bv32, returnBits: bv32,
    notifyValue: nat, notifyPending: bool)

  /** What os_task_create writes into a new control block. */
  function NewTask(prio: nat): Task {
    Task(prio, Ready, 0, None, NoReason, false, 0, 0, 0, 0, false)
  }

  /** s without the element at k */
  function Cut<T>(s: seq<T>, k: nat): seq<T>
    requires k < |s|
  {
    s[..k] + s[k + 1..]
  }

  /** s with x put in at k */
  function Splice<T>(s: seq<T>, k: nat, x: T): seq<T>
    requires k <= |s|
  {
    s[..k] + [x] + s[k..]
  }
}
