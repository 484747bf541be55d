/** What the handle of a compute task reports. */
module ComputeHandles {
  import opened Basics
  import opened Compute

  datatype ComputeError = QueueFull | SchedulerShutdown | WorkerPanic(message: string)
  datatype Reply = Success(value: nat) | Failure(error: ComputeError)

  function MapResult(r: ComputeResult): Reply {
    match r
    case Ok(v) => Success(v)
    case Panic(m) => Failure(WorkerPanic(m))
    case Cancelled => Failure(WorkerPanic("Task cancelled"))
  }

  /** The task's result is still to be sent. */
  predicate Pending(s: State, t: TaskId) {
    t in s.queue || exists w | 0 <= w < |s.workers| :: HeldBy(s.workers[w]) == [t]
  }

  /** A sender for the task's result still exists. */
  predicate Alive(s: State, t: TaskId) {
    Pending(s, t) || Releasing(t) in s.workers
  }

  function ResultFor(sent: seq<Sent>, t: TaskId): Option<ComputeResult> {
    if sent == [] then None
    else if Last(sent).task == t then Some(Last(sent).result)
    else ResultFor(Front(sent), t)
  }

  /** `try_recv` on the handle of task t. */
  function TryRecv(s: State, t: TaskId): Option<Reply> {
    if t !in s.taken && ResultFor(s.sent, t).Some? then Some(MapResult(ResultFor(s.sent, t).value))
    else if Alive(s, t) then None
    else Some(Failure(SchedulerShutdown))
  }
}
