/** The compute scheduler object and its handles, updated in place; each method
    is one atomic access or channel operation, proved to be one event of the
    transition system. */
module ComputeSchedulers {
  import opened Basics
  import opened Compute
  import opened ComputeHandles

  class ComputeScheduler {
    var queue: seq<TaskId>
    var workers: seq<Phase>
    var stop: bool
    var open: bool              // `sender` is Some
    var contexts: nat           // clones of it in actor contexts
    var nextId: TaskId
    var flags: set<TaskId>
    var results: seq<Sent>      // everything put into result channels
    var taken: set<TaskId>      // channels already emptied by their handle
    ghost var discarded: seq<TaskId>
    ghost var rejected: seq<TaskId>
    ghost var started: seq<TaskId>
    ghost var firsts: map<TaskId, bool>
    ghost var ends: map<TaskId, JobEnd>
    ghost var seconds: map<TaskId, bool>

    ghost function Abs(): State
      reads this
    {
      State(queue, workers, stop, open, contexts, nextId, flags, results, taken,
            discarded, rejected, started, firsts, ends, seconds)
    }

    constructor (maxWorkers: nat)
      ensures Init(Abs()) && |workers| == maxWorkers
    {
      queue, stop, open, contexts, nextId, flags := [], false, true, 0, 0, {};
      workers := seq(maxWorkers, _ => Checking);
      results, taken, discarded, rejected, started := [], {}, [], [], [];
      firsts, ends, seconds := map[], map[], map[];
    }

    /** Is every worker gone, and with them every receiver of the queue? */
    method NoReceivers() returns (none: bool)
      ensures none == AllExited(workers)
    {
      for i := 0 to |workers|
        invariant forall w | 0 <= w < i :: workers[w] == Exited
      {
        if workers[i] != Exited {
          return false;
        }
      }
      return true;
    }

    /** Sending a task on the queue: it is enqueued, or comes back if nobody
        receives any more. */
    method Enqueue(own: bool) returns (handle: Option<TaskId>)
      requires Enabled(Abs(), Submit(own))
      modifies this
      ensures Abs() == Next(old(Abs()), Submit(own))
      ensures handle == if old(AllExited(workers)) then None else Some(old(nextId))
    {
      var none := NoReceivers();
      if none {
        rejected := rejected + [nextId];
        handle := None;
      } else {
        queue := queue + [nextId];
        handle := Some(nextId);
      }
      nextId := nextId + 1;
    }

    /** `spawn`: panics once shutdown has taken the sender, whoever else still has
        a clone of it. */
    method Spawn() returns (panicked: bool, handle: Option<TaskId>)
      modifies this
      ensures panicked <==> !old(open)
      ensures panicked ==> Abs() == old(Abs()) && handle == None
      ensures !panicked ==> Abs() == Next(old(Abs()), Submit(true))
      ensures !panicked ==> handle == if old(AllExited(workers)) then None else Some(old(nextId))
    {
      if !open {
        return true, None;
      }
      handle := Enqueue(true);
      panicked := false;
    }

    method CancelTask(t: TaskId)
      requires t < nextId
      modifies this`flags
      ensures Abs() == Next(old(Abs()), Cancel(t))
    {
      flags := flags + {t};
    }

    /** `try_recv` on a handle: take the result if there is one, otherwise say
        whether one can still come. */
    method TryReceive(t: TaskId) returns (reply: Option<Reply>)
      modifies this`taken
      ensures reply == TryRecv(old(Abs()), t)
      ensures Abs() == if InSlot(old(Abs()), t) then Next(old(Abs()), TakeResult(t)) else old(Abs())
    {
      var found: Option<ComputeResult> := None;
      for i := 0 to |results|
        invariant found == ResultFor(results[..i], t)
        invariant found.Some? <==> exists k | 0 <= k < i :: results[k].task == t
      {
        assert Front(results[..i + 1]) == results[..i];
        if results[i].task == t {
          found := Some(results[i].result);
        }
      }
      assert results[..|results|] == results;
      if t !in taken && found.Some? {
        taken := taken + {t};
        return Some(MapResult(found.value));
      }
      if t in queue || Releasing(t) in workers {
        return None;
      }
      for w := 0 to |workers|
        invariant forall u | 0 <= u < w :: HeldBy(workers[u]) != [t]
      {
        if HeldBy(workers[w]) == [t] {
          return None;
        }
      }
      return Some(Failure(SchedulerShutdown));
    }

    /** `sender`: a clone for an actor context, if the sender is still there. */
    method Sender() returns (cloned: bool)
      modifies this`contexts
      ensures Abs() == Next(old(Abs()), CloneSender) && cloned == open
    {
      if open {
        contexts := contexts + 1;
      }
      cloned := open;
    }

    method ReleaseSender()
      requires contexts > 0
      modifies this`contexts
      ensures Abs() == Next(old(Abs()), DropSender)
    {
      contexts := contexts - 1;
    }

    /** The second statement of `shutdown`. */
    method DropOwnSender()
      modifies this`open
      ensures Abs() == Next(old(Abs()), TakeSender)
    {
      open := false;
    }

    method RequestStop()
      modifies this`stop
      ensures Abs() == Next(old(Abs()), SetStop)
    {
      stop := true;
    }

    /** Worker w leaves its loop and drops its receiver. */
    method Exit(w: nat)
      requires w < |workers|
      modifies this
      ensures Abs() == Leave(old(Abs()), w)
    {
      workers := workers[w := Exited];
      var none := NoReceivers();
      if none {
        discarded := discarded + queue;
        queue := [];
      }
    }

    method TopOfLoop(w: nat)
      requires Enabled(Abs(), LoadStop(w))
      modifies this
      ensures Abs() == Next(old(Abs()), LoadStop(w))
    {
      if stop {
        Exit(w);
      } else {
        workers := workers[w := Receiving];
      }
    }

    /** `recv_timeout`: a task, a timeout, or disconnection. */
    method Recv(w: nat)
      requires w < |workers| && workers[w] == Receiving
      modifies this
      ensures Abs() == Next(old(Abs()), RecvEvent(old(Abs()), w))
    {
      if queue != [] {
        workers, queue := workers[w := Took(queue[0])], queue[1..];
      } else if open || contexts > 0 {
        workers := workers[w := Checking];
      } else {
        Exit(w);
      }
    }

    method CheckBefore(w: nat)
      requires Enabled(Abs(), SampleFirst(w))
      modifies this
      ensures Abs() == Next(old(Abs()), SampleFirst(w))
    {
      var t := workers[w].task;
      if t in flags {
        workers, firsts := workers[w := Sending(t, Cancelled)], firsts[t := true];
      } else {
        workers, firsts, started := workers[w := Working(t)], firsts[t := false], started + [t];
      }
    }

    method JobEnds(w: nat, end: JobEnd)
      requires Enabled(Abs(), Finish(w, end))
      modifies this
      ensures Abs() == Next(old(Abs()), Finish(w, end))
    {
      var t := workers[w].task;
      workers, ends := workers[w := Worked(t, end)], ends[t := end];
    }

    method CheckAfter(w: nat)
      requires Enabled(Abs(), SampleSecond(w))
      modifies this
      ensures Abs() == Next(old(Abs()), SampleSecond(w))
    {
      var t := workers[w].task;
      if t in flags {
        workers, seconds := workers[w := Sending(t, Cancelled)], seconds[t := true];
      } else {
        workers, seconds := workers[w := Sending(t, ResultOf(workers[w].end))], seconds[t := false];
      }
    }

    method SendResult(w: nat)
      requires Enabled(Abs(), Send(w))
      modifies this
      ensures Abs() == Next(old(Abs()), Send(w))
    {
      results := results + [Sent(workers[w].task, workers[w].result)];
      workers := workers[w := Releasing(workers[w].task)];
    }

    /** The worker drops the task, and with it the result's sender. */
    method DropTask(w: nat)
      requires Enabled(Abs(), Release(w))
      modifies this
      ensures Abs() == Next(old(Abs()), Release(w))
    {
      workers := workers[w := Checking];
    }

    /** Whatever interleaving the threads produce, the object follows it. */
    method Perform(schedule: seq<Event>)
      requires IsRun(Abs(), schedule)
      modifies this
      ensures Abs() == After(old(Abs()), schedule)
    {
      for k := 0 to |schedule|
        invariant IsRun(Abs(), schedule[k..]) && After(Abs(), schedule[k..]) == After(old(Abs()), schedule)
      {
        assert schedule[k..][0] == schedule[k] && schedule[k..][1..] == schedule[k + 1..];
        match schedule[k]
        case Submit(own) =>
          if own {
            var _, _ := Spawn();
          } else {
            var _ := Enqueue(false);
          }
        case Cancel(t) => CancelTask(t);
        case TakeResult(t) =>
          var _ := TryReceive(t);
        case CloneSender =>
          var _ := Sender();
        case DropSender => ReleaseSender();
        case SetStop => RequestStop();
        case TakeSender => DropOwnSender();
        case LoadStop(w) => TopOfLoop(w);
        case Receive(w) => Recv(w);
        case Timeout(w) => Recv(w);
        case Disconnect(w) => Recv(w);
        case SampleFirst(w) => CheckBefore(w);
        case Finish(w, end) => JobEnds(w, end);
        case SampleSecond(w) => CheckAfter(w);
        case Send(w) => SendResult(w);
        case Release(w) => DropTask(w);
      }
    }
  }
}
