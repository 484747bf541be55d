/** The scheduler object itself: shared run queues, per-worker loop state and
    atomics, updated in place. Each method performs one atomic section of the
    threads' code and is proved to be one event of the transition system. */
module Schedulers {
  import opened Basics
  import opened RunQueues
  import opened WorkStealing

  lemma NextTicket(t: nat)
    ensures (t % WRAP + 1) % WRAP == (t + 1) % WRAP
  {
  }

  /** One new, empty queue per worker. */
  method EmptyQueues(n: nat) returns (qs: seq<RunQueue<Task>>)
    ensures |qs| == n && fresh(qs)
    ensures forall i | 0 <= i < n :: qs[i].queue == []
    ensures forall i, j :: 0 <= i < j < n ==> qs[i] != qs[j]
  {
    qs := [];
    while |qs| < n
      invariant |qs| <= n && fresh(qs)
      invariant forall i | 0 <= i < |qs| :: qs[i].queue == []
      invariant forall i, j :: 0 <= i < j < |qs| ==> qs[i] != qs[j]
    {
      var q := new RunQueue();
      qs := qs + [q];
    }
  }

  class Scheduler {
    const queues: seq<RunQueue<Task>>   // shared by all workers
    var nextWorker: nat                 // 64-bit ticket counter
    var stop: bool
    var joined: nat                     // handles already drained by shutdown
    var workers: array<Phase>           // each thread's place in worker_loop
    ghost var tickets: nat
    ghost var spawning: set<Task>
    ghost var finished: seq<Task>
    ghost var pops: nat
    ghost var steals: nat

    ghost function Contents(): (qs: seq<seq<Task>>)
      reads queues
      ensures |qs| == |queues| && forall i | 0 <= i < |queues| :: qs[i] == queues[i].queue
    {
      seq(|queues|, i requires 0 <= i < |queues| reads queues => queues[i].queue)
    }

    ghost function Abs(): State
      reads this, workers, queues
    {
      State(Contents(), workers[..], spawning, tickets, stop, joined, finished, pops, steals)
    }

    ghost predicate Valid()
      reads this, workers, queues
    {
      && WellFormed(Abs())
      && (forall i, j :: 0 <= i < j < |queues| ==> queues[i] != queues[j])
      && nextWorker == tickets % WRAP
    }

    constructor (numWorkers: nat)
      requires numWorkers > 0
      ensures Valid() && fresh(workers) && fresh(queues) && |queues| == numWorkers
      ensures Init(Abs())
    {
      var qs := EmptyQueues(numWorkers);
      queues := qs;
      nextWorker, stop, joined := 0, false, 0;
      workers := new Phase[numWorkers](_ => Checking);
      tickets, spawning, finished, pops, steals := 0, {}, [], 0, 0;
    }

    /** First atomic access of `spawn`: take a ticket and choose the queue. */
    method TakeTicket() returns (idx: nat, ghost task: Task)
      requires Valid()
      modifies this
      ensures Valid() && workers == old(workers)
      ensures Abs() == Next(old(Abs()), Event.TakeTicket)
      ensures task == old(tickets) && idx == QueueOf(task, |queues|)
    {
      NextTicket(tickets);
      task := tickets;
      idx := nextWorker % |queues|;
      nextWorker := (nextWorker + 1) % WRAP;
      tickets := tickets + 1;
      spawning := spawning + {task};
    }

    /** Second atomic access of `spawn`: push the task on the chosen queue. */
    method PushTask(idx: nat, task: Task)
      requires Valid() && task in spawning && idx == QueueOf(task, |queues|)
      modifies this, queues
      ensures Valid() && workers == old(workers)
      ensures Abs() == Next(old(Abs()), PushSpawned(task))
    {
      queues[idx].Push(task);
      spawning := spawning - {task};
      assert Contents() == old(Contents())[idx := old(queues[idx].queue) + [task]];
    }

    /** Top of the loop: leave it if stop is set. */
    method LoadStop(w: nat)
      requires Valid() && Enabled(Abs(), Event.LoadStop(w))
      modifies workers
      ensures Valid() && Abs() == Next(old(Abs()), Event.LoadStop(w))
    {
      ghost var was := Abs();
      workers[w] := if stop then Exited else Popping;
      assert workers[..] == was.workers[w := workers[w]];
    }

    /** The lock section on the worker's own queue. */
    method TakeFront(q: nat) returns (task: Option<Task>)
      requires q < |queues| && forall i, j :: 0 <= i < j < |queues| ==> queues[i] != queues[j]
      modifies queues
      ensures task == None <==> old(Contents())[q] == []
      ensures task == None ==> Contents() == old(Contents())
      ensures task.Some? ==> task.value == old(Contents())[q][0]
      ensures task.Some? ==> Contents() == old(Contents())[q := old(Contents())[q][1..]]
    {
      ghost var was := Contents();
      task := queues[q].Pop();
      if task.Some? {
        assert was[q] == [task.value] + queues[q].queue;
      }
    }

    /** Pop the worker's own queue; run the task or start scanning for one. */
    method PopOwn(w: nat)
      requires Valid() && Enabled(Abs(), Event.Pop(w))
      modifies this`pops, workers, queues
      ensures Valid() && Abs() == Next(old(Abs()), Event.Pop(w))
    {
      hide Contents;
      ghost var was := Abs();
      var task := TakeFront(w);
      workers[w] := if task == None then Scanning(0) else Running(task.value);
      pops := pops + (if task == None then 0 else 1);
      assert workers[..] == was.workers[w := workers[w]];
      assert Abs() == Next(was, Event.Pop(w));
      hide Next, Enabled;
    }

    /** The task returns and the worker goes back to the top of its loop. */
    method FinishTask(w: nat)
      requires Valid() && Enabled(Abs(), Event.Finish(w))
      modifies this`finished, workers
      ensures Valid() && Abs() == Next(old(Abs()), Event.Finish(w))
    {
      ghost var was := Abs();
      finished := finished + [workers[w].task];
      workers[w] := Checking;
      assert workers[..] == was.workers[w := Checking];
    }

    /** The lock section on the victim's queue. */
    method Rob(v: nat) returns (stolen: seq<Task>)
      requires v < |queues| && forall i, j :: 0 <= i < j < |queues| ==> queues[i] != queues[j]
      modifies queues
      ensures stolen == Stolen(old(Contents())[v])
      ensures Contents() == old(Contents())[v := Kept(old(Contents())[v])]
    {
      stolen := queues[v].StealHalf();
    }

    /** Try the next steal target. */
    method StealNext(w: nat)
      requires Valid() && Enabled(Abs(), Event.Steal(w))
      modifies this`steals, workers, queues
      ensures Valid() && Abs() == Next(old(Abs()), Event.Steal(w))
    {
      hide Stolen, Kept, Contents;
      ghost var was := Abs();
      var k := workers[w].next;
      StealSplits(was.queues[Target(w, k)]);
      var stolen := Rob(Target(w, k));
      assert stolen == [] ==> Contents() == was.queues;
      workers[w] := if stolen == [] then Scanning(k + 1) else Transferring(stolen);
      steals := steals + (if stolen == [] then 0 else 1);
      assert workers[..] == was.workers[w := workers[w]];
    }

    /** No target had two tasks: yield and start over. */
    method EndScan(w: nat)
      requires Valid() && Enabled(Abs(), Event.EndScan(w))
      modifies workers
      ensures Valid() && Abs() == Next(old(Abs()), Event.EndScan(w))
    {
      ghost var was := Abs();
      workers[w] := Checking;
      assert workers[..] == was.workers[w := Checking];
    }

    /** Push one stolen task on the worker's own queue. */
    method PushStolen(w: nat)
      requires Valid() && Enabled(Abs(), Event.PushStolen(w))
      modifies workers, queues
      ensures Valid() && Abs() == Next(old(Abs()), Event.PushStolen(w))
    {
      ghost var was := Abs();
      var hand := workers[w].hand;
      queues[w].Push(hand[0]);
      workers[w] := if |hand| == 1 then Checking else Transferring(hand[1..]);
      assert Contents() == was.queues[w := was.queues[w] + [hand[0]]];
      assert workers[..] == was.workers[w := workers[w]];
      assert Abs() == Next(was, Event.PushStolen(w));
    }

    method SetStop()
      requires Valid()
      modifies this`stop
      ensures Valid()
      ensures Abs() == Next(old(Abs()), Event.SetStop)
    {
      stop := true;
    }

    /** Join the next handle; blocks (is not callable) until that worker exited. */
    method JoinNext()
      requires Valid() && Enabled(Abs(), Join)
      modifies this`joined
      ensures Valid()
      ensures Abs() == Next(old(Abs()), Join)
    {
      joined := joined + 1;
    }

    /** Perform one event on the objects. */
    method Step(e: Event)
      requires Valid() && Enabled(Abs(), e)
      modifies this, workers, queues
      ensures Valid() && workers == old(workers) && Abs() == Next(old(Abs()), e)
    {
      match e
      case TakeTicket =>
        var _, _ := TakeTicket();
      case PushSpawned(t) => PushTask(QueueOf(t, |queues|), t);
      case LoadStop(w) => LoadStop(w);
      case Pop(w) => PopOwn(w);
      case Finish(w) => FinishTask(w);
      case Steal(w) => StealNext(w);
      case EndScan(w) => EndScan(w);
      case PushStolen(w) => PushStolen(w);
      case SetStop => SetStop();
      case Join => JoinNext();
    }

    /** Whatever interleaving the threads produce, the objects follow it. */
    method Perform(schedule: seq<Event>)
      requires Valid() && IsRun(Abs(), schedule)
      modifies this, workers, queues
      ensures Valid() && workers == old(workers) && Abs() == After(old(Abs()), schedule)
    {
      ghost var was := Abs();
      for i := 0 to |schedule|
        invariant Valid() && workers == old(workers)
        invariant IsRun(Abs(), schedule[i..]) && After(Abs(), schedule[i..]) == After(was, schedule)
      {
        assert schedule[i..][0] == schedule[i] && schedule[i..][1..] == schedule[i + 1..];
        Step(schedule[i]);
      }
    }
  }
}
