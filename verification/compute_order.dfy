/** Who gets what in the compute pool: tasks are taken in submission order, each
    result is received once, and nothing is dropped before shutdown. */
module ComputeOrder {
  import opened Basics
  import opened Compute
  import opened ComputeHandles
  import opened ComputeLaws

  /** The numbers below n, in order: the tasks submitted so far. */
  function Submitted(n: nat): (q: seq<TaskId>)
    ensures |q| == n && forall i | 0 <= i < n :: q[i] == i
  {
    seq(n, i => i)
  }

  /** The task that a worker takes from the queue, if any. */
  function TakenBy(s: State, e: Event): seq<TaskId>
    requires Enabled(s, e)
  {
    if e.Receive? then HeldBy(Next(s, e).workers[e.w]) else []
  }

  /** The tasks that workers take during a run. */
  function TakenIn(s: State, es: seq<Event>): seq<TaskId>
    requires IsRun(s, es)
    decreases |es|
  {
    if es == [] then [] else TakenBy(s, es[0]) + TakenIn(Next(s, es[0]), es[1..])
  }

  /** What is queued, dropped and rejected, in this order. */
  function Remaining(s: State): seq<TaskId> {
    s.queue + s.discarded + s.rejected
  }

  lemma StillHere(s: State, w: nat)
    requires w < |s.workers| && s.workers[w] != Exited && Closing(s)
    ensures s.discarded == [] && s.rejected == []
  {
  }

  lemma SubmitNext(s: State, own: bool)
    requires Enabled(s, Submit(own)) && Closing(s)
    ensures Remaining(Next(s, Submit(own))) == Remaining(s) + [s.nextId]
    ensures Next(s, Submit(own)).nextId == s.nextId + 1
  {
  }

  lemma OutsideNext(s: State, e: Event)
    requires Enabled(s, e) && IsOutside(e) && !e.Submit?
    ensures Remaining(Next(s, e)) == Remaining(s) && Next(s, e).nextId == s.nextId
  {
  }

  lemma ReceiveNext(s: State, w: nat)
    requires Enabled(s, Receive(w))
    ensures TakenBy(s, Receive(w)) + Remaining(Next(s, Receive(w))) == Remaining(s)
    ensures Next(s, Receive(w)).nextId == s.nextId
  {
    assert s.queue == [s.queue[0]] + s.queue[1..];
  }

  lemma WorkerNext(s: State, e: Event)
    requires Enabled(s, e) && !IsOutside(e) && !e.Receive? && Closing(s)
    ensures Remaining(Next(s, e)) == Remaining(s) && Next(s, e).nextId == s.nextId
  {
    hide Note, InSlot, AllExited, Move;
    assert s.workers[e.w] != Exited;
    StillHere(s, e.w);
    hide Enabled, Closing;
  }

  /** What a step takes comes from the front, what it submits goes to the back. */
  lemma RemainingNext(s: State, e: Event)
    requires Enabled(s, e) && Closing(s)
    ensures Next(s, e).nextId == s.nextId + (if e.Submit? then 1 else 0)
    ensures TakenBy(s, e) + Remaining(Next(s, e)) == Remaining(s) + (if e.Submit? then [s.nextId] else [])
  {
    hide Remaining, Next, Enabled;
    match e
    case Submit(own) => SubmitNext(s, own);
    case Receive(w) => ReceiveNext(s, w);
    case _ =>
      if IsOutside(e) {
        OutsideNext(s, e);
      } else {
        WorkerNext(s, e);
      }
  }

  lemma Chain(taken: seq<TaskId>, later: seq<TaskId>, rest: seq<TaskId>, rest': seq<TaskId>, end: seq<TaskId>,
              n: nat, n': nat, m: nat)
    requires n <= n' <= m && n' <= n + 1
    requires taken + rest' == rest + Submitted(m)[n..n'] && later + end == rest' + Submitted(m)[n'..]
    ensures taken + later + end == rest + Submitted(m)[n..]
  {
    assert Submitted(m)[n..n'] + Submitted(m)[n'..] == Submitted(m)[n..];
    assert taken + later + end == taken + (later + end);
    assert taken + (rest' + Submitted(m)[n'..]) == (taken + rest') + Submitted(m)[n'..];
    assert rest + Submitted(m)[n..n'] + Submitted(m)[n'..] == rest + (Submitted(m)[n..n'] + Submitted(m)[n'..]);
  }

  lemma {:induction false} TakenAfter(s: State, es: seq<Event>)
    requires IsRun(s, es) && Closing(s)
    ensures s.nextId <= After(s, es).nextId
    ensures TakenIn(s, es) + Remaining(After(s, es))
         == Remaining(s) + Submitted(After(s, es).nextId)[s.nextId..]
    decreases |es|
  {
    if es != [] {
      var s' := Next(s, es[0]);
      RemainingNext(s, es[0]);
      ClosingNext(s, es[0]);
      hide Next, Enabled, Remaining, Closing, TakenBy;
      TakenAfter(s', es[1..]);
      var z := After(s', es[1..]);
      assert Submitted(z.nextId)[s.nextId..s'.nextId] == if es[0].Submit? then [s.nextId] else [];
      Chain(TakenBy(s, es[0]), TakenIn(s', es[1..]), Remaining(s), Remaining(s'), Remaining(z),
            s.nextId, s'.nextId, z.nextId);
    }
  }

  /** Over every run the tasks taken by workers, in the order they are taken, then
      those queued, dropped and rejected are all submissions in submission order:
      tasks are taken first in, first out, and none is skipped. */
  lemma TakenInSubmissionOrder(s: State, es: seq<Event>)
    requires Init(s) && IsRun(s, es)
    ensures var z := After(s, es);
      TakenIn(s, es) + z.queue + z.discarded + z.rejected == Submitted(z.nextId)
  {
    assert Closing(s) && Remaining(s) == [];
    TakenAfter(s, es);
    hide Closing, Init, IsRun, After, TakenIn;
    var z := After(s, es);
    Regroup(TakenIn(s, es), z.queue, z.discarded, z.rejected);
  }

  lemma Regroup(a: seq<TaskId>, b: seq<TaskId>, c: seq<TaskId>, d: seq<TaskId>)
    ensures a + (b + c + d) == a + b + c + d
  {
  }

  lemma TakenStep(s: State, e: Event, t: TaskId)
    requires Enabled(s, e)
    ensures t in Next(s, e).taken <==> t in s.taken || e == TakeResult(t)
    ensures e == TakeResult(t) ==> t !in s.taken
  {
    hide AllExited, Note, Move;
  }

  lemma {:induction false} TakenStays(s: State, es: seq<Event>, t: TaskId)
    requires IsRun(s, es)
    ensures multiset(es)[TakeResult(t)] <= if t in s.taken then 0 else 1
    decreases |es|
  {
    if es != [] {
      TakenStep(s, es[0], t);
      hide Next, Enabled;
      TakenStays(Next(s, es[0]), es[1..], t);
      assert es == [es[0]] + es[1..];
    }
  }

  /** A handle receives its result at most once. */
  lemma ReceivedOnce(s: State, es: seq<Event>, t: TaskId)
    requires Init(s) && IsRun(s, es)
    ensures multiset(es)[TakeResult(t)] <= 1
  {
    TakenStays(s, es, t);
  }

  lemma {:induction false} StopIffSet(s: State, es: seq<Event>)
    requires IsRun(s, es)
    ensures After(s, es).stop <==> s.stop || SetStop in es
    decreases |es|
  {
    if es != [] {
      hide Note, Move, InSlot, AllExited;
      StopIffSet(Next(s, es[0]), es[1..]);
    }
  }

  /** Workers leave only after stop or when no sender is left, and only stop drops
      or refuses tasks of a pool that has workers. */
  predicate ForAReason(s: State) {
    && (forall w | 0 <= w < |s.workers| && s.workers[w] == Exited :: s.stop || !Connected(s))
    && (s.workers != [] && (s.discarded != [] || s.rejected != []) ==> s.stop)
  }

  lemma LeaveForAReason(s: State, e: Event)
    requires Enabled(s, e) && ForAReason(s) && !IsOutside(e) && !IsNoted(e)
    ensures ForAReason(Next(s, e))
  {
    hide Note, Outside, InSlot;
    match e
    case LoadStop(_) =>
    case Disconnect(_) =>
    case _ => hide AllExited;
  }

  lemma ForAReasonNext(s: State, e: Event)
    requires Enabled(s, e) && ForAReason(s)
    ensures ForAReason(Next(s, e))
  {
    if IsOutside(e) {
      hide Note, Move, InSlot;
      if e.Submit? && AllExited(s.workers) && s.workers != [] {
        assert s.workers[0] == Exited;
      }
      hide AllExited;
    } else if IsNoted(e) {
      hide Move, Outside, AllExited;
    } else {
      LeaveForAReason(s, e);
    }
  }

  lemma {:induction false} ForAReasonAfter(s: State, es: seq<Event>)
    requires IsRun(s, es) && ForAReason(s)
    ensures ForAReason(After(s, es)) && |After(s, es).workers| == |s.workers|
    decreases |es|
  {
    if es != [] {
      ForAReasonNext(s, es[0]);
      hide ForAReason;
      ForAReasonAfter(Next(s, es[0]), es[1..]);
    }
  }

  /** No task is dropped or refused by a pool with workers unless shutdown has set
      the stop flag, and no worker leaves unless it has or every sender is gone. */
  lemma NothingLostBeforeStop(s: State, es: seq<Event>)
    requires Init(s) && IsRun(s, es) && s.workers != [] && SetStop !in es
    ensures var z := After(s, es);
      && z.discarded == [] && z.rejected == []
      && (forall w | 0 <= w < |z.workers| && z.workers[w] == Exited :: !z.open && z.contexts == 0)
  {
    ForAReasonAfter(s, es);
    StopIffSet(s, es);
  }

  // ----- What is recorded is what happened -----

  /** How the job of task t ends in the run, if it does. */
  function EndIn(s: State, es: seq<Event>, t: TaskId): Option<JobEnd>
    requires IsRun(s, es)
    decreases |es|
  {
    if es == [] then None
    else if es[0].Finish? && s.workers[es[0].w].task == t then Some(es[0].end)
    else EndIn(Next(s, es[0]), es[1..], t)
  }

  /** Recorded once, an end stays. */
  predicate EndKept(s: State, z: State, t: TaskId) {
    t in s.ends ==> t in z.ends && z.ends[t] == s.ends[t]
  }

  lemma EndStep(s: State, e: Event, t: TaskId)
    requires Enabled(s, e) && Staged(s)
    ensures e.Finish? && s.workers[e.w].task == t ==>
              t !in s.ends && t in Next(s, e).ends && Next(s, e).ends[t] == e.end
    ensures !(e.Finish? && s.workers[e.w].task == t) ==>
              (t in Next(s, e).ends <==> t in s.ends) && EndKept(s, Next(s, e), t)
  {
    if IsNoted(e) {
      assert Stage(s, s.workers[e.w]);
    }
    hide Staged, AllExited, InSlot, Outside, Move;
  }

  lemma {:induction false} EndAfter(s: State, es: seq<Event>, t: TaskId)
    requires IsRun(s, es) && Lawful(s)
    ensures EndKept(s, After(s, es), t)
    ensures var z := After(s, es);
      t !in s.ends ==> (t in z.ends <==> EndIn(s, es, t).Some?) && (t in z.ends ==> z.ends[t] == EndIn(s, es, t).value)
    decreases |es|
  {
    if es != [] {
      EndStep(s, es[0], t);
      LawfulNext(s, es[0]);
      hide Next, Enabled, Lawful, Staged;
      EndAfter(Next(s, es[0]), es[1..], t);
    }
  }

  lemma FlagStep(s: State, e: Event, t: TaskId)
    requires Enabled(s, e)
    ensures t in Next(s, e).flags <==> t in s.flags || e == Cancel(t)
  {
    hide AllExited, InSlot, Note, Move;
  }

  lemma {:induction false} FlagAfter(s: State, es: seq<Event>, t: TaskId)
    requires IsRun(s, es)
    ensures t in After(s, es).flags <==> t in s.flags || Cancel(t) in es
    decreases |es|
  {
    if es != [] {
      FlagStep(s, es[0], t);
      hide Next, Enabled;
      FlagAfter(Next(s, es[0]), es[1..], t);
    }
  }

  /** Over every run a task that its own handle never cancelled has as its result what
      its job returned or the message it panicked with, whatever happens to others. */
  lemma UncancelledResult(s0: State, es: seq<Event>, k: nat)
    requires Init(s0) && IsRun(s0, es) && k < |After(s0, es).sent|
    requires Cancel(After(s0, es).sent[k].task) !in es
    ensures var r := After(s0, es).sent[k]; var end := EndIn(s0, es, r.task);
      && end.Some?
      && match end.value
         case Returned(v) => r.result == ComputeResult.Ok(v)
         case Unwound(m) => r.result == ComputeResult.Panic(m)
  {
    var z := After(s0, es);
    var t := z.sent[k].task;
    ResultDecidedBySamples(s0, es, k);
    InitLawful(s0);
    LawfulAfter(s0, es);
    FlagAfter(s0, es, t);
    EndAfter(s0, es, t);
    assert Recorded(z);
    hide Lawful, IsRun, After, StartsMatch, TakenWereSent;
  }

  /** Clones of the scheduler's sender made during a run: only while it is open. */
  function ClonesIn(open: bool, es: seq<Event>): nat {
    if es == [] then 0
    else (if es[0] == CloneSender && open then 1 else 0) + ClonesIn(open && es[0] != TakeSender, es[1..])
  }

  /** The senders that contexts hold are those cloned and not yet dropped. */
  lemma {:induction false} SendersCounted(s: State, es: seq<Event>)
    requires IsRun(s, es)
    ensures After(s, es).contexts + multiset(es)[DropSender] == s.contexts + ClonesIn(s.open, es)
    decreases |es|
  {
    if es != [] {
      SendersStep(s, es[0]);
      hide Next, Enabled;
      SendersCounted(Next(s, es[0]), es[1..]);
      assert es == [es[0]] + es[1..];
    }
  }

  lemma SendersStep(s: State, e: Event)
    requires Enabled(s, e)
    ensures Next(s, e).open <==> s.open && e != TakeSender
    ensures Next(s, e).contexts + (if e == DropSender then 1 else 0)
         == s.contexts + (if e == CloneSender && s.open then 1 else 0)
  {
    hide AllExited, Note, Move, InSlot;
  }

  // ----- Every task can get its result -----

  /** What a worker in its loop does next; jobs return. */
  function StepOf(s: State, w: nat): (e: Event)
    requires w < |s.workers| && s.workers[w] != Exited
    ensures IsOf(e, w)
  {
    match s.workers[w]
    case Checking => LoadStop(w)
    case Receiving => RecvEvent(s, w)
    case Took(_) => SampleFirst(w)
    case Working(_) => Finish(w, Returned(0))
    case Worked(_, _) => SampleSecond(w)
    case Sending(_, _) => Send(w)
    case Releasing(_) => Release(w)
  }

  lemma StepEnabled(s: State, w: nat)
    requires Conserved(s) && w < |s.workers| && s.workers[w] != Exited
    ensures Enabled(s, StepOf(s, w))
  {
    if s.workers[w].Sending? {
      Alone(s, w, s.workers[w].task);
    }
    hide Conserved;
  }

  /** How many steps of its own a worker is from receiving again. */
  function ToReceive(p: Phase): nat {
    match p
    case Receiving => 0
    case Checking => 1
    case Releasing(_) => 2
    case Sending(_, _) => 3
    case Worked(_, _) => 4
    case Working(_) => 5
    case Took(_) => 6
    case Exited => 0
  }

  /** A worker's step while it holds a task: on to the result, and then it is sent. */
  lemma HeldStep(s: State, w: nat, t: TaskId)
    requires Conserved(s) && w < |s.workers| && HeldBy(s.workers[w]) == [t]
    ensures Enabled(s, StepOf(s, w))
    ensures var s' := Next(s, StepOf(s, w));
      && ToReceive(s'.workers[w]) < ToReceive(s.workers[w]) && |s'.workers| == |s.workers|
      && if s.workers[w].Sending? then SentCount(s'.sent, t) > 0 else HeldBy(s'.workers[w]) == [t]
  {
    StepEnabled(s, w);
    hide Conserved, AllExited, InSlot, Outside;
    var s' := Next(s, StepOf(s, w));
    if s.workers[w].Sending? {
      assert Last(s'.sent).task == t;
    }
  }

  lemma {:induction false} HeldGetsResult(s: State, w: nat, t: TaskId) returns (es: seq<Event>)
    requires Lawful(s) && w < |s.workers| && HeldBy(s.workers[w]) == [t]
    ensures IsRun(s, es) && SentCount(After(s, es).sent, t) > 0
    decreases ToReceive(s.workers[w])
  {
    HeldStep(s, w, t);
    var e := StepOf(s, w);
    LawfulNext(s, e);
    var s' := Next(s, e);
    var was := s.workers[w];
    hide Lawful, Next, Enabled, SentCount, HeldBy, ToReceive;
    if was.Sending? {
      es := [];
      assert IsRun(s', es) && After(s', es) == s';
    } else {
      es := HeldGetsResult(s', w, t);
    }
    Prefix(s, e, es);
    es := [e] + es;
  }

  lemma Prefix(s: State, e: Event, fs: seq<Event>)
    requires Enabled(s, e) && IsRun(Next(s, e), fs)
    ensures IsRun(s, [e] + fs) && After(s, [e] + fs) == After(Next(s, e), fs)
  {
    hide Next, Enabled;
    assert ([e] + fs)[1..] == fs;
  }

  /** A worker's step while a task is queued: nearer to receiving, or it takes the
      head of the queue. */
  lemma QueuedStep(s: State, w: nat)
    requires Conserved(s) && !s.stop && w < |s.workers| && s.workers[w] != Exited && s.queue != []
    ensures Enabled(s, StepOf(s, w))
    ensures var s' := Next(s, StepOf(s, w));
      && |s'.workers| == |s.workers| && !s'.stop && s'.workers[w] != Exited
      && if s.workers[w] == Receiving then s'.queue == s.queue[1..] && HeldBy(s'.workers[w]) == [s.queue[0]]
         else s'.queue == s.queue && ToReceive(s'.workers[w]) < ToReceive(s.workers[w])
  {
    StepEnabled(s, w);
    hide Conserved, AllExited, InSlot, Outside;
  }

  lemma {:induction false} QueuedGetsResult(s: State, w: nat, t: TaskId) returns (es: seq<Event>)
    requires Lawful(s) && !s.stop && w < |s.workers| && s.workers[w] != Exited && t in s.queue
    ensures IsRun(s, es) && SentCount(After(s, es).sent, t) > 0
    decreases |s.queue|, ToReceive(s.workers[w])
  {
    QueuedStep(s, w);
    var e := StepOf(s, w);
    LawfulNext(s, e);
    var s' := Next(s, e);
    assert s.workers[w] == Receiving && s.queue[0] != t ==> t in s.queue[1..];
    hide Lawful, Next, Enabled, SentCount, HeldBy, ToReceive;
    if s.workers[w] == Receiving && s.queue[0] == t {
      es := HeldGetsResult(s', w, t);
    } else {
      es := QueuedGetsResult(s', w, t);
    }
    Prefix(s, e, es);
    es := [e] + es;
  }

  /** Every accepted task can get its result: from any reachable state that is not
      stopped and has a worker left, for each task queued or on a worker there is a
      run in which its result is sent, as long as jobs return. */
  lemma EveryTaskCanFinish(s0: State, es0: seq<Event>, w: nat, t: TaskId) returns (es: seq<Event>)
    requires Init(s0) && IsRun(s0, es0) && SetStop !in es0
    requires w < |After(s0, es0).workers| && After(s0, es0).workers[w] != Exited
    requires t < After(s0, es0).nextId && SentCount(After(s0, es0).sent, t) == 0
    ensures IsRun(After(s0, es0), es) && SentCount(After(After(s0, es0), es).sent, t) > 0
  {
    var s := After(s0, es0);
    InitLawful(s0);
    LawfulAfter(s0, es0);
    StopIffSet(s0, es0);
    WhereItIs(s, w, t);
    hide Lawful;
    if t in s.queue {
      es := QueuedGetsResult(s, w, t);
    } else {
      var u :| 0 <= u < |s.workers| && HeldBy(s.workers[u]) == [t];
      es := HeldGetsResult(s, u, t);
    }
  }

  /** While a worker is left, a task without a result is queued or on a worker. */
  lemma WhereItIs(s: State, w: nat, t: TaskId)
    requires Lawful(s) && w < |s.workers| && s.workers[w] != Exited && t < s.nextId && SentCount(s.sent, t) == 0
    ensures t in s.queue || exists u | 0 <= u < |s.workers| :: HeldBy(s.workers[u]) == [t]
  {
    assert Count(s, t) == 1;
    StillHere(s, w);
    OccursIn(s.discarded, t);
    OccursIn(s.rejected, t);
    PendingCounted(s, t);
    hide Lawful, Conserved, SentCount, Closing;
  }
}
