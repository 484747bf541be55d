/** The compute pool as a transition system: submitters and handle owners on one
    side, workers sharing one queue on the other, every atomic access or channel
    operation one event. */
module Compute {
  import opened Basics
  import opened Tallies

  type TaskId = nat

  /** How a job ends: it returns a value, or its panic is caught. */
  datatype JobEnd = Returned(value: nat) | Unwound(message: string)

  datatype ComputeResult = Ok(value: nat) | Panic(message: string) | Cancelled

  /** Where a worker is in its loop. */
  datatype Phase =
    | Checking                                    // about to load the stop flag
    | Receiving                                   // in recv_timeout
    | Took(task: TaskId)                          // about to sample the cancel flag
    | Working(task: TaskId)                       // running the job
    | Worked(task: TaskId, end: JobEnd)           // about to sample the flag again
    | Sending(task: TaskId, result: ComputeResult)
    | Releasing(task: TaskId)                     // result sent, its sender not yet dropped
    | Exited

  datatype Sent = Sent(task: TaskId, result: ComputeResult)

  datatype State = State(
    queue: seq<TaskId>,
    workers: seq<Phase>,
    stop: bool,
    open: bool,                    // the scheduler still has its sender of the queue
    contexts: nat,                 // clones of it that actor contexts hold
    nextId: TaskId,
    flags: set<TaskId>,            // cancel flags that are set
    sent: seq<Sent>,               // results sent so far
    taken: set<TaskId>,            // results already received by their handle
    discarded: seq<TaskId>,        // dropped with the queue's last receiver
    rejected: seq<TaskId>,         // submissions that failed
    started: seq<TaskId>,          // jobs started, in order
    firsts: map<TaskId, bool>,     // first sample of the cancel flag
    ends: map<TaskId, JobEnd>,     // how jobs ended
    seconds: map<TaskId, bool>)    // second sample of the cancel flag

  datatype Event =
    | Submit(own: bool)    // through the scheduler's own sender, or a context's
    | Cancel(t: TaskId)
    | TakeResult(t: TaskId)
    | CloneSender
    | DropSender
    | SetStop
    | TakeSender
    | LoadStop(w: nat)
    | Receive(w: nat)
    | Timeout(w: nat)
    | Disconnect(w: nat)
    | SampleFirst(w: nat)
    | Finish(w: nat, end: JobEnd)
    | SampleSecond(w: nat)
    | Send(w: nat)
    | Release(w: nat)

  predicate AllExited(ws: seq<Phase>) {
    forall w | 0 <= w < |ws| :: ws[w] == Exited
  }

  function ResultOf(end: JobEnd): ComputeResult {
    match end
    case Returned(v) => ComputeResult.Ok(v)
    case Unwound(m) => ComputeResult.Panic(m)
  }

  predicate Init(s: State) {
    && (forall w | 0 <= w < |s.workers| :: s.workers[w] == Checking)
    && s.queue == [] && !s.stop && s.open && s.contexts == 0 && s.nextId == 0 && s.flags == {}
    && s.sent == [] && s.taken == {} && s.discarded == [] && s.rejected == [] && s.started == []
    && s.firsts == map[] && s.ends == map[] && s.seconds == map[]
  }

  /** The handle's channel: a sent result that has not been received. */
  predicate InSlot(s: State, t: TaskId) {
    t !in s.taken && exists k | 0 <= k < |s.sent| :: s.sent[k].task == t
  }

  /** Some sender of the queue is left. */
  predicate Connected(s: State) {
    s.open || s.contexts > 0
  }

  predicate Enabled(s: State, e: Event) {
    match e
    case Submit(own) => if own then s.open else s.contexts > 0
    case Cancel(t) => t < s.nextId
    case TakeResult(t) => InSlot(s, t)
    case CloneSender => true
    case DropSender => s.contexts > 0
    case SetStop => true
    case TakeSender => true
    case LoadStop(w) => w < |s.workers| && s.workers[w] == Checking
    case Receive(w) => w < |s.workers| && s.workers[w] == Receiving && s.queue != []
    case Timeout(w) => w < |s.workers| && s.workers[w] == Receiving && s.queue == [] && Connected(s)
    case Disconnect(w) => w < |s.workers| && s.workers[w] == Receiving && s.queue == [] && !Connected(s)
    case SampleFirst(w) => w < |s.workers| && s.workers[w].Took?
    case Finish(w, _) => w < |s.workers| && s.workers[w].Working?
    case SampleSecond(w) => w < |s.workers| && s.workers[w].Worked?
    case Send(w) =>
      // the result channel has room for one result; a full channel would block
      w < |s.workers| && s.workers[w].Sending? && !InSlot(s, s.workers[w].task)
    case Release(w) => w < |s.workers| && s.workers[w].Releasing?
  }

  /** How a receive of worker w ends. */
  function RecvEvent(s: State, w: nat): Event {
    if s.queue != [] then Receive(w) else if Connected(s) then Timeout(w) else Disconnect(w)
  }

  /** Worker w leaves its loop; the last one to leave drops the queue. */
  function Leave(s: State, w: nat): State
    requires w < |s.workers|
  {
    var ws := s.workers[w := Exited];
    if AllExited(ws) then s.(workers := ws, queue := [], discarded := s.discarded + s.queue)
    else s.(workers := ws)
  }

  /** Events of clients; every other event belongs to a worker. */
  predicate IsOutside(e: Event) {
    e.Submit? || e.Cancel? || e.TakeResult? || e.CloneSender? || e.DropSender? || e.SetStop? || e.TakeSender?
  }

  /** A cancel flag is sampled or a job ends. */
  predicate IsNoted(e: Event) {
    e.SampleFirst? || e.Finish? || e.SampleSecond?
  }

  /** The worker an event belongs to. */
  predicate IsOf(e: Event, w: nat) {
    !IsOutside(e) && e.w == w
  }

  /** The two states agree on where every worker but w is. */
  predicate OthersStay(s: State, r: State, w: nat) {
    w < |s.workers| == |r.workers| && forall u | 0 <= u < |s.workers| && u != w :: r.workers[u] == s.workers[u]
  }

  /** The two states record the same about task x. */
  predicate SameRecord(s: State, r: State, x: TaskId) {
    && (x in s.firsts <==> x in r.firsts) && (x in s.firsts ==> s.firsts[x] == r.firsts[x])
    && (x in s.ends <==> x in r.ends) && (x in s.ends ==> s.ends[x] == r.ends[x])
    && (x in s.seconds <==> x in r.seconds) && (x in s.seconds ==> s.seconds[x] == r.seconds[x])
  }

  /** What clients do: cancel flags are never cleared. */
  function Outside(s: State, e: Event): (r: State)
    requires Enabled(s, e) && IsOutside(e)
    ensures r == s.(queue := r.queue, stop := r.stop, open := r.open, contexts := r.contexts, nextId := r.nextId,
                    flags := r.flags, taken := r.taken, rejected := r.rejected)
    ensures s.flags <= r.flags && (s.stop ==> r.stop) && (r.open <==> s.open && !e.TakeSender?)
  {
    match e
    case Submit(_) =>
      if AllExited(s.workers) then s.(nextId := s.nextId + 1, rejected := s.rejected + [s.nextId])
      else s.(nextId := s.nextId + 1, queue := s.queue + [s.nextId])
    case Cancel(t) => s.(flags := s.flags + {t})
    case TakeResult(t) => s.(taken := s.taken + {t})
    case CloneSender => if s.open then s.(contexts := s.contexts + 1) else s
    case DropSender => s.(contexts := s.contexts - 1)
    case SetStop => s.(stop := true)
    case TakeSender => s.(open := false)
  }

  /** A worker's step that records something about the task it holds. */
  function Note(s: State, e: Event): (r: State)
    requires Enabled(s, e) && IsNoted(e)
    ensures OthersStay(s, r, e.w) && HeldBy(r.workers[e.w]) == HeldBy(s.workers[e.w]) == [s.workers[e.w].task]
    ensures forall t | t != s.workers[e.w].task :: SameRecord(s, r, t)
    ensures r == s.(workers := r.workers, started := r.started, firsts := r.firsts, ends := r.ends,
                    seconds := r.seconds)
  {
    var t := s.workers[e.w].task;
    match e
    case SampleFirst(w) =>
      if t in s.flags then s.(workers := s.workers[w := Sending(t, Cancelled)], firsts := s.firsts[t := true])
      else s.(workers := s.workers[w := Working(t)], firsts := s.firsts[t := false], started := s.started + [t])
    case Finish(w, end) =>
      s.(workers := s.workers[w := Worked(t, end)], ends := s.ends[t := end])
    case SampleSecond(w) =>
      if t in s.flags then s.(workers := s.workers[w := Sending(t, Cancelled)], seconds := s.seconds[t := true])
      else s.(workers := s.workers[w := Sending(t, ResultOf(s.workers[w].end))], seconds := s.seconds[t := false])
  }

  /** Any other step of a worker. */
  function Move(s: State, e: Event): (r: State)
    requires Enabled(s, e) && !IsOutside(e) && !IsNoted(e)
    ensures OthersStay(s, r, e.w)
    ensures r == s.(workers := r.workers, queue := r.queue, sent := r.sent, discarded := r.discarded)
    ensures HeldBy(r.workers[e.w]) == if e.Receive? then [s.queue[0]] else []
    ensures r.workers[e.w].Releasing? <==> e.Send?
    ensures r.sent == if e.Send? then s.sent + [Sent(s.workers[e.w].task, s.workers[e.w].result)] else s.sent
    ensures e.Receive? || (r.queue == s.queue && r.discarded == s.discarded)
            || (r.queue == [] && r.discarded == s.discarded + s.queue)
  {
    match e
    case LoadStop(w) =>
      if s.stop then Leave(s, w) else s.(workers := s.workers[w := Receiving])
    case Receive(w) =>
      s.(workers := s.workers[w := Took(s.queue[0])], queue := s.queue[1..])
    case Timeout(w) => s.(workers := s.workers[w := Checking])
    case Disconnect(w) => Leave(s, w)
    case Send(w) =>
      var p := s.workers[w];
      s.(workers := s.workers[w := Releasing(p.task)], sent := s.sent + [Sent(p.task, p.result)])
    case Release(w) => s.(workers := s.workers[w := Checking])
  }

  function Next(s: State, e: Event): State
    requires Enabled(s, e)
  {
    if IsOutside(e) then Outside(s, e) else if IsNoted(e) then Note(s, e) else Move(s, e)
  }

  predicate IsRun(s: State, es: seq<Event>)
    decreases |es|
  {
    es == [] || (Enabled(s, es[0]) && IsRun(Next(s, es[0]), es[1..]))
  }

  function After(s: State, es: seq<Event>): State
    requires IsRun(s, es)
    decreases |es|
  {
    if es == [] then s else After(Next(s, es[0]), es[1..])
  }

  // ----- Where every task is -----

  /** The task a worker holds whose result is still to be sent. */
  function HeldBy(p: Phase): seq<TaskId> {
    match p
    case Took(t) => [t]
    case Working(t) => [t]
    case Worked(t, _) => [t]
    case Sending(t, _) => [t]
    case _ => []
  }

  function Hands(ws: seq<Phase>): (r: seq<seq<TaskId>>)
    ensures |r| == |ws| && forall i | 0 <= i < |ws| :: r[i] == HeldBy(ws[i])
  {
    seq(|ws|, i requires 0 <= i < |ws| => HeldBy(ws[i]))
  }

  function SentCount(sent: seq<Sent>, t: TaskId): nat {
    if sent == [] then 0 else SentCount(Front(sent), t) + (if Last(sent).task == t then 1 else 0)
  }

  function Count(s: State, t: TaskId): nat {
    Occurs(s.queue, t) + Tally(Hands(s.workers), t) + SentCount(s.sent, t)
    + Occurs(s.discarded, t) + Occurs(s.rejected, t)
  }

  /** Every submitted task is in exactly one of: queue, a worker's hands, result
      sent, discarded, rejected. */
  ghost predicate Conserved(s: State) {
    forall t: TaskId :: Count(s, t) == if t < s.nextId then 1 else 0
  }

  lemma HandsUpdate(ws: seq<Phase>, w: nat, p: Phase, t: TaskId)
    requires w < |ws|
    ensures Tally(Hands(ws[w := p]), t) + Occurs(HeldBy(ws[w]), t) == Tally(Hands(ws), t) + Occurs(HeldBy(p), t)
  {
    assert Hands(ws[w := p]) == Hands(ws)[w := HeldBy(p)];
    TallyUpdate(Hands(ws), w, HeldBy(p), t);
  }

  lemma SentSnoc(sent: seq<Sent>, x: Sent, t: TaskId)
    ensures SentCount(sent + [x], t) == SentCount(sent, t) + (if x.task == t then 1 else 0)
  {
    assert Front(sent + [x]) == sent;
  }

  lemma {:induction false} SentIn(sent: seq<Sent>, t: TaskId)
    ensures SentCount(sent, t) > 0 <==> exists k | 0 <= k < |sent| :: sent[k].task == t
  {
    if sent != [] {
      SentIn(Front(sent), t);
      if SentCount(Front(sent), t) > 0 {
        var k :| 0 <= k < |Front(sent)| && Front(sent)[k].task == t;
        assert sent[k].task == t;
      } else if Last(sent).task == t {
        assert sent[|sent| - 1].task == t;
      } else {
        forall k | 0 <= k < |sent| ensures sent[k].task != t {
          if k < |sent| - 1 {
            assert sent[k] == Front(sent)[k];
          }
        }
      }
    }
  }

  lemma CountLeave(s: State, w: nat, t: TaskId)
    requires w < |s.workers| && HeldBy(s.workers[w]) == []
    ensures Count(Leave(s, w), t) == Count(s, t)
  {
    hide Tally;
    HandsUpdate(s.workers, w, Exited, t);
    OccursConcat(s.discarded, s.queue, t);
  }

  /** Events that keep what the worker holds. */
  lemma CountMove(s: State, e: Event, t: TaskId)
    requires Enabled(s, e) && (e.Timeout? || e.Release?)
    ensures Count(Next(s, e), t) == Count(s, t)
  {
    hide Tally, SentCount, Occurs, InSlot;
    HandsUpdate(s.workers, e.w, Checking, t);
  }

  lemma CountSample(s: State, e: Event, t: TaskId)
    requires Enabled(s, e) && (e.SampleFirst? || e.Finish? || e.SampleSecond?)
    ensures Count(Next(s, e), t) == Count(s, t)
  {
    hide Tally, SentCount, Occurs, InSlot, Note, Enabled;
    var r := Next(s, e);
    assert r.workers == s.workers[e.w := r.workers[e.w]];
    HandsUpdate(s.workers, e.w, r.workers[e.w], t);
  }

  lemma CountReceive(s: State, w: nat, t: TaskId)
    requires Enabled(s, Receive(w))
    ensures Count(Next(s, Receive(w)), t) == Count(s, t)
  {
    hide Tally, SentCount, Occurs, InSlot;
    HandsUpdate(s.workers, w, Took(s.queue[0]), t);
    OccursHead(s.queue, t);
  }

  lemma CountSend(s: State, w: nat, t: TaskId)
    requires Enabled(s, Send(w))
    ensures Count(Next(s, Send(w)), t) == Count(s, t)
  {
    hide Tally, SentCount, Occurs, InSlot;
    HandsUpdate(s.workers, w, Releasing(s.workers[w].task), t);
    SentSnoc(s.sent, Last(Next(s, Send(w)).sent), t);
  }

  lemma CountNext(s: State, e: Event, t: TaskId)
    requires Enabled(s, e)
    ensures Count(Next(s, e), t) == Count(s, t) + (if e.Submit? && t == s.nextId then 1 else 0)
  {
    hide Tally, SentCount, Occurs, InSlot, Leave, AllExited, Note;
    match e
    case Submit(_) =>
      OccursConcat(s.rejected, [s.nextId], t);
      OccursConcat(s.queue, [s.nextId], t);
    case LoadStop(w) =>
      if s.stop {
        CountLeave(s, w, t);
      } else {
        HandsUpdate(s.workers, w, Receiving, t);
      }
    case Receive(w) => CountReceive(s, w, t);
    case Timeout(_) => CountMove(s, e, t);
    case Disconnect(w) => CountLeave(s, w, t);
    case SampleFirst(_) => CountSample(s, e, t);
    case Finish(_, _) => CountSample(s, e, t);
    case SampleSecond(_) => CountSample(s, e, t);
    case Send(w) => CountSend(s, w, t);
    case Release(_) => CountMove(s, e, t);
    case _ =>
  }

  lemma ConservedNext(s: State, e: Event)
    requires Enabled(s, e) && Conserved(s)
    ensures Conserved(Next(s, e))
  {
    hide Count, InSlot, AllExited;
    forall t: TaskId ensures Count(Next(s, e), t) == if t < Next(s, e).nextId then 1 else 0 {
      CountNext(s, e, t);
      assert Count(s, t) == if t < s.nextId then 1 else 0;
    }
  }
}
