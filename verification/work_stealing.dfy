/** The work-stealing scheduler as a transition system: every lock section and
    every atomic access of the worker loop, of `spawn` and of `shutdown` is one
    event, and what a thread holds in local variables between two of them is
    part of the state. */
module WorkStealing {
  import opened RunQueues

  /** A task is named by its spawn ticket, the number of earlier spawns. */
  type Task = nat

  /** The ticket counter is a 64-bit word and wraps. */
  const WRAP: nat := 0x1_0000_0000_0000_0000

  /** Where a worker is in its loop, with its local variables. */
  datatype Phase =
    | Checking                        // about to load the stop flag
    | Popping                         // about to pop its own queue
    | Running(task: Task)             // executing a task
    | Scanning(next: nat)             // about to steal from its next target
    | Transferring(hand: seq<Task>)   // pushing stolen tasks, one by one
    | Exited

  datatype State = State(
    queues: seq<seq<Task>>,
    workers: seq<Phase>,
    spawning: set<Task>,   // tickets taken, task not yet pushed
    tickets: nat,          // spawns so far
    stop: bool,
    joined: nat,           // workers that shutdown has joined
    finished: seq<Task>,
    pops: nat,             // successful pops so far
    steals: nat)           // successful steals so far

  datatype Event =
    | TakeTicket
    | PushSpawned(task: Task)
    | LoadStop(w: nat)
    | Pop(w: nat)
    | Finish(w: nat)
    | Steal(w: nat)
    | EndScan(w: nat)
    | PushStolen(w: nat)
    | SetStop
    | Join

  /** The queue a spawn ticket is dispatched to. */
  function QueueOf(task: Task, n: nat): (q: nat)
    requires n > 0
    ensures q < n
  {
    (task % WRAP) % n
  }

  /** A worker's steal targets are the other queues, in index order. */
  function Target(w: nat, k: nat): nat {
    if k < w then k else k + 1
  }

  predicate WellFormed(s: State) {
    && |s.queues| == |s.workers| >= 1
    && s.joined <= |s.workers|
    && (forall w | 0 <= w < |s.workers| ::
          && (s.workers[w].Scanning? ==> s.workers[w].next < |s.workers|)
          && (s.workers[w].Transferring? ==> s.workers[w].hand != []))
  }

  predicate Init(s: State) {
    && |s.queues| == |s.workers| >= 1
    && (forall w | 0 <= w < |s.workers| :: s.queues[w] == [] && s.workers[w] == Checking)
    && s.spawning == {} && s.tickets == 0 && !s.stop && s.joined == 0
    && s.finished == [] && s.pops == 0 && s.steals == 0
  }

  predicate Enabled(s: State, e: Event)
    requires WellFormed(s)
  {
    match e
    case TakeTicket => true
    case PushSpawned(t) => t in s.spawning
    case LoadStop(w) => w < |s.workers| && s.workers[w] == Checking
    case Pop(w) => w < |s.workers| && s.workers[w] == Popping
    case Finish(w) => w < |s.workers| && s.workers[w].Running?
    case Steal(w) => w < |s.workers| && s.workers[w].Scanning? && s.workers[w].next < |s.workers| - 1
    case EndScan(w) => w < |s.workers| && s.workers[w] == Scanning(|s.workers| - 1)
    case PushStolen(w) => w < |s.workers| && s.workers[w].Transferring?
    case SetStop => true
    case Join => s.stop && s.joined < |s.workers| && s.workers[s.joined] == Exited
  }

  function Next(s: State, e: Event): (r: State)
    requires WellFormed(s) && Enabled(s, e)
    ensures WellFormed(r) && |r.workers| == |s.workers|
  {
    match e
    case TakeTicket =>
      s.(spawning := s.spawning + {s.tickets}, tickets := s.tickets + 1)
    case PushSpawned(t) =>
      var q := QueueOf(t, |s.queues|);
      s.(queues := s.queues[q := s.queues[q] + [t]], spawning := s.spawning - {t})
    case LoadStop(w) =>
      s.(workers := s.workers[w := if s.stop then Exited else Popping])
    case Pop(w) =>
      var q := s.queues[w];
      if q == [] then s.(workers := s.workers[w := Scanning(0)])
      else s.(workers := s.workers[w := Running(q[0])], queues := s.queues[w := q[1..]], pops := s.pops + 1)
    case Finish(w) =>
      s.(workers := s.workers[w := Checking], finished := s.finished + [s.workers[w].task])
    case Steal(w) =>
      var k := s.workers[w].next;
      var v := Target(w, k);
      var stolen := Stolen(s.queues[v]);
      if stolen == [] then s.(workers := s.workers[w := Scanning(k + 1)])
      else s.(workers := s.workers[w := Transferring(stolen)],
              queues := s.queues[v := Kept(s.queues[v])], steals := s.steals + 1)
    case EndScan(w) =>
      s.(workers := s.workers[w := Checking])
    case PushStolen(w) =>
      var hand := s.workers[w].hand;
      s.(workers := s.workers[w := if |hand| == 1 then Checking else Transferring(hand[1..])],
         queues := s.queues[w := s.queues[w] + [hand[0]]])
    case SetStop =>
      s.(stop := true)
    case Join =>
      s.(joined := s.joined + 1)
  }

  /** A run is any finite interleaving of enabled events. */
  predicate IsRun(s: State, es: seq<Event>)
    requires WellFormed(s)
    decreases |es|
  {
    es == [] ||
    (Enabled(s, es[0]) && IsRun(Next(s, es[0]), es[1..]))
  }

  function After(s: State, es: seq<Event>): (r: State)
    requires WellFormed(s) && IsRun(s, es)
    ensures WellFormed(r) && |r.workers| == |s.workers|
    decreases |es|
  {
    if es == [] then s
    else After(Next(s, es[0]), es[1..])
  }

  /** A run can be continued by any event enabled at its end. */
  lemma {:induction false} Extend(s: State, es: seq<Event>, e: Event)
    requires WellFormed(s) && IsRun(s, es) && Enabled(After(s, es), e)
    ensures IsRun(s, es + [e]) && After(s, es + [e]) == Next(After(s, es), e)
    decreases |es|
  {
    if es == [] {
      assert IsRun(Next(s, e), []);
    } else {
      Extend(Next(s, es[0]), es[1..], e);
      assert (es + [e])[1..] == es[1..] + [e];
    }
  }

  lemma {:induction false} Compose(s: State, es: seq<Event>, fs: seq<Event>)
    requires WellFormed(s) && IsRun(s, es) && IsRun(After(s, es), fs)
    ensures IsRun(s, es + fs) && After(s, es + fs) == After(After(s, es), fs)
    decreases |es|
  {
    if es == [] {
      assert es + fs == fs;
    } else {
      assert (es + fs)[0] == es[0] && (es + fs)[1..] == es[1..] + fs;
      Compose(Next(s, es[0]), es[1..], fs);
    }
  }

  /** The one event a worker in phase p can take, if it has not exited. */
  function EventOf(p: Phase, w: nat, n: nat): Event
    requires p != Exited
  {
    match p
    case Checking => LoadStop(w)
    case Popping => Pop(w)
    case Running(_) => Finish(w)
    case Scanning(k) => if k + 1 == n then EndScan(w) else Steal(w)
    case Transferring(_) => PushStolen(w)
  }

  // ----- Where every task is -----

  function Stash(p: Phase): seq<Task> {
    if p.Transferring? then p.hand else []
  }

  function Active(p: Phase): seq<Task> {
    if p.Running? then [p.task] else []
  }

  function Stashes(ws: seq<Phase>): (r: seq<seq<Task>>)
    ensures |r| == |ws| && forall i | 0 <= i < |ws| :: r[i] == Stash(ws[i])
  {
    seq(|ws|, i requires 0 <= i < |ws| => Stash(ws[i]))
  }

  function Actives(ws: seq<Phase>): (r: seq<seq<Task>>)
    ensures |r| == |ws| && forall i | 0 <= i < |ws| :: r[i] == Active(ws[i])
  {
    seq(|ws|, i requires 0 <= i < |ws| => Active(ws[i]))
  }
}
