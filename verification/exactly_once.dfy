/** Exactly-once execution under stealing: no interleaving of workers, thieves,
    spawners and shutdown loses or duplicates a task. */
module ExactlyOnce {
  import opened RunQueues
  import opened Tallies
  import opened WorkStealing

  function Held(ws: seq<Phase>, t: Task): nat {
    Tally(Stashes(ws), t) + Tally(Actives(ws), t)
  }

  function Holds(p: Phase, t: Task): (n: nat)
    ensures n == match p
                 case Running(u) => (if u == t then 1 else 0)
                 case Transferring(hand) => Occurs(hand, t)
                 case _ => 0
  {
    Occurs(Stash(p), t) + Occurs(Active(p), t)
  }

  /** How often a task occurs in queues and workers. */
  function Loaded(qs: seq<seq<Task>>, ws: seq<Phase>, t: Task): nat {
    Tally(qs, t) + Held(ws, t)
  }

  /** How often a task occurs in the whole system. */
  function Count(s: State, t: Task): nat {
    (if t in s.spawning then 1 else 0) + Loaded(s.queues, s.workers, t) + Occurs(s.finished, t)
  }

  /** Every spawned task occurs exactly once, and nothing else occurs. */
  ghost predicate Conserved(s: State) {
    forall t: Task :: Count(s, t) == if t < s.tickets then 1 else 0
  }

  lemma HeldUpdate(ws: seq<Phase>, w: nat, p: Phase, t: Task)
    requires w < |ws|
    ensures Held(ws[w := p], t) + Holds(ws[w], t) == Held(ws, t) + Holds(p, t)
  {
    assert Stashes(ws[w := p]) == Stashes(ws)[w := Stash(p)];
    assert Actives(ws[w := p]) == Actives(ws)[w := Active(p)];
    TallyUpdate(Stashes(ws), w, Stash(p), t);
    TallyUpdate(Actives(ws), w, Active(p), t);
  }

  /** The effect of one worker moving to phase p while one queue becomes q. */
  lemma LoadedUpdate(qs: seq<seq<Task>>, ws: seq<Phase>, w: nat, p: Phase, v: nat, q: seq<Task>, t: Task)
    requires w < |ws| && v < |qs|
    ensures Loaded(qs[v := q], ws[w := p], t) + Holds(ws[w], t) + Occurs(qs[v], t)
         == Loaded(qs, ws, t) + Holds(p, t) + Occurs(q, t)
    ensures Loaded(qs, ws[w := p], t) + Holds(ws[w], t) == Loaded(qs, ws, t) + Holds(p, t)
    ensures Loaded(qs[v := q], ws, t) + Occurs(qs[v], t) == Loaded(qs, ws, t) + Occurs(q, t)
  {
    HeldUpdate(ws, w, p, t);
    TallyUpdate(qs, v, q, t);
  }

  lemma CountPop(s: State, w: nat, t: Task)
    requires WellFormed(s) && Enabled(s, Pop(w))
    ensures Count(Next(s, Pop(w)), t) == Count(s, t)
  {
    hide Loaded, Occurs;
    var q := s.queues[w];
    if q == [] {
      LoadedUpdate(s.queues, s.workers, w, Scanning(0), w, q, t);
    } else {
      LoadedUpdate(s.queues, s.workers, w, Running(q[0]), w, q[1..], t);
      OccursHead(q, t);
    }
  }

  lemma CountSteal(s: State, w: nat, t: Task)
    requires WellFormed(s) && Enabled(s, Steal(w))
    ensures Count(Next(s, Steal(w)), t) == Count(s, t)
  {
    hide Loaded, Occurs;
    var k := s.workers[w].next;
    var v := Target(w, k);
    var q := s.queues[v];
    var stolen, kept := Stolen(q), Kept(q);
    if stolen == [] {
      LoadedUpdate(s.queues, s.workers, w, Scanning(k + 1), v, q, t);
    } else {
      LoadedUpdate(s.queues, s.workers, w, Transferring(stolen), v, kept, t);
      assert Occurs(q, t) == Occurs(stolen, t) + Occurs(kept, t) by {
        StealSplits(q);
        OccursConcat(stolen, kept, t);
      }
    }
  }

  lemma CountPushStolen(s: State, w: nat, t: Task)
    requires WellFormed(s) && Enabled(s, PushStolen(w))
    ensures Count(Next(s, PushStolen(w)), t) == Count(s, t)
  {
    hide Loaded, Occurs;
    var hand, q := s.workers[w].hand, s.queues[w];
    var p := if |hand| == 1 then Checking else Transferring(hand[1..]);
    LoadedUpdate(s.queues, s.workers, w, p, w, q + [hand[0]], t);
    assert Occurs(q + [hand[0]], t) + Holds(p, t) == Occurs(q, t) + Occurs(hand, t) by {
      OccursHead(hand, t);
      OccursConcat(q, [hand[0]], t);
    }
  }

  lemma CountLocal(s: State, e: Event, t: Task)
    requires WellFormed(s) && Enabled(s, e)
    requires e.LoadStop? || e.EndScan? || e.Finish?
    ensures Count(Next(s, e), t) == Count(s, t)
  {
    hide Loaded, Occurs;
    var p := if !e.LoadStop? then Checking else if s.stop then Exited else Popping;
    LoadedUpdate(s.queues, s.workers, e.w, p, e.w, s.queues[e.w], t);
    if e.Finish? {
      OccursConcat(s.finished, [s.workers[e.w].task], t);
    }
  }

  lemma CountPushSpawned(s: State, u: Task, t: Task)
    requires WellFormed(s) && Enabled(s, PushSpawned(u))
    ensures Count(Next(s, PushSpawned(u)), t) == Count(s, t)
  {
    hide Loaded, Occurs;
    var q := QueueOf(u, |s.queues|);
    LoadedUpdate(s.queues, s.workers, q, s.workers[q], q, s.queues[q] + [u], t);
    OccursConcat(s.queues[q], [u], t);
  }

  /** No event but taking a ticket changes how often a task occurs. */
  lemma CountNext(s: State, e: Event, t: Task)
    requires WellFormed(s) && Enabled(s, e) && !e.TakeTicket?
    ensures Count(Next(s, e), t) == Count(s, t)
  {
    match e
    case PushSpawned(u) => CountPushSpawned(s, u, t);
    case Pop(w) => CountPop(s, w, t);
    case Steal(w) => CountSteal(s, w, t);
    case PushStolen(w) => CountPushStolen(s, w, t);
    case LoadStop(_) => CountLocal(s, e, t);
    case Finish(_) => CountLocal(s, e, t);
    case EndScan(_) => CountLocal(s, e, t);
    case SetStop =>
    case Join =>
  }

  lemma ConservedNext(s: State, e: Event)
    requires WellFormed(s) && Enabled(s, e) && Conserved(s)
    ensures Conserved(Next(s, e))
  {
    forall t: Task
      ensures Count(Next(s, e), t) == if t < Next(s, e).tickets then 1 else 0
    {
      assert Count(s, t) == if t < s.tickets then 1 else 0;
      if !e.TakeTicket? {
        CountNext(s, e, t);
      }
    }
  }

  lemma {:induction false} ConservedAfter(s: State, es: seq<Event>)
    requires WellFormed(s) && Conserved(s) && IsRun(s, es)
    ensures Conserved(After(s, es))
    decreases |es|
  {
    if es != [] {
      ConservedNext(s, es[0]);
      ConservedAfter(Next(s, es[0]), es[1..]);
    }
  }

  lemma InitConserved(s: State)
    requires Init(s)
    ensures WellFormed(s) && Conserved(s)
  {
    forall t: Task ensures Count(s, t) == 0 {
      TallyOfEmpties(s.queues, |s.queues|, t);
      TallyOfEmpties(Stashes(s.workers), |s.workers|, t);
      TallyOfEmpties(Actives(s.workers), |s.workers|, t);
    }
  }

  /** The places a spawned task can be in. */
  datatype Place =
    | WithSpawner
    | Queued(q: nat, i: nat)
    | InHand(w: nat, i: nat)
    | OnWorker(w: nat)
    | Done(i: nat)

  predicate At(s: State, t: Task, p: Place) {
    match p
    case WithSpawner => t in s.spawning
    case Queued(q, i) => q < |s.queues| && i < |s.queues[q]| && s.queues[q][i] == t
    case InHand(w, i) => w < |s.workers| && i < |Stash(s.workers[w])| && Stash(s.workers[w])[i] == t
    case OnWorker(w) => w < |s.workers| && s.workers[w] == Running(t)
    case Done(i) => i < |s.finished| && s.finished[i] == t
  }

  lemma TwiceInBags(qs: seq<seq<Task>>, q: nat, i: nat, r: nat, j: nat)
    requires q < |qs| && i < |qs[q]| && r < |qs| && j < |qs[r]| && qs[q][i] == qs[r][j]
    requires (q, i) != (r, j)
    ensures Tally(qs, qs[q][i]) >= 2
  {
    var t := qs[q][i];
    if q < r {
      TallyTwice(qs, |qs|, q, r, t);
    } else if r < q {
      TallyTwice(qs, |qs|, r, q, t);
    } else {
      OccursTwice(qs[q], if i < j then i else j, if i < j then j else i);
      TallyCovers(qs, |qs|, q, t);
    }
  }

  /** The part of the count that a place belongs to. */
  function Share(s: State, t: Task, p: Place): nat {
    match p
    case WithSpawner => if t in s.spawning then 1 else 0
    case Queued(_, _) => Tally(s.queues, t)
    case InHand(_, _) => Tally(Stashes(s.workers), t)
    case OnWorker(_) => Tally(Actives(s.workers), t)
    case Done(_) => Occurs(s.finished, t)
  }

  lemma OneShare(s: State, t: Task, p: Place)
    requires At(s, t, p)
    ensures Share(s, t, p) >= 1
  {
    match p
    case WithSpawner =>
    case Queued(q, i) => TallyCovers(s.queues, |s.queues|, q, t);
    case InHand(w, i) => TallyCovers(Stashes(s.workers), |s.workers|, w, t);
    case OnWorker(w) => TallyCovers(Actives(s.workers), |s.workers|, w, t);
    case Done(i) =>
  }

  lemma TwoPlacesCountTwice(s: State, t: Task, p: Place, r: Place)
    requires At(s, t, p) && At(s, t, r) && p != r
    ensures Count(s, t) >= 2
  {
    OneShare(s, t, p);
    OneShare(s, t, r);
    hide Tally, Occurs;
    match (p, r)
    case (Queued(q, i), Queued(q', i')) => TwiceInBags(s.queues, q, i, q', i');
    case (InHand(w, i), InHand(w', i')) => TwiceInBags(Stashes(s.workers), w, i, w', i');
    case (OnWorker(w), OnWorker(w')) => TwiceInBags(Actives(s.workers), w, 0, w', 0);
    case (Done(i), Done(i')) => OccursTwice(s.finished, if i < i' then i else i', if i < i' then i' else i);
    case (_, _) =>
  }

  lemma SomePlace(s: State, t: Task) returns (p: Place)
    requires WellFormed(s) && Count(s, t) > 0
    ensures At(s, t, p)
  {
    if t in s.spawning {
      p := WithSpawner;
    } else if t in s.finished {
      var i :| 0 <= i < |s.finished| && s.finished[i] == t;
      p := Done(i);
    } else if Tally(s.queues, t) > 0 {
      var q := TallyWitness(s.queues, |s.queues|, t);
      var i :| 0 <= i < |s.queues[q]| && s.queues[q][i] == t;
      p := Queued(q, i);
    } else if Tally(Stashes(s.workers), t) > 0 {
      var w := TallyWitness(Stashes(s.workers), |s.workers|, t);
      var i :| 0 <= i < |Stashes(s.workers)[w]| && Stashes(s.workers)[w][i] == t;
      p := InHand(w, i);
    } else {
      var w := TallyWitness(Actives(s.workers), |s.workers|, t);
      p := OnWorker(w);
    }
  }

  /** A joined worker has left its loop, and workers leave only after stop. */
  predicate Joined(s: State)
    requires WellFormed(s)
  {
    && (forall w | 0 <= w < s.joined :: s.workers[w] == Exited)
    && (forall w | 0 <= w < |s.workers| :: s.workers[w] == Exited ==> s.stop)
  }

  lemma {:induction false} JoinedAfter(s: State, es: seq<Event>)
    requires WellFormed(s) && Joined(s) && IsRun(s, es)
    ensures Joined(After(s, es))
    decreases |es|
  {
    if es != [] {
      JoinedAfter(Next(s, es[0]), es[1..]);
    }
  }

  /** Exactly-once execution: in every reachable state a task is somewhere if
      and only if it has been spawned, and it is in one place only. */
  lemma ExactlyOnePlace(s: State, es: seq<Event>, t: Task)
    requires Init(s) && IsRun(s, es)
    ensures t < After(s, es).tickets <==> exists p :: At(After(s, es), t, p)
    ensures forall p, r :: At(After(s, es), t, p) && At(After(s, es), t, r) ==> p == r
  {
    InitConserved(s);
    ConservedAfter(s, es);
    var z := After(s, es);
    assert Count(z, t) == if t < z.tickets then 1 else 0;
    if t < z.tickets {
      var p := SomePlace(z, t);
    }
    forall p | At(z, t, p) ensures t < z.tickets {
      OneShare(z, t, p);
    }
    forall p, r | At(z, t, p) && At(z, t, r) ensures p == r {
      if p != r {
        TwoPlacesCountTwice(z, t, p, r);
      }
    }
  }

  /** Once shutdown has joined every worker, each spawned task has finished, or
      is left in a queue, or is still with its spawner: none is in a thief's
      hand or on a worker, and no task finished twice. */
  lemma ShutdownAccounts(s: State, es: seq<Event>, t: Task)
    requires Init(s) && IsRun(s, es)
    requires After(s, es).joined == |s.workers|
    requires t < After(s, es).tickets
    ensures exists p :: At(After(s, es), t, p) && (p.Done? || p.Queued? || p.WithSpawner?)
    ensures Occurs(After(s, es).finished, t) + Tally(After(s, es).queues, t)
         == if t in After(s, es).spawning then 0 else 1
  {
    var z := After(s, es);
    InitConserved(s);
    ConservedAfter(s, es);
    JoinedAfter(s, es);
    assert Count(z, t) == 1;
    TallyOfEmpties(Stashes(z.workers), |z.workers|, t);
    TallyOfEmpties(Actives(z.workers), |z.workers|, t);
    var p := SomePlace(z, t);
  }
}
