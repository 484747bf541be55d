/** Order under stealing: every worker's queue followed by its stolen hand stays in
    spawn order, even while other thieves steal from a half-finished transfer,
    unless a spawner pushes out of order. */
module TicketOrder {
  import opened RunQueues
  import opened WorkStealing

  predicate Increasing(q: seq<Task>) {
    forall i, j :: 0 <= i < j < |q| ==> q[i] < q[j]
  }

  /** What worker w will run if nobody steals from it. */
  function Line(s: State, w: nat): seq<Task>
    requires WellFormed(s) && w < |s.workers|
  {
    s.queues[w] + Stash(s.workers[w])
  }

  predicate Ordered(s: State)
    requires WellFormed(s)
  {
    forall w | 0 <= w < |s.workers| ::
      Increasing(Line(s, w)) && (s.workers[w].Scanning? ==> s.queues[w] == [])
  }

  predicate PushFree(es: seq<Event>) {
    forall e | e in es :: !e.PushSpawned?
  }

  lemma IncreasingParts(p: seq<Task>, q: seq<Task>)
    requires Increasing(p + q)
    ensures Increasing(p) && Increasing(q)
  {
    forall i, j | 0 <= i < j < |p| ensures p[i] < p[j] {
      assert (p + q)[i] < (p + q)[j];
    }
    forall i, j | 0 <= i < j < |q| ensures q[i] < q[j] {
      assert (p + q)[|p| + i] < (p + q)[|p| + j];
    }
  }

  lemma OrderedSteal(s: State, w: nat)
    requires WellFormed(s) && Enabled(s, Steal(w)) && Ordered(s)
    ensures Ordered(Next(s, Steal(w)))
  {
    hide Increasing;
    var s' := Next(s, Steal(w));
    var v := Target(w, s.workers[w].next);
    var q := s.queues[v];
    StealSplits(q);
    assert Line(s, v) == Stolen(q) + (Kept(q) + Stash(s.workers[v]));
    IncreasingParts(Stolen(q), Kept(q) + Stash(s.workers[v]));
    forall u | 0 <= u < |s'.workers|
      ensures Increasing(Line(s', u)) && (s'.workers[u].Scanning? ==> s'.queues[u] == [])
    {
      assert Increasing(Line(s, u));
      if u == w {
        assert Line(s', w) == if Stolen(q) == [] then Line(s, w) else Stolen(q);
      } else if u == v {
        assert Line(s', v) == if Stolen(q) == [] then Line(s, v) else Kept(q) + Stash(s.workers[v]);
      } else {
        assert Line(s', u) == Line(s, u);
      }
    }
  }

  lemma OrderedNext(s: State, e: Event)
    requires WellFormed(s) && Enabled(s, e) && Ordered(s) && !e.PushSpawned?
    ensures Ordered(Next(s, e))
  {
    if e.Steal? {
      OrderedSteal(s, e.w);
    } else {
      hide Increasing;
      var s' := Next(s, e);
      forall u | 0 <= u < |s'.workers|
        ensures Increasing(Line(s', u)) && (s'.workers[u].Scanning? ==> s'.queues[u] == [])
      {
        assert Increasing(Line(s, u));
        if e == Pop(u) && s.queues[u] != [] {
          assert Line(s, u) == [s.queues[u][0]] + Line(s', u);
          IncreasingParts([s.queues[u][0]], Line(s', u));
        } else {
          assert Line(s', u) == Line(s, u);
        }
      }
    }
  }

  /** The order survives every push-free run, whatever thieves do meanwhile. */
  lemma {:induction false} OrderKept(s: State, es: seq<Event>)
    requires WellFormed(s) && IsRun(s, es) && Ordered(s) && PushFree(es)
    ensures Ordered(After(s, es))
    decreases |es|
  {
    if es != [] {
      OrderedNext(s, es[0]);
      OrderKept(Next(s, es[0]), es[1..]);
    }
  }

  // ----- Which pushes keep the order -----

  /** No push of a spawner disturbs the order: the queue's owner is not scanning,
      all its queued tasks are older and all tasks in its hand are younger. */
  predicate InOrder(s: State, t: Task)
    requires WellFormed(s)
  {
    var q := QueueOf(t, |s.queues|);
    && !s.workers[q].Scanning?
    && (forall u | u in s.queues[q] :: u < t)
    && (forall u | u in Stash(s.workers[q]) :: t < u)
  }

  lemma IncreasingConcat(p: seq<Task>, q: seq<Task>)
    ensures Increasing(p + q) <==> Increasing(p) && Increasing(q) && forall u, v :: u in p && v in q ==> u < v
  {
    if Increasing(p + q) {
      IncreasingParts(p, q);
      forall u, v | u in p && v in q ensures u < v {
        var i :| 0 <= i < |p| && p[i] == u;
        var j :| 0 <= j < |q| && q[j] == v;
        assert (p + q)[i] < (p + q)[|p| + j];
      }
    } else {
      var i, j :| 0 <= i < j < |p + q| && (p + q)[i] >= (p + q)[j];
      if i < |p| <= j {
        assert p[i] in p && q[j - |p|] in q;
      } else if i >= |p| {
        assert q[i - |p|] >= q[j - |p|];
      }
    }
  }

  lemma IncreasingInsert(p: seq<Task>, t: Task, q: seq<Task>)
    requires Increasing(p + q)
    ensures Increasing(p + [t] + q) <==> (forall u | u in p :: u < t) && (forall u | u in q :: t < u)
  {
    IncreasingConcat(p, q);
    IncreasingConcat(p, [t]);
    IncreasingConcat(p + [t], q);
    assert Increasing([t]);
    hide Increasing;
    assert t in p + [t] && t in [t];
  }

  /** A push keeps an ordered state ordered exactly if it comes in order. */
  lemma PushKeepsOrderIff(s: State, t: Task)
    requires WellFormed(s) && Enabled(s, PushSpawned(t)) && Ordered(s)
    ensures Ordered(Next(s, PushSpawned(t))) <==> InOrder(s, t)
  {
    var s' := Next(s, PushSpawned(t));
    var q := QueueOf(t, |s.queues|);
    IncreasingInsert(s.queues[q], t, Stash(s.workers[q]));
    assert Line(s', q) == s.queues[q] + [t] + Stash(s.workers[q]);
    hide Increasing, QueueOf;
    forall w | 0 <= w < |s.workers| && w != q ensures Line(s', w) == Line(s, w) {
    }
  }

  /** Every push of the run comes in order. */
  predicate PushesInOrder(s: State, es: seq<Event>)
    requires WellFormed(s) && IsRun(s, es)
    decreases |es|
  {
    es == [] ||
    ((es[0].PushSpawned? ==> InOrder(s, es[0].task)) && PushesInOrder(Next(s, es[0]), es[1..]))
  }

  /** Every state of the run is ordered. */
  predicate OrderedThroughout(s: State, es: seq<Event>)
    requires WellFormed(s) && IsRun(s, es)
    decreases |es|
  {
    Ordered(s) && (es == [] || OrderedThroughout(Next(s, es[0]), es[1..]))
  }

  /** A run from an ordered state stays ordered throughout, whatever thieves do, if
      and only if each of its pushes comes in order. */
  lemma {:induction false} OrderKeptIff(s: State, es: seq<Event>)
    requires WellFormed(s) && IsRun(s, es) && Ordered(s)
    ensures OrderedThroughout(s, es) <==> PushesInOrder(s, es)
    decreases |es|
  {
    if es != [] {
      var s' := Next(s, es[0]);
      if es[0].PushSpawned? {
        PushKeepsOrderIff(s, es[0].task);
      } else {
        OrderedNext(s, es[0]);
      }
      hide Ordered, InOrder;
      if Ordered(s') {
        OrderKeptIff(s', es[1..]);
      }
    }
  }

  /** Sorted queues with nobody scanning or transferring are in order. */
  lemma QuietIsOrdered(s: State)
    requires WellFormed(s)
    requires forall w | 0 <= w < |s.workers| ::
               Increasing(s.queues[w]) && !s.workers[w].Scanning? && !s.workers[w].Transferring?
    ensures Ordered(s)
  {
    forall w | 0 <= w < |s.workers| ensures Line(s, w) == s.queues[w] {
    }
  }

  /** The tasks worker w pops during a run, in the order it pops them. */
  function PoppedBy(s: State, es: seq<Event>, w: nat): seq<Task>
    requires WellFormed(s) && IsRun(s, es) && w < |s.workers|
    decreases |es|
  {
    if es == [] then []
    else (if es[0] == Pop(w) && s.queues[w] != [] then [s.queues[w][0]] else [])
         + PoppedBy(Next(s, es[0]), es[1..], w)
  }

  lemma LineRobbed(s: State, thief: nat, w: nat)
    requires WellFormed(s) && Enabled(s, Steal(thief)) && w < |s.workers|
    requires thief == w ==> Next(s, Steal(thief)).steals == s.steals
    ensures forall t | t in Line(Next(s, Steal(thief)), w) :: t in Line(s, w)
  {
    var q := s.queues[Target(thief, s.workers[thief].next)];
    StealSplits(q);
    assert forall t | t in Kept(q) :: t in q;
  }

  lemma LineKept(s: State, e: Event, w: nat)
    requires WellFormed(s) && Enabled(s, e) && !e.PushSpawned? && !e.Steal? && w < |s.workers|
    ensures Line(Next(s, e), w) == if e == Pop(w) && s.queues[w] != [] then Line(s, w)[1..] else Line(s, w)
  {
  }

  lemma LineShrinks(s: State, e: Event, w: nat)
    requires WellFormed(s) && Enabled(s, e) && !e.PushSpawned? && w < |s.workers|
    requires e == Steal(w) ==> Next(s, e).steals == s.steals
    ensures forall t | t in Line(Next(s, e), w) ::
              t in (if e == Pop(w) && s.queues[w] != [] then Line(s, w)[1..] else Line(s, w))
  {
    if e.Steal? {
      LineRobbed(s, e.w, w);
    } else {
      LineKept(s, e, w);
    }
    hide *;
  }

  lemma HeadIsLeast(q: seq<Task>)
    requires Increasing(q) && q != []
    ensures forall u | u in q[1..] :: q[0] < u
  {
    forall u | u in q[1..] ensures q[0] < u {
      var i :| 0 <= i < |q| - 1 && q[1..][i] == u;
      assert q[i + 1] == u;
    }
  }

  lemma Prepend(t: Task, q: seq<Task>)
    requires Increasing(q) && forall u | u in q :: t < u
    ensures Increasing([t] + q)
  {
    forall i, j | 0 <= i < j < |[t] + q| ensures ([t] + q)[i] < ([t] + q)[j] {
      assert ([t] + q)[j] == q[j - 1] && q[j - 1] in q;
      if i > 0 {
        assert q[i - 1] < q[j - 1];
      }
    }
  }

  /** No steal attempt of worker w in the run takes anything. */
  predicate TakesNothing(s: State, es: seq<Event>, w: nat)
    requires WellFormed(s) && IsRun(s, es)
    decreases |es|
  {
    es == [] ||
    ((es[0] == Steal(w) ==> Next(s, es[0]).steals == s.steals) && TakesNothing(Next(s, es[0]), es[1..], w))
  }

  /** Between two of its own successful steals a worker runs tasks in spawn order, even if
      it is robbed in the meantime. */
  lemma {:induction false} PopsInOrder(s: State, es: seq<Event>, w: nat)
    requires WellFormed(s) && IsRun(s, es) && Ordered(s) && PushFree(es) && w < |s.workers|
    requires TakesNothing(s, es, w)
    ensures Increasing(PoppedBy(s, es, w))
    ensures forall t | t in PoppedBy(s, es, w) :: t in Line(s, w)
    decreases |es|
  {
    if es != [] {
      hide Increasing;
      var s' := Next(s, es[0]);
      OrderedNext(s, es[0]);
      LineShrinks(s, es[0], w);
      PopsInOrder(s', es[1..], w);
      if es[0] == Pop(w) && s.queues[w] != [] {
        var t := s.queues[w][0];
        HeadIsLeast(Line(s, w));
        Prepend(t, PoppedBy(s', es[1..], w));
      }
    }
  }

  function Fresh(n: nat): State
    requires n > 0
  {
    State(seq(n, _ => []), seq(n, _ => Checking), {}, 0, false, 0, [], 0, 0)
  }

  lemma FreshIsInit(n: nat)
    requires n > 0
    ensures Init(Fresh(n)) && WellFormed(Fresh(n))
  {
  }

  /** Two workers; worker 0 waits at the top of its loop throughout. */
  function Pair(q0: seq<Task>, q1: seq<Task>, p1: Phase, spawning: set<Task>, tickets: nat, steals: nat): State {
    State([q0, q1], [Checking, p1], spawning, tickets, false, 0, [], 0, steals)
  }

  /** The two workers after ticket t has been pushed as well. */
  function PairWith(q0: seq<Task>, q1: seq<Task>, p1: Phase, t: Task): State {
    if t % 2 == 0 then Pair(q0 + [t], q1, p1, {}, t + 1, 0) else Pair(q0, q1 + [t], p1, {}, t + 1, 0)
  }

  /** One uninterrupted spawn of ticket t. */
  lemma SpawnOne(s: State, es: seq<Event>, q0: seq<Task>, q1: seq<Task>, p1: Phase, t: Task) returns (r: seq<Event>)
    requires WellFormed(s) && IsRun(s, es) && After(s, es) == Pair(q0, q1, p1, {}, t, 0) && t < WRAP
    ensures IsRun(s, r)
    ensures After(s, r) == PairWith(q0, q1, p1, t)
  {
    hide IsRun, After;
    r := Go(s, es, TakeTicket, Pair(q0, q1, p1, {t}, t + 1, 0));
    assert QueueOf(t, 2) == t % 2;
    r := Go(s, r, PushSpawned(t), PairWith(q0, q1, p1, t));
  }

  /** A run in which worker 1 scans while three tasks are spawned in order. */
  lemma ScanWhileSpawning() returns (s: State, es: seq<Event>)
    ensures Init(s) && WellFormed(s) && IsRun(s, es) && After(s, es) == Pair([0, 2], [1], Scanning(0), {}, 3, 0)
  {
    FreshIsInit(2);
    s := Fresh(2);
    var none: seq<Task> := [];
    assert s == Pair(none, none, Checking, {}, 0, 0) by {
      assert Same(s, Pair(none, none, Checking, {}, 0, 0));
    }
    assert none + [0] == [0] && none + [1] == [1] && [0] + [2] == [0, 2];
    es := Stay(s);
    hide IsRun, After, Init;
    es := SpawnOne(s, es, none, none, Checking, 0);
    es := Go(s, es, LoadStop(1), Pair([0], none, Popping, {}, 1, 0));
    es := Go(s, es, Pop(1), Pair([0], none, Scanning(0), {}, 1, 0));
    es := SpawnOne(s, es, [0], none, Scanning(0), 1);
    es := SpawnOne(s, es, [0], [1], Scanning(0), 2);
  }

  /** Pushes out of order do occur in runs from the start: one spawner pushing in ticket
      order while a worker scans leaves that worker's queue out of order. */
  lemma SpawnsCanReorder()
    ensures exists s, es :: Init(s) && WellFormed(s) && IsRun(s, es) && After(s, es).queues == [[2], [1, 0]]
  {
    var s, es := ScanWhileSpawning();
    assert Stolen([0, 2]) == [0] && Kept([0, 2]) == [2] && [1] + [0] == [1, 0];
    hide IsRun, After, Init;
    es := Go(s, es, Steal(1), Pair([2], [1], Transferring([0]), {}, 3, 1));
    es := Go(s, es, PushStolen(1), Pair([2], [1, 0], Checking, {}, 3, 1));
  }

  /** Equality, spelled out by component. */
  predicate Same(a: State, b: State) {
    && a.queues == b.queues && a.workers == b.workers && a.spawning == b.spawning
    && a.tickets == b.tickets && a.stop == b.stop && a.joined == b.joined
    && a.finished == b.finished && a.pops == b.pops && a.steals == b.steals
  }

  lemma Stay(s: State) returns (r: seq<Event>)
    requires WellFormed(s)
    ensures IsRun(s, r) && After(s, r) == s
  {
    r := [];
  }

  lemma Go(s: State, es: seq<Event>, e: Event, z: State) returns (r: seq<Event>)
    requires WellFormed(s) && IsRun(s, es) && Enabled(After(s, es), e) && Same(Next(After(s, es), e), z)
    ensures IsRun(s, r) && After(s, r) == z
  {
    Extend(s, es, e);
    r := es + [e];
  }
}
