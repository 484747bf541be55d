/** Bounds on whole runs of the scheduler: successful steals, productive steps
    between spawns, and the steps a worker still takes once stop is set. */
module StealBounds {
  import opened Arithmetic
  import opened RunQueues
  import opened Tallies
  import opened WorkStealing
  import ExactlyOnce

  // ----- The stealing potential -----

  /** A hungry worker is scanning, or has neither a queued nor a stolen task. */
  predicate IsHungry(q: seq<Task>, p: Phase) {
    p.Scanning? || (q == [] && !p.Transferring?)
  }

  function Hungry(s: State): set<nat>
    requires WellFormed(s)
  {
    set w | 0 <= w < |s.workers| && IsHungry(s.queues[w], s.workers[w])
  }

  /** A pop that finds a task, a steal that takes some. */
  predicate Pops(s: State, e: Event)
    requires WellFormed(s) && Enabled(s, e)
  {
    e.Pop? && s.queues[e.w] != []
  }

  predicate Steals(s: State, e: Event)
    requires WellFormed(s) && Enabled(s, e)
  {
    e.Steal? && Stolen(s.queues[Target(e.w, s.workers[e.w].next)]) != []
  }

  /** Only a successful pop can make a worker hungry, and only its own; a
      successful steal feeds the thief without starving the victim. */
  lemma HungryNext(s: State, e: Event)
    requires WellFormed(s) && Enabled(s, e)
    ensures Hungry(Next(s, e)) <= Hungry(s) + (if Pops(s, e) then {e.w} else {})
    ensures Steals(s, e) ==> e.w in Hungry(s) && Hungry(Next(s, e)) <= Hungry(s) - {e.w}
  {
    if e.Steal? {
      StealSplits(s.queues[Target(e.w, s.workers[e.w].next)]);
    }
  }

  lemma PotentialNext(s: State, e: Event)
    requires WellFormed(s) && Enabled(s, e)
    ensures Next(s, e).steals + |Hungry(Next(s, e))| + s.pops <= s.steals + |Hungry(s)| + Next(s, e).pops
    ensures |Hungry(Next(s, e))| <= |Hungry(s)| + (if Pops(s, e) then 1 else 0)
    ensures Steals(s, e) ==> |Hungry(Next(s, e))| < |Hungry(s)|
  {
    HungryNext(s, e);
    hide Hungry;
    if Pops(s, e) {
      SubsetSize(Hungry(Next(s, e)), Hungry(s) + {e.w});
    } else if Steals(s, e) {
      SubsetSize(Hungry(Next(s, e)), Hungry(s) - {e.w});
    } else {
      SubsetSize(Hungry(Next(s, e)), Hungry(s));
    }
  }

  lemma {:induction false} PotentialAfter(s: State, es: seq<Event>)
    requires WellFormed(s) && IsRun(s, es)
    ensures After(s, es).steals + |Hungry(After(s, es))| + s.pops <= s.steals + |Hungry(s)| + After(s, es).pops
    decreases |es|
  {
    if es != [] {
      PotentialNext(s, es[0]);
      PotentialAfter(Next(s, es[0]), es[1..]);
    }
  }

  /** In every run, whatever is spawned meanwhile, the successful steals are at
      most the number of workers plus the successful pops. */
  lemma StealsBoundedByPops(s: State, es: seq<Event>)
    requires Init(s) && IsRun(s, es)
    ensures StealsIn(s, es) + |Hungry(After(s, es))| <= |s.workers| + PopsIn(s, es)
  {
    PotentialAfter(s, es);
    CountersCount(s, es);
    assert Hungry(s) == Below(|s.workers|);
  }

  function PopsIn(s: State, es: seq<Event>): nat
    requires WellFormed(s) && IsRun(s, es)
    decreases |es|
  {
    if es == [] then 0 else (if Pops(s, es[0]) then 1 else 0) + PopsIn(Next(s, es[0]), es[1..])
  }

  function StealsIn(s: State, es: seq<Event>): nat
    requires WellFormed(s) && IsRun(s, es)
    decreases |es|
  {
    if es == [] then 0 else (if Steals(s, es[0]) then 1 else 0) + StealsIn(Next(s, es[0]), es[1..])
  }

  /** The two counters count the successful pops and steals of the run. */
  lemma {:induction false} CountersCount(s: State, es: seq<Event>)
    requires WellFormed(s) && IsRun(s, es)
    ensures After(s, es).pops == s.pops + PopsIn(s, es) && After(s, es).steals == s.steals + StealsIn(s, es)
    decreases |es|
  {
    if es != [] {
      CountersCount(Next(s, es[0]), es[1..]);
    }
  }

  /** Only the owner can empty a queue: a queue that held a task still holds one
      after any run in which its owner does not pop. */
  lemma {:induction false} OnlyOwnerEmpties(s: State, es: seq<Event>, w: nat)
    requires WellFormed(s) && IsRun(s, es) && w < |s.workers| && s.queues[w] != []
    requires Pop(w) !in es
    ensures After(s, es).queues[w] != []
    decreases |es|
  {
    if es != [] {
      if es[0].Steal? {
        StealSplits(s.queues[Target(es[0].w, s.workers[es[0].w].next)]);
      }
      OnlyOwnerEmpties(Next(s, es[0]), es[1..], w);
    }
  }

  // ----- Work settles between spawns -----

  /** Tasks that no worker has popped yet. */
  function Unpopped(s: State): nat {
    |s.spawning| + Total(s.queues) + Total(Stashes(s.workers))
  }

  /** Tasks still to be pushed by a spawner or by a thief. */
  function Unpushed(s: State): nat {
    |s.spawning| + Total(Stashes(s.workers))
  }

  predicate Productive(s: State, e: Event)
    requires WellFormed(s) && Enabled(s, e)
  {
    Pops(s, e) || Steals(s, e) || e.PushStolen? || e.PushSpawned?
  }

  lemma StashUpdate(ws: seq<Phase>, w: nat, p: Phase)
    requires w < |ws|
    ensures Total(Stashes(ws[w := p])) + |Stash(ws[w])| == Total(Stashes(ws)) + |Stash(p)|
  {
    assert Stashes(ws[w := p]) == Stashes(ws)[w := Stash(p)];
    TotalUpdate(Stashes(ws), w, Stash(p));
  }

  /** What each event does to the two totals. */
  lemma TotalsNext(s: State, e: Event)
    requires WellFormed(s) && Enabled(s, e) && !e.TakeTicket?
    ensures Unpopped(Next(s, e)) + (if Pops(s, e) then 1 else 0) == Unpopped(s)
    ensures !Steals(s, e) ==>
      Unpushed(Next(s, e)) + (if e.PushStolen? || e.PushSpawned? then 1 else 0) == Unpushed(s)
    ensures Steals(s, e) ==> Unpushed(Next(s, e)) <= Unpushed(s) + Unpopped(s)
  {
    hide Total;
    var s' := Next(s, e);
    match e
    case PushSpawned(t) =>
      var q := QueueOf(t, |s.queues|);
      TotalUpdate(s.queues, q, s.queues[q] + [t]);
    case LoadStop(w) => StashUpdate(s.workers, w, if s.stop then Exited else Popping);
    case Pop(w) =>
      var q := s.queues[w];
      if q == [] {
        StashUpdate(s.workers, w, Scanning(0));
      } else {
        StashUpdate(s.workers, w, Running(q[0]));
        TotalUpdate(s.queues, w, q[1..]);
      }
    case Finish(w) => StashUpdate(s.workers, w, Checking);
    case Steal(w) =>
      var v := Target(w, s.workers[w].next);
      StashUpdate(s.workers, w, s'.workers[w]);
      TotalUpdate(s.queues, v, Kept(s.queues[v]));
      StealSplits(s.queues[v]);
      QueueWithinTotal(s, v);
    case EndScan(w) => StashUpdate(s.workers, w, Checking);
    case PushStolen(w) =>
      var hand := s.workers[w].hand;
      StashUpdate(s.workers, w, if |hand| == 1 then Checking else Transferring(hand[1..]));
      TotalUpdate(s.queues, w, s.queues[w] + [hand[0]]);
    case SetStop =>
    case Join =>
  }

  lemma QueueWithinTotal(s: State, v: nat)
    requires v < |s.queues|
    ensures |s.queues[v]| <= Total(s.queues)
  {
    TotalCovers(s.queues, |s.queues|, v);
  }

  /** Lexicographic rank (unpopped, hungry workers, unpushed) as one number,
      where b bounds what a single steal can take. */
  function Rank(s: State, b: nat): nat
    requires WellFormed(s)
  {
    Unpopped(s) * (b + 2) + |Hungry(s)| * (b + 1) + Unpushed(s)
  }

  lemma RankNext(s: State, e: Event, b: nat)
    requires WellFormed(s) && Enabled(s, e) && !e.TakeTicket? && Unpopped(s) <= b
    ensures Rank(Next(s, e), b) + (if Productive(s, e) then 1 else 0) <= Rank(s, b)
  {
    TotalsNext(s, e);
    PotentialNext(s, e);
    var s' := Next(s, e);
    Weigh(Unpopped(s), Unpopped(s'), b + 2);
    Weigh(|Hungry(s)|, |Hungry(s')|, b + 1);
  }

  /** A drop of at least one, or a rise of at most one, times a weight. */
  lemma Weigh(x: nat, y: nat, k: nat)
    ensures y < x ==> y * k + k <= x * k
    ensures y == x ==> y * k == x * k
    ensures y < x + 1 ==> y * k <= x * k
    ensures y <= x + 1 ==> y * k <= x * k + k
  {
    Distribute(x, k);
    Distribute(y, k);
    if y < x {
      MulMonotone(y + 1, x, k);
    }
    if y <= x + 1 {
      MulMonotone(y, x + 1, k);
    }
  }

  predicate SpawnFree(es: seq<Event>) {
    TakeTicket !in es
  }

  function ProductiveSteps(s: State, es: seq<Event>): nat
    requires WellFormed(s) && IsRun(s, es)
    decreases |es|
  {
    if es == [] then 0
    else (if Productive(s, es[0]) then 1 else 0) + ProductiveSteps(Next(s, es[0]), es[1..])
  }

  lemma {:induction false} RankAfter(s: State, es: seq<Event>, b: nat)
    requires WellFormed(s) && IsRun(s, es) && SpawnFree(es) && Unpopped(s) <= b
    ensures ProductiveSteps(s, es) + Rank(After(s, es), b) <= Rank(s, b)
    decreases |es|
  {
    if es != [] {
      RankNext(s, es[0], b);
      TotalsNext(s, es[0]);
      RankAfter(Next(s, es[0]), es[1..], b);
    }
  }

  lemma SettleBound(n: nat, h: nat, w: nat, u: nat)
    requires h <= w && u <= n
    ensures n * (n + 2) + h * (n + 1) + u <= Budget(n, w)
  {
    Weigh(w, h, n + 1);
    assert n * (n + 3) == n * (n + 2) + n;
  }

  /** The productive steps that n unpopped tasks allow w workers. */
  function Budget(n: nat, w: nat): nat {
    n * (n + 3) + w * (n + 1)
  }

  lemma RankBound(s: State)
    requires WellFormed(s)
    ensures Rank(s, Unpopped(s)) <= Budget(Unpopped(s), |s.workers|)
  {
    var n := Unpopped(s);
    SubsetSize(Hungry(s), Below(|s.workers|));
    assert Unpushed(s) <= n;
    hide Hungry, Unpopped, Unpushed;
    SettleBound(n, |Hungry(s)|, |s.workers|, Unpushed(s));
  }

  /** Without new spawns the scheduler settles: with n tasks not yet popped, no
      run makes more than n(n+3) + N(n+1) productive steps (pops, steals and
      pushes), however often thieves move tasks around. */
  lemma WorkSettles(s: State, es: seq<Event>)
    requires WellFormed(s) && IsRun(s, es) && SpawnFree(es)
    ensures ProductiveSteps(s, es) <= Budget(Unpopped(s), |s.workers|)
  {
    RankAfter(s, es, Unpopped(s));
    RankBound(s);
  }

  // ----- Work settles only when it is done -----

  /** Only threads that exist already act, and nobody stops the scheduler. */
  predicate Undriven(es: seq<Event>) {
    TakeTicket !in es && SetStop !in es
  }

  lemma ProductiveNeedsWork(s: State, e: Event)
    requires WellFormed(s) && Enabled(s, e) && Productive(s, e)
    ensures Unpopped(s) > 0
  {
    match e
    case PushSpawned(_) =>
    case Pop(w) => QueueWithinTotal(s, w);
    case Steal(w) => QueueWithinTotal(s, Target(w, s.workers[w].next));
    case PushStolen(w) => TotalCovers(Stashes(s.workers), |s.workers|, w);
  }

  lemma {:induction false} SettledStays(s: State, es: seq<Event>)
    requires WellFormed(s) && IsRun(s, es) && SpawnFree(es) && Unpopped(s) == 0
    ensures ProductiveSteps(s, es) == 0
    decreases |es|
  {
    if es != [] {
      TotalsNext(s, es[0]);
      hide Unpopped, Unpushed, Productive;
      if Productive(s, es[0]) {
        ProductiveNeedsWork(s, es[0]);
      }
      SettledStays(Next(s, es[0]), es[1..]);
    }
  }

  /** How far a worker with a task in its queue is from popping or pushing. */
  function Distance(p: Phase, n: nat): nat {
    match p
    case Popping => 0
    case Transferring(_) => 0
    case Checking => 1
    case Running(_) => 2
    case Scanning(k) => if k < n then 2 + n - k else 0
    case Exited => 0
  }

  lemma StepProductively(s: State, e: Event) returns (es: seq<Event>)
    requires WellFormed(s) && Enabled(s, e) && Productive(s, e) && e != TakeTicket && e != SetStop
    ensures IsRun(s, es) && Undriven(es) && ProductiveSteps(s, es) > 0
  {
    es := [e];
    assert IsRun(Next(s, e), es[1..]);
  }

  /** Its owner gets to a queued task, or does something productive before. */
  lemma {:induction false} OwnerGetsThere(s: State, w: nat) returns (es: seq<Event>)
    requires WellFormed(s) && !s.stop && w < |s.workers| && s.queues[w] != [] && s.workers[w] != Exited
    ensures IsRun(s, es) && Undriven(es) && ProductiveSteps(s, es) > 0
    decreases Distance(s.workers[w], |s.workers|)
  {
    var e := EventOf(s.workers[w], w, |s.workers|);
    if Productive(s, e) {
      es := StepProductively(s, e);
    } else {
      StealSplits(s.queues[w]);
      var s' := Next(s, e);
      es := OwnerGetsThere(s', w);
      assert ([e] + es)[1..] == es;
      es := [e] + es;
    }
  }

  lemma SomethingProductive(s: State) returns (es: seq<Event>)
    requires WellFormed(s) && ExactlyOnce.Joined(s) && !s.stop && Unpopped(s) > 0
    ensures IsRun(s, es) && Undriven(es) && ProductiveSteps(s, es) > 0
  {
    if s.spawning != {} {
      var t :| t in s.spawning;
      es := StepProductively(s, PushSpawned(t));
    } else if Total(s.queues) > 0 {
      var w := TotalWitness(s.queues, |s.queues|);
      es := OwnerGetsThere(s, w);
    } else {
      var w := TotalWitness(Stashes(s.workers), |s.workers|);
      es := StepProductively(s, PushStolen(w));
    }
  }

  lemma {:induction false} StaysUnstopped(s: State, es: seq<Event>)
    requires WellFormed(s) && IsRun(s, es) && Undriven(es) && !s.stop
    ensures !After(s, es).stop
    decreases |es|
  {
    if es != [] {
      StaysUnstopped(Next(s, es[0]), es[1..]);
    }
  }

  lemma {:induction false} PopEverything(s: State, b: nat) returns (es: seq<Event>)
    requires WellFormed(s) && ExactlyOnce.Joined(s) && !s.stop && Unpopped(s) <= b
    ensures IsRun(s, es) && Undriven(es) && Unpopped(After(s, es)) == 0
    decreases Rank(s, b)
  {
    if Unpopped(s) == 0 {
      es := [];
    } else {
      es := SomethingProductive(s);
      RankAfter(s, es, b);
      ExactlyOnce.JoinedAfter(s, es);
      StaysUnstopped(s, es);
      UnpoppedFalls(s, es);
      var fs := PopEverything(After(s, es), b);
      Compose(s, es, fs);
      es := es + fs;
    }
  }

  lemma {:induction false} UnpoppedFalls(s: State, es: seq<Event>)
    requires WellFormed(s) && IsRun(s, es) && SpawnFree(es)
    ensures Unpopped(After(s, es)) <= Unpopped(s)
    decreases |es|
  {
    if es != [] {
      TotalsNext(s, es[0]);
      hide Unpopped, Unpushed;
      UnpoppedFalls(Next(s, es[0]), es[1..]);
    }
  }

  /** The scheduler settles only when it is done: in every reachable state without
      stop, productive steps of the existing threads remain possible, as long as
      the jobs that run return, exactly while some task has not been popped; and
      the threads can go on until each task has been. */
  lemma SettlesOnlyWhenDone(s0: State, es0: seq<Event>)
    requires Init(s0) && IsRun(s0, es0) && !After(s0, es0).stop
    ensures var z := After(s0, es0);
      (exists es :: IsRun(z, es) && Undriven(es) && ProductiveSteps(z, es) > 0) <==> Unpopped(z) > 0
    ensures var z := After(s0, es0);
      exists es :: IsRun(z, es) && Undriven(es) && Unpopped(After(z, es)) == 0
  {
    ExactlyOnce.JoinedAfter(s0, es0);
    var z := After(s0, es0);
    if Unpopped(z) > 0 {
      var es := SomethingProductive(z);
    } else {
      forall es | IsRun(z, es) && Undriven(es) ensures ProductiveSteps(z, es) == 0 {
        SettledStays(z, es);
      }
    }
    var fs := PopEverything(z, Unpopped(z));
  }

  // ----- Every fair run pops everything -----

  /** A worker with something to pop or to push gets to it after boundedly many
      events of its own, whatever the others do. */
  lemma {:induction false} OwnerGetsThereSoon(s: State, es: seq<Event>, w: nat)
    requires WellFormed(s) && IsRun(s, es) && Undriven(es) && !s.stop && w < |s.workers|
    requires s.workers[w] != Exited && (s.queues[w] != [] || s.workers[w].Transferring?)
    requires ProductiveSteps(s, es) == 0
    ensures EventsOf(es, w) <= Distance(s.workers[w], |s.workers|)
    decreases |es|
  {
    if es != [] {
      OwnerGetsThereSoon(Next(s, es[0]), es[1..], w);
    }
  }

  lemma {:induction false} PushIsProductive(s: State, es: seq<Event>, t: Task)
    requires WellFormed(s) && IsRun(s, es) && PushSpawned(t) in es
    ensures ProductiveSteps(s, es) > 0
    decreases |es|
  {
    if es[0] != PushSpawned(t) {
      PushIsProductive(Next(s, es[0]), es[1..], t);
    }
  }

  /** A stretch of a run in which every worker takes more than N + 2 events and
      every task whose spawner holds it is pushed. */
  predicate Thorough(s: State, es: seq<Event>) {
    && (forall w | 0 <= w < |s.workers| :: EventsOf(es, w) > |s.workers| + 2)
    && (forall t | t in s.spawning :: PushSpawned(t) in es)
  }

  lemma ThoroughIsProductive(s: State, es: seq<Event>)
    requires WellFormed(s) && ExactlyOnce.Joined(s) && !s.stop && Unpopped(s) > 0
    requires IsRun(s, es) && Undriven(es)
    ensures Thorough(s, es) ==> ProductiveSteps(s, es) > 0
  {
    if !Thorough(s, es) {
      return;
    }
    if s.spawning != {} {
      var t :| t in s.spawning;
      PushIsProductive(s, es, t);
    } else if ProductiveSteps(s, es) == 0 {
      var w: nat;
      if Total(s.queues) > 0 {
        w := TotalWitness(s.queues, |s.queues|);
      } else {
        w := TotalWitness(Stashes(s.workers), |s.workers|);
      }
      OwnerGetsThereSoon(s, es, w);
    }
  }

  /** A run in thorough stretches, of the threads that exist already. */
  predicate FairRun(s: State, rounds: seq<seq<Event>>)
    requires WellFormed(s)
    decreases |rounds|
  {
    rounds == [] ||
    (IsRun(s, rounds[0]) && Undriven(rounds[0]) && Thorough(s, rounds[0]) && FairRun(After(s, rounds[0]), rounds[1..]))
  }

  function AfterRounds(s: State, rounds: seq<seq<Event>>): (z: State)
    requires WellFormed(s) && FairRun(s, rounds)
    ensures WellFormed(z)
    decreases |rounds|
  {
    if rounds == [] then s else AfterRounds(After(s, rounds[0]), rounds[1..])
  }

  lemma {:induction false} FairRank(s: State, rounds: seq<seq<Event>>, b: nat)
    requires WellFormed(s) && ExactlyOnce.Joined(s) && !s.stop && FairRun(s, rounds) && Unpopped(s) <= b
    ensures Unpopped(AfterRounds(s, rounds)) == 0 || |rounds| <= Rank(s, b)
    decreases |rounds|
  {
    if rounds != [] {
      var es := rounds[0];
      var z := After(s, es);
      RankAfter(s, es, b);
      ExactlyOnce.JoinedAfter(s, es);
      StaysUnstopped(s, es);
      UnpoppedFalls(s, es);
      FairRank(z, rounds[1..], b);
      if Unpopped(s) > 0 {
        ThoroughIsProductive(s, es);
      } else {
        DoneStaysDone(z, rounds[1..]);
      }
    }
  }

  lemma {:induction false} DoneStaysDone(s: State, rounds: seq<seq<Event>>)
    requires WellFormed(s) && FairRun(s, rounds) && Unpopped(s) == 0
    ensures Unpopped(AfterRounds(s, rounds)) == 0
    decreases |rounds|
  {
    if rounds != [] {
      UnpoppedFalls(s, rounds[0]);
      DoneStaysDone(After(s, rounds[0]), rounds[1..]);
    }
  }

  /** Every fair run pops everything: from any reachable state without stop, with n
      tasks not yet popped and N workers, each run of the existing threads in more
      than n(n+3) + N(n+1) thorough stretches ends with every task popped. */
  lemma FairRunsPopEverything(s0: State, es0: seq<Event>, rounds: seq<seq<Event>>)
    requires Init(s0) && IsRun(s0, es0) && !After(s0, es0).stop && FairRun(After(s0, es0), rounds)
    ensures var z := After(s0, es0);
      |rounds| > Budget(Unpopped(z), |z.workers|) ==> Unpopped(AfterRounds(z, rounds)) == 0
  {
    var z := After(s0, es0);
    ExactlyOnce.JoinedAfter(s0, es0);
    assert ExactlyOnce.Joined(z) && WellFormed(z);
    hide *;
    RankBound(z);
    FairRank(z, rounds, Unpopped(z));
  }

  // ----- Shutdown drains -----

  /** An upper bound on the events a worker takes after stop is set, when a
      steal takes at most b tasks. */
  function Weight(p: Phase, n: nat, b: nat): int {
    match p
    case Exited => 0
    case Checking => 1
    case Running(_) => 2
    case Transferring(hand) => 1 + |hand|
    case Scanning(k) => n - 1 - k + b + 2
    case Popping => n + b + 2
  }

  predicate IsOf(e: Event, w: nat) {
    match e
    case LoadStop(u) => u == w
    case Pop(u) => u == w
    case Finish(u) => u == w
    case Steal(u) => u == w
    case EndScan(u) => u == w
    case PushStolen(u) => u == w
    case _ => false
  }

  function EventsOf(es: seq<Event>, w: nat): nat {
    if es == [] then 0 else (if IsOf(es[0], w) then 1 else 0) + EventsOf(es[1..], w)
  }

  lemma WeightNext(s: State, e: Event, w: nat, b: nat)
    requires WellFormed(s) && Enabled(s, e) && s.stop && w < |s.workers| && Unpopped(s) <= b
    ensures Weight(Next(s, e).workers[w], |s.workers|, b) + (if IsOf(e, w) then 1 else 0)
         <= Weight(s.workers[w], |s.workers|, b)
  {
    if e.Steal? {
      var v := Target(e.w, s.workers[e.w].next);
      QueueWithinTotal(s, v);
    }
  }

  /** Only an exited worker has no weight. */
  lemma WeightPositive(s: State, w: nat, b: nat)
    requires WellFormed(s) && w < |s.workers|
    ensures Weight(s.workers[w], |s.workers|, b) >= 0
  {
  }

  lemma {:induction false} WeightAfter(s: State, es: seq<Event>, w: nat, b: nat)
    requires WellFormed(s) && IsRun(s, es) && SpawnFree(es) && s.stop && w < |s.workers| && Unpopped(s) <= b
    ensures EventsOf(es, w) + Weight(After(s, es).workers[w], |s.workers|, b) <= Weight(s.workers[w], |s.workers|, b)
    decreases |es|
  {
    if es != [] {
      WeightNext(s, es[0], w, b);
      TotalsNext(s, es[0]);
      WeightAfter(Next(s, es[0]), es[1..], w, b);
    }
  }

  /** After stop is set a worker takes only boundedly many more steps, and until
      it has exited it can always take one: `shutdown` cannot wait for ever on a
      worker whose tasks return. */
  lemma ShutdownDrains(s: State, es: seq<Event>, w: nat)
    requires WellFormed(s) && IsRun(s, es) && SpawnFree(es) && s.stop && w < |s.workers|
    ensures EventsOf(es, w) <= |s.workers| + Unpopped(s) + 2
    ensures After(s, es).workers[w] != Exited <==> exists e :: IsOf(e, w) && Enabled(After(s, es), e)
  {
    WeightAfter(s, es, w, Unpopped(s));
    TotalCovers(Stashes(s.workers), |s.workers|, w);
    var z := After(s, es);
    if z.workers[w] != Exited {
      var e := EventOf(z.workers[w], w, |z.workers|);
      assert IsOf(e, w) && Enabled(z, e);
    }
  }
}
