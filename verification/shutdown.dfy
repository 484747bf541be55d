/** Stopping the scheduler: the flag is set by `shutdown` alone, and from then on
    the threads can always come to the point where every worker is joined. */
module Shutdown {
  import opened WorkStealing
  import opened Tallies
  import StealBounds
  import ExactlyOnce

  lemma {:induction false} StopIffSet(s: State, es: seq<Event>)
    requires WellFormed(s) && IsRun(s, es)
    ensures After(s, es).stop <==> s.stop || SetStop in es
    decreases |es|
  {
    if es != [] {
      StopIffSet(Next(s, es[0]), es[1..]);
    }
  }

  /** After stop a worker reaches the end of its loop by steps of its own alone. */
  lemma {:induction false} ExitWorker(s: State, w: nat, b: nat) returns (es: seq<Event>)
    requires WellFormed(s) && s.stop && w < |s.workers| && StealBounds.Unpopped(s) <= b
    ensures IsRun(s, es) && StealBounds.Undriven(es) && After(s, es).workers[w] == Exited && After(s, es).stop
    ensures forall u | 0 <= u < |s.workers| && u != w :: After(s, es).workers[u] == s.workers[u]
    ensures After(s, es).joined == s.joined && StealBounds.Unpopped(After(s, es)) <= b
    decreases StealBounds.Weight(s.workers[w], |s.workers|, b)
  {
    if s.workers[w] == Exited {
      es := [];
    } else {
      var e := EventOf(s.workers[w], w, |s.workers|);
      StealBounds.WeightNext(s, e, w, b);
      StealBounds.WeightPositive(Next(s, e), w, b);
      StealBounds.TotalsNext(s, e);
      es := ExitWorker(Next(s, e), w, b);
      assert ([e] + es)[1..] == es;
      es := [e] + es;
    }
  }

  /** One more worker leaves its loop and is joined. */
  lemma JoinOne(s: State, b: nat) returns (es: seq<Event>)
    requires WellFormed(s) && s.stop && s.joined < |s.workers| && StealBounds.Unpopped(s) <= b
    ensures IsRun(s, es) && StealBounds.Undriven(es) && After(s, es).stop && After(s, es).joined == s.joined + 1
    ensures StealBounds.Unpopped(After(s, es)) <= b
  {
    es := ExitWorker(s, s.joined, b);
    var z := After(s, es);
    StealBounds.TotalsNext(z, Join);
    Extend(s, es, Join);
    es := es + [Join];
  }

  lemma {:induction false} JoinAll(s: State, b: nat) returns (es: seq<Event>)
    requires WellFormed(s) && s.stop && StealBounds.Unpopped(s) <= b
    ensures IsRun(s, es) && StealBounds.Undriven(es) && After(s, es).joined == |s.workers|
    decreases |s.workers| - s.joined
  {
    if s.joined == |s.workers| {
      es := [];
    } else {
      es := JoinOne(s, b);
      var fs := JoinAll(After(s, es), b);
      Compose(s, es, fs);
      es := es + fs;
    }
  }

  /** Shutdown can complete: from any reachable state in which `shutdown` has set
      the flag there is a run, without further spawns or stops, as long as running
      jobs return, that joins every worker; what it leaves behind is accounted for. */
  lemma ShutdownCompletes(s0: State, es0: seq<Event>) returns (es: seq<Event>)
    requires Init(s0) && IsRun(s0, es0) && SetStop in es0
    ensures IsRun(After(s0, es0), es) && StealBounds.Undriven(es)
    ensures After(After(s0, es0), es).joined == |s0.workers|
    ensures forall w | 0 <= w < |s0.workers| :: After(After(s0, es0), es).workers[w] == Exited
  {
    StopIffSet(s0, es0);
    var z := After(s0, es0);
    es := JoinAll(z, StealBounds.Unpopped(z));
    ExactlyOnce.JoinedAfter(s0, es0);
    ExactlyOnce.JoinedAfter(z, es);
  }
}
