/** The two supervisor objects, updating their fields in place, proved against
    the message machine and against the restart-counter decisions. */
module Supervisors {
  import opened Basics
  import opened Backoff
  import Supervision
  import opened Restarts
  import opened RestartAgreement
  import opened Statuses

  type ActorId = Supervision.ActorId
  type ChildEntry = Supervision.ChildEntry

  function StatusOf(c: ActorId, e: ChildEntry): Supervision.ChildStatus {
    Supervision.ChildStatus(c, e.name, e.restartCount, e.alive)
  }

  /** A status tells a child's name, its count and whether it is alive. */
  predicate Reports(r: Supervision.ChildStatus, e: ChildEntry) {
    r.name == e.name && r.restartCount == e.restartCount && (r.alive <==> e.alive)
  }

  class SupervisorActor {
    var children: Supervision.Children
    const strategy: Supervision.Strategy

    constructor (strategy: Supervision.Strategy)
      ensures this.strategy == strategy && children == map[]
    {
      this.strategy := strategy;
      children := map[];
    }

    /** One statement per branch of `handle`; the clock readings are inputs, and
        a panic in the backoff arithmetic is reported instead of raised. */
    method Handle(m: Supervision.Stamped) returns (panicked: bool, reply: Option<set<Supervision.ChildStatus>>)
      modifies this
      ensures Supervision.Handle(strategy, old(children), m) == (if panicked then Panic else Ok(children))
      ensures panicked ==> children == old(children)
      ensures reply.Some? <==> m.msg.GetStatus?
      ensures reply.Some? ==> children == old(children)
      ensures reply.Some? ==> forall c :: c in children <==> exists r :: r in reply.value && r.id == c
      ensures reply.Some? ==> forall r | r in reply.value :: r.id in children && Reports(r, children[r.id])
    {
      panicked, reply := false, None;
      match m.msg
      case ChildStarted(child, name) =>
        children := children[child := Supervision.ChildEntry(name, 0, true, None)];
      case ChildCrashed(child, _) =>
        var newCount := if child in children then children[child].restartCount + 1 else 0;
        var delay := BackoffDelay(strategy.baseBackoff, newCount);
        if delay.Panic? {
          panicked := true;
          return;
        }
        if child in children {
          var entry := children[child].(restartCount := newCount);
          if newCount <= strategy.maxRestarts {
            if entry.lastRestartAt.Some? {
              var elapsed := Supervision.Elapsed(m.elapsedAt, entry.lastRestartAt.value);
              if elapsed < delay.value {
                children := children[child := entry.(alive := false)];
                return;
              }
            }
            children := children[child := entry.(alive := true, lastRestartAt := Some(m.restartAt))];
          } else {
            children := children[child := entry.(alive := false)];
          }
        }
      case GetStatus =>
        var statuses := set c | c in children ::
            StatusOf(c, children[c]);
        reply := Some(statuses);
        forall c | c in children ensures exists r :: r in statuses && r.id == c {
          var r := StatusOf(c, children[c]);
          assert r in statuses && r.id == c;
        }
    }

    /** The actor processes its messages one after the other, until it panics. */
    method HandleAll(ms: seq<Supervision.Stamped>) returns (panicked: bool)
      requires children == map[]
      modifies this
      ensures Supervision.Run(strategy, ms) == (if panicked then Panic else Ok(children))
    {
      panicked := false;
      for i := 0 to |ms|
        invariant !panicked && Supervision.Run(strategy, ms[..i]) == Ok(children)
      {
        assert Front(ms[..i + 1]) == ms[..i];
        var died, _ := Handle(ms[i]);
        if died {
          PanicLasts(strategy, ms, i + 1);
          return true;
        }
      }
      assert ms[..|ms|] == ms;
    }

    /** What `GetStatus` answers after any messages: one status for each child ever
        started, with the name it was last started under, its crashes since then,
        and whether its last message left it running. */
    method ReportAfter(ms: seq<Supervision.Stamped>) returns (panicked: bool, reply: set<Supervision.ChildStatus>)
      requires children == map[]
      modifies this
      ensures panicked <==> Supervision.Run(strategy, ms).Panic?
      ensures !panicked ==> forall c :: EverStarted(ms, c) <==> exists r :: r in reply && r.id == c
      ensures !panicked ==> forall r | r in reply ::
                r.name == LastName(ms, r.id) && r.restartCount == CrashCount(ms, r.id)
                && (r.alive <==> IsAlive(strategy, ms, r.id))
      ensures !panicked ==> forall r, t :: r in reply && t in reply && r.id == t.id ==> r == t
    {
      panicked := HandleAll(ms);
      if panicked {
        return true, {};
      }
      var _, answer := Handle(Supervision.Stamped(Supervision.GetStatus, 0, 0));
      reply := answer.value;
      forall c ensures EverStarted(ms, c) <==> c in children {
        KnownIff(strategy, ms, c);
      }
      forall r | r in reply
        ensures r.name == LastName(ms, r.id) && r.restartCount == CrashCount(ms, r.id)
        ensures r.alive <==> IsAlive(strategy, ms, r.id)
      {
        EntryMeaning(strategy, ms, r.id);
      }
    }
  }

  /** The counter's decision on one more failure. */
  lemma OneMore(cs: seq<ActorId>, i: nat)
    requires i < |cs|
    ensures forall c :: multiset(cs[..i + 1])[c] == multiset(cs[..i])[c] + (if c == cs[i] then 1 else 0)
    ensures forall max :: CounterDecisions(max, cs[..i + 1])
                       == CounterDecisions(max, cs[..i]) + [multiset(cs[..i])[cs[i]] + 1 <= max]
  {
    assert Front(cs[..i + 1]) == cs[..i] && cs[..i + 1] == cs[..i] + [cs[i]];
    assert multiset(cs[..i + 1]) == multiset(cs[..i]) + multiset{cs[i]};
  }

  lemma {:induction false} PanicLasts(st: Supervision.Strategy, ms: seq<Supervision.Stamped>, i: nat)
    requires i <= |ms| && Supervision.Run(st, ms[..i]).Panic?
    ensures Supervision.Run(st, ms).Panic?
  {
    if i == |ms| {
      assert ms[..i] == ms;
    } else {
      assert ms[..i] == Front(ms)[..i];
      PanicLasts(st, Front(ms), i);
    }
  }

  /** The plain supervisor: it only counts failures. */
  class Supervisor {
    const id: ActorId
    const strategy: Supervision.Strategy
    var restartCounts: map<ActorId, nat>

    constructor (id: ActorId, strategy: Supervision.Strategy)
      ensures this.id == id && this.strategy == strategy && restartCounts == map[]
    {
      this.id, this.strategy := id, strategy;
      restartCounts := map[];
    }

    function CountOf(c: ActorId): nat
      reads this
    {
      if c in restartCounts then restartCounts[c] else 0
    }

    method HandleChildFailure(c: ActorId) returns (restart: bool)
      modifies this`restartCounts
      ensures forall d :: CountOf(d) == old(CountOf(d)) + (if d == c then 1 else 0)
      ensures restartCounts == old(restartCounts)[c := old(CountOf(c)) + 1]
      ensures restart <==> CountOf(c) <= strategy.maxRestarts
    {
      if c !in restartCounts {
        restartCounts := restartCounts[c := 0];
      }
      restartCounts := restartCounts[c := restartCounts[c] + 1];
      restart := !(restartCounts[c] > strategy.maxRestarts);
    }

    /** Its answers to a sequence of failures are the counter's decisions. */
    method HandleAll(cs: seq<ActorId>) returns (decisions: seq<bool>)
      requires restartCounts == map[]
      modifies this`restartCounts
      ensures decisions == CounterDecisions(strategy.maxRestarts, cs)
    {
      decisions := [];
      for i := 0 to |cs|
        invariant forall c :: CountOf(c) == multiset(cs[..i])[c]
        invariant decisions == CounterDecisions(strategy.maxRestarts, cs[..i])
      {
        OneMore(cs, i);
        hide CounterDecisions;
        var restart := HandleChildFailure(cs[i]);
        decisions := decisions + [restart];
      }
      assert cs[..|cs|] == cs;
    }
  }
}
