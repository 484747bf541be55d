/** How late passes catch up: a periodic timer ticks at most once per pass, skips
    no tick, and after a pass that finds it not due it has had all its ticks. */
module TimerCatchUp {
  import opened Arithmetic
  import opened Basics
  import opened Timers
  import opened TimerLaws

  /** Passes separate the deliveries of one id. */
  ghost predicate PassSeparated(s: State) {
    && (forall k | 0 <= k < |s.fired| :: s.fired[k].pass <= s.pass)
    && (s.phase.Collecting? ==> forall k | 0 <= k < |s.fired| :: s.fired[k].pass < s.pass)
    && (s.phase.Firing? || s.phase.Repushing? ==>
          forall e, k | e in s.phase.due && 0 <= k < |s.fired| && s.fired[k].id == e.id :: s.fired[k].pass < s.pass)
    && (forall j, k | 0 <= j < k < |s.fired| && s.fired[j].id == s.fired[k].id :: s.fired[j].pass < s.fired[k].pass)
  }

  lemma PassSeparatedNext(s: State, e: Event)
    requires Enabled(s, e) && Conserved(s) && PassSeparated(s)
    ensures PassSeparated(Next(s, e))
  {
    if e.Fire? {
      var s' := Next(s, e);
      var h := s.phase.due[0];
      assert h in s.phase.due;
      forall x, k | x in s'.phase.due && 0 <= k < |s'.fired| && s'.fired[k].id == x.id
        ensures s'.fired[k].pass < s'.pass
      {
        HeadIsOnly(s, x);
      }
    }
  }

  lemma {:induction false} PassSeparatedAfter(s: State, es: seq<Event>)
    requires IsRun(s, es) && Lawful(s) && PassSeparated(s)
    ensures PassSeparated(After(s, es))
    decreases |es|
  {
    if es != [] {
      LawfulNext(s, es[0]);
      PassSeparatedNext(s, es[0]);
      PassSeparatedAfter(Next(s, es[0]), es[1..]);
    }
  }

  /** However late a pass is, it delivers at most one tick of each timer. */
  lemma OneTickPerPass(s: State, es: seq<Event>, j: nat, k: nat)
    requires Init(s) && IsRun(s, es)
    requires j < k < |After(s, es).fired| && After(s, es).fired[j].id == After(s, es).fired[k].id
    ensures After(s, es).fired[j].pass < After(s, es).fired[k].pass
  {
    InitLawful(s);
    PassSeparatedAfter(s, es);
  }

  lemma {:induction false} LastDelivery(fired: seq<Delivery>, id: TimerId) returns (k: nat)
    requires FireCount(fired, id) > 0
    ensures k < |fired| && fired[k].id == id && FireCount(fired[..k], id) == FireCount(fired, id) - 1
  {
    if Last(fired).id == id {
      k := |fired| - 1;
    } else {
      k := LastDelivery(Front(fired), id);
      assert Front(fired)[..k] == fired[..k];
    }
  }

  /** Ticks up to the time of the last one, for a timer with n > 0 of them. */
  lemma LastTick(z: State, id: TimerId) returns (k: nat)
    requires Lawful(z) && id in z.origin && FireCount(z.fired, id) > 0
    ensures k < |z.fired| && z.fired[k].id == id
    ensures z.fired[k].at == z.origin[id].first + (FireCount(z.fired, id) - 1) * Period(z.origin[id])
    ensures z.origin[id].first <= z.fired[k].at <= z.fired[k].now <= z.clock
    ensures z.phase.Collecting? ==> z.fired[k].now <= z.phase.now
  {
    k := LastDelivery(z.fired, id);
    DueTimeClosed(z.origin[id], FireCount(z.fired, id) - 1);
  }

  /** The n-th tick falls at first + (n - 1) * p, so its time bounds n. */
  lemma TickBound(T: nat, first: nat, p: nat, n: nat, at: nat)
    requires p > 0 && n > 0 && at == first + (n - 1) * p && first <= at <= T
    ensures n <= (T - first) / p + 1
  {
    QuotientBounds(T - first, p, n - 1);
  }

  /** By time T a timer of period p > 0 first due at s0 has ticked at most
      floor((T - s0) / p) + 1 times, and not at all before s0. */
  lemma TicksBounded(s: State, es: seq<Event>, id: TimerId)
    requires Init(s) && IsRun(s, es)
    requires id in After(s, es).origin && Period(After(s, es).origin[id]) > 0
    ensures var z := After(s, es); var o := z.origin[id];
      if z.clock < o.first then FireCount(z.fired, id) == 0
      else FireCount(z.fired, id) <= (z.clock - o.first) / Period(o) + 1
  {
    InitLawful(s);
    LawfulAfter(s, es);
    var z := After(s, es);
    var o := z.origin[id];
    hide Lawful;
    if FireCount(z.fired, id) > 0 {
      var k := LastTick(z, id);
      hide FireCount;
      TickBound(z.clock, o.first, Period(o), FireCount(z.fired, id), z.fired[k].at);
    }
  }

  /** A pass read at time T that finds a resident timer not due finds that it has
      had every one of its floor((T - s0) / p) + 1 ticks: none was skipped. */
  lemma CaughtUp(s: State, es: seq<Event>, e: Entry)
    requires Init(s) && IsRun(s, es)
    requires After(s, es).phase.Collecting? && e in After(s, es).timers
    requires e.at > After(s, es).phase.now
    ensures e.id in After(s, es).origin
    ensures var z := After(s, es); var o := z.origin[e.id];
      Period(o) > 0 && z.phase.now >= o.first ==> FireCount(z.fired, e.id) == (z.phase.now - o.first) / Period(o) + 1
  {
    InitLawful(s);
    LawfulAfter(s, es);
    var z := After(s, es);
    assert e in Ahead(z);
    var o, n := z.origin[e.id], FireCount(z.fired, e.id);
    DueTimeClosed(o, n);
    if Period(o) > 0 && z.phase.now >= o.first {
      var t := z.phase.now - o.first;
      QuotientBounds(t, Period(o), n);
      if n > 0 {
        var k := LastTick(z, e.id);
        TickBound(z.phase.now, o.first, Period(o), n, z.fired[k].at);
      }
    }
  }
}
