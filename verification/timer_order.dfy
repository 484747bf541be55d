/** What cancelling leaves alone, and the order in which timers are delivered. */
module TimerOrder {
  import opened Basics
  import opened Timers
  import opened TimerLaws
  import opened TimerCancel

  // ----- Cancelling is a stable filter -----

  predicate NoneOf(q: seq<Entry>, id: TimerId) {
    forall e | e in q :: e.id != id
  }

  predicate AllOf(q: seq<Entry>, id: TimerId) {
    forall e | e in q :: e.id == id
  }

  /** The entries of one id, in list order. */
  function Evicted(q: seq<Entry>, id: TimerId): seq<Entry> {
    if q == [] then []
    else if Last(q).id == id then Evicted(Front(q), id) + [Last(q)] else Evicted(Front(q), id)
  }

  /** Cancelling splits the list into the entries of other ids, which stay in list
      order, and those of the id, which are recorded as cancelled; there is only
      one such split. */
  lemma {:induction false} StableFilter(q: seq<Entry>, id: TimerId, r: seq<Entry>, a: seq<Entry>)
    ensures r == Retain(q, id) && a == Evicted(q, id) <==> Merges(q, r, a) && NoneOf(r, id) && AllOf(a, id)
    ensures Removed(q, id) == seq(|Evicted(q, id)|, i => id)
  {
    if q != [] {
      var f := Front(q);
      if Last(q).id != id {
        if r != [] {
          StableFilter(f, id, Front(r), a);
          assert r == Front(r) + [Last(r)];
        } else {
          StableFilter(f, id, r, a);
        }
        assert a != [] ==> Last(a) in a;
      } else {
        if a != [] {
          StableFilter(f, id, r, Front(a));
          assert a == Front(a) + [Last(a)];
        } else {
          StableFilter(f, id, r, a);
        }
        assert r != [] ==> Last(r) in r;
      }
    }
  }

  // ----- Positions -----

  /** Some entry of x comes before some entry of y. */
  predicate Precedes(q: seq<Entry>, x: Entry, y: Entry) {
    exists i, j :: 0 <= i < j < |q| && q[i] == x && q[j] == y
  }

  lemma PrecedesWithin(p: seq<Entry>, q: seq<Entry>, r: seq<Entry>, x: Entry, y: Entry)
    requires Precedes(q, x, y)
    ensures Precedes(p + q + r, x, y)
  {
    var i, j :| 0 <= i < j < |q| && q[i] == x && q[j] == y;
    var l := p + q + r;
    assert l[|p| + i] == x && l[|p| + j] == y;
  }

  lemma PrecedesAcross(p: seq<Entry>, q: seq<Entry>, x: Entry, y: Entry)
    requires x in p && y in q
    ensures Precedes(p + q, x, y)
  {
    var i :| 0 <= i < |p| && p[i] == x;
    var j :| 0 <= j < |q| && q[j] == y;
    assert (p + q)[i] == x && (p + q)[|p| + j] == y;
  }

  lemma PrecedesLast(q: seq<Entry>, x: Entry, y: Entry)
    requires Precedes(q, x, y)
    ensures Precedes(Front(q), x, y) || (x in Front(q) && y == Last(q))
  {
    var i, j :| 0 <= i < j < |q| && q[i] == x && q[j] == y;
    assert Front(q)[i] == x;
    if j < |q| - 1 {
      assert Front(q)[j] == y;
    }
  }

  lemma PrecedesSplit(p: seq<Entry>, q: seq<Entry>, x: Entry, y: Entry)
    requires Precedes(p + q, x, y)
    ensures Precedes(p, x, y) || Precedes(q, x, y) || (x in p && y in q)
  {
    var i, j :| 0 <= i < j < |p + q| && (p + q)[i] == x && (p + q)[j] == y;
    if j < |p| {
      assert p[i] == x && p[j] == y;
    } else if i >= |p| {
      assert q[i - |p|] == x && q[j - |p|] == y;
    } else {
      assert p[i] == x && q[j - |p|] == y;
    }
  }

  lemma PrecedesTail(q: seq<Entry>, x: Entry, y: Entry)
    requires Precedes(q, x, y) && q[0] != x
    ensures Precedes(q[1..], x, y)
  {
    var i, j :| 0 <= i < j < |q| && q[i] == x && q[j] == y;
    assert q[1..][i - 1] == x && q[1..][j - 1] == y;
  }

  lemma PrecedesMember(q: seq<Entry>, x: Entry, y: Entry)
    requires Precedes(q, x, y)
    ensures q != [] && x in q && y in q[1..]
  {
    var i, j :| 0 <= i < j < |q| && q[i] == x && q[j] == y;
    assert q[1..][j - 1] == y;
  }

  /** Entries of other ids stay, and stay in their order. */
  lemma {:induction false} RetainKeeps(q: seq<Entry>, id: TimerId, x: Entry, y: Entry)
    ensures x in Retain(q, id) <==> x in q && x.id != id
    ensures Precedes(q, x, y) && x.id != id && y.id != id ==> Precedes(Retain(q, id), x, y)
  {
    if q != [] {
      var f := Front(q);
      assert q == f + [Last(q)];
      RetainKeeps(f, id, x, y);
      if Precedes(q, x, y) && x.id != id && y.id != id {
        PrecedesLast(q, x, y);
        if Last(q).id != id {
          if Precedes(f, x, y) {
            PrecedesWithin([], Retain(f, id), [Last(q)], x, y);
            assert [] + Retain(f, id) + [Last(q)] == Retain(q, id);
          } else {
            PrecedesAcross(Retain(f, id), [Last(q)], x, y);
          }
        }
      }
    }
  }

  lemma {:induction false} DueKeeps(q: seq<Entry>, now: nat, x: Entry, y: Entry)
    ensures x in DueOf(q, now) <==> x in q && now >= x.at
    ensures x in RestOf(q, now) <==> x in q && now < x.at
    ensures Precedes(q, x, y) && now >= x.at && now >= y.at ==> Precedes(DueOf(q, now), x, y)
    ensures Precedes(q, x, y) && now < x.at && now < y.at ==> Precedes(RestOf(q, now), x, y)
  {
    if q != [] {
      var f, l := Front(q), [Last(q)];
      assert q == f + l;
      DueKeeps(f, now, x, y);
      if Precedes(q, x, y) {
        PrecedesLast(q, x, y);
        if Precedes(f, x, y) {
          if Precedes(DueOf(f, now), x, y) {
            PrecedesWithin([], DueOf(f, now), l, x, y);
            assert [] + DueOf(f, now) + l == DueOf(f, now) + l;
          }
          if Precedes(RestOf(f, now), x, y) {
            PrecedesWithin([], RestOf(f, now), l, x, y);
            assert [] + RestOf(f, now) + l == RestOf(f, now) + l;
          }
        } else {
          if x in DueOf(f, now) {
            PrecedesAcross(DueOf(f, now), l, x, y);
          }
          if x in RestOf(f, now) {
            PrecedesAcross(RestOf(f, now), l, x, y);
          }
        }
      }
    }
  }

  /** Collecting keeps the order of x and y as long as y is not due before x. */
  lemma CollectKeeps(q: seq<Entry>, now: nat, x: Entry, y: Entry)
    requires Precedes(q, x, y) && x.at <= y.at
    ensures Precedes(DueOf(q, now) + RestOf(q, now), x, y)
  {
    DueKeeps(q, now, x, y);
    DueKeeps(q, now, y, x);
    var d, r := DueOf(q, now), RestOf(q, now);
    if now >= y.at {
      PrecedesWithin([], d, r, x, y);
      assert [] + d + r == d + r;
    } else if now < x.at {
      PrecedesWithin(d, r, [], x, y);
      assert d + r + [] == d + r;
    } else {
      PrecedesAcross(d, r, x, y);
    }
  }

  // ----- First come, first served -----

  /** The entries with a delivery ahead, next delivery first. */
  function Waiting(s: State): seq<Entry> {
    DueLeft(s.phase) + s.timers
  }

  predicate IsPush(e: Event) {
    e.PushOneShot? || e.PushPeriodic? || e.Repush?
  }

  /** A scheduled or re-pushed entry waits behind all others. */
  lemma PushedLast(s: State, e: Event, x: Entry)
    requires Enabled(s, e) && IsPush(e) && x in Waiting(s)
    ensures Waiting(Next(s, e)) == Waiting(s) + [Last(Next(s, e).timers)]
    ensures Precedes(Waiting(Next(s, e)), x, Last(Next(s, e).timers))
  {
    var y := Last(Next(s, e).timers);
    assert DueLeft(Next(s, e).phase) + (s.timers + [y]) == Waiting(s) + [y];
    PrecedesAcross(Waiting(s), [y], x, y);
  }

  /** x is ahead of y in the list and due no later. */
  predicate InLine(s: State, x: Entry, y: Entry) {
    Precedes(Waiting(s), x, y) && x.at <= y.at
  }

  lemma InLinePush(s: State, e: Event, x: Entry, y: Entry)
    requires Enabled(s, e) && IsPush(e) && InLine(s, x, y)
    ensures InLine(Next(s, e), x, y)
  {
    PrecedesMember(Waiting(s), x, y);
    PushedLast(s, e, x);
    hide Precedes;
    PrecedesWithin([], Waiting(s), [Last(Next(s, e).timers)], x, y);
    assert [] + Waiting(s) == Waiting(s);
  }

  lemma FilterKeeps(d: seq<Entry>, q: seq<Entry>, id: TimerId, x: Entry, y: Entry)
    requires Precedes(d + q, x, y) && x.id != id
    ensures Precedes(d + Retain(q, id), x, y) || (y.id == id && y in q)
  {
    var r := Retain(q, id);
    PrecedesSplit(d, q, x, y);
    RetainKeeps(q, id, x, y);
    RetainKeeps(q, id, y, x);
    if Precedes(q, x, y) {
      PrecedesMember(q, x, y);
      assert q == [q[0]] + q[1..];
      assert y in q;
    }
    hide Precedes, Retain;
    if Precedes(d, x, y) {
      PrecedesWithin([], d, r, x, y);
      assert [] + d + r == d + r;
    } else if y.id != id && Precedes(q, x, y) {
      PrecedesWithin(d, r, [], x, y);
      assert d + r + [] == d + r;
    } else if y.id != id {
      PrecedesAcross(d, r, x, y);
    }
  }

  lemma InLineCancel(s: State, id: TimerId, x: Entry, y: Entry)
    requires InLine(s, x, y) && x.id != id
    ensures InLine(Next(s, Cancel(id)), x, y) || (y.id == id && y in s.timers)
  {
    hide Precedes, Retain;
    FilterKeeps(DueLeft(s.phase), s.timers, id, x, y);
  }

  lemma InLineFire(s: State, x: Entry, y: Entry)
    requires Enabled(s, Fire) && InLine(s, x, y) && s.phase.due[0] != x
    ensures InLine(Next(s, Fire), x, y)
  {
    PrecedesTail(Waiting(s), x, y);
    assert Waiting(s)[0] == s.phase.due[0];
    assert Waiting(Next(s, Fire)) == Waiting(s)[1..];
  }

  lemma InLineCollect(s: State, x: Entry, y: Entry)
    requires Enabled(s, Collect) && InLine(s, x, y)
    ensures InLine(Next(s, Collect), x, y)
  {
    hide Precedes;
    assert Waiting(s) == s.timers;
    CollectKeeps(s.timers, s.phase.now, x, y);
  }

  /** Entries move in line, until one of the two is delivered or cancelled. */
  lemma InLineNext(s: State, e: Event, x: Entry, y: Entry)
    requires Enabled(s, e) && InLine(s, x, y) && e != Cancel(x.id) && !(e.Fire? && s.phase.due[0] == x)
    ensures InLine(Next(s, e), x, y) || (e == Cancel(y.id) && y in s.timers)
  {
    match e
    case PushOneShot(_, _, _) => InLinePush(s, e, x, y);
    case PushPeriodic(_, _, _) => InLinePush(s, e, x, y);
    case Repush => InLinePush(s, e, x, y);
    case Fire => InLineFire(s, x, y);
    case Cancel(id) => InLineCancel(s, id, x, y);
    case Collect => InLineCollect(s, x, y);
    case _ =>
      hide Precedes;
      assert Waiting(Next(s, e)) == Waiting(s);
  }

  lemma {:induction false} FiresGrow(s: State, es: seq<Event>, id: TimerId)
    requires IsRun(s, es)
    ensures FireCount(After(s, es).fired, id) >= FireCount(s.fired, id)
    decreases |es|
  {
    if es != [] {
      var s' := Next(s, es[0]);
      if es[0].Fire? {
        FireCountSnoc(s.fired, Last(s'.fired), id);
      }
      FiresGrow(s', es[1..], id);
    }
  }

  /** Cancelling a resident entry ends its id. */
  lemma ResidentGone(s: State, y: Entry)
    requires Conserved(s) && y in s.timers
    ensures Gone(Next(s, Cancel(y.id)), y.id)
  {
    assert Count(s, y.id) <= 1 && (Count(s, y.id) == 1 ==> y.id < s.nextId);
    IdCountIn(s.timers, y.id);
    RetainCount(s.timers, y.id, y.id);
  }

  /** The head of the due entries is not y's if x is ahead of y. */
  lemma NotTheHead(s: State, x: Entry, y: Entry)
    requires Conserved(s) && Enabled(s, Fire) && InLine(s, x, y)
    ensures s.phase.due[0].id != y.id
  {
    PrecedesMember(Waiting(s), x, y);
    assert Waiting(s)[1..] == s.phase.due[1..] + s.timers;
    HeadIsOnly(s, y);
  }

  /** y is delivered in the run, x is not, and nobody cancels x. */
  predicate Overtakes(s: State, es: seq<Event>, x: Entry, y: Entry)
    requires IsRun(s, es)
  {
    && FireCount(After(s, es).fired, y.id) > FireCount(s.fired, y.id)
    && FireCount(After(s, es).fired, x.id) <= FireCount(s.fired, x.id)
    && Cancel(x.id) !in es
  }

  /** A delivery of x rules it out. */
  lemma ServedFirst(s: State, es: seq<Event>, x: Entry, y: Entry)
    requires IsRun(s, es) && es != [] && es[0].Fire? && s.phase.due[0] == x
    ensures !Overtakes(s, es, x, y)
  {
    var s' := Next(s, Fire);
    FireCountSnoc(s.fired, Last(s'.fired), x.id);
    FiresGrow(s', es[1..], x.id);
  }

  /** So does the cancelling of a resident y. */
  lemma NeverServed(s: State, es: seq<Event>, x: Entry, y: Entry)
    requires Conserved(s) && IsRun(s, es) && es != [] && es[0] == Cancel(y.id) && y in s.timers
    ensures !Overtakes(s, es, x, y)
  {
    ResidentGone(s, y);
    GoneAfter(Next(s, es[0]), es[1..], y.id);
    assert Next(s, es[0]).fired == s.fired;
    hide Conserved, Gone;
  }

  /** Otherwise the step delivers nothing of y, so the rest of the run decides. */
  lemma LaterDecides(s: State, es: seq<Event>, x: Entry, y: Entry)
    requires Conserved(s) && IsRun(s, es) && es != [] && InLine(s, x, y)
    requires !Overtakes(Next(s, es[0]), es[1..], x, y)
    ensures !Overtakes(s, es, x, y)
  {
    var s' := Next(s, es[0]);
    if es[0].Fire? {
      NotTheHead(s, x, y);
      FireCountSnoc(s.fired, Last(s'.fired), x.id);
      FireCountSnoc(s.fired, Last(s'.fired), y.id);
    } else {
      assert s'.fired == s.fired;
    }
    hide Conserved, InLine, FireCount;
  }

  lemma {:induction false} NoOvertaking(s: State, es: seq<Event>, x: Entry, y: Entry)
    requires Lawful(s) && IsRun(s, es) && InLine(s, x, y)
    ensures !Overtakes(s, es, x, y)
    decreases |es|
  {
    if es != [] && es[0] != Cancel(x.id) {
      LawfulNext(s, es[0]);
      var e, s' := es[0], Next(s, es[0]);
      assert Conserved(s) && Enabled(s, e) && IsRun(s', es[1..]);
      hide *;
      if e.Fire? && s.phase.due[0] == x {
        ServedFirst(s, es, x, y);
      } else {
        InLineNext(s, e, x, y);
        if InLine(s', x, y) {
          NoOvertaking(s', es[1..], x, y);
          LaterDecides(s, es, x, y);
        } else {
          NeverServed(s, es, x, y);
        }
      }
    }
  }

  /** First come, first served: if x waits ahead of y and is due no later, then in
      every run y is delivered only after x has been, or x has been cancelled. */
  lemma FirstComeFirstServed(s: State, es: seq<Event>, x: Entry, y: Entry)
    requires Lawful(s) && IsRun(s, es) && InLine(s, x, y)
    ensures FireCount(After(s, es).fired, y.id) > FireCount(s.fired, y.id) ==>
              FireCount(After(s, es).fired, x.id) > FireCount(s.fired, x.id) || Cancel(x.id) in es
  {
    NoOvertaking(s, es, x, y);
  }

  // ----- What a client schedules is what it gets -----

  /** How far the clock moves during a run. */
  function Ticks(es: seq<Event>): nat {
    if es == [] then 0 else (if es[0].Tick? then es[0].d else 0) + Ticks(es[1..])
  }

  lemma {:induction false} ClockMoves(s: State, es: seq<Event>)
    requires IsRun(s, es)
    ensures After(s, es).clock == s.clock + Ticks(es)
    decreases |es|
  {
    if es != [] {
      ClockMoves(Next(s, es[0]), es[1..]);
    }
  }

  lemma {:induction false} OriginKept(s: State, es: seq<Event>, id: TimerId)
    requires IsRun(s, es) && Lawful(s) && id in s.origin
    ensures id in After(s, es).origin && After(s, es).origin[id] == s.origin[id]
    decreases |es|
  {
    if es != [] {
      LawfulNext(s, es[0]);
      OriginKept(Next(s, es[0]), es[1..], id);
    }
  }

  /** The delay, the target and the period, if any, that a schedule call asks for. */
  function Asked(e: Event): (ActorId, nat, Option<nat>)
    requires e.PushOneShot? || e.PushPeriodic?
  {
    if e.PushOneShot? then (e.actor, e.delay, None) else (e.actor, e.every, Some(e.every))
  }

  /** In every run the n-th delivery (from 0) of a timer goes to the actor that the
      schedule call named, and is made for the clock time of the call plus the delay
      asked for plus n periods; a one-shot has no further delivery. */
  lemma DeliveredAsScheduled(s0: State, es0: seq<Event>, e: Event, es: seq<Event>, k: nat)
    requires Init(s0) && IsRun(s0, es0) && (e.PushOneShot? || e.PushPeriodic?)
    requires Enabled(After(s0, es0), e) && IsRun(Next(After(s0, es0), e), es)
    requires var z := After(Next(After(s0, es0), e), es); k < |z.fired| && z.fired[k].id == e.id
    ensures var z := After(Next(After(s0, es0), e), es); var n := FireCount(z.fired[..k], e.id);
      && z.fired[k].actor == Asked(e).0
      && z.fired[k].at == s0.clock + Ticks(es0) + Asked(e).1 + (if e.PushPeriodic? then n * e.every else 0)
      && (e.PushOneShot? ==> n == 0)
  {
    InitLawful(s0);
    LawfulAfter(s0, es0);
    ClockMoves(s0, es0);
    var s := After(s0, es0);
    var s1 := Next(s, e);
    LawfulNext(s, e);
    OriginKept(s1, es, e.id);
    LawfulAfter(s1, es);
    var z := After(s1, es);
    var n := FireCount(z.fired[..k], e.id);
    assert z.origin[e.id] == Origin(Asked(e).0, s0.clock + Ticks(es0) + Asked(e).1, Asked(e).2);
    hide Next, After, IsRun;
    assert z.fired[k].at == DueTime(z.origin[e.id], n);
    DueTimeClosed(z.origin[e.id], n);
    if e.PushOneShot? {
      assert Count(z, e.id) <= 1;
      FireCountPrefix(z.fired, k, e.id);
    }
  }

  lemma {:induction false} FireCountPrefix(fired: seq<Delivery>, k: nat, id: TimerId)
    requires k < |fired| && fired[k].id == id
    ensures FireCount(fired[..k], id) < FireCount(fired, id)
  {
    if k < |fired| - 1 {
      FireCountPrefix(Front(fired), k, id);
      assert Front(fired)[..k] == fired[..k];
    }
  }

  lemma {:induction false} StopIffSet(s: State, es: seq<Event>)
    requires IsRun(s, es)
    ensures After(s, es).stop <==> s.stop || SetStop in es
    decreases |es|
  {
    if es != [] {
      StopIffSet(Next(s, es[0]), es[1..]);
    }
  }

  /** Once the service is stopped, the thread makes no further pass: an id that the
      pass under way has not taken out is never delivered. */
  lemma StoppedSilences(s0: State, es0: seq<Event>, es: seq<Event>, id: TimerId)
    requires Init(s0) && IsRun(s0, es0) && SetStop in es0 && IsRun(After(s0, es0), es)
    requires var s := After(s0, es0);
      Known(s, id) && !s.phase.Reading? && !s.phase.Collecting? && IdCount(DueLeft(s.phase), id) == 0
    ensures FireCount(After(After(s0, es0), es).fired, id) == FireCount(After(s0, es0).fired, id)
  {
    StopIffSet(s0, es0);
    SilencedAfter(After(s0, es0), es, id);
  }
}
