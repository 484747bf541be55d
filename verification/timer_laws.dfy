/** What every run of the timer service keeps: no id is lost or duplicated, and
    every delivery is for exactly its scheduled due time. */
module TimerLaws {
  import opened Basics
  import opened Tallies
  import opened Timers

  // ----- Conservation of ids -----

  function IdCount(q: seq<Entry>, id: TimerId): (n: nat)
    ensures q == [] ==> n == 0
  {
    if q == [] then 0 else IdCount(Front(q), id) + (if Last(q).id == id then 1 else 0)
  }

  /** Entries in flight: taken out of the list and not fully processed. */
  function InFlight(p: Phase): seq<Entry> {
    match p
    case Firing(due, _) => due
    case Repushing(e, due, _) => [e] + due
    case _ => []
  }

  /** How often an id occurs anywhere. */
  function Count(s: State, id: TimerId): nat {
    (if id in s.pending then 1 else 0) + IdCount(s.timers, id) + IdCount(InFlight(s.phase), id)
    + Occurs(s.spent, id) + Occurs(s.cancelled, id)
  }

  /** Every id drawn is in exactly one of: with its scheduler, resident, in
      flight, spent, cancelled. */
  ghost predicate Conserved(s: State) {
    && (forall id: TimerId :: Count(s, id) == if id < s.nextId then 1 else 0)
    && (s.phase.Repushing? ==> s.phase.entry.interval.Some?)
  }

  lemma {:induction false} IdCountConcat(p: seq<Entry>, q: seq<Entry>, id: TimerId)
    ensures IdCount(p + q, id) == IdCount(p, id) + IdCount(q, id)
  {
    if q == [] {
      assert p + q == p;
    } else {
      assert Front(p + q) == p + Front(q);
      IdCountConcat(p, Front(q), id);
    }
  }

  lemma IdCountOne(e: Entry, id: TimerId)
    ensures IdCount([e], id) == if e.id == id then 1 else 0
  {
    assert Front([e]) == [];
  }

  lemma IdCountHead(q: seq<Entry>, id: TimerId)
    requires q != []
    ensures IdCount(q, id) == (if q[0].id == id then 1 else 0) + IdCount(q[1..], id)
  {
    assert q == [q[0]] + q[1..];
    IdCountConcat([q[0]], q[1..], id);
    IdCountOne(q[0], id);
  }

  lemma {:induction false} IdCountIn(q: seq<Entry>, id: TimerId)
    ensures IdCount(q, id) > 0 <==> exists e :: e in q && e.id == id
  {
    if q != [] {
      IdCountIn(Front(q), id);
      assert q == Front(q) + [Last(q)];
      if IdCount(Front(q), id) > 0 {
        var e :| e in Front(q) && e.id == id;
        assert e in q;
      } else if Last(q).id == id {
        assert Last(q) in q;
      }
    }
  }

  lemma {:induction false} PartitionCount(q: seq<Entry>, now: nat, id: TimerId)
    ensures IdCount(DueOf(q, now), id) + IdCount(RestOf(q, now), id) == IdCount(q, id)
  {
    if q != [] {
      PartitionCount(Front(q), now, id);
      IdCountConcat(DueOf(Front(q), now), [Last(q)], id);
      IdCountConcat(RestOf(Front(q), now), [Last(q)], id);
      IdCountOne(Last(q), id);
    }
  }

  lemma {:induction false} RetainCount(q: seq<Entry>, x: TimerId, id: TimerId)
    ensures IdCount(Retain(q, x), id) + Occurs(Removed(q, x), id) == IdCount(q, id)
    ensures IdCount(Retain(q, x), x) == 0
  {
    if q != [] {
      RetainCount(Front(q), x, id);
      IdCountConcat(Retain(Front(q), x), [Last(q)], id);
      IdCountConcat(Retain(Front(q), x), [Last(q)], x);
      IdCountOne(Last(q), id);
      IdCountOne(Last(q), x);
      OccursConcat(Removed(Front(q), x), [x], id);
    }
  }

  /** No event but drawing an id changes how often an id occurs. */
  lemma CountNext(s: State, e: Event, id: TimerId)
    requires Enabled(s, e) && e != NewId
    ensures Count(Next(s, e), id) == Count(s, id)
  {
    hide Occurs, IdCount;
    match e
    case PushOneShot(_, _, _) =>
      IdCountConcat(s.timers, [Last(Next(s, e).timers)], id);
      IdCountOne(Last(Next(s, e).timers), id);
    case PushPeriodic(_, _, _) =>
      IdCountConcat(s.timers, [Last(Next(s, e).timers)], id);
      IdCountOne(Last(Next(s, e).timers), id);
    case Cancel(x) =>
      RetainCount(s.timers, x, id);
      OccursConcat(s.cancelled, Removed(s.timers, x), id);
    case Collect =>
      PartitionCount(s.timers, s.phase.now, id);
    case Fire =>
      IdCountHead(s.phase.due, id);
      OccursConcat(s.spent, [s.phase.due[0].id], id);
      assert [s.phase.due[0]] + s.phase.due[1..] == s.phase.due;
    case Repush =>
      IdCountConcat(s.timers, [Last(Next(s, e).timers)], id);
      IdCountOne(Last(Next(s, e).timers), id);
      IdCountConcat([s.phase.entry], s.phase.due, id);
      IdCountOne(s.phase.entry, id);
    case EndPass =>
    case Tick(_) =>
    case SetStop =>
    case LoadStop =>
    case ReadClock =>
  }

  lemma ConservedNext(s: State, e: Event)
    requires Enabled(s, e) && Conserved(s)
    ensures Conserved(Next(s, e))
  {
    forall id: TimerId
      ensures Count(Next(s, e), id) == if id < Next(s, e).nextId then 1 else 0
    {
      assert Count(s, id) == if id < s.nextId then 1 else 0;
      if e != NewId {
        CountNext(s, e, id);
      }
    }
  }

  // ----- Due times -----

  /** Deliveries of one id. */
  function FireCount(fired: seq<Delivery>, id: TimerId): nat {
    if fired == [] then 0 else FireCount(Front(fired), id) + (if Last(fired).id == id then 1 else 0)
  }

  function Period(o: Origin): nat {
    if o.interval.Some? then o.interval.value else 0
  }

  /** The due time of the delivery after n deliveries: no drift. */
  function DueTime(o: Origin, n: nat): (t: nat)
    ensures t >= o.first
  {
    if n == 0 then o.first else DueTime(o, n - 1) + Period(o)
  }

  /** An entry whose next delivery is number n (from 0) of its id. */
  predicate Awaits(s: State, e: Entry, n: int) {
    && e.id in s.origin && s.origin[e.id].interval == e.interval && s.origin[e.id].actor == e.actor
    && n >= 0 && e.at == DueTime(s.origin[e.id], n)
  }

  /** Entries with a delivery ahead: resident, or due and not yet fired. */
  function Ahead(s: State): seq<Entry> {
    s.timers + if s.phase.Firing? || s.phase.Repushing? then s.phase.due else []
  }

  ghost predicate OnSchedule(s: State) {
    && (forall e | e in Ahead(s) :: Awaits(s, e, FireCount(s.fired, e.id)))
    && (s.phase.Repushing? ==> Awaits(s, s.phase.entry, FireCount(s.fired, s.phase.entry.id) - 1))
    && (forall id | id in s.origin :: id < s.nextId && id !in s.pending)
    && (forall k | 0 <= k < |s.fired| :: s.fired[k].id in s.origin)
  }

  /** Every delivery was made for its due time, and not before it. */
  ghost predicate Punctual(s: State) {
    && (forall k | 0 <= k < |s.fired| ::
          && s.fired[k].id in s.origin
          && s.fired[k].actor == s.origin[s.fired[k].id].actor
          && s.fired[k].at == DueTime(s.origin[s.fired[k].id], FireCount(s.fired[..k], s.fired[k].id))
          && s.fired[k].at <= s.fired[k].now <= s.clock)
    && (s.phase.Collecting? || s.phase.Firing? || s.phase.Repushing? ==>
          s.phase.now <= s.clock && forall k | 0 <= k < |s.fired| :: s.fired[k].now <= s.phase.now)
    && (s.phase.Firing? || s.phase.Repushing? ==> AllDue(s.phase.due, s.phase.now))
  }

  /** A one-shot has been delivered exactly if it is spent. */
  ghost predicate OneShots(s: State) {
    forall id | id in s.origin && s.origin[id].interval == None :: FireCount(s.fired, id) == Occurs(s.spent, id)
  }

  lemma {:induction false} NeverFired(fired: seq<Delivery>, id: TimerId)
    requires forall k | 0 <= k < |fired| :: fired[k].id != id
    ensures FireCount(fired, id) == 0
  {
    if fired != [] {
      NeverFired(Front(fired), id);
    }
  }

  lemma {:induction false} SubsetOfList(q: seq<Entry>, now: nat, id: TimerId)
    ensures forall e | e in DueOf(q, now) :: e in q
    ensures forall e | e in RestOf(q, now) :: e in q
    ensures forall e | e in Retain(q, id) :: e in q
  {
    if q != [] {
      SubsetOfList(Front(q), now, id);
      assert q == Front(q) + [Last(q)];
    }
  }

  /** Two live entries never share an id. */
  lemma HeadIsOnly(s: State, e: Entry)
    requires Conserved(s) && s.phase.Firing? && s.phase.due != []
    requires e in s.timers || e in s.phase.due[1..]
    ensures e.id != s.phase.due[0].id
  {
    var id := e.id;
    assert Count(s, id) <= 1;
    IdCountIn(s.timers, id);
    IdCountIn(s.phase.due[1..], id);
    IdCountHead(s.phase.due, id);
  }

  lemma FireCountSnoc(fired: seq<Delivery>, d: Delivery, id: TimerId)
    ensures FireCount(fired + [d], id) == FireCount(fired, id) + (if d.id == id then 1 else 0)
  {
    assert Front(fired + [d]) == fired;
  }

  lemma OnSchedulePush(s: State, e: Event)
    requires Enabled(s, e) && (e.PushOneShot? || e.PushPeriodic?) && Conserved(s) && OnSchedule(s)
    ensures OnSchedule(Next(s, e)) && FireCount(s.fired, e.id) == 0
  {
    assert e.id !in s.origin;
    NeverFired(s.fired, e.id);
    var s' := Next(s, e);
    assert Count(s, e.id) == if e.id < s.nextId then 1 else 0;
    forall x | x in Ahead(s') ensures Awaits(s', x, FireCount(s'.fired, x.id)) {
      if x != Last(s'.timers) {
        assert x in Ahead(s);
      }
    }
  }

  lemma OnScheduleFire(s: State)
    requires Enabled(s, Fire) && Conserved(s) && OnSchedule(s)
    ensures OnSchedule(Next(s, Fire))
  {
    var s' := Next(s, Fire);
    var h := s.phase.due[0];
    assert h in Ahead(s);
    FireCountSnoc(s.fired, Last(s'.fired), h.id);
    forall x | x in Ahead(s') ensures Awaits(s', x, FireCount(s'.fired, x.id)) {
      assert x in s.timers || x in s.phase.due[1..];
      assert x in Ahead(s);
      HeadIsOnly(s, x);
      FireCountSnoc(s.fired, Last(s'.fired), x.id);
    }
  }

  lemma OnScheduleRepush(s: State)
    requires Enabled(s, Repush) && OnSchedule(s)
    ensures OnSchedule(Next(s, Repush))
  {
    var s' := Next(s, Repush);
    forall x | x in Ahead(s') ensures Awaits(s', x, FireCount(s'.fired, x.id)) {
      if x != Last(s'.timers) {
        assert x in Ahead(s);
      }
    }
  }

  lemma OnScheduleNext(s: State, e: Event)
    requires Enabled(s, e) && Conserved(s) && OnSchedule(s)
    ensures OnSchedule(Next(s, e))
  {
    match e
    case PushOneShot(_, _, _) => OnSchedulePush(s, e);
    case PushPeriodic(_, _, _) => OnSchedulePush(s, e);
    case Fire => OnScheduleFire(s);
    case Repush => OnScheduleRepush(s);
    case Cancel(id) => SubsetOfList(s.timers, 0, id);
    case Collect => SubsetOfList(s.timers, s.phase.now, 0);
    case _ =>
  }

  lemma PunctualFire(s: State)
    requires Enabled(s, Fire) && OnSchedule(s) && Punctual(s)
    ensures Punctual(Next(s, Fire))
  {
    hide DueTime, FireCount;
    var s' := Next(s, Fire);
    var h := s.phase.due[0];
    assert h in Ahead(s) && h in s.phase.due;
    assert s'.fired[..|s.fired|] == s.fired;
    forall k | 0 <= k < |s'.fired|
      ensures s'.fired[k].id in s'.origin && s'.fired[k].actor == s'.origin[s'.fired[k].id].actor
      ensures s'.fired[k].at == DueTime(s'.origin[s'.fired[k].id], FireCount(s'.fired[..k], s'.fired[k].id))
      ensures s'.fired[k].at <= s'.fired[k].now <= s'.clock
    {
      if k < |s.fired| {
        assert s'.fired[..k] == s.fired[..k];
      }
    }
  }

  lemma PunctualNext(s: State, e: Event)
    requires Enabled(s, e) && OnSchedule(s) && Punctual(s)
    ensures Punctual(Next(s, e))
  {
    if e.Fire? {
      PunctualFire(s);
    } else {
      hide DueTime, FireCount;
      if e.Collect? {
        StablePartition(s.timers, s.phase.now, DueOf(s.timers, s.phase.now), RestOf(s.timers, s.phase.now));
      }
    }
  }

  lemma OneShotsPush(s: State, e: Event)
    requires Enabled(s, e) && (e.PushOneShot? || e.PushPeriodic?) && Conserved(s) && OnSchedule(s) && OneShots(s)
    ensures OneShots(Next(s, e))
  {
    OnSchedulePush(s, e);
    assert Count(s, e.id) <= 1;
    hide IdCount, FireCount, Occurs, Conserved, OnSchedule;
  }

  lemma OneShotsFire(s: State)
    requires Enabled(s, Fire) && OnSchedule(s) && OneShots(s)
    ensures OneShots(Next(s, Fire))
  {
    var s' := Next(s, Fire);
    var h := s.phase.due[0];
    assert h in Ahead(s);
    hide FireCount, Occurs, DueTime;
    forall id | id in s'.origin && s'.origin[id].interval == None
      ensures FireCount(s'.fired, id) == Occurs(s'.spent, id)
    {
      FireCountSnoc(s.fired, Last(s'.fired), id);
      OccursConcat(s.spent, [h.id], id);
    }
  }

  lemma OneShotsNext(s: State, e: Event)
    requires Enabled(s, e) && Conserved(s) && OnSchedule(s) && OneShots(s)
    ensures OneShots(Next(s, e))
  {
    if e.PushOneShot? || e.PushPeriodic? {
      OneShotsPush(s, e);
    } else if e.Fire? {
      OneShotsFire(s);
    } else {
      hide FireCount, Occurs, Conserved, OnSchedule;
    }
  }

  // ----- Whole runs -----

  ghost predicate Lawful(s: State) {
    Conserved(s) && OnSchedule(s) && Punctual(s) && OneShots(s)
  }

  lemma LawfulNext(s: State, e: Event)
    requires Enabled(s, e) && Lawful(s)
    ensures Lawful(Next(s, e))
  {
    hide Conserved, OnSchedule, Punctual, OneShots;
    ConservedNext(s, e);
    OnScheduleNext(s, e);
    PunctualNext(s, e);
    OneShotsNext(s, e);
  }

  lemma {:induction false} LawfulAfter(s: State, es: seq<Event>)
    requires IsRun(s, es) && Lawful(s)
    ensures Lawful(After(s, es))
    decreases |es|
  {
    if es != [] {
      LawfulNext(s, es[0]);
      LawfulAfter(Next(s, es[0]), es[1..]);
    }
  }

  lemma InitLawful(s: State)
    requires Init(s)
    ensures Lawful(s)
  {
  }

  /** Over every run each id drawn is in exactly one place (with its scheduler,
      resident, in flight, spent or cancelled), and no other id is anywhere. */
  lemma IdsConserved(s: State, es: seq<Event>, id: TimerId)
    requires Init(s) && IsRun(s, es)
    ensures Count(After(s, es), id) == if id < After(s, es).nextId then 1 else 0
  {
    InitLawful(s);
    LawfulAfter(s, es);
  }

  /** A one-shot never fires twice: at the moment one is about to fire, no earlier
      delivery has its id, so its message is still there to be taken. */
  lemma OneShotFiresOnce(s: State, es: seq<Event>)
    requires Init(s) && IsRun(s, es)
    ensures var z := After(s, es);
      z.phase.Firing? && z.phase.due != [] && z.phase.due[0].interval == None
      ==> FireCount(z.fired, z.phase.due[0].id) == 0
    ensures var z := After(s, es);
      forall id | id in z.origin && z.origin[id].interval == None :: FireCount(z.fired, id) <= 1
  {
    InitLawful(s);
    LawfulAfter(s, es);
    var z := After(s, es);
    if z.phase.Firing? && z.phase.due != [] && z.phase.due[0].interval == None {
      var h := z.phase.due[0];
      assert h in Ahead(z);
      assert Count(z, h.id) <= 1;
      IdCountHead(z.phase.due, h.id);
    }
    forall id | id in z.origin && z.origin[id].interval == None ensures FireCount(z.fired, id) <= 1 {
      assert Count(z, id) <= 1;
    }
  }

  lemma {:induction false} DueTimeClosed(o: Origin, n: nat)
    ensures DueTime(o, n) == o.first + n * Period(o)
  {
    if n > 0 {
      DueTimeClosed(o, n - 1);
      assert n * Period(o) == (n - 1) * Period(o) + Period(o);
    }
  }

  /** Drift-free delivery: the n-th delivery of an id (from 0) goes to the actor
      it was scheduled for and is made for the time first + n * period exactly, never before that time, and an entry
      waiting in the list is due at first + deliveries * period. */
  lemma DriftFree(s: State, es: seq<Event>)
    requires Init(s) && IsRun(s, es)
    ensures var z := After(s, es); forall k | 0 <= k < |z.fired| ::
      var d := z.fired[k];
      d.id in z.origin && d.actor == z.origin[d.id].actor
      && d.at == z.origin[d.id].first + FireCount(z.fired[..k], d.id) * Period(z.origin[d.id])
      && d.at <= d.now <= z.clock
    ensures var z := After(s, es); forall e | e in z.timers ::
      e.id in z.origin && e.at == z.origin[e.id].first + FireCount(z.fired, e.id) * Period(z.origin[e.id])
  {
    InitLawful(s);
    LawfulAfter(s, es);
    var z := After(s, es);
    forall k | 0 <= k < |z.fired|
      ensures z.fired[k].at == z.origin[z.fired[k].id].first
                + FireCount(z.fired[..k], z.fired[k].id) * Period(z.origin[z.fired[k].id])
    {
      DueTimeClosed(z.origin[z.fired[k].id], FireCount(z.fired[..k], z.fired[k].id));
    }
    forall e | e in z.timers
      ensures e.id in z.origin && e.at == z.origin[e.id].first + FireCount(z.fired, e.id) * Period(z.origin[e.id])
    {
      assert e in Ahead(z);
      DueTimeClosed(z.origin[e.id], FireCount(z.fired, e.id));
    }
  }
}
