/** What cancelling a timer guarantees, exactly. */
module TimerCancel {
  import opened Basics
  import opened Timers
  import opened TimerLaws

  /** Due entries the current pass has not fired yet. */
  function DueLeft(p: Phase): seq<Entry> {
    if p.Firing? || p.Repushing? then p.due else []
  }

  predicate Known(s: State, id: TimerId) {
    id < s.nextId && id !in s.pending
  }

  /** The id is neither resident nor in flight, nor can it come back. */
  predicate Gone(s: State, id: TimerId) {
    Known(s, id) && IdCount(s.timers, id) == 0 && IdCount(InFlight(s.phase), id) == 0
  }

  /** Stop is set, the current pass is past collecting, and the id is not among
      the entries it will still fire. */
  predicate Silenced(s: State, id: TimerId) {
    && Known(s, id) && s.stop
    && !s.phase.Reading? && !s.phase.Collecting?
    && IdCount(DueLeft(s.phase), id) == 0
  }

  /** An entry of another id appended to the list. */
  lemma GoneAppend(q: seq<Entry>, e: Entry, id: TimerId)
    requires IdCount(q, id) == 0 && e.id != id
    ensures IdCount(q + [e], id) == 0
  {
    IdCountConcat(q, [e], id);
    IdCountOne(e, id);
  }

  lemma GoneFire(s: State, id: TimerId)
    requires Enabled(s, Fire) && Gone(s, id)
    ensures Gone(Next(s, Fire), id) && FireCount(Next(s, Fire).fired, id) == FireCount(s.fired, id)
  {
    hide IdCount, FireCount;
    IdCountHead(s.phase.due, id);
    FireCountSnoc(s.fired, Last(Next(s, Fire).fired), id);
    assert [s.phase.due[0]] + s.phase.due[1..] == s.phase.due;
  }

  lemma GoneNext(s: State, e: Event, id: TimerId)
    requires Enabled(s, e) && Gone(s, id)
    ensures Gone(Next(s, e), id) && FireCount(Next(s, e).fired, id) == FireCount(s.fired, id)
  {
    hide IdCount, FireCount;
    match e
    case PushOneShot(_, _, _) => GoneAppend(s.timers, Last(Next(s, e).timers), id);
    case PushPeriodic(_, _, _) => GoneAppend(s.timers, Last(Next(s, e).timers), id);
    case Cancel(x) => RetainCount(s.timers, x, id);
    case Collect => PartitionCount(s.timers, s.phase.now, id);
    case Fire => GoneFire(s, id);
    case Repush =>
      IdCountConcat([s.phase.entry], s.phase.due, id);
      IdCountOne(s.phase.entry, id);
      GoneAppend(s.timers, Last(Next(s, e).timers), id);
    case _ =>
  }

  lemma {:induction false} GoneAfter(s: State, es: seq<Event>, id: TimerId)
    requires IsRun(s, es) && Gone(s, id)
    ensures FireCount(After(s, es).fired, id) == FireCount(s.fired, id)
    decreases |es|
  {
    if es != [] {
      GoneNext(s, es[0], id);
      GoneAfter(Next(s, es[0]), es[1..], id);
    }
  }

  lemma SilencedNext(s: State, e: Event, id: TimerId)
    requires Enabled(s, e) && Silenced(s, id)
    ensures Silenced(Next(s, e), id) && FireCount(Next(s, e).fired, id) == FireCount(s.fired, id)
  {
    if e.Fire? {
      IdCountHead(s.phase.due, id);
      FireCountSnoc(s.fired, Last(Next(s, e).fired), id);
    }
  }

  lemma {:induction false} SilencedAfter(s: State, es: seq<Event>, id: TimerId)
    requires IsRun(s, es) && Silenced(s, id)
    ensures FireCount(After(s, es).fired, id) == FireCount(s.fired, id)
    decreases |es|
  {
    if es != [] {
      SilencedNext(s, es[0], id);
      SilencedAfter(Next(s, es[0]), es[1..], id);
    }
  }

  // ----- Runs in which an entry does fire -----

  lemma Prefix(s: State, e: Event, fs: seq<Event>)
    requires Enabled(s, e) && IsRun(Next(s, e), fs)
    ensures IsRun(s, [e] + fs) && After(s, [e] + fs) == After(Next(s, e), fs)
  {
    assert ([e] + fs)[1..] == fs;
  }

  /** Every due entry can still be fired by the current pass. */
  lemma {:induction false} ReachFire(s: State, k: nat) returns (es: seq<Event>)
    requires s.phase.Firing? && k < |s.phase.due|
    ensures IsRun(s, es)
    ensures FireCount(After(s, es).fired, s.phase.due[k].id) > FireCount(s.fired, s.phase.due[k].id)
    decreases k
  {
    var id := s.phase.due[k].id;
    var s' := Next(s, Fire);
    FireCountSnoc(s.fired, Last(s'.fired), id);
    hide FireCount;
    if k == 0 {
      es := [];
      assert IsRun(s', es);
      Prefix(s, Fire, es);
      es := [Fire] + es;
    } else if s.phase.due[0].interval == None {
      es := ReachFire(s', k - 1);
      Prefix(s, Fire, es);
      es := [Fire] + es;
    } else {
      es := ReachFire(Next(s', Repush), k - 1);
      Prefix(s', Repush, es);
      Prefix(s, Fire, [Repush] + es);
      es := [Fire] + ([Repush] + es);
    }
  }

  /** The current pass can be completed; what is resident stays resident. */
  lemma {:induction false} FinishPass(s: State) returns (es: seq<Event>)
    requires s.phase.Firing?
    ensures IsRun(s, es)
    ensures var z := After(s, es); z.phase == Checking && z.stop == s.stop && s.timers <= z.timers
    ensures forall id :: FireCount(After(s, es).fired, id) >= FireCount(s.fired, id)
    decreases |s.phase.due|
  {
    if s.phase.due == [] {
      es := [];
      assert IsRun(Next(s, EndPass), es);
      Prefix(s, EndPass, es);
      es := [EndPass] + es;
    } else {
      var s' := Next(s, Fire);
      forall id ensures FireCount(s'.fired, id) >= FireCount(s.fired, id) {
        FireCountSnoc(s.fired, Last(s'.fired), id);
      }
      hide FireCount;
      if s.phase.due[0].interval == None {
        es := FinishPass(s');
        Prefix(s, Fire, es);
        es := [Fire] + es;
      } else {
        es := FinishPass(Next(s', Repush));
        Prefix(s', Repush, es);
        Prefix(s, Fire, [Repush] + es);
        es := [Fire] + ([Repush] + es);
      }
    }
  }

  /** A resident entry can be fired by a later pass unless stop is set. */
  lemma ReachResident(s: State, e: Entry) returns (es: seq<Event>)
    requires s.phase == Checking && !s.stop && e in s.timers
    ensures IsRun(s, es) && FireCount(After(s, es).fired, e.id) > FireCount(s.fired, e.id)
  {
    var s1 := Next(s, LoadStop);
    var s2 := Next(s1, Tick(e.at));
    var s3 := Next(s2, ReadClock);
    var s4 := Next(s3, Collect);
    DueMember(s.timers, s3.phase.now, e);
    var k :| 0 <= k < |s4.phase.due| && s4.phase.due[k] == e;
    es := ReachFire(s4, k);
    Prefix(s3, Collect, es);
    es := [Collect] + es;
    Prefix(s2, ReadClock, es);
    es := [ReadClock] + es;
    Prefix(s1, Tick(e.at), es);
    es := [Tick(e.at)] + es;
    Prefix(s, LoadStop, es);
    es := [LoadStop] + es;
  }

  lemma {:induction false} DueMember(q: seq<Entry>, now: nat, e: Entry)
    requires e in q && now >= e.at
    ensures e in DueOf(q, now)
  {
    if e != Last(q) {
      assert q == Front(q) + [Last(q)];
      DueMember(Front(q), now, e);
    }
  }

  /** What decides a cancel at the moment it holds the lock. The caller cannot see
      it: the due entries of a pass are local to the service thread. */
  predicate CanStillFire(s: State, id: TimerId) {
    || IdCount(DueLeft(s.phase), id) > 0
    || (s.phase.Repushing? && s.phase.entry.id == id && !s.stop)
  }

  lemma FireIsPossible(s: State, id: TimerId) returns (es: seq<Event>)
    requires Conserved(s) && CanStillFire(s, id)
    ensures IsRun(s, es) && FireCount(After(s, es).fired, id) > FireCount(s.fired, id)
  {
    var f := if s.phase.Repushing? then Next(s, Repush) else s;
    var due := s.phase.due;
    if IdCount(due, id) > 0 {
      IdCountIn(due, id);
      var k :| 0 <= k < |due| && due[k].id == id;
      es := ReachFire(f, k);
    } else {
      var e := Last(f.timers);
      assert e in f.timers;
      es := FinishPass(f);
      var z := After(f, es);
      assert e in z.timers;
      var fs := ReachResident(z, e);
      Compose(f, es, fs);
      es := es + fs;
    }
    if s.phase.Repushing? {
      Prefix(s, Repush, es);
      es := [Repush] + es;
    }
  }

  /** Before its first due time an id is not in flight and was never delivered. */
  lemma NotDueYet(s: State, id: TimerId)
    requires Lawful(s) && id in s.origin && s.clock < s.origin[id].first
    ensures IdCount(InFlight(s.phase), id) == 0 && FireCount(s.fired, id) == 0
  {
    forall k | 0 <= k < |s.fired| ensures s.fired[k].id != id {
      assert s.fired[k].at <= s.clock;
    }
    NeverFired(s.fired, id);
    forall e | e in InFlight(s.phase) ensures e.id != id {
      assert s.phase.Firing? || s.phase.Repushing?;
      assert e in s.phase.due ==> e in Ahead(s);
    }
    IdCountIn(InFlight(s.phase), id);
  }

  /** A timer, one-shot or periodic, that is cancelled before its first due time is
      never delivered. This much the caller can tell from the clock. */
  lemma CancelledInTime(s0: State, es0: seq<Event>, id: TimerId, es: seq<Event>)
    requires Init(s0) && IsRun(s0, es0) && id in After(s0, es0).origin
    requires After(s0, es0).clock < After(s0, es0).origin[id].first
    requires IsRun(Next(After(s0, es0), Cancel(id)), es)
    ensures FireCount(After(Next(After(s0, es0), Cancel(id)), es).fired, id) == 0
  {
    InitLawful(s0);
    LawfulAfter(s0, es0);
    var s := After(s0, es0);
    NotDueYet(s, id);
    RetainCount(s.timers, id, id);
    GoneAfter(Next(s, Cancel(id)), es, id);
  }

  /** Cancellation, exactly: after cancel(id) there is a run in which id fires
      again if and only if, when cancel held the lock, the running pass had taken
      the entry out and not yet fired it, or had just fired it, was about to
      re-push it, and stop was not set. In particular an entry cancelled while
      resident never fires again. */
  lemma CancelExact(s0: State, es0: seq<Event>, id: TimerId)
    requires Init(s0) && IsRun(s0, es0) && Known(After(s0, es0), id)
    ensures var s1 := Next(After(s0, es0), Cancel(id));
      (exists es :: IsRun(s1, es) && FireCount(After(s1, es).fired, id) > FireCount(s1.fired, id))
      <==> CanStillFire(After(s0, es0), id)
  {
    InitLawful(s0);
    LawfulAfter(s0, es0);
    var s := After(s0, es0);
    var s1 := Next(s, Cancel(id));
    ConservedNext(s, Cancel(id));
    if CanStillFire(s, id) {
      var es := FireIsPossible(s1, id);
    } else {
      RetainCount(s.timers, id, id);
      if s.phase.Repushing? {
        IdCountConcat([s.phase.entry], s.phase.due, id);
        IdCountOne(s.phase.entry, id);
      }
      forall es | IsRun(s1, es) ensures FireCount(After(s1, es).fired, id) == FireCount(s1.fired, id) {
        if s.phase.Repushing? && s.phase.entry.id == id {
          SilencedAfter(s1, es, id);
        } else {
          GoneAfter(s1, es, id);
        }
      }
    }
  }

  /** A timer scheduled at once in a fresh service, one-shot or periodic. */
  function Schedule(id: TimerId, actor: ActorId, delay: nat, interval: bool): Event {
    if interval then PushPeriodic(id, actor, delay) else PushOneShot(id, actor, delay)
  }

  /** No caller can rely on more than CancelledInTime: for every clock time T from
      the first due time on there is a run in which cancelling at T is too late: the
      timer has not been delivered yet and is delivered afterwards. */
  lemma CancelTooLate(s0: State, actor: ActorId, delay: nat, interval: bool, T: nat)
    returns (es0: seq<Event>, id: TimerId, es: seq<Event>)
    requires Init(s0) && T >= s0.clock + delay
    ensures IsRun(s0, es0) && id in After(s0, es0).origin
    ensures After(s0, es0).origin[id] == Origin(actor, s0.clock + delay, if interval then Some(delay) else None)
    ensures After(s0, es0).clock == T && FireCount(After(s0, es0).fired, id) == 0
    ensures IsRun(Next(After(s0, es0), Cancel(id)), es)
    ensures FireCount(After(Next(After(s0, es0), Cancel(id)), es).fired, id) > 0
  {
    es0 := LateRun(s0, actor, delay, interval, T);
    id := 0;
    InitLawful(s0);
    LawfulAfter(s0, es0);
    ConservedNext(After(s0, es0), Cancel(id));
    es := FireIsPossible(Next(After(s0, es0), Cancel(id)), id);
  }

  /** Scheduled, and the clock at T. */
  lemma Scheduled(s0: State, actor: ActorId, delay: nat, interval: bool, T: nat) returns (s: State, es: seq<Event>)
    requires Init(s0) && T >= s0.clock + delay
    ensures IsRun(s0, es) && After(s0, es) == s
    ensures s.phase == Checking && !s.stop && s.clock == T && s.fired == [] && Known(s, 0)
    ensures var i := if interval then Some(delay) else None;
      s.timers == [Entry(0, actor, s0.clock + delay, i)] && s.origin == map[0 := Origin(actor, s0.clock + delay, i)]
  {
    var s1 := Next(s0, NewId);
    var s2 := Next(s1, Schedule(0, actor, delay, interval));
    s := Next(s2, Tick(T - s0.clock));
    assert Enabled(s1, Schedule(0, actor, delay, interval));
    es := [];
    assert IsRun(s, es) && After(s, es) == s;
    hide IsRun, After, Next;
    Prefix(s2, Tick(T - s0.clock), es);
    es := [Tick(T - s0.clock)] + es;
    Prefix(s1, Schedule(0, actor, delay, interval), es);
    es := [Schedule(0, actor, delay, interval)] + es;
    Prefix(s0, NewId, es);
    es := [NewId] + es;
  }

  /** The service thread collects a due entry. */
  lemma Collected(s: State, e: Entry) returns (z: State, es: seq<Event>)
    requires s.phase == Checking && !s.stop && s.timers == [e] && s.clock >= e.at
    ensures IsRun(s, es) && After(s, es) == z
    ensures z == s.(timers := [], phase := Firing([e], s.clock), pass := s.pass + 1)
  {
    var s1 := Next(s, LoadStop);
    var s2 := Next(s1, ReadClock);
    z := Next(s2, Collect);
    assert Front([e]) == [] && DueOf([], s.clock) == [] && RestOf([], s.clock) == [];
    assert DueOf([e], s.clock) == [e] && RestOf([e], s.clock) == [];
    es := [];
    assert IsRun(z, es) && After(z, es) == z;
    hide IsRun, After, DueOf, RestOf;
    Prefix(s2, Collect, es);
    es := [Collect] + es;
    Prefix(s1, ReadClock, es);
    es := [ReadClock] + es;
    Prefix(s, LoadStop, es);
    es := [LoadStop] + es;
  }

  /** Schedule, wait until T, and have the pass collect the entry. */
  lemma LateRun(s0: State, actor: ActorId, delay: nat, interval: bool, T: nat) returns (es: seq<Event>)
    requires Init(s0) && T >= s0.clock + delay
    ensures IsRun(s0, es)
    ensures var z := After(s0, es);
      && z.clock == T && z.fired == [] && Known(z, 0) && CanStillFire(z, 0)
      && z.origin == map[0 := Origin(actor, s0.clock + delay, if interval then Some(delay) else None)]
  {
    var s, fs := Scheduled(s0, actor, delay, interval, T);
    var z, gs := Collected(s, s.timers[0]);
    Compose(s0, fs, gs);
    es := fs + gs;
    IdCountOne(s.timers[0], 0);
  }
}
