/** The timer service as a transition system: the service thread's pass, and the
    schedule, cancel and shutdown calls that other threads make between any two
    of its lock sections. Times are nanoseconds of a clock that never goes back. */
module Timers {
  import opened Basics

  type TimerId = nat
  type ActorId = nat

  datatype Entry = Entry(id: TimerId, actor: ActorId, at: nat, interval: Option<nat>)

  /** Where the service thread is in its pass; `now` is the pass's clock reading. */
  datatype Phase =
    | Checking                                       // about to load the stop flag
    | Reading                                        // about to read the clock
    | Collecting(now: nat)                           // about to take the due entries
    | Firing(due: seq<Entry>, now: nat)              // about to fire the first of due
    | Repushing(entry: Entry, due: seq<Entry>, now: nat) // fired, about to re-push
    | Exited

  /** One delivery: the due time it was for, the reading it was found due at, and
      the number of the pass. */
  datatype Delivery = Delivery(id: TimerId, actor: ActorId, at: nat, now: nat, pass: nat)

  /** How an id was scheduled: its target, first due time and period, if any. */
  datatype Origin = Origin(actor: ActorId, first: nat, interval: Option<nat>)

  datatype State = State(
    timers: seq<Entry>,
    phase: Phase,
    clock: nat,
    stop: bool,
    nextId: TimerId,
    pending: set<TimerId>,        // ids drawn, entry not yet pushed
    fired: seq<Delivery>,         // all deliveries so far
    spent: seq<TimerId>,          // one-shots that have fired
    cancelled: seq<TimerId>,      // entries that a cancel removed
    origin: map<TimerId, Origin>,
    pass: nat)

  datatype Event =
    | Tick(d: nat)
    | NewId
    | PushOneShot(id: TimerId, actor: ActorId, delay: nat)
    | PushPeriodic(id: TimerId, actor: ActorId, every: nat)
    | Cancel(id: TimerId)
    | SetStop
    | LoadStop
    | ReadClock
    | Collect
    | Fire
    | Repush
    | EndPass

  /** The entries that are due at `now`, in list order. */
  function DueOf(q: seq<Entry>, now: nat): seq<Entry> {
    if q == [] then []
    else if now >= Last(q).at then DueOf(Front(q), now) + [Last(q)] else DueOf(Front(q), now)
  }

  /** The entries that are not, in list order. */
  function RestOf(q: seq<Entry>, now: nat): seq<Entry> {
    if q == [] then []
    else if now >= Last(q).at then RestOf(Front(q), now) else RestOf(Front(q), now) + [Last(q)]
  }

  /** The list without the entries of one id, and the ids removed. */
  function Retain(q: seq<Entry>, id: TimerId): seq<Entry> {
    if q == [] then []
    else if Last(q).id != id then Retain(Front(q), id) + [Last(q)] else Retain(Front(q), id)
  }

  function Removed(q: seq<Entry>, id: TimerId): seq<TimerId> {
    if q == [] then []
    else if Last(q).id != id then Removed(Front(q), id) else Removed(Front(q), id) + [id]
  }

  predicate Init(s: State) {
    && s.timers == [] && s.phase == Checking && !s.stop
    && s.nextId == 0 && s.pending == {} && s.fired == [] && s.spent == [] && s.cancelled == []
    && s.origin == map[] && s.pass == 0
  }

  predicate Enabled(s: State, e: Event) {
    match e
    case Tick(_) => true
    case NewId => true
    case PushOneShot(id, _, _) => id in s.pending
    case PushPeriodic(id, _, _) => id in s.pending
    case Cancel(_) => true
    case SetStop => true
    case LoadStop => s.phase == Checking
    case ReadClock => s.phase == Reading
    case Collect => s.phase.Collecting?
    case Fire => s.phase.Firing? && s.phase.due != []
    case Repush => s.phase.Repushing? && s.phase.entry.interval.Some?
    case EndPass => s.phase.Firing? && s.phase.due == []
  }

  function Next(s: State, e: Event): State
    requires Enabled(s, e)
  {
    match e
    case Tick(d) =>
      s.(clock := s.clock + d)
    case NewId =>
      s.(nextId := s.nextId + 1, pending := s.pending + {s.nextId})
    case PushOneShot(id, actor, delay) =>
      s.(pending := s.pending - {id},
         timers := s.timers + [Entry(id, actor, s.clock + delay, None)],
         origin := s.origin[id := Origin(actor, s.clock + delay, None)])
    case PushPeriodic(id, actor, every) =>
      s.(pending := s.pending - {id},
         timers := s.timers + [Entry(id, actor, s.clock + every, Some(every))],
         origin := s.origin[id := Origin(actor, s.clock + every, Some(every))])
    case Cancel(id) =>
      s.(timers := Retain(s.timers, id), cancelled := s.cancelled + Removed(s.timers, id))
    case SetStop =>
      s.(stop := true)
    case LoadStop =>
      s.(phase := if s.stop then Exited else Reading)
    case ReadClock =>
      s.(phase := Collecting(s.clock), pass := s.pass + 1)
    case Collect =>
      var now := s.phase.now;
      s.(timers := RestOf(s.timers, now), phase := Firing(DueOf(s.timers, now), now))
    case Fire =>
      var e, rest, now := s.phase.due[0], s.phase.due[1..], s.phase.now;
      var delivered := s.(fired := s.fired + [Delivery(e.id, e.actor, e.at, now, s.pass)]);
      if e.interval == None then delivered.(spent := s.spent + [e.id], phase := Firing(rest, now))
      else delivered.(phase := Repushing(e, rest, now))
    case Repush =>
      var e := s.phase.entry;
      s.(timers := s.timers + [e.(at := e.at + e.interval.value)], phase := Firing(s.phase.due, s.phase.now))
    case EndPass =>
      s.(phase := Checking)
  }

  predicate IsRun(s: State, es: seq<Event>)
    decreases |es|
  {
    es == [] || (Enabled(s, es[0]) && IsRun(Next(s, es[0]), es[1..]))
  }

  function After(s: State, es: seq<Event>): State
    requires IsRun(s, es)
    decreases |es|
  {
    if es == [] then s else After(Next(s, es[0]), es[1..])
  }

  lemma {:induction false} Compose(s: State, es: seq<Event>, fs: seq<Event>)
    requires IsRun(s, es) && IsRun(After(s, es), fs)
    ensures IsRun(s, es + fs) && After(s, es + fs) == After(After(s, es), fs)
    decreases |es|
  {
    if es == [] {
      assert es + fs == fs;
    } else {
      assert (es + fs)[0] == es[0] && (es + fs)[1..] == es[1..] + fs;
      Compose(Next(s, es[0]), es[1..], fs);
    }
  }

  // ----- The collection loop is a stable partition -----

  predicate AllDue(q: seq<Entry>, now: nat) {
    forall e | e in q :: now >= e.at
  }

  predicate NoneDue(q: seq<Entry>, now: nat) {
    forall e | e in q :: now < e.at
  }

  /** Collecting splits the list into the due entries and the others, keeps both
      in list order, and there is only one such split. */
  lemma {:induction false} StablePartition(q: seq<Entry>, now: nat, a: seq<Entry>, b: seq<Entry>)
    ensures a == DueOf(q, now) && b == RestOf(q, now) <==> Merges(q, a, b) && AllDue(a, now) && NoneDue(b, now)
  {
    if q != [] {
      var f := Front(q);
      if now >= Last(q).at {
        if a != [] {
          StablePartition(f, now, Front(a), b);
          assert a == Front(a) + [Last(a)];
        }
        assert b != [] ==> Last(b) in b;
      } else {
        if b != [] {
          StablePartition(f, now, a, Front(b));
          assert b == Front(b) + [Last(b)];
        }
        assert a != [] ==> Last(a) in a;
      }
    }
  }
}
