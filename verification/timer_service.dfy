/** The timer service object: the shared list and flags, updated in place by the
    service thread's pass and by its clients. Each method is one lock section or
    atomic access and is proved to be one event of the transition system. */
module TimerServices {
  import opened Basics
  import opened Timers

  lemma SplitStep(q: seq<Entry>, k: nat, now: nat)
    requires k < |q|
    ensures DueOf(q[..k + 1], now) == DueOf(q[..k], now) + (if now >= q[k].at then [q[k]] else [])
    ensures RestOf(q[..k + 1], now) == RestOf(q[..k], now) + (if now >= q[k].at then [] else [q[k]])
  {
    assert Front(q[..k + 1]) == q[..k];
  }

  /** The list in the loop: entries stepped over, then those not looked at yet.
      Removing the next one or stepping over it, one less is left to look at. */
  lemma RemoveOrStep(q: seq<Entry>, rest: seq<Entry>, was: seq<Entry>, seen: nat)
    requires seen < |was| && q == rest + was[seen..]
    ensures |rest| < |q| && q[|rest|] == was[seen]
    ensures q[..|rest|] + q[|rest| + 1..] == rest + was[seen + 1..]
    ensures q == rest + [was[seen]] + was[seen + 1..]
  {
    assert was[seen..] == [was[seen]] + was[seen + 1..];
  }

  class TimerService {
    var timers: seq<Entry>
    var stop: bool
    var nextId: TimerId
    var phase: Phase          // the service thread's place in `run`
    var clock: nat
    ghost var pending: set<TimerId>
    ghost var fired: seq<Delivery>
    ghost var spent: seq<TimerId>
    ghost var cancelled: seq<TimerId>
    ghost var origin: map<TimerId, Origin>
    ghost var pass: nat

    ghost function Abs(): State
      reads this
    {
      State(timers, phase, clock, stop, nextId, pending, fired, spent, cancelled, origin, pass)
    }

    constructor (clock: nat)
      ensures Init(Abs()) && this.clock == clock
    {
      timers, stop, nextId, phase := [], false, 0, Checking;
      this.clock := clock;
      pending, fired, spent, cancelled, origin, pass := {}, [], [], [], map[], 0;
    }

    method NewId() returns (id: TimerId)
      modifies this
      ensures Abs() == Next(old(Abs()), Event.NewId) && id == old(nextId)
    {
      id := nextId;
      nextId := nextId + 1;
      pending := pending + {id};
    }

    /** The lock section of `schedule`. */
    method PushOneShot(id: TimerId, actor: ActorId, delay: nat)
      requires id in pending
      modifies this
      ensures Abs() == Next(old(Abs()), Event.PushOneShot(id, actor, delay))
    {
      timers := timers + [Entry(id, actor, clock + delay, None)];
      pending, origin := pending - {id}, origin[id := Origin(actor, clock + delay, None)];
    }

    /** The lock section of `schedule_interval`. */
    method PushPeriodic(id: TimerId, actor: ActorId, every: nat)
      requires id in pending
      modifies this
      ensures Abs() == Next(old(Abs()), Event.PushPeriodic(id, actor, every))
    {
      timers := timers + [Entry(id, actor, clock + every, Some(every))];
      pending, origin := pending - {id}, origin[id := Origin(actor, clock + every, Some(every))];
    }

    /** `retain`: keep the entries of every other id, in order. */
    method KeepOthers(id: TimerId)
      modifies this`timers
      ensures timers == Retain(old(timers), id)
    {
      var kept: seq<Entry> := [];
      for i := 0 to |timers|
        invariant timers == old(timers) && kept == Retain(timers[..i], id)
      {
        assert Front(timers[..i + 1]) == timers[..i];
        if timers[i].id != id {
          kept := kept + [timers[i]];
        }
      }
      assert timers[..|timers|] == timers;
      timers := kept;
    }

    method Cancel(id: TimerId)
      modifies this
      ensures Abs() == Next(old(Abs()), Event.Cancel(id))
    {
      cancelled := cancelled + Removed(timers, id);
      KeepOthers(id);
    }

    method SetStop()
      modifies this
      ensures Abs() == Next(old(Abs()), Event.SetStop)
    {
      stop := true;
    }

    method LoadStop()
      requires phase == Checking
      modifies this
      ensures Abs() == Next(old(Abs()), Event.LoadStop)
    {
      phase := if stop then Exited else Reading;
    }

    method ReadClock()
      requires phase == Reading
      modifies this
      ensures Abs() == Next(old(Abs()), Event.ReadClock)
    {
      phase := Collecting(clock);
      pass := pass + 1;
    }

    /** The index-and-remove loop: remove each due entry at index i and append it
        to the due list, step over the others. */
    method TakeDue(now: nat) returns (due: seq<Entry>)
      modifies this`timers
      ensures due == DueOf(old(timers), now) && timers == RestOf(old(timers), now)
    {
      due := [];
      var i := 0;
      ghost var was, rest, seen := timers, [], 0;
      assert was[..0] == [];
      assert DueOf([], now) == [] && RestOf([], now) == [];
      hide DueOf, RestOf;
      while i < |timers|
        invariant seen <= |was| && i == |rest|
        invariant timers == rest + was[seen..]
        invariant rest == RestOf(was[..seen], now) && due == DueOf(was[..seen], now)
        decreases |timers| - i
      {
        RemoveOrStep(timers, rest, was, seen);
        SplitStep(was, seen, now);
        if now >= timers[i].at {
          due := due + [timers[i]];
          timers := timers[..i] + timers[i + 1..];
        } else {
          rest := rest + [timers[i]];
          i := i + 1;
        }
        seen := seen + 1;
      }
      assert was[..seen] == was;
    }

    method CollectDue()
      requires phase.Collecting?
      modifies this
      ensures Abs() == Next(old(Abs()), Event.Collect)
    {
      var now := phase.now;
      var due := TakeDue(now);
      phase := Firing(due, now);
    }

    /** Call the message factory of the first due entry and deliver. */
    method Fire()
      requires Enabled(Abs(), Event.Fire)
      modifies this
      ensures Abs() == Next(old(Abs()), Event.Fire)
    {
      var e, rest, now := phase.due[0], phase.due[1..], phase.now;
      fired := fired + [Delivery(e.id, e.actor, e.at, now, pass)];
      if e.interval == None {
        spent := spent + [e.id];
        phase := Firing(rest, now);
      } else {
        phase := Repushing(e, rest, now);
      }
    }

    /** Re-push a periodic entry one interval after its previous due time. */
    method Repush()
      requires Enabled(Abs(), Event.Repush)
      modifies this
      ensures Abs() == Next(old(Abs()), Event.Repush)
    {
      var e := phase.entry;
      timers := timers + [e.(at := e.at + e.interval.value)];
      phase := Firing(phase.due, phase.now);
    }

    method EndPass()
      requires Enabled(Abs(), Event.EndPass)
      modifies this
      ensures Abs() == Next(old(Abs()), Event.EndPass)
    {
      phase := Checking;
    }

    method Tick(d: nat)
      modifies this
      ensures Abs() == Next(old(Abs()), Event.Tick(d))
    {
      clock := clock + d;
    }

    /** Whatever interleaving clients and thread produce, the object follows it. */
    method Perform(schedule: seq<Event>)
      requires IsRun(Abs(), schedule)
      modifies this
      ensures Abs() == After(old(Abs()), schedule)
    {
      for k := 0 to |schedule|
        invariant IsRun(Abs(), schedule[k..]) && After(Abs(), schedule[k..]) == After(old(Abs()), schedule)
      {
        assert schedule[k..][0] == schedule[k] && schedule[k..][1..] == schedule[k + 1..];
        match schedule[k]
        case Tick(d) => Tick(d);
        case NewId =>
          var _ := NewId();
        case PushOneShot(id, actor, delay) => PushOneShot(id, actor, delay);
        case PushPeriodic(id, actor, every) => PushPeriodic(id, actor, every);
        case Cancel(id) => Cancel(id);
        case SetStop => SetStop();
        case LoadStop => LoadStop();
        case ReadClock => ReadClock();
        case Collect => CollectDue();
        case Fire => Fire();
        case Repush => Repush();
        case EndPass => EndPass();
      }
    }
  }
}
