/** The supervisor actor as a machine over timestamped messages. */
module Supervision {
  import opened Basics
  import opened Backoff

  type ActorId = nat

  datatype Strategy = OneForOne(maxRestarts: nat, within: nat, baseBackoff: nat)

  datatype ChildEntry = ChildEntry(name: string, restartCount: nat, alive: bool, lastRestartAt: Option<nat>)

  datatype ChildStatus = ChildStatus(id: ActorId, name: string, restartCount: nat, alive: bool)

  datatype Message =
    | ChildStarted(child: ActorId, name: string)
    | ChildCrashed(child: ActorId, reason: string)
    | GetStatus

  /** A message with the two clock readings its handling makes: one to measure
      the time since the last restart, a later one to stamp the new restart. */
  datatype Stamped = Stamped(msg: Message, elapsedAt: nat, restartAt: nat)

  type Children = map<ActorId, ChildEntry>

  function Lookup(cs: Children, c: ActorId): Option<ChildEntry> {
    if c in cs then Some(cs[c]) else None
  }

  /** `Instant::elapsed` saturates at zero. */
  function Elapsed(now: nat, since: nat): nat {
    if now >= since then now - since else 0
  }

  /** What a crash message does to the crashed child's entry. */
  function CrashEntry(st: Strategy, e: ChildEntry, m: Stamped): Outcome<ChildEntry> {
    var n := e.restartCount + 1;
    match BackoffDelay(st.baseBackoff, n)
    case Panic => Panic
    case Ok(delay) =>
      if n > st.maxRestarts then
        Ok(e.(restartCount := n, alive := false))
      else if e.lastRestartAt.Some? && Elapsed(m.elapsedAt, e.lastRestartAt.value) < delay then
        Ok(e.(restartCount := n, alive := false))
      else
        Ok(e.(restartCount := n, alive := true, lastRestartAt := Some(m.restartAt)))
  }

  /** A supervisor of one child: what its messages do to its entry, if any. */
  function ChildStep(st: Strategy, e: Option<ChildEntry>, m: Stamped): Outcome<Option<ChildEntry>> {
    match m.msg
    case GetStatus => Ok(e)
    case ChildStarted(_, name) => Ok(Some(ChildEntry(name, 0, true, None)))
    case ChildCrashed(_, _) =>
      if e.None? then
        // the delay for count 0 is computed before the child is looked up
        (match BackoffDelay(st.baseBackoff, 0) case Panic => Panic case Ok(_) => Ok(None))
      else
        (match CrashEntry(st, e.value, m) case Panic => Panic case Ok(r) => Ok(Some(r)))
  }

  predicate Concerns(m: Stamped, c: ActorId) {
    !m.msg.GetStatus? && m.msg.child == c
  }

  /** `handle` on the whole map of children. */
  function Handle(st: Strategy, cs: Children, m: Stamped): Outcome<Children> {
    match m.msg
    case GetStatus => Ok(cs)
    case ChildStarted(c, name) => Ok(cs[c := ChildEntry(name, 0, true, None)])
    case ChildCrashed(c, _) =>
      if c !in cs then
        (match BackoffDelay(st.baseBackoff, 0) case Panic => Panic case Ok(_) => Ok(cs))
      else
        (match CrashEntry(st, cs[c], m) case Panic => Panic case Ok(e) => Ok(cs[c := e]))
  }

  /** A supervisor that starts without children and handles ms in order. */
  function Run(st: Strategy, ms: seq<Stamped>): Outcome<Children> {
    if ms == [] then Ok(map[])
    else match Run(st, Front(ms))
      case Panic => Panic
      case Ok(cs) => Handle(st, cs, Last(ms))
  }

  // ----- One-for-one: children do not interact -----

  function Of(ms: seq<Stamped>, c: ActorId): seq<Stamped> {
    if ms == [] then []
    else if Concerns(Last(ms), c) then Of(Front(ms), c) + [Last(ms)]
    else Of(Front(ms), c)
  }

  /** The single-child machine over a sequence of messages. */
  function ChildRun(st: Strategy, ms: seq<Stamped>): Outcome<Option<ChildEntry>> {
    if ms == [] then Ok(None)
    else match ChildRun(st, Front(ms))
      case Panic => Panic
      case Ok(e) => ChildStep(st, e, Last(ms))
  }

  lemma OfLast(ms: seq<Stamped>, c: ActorId)
    requires ms != [] && Concerns(Last(ms), c)
    ensures Front(Of(ms, c)) == Of(Front(ms), c) && Last(Of(ms, c)) == Last(ms)
  {
  }

  /** One message: the map changes at child c as c's own machine does, and not at
      all if the message does not concern c. */
  lemma HandleProjects(st: Strategy, cs: Children, m: Stamped, c: ActorId)
    requires Handle(st, cs, m).Ok?
    ensures Concerns(m, c) ==> ChildStep(st, Lookup(cs, c), m) == Ok(Lookup(Handle(st, cs, m).value, c))
    ensures !Concerns(m, c) ==> Lookup(Handle(st, cs, m).value, c) == Lookup(cs, c)
  {
    hide CrashEntry, BackoffDelay;
  }

  /** What happens to child c depends on the messages about c alone. */
  lemma {:induction false} OneForOneProjection(st: Strategy, ms: seq<Stamped>, c: ActorId)
    requires Run(st, ms).Ok?
    ensures ChildRun(st, Of(ms, c)) == Ok(Lookup(Run(st, ms).value, c))
  {
    if ms != [] {
      OneForOneProjection(st, Front(ms), c);
      HandleProjects(st, Run(st, Front(ms)).value, Last(ms), c);
      hide Handle, ChildStep, Lookup;
      if Concerns(Last(ms), c) {
        OfLast(ms, c);
      }
    }
  }

  /** A panic of the supervisor is a panic of one child's machine. */
  lemma {:induction false} PanicProjection(st: Strategy, ms: seq<Stamped>) returns (c: ActorId)
    requires Run(st, ms).Panic?
    ensures ChildRun(st, Of(ms, c)).Panic?
  {
    if Run(st, Front(ms)).Panic? {
      c := PanicProjection(st, Front(ms));
      if Concerns(Last(ms), c) {
        OfLast(ms, c);
      }
    } else {
      c := Last(ms).msg.child;
      OneForOneProjection(st, Front(ms), c);
      OfLast(ms, c);
    }
  }

  /** Two message sequences that look the same to every child lead to the same
      supervisor, panic included, however the children's messages interleave. */
  lemma InterleavingIrrelevant(st: Strategy, ms: seq<Stamped>, ns: seq<Stamped>)
    requires forall c :: Of(ms, c) == Of(ns, c)
    ensures Run(st, ms) == Run(st, ns)
  {
    if Run(st, ms).Panic? && Run(st, ns).Ok? {
      var c := PanicProjection(st, ms);
      OneForOneProjection(st, ns, c);
    } else if Run(st, ms).Ok? && Run(st, ns).Panic? {
      var c := PanicProjection(st, ns);
      OneForOneProjection(st, ms, c);
    } else if Run(st, ms).Ok? {
      forall c ensures Lookup(Run(st, ms).value, c) == Lookup(Run(st, ns).value, c) {
        OneForOneProjection(st, ms, c);
        OneForOneProjection(st, ns, c);
      }
      SameLookups(Run(st, ms).value, Run(st, ns).value);
    }
  }

  lemma SameLookups(a: Children, b: Children)
    requires forall c :: Lookup(a, c) == Lookup(b, c)
    ensures a == b
  {
    forall c ensures c in a <==> c in b {
      assert Lookup(a, c) == Lookup(b, c);
    }
    forall c | c in a ensures a[c] == b[c] {
      assert Lookup(a, c) == Lookup(b, c);
    }
  }
}
