/** The bounded mailbox with its condition variable, under concurrent senders and
    receivers. Every lock section is one event; a caller inside `wait` is part of
    the state, and so are the wakeups it has been sent. */
module Mailboxes {
  import opened Basics

  type Caller = nat
  type Msg = nat

  datatype Policy = Reject | Block | DropLowPriority

  datatype State = State(
    capacity: nat,
    policy: Policy,
    queue: seq<Msg>,
    blocked: map<Caller, Msg>,   // senders in wait, with their message
    hungry: set<Caller>,         // receivers in wait
    notified: set<Caller>,       // waiting callers that notify_one picked
    accepted: seq<Msg>,          // messages pushed so far
    removed: seq<Msg>,           // messages popped so far, by anyone
    received: seq<Msg>,          // messages handed to a receiver
    dropped: seq<Msg>)           // messages evicted by a send

  /** `woken` is the waiter a notify_one picks, if there is one to pick. */
  datatype Event =
    | Send(c: Caller, m: Msg, woken: Option<Caller>)
    | ResumeSend(c: Caller, woken: Option<Caller>, spurious: bool)
    | Receive(c: Caller)
    | ResumeReceive(c: Caller, spurious: bool)
    | TryReceive

  predicate Full(s: State) {
    |s.queue| >= s.capacity
  }

  function Waiting(s: State): set<Caller> {
    s.blocked.Keys + s.hungry
  }

  predicate Init(s: State) {
    && s.queue == [] && s.blocked == map[] && s.hungry == {} && s.notified == {}
    && s.accepted == [] && s.removed == [] && s.received == [] && s.dropped == []
  }

  /** Does this send attempt push its message? */
  predicate Pushes(s: State, e: Event) {
    match e
    case Send(_, _, _) => !Full(s) || s.policy == DropLowPriority
    case ResumeSend(_, _, _) => !Full(s)
    case _ => false
  }

  /** notify_one picks a waiter that has not been picked yet, if there is one. */
  predicate CanNotify(candidates: set<Caller>, woken: Option<Caller>) {
    if candidates == {} then woken == None else woken.Some? && woken.value in candidates
  }

  predicate Enabled(s: State, e: Event) {
    match e
    case Send(c, _, woken) =>
      c !in Waiting(s) && CanNotify(if Pushes(s, e) then Waiting(s) - s.notified else {}, woken)
    case ResumeSend(c, woken, spurious) =>
      c in s.blocked && (spurious || c in s.notified)
      && CanNotify(if Pushes(s, e) then Waiting(s) - s.notified - {c} else {}, woken)
    case Receive(c) => c !in Waiting(s)
    case ResumeReceive(c, spurious) => c in s.hungry && (spurious || c in s.notified)
    case TryReceive => true
  }

  function Woken(w: Option<Caller>): set<Caller> {
    if w.Some? then {w.value} else {}
  }

  function Push(s: State, m: Msg, woken: Option<Caller>): State {
    s.(queue := s.queue + [m], accepted := s.accepted + [m], notified := s.notified + Woken(woken))
  }

  /** Evict the oldest message; nothing to evict in an empty queue. */
  function Evict(s: State): State {
    if s.queue == [] then s
    else s.(queue := s.queue[1..], removed := s.removed + [s.queue[0]], dropped := s.dropped + [s.queue[0]])
  }

  function Pop(s: State): State
    requires s.queue != []
  {
    s.(queue := s.queue[1..], removed := s.removed + [s.queue[0]], received := s.received + [s.queue[0]])
  }

  function Next(s: State, e: Event): State
    requires Enabled(s, e)
  {
    match e
    case Send(c, m, woken) =>
      if !Full(s) then Push(s, m, woken)
      else (match s.policy
        case Reject => s
        case Block => s.(blocked := s.blocked[c := m])
        case DropLowPriority => Push(Evict(s), m, woken))
    case ResumeSend(c, woken, _) =>
      if Full(s) then s.(notified := s.notified - {c})
      else Push(s.(blocked := s.blocked - {c}, notified := s.notified - {c}), s.blocked[c], woken)
    case Receive(c) =>
      if s.queue == [] then s.(hungry := s.hungry + {c}) else Pop(s)
    case ResumeReceive(c, _) =>
      if s.queue == [] then s.(notified := s.notified - {c})
      else Pop(s.(hungry := s.hungry - {c}, notified := s.notified - {c}))
    case TryReceive =>
      if s.queue == [] then s else Pop(s)
  }

  predicate IsRun(s: State, es: seq<Event>)
    decreases |es|
  {
    es == [] || (Enabled(s, es[0]) && IsRun(Next(s, es[0]), es[1..]))
  }

  function After(s: State, es: seq<Event>): State
    requires IsRun(s, es)
    decreases |es|
  {
    if es == [] then s else After(Next(s, es[0]), es[1..])
  }

  // ----- No loss, first in first out -----

  /** The most a queue of this configuration holds: eviction makes room for one
      message even when the capacity is zero. */
  function Bound(s: State): nat {
    if s.policy == DropLowPriority && s.capacity == 0 then 1 else s.capacity
  }

  ghost predicate Ledger(s: State) {
    && s.accepted == s.removed + s.queue
    && Merges(s.removed, s.received, s.dropped)
    && (s.policy != DropLowPriority ==> s.dropped == [] && s.removed == s.received)
    && |s.queue| <= Bound(s)
  }

  lemma MergesSnoc(r: seq<Msg>, a: seq<Msg>, b: seq<Msg>, m: Msg)
    requires Merges(r, a, b)
    ensures Merges(r + [m], a + [m], b) && Merges(r + [m], a, b + [m])
  {
    assert Front(r + [m]) == r && Front(a + [m]) == a && Front(b + [m]) == b;
  }

  lemma LedgerPop(s: State)
    requires Ledger(s) && s.queue != []
    ensures Ledger(Pop(s))
    ensures s.policy == DropLowPriority ==> Ledger(Evict(s))
  {
    assert s.queue == [s.queue[0]] + s.queue[1..];
    MergesSnoc(s.removed, s.received, s.dropped, s.queue[0]);
    hide Merges;
    assert s.removed + s.queue == s.removed + [s.queue[0]] + s.queue[1..];
  }

  lemma LedgerPush(s: State, m: Msg, woken: Option<Caller>)
    requires Ledger(s) && |s.queue| < Bound(s)
    ensures Ledger(Push(s, m, woken))
  {
    hide Merges;
    assert s.removed + (s.queue + [m]) == s.removed + s.queue + [m];
  }

  lemma LedgerNext(s: State, e: Event)
    requires Enabled(s, e) && Ledger(s)
    ensures Ledger(Next(s, e)) && Next(s, e).policy == s.policy && Next(s, e).capacity == s.capacity
  {
    hide Merges, CanNotify;
    match e
    case Send(_, m, woken) =>
      if !Full(s) {
        LedgerPush(s, m, woken);
      } else if s.policy == DropLowPriority {
        if s.queue != [] {
          LedgerPop(s);
        }
        LedgerPush(Evict(s), m, woken);
      }
    case ResumeSend(c, woken, _) =>
      if !Full(s) {
        LedgerPush(s.(blocked := s.blocked - {c}, notified := s.notified - {c}), s.blocked[c], woken);
      }
    case Receive(_) =>
      if s.queue != [] {
        LedgerPop(s);
      }
    case ResumeReceive(c, _) =>
      if s.queue != [] {
        LedgerPop(s.(hungry := s.hungry - {c}, notified := s.notified - {c}));
      }
    case TryReceive =>
      if s.queue != [] {
        LedgerPop(s);
      }
  }

  lemma {:induction false} LedgerAfter(s: State, es: seq<Event>)
    requires IsRun(s, es) && Ledger(s)
    ensures Ledger(After(s, es)) && After(s, es).policy == s.policy && After(s, es).capacity == s.capacity
    decreases |es|
  {
    if es != [] {
      LedgerNext(s, es[0]);
      LedgerAfter(Next(s, es[0]), es[1..]);
    }
  }

  /** Whatever senders, receivers and wakeups interleave: the queue is the suffix
      of the accepted messages that nobody has removed, it stays within its bound,
      the removed messages are an ordered merge of the received and the dropped
      ones, and under Reject and Block nothing is dropped, so the receivers get
      the accepted messages in order. */
  lemma MailboxIsFifo(s: State, es: seq<Event>)
    requires Init(s) && IsRun(s, es)
    ensures var z := After(s, es);
      z.accepted == z.removed + z.queue && Merges(z.removed, z.received, z.dropped)
      && |z.queue| <= Bound(s) && (s.capacity >= 1 ==> |z.queue| <= s.capacity)
      && (s.policy != DropLowPriority ==> z.accepted == z.received + z.queue)
  {
    LedgerAfter(s, es);
  }

  /** Does this event evict a message: a send that finds a full, non-empty queue
      under DropLowPriority? */
  predicate Evicts(s: State, e: Event) {
    e.Send? && Full(s) && s.policy == DropLowPriority && s.queue != []
  }

  function Evictions(s: State, es: seq<Event>): nat
    requires IsRun(s, es)
    decreases |es|
  {
    if es == [] then 0 else (if Evicts(s, es[0]) then 1 else 0) + Evictions(Next(s, es[0]), es[1..])
  }

  lemma {:induction false} EvictionsDrop(s: State, es: seq<Event>)
    requires IsRun(s, es)
    ensures |After(s, es).dropped| == |s.dropped| + Evictions(s, es)
    decreases |es|
  {
    if es != [] {
      hide CanNotify;
      EvictionsDrop(Next(s, es[0]), es[1..]);
    }
  }

  lemma {:induction false} MergesLength<T>(r: seq<T>, a: seq<T>, b: seq<T>)
    requires Merges(r, a, b)
    ensures |r| == |a| + |b|
  {
    if r != [] {
      if a != [] && Last(a) == Last(r) && Merges(Front(r), Front(a), b) {
        MergesLength(Front(r), Front(a), b);
      } else {
        MergesLength(Front(r), a, Front(b));
      }
    }
  }

  /** Over every run the receivers miss exactly as many accepted messages as there
      were sends that found a full queue under DropLowPriority. */
  lemma MissedAreEvicted(s: State, es: seq<Event>)
    requires Init(s) && IsRun(s, es)
    ensures var z := After(s, es); |z.accepted| == |z.received| + |z.queue| + Evictions(s, es)
  {
    LedgerAfter(s, es);
    EvictionsDrop(s, es);
    MergesLength(After(s, es).removed, After(s, es).received, After(s, es).dropped);
  }

  function Fresh(capacity: nat, policy: Policy): State {
    State(capacity, policy, [], map[], {}, {}, [], [], [], [])
  }

  /** A run can be continued by any event enabled at its end. */
  lemma {:induction false} Extend(s: State, es: seq<Event>, e: Event)
    requires IsRun(s, es) && Enabled(After(s, es), e)
    ensures IsRun(s, es + [e]) && After(s, es + [e]) == Next(After(s, es), e)
    decreases |es|
  {
    if es == [] {
      assert IsRun(Next(s, e), []);
    } else {
      Extend(Next(s, es[0]), es[1..], e);
      assert (es + [e])[1..] == es[1..] + [e];
    }
  }
}
