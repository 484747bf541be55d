/** Whose messages the mailbox accepts: each caller's own, when it may push. */
module MailboxSenders {
  import opened Basics
  import opened Mailboxes

  /** The message each caller last called `send` with. */
  function Offer(offers: map<Caller, Msg>, e: Event): map<Caller, Msg> {
    if e.Send? then offers[e.c := e.m] else offers
  }

  /** The message that this event pushes, if any: a send pushes its own message if
      there is room or it may evict, a woken sender the one it called with if there
      is room, and nobody else pushes. */
  function PushedBy(s: State, offers: map<Caller, Msg>, e: Event): seq<Msg> {
    match e
    case Send(_, m, _) => if |s.queue| < s.capacity || s.policy == DropLowPriority then [m] else []
    case ResumeSend(c, _, _) => if |s.queue| < s.capacity && c in offers then [offers[c]] else []
    case _ => []
  }

  function PushedIn(s: State, offers: map<Caller, Msg>, es: seq<Event>): seq<Msg>
    requires IsRun(s, es)
    decreases |es|
  {
    if es == [] then []
    else PushedBy(s, offers, es[0]) + PushedIn(Next(s, es[0]), Offer(offers, es[0]), es[1..])
  }

  /** A blocked sender waits with the message of its call. */
  predicate WaitsWithOwn(s: State, offers: map<Caller, Msg>) {
    forall c | c in s.blocked :: c in offers && s.blocked[c] == offers[c]
  }

  lemma PushedStep(s: State, offers: map<Caller, Msg>, e: Event)
    requires Enabled(s, e) && WaitsWithOwn(s, offers)
    ensures Next(s, e).accepted == s.accepted + PushedBy(s, offers, e)
    ensures WaitsWithOwn(Next(s, e), Offer(offers, e))
  {
    hide CanNotify;
  }

  lemma {:induction false} PushedAfter(s: State, offers: map<Caller, Msg>, es: seq<Event>)
    requires IsRun(s, es) && WaitsWithOwn(s, offers)
    ensures After(s, es).accepted == s.accepted + PushedIn(s, offers, es)
    decreases |es|
  {
    if es != [] {
      PushedStep(s, offers, es[0]);
      hide Next, Enabled, PushedBy, WaitsWithOwn;
      PushedAfter(Next(s, es[0]), Offer(offers, es[0]), es[1..]);
    }
  }

  /** Over every run the accepted messages are, in order, those of the calls that
      found room or could evict, at once or when they woke; however long a sender is
      blocked, it pushes the message it was called with. */
  lemma AcceptedAreOwn(s: State, es: seq<Event>)
    requires Init(s) && IsRun(s, es)
    ensures After(s, es).accepted == PushedIn(s, map[], es)
  {
    PushedAfter(s, map[], es);
  }

  /** A receiver is served by the oldest queued message, if there is one, and waits
      only if there is none. */
  predicate Serves(s: State, t: State) {
    if s.queue == [] then t.received == s.received && t.queue == s.queue
    else t.received == s.received + [s.queue[0]] && t.queue == s.queue[1..]
  }

  lemma ReceiveServes(s: State, e: Event)
    requires Enabled(s, e)
    ensures (e.Receive? || e.ResumeReceive? || e.TryReceive?) ==> Serves(s, Next(s, e))
    ensures e.Receive? && s.queue == [] ==> e.c in Next(s, e).hungry
    ensures e.ResumeReceive? ==> (e.c in Next(s, e).hungry <==> s.queue == [])
    ensures e.ResumeSend? ==> (e.c in Next(s, e).blocked <==> Full(s))
    ensures e.Send? ==> (e.c in Next(s, e).blocked <==> Full(s) && s.policy == Block)
  {
    hide CanNotify;
  }
}
