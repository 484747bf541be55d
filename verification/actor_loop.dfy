/** One actor's loop with its bounded mailbox, its senders, and the reply slot in
    its context, as a transition system. */
module ActorLoop {
  import opened Basics

  type Payload = nat
  type RequestId = nat

  /** `typed` says whether the payload downcasts to the actor's message type. */
  datatype Envelope =
    | Message(payload: Payload, typed: bool)
    | Request(id: RequestId, payload: Payload, typed: bool)

  /** Where the actor's task is in its loop. */
  datatype Phase =
    | Checking                 // about to load the stop flag
    | Draining                 // stop seen, about to try_recv
    | Receiving                // in recv_timeout
    | Handling(env: Envelope, index: nat) // in the handler, for consumed envelope `index`
    | Leaving                  // out of the loop, receiver not yet dropped
    | Done

  /** A value put into a reply channel by the handler of consumed envelope `origin`. */
  datatype Reply = Reply(to: RequestId, value: Payload, origin: nat)

  datatype SendOutcome = Accepted | ActorNotFound | MailboxFull | RuntimeStopped

  datatype State = State(
    capacity: nat,
    mailbox: seq<Envelope>,
    phase: Phase,
    slot: Option<RequestId>,      // the context's reply sender
    stop: bool,
    registered: bool,             // the runtime's sender map has the actor
    ownSender: bool,              // the context's own sender is alive
    nextRequest: RequestId,
    accepted: seq<Envelope>,      // all envelopes the mailbox took
    consumed: seq<Envelope>,      // all envelopes the loop took out
    lost: seq<Envelope>,          // dropped with the receiver
    drainedAt: nat,               // how many were accepted when found empty
    replies: seq<Reply>,
    received: seq<RequestId>,     // one entry per reply taken by a handle
    closed: set<RequestId>)       // requests whose handle was dropped

  datatype Event =
    | Send(payload: Payload, typed: bool)
    | SendBlocking(payload: Payload, typed: bool)
    | Ask(payload: Payload, typed: bool)
    | TakeReply(id: RequestId)
    | CloseHandle(id: RequestId)
    | Unregister
    | SetStop
    | LoadStop
    | TryRecv
    | Recv
    | Timeout
    | Disconnect
    | SendReply(value: Payload)
    | EndHandler
    | DropReceiver

  /** What a non-blocking send answers. */
  function OutcomeOf(s: State): SendOutcome {
    if !s.registered then ActorNotFound
    else if s.phase == Done then RuntimeStopped
    else if |s.mailbox| >= s.capacity then MailboxFull
    else Accepted
  }

  function ReplyCount(rs: seq<Reply>, id: RequestId): nat {
    if rs == [] then 0 else ReplyCount(Front(rs), id) + (if Last(rs).to == id then 1 else 0)
  }

  /** Replies sitting in the channel of a request. */
  function Unread(s: State, id: RequestId): int {
    ReplyCount(s.replies, id) - multiset(s.received)[id]
  }

  predicate Init(s: State) {
    && s.mailbox == [] && s.phase == Checking && s.slot == None && !s.stop && s.registered && s.ownSender
    && s.nextRequest == 0 && s.accepted == [] && s.consumed == [] && s.lost == [] && s.drainedAt == 0
    && s.replies == [] && s.received == [] && s.closed == {}
  }

  predicate Enabled(s: State, e: Event) {
    match e
    case Send(_, _) => true
    case SendBlocking(_, _) => OutcomeOf(s) != MailboxFull   // otherwise it waits
    case Ask(_, _) => true
    case TakeReply(id) => Unread(s, id) > 0 && id !in s.closed
    case CloseHandle(id) => id < s.nextRequest
    case Unregister => true
    case SetStop => true
    case LoadStop => s.phase == Checking
    case TryRecv => s.phase == Draining
    case Recv => s.phase == Receiving && s.mailbox != []
    case Timeout => s.phase == Receiving && s.mailbox == [] && (s.registered || s.ownSender)
    case Disconnect => s.phase == Receiving && s.mailbox == [] && !s.registered && !s.ownSender
    case SendReply(_) =>
      // a reply channel holds one value; a second one waits for the first
      s.phase.Handling? && (s.slot.Some? && s.slot.value !in s.closed ==> Unread(s, s.slot.value) < 1)
    case EndHandler => s.phase.Handling?
    case DropReceiver => s.phase == Leaving
  }

  function Push(s: State, env: Envelope): State {
    s.(mailbox := s.mailbox + [env], accepted := s.accepted + [env])
  }

  /** Take the next envelope; hand it to the actor unless its type is wrong, in
      which case the slot keeps whatever it held. */
  function Take(s: State): State
    requires s.mailbox != []
  {
    var env := s.mailbox[0];
    var t := s.(mailbox := s.mailbox[1..], consumed := s.consumed + [env]);
    if !env.typed then t.(phase := Checking)
    else t.(phase := Handling(env, |s.consumed|), slot := if env.Request? then Some(env.id) else None)
  }

  function Next(s: State, e: Event): State
    requires Enabled(s, e)
  {
    match e
    case Send(p, typed) => if OutcomeOf(s) == Accepted then Push(s, Message(p, typed)) else s
    case SendBlocking(p, typed) => if OutcomeOf(s) == Accepted then Push(s, Message(p, typed)) else s
    case Ask(p, typed) =>
      var t := s.(nextRequest := s.nextRequest + 1);
      if OutcomeOf(s) == Accepted then Push(t, Request(s.nextRequest, p, typed)) else t
    case TakeReply(id) => s.(received := s.received + [id])
    case CloseHandle(id) => s.(closed := s.closed + {id})
    case Unregister => s.(registered := false)
    case SetStop => s.(stop := true)
    case LoadStop => s.(phase := if s.stop then Draining else Receiving)
    case TryRecv => if s.mailbox == [] then s.(phase := Leaving, drainedAt := |s.accepted|) else Take(s)
    case Recv => Take(s)
    case Timeout => s.(phase := Checking)
    case Disconnect => s.(phase := Leaving, drainedAt := |s.accepted|)
    case SendReply(v) =>
      if s.slot.None? || s.slot.value in s.closed then s
      else s.(replies := s.replies + [Reply(s.slot.value, v, s.phase.index)])
    case EndHandler => s.(phase := Checking)
    case DropReceiver => s.(phase := Done, mailbox := [], lost := s.mailbox, ownSender := false)
  }

  predicate IsRun(s: State, es: seq<Event>)
    decreases |es|
  {
    es == [] || (Enabled(s, es[0]) && IsRun(Next(s, es[0]), es[1..]))
  }

  function After(s: State, es: seq<Event>): State
    requires IsRun(s, es)
    decreases |es|
  {
    if es == [] then s else After(Next(s, es[0]), es[1..])
  }

  /** The envelopes whose payload is of the actor's message type, in order. */
  function TypedOnes(q: seq<Envelope>): seq<Envelope> {
    if q == [] then []
    else if Last(q).typed then TypedOnes(Front(q)) + [Last(q)] else TypedOnes(Front(q))
  }

  lemma TypedSnoc(q: seq<Envelope>, e: Envelope)
    ensures TypedOnes(q + [e]) == TypedOnes(q) + (if e.typed then [e] else [])
  {
    assert Front(q + [e]) == q;
  }

  /** The values of the replies to one request, in order. */
  function ValuesFor(rs: seq<Reply>, id: RequestId): (vs: seq<Payload>)
    ensures |vs| == ReplyCount(rs, id)
  {
    if rs == [] then []
    else if Last(rs).to == id then ValuesFor(Front(rs), id) + [Last(rs).value] else ValuesFor(Front(rs), id)
  }

  // ----- Delivery -----

  ghost predicate Delivery(s: State) {
    && s.accepted == s.consumed + s.mailbox + s.lost
    && (s.phase != Done ==> s.lost == [] && s.ownSender)
    && (s.phase == Done ==> s.mailbox == [])
    && |s.mailbox| <= s.capacity && |s.lost| <= s.capacity
    && (s.phase == Draining || s.phase == Leaving || s.phase == Done ==> s.stop)
    && (s.phase == Leaving || s.phase == Done ==>
          s.drainedAt <= |s.accepted| && s.consumed == s.accepted[..s.drainedAt])
  }

  lemma DeliveryTake(s: State, e: Event)
    requires Enabled(s, e) && Delivery(s) && (e.Recv? || (e.TryRecv? && s.mailbox != []))
    ensures Delivery(Next(s, e))
  {
    hide Unread;
    var s' := Next(s, e);
    assert s.mailbox == [s.mailbox[0]] + s.mailbox[1..];
    assert s'.consumed + s'.mailbox == s.consumed + s.mailbox;
  }

  lemma DeliveryPush(s: State, t: State, env: Envelope)
    requires Delivery(s) && OutcomeOf(s) == Accepted
    requires t == s || t == s.(nextRequest := s.nextRequest + 1)
    ensures Delivery(Push(t, env))
  {
    var s' := Push(t, env);
    assert s'.accepted == s'.consumed + s'.mailbox;
    if s.phase == Leaving {
      assert s'.accepted[..s.drainedAt] == s.accepted[..s.drainedAt];
    }
  }

  lemma DeliveryNext(s: State, e: Event)
    requires Enabled(s, e) && Delivery(s)
    ensures Delivery(Next(s, e)) && Next(s, e).capacity == s.capacity
  {
    hide Unread;
    match e
    case Send(p, typed) =>
      if OutcomeOf(s) == Accepted {
        DeliveryPush(s, s, Message(p, typed));
      }
    case SendBlocking(p, typed) =>
      if OutcomeOf(s) == Accepted {
        DeliveryPush(s, s, Message(p, typed));
      }
    case Ask(p, typed) =>
      if OutcomeOf(s) == Accepted {
        DeliveryPush(s, s.(nextRequest := s.nextRequest + 1), Request(s.nextRequest, p, typed));
      }
    case Recv => DeliveryTake(s, e);
    case TryRecv =>
      if s.mailbox != [] {
        DeliveryTake(s, e);
      } else {
        assert s.accepted[..|s.accepted|] == s.accepted;
      }
    case _ =>
  }

  lemma {:induction false} DeliveryAfter(s: State, es: seq<Event>)
    requires IsRun(s, es) && Delivery(s)
    ensures Delivery(After(s, es)) && After(s, es).capacity == s.capacity
    decreases |es|
  {
    if es != [] {
      DeliveryNext(s, es[0]);
      DeliveryAfter(Next(s, es[0]), es[1..]);
    }
  }

  /** What the loop has consumed is always a prefix of what the mailbox accepted,
      and what is in between never exceeds the capacity. */
  lemma ConsumedIsPrefix(s: State, es: seq<Event>)
    requires Init(s) && IsRun(s, es)
    ensures var z := After(s, es);
      z.consumed <= z.accepted && |z.accepted| - |z.consumed| <= s.capacity
      && (z.phase != Done ==> z.accepted == z.consumed + z.mailbox)
  {
    DeliveryAfter(s, es);
    var z := After(s, es);
    assert z.accepted == z.consumed + (z.mailbox + z.lost);
  }

  /** The loop is only ever left through the stop branch: its context keeps a
      sender to its own mailbox, so the channel cannot disconnect. When it has
      left, it consumed everything accepted up to the try_recv that found the
      mailbox empty; only what was accepted after that is lost. */
  lemma StopDrains(s: State, es: seq<Event>)
    requires Init(s) && IsRun(s, es)
    ensures var z := After(s, es);
      !Enabled(z, Disconnect)
      && (z.phase == Leaving || z.phase == Done ==>
            z.stop && z.drainedAt <= |z.accepted| && z.consumed == z.accepted[..z.drainedAt])
      && (z.phase == Done ==> z.lost == z.accepted[z.drainedAt..])
  {
    DeliveryAfter(s, es);
  }

  // ----- Request and reply -----

  /** In a handler the reply slot is that of the envelope being handled. */
  ghost predicate OwnSlot(s: State) {
    s.phase.Handling? ==>
      s.phase.index < |s.consumed| && s.consumed[s.phase.index] == s.phase.env && s.phase.env.typed
      && s.slot == if s.phase.env.Request? then Some(s.phase.env.id) else None
  }

  ghost predicate Correlated(s: State) {
    && OwnSlot(s)
    && (forall k | 0 <= k < |s.replies| ::
          && s.replies[k].origin < |s.consumed|
          && s.consumed[s.replies[k].origin].Request? && s.consumed[s.replies[k].origin].typed
          && s.consumed[s.replies[k].origin].id == s.replies[k].to)
  }

  ghost predicate DistinctRequests(s: State) {
    && (forall i | 0 <= i < |s.accepted| && s.accepted[i].Request? :: s.accepted[i].id < s.nextRequest)
    && (forall i, j | 0 <= i < j < |s.accepted| && s.accepted[i].Request? && s.accepted[j].Request? ::
          s.accepted[i].id != s.accepted[j].id)
  }

  ghost predicate OneReplySlot(s: State) {
    forall id: RequestId :: 0 <= Unread(s, id) <= 1
  }

  lemma CorrelatedNext(s: State, e: Event)
    requires Enabled(s, e) && Correlated(s)
    ensures Correlated(Next(s, e))
  {
    hide Unread;
  }

  lemma DistinctRequestsNext(s: State, e: Event)
    requires Enabled(s, e) && DistinctRequests(s)
    ensures DistinctRequests(Next(s, e))
  {
    hide Unread;
  }

  lemma RepliesKept(s: State, e: Event)
    requires Enabled(s, e) && !e.SendReply? && !e.TakeReply?
    ensures Next(s, e).replies == s.replies && Next(s, e).received == s.received
  {
    hide Unread, OutcomeOf;
  }

  lemma UnreadReply(s: State, v: Payload, id: RequestId)
    requires Enabled(s, SendReply(v))
    ensures Unread(Next(s, SendReply(v)), id)
         == Unread(s, id) + (if s.slot == Some(id) && id !in s.closed then 1 else 0)
  {
    if s.slot.Some? && s.slot.value !in s.closed {
      assert Front(Next(s, SendReply(v)).replies) == s.replies;
    }
  }

  lemma UnreadTake(s: State, taken: RequestId, id: RequestId)
    requires Enabled(s, TakeReply(taken))
    ensures Unread(Next(s, TakeReply(taken)), id) == Unread(s, id) - (if taken == id then 1 else 0)
  {
    hide ReplyCount;
    assert multiset(s.received + [taken]) == multiset(s.received) + multiset{taken};
  }

  lemma OneReplySlotNext(s: State, e: Event)
    requires Enabled(s, e) && OneReplySlot(s)
    ensures OneReplySlot(Next(s, e))
  {
    var s' := Next(s, e);
    forall id: RequestId ensures 0 <= Unread(s', id) <= 1 {
      assert 0 <= Unread(s, id) <= 1;
      match e
      case SendReply(v) =>
        UnreadReply(s, v, id);
        hide Unread, Next, OneReplySlot;
      case TakeReply(taken) =>
        UnreadTake(s, taken, id);
        hide Unread, Next, OneReplySlot;
      case _ =>
        RepliesKept(s, e);
        hide ReplyCount, Next, OneReplySlot;
    }
  }

  lemma {:induction false} ProtocolAfter(s: State, es: seq<Event>)
    requires IsRun(s, es) && Correlated(s) && DistinctRequests(s) && OneReplySlot(s)
    ensures Correlated(After(s, es)) && DistinctRequests(After(s, es)) && OneReplySlot(After(s, es))
    decreases |es|
  {
    if es != [] {
      CorrelatedNext(s, es[0]);
      DistinctRequestsNext(s, es[0]);
      OneReplySlotNext(s, es[0]);
      ProtocolAfter(Next(s, es[0]), es[1..]);
    }
  }

  lemma InitProtocol(s: State)
    requires Init(s)
    ensures Delivery(s) && Correlated(s) && DistinctRequests(s) && OneReplySlot(s)
  {
  }

  /** Reply correlation: every value in a request's reply channel was put there by
      the handler invocation for that very request, of which there is only one;
      fire-and-forget invocations write to no channel, although one context slot
      is reused for all of them. */
  lemma RepliesCorrelate(s: State, es: seq<Event>, k: nat, i: nat)
    requires Init(s) && IsRun(s, es) && k < |After(s, es).replies| && i < |After(s, es).consumed|
    ensures var z := After(s, es); var r := z.replies[k];
      r.origin == i <==> z.consumed[i].Request? && z.consumed[i].id == r.to
  {
    InitProtocol(s);
    ProtocolAfter(s, es);
    ConsumedIsPrefix(s, es);
    var z := After(s, es);
    var r := z.replies[k];
    assert z.consumed[i] == z.accepted[i] && z.consumed[r.origin] == z.accepted[r.origin];
  }

  /** Inside a handler `is_request` tells the truth about the current envelope and
      `reply` can only reach its own requester, whatever the slot held before. */
  lemma HandlerSeesOwnRequest(s: State, es: seq<Event>)
    requires Init(s) && IsRun(s, es) && After(s, es).phase.Handling?
    ensures var z := After(s, es);
      z.phase.index < |z.consumed| && z.consumed[z.phase.index] == z.phase.env && z.phase.env.typed
      && (z.slot.Some? <==> z.phase.env.Request?)
      && (z.slot.Some? ==> z.slot.value == z.phase.env.id)
  {
    InitProtocol(s);
    ProtocolAfter(s, es);
  }

  /** Over every run a request that nobody handled has no reply, and one that was
      handled leaves at most one value unread in its channel, so that as many
      values were put in as were taken out, or one more, even if its handle is gone. */
  lemma RepliesPerRequest(s: State, es: seq<Event>, id: RequestId)
    requires Init(s) && IsRun(s, es)
    ensures var z := After(s, es);
      ReplyCount(z.replies, id) > 0 ==> exists i | 0 <= i < |z.consumed| ::
        z.consumed[i].Request? && z.consumed[i].typed && z.consumed[i].id == id
    ensures var z := After(s, es);
      multiset(z.received)[id] <= ReplyCount(z.replies, id) <= multiset(z.received)[id] + 1
  {
    InitProtocol(s);
    ProtocolAfter(s, es);
    var z := After(s, es);
    if ReplyCount(z.replies, id) > 0 {
      var k := ReplyIn(z.replies, id);
      assert z.consumed[z.replies[k].origin].id == id;
    }
    assert 0 <= Unread(z, id) <= 1;
  }

  lemma {:induction false} ReplyIn(rs: seq<Reply>, id: RequestId) returns (k: nat)
    requires ReplyCount(rs, id) > 0
    ensures k < |rs| && rs[k].to == id
  {
    k := |rs| - 1;
    if rs[k].to != id {
      k := ReplyIn(Front(rs), id);
    }
  }
}
