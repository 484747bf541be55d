/** What senders, handlers and requesters of an actor get: whatever is accepted is
    what was sent, whatever of the right type is consumed is handled, whatever a
    handler replies reaches its requester, and stopping ends the loop. */
module ActorHandling {
  import opened Basics
  import opened ActorLoop

  // ----- Every envelope of the right type is handled -----

  /** The envelope that this event hands to the handler, if any. */
  function HandedBy(s: State, e: Event): seq<Envelope>
    requires Enabled(s, e)
  {
    if Next(s, e).phase.Handling? && !s.phase.Handling? then [Next(s, e).phase.env] else []
  }

  /** The handler invocations of a run, in order. */
  function HandledIn(s: State, es: seq<Event>): seq<Envelope>
    requires IsRun(s, es)
    decreases |es|
  {
    if es == [] then [] else HandedBy(s, es[0]) + HandledIn(Next(s, es[0]), es[1..])
  }

  lemma HandledStep(s: State, e: Event)
    requires Enabled(s, e)
    ensures TypedOnes(Next(s, e).consumed) == TypedOnes(s.consumed) + HandedBy(s, e)
  {
    hide Unread, OutcomeOf, TypedOnes;
    if (e.Recv? || e.TryRecv?) && s.mailbox != [] {
      TypedSnoc(s.consumed, s.mailbox[0]);
    } else {
      assert Next(s, e).consumed == s.consumed;
    }
  }

  lemma {:induction false} HandledAfter(s: State, es: seq<Event>)
    requires IsRun(s, es)
    ensures TypedOnes(After(s, es).consumed) == TypedOnes(s.consumed) + HandledIn(s, es)
    decreases |es|
  {
    if es != [] {
      HandledStep(s, es[0]);
      var s', fs := Next(s, es[0]), es[1..];
      assert IsRun(s', fs) && After(s, es) == After(s', fs);
      assert HandledIn(s, es) == HandedBy(s, es[0]) + HandledIn(s', fs);
      hide *;
      HandledAfter(s', fs);
    } else {
      hide TypedOnes, Next, Enabled;
    }
  }

  /** Over every run the handler is invoked for exactly the consumed envelopes of the
      right type, in the order they were consumed, once each; the invocation under
      way is the last one. */
  lemma ConsumedAreHandled(s: State, es: seq<Event>)
    requires Init(s) && IsRun(s, es)
    ensures HandledIn(s, es) == TypedOnes(After(s, es).consumed)
    ensures var z := After(s, es);
      z.phase.Handling? ==> HandledIn(s, es) != [] && Last(HandledIn(s, es)) == z.phase.env
  {
    HandledAfter(s, es);
    assert TypedOnes([]) == [];
    CurrentAfter(s, es);
  }

  /** The handler under way is for the last consumed envelope. */
  predicate Current(s: State) {
    s.phase.Handling? ==> s.consumed != [] && Last(s.consumed) == s.phase.env && s.phase.env.typed
  }

  lemma {:induction false} CurrentAfter(s: State, es: seq<Event>)
    requires IsRun(s, es) && Current(s)
    ensures Current(After(s, es))
    decreases |es|
  {
    if es != [] {
      CurrentNext(s, es[0]);
      hide Next, Enabled, Current;
      CurrentAfter(Next(s, es[0]), es[1..]);
    }
  }

  lemma CurrentNext(s: State, e: Event)
    requires Enabled(s, e) && Current(s)
    ensures Current(Next(s, e))
  {
    hide Unread, OutcomeOf;
  }

  /** When the loop has been left, every envelope of the right type that was accepted
      up to the try_recv that found the mailbox empty has been handled. */
  lemma LeavingHasHandled(s: State, es: seq<Event>)
    requires Init(s) && IsRun(s, es) && (After(s, es).phase == Leaving || After(s, es).phase == Done)
    ensures var z := After(s, es);
      z.drainedAt <= |z.accepted| && HandledIn(s, es) == TypedOnes(z.accepted[..z.drainedAt])
  {
    StopDrains(s, es);
    ConsumedAreHandled(s, es);
  }

  // ----- What is accepted is what was sent -----

  /** The actor can be reached and has room: it is registered, its loop has not
      ended, and fewer envelopes than the capacity are accepted and not consumed. */
  predicate HasRoom(s: State) {
    s.registered && s.phase != Done && |s.accepted| - |s.consumed| < s.capacity
  }

  /** The envelope that a call gets accepted, if any; requests are numbered. */
  function PostedBy(s: State, e: Event): seq<Envelope> {
    if !HasRoom(s) then []
    else match e
      case Send(p, typed) => [Message(p, typed)]
      case SendBlocking(p, typed) => [Message(p, typed)]
      case Ask(p, typed) => [Request(s.nextRequest, p, typed)]
      case _ => []
  }

  function PostedIn(s: State, es: seq<Event>): seq<Envelope>
    requires IsRun(s, es)
    decreases |es|
  {
    if es == [] then [] else PostedBy(s, es[0]) + PostedIn(Next(s, es[0]), es[1..])
  }

  lemma PostedStep(s: State, e: Event)
    requires Enabled(s, e) && Delivery(s)
    ensures Next(s, e).accepted == s.accepted + PostedBy(s, e)
    ensures Next(s, e).nextRequest == s.nextRequest + (if e.Ask? then 1 else 0)
  {
    hide Unread;
    assert s.phase != Done ==> |s.mailbox| == |s.accepted| - |s.consumed|;
    assert OutcomeOf(s) == Accepted <==> HasRoom(s);
    hide OutcomeOf, HasRoom, Delivery;
  }

  lemma {:induction false} PostedAfter(s: State, es: seq<Event>)
    requires IsRun(s, es) && Delivery(s)
    ensures After(s, es).accepted == s.accepted + PostedIn(s, es)
    decreases |es|
  {
    if es != [] {
      PostedStep(s, es[0]);
      DeliveryNext(s, es[0]);
      hide Next, Enabled, Delivery, PostedBy;
      PostedAfter(Next(s, es[0]), es[1..]);
    }
  }

  /** Over every run the accepted envelopes are those of the calls made while the
      actor was registered, had not ended and had room, in order, with the payloads
      of the calls; and a call tells its caller so. */
  lemma AcceptedAreSent(s: State, es: seq<Event>)
    requires Init(s) && IsRun(s, es)
    ensures After(s, es).accepted == PostedIn(s, es)
    ensures var z := After(s, es);
      && (OutcomeOf(z) == Accepted <==> HasRoom(z))
      && (OutcomeOf(z) == ActorNotFound <==> !z.registered)
      && (OutcomeOf(z) == RuntimeStopped <==> z.registered && z.phase == Done)
  {
    InitProtocol(s);
    PostedAfter(s, es);
    DeliveryAfter(s, es);
  }

  // ----- Replies -----

  /** The reply that a handler gets through to its requester, if it is handling a
      request whose handle is still there. */
  function GivenBy(s: State, e: Event): seq<Reply> {
    if e.SendReply? && s.phase.Handling? && s.phase.env.Request? && s.phase.env.id !in s.closed
    then [Reply(s.phase.env.id, e.value, s.phase.index)] else []
  }

  function GivenIn(s: State, es: seq<Event>): seq<Reply>
    requires IsRun(s, es)
    decreases |es|
  {
    if es == [] then [] else GivenBy(s, es[0]) + GivenIn(Next(s, es[0]), es[1..])
  }

  lemma GivenStep(s: State, e: Event)
    requires Enabled(s, e) && OwnSlot(s)
    ensures Next(s, e).replies == s.replies + GivenBy(s, e)
  {
    if e.SendReply? {
      hide Unread;
    } else if e.TakeReply? {
    } else {
      RepliesKept(s, e);
    }
  }

  lemma {:induction false} GivenAfter(s: State, es: seq<Event>)
    requires IsRun(s, es) && Correlated(s)
    ensures After(s, es).replies == s.replies + GivenIn(s, es)
    decreases |es|
  {
    if es != [] {
      GivenStep(s, es[0]);
      CorrelatedNext(s, es[0]);
      hide Next, Enabled, Correlated, GivenBy;
      GivenAfter(Next(s, es[0]), es[1..]);
    }
  }

  /** Over every run the values in reply channels are exactly those that handlers of
      requests gave to `reply` while the requester's handle was there, in order. */
  lemma RepliesAreGiven(s: State, es: seq<Event>)
    requires Init(s) && IsRun(s, es)
    ensures After(s, es).replies == GivenIn(s, es)
  {
    InitProtocol(s);
    GivenAfter(s, es);
  }

  /** What handles have taken is what they were told to take. */
  lemma {:induction false} ReceivesCounted(s: State, es: seq<Event>, id: RequestId)
    requires IsRun(s, es)
    ensures multiset(After(s, es).received)[id] == multiset(s.received)[id] + multiset(es)[TakeReply(id)]
    decreases |es|
  {
    if es != [] {
      ReceiveStep(s, es[0], id);
      hide Next, Enabled;
      ReceivesCounted(Next(s, es[0]), es[1..], id);
      assert es == [es[0]] + es[1..];
    }
  }

  lemma ReceiveStep(s: State, e: Event, id: RequestId)
    requires Enabled(s, e)
    ensures multiset(Next(s, e).received)[id] == multiset(s.received)[id] + (if e == TakeReply(id) then 1 else 0)
  {
    if !e.TakeReply? && !e.SendReply? {
      RepliesKept(s, e);
      hide Next;
    } else {
      hide Unread;
    }
  }

  /** Over every run the handle of a request can take a reply exactly if its handler
      has given more than the handle has taken, which is one at most. */
  lemma TakesWhatIsGiven(s: State, es: seq<Event>, id: RequestId)
    requires Init(s) && IsRun(s, es)
    ensures var given := ReplyCount(GivenIn(s, es), id); var taken := multiset(es)[TakeReply(id)];
      && taken <= given <= taken + 1
      && (Enabled(After(s, es), TakeReply(id)) <==> given == taken + 1 && CloseHandle(id) !in es)
  {
    RepliesAreGiven(s, es);
    ReceivesCounted(s, es, id);
    RepliesPerRequest(s, es, id);
    FlagsFollow(s, es, id);
    assert multiset(s.received)[id] == 0;
    hide IsRun, After, Init;
  }

  // ----- Flags -----

  lemma {:induction false} FlagsFollow(s: State, es: seq<Event>, id: RequestId)
    requires IsRun(s, es)
    ensures After(s, es).stop <==> s.stop || SetStop in es
    ensures After(s, es).registered <==> s.registered && Unregister !in es
    ensures id in After(s, es).closed <==> id in s.closed || CloseHandle(id) in es
    decreases |es|
  {
    if es != [] {
      FlagsStep(s, es[0], id);
      hide Next, Enabled;
      FlagsFollow(Next(s, es[0]), es[1..], id);
    }
  }

  lemma FlagsStep(s: State, e: Event, id: RequestId)
    requires Enabled(s, e)
    ensures Next(s, e).stop <==> s.stop || e == SetStop
    ensures Next(s, e).registered <==> s.registered && e != Unregister
    ensures id in Next(s, e).closed <==> id in s.closed || e == CloseHandle(id)
  {
    hide Unread, OutcomeOf;
  }

  // ----- Stopping -----

  /** Steps of the loop itself, replies apart. */
  predicate IsLoopStep(e: Event) {
    e.LoadStop? || e.TryRecv? || e.Recv? || e.Timeout? || e.Disconnect? || e.EndHandler? || e.DropReceiver?
  }

  function LoopSteps(es: seq<Event>): nat {
    if es == [] then 0 else (if IsLoopStep(es[0]) then 1 else 0) + LoopSteps(es[1..])
  }

  /** How many steps the stopped loop still takes, besides three for each envelope
      in the mailbox. */
  function ToLeave(p: Phase): nat {
    match p
    case Done => 0
    case Leaving => 1
    case Draining => 2
    case Checking => 3
    case Receiving => 4
    case Handling(_, _) => 4
  }

  lemma LeaveStep(s: State, e: Event)
    requires Enabled(s, e) && s.stop && Delivery(s)
    ensures Next(s, e).stop
    ensures ToLeave(Next(s, e).phase) + 3 * |Next(s, e).mailbox| + (if IsLoopStep(e) then 1 else 0)
         <= ToLeave(s.phase) + 3 * |s.mailbox| + 3 * (|Next(s, e).accepted| - |s.accepted|)
  {
    hide Unread;
  }

  lemma {:induction false} LeaveAfter(s: State, es: seq<Event>)
    requires IsRun(s, es) && s.stop && Delivery(s)
    ensures LoopSteps(es) + ToLeave(After(s, es).phase)
         <= ToLeave(s.phase) + 3 * |s.mailbox| + 3 * (|After(s, es).accepted| - |s.accepted|)
    decreases |es|
  {
    if es != [] {
      LeaveStep(s, es[0]);
      DeliveryNext(s, es[0]);
      hide Next, Enabled, Delivery, ToLeave;
      LeaveAfter(Next(s, es[0]), es[1..]);
    }
  }

  /** Stopping ends the loop: once stop has been set it takes at most three steps for
      each envelope in the mailbox or accepted later, and four more, and until it
      has ended it can always take one, as long as handlers return. */
  lemma StopEnds(s0: State, es0: seq<Event>, es: seq<Event>)
    requires Init(s0) && IsRun(s0, es0) && SetStop in es0 && IsRun(After(s0, es0), es)
    ensures var s := After(s0, es0); var z := After(s, es);
      && LoopSteps(es) <= 4 + 3 * |s.mailbox| + 3 * (|z.accepted| - |s.accepted|)
      && (z.phase != Done <==> exists e :: IsLoopStep(e) && Enabled(z, e))
  {
    var s := After(s0, es0);
    var z := After(s, es);
    FlagsFollow(s0, es0, 0);
    InitProtocol(s0);
    DeliveryAfter(s0, es0);
    DeliveryAfter(s, es);
    LeaveAfter(s, es);
    assert z.phase != Done ==> z.ownSender;
    assert ToLeave(s.phase) <= 4;
    hide Delivery, IsRun, After, LoopSteps, Init, ToLeave, Enabled;
    LoopCanStep(z);
  }

  lemma LoopCanStep(z: State)
    requires z.phase != Done ==> z.ownSender
    ensures z.phase != Done <==> exists e :: IsLoopStep(e) && Enabled(z, e)
  {
    hide Unread;
    match z.phase
    case Checking => assert Enabled(z, LoadStop);
    case Draining => assert Enabled(z, TryRecv);
    case Receiving => assert Enabled(z, if z.mailbox != [] then Recv else Timeout);
    case Handling(_, _) => assert Enabled(z, EndHandler);
    case Leaving => assert Enabled(z, DropReceiver);
    case Done =>
  }
}
