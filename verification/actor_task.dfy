/** An actor's task and mailbox as one object updated in place: the sending side
    of the runtime, the loop, and the context's reply slot. */
module ActorTasks {
  import opened Basics
  import opened ActorLoop

  class ActorTask {
    const capacity: nat
    var mailbox: seq<Envelope>
    var phase: Phase
    var slot: Option<RequestId>
    var stop: bool
    var registered: bool
    var ownSender: bool
    var nextRequest: RequestId
    var replies: seq<Reply>         // everything put into reply channels
    var received: seq<RequestId>
    var closed: set<RequestId>
    ghost var accepted: seq<Envelope>
    ghost var consumed: seq<Envelope>
    ghost var lost: seq<Envelope>
    ghost var drainedAt: nat
    ghost var calls: seq<Envelope>  // handler invocations so far
    var handled: nat                // envelopes taken so far

    ghost function Abs(): State
      reads this
    {
      State(capacity, mailbox, phase, slot, stop, registered, ownSender, nextRequest,
            accepted, consumed, lost, drainedAt, replies, received, closed)
    }

    ghost predicate Valid()
      reads this
    {
      handled == |consumed| && OwnSlot(Abs()) && calls == TypedOnes(consumed)
    }

    constructor (capacity: nat)
      ensures Valid() && Init(Abs()) && this.capacity == capacity
    {
      this.capacity := capacity;
      mailbox, phase, slot, stop, registered, ownSender := [], Checking, None, false, true, true;
      nextRequest, replies, received, closed, handled := 0, [], [], {}, 0;
      accepted, consumed, lost, drainedAt, calls := [], [], [], 0, [];
    }

    /** The lookup and `try_send` shared by `send` and `request`. */
    method TrySend(env: Envelope) returns (outcome: SendOutcome)
      requires Valid()
      modifies this`mailbox, this`accepted
      ensures Valid() && outcome == OutcomeOf(old(Abs()))
      ensures Abs() == if outcome == Accepted then Push(old(Abs()), env) else old(Abs())
    {
      if !registered {
        return ActorNotFound;
      }
      if phase == Done {
        return RuntimeStopped;
      }
      if |mailbox| >= capacity {
        return MailboxFull;
      }
      mailbox := mailbox + [env];
      accepted := accepted + [env];
      return Accepted;
    }

    /** `send` */
    method SendMessage(payload: Payload, typed: bool) returns (outcome: SendOutcome)
      requires Valid()
      modifies this
      ensures Valid() && outcome == OutcomeOf(old(Abs()))
      ensures Abs() == Next(old(Abs()), Event.Send(payload, typed))
    {
      outcome := TrySend(Message(payload, typed));
    }

    /** `request`: the id is drawn whether or not the mailbox accepts. */
    method Request(payload: Payload, typed: bool) returns (outcome: SendOutcome, id: RequestId)
      requires Valid()
      modifies this
      ensures Valid() && outcome == OutcomeOf(old(Abs())) && id == old(nextRequest)
      ensures Abs() == Next(old(Abs()), Ask(payload, typed))
    {
      id := nextRequest;
      nextRequest := nextRequest + 1;
      outcome := TrySend(Envelope.Request(id, payload, typed));
    }

    /** `send_blocking`, when it does not have to wait. */
    method SendBlocking(payload: Payload, typed: bool) returns (outcome: SendOutcome)
      requires Valid() && Enabled(Abs(), Event.SendBlocking(payload, typed))
      modifies this
      ensures Valid() && outcome == OutcomeOf(old(Abs()))
      ensures Abs() == Next(old(Abs()), Event.SendBlocking(payload, typed))
    {
      outcome := TrySend(Message(payload, typed));
    }

    /** A request's handle takes the oldest reply not taken yet. */
    method TakeReply(id: RequestId) returns (value: Payload)
      requires Valid() && Enabled(Abs(), Event.TakeReply(id))
      modifies this`received
      ensures Valid() && Abs() == Next(old(Abs()), Event.TakeReply(id))
      ensures old(multiset(received)[id] < |ValuesFor(replies, id)|)
      ensures value == old(ValuesFor(replies, id)[multiset(received)[id]])
    {
      value := ValuesFor(replies, id)[multiset(received)[id]];
      received := received + [id];
    }

    /** A request's handle is dropped. */
    method CloseHandle(id: RequestId)
      requires Valid() && id < nextRequest
      modifies this`closed
      ensures Valid() && Abs() == Next(old(Abs()), Event.CloseHandle(id))
    {
      closed := closed + {id};
    }

    method Unregister()
      requires Valid()
      modifies this`registered
      ensures Valid() && Abs() == Next(old(Abs()), Event.Unregister)
    {
      registered := false;
    }

    method SetStop()
      requires Valid()
      modifies this`stop
      ensures Valid() && Abs() == Next(old(Abs()), Event.SetStop)
    {
      stop := true;
    }

    /** Take the next envelope, set the reply slot and enter the handler, or skip
        the envelope when its type is wrong. */
    method TakeNext()
      requires Valid() && mailbox != []
      modifies this
      ensures Valid() && Abs() == Take(old(Abs()))
    {
      hide Unread, TypedOnes;
      var env, index := mailbox[0], handled;
      TypedSnoc(consumed, env);
      mailbox, consumed, handled := mailbox[1..], consumed + [env], handled + 1;
      if env.typed {
        slot := match env case Message(_, _) => None case Request(id, _, _) => Some(id);
        phase, calls := Handling(env, index), calls + [env];
      } else {
        phase := Checking;
      }
    }

    /** Top of the loop. */
    method CheckStop()
      requires Valid() && phase == Checking
      modifies this`phase
      ensures Valid() && Abs() == Next(old(Abs()), LoadStop)
    {
      phase := if stop then Draining else Receiving;
    }

    /** The stop branch: handle what is left, leave when nothing is. */
    method Drain()
      requires Valid() && phase == Draining
      modifies this
      ensures Valid() && Abs() == Next(old(Abs()), TryRecv)
    {
      if mailbox == [] {
        phase := Leaving;
        drainedAt := |accepted|;
      } else {
        TakeNext();
      }
    }

    /** `recv_timeout` in the normal branch. */
    method Receive()
      requires Valid() && phase == Receiving
      modifies this
      ensures Valid()
      ensures Abs() == Next(old(Abs()), if old(mailbox) != [] then Recv
                                        else if old(registered || ownSender) then Timeout else Disconnect)
    {
      if mailbox != [] {
        TakeNext();
      } else if registered || ownSender {
        phase := Checking;
      } else {
        phase := Leaving;
        drainedAt := |accepted|;
      }
    }

    /** `is_request`: inside a handler it is true exactly if the envelope being
        handled is a request, although one slot serves all envelopes. */
    method IsRequest() returns (r: bool)
      requires Valid()
      ensures r <==> slot.Some?
      ensures phase.Handling? ==> phase.index < |consumed| && (r <==> consumed[phase.index].Request?)
    {
      r := slot != None;
    }

    /** `reply` from inside a handler; false if the requester's handle is gone. */
    method SendReplyTo(value: Payload) returns (ok: bool)
      requires Valid() && Enabled(Abs(), SendReply(value))
      modifies this`replies
      ensures Valid() && Abs() == Next(old(Abs()), SendReply(value))
      ensures ok <==> slot.Some? ==> slot.value !in closed
      ensures slot == None ==> replies == old(replies)
    {
      if slot == None {
        return true;
      }
      if slot.value in closed {
        return false;
      }
      replies := replies + [Reply(slot.value, value, phase.index)];
      return true;
    }

    method FinishHandler()
      requires Valid() && phase.Handling?
      modifies this`phase
      ensures Valid() && Abs() == Next(old(Abs()), EndHandler)
    {
      phase := Checking;
    }

    /** The task ends: its receiver goes, and with it whatever arrived late. */
    method Finish()
      requires Valid() && phase == Leaving
      modifies this
      ensures Valid() && Abs() == Next(old(Abs()), DropReceiver)
    {
      lost := mailbox;
      mailbox := [];
      ownSender := false;
      phase := Done;
    }

    /** One round of the stop branch with a non-empty mailbox. */
    method DrainOne()
      requires Valid() && phase == Draining && stop && mailbox != []
      modifies this
      ensures Valid() && phase == Draining && stop
      ensures consumed == old(consumed) + [old(mailbox)[0]] && mailbox == old(mailbox)[1..]
    {
      hide Unread, TypedOnes, OwnSlot;
      ghost var env := mailbox[0];
      Drain();
      assert phase == if env.typed then Handling(env, old(handled)) else Checking;
      if phase != Checking {
        FinishHandler();
      }
      CheckStop();
    }

    /** The last round, which finds the mailbox empty. */
    method LeaveLoop()
      requires Valid() && phase == Draining && mailbox == []
      modifies this
      ensures Valid() && phase == Done && consumed == old(consumed) && mailbox == [] && lost == []
    {
      hide Unread;
      Drain();
      Finish();
    }

    /** The shutdown path of the loop, run without interference: it takes every
        envelope in the mailbox, in order, calls the handler for those of the right
        type, and leaves. */
    method DrainAll()
      requires Valid() && stop && phase == Checking
      modifies this
      ensures Valid() && phase == Done
      ensures consumed == old(consumed + mailbox) && mailbox == [] && lost == []
      ensures calls == TypedOnes(old(consumed + mailbox))
    {
      hide Unread;
      CheckStop();
      ghost var all := consumed + mailbox;
      while mailbox != []
        invariant Valid() && phase == Draining && stop && consumed + mailbox == all
        decreases |mailbox|
      {
        assert mailbox == [mailbox[0]] + mailbox[1..];
        DrainOne();
      }
      LeaveLoop();
    }

    /** One event of the loop itself. */
    method LoopStep(e: Event)
      requires Valid() && Enabled(Abs(), e)
      requires e.LoadStop? || e.TryRecv? || e.Recv? || e.Timeout? || e.Disconnect?
               || e.SendReply? || e.EndHandler? || e.DropReceiver?
      modifies this
      ensures Valid() && Abs() == Next(old(Abs()), e)
    {
      hide Unread;
      match e
      case LoadStop => CheckStop();
      case TryRecv => Drain();
      case Recv => Receive();
      case Timeout => Receive();
      case Disconnect => Receive();
      case SendReply(value) =>
        var _ := SendReplyTo(value);
      case EndHandler => FinishHandler();
      case DropReceiver => Finish();
    }

    /** One event of anybody. */
    method Step(e: Event)
      requires Valid() && Enabled(Abs(), e)
      modifies this
      ensures Valid() && Abs() == Next(old(Abs()), e)
    {
      hide Unread;
      match e
      case Send(payload, typed) =>
        var _ := SendMessage(payload, typed);
      case SendBlocking(payload, typed) =>
        var _ := SendBlocking(payload, typed);
      case Ask(payload, typed) =>
        var _, _ := Request(payload, typed);
      case TakeReply(id) =>
        var _ := TakeReply(id);
      case CloseHandle(id) => CloseHandle(id);
      case Unregister => Unregister();
      case SetStop => SetStop();
      case _ => LoopStep(e);
    }

    /** Whatever senders, handles and loop interleave, the object follows it. */
    method Perform(schedule: seq<Event>)
      requires Valid() && IsRun(Abs(), schedule)
      modifies this
      ensures Valid() && Abs() == After(old(Abs()), schedule)
    {
      for k := 0 to |schedule|
        invariant Valid() && IsRun(Abs(), schedule[k..]) && After(Abs(), schedule[k..]) == After(old(Abs()), schedule)
      {
        assert schedule[k..][0] == schedule[k] && schedule[k..][1..] == schedule[k + 1..];
        Step(schedule[k]);
      }
    }
  }
}
