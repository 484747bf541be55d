/** The mailbox object, updated in place under its lock. A call that has to wait
    is split at `wait`: one method up to it, one from each wakeup on. */
module MailboxObjects {
  import opened Basics
  import opened Mailboxes

  datatype SendResult = Sent | MailboxFull | Waits

  class Mailbox {
    const capacity: nat
    const policy: Policy
    var queue: seq<Msg>
    var blocked: map<Caller, Msg>
    var hungry: set<Caller>
    var notified: set<Caller>
    ghost var accepted: seq<Msg>
    ghost var removed: seq<Msg>
    ghost var received: seq<Msg>
    ghost var dropped: seq<Msg>

    ghost function Abs(): State
      reads this
    {
      State(capacity, policy, queue, blocked, hungry, notified, accepted, removed, received, dropped)
    }

    constructor (capacity: nat, policy: Policy)
      ensures Init(Abs()) && this.capacity == capacity && this.policy == policy
    {
      this.capacity, this.policy := capacity, policy;
      queue, blocked, hungry, notified := [], map[], {}, {};
      accepted, removed, received, dropped := [], [], [], [];
    }

    /** `notify_one`: `pick` is the system's choice among the waiters that have not
        been picked yet, if there are any. */
    method NotifyOne(waiters: set<Caller>, pick: Option<Caller>)
      requires CanNotify(waiters, pick)
      modifies this`notified
      ensures notified == old(notified) + Woken(pick)
    {
      if waiters != {} {
        notified := notified + {pick.value};
      }
    }

    /** `send` up to its return or its first wait. */
    method SendMessage(c: Caller, m: Msg, pick: Option<Caller>) returns (result: SendResult)
      requires Enabled(Abs(), Send(c, m, pick))
      modifies this
      ensures Abs() == Next(old(Abs()), Send(c, m, pick))
      ensures result == Sent <==> accepted == old(accepted) + [m]
      ensures result == Waits <==> c in blocked
      ensures result == MailboxFull ==> old(|queue|) >= capacity && policy == Reject
    {
      if |queue| >= capacity {
        match policy {
          case Reject =>
            return MailboxFull;
          case Block =>
            blocked := blocked[c := m];
            return Waits;
          case DropLowPriority =>
            if queue != [] {
              dropped, removed := dropped + [queue[0]], removed + [queue[0]];
              queue := queue[1..];
            }
        }
      }
      queue := queue + [m];
      accepted := accepted + [m];
      NotifyOne(blocked.Keys + hungry - notified, pick);
      result := Sent;
    }

    /** `send` from a wakeup on: check again, wait again or push. */
    method Woke(c: Caller, pick: Option<Caller>, spurious: bool) returns (done: bool)
      requires Enabled(Abs(), ResumeSend(c, pick, spurious))
      modifies this
      ensures Abs() == Next(old(Abs()), ResumeSend(c, pick, spurious))
      ensures done <==> old(|queue|) < capacity
    {
      notified := notified - {c};
      if |queue| >= capacity {
        return false;
      }
      queue := queue + [blocked[c]];
      accepted := accepted + [blocked[c]];
      blocked := blocked - {c};
      assert blocked.Keys + (hungry - {c}) - notified == old(Waiting(Abs()) - notified - {c});
      NotifyOne(blocked.Keys + (hungry - {c}) - notified, pick);
      done := true;
    }

    /** `try_receive`, which is also what `receive` does each time it looks. */
    method PopFront() returns (m: Option<Msg>)
      modifies this
      ensures Abs() == if old(queue) == [] then old(Abs()) else Pop(old(Abs()))
      ensures m == if old(queue) == [] then None else Some(old(queue)[0])
    {
      if queue == [] {
        return None;
      }
      m := Some(queue[0]);
      removed, received := removed + [queue[0]], received + [queue[0]];
      queue := queue[1..];
    }

    /** `receive` up to its return or its first wait. */
    method ReceiveMessage(c: Caller) returns (m: Option<Msg>)
      requires c !in Waiting(Abs())
      modifies this
      ensures Abs() == Next(old(Abs()), Receive(c))
      ensures m == if old(queue) == [] then None else Some(old(queue)[0])
    {
      m := PopFront();
      if m == None {
        hungry := hungry + {c};
      }
    }

    /** `receive` from a wakeup on. */
    method WokeToReceive(c: Caller, spurious: bool) returns (m: Option<Msg>)
      requires c in hungry && (spurious || c in notified)
      modifies this
      ensures Abs() == Next(old(Abs()), ResumeReceive(c, spurious))
      ensures m == if old(queue) == [] then None else Some(old(queue)[0])
    {
      notified := notified - {c};
      m := PopFront();
      if m != None {
        hungry := hungry - {c};
      }
    }

    /** Whatever interleaving callers and wakeups produce, the object follows it. */
    method Perform(schedule: seq<Event>)
      requires IsRun(Abs(), schedule)
      modifies this
      ensures Abs() == After(old(Abs()), schedule)
    {
      for k := 0 to |schedule|
        invariant IsRun(Abs(), schedule[k..]) && After(Abs(), schedule[k..]) == After(old(Abs()), schedule)
      {
        assert schedule[k..][0] == schedule[k] && schedule[k..][1..] == schedule[k + 1..];
        hide CanNotify;
        match schedule[k]
        case Send(c, m, pick) =>
          var _ := SendMessage(c, m, pick);
        case ResumeSend(c, pick, spurious) =>
          var _ := Woke(c, pick, spurious);
        case Receive(c) =>
          var _ := ReceiveMessage(c);
        case ResumeReceive(c, spurious) =>
          var _ := WokeToReceive(c, spurious);
        case TryReceive =>
          var _ := PopFront();
      }
    }
  }
}
