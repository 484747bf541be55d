/** Who in the mailbox can still be woken. One condition variable serves both
    sides and only a push notifies it, so a waiting caller depends on the wakeups
    that are pending. */
module MailboxWakeups {
  import opened Basics
  import opened Tallies
  import opened Mailboxes

  /** Nobody new sends, and nobody wakes without having been notified. */
  predicate Calm(e: Event) {
    match e
    case Send(_, _, _) => false
    case ResumeSend(_, _, spurious) => !spurious
    case ResumeReceive(_, spurious) => !spurious
    case _ => true
  }

  predicate Undisturbed(es: seq<Event>) {
    forall e | e in es :: Calm(e)
  }

  /** A blocked sender has been notified, and some capacity can be free for it. */
  predicate PushPending(s: State) {
    s.capacity >= 1 && s.blocked.Keys * s.notified != {}
  }

  /** A message is queued for a receiver that has been notified. */
  predicate ServicePending(s: State, c: Caller) {
    s.queue != [] && c in s.notified
  }

  // ----- Without a pending push nobody is woken any more -----

  lemma StuckNext(s: State, e: Event)
    requires Enabled(s, e) && Calm(e) && !PushPending(s)
    ensures var t := Next(s, e);
      !PushPending(t) && t.blocked == s.blocked && t.accepted == s.accepted && t.notified <= s.notified
      && (forall c | c in s.hungry && !ServicePending(s, c) :: c in t.hungry && !ServicePending(t, c))
  {
    hide CanNotify;
    if e.ResumeSend? {
      assert e.c in s.blocked.Keys * s.notified;
    }
  }

  lemma {:induction false} WaitersStuck(s: State, es: seq<Event>)
    requires IsRun(s, es) && Undisturbed(es) && !PushPending(s)
    ensures After(s, es).blocked == s.blocked && After(s, es).accepted == s.accepted
    ensures forall c | c in s.hungry && !ServicePending(s, c) :: c in After(s, es).hungry
    decreases |es|
  {
    if es != [] {
      assert es[0] in es;
      StuckNext(s, es[0]);
      WaitersStuck(Next(s, es[0]), es[1..]);
    }
  }

  // ----- With one, any waiting caller may be next -----

  lemma Then(s: State, es: seq<Event>, e: Event) returns (r: seq<Event>)
    requires IsRun(s, es) && Undisturbed(es) && Enabled(After(s, es), e) && Calm(e)
    ensures IsRun(s, r) && Undisturbed(r) && After(s, r) == Next(After(s, es), e)
  {
    Extend(s, es, e);
    r := es + [e];
  }

  /** The two states differ at most in messages received. */
  predicate SameWaiters(s: State, t: State) {
    && t.capacity == s.capacity && t.policy == s.policy && t.blocked == s.blocked
    && t.hungry == s.hungry && t.notified == s.notified
  }

  /** Receiving makes room in a queue that may hold anything. */
  lemma MakeRoom(s: State, es: seq<Event>) returns (r: seq<Event>)
    requires IsRun(s, es) && Undisturbed(es) && After(s, es).capacity >= 1
    ensures IsRun(s, r) && Undisturbed(r) && SameWaiters(After(s, es), After(s, r)) && !Full(After(s, r))
  {
    r := es;
    while Full(After(s, r))
      invariant IsRun(s, r) && Undisturbed(r) && SameWaiters(After(s, es), After(s, r))
      decreases |After(s, r).queue|
    {
      r := Then(s, r, TryReceive);
    }
  }

  lemma SomePick(candidates: set<Caller>) returns (woken: Option<Caller>)
    ensures CanNotify(candidates, woken)
  {
    if candidates == {} {
      woken := None;
    } else {
      var c :| c in candidates;
      woken := Some(c);
    }
  }

  /** The notified sender d pushes and, if c is not notified yet, wakes c. */
  lemma PassOn(s: State, d: Caller, c: Caller) returns (r: seq<Event>)
    requires s.capacity >= 1 && d in s.blocked && d in s.notified && c in Waiting(s) && c != d
    ensures IsRun(s, r) && Undisturbed(r)
    ensures var z := After(s, r);
      && z.capacity == s.capacity && z.queue != [] && c in z.notified
      && z.blocked == s.blocked - {d} && z.hungry == s.hungry
  {
    r := [];
    assert IsRun(s, r) && After(s, r) == s;
    r := MakeRoom(s, r);
    var z := After(s, r);
    var woken;
    if c in z.notified {
      woken := SomePick(Waiting(z) - z.notified - {d});
    } else {
      woken := Some(c);
    }
    r := Then(s, r, ResumeSend(d, woken, false));
  }

  lemma SenderWakes(s: State, c: Caller) returns (r: seq<Event>)
    requires PushPending(s) && c in s.blocked
    ensures IsRun(s, r) && Undisturbed(r) && c !in After(s, r).blocked
  {
    r := [];
    assert IsRun(s, r) && After(s, r) == s;
    if c !in s.notified {
      var d :| d in s.blocked.Keys * s.notified;
      r := PassOn(s, d, c);
    }
    hide IsRun, After;
    r := MakeRoom(s, r);
    var z := After(s, r);
    var woken := SomePick(Waiting(z) - z.notified - {c});
    r := Then(s, r, ResumeSend(c, woken, false));
  }

  lemma ReceiverWakes(s: State, c: Caller) returns (r: seq<Event>)
    requires PushPending(s) || ServicePending(s, c)
    requires c in s.hungry && c !in s.blocked
    ensures IsRun(s, r) && Undisturbed(r) && c !in After(s, r).hungry
  {
    r := [];
    assert IsRun(s, r) && After(s, r) == s;
    if !ServicePending(s, c) {
      var d :| d in s.blocked.Keys * s.notified;
      r := PassOn(s, d, c);
    }
    hide IsRun, After;
    r := Then(s, r, ResumeReceive(c, false));
  }

  /** When a blocked sender can go on, exactly: without new sends and spurious
      wakeups some run lets it push if and only if the mailbox has any capacity
      and some blocked sender, not necessarily this one, has been notified. What
      is received meanwhile, and how much room that makes, is irrelevant. */
  lemma BlockedSenderWakesIff(s: State, c: Caller)
    requires c in s.blocked
    ensures (exists es :: IsRun(s, es) && Undisturbed(es) && c !in After(s, es).blocked)
            <==> s.capacity >= 1 && exists d :: d in s.blocked && d in s.notified
  {
    if PushPending(s) {
      var es := SenderWakes(s, c);
      var d :| d in s.blocked.Keys * s.notified;
      assert d in s.blocked && d in s.notified;
    } else {
      forall d | d in s.blocked && d in s.notified ensures s.capacity == 0 {
        assert d in s.blocked.Keys * s.notified;
      }
      forall es | IsRun(s, es) && Undisturbed(es) ensures c in After(s, es).blocked {
        WaitersStuck(s, es);
      }
    }
  }

  /** The same for a waiting receiver: it can be served if and only if it has been
      notified and a message is queued, or a blocked sender can still push. */
  lemma WaitingReceiverWakesIff(s: State, c: Caller)
    requires c in s.hungry && c !in s.blocked
    ensures (exists es :: IsRun(s, es) && Undisturbed(es) && c !in After(s, es).hungry)
            <==> || (c in s.notified && s.queue != [])
                 || (s.capacity >= 1 && exists d :: d in s.blocked && d in s.notified)
  {
    if PushPending(s) {
      var d :| d in s.blocked.Keys * s.notified;
      assert d in s.blocked && d in s.notified;
    } else {
      forall d | d in s.blocked && d in s.notified ensures s.capacity == 0 {
        assert d in s.blocked.Keys * s.notified;
      }
    }
    if PushPending(s) || ServicePending(s, c) {
      var es := ReceiverWakes(s, c);
    } else {
      forall es | IsRun(s, es) && Undisturbed(es) ensures c in After(s, es).hungry {
        WaitersStuck(s, es);
      }
    }
  }

  // ----- Which mailboxes can get stuck -----

  /** There is room, and yet no blocked sender wakes until somebody sends again. */
  predicate SendersForgotten(s: State) {
    s.blocked != map[] && !Full(s) && !PushPending(s)
  }

  /** A message is queued, a receiver waits, and nobody has been notified. */
  predicate ReceiversForgotten(s: State) {
    s.queue != [] && s.hungry != {} && s.notified == {}
  }

  /** Other policies never block, and as many receivers are awake as messages are
      queued while any other receiver waits. */
  predicate Prompt(s: State) {
    && s.policy != Block && s.blocked == map[] && s.notified <= s.hungry
    && (s.hungry - s.notified != {} ==> |s.queue| <= |s.notified|)
  }

  /** One more message at most, and one more receiver awake if any slept. */
  lemma PromptPush(s: State, t: State, woken: Option<Caller>)
    requires Prompt(s) && CanNotify(s.hungry - s.notified, woken)
    requires t.policy == s.policy && t.blocked == s.blocked && t.hungry == s.hungry
    requires t.notified == s.notified + Woken(woken) && |t.queue| <= |s.queue| + 1
    ensures Prompt(t)
  {
    if s.hungry - s.notified != {} {
      assert t.notified == s.notified + {woken.value};
      assert |t.notified| == |s.notified| + 1;
    }
  }

  lemma PromptServe(s: State, c: Caller, spurious: bool)
    requires Enabled(s, ResumeReceive(c, spurious)) && Prompt(s)
    ensures Prompt(Next(s, ResumeReceive(c, spurious)))
  {
    var t := Next(s, ResumeReceive(c, spurious));
    if c in s.notified {
      assert |t.notified| == |s.notified| - 1;
    } else {
      assert t.notified == s.notified;
    }
  }

  /** What a pushing send changes, as far as the waiting callers can tell. */
  lemma PushChanges(s: State, c: Caller, m: Msg, woken: Option<Caller>)
    requires Enabled(s, Send(c, m, woken)) && Pushes(s, Send(c, m, woken))
    ensures var t := Next(s, Send(c, m, woken));
      && t.policy == s.policy && t.blocked == s.blocked && t.hungry == s.hungry
      && t.notified == s.notified + Woken(woken) && |t.queue| <= |s.queue| + 1
    ensures CanNotify(Waiting(s) - s.notified, woken)
  {
    hide CanNotify, Waiting, Woken;
  }

  lemma PromptSend(s: State, c: Caller, m: Msg, woken: Option<Caller>)
    requires Enabled(s, Send(c, m, woken)) && Prompt(s)
    ensures Prompt(Next(s, Send(c, m, woken)))
  {
    if Pushes(s, Send(c, m, woken)) {
      PushChanges(s, c, m, woken);
      assert Waiting(s) - s.notified == s.hungry - s.notified;
      hide Prompt, CanNotify, Next, Enabled, Woken;
      PromptPush(s, Next(s, Send(c, m, woken)), woken);
    } else {
      assert Next(s, Send(c, m, woken)) == s;
    }
  }

  lemma PromptNext(s: State, e: Event)
    requires Enabled(s, e) && Prompt(s)
    ensures Prompt(Next(s, e))
  {
    match e
    case Send(c, m, woken) =>
      hide *;
      PromptSend(s, c, m, woken);
    case ResumeReceive(c, spurious) =>
      hide *;
      PromptServe(s, c, spurious);
    case ResumeSend(_, _, _) => assert false;
    case _ => hide CanNotify;
  }

  lemma {:induction false} PromptAfter(s: State, es: seq<Event>)
    requires IsRun(s, es) && Prompt(s)
    ensures Prompt(After(s, es))
    decreases |es|
  {
    if es != [] {
      PromptNext(s, es[0]);
      PromptAfter(Next(s, es[0]), es[1..]);
    }
  }

  /** A blocking mailbox of capacity n by what its callers can see of each other. */
  predicate Shape(s: State, n: nat, len: nat, blocked: set<Caller>, hungry: set<Caller>, notified: set<Caller>) {
    && s.capacity == n && s.policy == Block && |s.queue| == len
    && s.blocked.Keys == blocked && s.hungry == hungry && s.notified == notified
  }

  lemma Fill(n: nat) returns (es: seq<Event>)
    ensures IsRun(Fresh(n, Block), es) && Shape(After(Fresh(n, Block), es), n, n, {}, {}, {})
  {
    var s := Fresh(n, Block);
    es := [];
    assert IsRun(s, es) && After(s, es) == s;
    hide IsRun, After;
    for i := 0 to n
      invariant IsRun(s, es) && Shape(After(s, es), n, i, {}, {}, {})
    {
      Extend(s, es, Send(n, 0, None));
      es := es + [Send(n, 0, None)];
    }
  }

  lemma BlockOne(s: State, n: nat, i: nat)
    requires i < n && Shape(s, n, n, Below(i), {}, {})
    ensures Enabled(s, Send(i, 0, None)) && Shape(Next(s, Send(i, 0, None)), n, n, Below(i + 1), {}, {})
  {
    hide Below;
    assert Below(i + 1) == Below(i) + {i} by {
      assert forall c: Caller :: c in Below(i + 1) <==> c in Below(i) || c == i;
    }
  }

  /** Fill the queue, then block the senders 0 to k - 1. */
  lemma FillAndBlock(n: nat, k: nat) returns (es: seq<Event>)
    requires k <= n
    ensures IsRun(Fresh(n, Block), es) && Shape(After(Fresh(n, Block), es), n, n, Below(k), {}, {})
  {
    var s := Fresh(n, Block);
    es := Fill(n);
    assert Below(0) == {};
    hide IsRun, After, Below, Next, Enabled, Shape;
    for i := 0 to k
      invariant IsRun(s, es) && Shape(After(s, es), n, n, Below(i), {}, {})
    {
      BlockOne(After(s, es), n, i);
      Extend(s, es, Send(i, 0, None));
      es := es + [Send(i, 0, None)];
    }
  }

  /** Drain the queue and let a receiver find it empty. */
  lemma DrainAndWait(n: nat) returns (es: seq<Event>)
    ensures IsRun(Fresh(n, Block), es) && Shape(After(Fresh(n, Block), es), n, 0, Below(n), {n + 1}, {})
  {
    var s := Fresh(n, Block);
    es := FillAndBlock(n, n);
    hide IsRun, After, Below;
    for i := 0 to n
      invariant IsRun(s, es) && Shape(After(s, es), n, n - i, Below(n), {}, {})
    {
      Extend(s, es, TryReceive);
      es := es + [TryReceive];
    }
    Extend(s, es, Receive(n + 1));
    es := es + [Receive(n + 1)];
  }

  lemma WakeOne(s: State, n: nat, i: nat)
    requires i < n && Shape(s, n, i, Below(n), {n + 1}, Below(i))
    ensures Enabled(s, Send(n, 0, Some(i)))
    ensures Shape(Next(s, Send(n, 0, Some(i))), n, i + 1, Below(n), {n + 1}, Below(i + 1))
  {
    hide Below;
    assert i in Waiting(s) - s.notified;
    assert Below(i + 1) == Below(i) + {i} by {
      assert forall c: Caller :: c in Below(i + 1) <==> c in Below(i) || c == i;
    }
  }

  /** Then send again: each send wakes another blocked sender, none the receiver. */
  lemma WakeTheSenders(n: nat) returns (es: seq<Event>)
    ensures IsRun(Fresh(n, Block), es) && Shape(After(Fresh(n, Block), es), n, n, Below(n), {n + 1}, Below(n))
  {
    var s := Fresh(n, Block);
    es := DrainAndWait(n);
    assert Below(0) == {};
    hide IsRun, After, Below, Next, Enabled, Shape;
    for i := 0 to n
      invariant IsRun(s, es) && Shape(After(s, es), n, i, Below(n), {n + 1}, Below(i))
    {
      WakeOne(After(s, es), n, i);
      Extend(s, es, Send(n, 0, Some(i)));
      es := es + [Send(n, 0, Some(i))];
    }
  }

  /** The woken senders find the queue full again and go back to sleep. */
  lemma ReceiverSleeps(n: nat) returns (es: seq<Event>)
    ensures IsRun(Fresh(n, Block), es) && Shape(After(Fresh(n, Block), es), n, n, Below(n), {n + 1}, {})
  {
    var s := Fresh(n, Block);
    es := WakeTheSenders(n);
    hide IsRun, After, Below;
    for i := 0 to n
      invariant IsRun(s, es) && Shape(After(s, es), n, n, Below(n), {n + 1}, Below(n) - Below(i))
    {
      var e := ResumeSend(i, None, false);
      Extend(s, es, e);
      es := es + [e];
      assert Below(n) - Below(i + 1) == Below(n) - Below(i) - {i};
    }
    assert Below(n) - Below(n) == {};
  }

  /** `Block` does not wait until space is available: a mailbox can come to have
      room while all its blocked senders sleep until somebody sends again, exactly
      if its policy is Block and its capacity is not zero. */
  lemma SendersForgottenIff(capacity: nat, policy: Policy)
    ensures (exists es :: IsRun(Fresh(capacity, policy), es) && SendersForgotten(After(Fresh(capacity, policy), es)))
            <==> policy == Block && capacity >= 1
  {
    var s := Fresh(capacity, policy);
    if policy == Block && capacity >= 1 {
      var es := FillAndBlock(capacity, 1);
      Extend(s, es, TryReceive);
      assert SendersForgotten(After(s, es + [TryReceive])) by {
        assert 0 in Below(1);
      }
    } else {
      forall es | IsRun(s, es) ensures !SendersForgotten(After(s, es)) {
        if policy != Block {
          PromptAfter(s, es);
        } else {
          LedgerAfter(s, es);
        }
      }
    }
  }

  /** Nor does a waiting receiver always get a queued message: both can be there
      with nobody notified, exactly if the policy is Block and the capacity is not
      zero. */
  lemma ReceiversForgottenIff(capacity: nat, policy: Policy)
    ensures (exists es :: IsRun(Fresh(capacity, policy), es) && ReceiversForgotten(After(Fresh(capacity, policy), es)))
            <==> policy == Block && capacity >= 1
  {
    var s := Fresh(capacity, policy);
    if policy == Block && capacity >= 1 {
      var es := ReceiverSleeps(capacity);
      assert ReceiversForgotten(After(s, es));
    } else {
      forall es | IsRun(s, es) ensures !ReceiversForgotten(After(s, es)) {
        if policy != Block {
          PromptAfter(s, es);
        } else {
          LedgerAfter(s, es);
        }
      }
    }
  }
}
