/** What every run of the compute pool keeps: one outcome per task, decided by
    the two samples of its cancel flag and by nothing else. */
module ComputeLaws {
  import opened Basics
  import opened Tallies
  import opened Compute
  import opened ComputeHandles

  /** The result r of task t is the one its samples and its job call for. */
  predicate Verdict(s: State, t: TaskId, r: ComputeResult) {
    t in s.firsts &&
    if s.firsts[t] then r == Cancelled && t !in s.ends && t !in s.seconds
    else t in s.ends && t in s.seconds && r == if s.seconds[t] then Cancelled else ResultOf(s.ends[t])
  }

  predicate Untouched(s: State, t: TaskId) {
    t !in s.firsts && t !in s.ends && t !in s.seconds
  }

  /** What a worker holding a task has recorded about it. */
  predicate Stage(s: State, p: Phase) {
    match p
    case Took(t) => Untouched(s, t)
    case Working(t) => t in s.firsts && !s.firsts[t] && t !in s.ends && t !in s.seconds
    case Worked(t, end) => t in s.firsts && !s.firsts[t] && t in s.ends && s.ends[t] == end && t !in s.seconds
    case Sending(t, r) => Verdict(s, t, r)
    case _ => true
  }

  ghost predicate Staged(s: State) {
    && (forall w | 0 <= w < |s.workers| :: Stage(s, s.workers[w]))
    && (forall k | 0 <= k < |s.sent| :: Verdict(s, s.sent[k].task, s.sent[k].result))
    && (forall t | t in s.queue || t in s.discarded || t in s.rejected || t >= s.nextId :: Untouched(s, t))
  }

  /** The started jobs are those whose first sample saw the flag unset, once each. */
  ghost predicate StartsMatch(started: seq<TaskId>, firsts: map<TaskId, bool>) {
    forall t: TaskId :: Occurs(started, t) == if t in firsts && !firsts[t] then 1 else 0
  }

  /** Samples that saw a set flag saw one that is still set. */
  predicate SampledFrom(samples: map<TaskId, bool>, flags: set<TaskId>) {
    forall t | t in samples && samples[t] :: t in flags
  }

  predicate TakenWereSent(taken: set<TaskId>, sent: seq<Sent>) {
    forall t | t in taken :: SentCount(sent, t) > 0
  }

  ghost predicate Recorded(s: State) {
    && StartsMatch(s.started, s.firsts)
    && SampledFrom(s.firsts, s.flags) && SampledFrom(s.seconds, s.flags)
    && TakenWereSent(s.taken, s.sent)
  }

  /** Only the last worker's leaving ends the queue. */
  ghost predicate Closing(s: State) {
    && (AllExited(s.workers) ==> s.queue == [])
    && (s.discarded != [] || s.rejected != [] ==> AllExited(s.workers))
  }

  ghost predicate Lawful(s: State) {
    Conserved(s) && Staged(s) && Recorded(s) && Closing(s)
  }

  /** A task in a worker's hands is nowhere else. */
  lemma Alone(s: State, w: nat, t: TaskId)
    requires Conserved(s) && w < |s.workers| && HeldBy(s.workers[w]) == [t]
    ensures t < s.nextId && t !in s.queue && t !in s.discarded && t !in s.rejected
    ensures forall k | 0 <= k < |s.sent| :: s.sent[k].task != t
    ensures forall u | 0 <= u < |s.workers| && u != w :: HeldBy(s.workers[u]) != [t]
  {
    assert Count(s, t) <= 1 && (Count(s, t) == 1 ==> t < s.nextId);
    TallyCovers(Hands(s.workers), |s.workers|, w, t);
    SentIn(s.sent, t);
    hide Occurs, SentCount;
    forall u | 0 <= u < |s.workers| && u != w ensures HeldBy(s.workers[u]) != [t] {
      if HeldBy(s.workers[u]) == [t] {
        TallyTwice(Hands(s.workers), |s.workers|, if u < w then u else w, if u < w then w else u, t);
      }
    }
    OccursIn(s.queue, t);
    OccursIn(s.discarded, t);
    OccursIn(s.rejected, t);
  }

  lemma OccursIn(q: seq<TaskId>, t: TaskId)
    ensures Occurs(q, t) > 0 <==> t in q
  {
  }

  /** Recording something about a held task disturbs no other task's record. */
  lemma StagedRecord(s: State, s': State, w: nat, t: TaskId)
    requires Conserved(s) && Staged(s) && w < |s.workers| && HeldBy(s.workers[w]) == [t]
    requires |s'.workers| == |s.workers| && forall u | 0 <= u < |s.workers| && u != w :: s'.workers[u] == s.workers[u]
    requires s'.queue == s.queue && s'.sent == s.sent && s'.nextId == s.nextId
    requires s'.discarded == s.discarded && s'.rejected == s.rejected
    requires forall x | x != t :: SameRecord(s, s', x)
    requires Stage(s', s'.workers[w])
    ensures Staged(s')
  {
    Alone(s, w, t);
    hide Conserved;
    forall u | 0 <= u < |s'.workers| ensures Stage(s', s'.workers[u]) {
      if u != w {
        assert Stage(s, s.workers[u]) && HeldBy(s.workers[u]) != [t];
        if HeldBy(s.workers[u]) != [] {
          assert SameRecord(s, s', HeldBy(s.workers[u])[0]);
        }
      }
    }
    forall k | 0 <= k < |s'.sent| ensures Verdict(s', s'.sent[k].task, s'.sent[k].result) {
      assert SameRecord(s, s', s.sent[k].task) && Verdict(s, s.sent[k].task, s.sent[k].result);
    }
    forall x | x in s'.queue || x in s'.discarded || x in s'.rejected || x >= s'.nextId ensures Untouched(s', x) {
      assert Untouched(s, x) && SameRecord(s, s', x);
    }
  }

  lemma StagedFirst(s: State, w: nat)
    requires Enabled(s, SampleFirst(w)) && Conserved(s) && Staged(s)
    ensures Staged(Next(s, SampleFirst(w)))
  {
    assert Stage(s, s.workers[w]);
    StagedRecord(s, Next(s, SampleFirst(w)), w, s.workers[w].task);
  }

  lemma StagedFinish(s: State, w: nat, end: JobEnd)
    requires Enabled(s, Finish(w, end)) && Conserved(s) && Staged(s)
    ensures Staged(Next(s, Finish(w, end)))
  {
    assert Stage(s, s.workers[w]);
    StagedRecord(s, Next(s, Finish(w, end)), w, s.workers[w].task);
  }

  lemma StagedSecond(s: State, w: nat)
    requires Enabled(s, SampleSecond(w)) && Conserved(s) && Staged(s)
    ensures Staged(Next(s, SampleSecond(w)))
  {
    assert Stage(s, s.workers[w]);
    StagedRecord(s, Next(s, SampleSecond(w)), w, s.workers[w].task);
  }

  /** Events that record nothing: phases change only to ones without a task. */
  lemma StagedMove(s: State, s': State)
    requires Staged(s)
    requires s'.firsts == s.firsts && s'.ends == s.ends && s'.seconds == s.seconds
    requires |s'.workers| == |s.workers|
    requires forall u | 0 <= u < |s.workers| :: s'.workers[u] == s.workers[u] || Stage(s, s'.workers[u])
    requires forall k | 0 <= k < |s'.sent| ::
               (k < |s.sent| && s'.sent[k] == s.sent[k]) || Verdict(s, s'.sent[k].task, s'.sent[k].result)
    requires forall x | x in s'.queue || x in s'.discarded || x in s'.rejected || x >= s'.nextId ::
               x in s.queue || x in s.discarded || x in s.rejected || x >= s.nextId
    ensures Staged(s')
  {
    forall u | 0 <= u < |s'.workers| ensures Stage(s', s'.workers[u]) {
      assert Stage(s, s.workers[u]);
    }
    forall x | x in s'.queue || x in s'.discarded || x in s'.rejected || x >= s'.nextId ensures Untouched(s', x) {
      assert Untouched(s, x);
    }
  }

  /** Events that leave every worker where it is. */
  lemma StagedOutside(s: State, e: Event)
    requires Enabled(s, e) && Staged(s) && IsOutside(e)
    ensures Staged(Next(s, e))
  {
    hide Staged, InSlot, AllExited, Verdict, Untouched, Note, Move;
    StagedMove(s, Next(s, e));
  }

  lemma StagedPlain(s: State, e: Event)
    requires Enabled(s, e) && Staged(s)
    requires !IsOutside(e) && !IsNoted(e) && !e.Receive? && !e.Send?
    ensures Staged(Next(s, e))
  {
    hide Staged, InSlot, AllExited, Verdict, Untouched, Note, Outside, Move, Enabled;
    StagedMove(s, Next(s, e));
  }

  lemma StagedNext(s: State, e: Event)
    requires Enabled(s, e) && Conserved(s) && Staged(s)
    ensures Staged(Next(s, e))
  {
    match e
    case SampleFirst(w) => StagedFirst(s, w);
    case Finish(w, end) => StagedFinish(s, w, end);
    case SampleSecond(w) => StagedSecond(s, w);
    case Receive(w) =>
      assert s.queue[0] in s.queue && Untouched(s, s.queue[0]);
      hide Staged, Conserved;
      StagedMove(s, Next(s, e));
    case Send(w) =>
      assert Stage(s, s.workers[w]);
      hide Staged, Conserved, InSlot;
      StagedMove(s, Next(s, e));
    case _ =>
      if IsOutside(e) {
        StagedOutside(s, e);
      } else {
        StagedPlain(s, e);
      }
  }

  /** Starting a job appends it to the started ones, and only that one. */
  lemma StartsSample(started: seq<TaskId>, firsts: map<TaskId, bool>, u: TaskId, flag: bool)
    requires u !in firsts && StartsMatch(started, firsts)
    ensures StartsMatch(if flag then started else started + [u], firsts[u := flag])
  {
    forall t: TaskId ensures Occurs(started + [u], t) == Occurs(started, t) + (if t == u then 1 else 0) {
      OccursConcat(started, [u], t);
    }
    hide Occurs;
  }

  lemma RecordedSample(s: State, w: nat)
    requires Enabled(s, SampleFirst(w)) && Staged(s) && Recorded(s)
    ensures Recorded(Next(s, SampleFirst(w)))
  {
    assert Stage(s, s.workers[w]);
    var u := s.workers[w].task;
    var r := Next(s, SampleFirst(w));
    StartsSample(s.started, s.firsts, u, u in s.flags);
    assert r.firsts == s.firsts[u := u in s.flags];
    assert r.started == if u in s.flags then s.started else s.started + [u];
    hide Staged, Stage, StartsMatch, TakenWereSent, Note, Next, Enabled;
  }

  lemma RecordedNote(s: State, e: Event)
    requires Enabled(s, e) && Recorded(s) && (e.Finish? || e.SampleSecond?)
    ensures Recorded(Next(s, e))
  {
    hide StartsMatch, TakenWereSent, Outside, Move;
  }

  lemma RecordedResult(s: State, e: Event)
    requires Enabled(s, e) && Recorded(s) && (e.TakeResult? || e.Send?)
    ensures Recorded(Next(s, e))
  {
    hide StartsMatch, SampledFrom, AllExited, Note, SentCount;
    var s' := Next(s, e);
    forall t | t in s'.taken ensures SentCount(s'.sent, t) > 0 {
      SentIn(s.sent, t);
      if e.Send? {
        SentSnoc(s.sent, Last(s'.sent), t);
      }
    }
  }

  lemma RecordedNext(s: State, e: Event)
    requires Enabled(s, e) && Staged(s) && Recorded(s)
    ensures Recorded(Next(s, e))
  {
    match e
    case SampleFirst(w) => RecordedSample(s, w);
    case Finish(_, _) => RecordedNote(s, e);
    case SampleSecond(_) => RecordedNote(s, e);
    case TakeResult(_) => RecordedResult(s, e);
    case Send(_) => RecordedResult(s, e);
    case _ => hide StartsMatch, TakenWereSent, AllExited, InSlot, Staged, Note, Move;
  }

  lemma ClosingLeave(s: State, w: nat)
    requires w < |s.workers| && s.workers[w] != Exited && Closing(s)
    ensures Closing(Leave(s, w))
  {
    assert !AllExited(s.workers);
    hide AllExited;
  }

  lemma ClosingNext(s: State, e: Event)
    requires Enabled(s, e) && Closing(s)
    ensures Closing(Next(s, e))
  {
    hide InSlot, Leave;
    if e.Disconnect? || (e.LoadStop? && s.stop) {
      hide AllExited;
      ClosingLeave(s, e.w);
    } else if !IsOutside(e) {
      hide Outside;
      assert s.workers[e.w] != Exited;
      assert !AllExited(s.workers);
      assert Next(s, e).workers[e.w] != Exited;
      assert !AllExited(Next(s, e).workers);
      hide AllExited;
    } else {
      hide AllExited;
    }
  }

  lemma LawfulNext(s: State, e: Event)
    requires Enabled(s, e) && Lawful(s)
    ensures Lawful(Next(s, e))
  {
    hide Conserved, Staged, Recorded, Closing, InSlot;
    ConservedNext(s, e);
    StagedNext(s, e);
    RecordedNext(s, e);
    ClosingNext(s, e);
  }

  lemma {:induction false} LawfulAfter(s: State, es: seq<Event>)
    requires IsRun(s, es) && Lawful(s)
    ensures Lawful(After(s, es))
    decreases |es|
  {
    if es != [] {
      LawfulNext(s, es[0]);
      LawfulAfter(Next(s, es[0]), es[1..]);
    }
  }

  lemma InitLawful(s: State)
    requires Init(s)
    ensures Lawful(s)
  {
    forall t: TaskId ensures Count(s, t) == 0 {
      TallyOfEmpties(Hands(s.workers), |s.workers|, t);
    }
  }

  // ----- One outcome per task -----

  /** Every accepted task yields at most one result, so its one-place channel is
      empty whenever a worker sends: sending never blocks the worker. */
  lemma OneOutcome(s0: State, es: seq<Event>, t: TaskId)
    requires Init(s0) && IsRun(s0, es)
    ensures SentCount(After(s0, es).sent, t) <= 1
    ensures var z := After(s0, es); forall w | 0 <= w < |z.workers| && z.workers[w].Sending? :: Enabled(z, Send(w))
  {
    InitLawful(s0);
    LawfulAfter(s0, es);
    var z := After(s0, es);
    assert Count(z, t) <= 1;
    forall w | 0 <= w < |z.workers| && z.workers[w].Sending? ensures Enabled(z, Send(w)) {
      Alone(z, w, z.workers[w].task);
    }
  }

  /** The result of a task is decided by its two samples: Cancelled exactly if one
      of them saw the flag set, otherwise what its job did; the job is started
      exactly if the first sample saw the flag unset, and never twice. */
  lemma ResultDecidedBySamples(s0: State, es: seq<Event>, k: nat)
    requires Init(s0) && IsRun(s0, es) && k < |After(s0, es).sent|
    ensures var z := After(s0, es); var t, r := z.sent[k].task, z.sent[k].result;
      && t in z.firsts
      && (!z.firsts[t] ==> t in z.seconds && t in z.ends)
      && (r == Cancelled <==> z.firsts[t] || z.seconds[t])
      && (r != Cancelled ==> r == ResultOf(z.ends[t]))
      && Occurs(z.started, t) == if z.firsts[t] then 0 else 1
  {
    InitLawful(s0);
    LawfulAfter(s0, es);
  }

  /** When all workers have exited each submitted task has its one result, or was
      dropped or rejected without its job ever being started. */
  lemma AfterAllExited(s0: State, es: seq<Event>, t: TaskId)
    requires Init(s0) && IsRun(s0, es) && AllExited(After(s0, es).workers) && t < After(s0, es).nextId
    ensures var z := After(s0, es);
      if SentCount(z.sent, t) == 1 then t !in z.discarded && t !in z.rejected
      else SentCount(z.sent, t) == 0 && (t in z.discarded || t in z.rejected) && t !in z.started
  {
    InitLawful(s0);
    LawfulAfter(s0, es);
    var z := After(s0, es);
    assert Count(z, t) == 1;
    TallyOfEmpties(Hands(z.workers), |z.workers|, t);
    OccursIn(z.discarded, t);
    OccursIn(z.rejected, t);
    OccursIn(z.started, t);
  }

  // ----- Cancellation -----

  /** The first sample has not seen, and no more can see, the flag unset. */
  predicate NeverStarts(s: State, t: TaskId) {
    t in s.flags && !(t in s.firsts && !s.firsts[t])
  }

  /** The second sample has not seen, and no more can see, the flag unset. */
  predicate NeverSucceeds(s: State, t: TaskId) {
    t in s.flags && !(t in s.seconds && !s.seconds[t])
  }

  predicate Decided(s: State, t: TaskId) {
    t in s.seconds && !s.seconds[t]
  }

  /** Only the sampling of t itself changes what is recorded about t. */
  lemma RecordKept(s: State, e: Event, t: TaskId)
    requires Enabled(s, e)
    requires IsNoted(e) ==> s.workers[e.w].task != t
    ensures SameRecord(s, Next(s, e), t)
  {
    hide AllExited, InSlot;
    if !e.SampleFirst? && !e.Finish? && !e.SampleSecond? {
      hide Outside, Move, Note, Enabled;
    }
  }

  lemma FatesOwn(s: State, e: Event, t: TaskId)
    requires Enabled(s, e) && IsNoted(e) && s.workers[e.w].task == t && Stage(s, s.workers[e.w])
    ensures NeverStarts(s, t) ==> NeverStarts(Next(s, e), t)
    ensures NeverSucceeds(s, t) ==> NeverSucceeds(Next(s, e), t)
    ensures Decided(s, t) ==> Decided(Next(s, e), t)
  {
    hide Outside, Move;
    match e
    case SampleFirst(_) =>
    case Finish(_, _) =>
    case SampleSecond(_) =>
  }

  lemma FatesNext(s: State, e: Event, t: TaskId)
    requires Lawful(s) && Enabled(s, e)
    ensures NeverStarts(s, t) ==> NeverStarts(Next(s, e), t)
    ensures NeverSucceeds(s, t) ==> NeverSucceeds(Next(s, e), t)
    ensures Decided(s, t) ==> Decided(Next(s, e), t)
  {
    if IsNoted(e) && s.workers[e.w].task == t {
      assert Stage(s, s.workers[e.w]);
      FatesOwn(s, e, t);
    } else {
      RecordKept(s, e, t);
      hide Lawful, Outside, Move, Note, Enabled;
    }
  }

  lemma {:induction false} FatesLast(s: State, es: seq<Event>, t: TaskId)
    requires Lawful(s) && IsRun(s, es)
    ensures NeverStarts(s, t) ==> NeverStarts(After(s, es), t)
    ensures NeverSucceeds(s, t) ==> NeverSucceeds(After(s, es), t)
    ensures Decided(s, t) ==> Decided(After(s, es), t)
    decreases |es|
  {
    hide Lawful, NeverStarts, NeverSucceeds, Decided;
    if es != [] {
      LawfulNext(s, es[0]);
      FatesNext(s, es[0], t);
      FatesLast(Next(s, es[0]), es[1..], t);
    }
  }

  /** Cancelling before the first sample: the job never runs and the only result
      it can get is Cancelled. */
  lemma CancelBeforeStart(s0: State, es0: seq<Event>, t: TaskId, es: seq<Event>)
    requires Init(s0) && IsRun(s0, es0) && Enabled(After(s0, es0), Cancel(t))
    requires t !in After(s0, es0).firsts && IsRun(Next(After(s0, es0), Cancel(t)), es)
    ensures var z := After(Next(After(s0, es0), Cancel(t)), es);
      t !in z.started && forall k | 0 <= k < |z.sent| && z.sent[k].task == t :: z.sent[k].result == Cancelled
  {
    InitLawful(s0);
    LawfulAfter(s0, es0);
    var s1 := Next(After(s0, es0), Cancel(t));
    LawfulNext(After(s0, es0), Cancel(t));
    LawfulAfter(s1, es);
    FatesLast(s1, es, t);
    OccursIn(After(s1, es).started, t);
  }

  /** Cancellation, exactly: whatever result task t gets after a cancel is
      Cancelled if and only if, at the cancel, its second sample had not already
      seen the flag unset. */
  lemma CancelExact(s0: State, es0: seq<Event>, t: TaskId, es: seq<Event>, k: nat)
    requires Init(s0) && IsRun(s0, es0) && Enabled(After(s0, es0), Cancel(t))
    requires IsRun(Next(After(s0, es0), Cancel(t)), es)
    requires k < |After(Next(After(s0, es0), Cancel(t)), es).sent|
    requires After(Next(After(s0, es0), Cancel(t)), es).sent[k].task == t
    ensures After(Next(After(s0, es0), Cancel(t)), es).sent[k].result == Cancelled
            <==> !Decided(After(s0, es0), t)
  {
    InitLawful(s0);
    LawfulAfter(s0, es0);
    var s1 := Next(After(s0, es0), Cancel(t));
    LawfulNext(After(s0, es0), Cancel(t));
    LawfulAfter(s1, es);
    FatesLast(s1, es, t);
  }

  // ----- What the handle can conclude -----

  lemma {:induction false} ResultForIn(sent: seq<Sent>, t: TaskId)
    ensures ResultFor(sent, t).Some? <==> SentCount(sent, t) > 0
    ensures ResultFor(sent, t).Some? ==> Sent(t, ResultFor(sent, t).value) in sent
  {
    if sent != [] {
      ResultForIn(Front(sent), t);
      assert sent == Front(sent) + [Last(sent)];
    }
  }

  lemma PendingCounted(s: State, t: TaskId)
    ensures Pending(s, t) <==> Occurs(s.queue, t) + Tally(Hands(s.workers), t) > 0
  {
    OccursIn(s.queue, t);
    if Tally(Hands(s.workers), t) > 0 {
      var w := TallyWitness(Hands(s.workers), |s.workers|, t);
      assert HeldBy(s.workers[w]) == [t];
    }
    forall w | 0 <= w < |s.workers| && HeldBy(s.workers[w]) == [t] ensures Tally(Hands(s.workers), t) > 0 {
      TallyCovers(Hands(s.workers), |s.workers|, w, t);
    }
  }

  /** The job returned v and both samples saw the cancel flag unset. */
  predicate Succeeded(s: State, t: TaskId, v: nat) {
    && t in s.firsts && !s.firsts[t] && t in s.seconds && !s.seconds[t]
    && t in s.ends && s.ends[t] == Returned(v)
  }

  /** What an accepted task's handle can conclude from try_recv: a value means the
      job returned it and neither sample saw a cancel; None means the task still is
      queued or on a worker without a result, or that its result was taken and the
      worker has yet to drop the sender; SchedulerShutdown without a result taken
      means that the task was dropped with the queue, every worker having exited,
      and its job was never started. */
  lemma TryRecvMeaning(s0: State, es: seq<Event>, t: TaskId, v: nat)
    requires Init(s0) && IsRun(s0, es) && t < After(s0, es).nextId && t !in After(s0, es).rejected
    ensures var z := After(s0, es);
      TryRecv(z, t) == Some(Success(v)) <==>
        t !in z.taken && SentCount(z.sent, t) == 1 && Succeeded(z, t, v)
    ensures var z := After(s0, es);
      TryRecv(z, t) == None <==> Pending(z, t) || (t in z.taken && Releasing(t) in z.workers)
    ensures var z := After(s0, es);
      TryRecv(z, t) == Some(Failure(SchedulerShutdown)) && t !in z.taken <==> t in z.discarded
    ensures var z := After(s0, es); t in z.discarded ==> AllExited(z.workers) && t !in z.started
  {
    InitLawful(s0);
    LawfulAfter(s0, es);
    ReleasingSentAfter(s0, es);
    var z := After(s0, es);
    assert Count(z, t) == 1;
    PendingCounted(z, t);
    ResultForIn(z.sent, t);
    OccursIn(z.discarded, t);
    OccursIn(z.rejected, t);
    OccursIn(z.started, t);
    SentIn(z.sent, t);
    hide Occurs, SentCount, Pending;
    if ResultFor(z.sent, t).Some? {
      var k :| 0 <= k < |z.sent| && z.sent[k] == Sent(t, ResultFor(z.sent, t).value);
      assert Verdict(z, t, z.sent[k].result);
    }
  }

  /** One of the two samples of the task's flag saw a cancel. */
  predicate SawCancel(s: State, t: TaskId) {
    (t in s.firsts && s.firsts[t]) || (t in s.seconds && s.seconds[t])
  }

  /** What a failure from try_recv means: the message "Task cancelled" after a
      sample that saw a cancel, otherwise the message of the job's own panic, or
      that the scheduler was shut down; no other failure is ever reported. */
  lemma TryRecvFailure(s0: State, es: seq<Event>, t: TaskId, message: string)
    requires Init(s0) && IsRun(s0, es) && t < After(s0, es).nextId && t !in After(s0, es).rejected
    ensures var z := After(s0, es);
      TryRecv(z, t) == Some(Failure(WorkerPanic(message))) <==>
        && t !in z.taken && SentCount(z.sent, t) == 1
        && if SawCancel(z, t) then message == "Task cancelled" else t in z.ends && z.ends[t] == Unwound(message)
    ensures var r := TryRecv(After(s0, es), t);
      r.Some? && r.value.Failure? ==> r.value.error.WorkerPanic? || r.value.error.SchedulerShutdown?
  {
    InitLawful(s0);
    LawfulAfter(s0, es);
    var z := After(s0, es);
    assert Count(z, t) == 1;
    ResultForIn(z.sent, t);
    hide Occurs, SentCount, Alive, Tally;
    if ResultFor(z.sent, t).Some? {
      var k :| 0 <= k < |z.sent| && z.sent[k] == Sent(t, ResultFor(z.sent, t).value);
      assert Verdict(z, t, z.sent[k].result);
      hide Lawful, Conserved;
    }
  }

  /** A worker about to drop a task has sent its result. */
  predicate ReleasingSent(s: State) {
    forall w | 0 <= w < |s.workers| && s.workers[w].Releasing? ::
      exists k | 0 <= k < |s.sent| :: s.sent[k].task == s.workers[w].task
  }

  /** Results are only added, and only by the worker that then releases. */
  lemma SentGrows(s: State, e: Event)
    requires Enabled(s, e)
    ensures |s.sent| <= |Next(s, e).sent| && forall k | 0 <= k < |s.sent| :: Next(s, e).sent[k] == s.sent[k]
    ensures |Next(s, e).workers| == |s.workers|
    ensures e.Send? ==> Next(s, e).sent != [] && Last(Next(s, e).sent).task == s.workers[e.w].task
    ensures forall w | 0 <= w < |s.workers| && Next(s, e).workers[w].Releasing? && e != Send(w) ::
              Next(s, e).workers[w] == s.workers[w]
  {
    hide InSlot, AllExited, Outside, Note, Move;
  }

  lemma ReleasingSentNext(s: State, e: Event)
    requires Enabled(s, e) && ReleasingSent(s)
    ensures ReleasingSent(Next(s, e))
  {
    SentGrows(s, e);
    var s' := Next(s, e);
    forall w | 0 <= w < |s'.workers| && s'.workers[w].Releasing?
      ensures exists k | 0 <= k < |s'.sent| :: s'.sent[k].task == s'.workers[w].task
    {
      if e == Send(w) {
        assert s'.sent[|s'.sent| - 1].task == s'.workers[w].task;
      } else {
        hide Next, Enabled;
        var k :| 0 <= k < |s.sent| && s.sent[k].task == s.workers[w].task;
        assert s'.sent[k].task == s'.workers[w].task;
      }
    }
  }

  lemma {:induction false} ReleasingSentAfter(s: State, es: seq<Event>)
    requires IsRun(s, es) && ReleasingSent(s)
    ensures ReleasingSent(After(s, es))
    decreases |es|
  {
    if es != [] {
      ReleasingSentNext(s, es[0]);
      ReleasingSentAfter(Next(s, es[0]), es[1..]);
    }
  }

  // ----- Shutdown drains -----

  /** Events a worker can still take once stop is set. */
  function Weight(p: Phase): nat {
    match p
    case Exited => 0
    case Checking => 1
    case Releasing(_) => 2
    case Sending(_, _) => 3
    case Worked(_, _) => 4
    case Working(_) => 5
    case Took(_) => 6
    case Receiving => 7
  }

  function EventsOf(es: seq<Event>, w: nat): nat {
    if es == [] then 0 else (if IsOf(es[0], w) then 1 else 0) + EventsOf(es[1..], w)
  }

  lemma WeightNext(s: State, e: Event, w: nat)
    requires Enabled(s, e) && s.stop && w < |s.workers|
    ensures Next(s, e).stop && |Next(s, e).workers| == |s.workers|
    ensures Weight(Next(s, e).workers[w]) + (if IsOf(e, w) then 1 else 0) <= Weight(s.workers[w])
  {
    hide AllExited, InSlot, Outside;
    if !IsOf(e, w) {
      hide Weight, Note, Move;
    }
  }

  lemma {:induction false} WeightAfter(s: State, es: seq<Event>, w: nat)
    requires IsRun(s, es) && s.stop && w < |s.workers|
    ensures |After(s, es).workers| == |s.workers|
    ensures EventsOf(es, w) + Weight(After(s, es).workers[w]) <= Weight(s.workers[w])
    decreases |es|
  {
    if es != [] {
      WeightNext(s, es[0], w);
      hide Next, Weight, Enabled, IsOf;
      WeightAfter(Next(s, es[0]), es[1..], w);
    }
  }

  /** A worker that has not exited can take a step. */
  lemma CanStep(z: State, w: nat) returns (e: Event)
    requires Conserved(z) && w < |z.workers| && z.workers[w] != Exited
    ensures IsOf(e, w) && Enabled(z, e)
  {
    if z.workers[w].Sending? {
      Alone(z, w, z.workers[w].task);
    }
    hide Conserved;
    match z.workers[w]
    case Checking => e := LoadStop(w);
    case Receiving => e := RecvEvent(z, w);
    case Took(_) => e := SampleFirst(w);
    case Working(_) => e := Finish(w, Returned(0));
    case Worked(_, _) => e := SampleSecond(w);
    case Sending(_, _) => e := Send(w);
    case Releasing(_) => e := Release(w);
  }

  lemma ExitedIsStuck(z: State, w: nat, e: Event)
    requires w < |z.workers| && z.workers[w] == Exited && IsOf(e, w)
    ensures !Enabled(z, e)
  {
    hide InSlot;
  }

  /** After stop is set a worker takes at most seven more steps, hence at most one
      more task, and until it exits it can always take a step: shutdown waits only
      for jobs that are running. */
  lemma ShutdownDrains(s0: State, es0: seq<Event>, es: seq<Event>, w: nat)
    requires Init(s0) && IsRun(s0, es0) && After(s0, es0).stop && w < |After(s0, es0).workers|
    requires IsRun(After(s0, es0), es)
    ensures EventsOf(es, w) <= 7
    ensures |After(After(s0, es0), es).workers| == |After(s0, es0).workers|
    ensures var z := After(After(s0, es0), es);
      z.workers[w] != Exited <==> exists e :: IsOf(e, w) && Enabled(z, e)
  {
    var s := After(s0, es0);
    var z := After(s, es);
    WeightAfter(s, es, w);
    assert Weight(s.workers[w]) <= 7;
    InitLawful(s0);
    LawfulAfter(s0, es0);
    LawfulAfter(s, es);
    assert Conserved(z);
    hide Lawful, Conserved, Weight, Enabled, IsOf, After, IsRun;
    if z.workers[w] != Exited {
      var e := CanStep(z, w);
    } else {
      forall e | IsOf(e, w) ensures !Enabled(z, e) {
        ExitedIsStuck(z, w, e);
      }
    }
  }

  /** `spawn` finds the scheduler's sender, and does not panic, exactly until
      shutdown has taken it. */
  lemma {:induction false} OpenUntilTaken(s: State, es: seq<Event>)
    requires IsRun(s, es)
    ensures After(s, es).open <==> s.open && TakeSender !in es
    decreases |es|
  {
    hide InSlot, AllExited;
    if es != [] {
      OpenUntilTaken(Next(s, es[0]), es[1..]);
    }
  }
}
