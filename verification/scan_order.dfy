/** What a scan for work tries: the other queues in index order, each once, and
    never its own. */
module ScanOrder {
  import opened RunQueues
  import opened WorkStealing

  /** The queues other than w's, in index order. */
  function Others(w: nat, n: nat): seq<nat> {
    if n == 0 then [] else if n - 1 == w then Others(w, n - 1) else Others(w, n - 1) + [n - 1]
  }

  lemma {:induction false} OthersAre(w: nat, n: nat)
    ensures |Others(w, n)| == if w < n then n - 1 else n
    ensures forall v: nat :: v in Others(w, n) <==> v < n && v != w
    ensures forall i, j | 0 <= i < j < |Others(w, n)| :: Others(w, n)[i] < Others(w, n)[j]
  {
    if n > 0 {
      OthersAre(w, n - 1);
      var f := Others(w, n - 1);
      assert forall i | 0 <= i < |f| :: f[i] in f;
      assert forall v: nat :: v in f + [n - 1] <==> v in f || v == n - 1;
    }
  }

  lemma {:induction false} OthersAt(w: nat, n: nat, k: nat)
    requires k < if w < n then n - 1 else n
    ensures |Others(w, n)| == (if w < n then n - 1 else n) && Others(w, n)[k] == Target(w, k)
  {
    OthersAre(w, n);
    OthersAre(w, n - 1);
    if n - 1 != w && k < |Others(w, n - 1)| {
      OthersAt(w, n - 1, k);
    } else if n - 1 == w {
      OthersAt(w, n - 1, k);
    }
  }

  /** The queue that worker w tries next. */
  function Tried(s: State, w: nat): (v: nat)
    requires WellFormed(s) && Enabled(s, Steal(w))
    ensures v < |s.workers| && v != w
  {
    OthersAre(w, |s.workers|);
    assert Others(w, |s.workers|)[s.workers[w].next] in Others(w, |s.workers|);
    Others(w, |s.workers|)[s.workers[w].next]
  }

  /** One attempt: from a queue of two or more tasks the older half goes into the
      thief's hand; otherwise the thief moves on to the next queue. No attempt
      touches any other queue, the thief's own included. */
  lemma StealAttempt(s: State, w: nat)
    requires WellFormed(s) && Enabled(s, Steal(w))
    ensures var v, s' := Tried(s, w), Next(s, Steal(w)); var q := s.queues[v];
      if |q| >= 2 then
        && s'.workers == s.workers[w := Transferring(q[..|q| / 2])]
        && s'.queues == s.queues[v := q[|q| / 2..]]
      else s' == s.(workers := s.workers[w := Scanning(s.workers[w].next + 1)])
    ensures Next(s, Steal(w)).queues[w] == s.queues[w]
  {
    OthersAt(w, |s.workers|, s.workers[w].next);
    StealSplits(s.queues[Tried(s, w)]);
  }

  /** The queues worker w tries during a run. */
  function Attempts(s: State, es: seq<Event>, w: nat): seq<nat>
    requires WellFormed(s) && IsRun(s, es)
    decreases |es|
  {
    if es == [] then []
    else (if es[0] == Steal(w) then [Tried(s, w)] else []) + Attempts(Next(s, es[0]), es[1..], w)
  }

  /** In some state of the run queue v holds at most one task. */
  predicate SometimesShort(s: State, es: seq<Event>, v: nat)
    requires WellFormed(s) && IsRun(s, es) && v < |s.queues|
    decreases |es|
  {
    |s.queues[v]| <= 1 || (es != [] && SometimesShort(Next(s, es[0]), es[1..], v))
  }

  /** Without a pop of its own a worker does not start a scan. */
  lemma {:induction false} NoNewScan(s: State, es: seq<Event>, w: nat)
    requires WellFormed(s) && IsRun(s, es) && w < |s.workers| && !s.workers[w].Scanning? && Pop(w) !in es
    ensures !After(s, es).workers[w].Scanning? && Attempts(s, es, w) == []
    decreases |es|
  {
    if es != [] {
      NoNewScan(Next(s, es[0]), es[1..], w);
    }
  }

  /** The step of a scanning worker, or of anybody else. */
  lemma ScanStep(s: State, e: Event, w: nat)
    requires WellFormed(s) && Enabled(s, e) && w < |s.workers| && s.workers[w].Scanning? && e != Pop(w)
    ensures var p := Next(s, e).workers[w];
      if e == Steal(w) then
        (p.Scanning? ==> p.next == s.workers[w].next + 1 && |s.queues[Tried(s, w)]| <= 1)
      else p == s.workers[w] || !p.Scanning?
  {
    if e == Steal(w) {
      StealAttempt(s, w);
    }
  }

  lemma {:induction false} ScanFrom(s: State, es: seq<Event>, w: nat)
    requires WellFormed(s) && IsRun(s, es) && w < |s.workers| && s.workers[w].Scanning? && Pop(w) !in es
    ensures var k, others, tried := s.workers[w].next, Others(w, |s.workers|), Attempts(s, es, w);
      && k <= |others| && tried <= others[k..]
      && (After(s, es).workers[w] == Scanning(|s.workers| - 1) ==>
            tried == others[k..] && forall v | v in tried :: v < |s.queues| && SometimesShort(s, es, v))
    decreases |es|
  {
    OthersAre(w, |s.workers|);
    if es != [] {
      var s' := Next(s, es[0]);
      ScanStep(s, es[0], w);
      hide Next, Enabled, Others;
      if s'.workers[w].Scanning? {
        ScanFrom(s', es[1..], w);
      } else {
        NoNewScan(s', es[1..], w);
      }
    }
  }

  /** A scan, whatever the other threads do meanwhile: after popping its own empty
      queue a worker tries the other queues in index order, each once. If it finds
      nothing and gives up, each of them held at most one task at some moment of
      the scan. */
  lemma ScanTriesOthers(s: State, es: seq<Event>, w: nat)
    requires WellFormed(s) && IsRun(s, es) && es != [] && es[0] == Pop(w) && s.queues[w] == [] && Pop(w) !in es[1..]
    ensures Attempts(s, es, w) <= Others(w, |s.workers|)
    ensures Enabled(After(s, es), EndScan(w)) ==>
              && Attempts(s, es, w) == Others(w, |s.workers|)
              && forall v | 0 <= v < |s.queues| && v != w :: SometimesShort(s, es, v)
  {
    ScanFrom(Next(s, es[0]), es[1..], w);
    OthersAre(w, |s.workers|);
  }
}
