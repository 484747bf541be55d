/** How far apart a supervisor keeps a child's restarts, over whole runs. */
module Spacing {
  import opened Basics
  import opened Backoff
  import opened Supervision
  import opened Restarts

  // ----- Plans: the crash counts at which a child is restarted -----

  /** No delay for a count up to n overflows. */
  ghost predicate Affordable(base: nat, n: nat) {
    forall i | 1 <= i <= n :: BackoffDelay(base, i).Ok?
  }

  predicate Rising(ns: seq<nat>) {
    forall i, j | 0 <= i < j < |ns| :: ns[i] < ns[j]
  }

  /** Counts of crashes that may restart a child: the first, and any later ones
      within the budget. */
  ghost predicate IsPlan(st: Strategy, ns: seq<nat>) {
    ns != [] && ns[0] == 1 && Rising(ns) && Last(ns) <= st.maxRestarts && Affordable(st.baseBackoff, Last(ns))
  }

  /** The delays before all restarts of a plan but the first. */
  function PlanSum(base: nat, ns: seq<nat>): nat {
    if |ns| <= 1 then 0 else PlanSum(base, Front(ns)) + Computed(base, Last(ns))
  }

  /** The plan that restarts at every crash. */
  function Upto(k: nat): (ns: seq<nat>)
    ensures |ns| == k && forall i | 0 <= i < k :: ns[i] == i + 1
  {
    seq(k, i => i + 1)
  }

  lemma PlanFront(st: Strategy, ns: seq<nat>)
    requires IsPlan(st, ns) && |ns| > 1
    ensures IsPlan(st, Front(ns)) && Last(Front(ns)) < Last(ns)
  {
  }

  /** A plan's j-th count (from 0) is at least j + 1. */
  lemma {:induction false} PlanCounts(ns: seq<nat>)
    requires ns != [] && ns[0] == 1 && Rising(ns)
    ensures Last(ns) >= |ns|
  {
    if |ns| > 1 {
      PlanCounts(Front(ns));
    }
  }

  lemma AffordableLess(base: nat, m: nat, n: nat)
    requires m <= n && Affordable(base, n)
    ensures Affordable(base, m) && (m >= 1 ==> BackoffDelay(base, m).Ok?)
  {
  }

  // ----- Every run follows a plan -----

  /** The crash counts at which child c was restarted since its last start. */
  function RestartCounts(st: Strategy, ms: seq<Stamped>, c: ActorId): seq<nat>
    requires Run(st, ms).Ok?
  {
    if ms == [] then []
    else if !Concerns(Last(ms), c) then RestartCounts(st, Front(ms), c)
    else if Last(ms).msg.ChildStarted? then []
    else if c in Run(st, ms).value && Run(st, ms).value[c].alive then
      RestartCounts(st, Front(ms), c) + [CrashCount(ms, c)]
    else RestartCounts(st, Front(ms), c)
  }

  /** Each restart but the first comes at least its computed delay after the one
      before it. */
  predicate Spaced(log: seq<nat>, ns: seq<nat>, base: nat) {
    |log| == |ns| && forall j | 1 <= j < |log| :: log[j] >= log[j - 1] + Computed(base, ns[j])
  }

  /** Restart times, counts of restarts and the crash count of a child fit. */
  ghost predicate Fits(st: Strategy, log: seq<nat>, ns: seq<nat>, n: nat, known: bool) {
    && Spaced(log, ns, st.baseBackoff)
    && (ns != [] ==> IsPlan(st, ns) && Last(ns) <= n)
    && (if known then Affordable(st.baseBackoff, n) && (1 <= n && 1 <= st.maxRestarts ==> ns != []) else ns == [])
  }

  ghost predicate Follows(st: Strategy, ms: seq<Stamped>, c: ActorId)
    requires Run(st, ms).Ok?
  {
    var log := RestartLog(st, ms, c);
    && Fits(st, log, RestartCounts(st, ms, c), CrashCount(ms, c), c in Run(st, ms).value)
    && (log != [] ==> ms != [] && Last(log) <= Last(ms).restartAt)
  }

  lemma AffordableSnoc(base: nat, n: nat)
    requires n >= 1
    ensures Affordable(base, n - 1) && BackoffDelay(base, n).Ok? ==> Affordable(base, n)
  {
    hide BackoffDelay;
  }

  /** Crash number n restarts the child at time t. */
  lemma FitsRestart(st: Strategy, log: seq<nat>, ns: seq<nat>, n: nat, t: nat)
    requires 1 <= n <= st.maxRestarts && Fits(st, log, ns, n - 1, true) && BackoffDelay(st.baseBackoff, n).Ok?
    requires log != [] ==> t >= Last(log) + Computed(st.baseBackoff, n)
    ensures Fits(st, log + [t], ns + [n], n, true)
  {
    AffordableSnoc(st.baseBackoff, n);
    hide Computed, BackoffDelay, Affordable;
  }

  /** Crash number n is deferred, or over budget. */
  lemma FitsDeferral(st: Strategy, log: seq<nat>, ns: seq<nat>, n: nat)
    requires n >= 1 && Fits(st, log, ns, n - 1, true) && BackoffDelay(st.baseBackoff, n).Ok?
    requires n <= st.maxRestarts ==> log != []
    ensures Fits(st, log, ns, n, true)
  {
    AffordableSnoc(st.baseBackoff, n);
    hide Computed, BackoffDelay, Affordable;
  }

  /** The child was known before, with one crash less. */
  lemma CrashCounted(st: Strategy, ms: seq<Stamped>, c: ActorId)
    requires Run(st, ms).Ok? && ms != [] && Last(ms).msg.ChildCrashed? && Concerns(Last(ms), c)
    requires c in Run(st, ms).value
    ensures c in Run(st, Front(ms)).value && CrashCount(ms, c) == CrashCount(Front(ms), c) + 1
    ensures var log, ns := RestartLog(st, Front(ms), c), RestartCounts(st, Front(ms), c);
      if Run(st, ms).value[c].alive then
        RestartLog(st, ms, c) == log + [Last(ms).restartAt] && RestartCounts(st, ms, c) == ns + [CrashCount(ms, c)]
      else RestartLog(st, ms, c) == log && RestartCounts(st, ms, c) == ns
  {
    hide CrashEntry, BackoffDelay;
  }

  lemma FollowsCrash(st: Strategy, ms: seq<Stamped>, c: ActorId)
    requires Run(st, ms).Ok? && ms != [] && Last(ms).msg.ChildCrashed? && Concerns(Last(ms), c)
    ensures c in Run(st, ms).value && Monotone(ms) && Follows(st, Front(ms), c) ==> Follows(st, ms, c)
  {
    if c in Run(st, ms).value && Monotone(ms) && Follows(st, Front(ms), c) {
      MonotoneFront(ms);
      RestartDecision(st, ms, c);
      CrashCounted(st, ms, c);
      var log, ns, n := RestartLog(st, Front(ms), c), RestartCounts(st, Front(ms), c), CrashCount(ms, c);
      assert BackoffDelay(st.baseBackoff, n).value == Computed(st.baseBackoff, n);
      assert Last(ms).elapsedAt <= Last(ms).restartAt;
      hide BackoffDelay, Computed, Run, RestartLog, RestartCounts, CrashCount, Fits, Monotone;
      if Run(st, ms).value[c].alive {
        FitsRestart(st, log, ns, n, Last(ms).restartAt);
      } else {
        FitsDeferral(st, log, ns, n);
      }
    }
  }

  lemma {:induction false} FollowsAlways(st: Strategy, ms: seq<Stamped>, c: ActorId)
    requires Run(st, ms).Ok? && Monotone(ms)
    ensures Follows(st, ms, c)
  {
    if ms != [] {
      MonotoneFront(ms);
      FollowsAlways(st, Front(ms), c);
      if Concerns(Last(ms), c) && Last(ms).msg.ChildCrashed? && c in Run(st, ms).value {
        FollowsCrash(st, ms, c);
      } else {
        hide BackoffDelay, CrashEntry;
      }
    }
  }

  lemma {:induction false} SpacedSum(log: seq<nat>, ns: seq<nat>, base: nat, k: nat)
    requires Spaced(log, ns, base) && 1 <= k <= |log|
    ensures log[k - 1] >= log[0] + PlanSum(base, ns[..k])
  {
    hide Computed;
    if k > 1 {
      SpacedSum(log, ns, base, k - 1);
      assert Front(ns[..k]) == ns[..k - 1];
    }
  }

  /** The first k restarts of a child are those of a plan, and spread over at least
      its delays. */
  lemma RunFollowsPlan(st: Strategy, ms: seq<Stamped>, c: ActorId, k: nat) returns (ns: seq<nat>)
    requires Run(st, ms).Ok? && Monotone(ms) && 1 <= k <= |RestartLog(st, ms, c)|
    ensures IsPlan(st, ns) && |ns| == k
    ensures RestartLog(st, ms, c)[k - 1] - RestartLog(st, ms, c)[0] >= PlanSum(st.baseBackoff, ns)
  {
    FollowsAlways(st, ms, c);
    hide BackoffDelay, Computed;
    var all := RestartCounts(st, ms, c);
    ns := all[..k];
    SpacedSum(RestartLog(st, ms, c), all, st.baseBackoff, k);
    assert Last(ns) <= Last(all);
  }

  // ----- Every plan is followed by a run -----

  /** Further crashes of child 0 at one instant. */
  function Burnt(ms: seq<Stamped>, m: nat, t: nat): seq<Stamped> {
    if m == 0 then ms else Burnt(ms, m - 1, t) + [Stamped(ChildCrashed(0, ""), t, t)]
  }

  /** Child 0 starts and first crashes at time 0; it uses up the counts between two
      of the plan's at the instant of a restart, and crashes with a count of the
      plan exactly when its backoff is over. */
  function PlanRun(base: nat, ns: seq<nat>): seq<Stamped>
    requires ns != [] && Rising(ns)
  {
    if |ns| == 1 then [Stamped(ChildStarted(0, ""), 0, 0), Stamped(ChildCrashed(0, ""), 0, 0)]
    else
      var f, t := Front(ns), PlanSum(base, ns);
      Burnt(PlanRun(base, f), Last(ns) - Last(f) - 1, PlanSum(base, f)) + [Stamped(ChildCrashed(0, ""), t, t)]
  }

  function PlanTimes(base: nat, ns: seq<nat>): (log: seq<nat>)
    requires ns != []
    ensures |log| == |ns| && log[0] == 0 && Last(log) == PlanSum(base, ns)
  {
    if |ns| == 1 then [0] else PlanTimes(base, Front(ns)) + [PlanSum(base, ns)]
  }

  /** The children of a supervisor whose only child is 0. */
  function Only(e: ChildEntry): Children {
    map[0 := e]
  }

  /** One crash of the only child. */
  lemma CrashOne(st: Strategy, ms: seq<Stamped>, e: ChildEntry, t: nat, e': ChildEntry)
    requires Run(st, ms) == Ok(Only(e))
    ensures CrashEntry(st, e, Stamped(ChildCrashed(0, ""), t, t)) == Ok(e') ==>
      var ms' := ms + [Stamped(ChildCrashed(0, ""), t, t)];
      && Run(st, ms') == Ok(Only(e'))
      && RestartLog(st, ms', 0) == RestartLog(st, ms, 0) + (if e'.alive then [t] else [])
  {
    var m := Stamped(ChildCrashed(0, ""), t, t);
    if CrashEntry(st, e, m) == Ok(e') {
      assert Front(ms + [m]) == ms && Last(ms + [m]) == m;
      var cs: Children := Only(e);
      assert cs[0 := e'] == Only(e');
      assert Handle(st, cs, m) == Ok(Only(e')) by {
        hide CrashEntry;
      }
      assert Run(st, ms + [m]) == Ok(Only(e')) by {
        hide Handle, CrashEntry;
      }
      hide Run, Handle, CrashEntry;
    }
  }

  lemma ComputedPositive(base: nat, n: nat)
    requires base > 0
    ensures Computed(base, n) > 0
  {
    ScaledAtLeast(base, Shift(n));
  }

  /** A crash at the instant of a restart is deferred. */
  lemma CrashTooEarly(st: Strategy, e: ChildEntry, t: nat, n: nat)
    requires st.baseBackoff > 0 && e.restartCount + 1 == n <= st.maxRestarts && BackoffDelay(st.baseBackoff, n).Ok?
    requires e.lastRestartAt == Some(t)
    ensures CrashEntry(st, e, Stamped(ChildCrashed(0, ""), t, t)) == Ok(e.(restartCount := n, alive := false))
  {
    ComputedPositive(st.baseBackoff, n);
    hide Computed;
  }

  lemma BurntOne(st: Strategy, ms: seq<Stamped>, e: ChildEntry, n: nat, t: nat)
    requires Run(st, ms) == Ok(Only(e)) && e.lastRestartAt == Some(t) && st.baseBackoff > 0
    requires e.restartCount + 1 == n <= st.maxRestarts && BackoffDelay(st.baseBackoff, n).Ok?
    ensures var ms' := ms + [Stamped(ChildCrashed(0, ""), t, t)];
      && Run(st, ms') == Ok(Only(e.(restartCount := n, alive := false)))
      && RestartLog(st, ms', 0) == RestartLog(st, ms, 0)
  {
    hide *;
    CrashTooEarly(st, e, t, n);
    CrashOne(st, ms, e, t, e.(restartCount := n, alive := false));
  }

  /** The entry of child 0 after m further crashes at the instant of a restart. */
  function BurntEntry(e: ChildEntry, m: nat): ChildEntry {
    e.(restartCount := e.restartCount + m, alive := m == 0 && e.alive)
  }

  lemma {:induction false} BurntRuns(st: Strategy, ms: seq<Stamped>, e: ChildEntry, m: nat, t: nat)
    requires Run(st, ms) == Ok(Only(e)) && e.lastRestartAt == Some(t)
    requires m > 0 ==> st.baseBackoff > 0
    requires e.restartCount + m <= st.maxRestarts && Affordable(st.baseBackoff, e.restartCount + m)
    ensures Run(st, Burnt(ms, m, t)) == Ok(Only(BurntEntry(e, m)))
    ensures RestartLog(st, Burnt(ms, m, t), 0) == RestartLog(st, ms, 0)
  {
    hide Run, RestartLog, BackoffDelay, Only;
    if m > 0 {
      var n := e.restartCount + m;
      AffordableLess(st.baseBackoff, n - 1, n);
      AffordableLess(st.baseBackoff, n, n);
      hide Affordable;
      BurntRuns(st, ms, e, m - 1, t);
      BurntOne(st, Burnt(ms, m - 1, t), BurntEntry(e, m - 1), n, t);
    }
  }

  function PlanEntry(base: nat, ns: seq<nat>): ChildEntry
    requires ns != []
  {
    ChildEntry("", Last(ns), true, Some(PlanSum(base, ns)))
  }

  /** A crash whose delay is just over restarts. */
  lemma CrashOnTime(st: Strategy, e: ChildEntry, t: nat, n: nat)
    requires e.restartCount + 1 == n <= st.maxRestarts
    ensures OnTime(st, e, t, n) ==>
      CrashEntry(st, e, Stamped(ChildCrashed(0, ""), t, t))
        == Ok(e.(restartCount := n, alive := true, lastRestartAt := Some(t)))
  {
    hide Computed;
  }

  /** The delay for count n does not overflow and is just over at time t. */
  predicate OnTime(st: Strategy, e: ChildEntry, t: nat, n: nat) {
    BackoffDelay(st.baseBackoff, n).Ok?
    && (e.lastRestartAt.Some? ==> t == e.lastRestartAt.value + Computed(st.baseBackoff, n))
  }

  lemma FirstCrash(st: Strategy, ns: seq<nat>)
    requires IsPlan(st, ns) && |ns| == 1
    ensures Run(st, PlanRun(st.baseBackoff, ns)) == Ok(Only(PlanEntry(st.baseBackoff, ns)))
    ensures RestartLog(st, PlanRun(st.baseBackoff, ns), 0) == [0]
  {
    var start := [Stamped(ChildStarted(0, ""), 0, 0)];
    assert Front(start) == [];
    var e := ChildEntry("", 0, true, None);
    assert Run(st, start) == Ok(Only(e)) && RestartLog(st, start, 0) == [];
    CrashOnTime(st, e, 0, 1);
    hide Run, RestartLog, CrashEntry;
    CrashOne(st, start, e, 0, PlanEntry(st.baseBackoff, ns));
    assert start + [Stamped(ChildCrashed(0, ""), 0, 0)] == PlanRun(st.baseBackoff, ns);
  }

  /** A crash of the only child whose delay is just over. */
  lemma RestartOne(st: Strategy, ms: seq<Stamped>, e: ChildEntry, n: nat, t: nat)
    requires e.restartCount + 1 == n <= st.maxRestarts
    ensures Run(st, ms) == Ok(Only(e)) && OnTime(st, e, t, n) ==>
      var ms' := ms + [Stamped(ChildCrashed(0, ""), t, t)];
      && Run(st, ms') == Ok(Only(e.(restartCount := n, alive := true, lastRestartAt := Some(t))))
      && RestartLog(st, ms', 0) == RestartLog(st, ms, 0) + [t]
  {
    hide *;
    if Run(st, ms) == Ok(Only(e)) && OnTime(st, e, t, n) {
      CrashOnTime(st, e, t, n);
      CrashOne(st, ms, e, t, e.(restartCount := n, alive := true, lastRestartAt := Some(t)));
    }
  }

  /** From a plan's last restart but one to its last. */
  lemma PlanStep(st: Strategy, ns: seq<nat>, f: seq<nat>, m: nat)
    requires IsPlan(st, ns) && |ns| > 1 && f == Front(ns) && m == Last(ns) - Last(f) - 1
    requires m > 0 ==> st.baseBackoff > 0
    requires Run(st, PlanRun(st.baseBackoff, f)) == Ok(Only(PlanEntry(st.baseBackoff, f)))
    ensures Run(st, PlanRun(st.baseBackoff, ns)) == Ok(Only(PlanEntry(st.baseBackoff, ns)))
    ensures RestartLog(st, PlanRun(st.baseBackoff, ns), 0)
         == RestartLog(st, PlanRun(st.baseBackoff, f), 0) + [PlanSum(st.baseBackoff, ns)]
  {
    var base, n := st.baseBackoff, Last(ns);
    AffordableLess(base, n - 1, n);
    AffordableLess(base, n, n);
    hide Run, RestartLog, BackoffDelay, Only, Affordable, Rising, Computed;
    BurntRuns(st, PlanRun(base, f), PlanEntry(base, f), m, PlanSum(base, f));
    var burnt := Burnt(PlanRun(base, f), m, PlanSum(base, f));
    RestartOne(st, burnt, BurntEntry(PlanEntry(base, f), m), n, PlanSum(base, ns));
  }

  lemma {:induction false} PlanRuns(st: Strategy, ns: seq<nat>)
    requires IsPlan(st, ns) && (st.baseBackoff > 0 || ns == Upto(|ns|))
    ensures Run(st, PlanRun(st.baseBackoff, ns)) == Ok(Only(PlanEntry(st.baseBackoff, ns)))
    ensures RestartLog(st, PlanRun(st.baseBackoff, ns), 0) == PlanTimes(st.baseBackoff, ns)
  {
    if |ns| == 1 {
      FirstCrash(st, ns);
    } else {
      var f, m := Front(ns), Last(ns) - Last(Front(ns)) - 1;
      PlanFront(st, ns);
      hide Run, RestartLog, PlanRun, IsPlan;
      assert ns == Upto(|ns|) ==> f == Upto(|f|) && m == 0;
      PlanRuns(st, f);
      PlanStep(st, ns, f, m);
    }
  }

  lemma MonotoneSnoc(ms: seq<Stamped>, m: Stamped)
    requires Monotone(ms) && m.elapsedAt <= m.restartAt && forall x | x in ms :: x.restartAt <= m.elapsedAt
    ensures Monotone(ms + [m])
  {
  }

  lemma {:induction false} BurntMonotone(ms: seq<Stamped>, m: nat, t: nat)
    requires Monotone(ms) && forall x | x in ms :: x.restartAt <= t
    ensures Monotone(Burnt(ms, m, t)) && forall x | x in Burnt(ms, m, t) :: x.restartAt <= t
  {
    if m > 0 {
      BurntMonotone(ms, m - 1, t);
      MonotoneSnoc(Burnt(ms, m - 1, t), Stamped(ChildCrashed(0, ""), t, t));
    }
  }

  lemma {:induction false} PlanMonotone(base: nat, ns: seq<nat>)
    requires ns != [] && Rising(ns)
    ensures Monotone(PlanRun(base, ns)) && forall x | x in PlanRun(base, ns) :: x.restartAt <= PlanSum(base, ns)
  {
    hide Computed;
    if |ns| > 1 {
      var f := Front(ns);
      PlanMonotone(base, f);
      var burnt := Burnt(PlanRun(base, f), Last(ns) - Last(f) - 1, PlanSum(base, f));
      BurntMonotone(PlanRun(base, f), Last(ns) - Last(f) - 1, PlanSum(base, f));
      MonotoneSnoc(burnt, Stamped(ChildCrashed(0, ""), PlanSum(base, ns), PlanSum(base, ns)));
    }
  }

  /** Some run restarts child 0 at exactly the counts and with exactly the delays of
      a plan. Counts can be skipped only if a crash can come too early. */
  lemma PlanAttained(st: Strategy, ns: seq<nat>) returns (ms: seq<Stamped>)
    requires IsPlan(st, ns) && (st.baseBackoff > 0 || ns == Upto(|ns|))
    ensures Monotone(ms) && Run(st, ms).Ok? && |RestartLog(st, ms, 0)| == |ns|
    ensures RestartLog(st, ms, 0)[|ns| - 1] == RestartLog(st, ms, 0)[0] + PlanSum(st.baseBackoff, ns)
  {
    ms := PlanRun(st.baseBackoff, ns);
    PlanRuns(st, ns);
    PlanMonotone(st.baseBackoff, ns);
    hide PlanRun, Run, RestartLog;
    assert Last(PlanTimes(st.baseBackoff, ns)) == PlanSum(st.baseBackoff, ns);
  }

  // ----- The spacing, exactly -----

  /** In every run the k-th restart of a child comes at least d after its first. */
  ghost predicate KeepsApart(st: Strategy, k: nat, d: int)
    requires k >= 1
  {
    forall ms, c :: Run(st, ms).Ok? && Monotone(ms) && k <= |RestartLog(st, ms, c)| ==>
      RestartLog(st, ms, c)[k - 1] - RestartLog(st, ms, c)[0] >= d
  }

  lemma {:induction false} ZeroPlanSum(ns: seq<nat>)
    ensures PlanSum(0, ns) == 0
  {
    if |ns| > 1 {
      ZeroPlanSum(Front(ns));
      assert Scaled(0, Shift(Last(ns))) == 0;
    }
  }

  lemma PlanUpto(st: Strategy, ns: seq<nat>)
    requires IsPlan(st, ns)
    ensures IsPlan(st, Upto(|ns|))
  {
    PlanCounts(ns);
  }

  lemma PlanBounds(st: Strategy, ns: seq<nat>, d: int)
    requires IsPlan(st, ns) && KeepsApart(st, |ns|, d)
    ensures d <= PlanSum(st.baseBackoff, ns)
  {
    hide IsPlan, PlanSum, Computed, Run, RestartLog;
    if st.baseBackoff > 0 {
      var ms := PlanAttained(st, ns);
    } else {
      ZeroPlanSum(ns);
      ZeroPlanSum(Upto(|ns|));
      PlanUpto(st, ns);
      var ms := PlanAttained(st, Upto(|ns|));
    }
  }

  lemma PlansSuffice(st: Strategy, k: nat, d: int)
    requires k >= 1 && forall ns | IsPlan(st, ns) && |ns| == k :: d <= PlanSum(st.baseBackoff, ns)
    ensures KeepsApart(st, k, d)
  {
    hide IsPlan, PlanSum, Computed, Run, RestartLog;
    forall ms, c | Run(st, ms).Ok? && Monotone(ms) && k <= |RestartLog(st, ms, c)|
      ensures RestartLog(st, ms, c)[k - 1] - RestartLog(st, ms, c)[0] >= d
    {
      var ns := RunFollowsPlan(st, ms, c, k);
    }
  }

  /** The spacing, exactly and for every budget: d is promised between the first and
      the k-th restart if and only if no plan of k restarts has a smaller sum of
      delays. */
  lemma SpacingExact(st: Strategy, k: nat, d: int)
    requires k >= 1
    ensures KeepsApart(st, k, d) <==> forall ns | IsPlan(st, ns) && |ns| == k :: d <= PlanSum(st.baseBackoff, ns)
  {
    hide IsPlan, KeepsApart;
    if KeepsApart(st, k, d) {
      forall ns | IsPlan(st, ns) && |ns| == k ensures d <= PlanSum(st.baseBackoff, ns) {
        PlanBounds(st, ns, d);
      }
    }
    if forall ns | IsPlan(st, ns) && |ns| == k :: d <= PlanSum(st.baseBackoff, ns) {
      PlansSuffice(st, k, d);
    }
  }

  // ----- The documented delays -----

  lemma ComputedIs(base: nat, n: nat)
    ensures Computed(base, n) <= Documented(base, n)
    ensures n < U32 ==> Computed(base, n) == Documented(base, n)
    ensures n == U32 ==> Computed(base, n) == Min(base, CAP)
    ensures base >= CAP ==> Computed(base, n) == CAP
  {
    ShiftIs(n);
    ScaledMonotone(base, Shift(n), Min(Pred(n), 30));
    ScaledAtLeast(base, Shift(n));
    assert Scaled(base, 0) == base;
    hide Scaled, Shift;
  }

  lemma ShiftIs(n: nat)
    ensures Shift(n) <= Min(Pred(n), 30)
    ensures n < U32 ==> Shift(n) == Min(Pred(n), 30)
    ensures n == U32 ==> Shift(n) == 0
  {
    assert n % U32 <= n;
  }

  /** In monotone time and with a budget below 2^32 a crash restarts its child
      exactly if it is in budget and the documented delay has passed. */
  lemma DocumentedDecision(st: Strategy, ms: seq<Stamped>, c: ActorId)
    requires Run(st, ms).Ok? && Monotone(ms) && st.maxRestarts < U32
    requires ms != [] && Last(ms).msg.ChildCrashed? && Concerns(Last(ms), c) && c in Run(st, ms).value
    ensures var log, n := RestartLog(st, Front(ms), c), CrashCount(ms, c);
      Run(st, ms).value[c].alive <==>
        n <= st.maxRestarts
        && (log == [] || Last(ms).elapsedAt - Last(log) >= Documented(st.baseBackoff, n))
  {
    MonotoneFront(ms);
    FollowsAlways(st, Front(ms), c);
    RestartDecision(st, ms, c);
    ComputedIs(st.baseBackoff, CrashCount(ms, c));
    assert BackoffDelay(st.baseBackoff, CrashCount(ms, c)).value == Computed(st.baseBackoff, CrashCount(ms, c));
    hide BackoffDelay, Documented, Computed, Run, RestartLog, CrashCount;
  }

  /** A plan whose delays are no less than the documented ones for 2..k. */
  lemma {:induction false} PlanAtLeast(base: nat, ns: seq<nat>)
    requires ns != [] && ns[0] == 1 && Rising(ns)
    requires base == 0 || base >= CAP || Last(ns) < U32
    ensures PlanSum(base, ns) >= DelaySum(base, |ns|)
  {
    if |ns| > 1 {
      PlanAtLeast(base, Front(ns));
      PlanCounts(ns);
      ComputedIs(base, Last(ns));
      ComputedIs(base, |ns|);
      DocumentedMonotone(base, |ns|, Last(ns));
      assert base == 0 ==> Scaled(base, Min(Pred(|ns|), 30)) == 0;
      hide Computed, Scaled;
    }
  }

  /** Restart spacing: since a child's last start, its k-th restart comes at least
      the sum of the documented delays 2..k after its first, even though crashes
      deferred by the backoff use up counts of their own. */
  lemma RestartSpacing(st: Strategy, ms: seq<Stamped>, c: ActorId, k: nat)
    requires Run(st, ms).Ok? && Monotone(ms) && st.maxRestarts < U32
    requires 1 <= k <= |RestartLog(st, ms, c)|
    ensures RestartLog(st, ms, c)[k - 1] >= RestartLog(st, ms, c)[0] + DelaySum(st.baseBackoff, k)
    ensures k <= 31 && Scaled(st.baseBackoff, k - 1) <= CAP ==>
              RestartLog(st, ms, c)[k - 1] - RestartLog(st, ms, c)[0] >= Scaled(st.baseBackoff, k) - 2 * st.baseBackoff
  {
    var ns := RunFollowsPlan(st, ms, c, k);
    PlanAtLeast(st.baseBackoff, ns);
    hide Run, RestartLog, PlanSum, DelaySum, Scaled;
    if k <= 31 && Scaled(st.baseBackoff, k - 1) <= CAP {
      DelaySumClosed(st.baseBackoff, k);
    }
  }

  /** The plan that restarts at every crash below 2^32 has the documented delays. */
  lemma {:induction false} UptoSum(base: nat, k: nat)
    requires 1 <= k < U32
    ensures PlanSum(base, Upto(k)) == DelaySum(base, k)
  {
    if k > 1 {
      UptoSum(base, k - 1);
      assert Front(Upto(k)) == Upto(k - 1);
      ComputedIs(base, k);
      hide Computed, Documented;
    }
  }

  lemma UptoIsPlan(st: Strategy, k: nat)
    requires 1 <= k <= st.maxRestarts && k < U32
    ensures BackoffDelay(st.baseBackoff, k).Ok? ==> IsPlan(st, Upto(k))
  {
    forall i | 1 <= i <= k && BackoffDelay(st.baseBackoff, k).Ok? ensures BackoffDelay(st.baseBackoff, i).Ok? {
      SmallerDelay(st.baseBackoff, i, k);
    }
  }

  /** No larger spacing could be promised: for every number of restarts within
      the budget there is a run that spaces them by exactly the bound. */
  lemma RestartSpacingTight(st: Strategy, k: nat)
    requires 1 <= k <= st.maxRestarts && k < U32
    ensures BackoffDelay(st.baseBackoff, k).Ok? ==>
              exists ms :: Monotone(ms) && Run(st, ms).Ok? && |RestartLog(st, ms, 0)| == k
                && RestartLog(st, ms, 0)[k - 1] == RestartLog(st, ms, 0)[0] + DelaySum(st.baseBackoff, k)
  {
    if BackoffDelay(st.baseBackoff, k).Ok? {
      UptoIsPlan(st, k);
      UptoSum(st.baseBackoff, k);
      var ms := PlanAttained(st, Upto(k));
    }
  }

  // ----- What the truncating cast costs -----

  /** Count u = 2^32 starts the delays over, so restarting at it instead of at
      count k comes out below the documented sum. */
  lemma WrappedPlan(st: Strategy, k: nat, u: nat) returns (ns: seq<nat>)
    requires 2 <= k <= u == U32 <= st.maxRestarts && 0 < st.baseBackoff < CAP
    ensures IsPlan(st, ns) && |ns| == k && PlanSum(st.baseBackoff, ns) < DelaySum(st.baseBackoff, k)
  {
    var base := st.baseBackoff;
    ns := Upto(k - 1) + [u];
    assert Front(ns) == Upto(k - 1) && Last(ns) == u;
    UptoSum(base, k - 1);
    NoOverflowIff(base);
    ComputedIs(base, u);
    BelowDocumented(base, k);
    assert Affordable(base, u);
    hide BackoffDelay, Computed, Documented, Affordable;
  }

  lemma BelowDocumented(base: nat, k: nat)
    requires k >= 2 && 0 < base < CAP
    ensures base < Documented(base, k)
  {
    ScaledDoubles(base, 0);
    assert Scaled(base, 0) == base;
    ScaledMonotone(base, 1, Min(Pred(k), 30));
    hide Scaled;
  }

  /** So does any longer run of consecutive restarts. */
  lemma {:induction false} LongPlan(base: nat, k: nat, u: nat)
    requires u == U32 <= k && 0 < base < CAP
    ensures PlanSum(base, Upto(k)) < DelaySum(base, k)
    decreases k
  {
    assert Front(Upto(k)) == Upto(k - 1);
    ComputedIs(base, k);
    hide Computed, Documented;
    if k == u {
      UptoSum(base, k - 1);
      BelowDocumented(base, k);
    } else {
      LongPlan(base, k - 1, u);
    }
  }

  /** The documented spacing, exactly: it is kept if and only if the budget fits in
      32 bits, or all delays are equal because the base is zero or beyond the cap,
      or there are not two restarts to keep apart. */
  lemma DocumentedSpacingIff(st: Strategy, k: nat)
    requires k >= 1
    ensures KeepsApart(st, k, DelaySum(st.baseBackoff, k)) <==>
              || st.maxRestarts < U32 || st.baseBackoff == 0 || st.baseBackoff >= CAP
              || k == 1 || k > st.maxRestarts
  {
    var base := st.baseBackoff;
    SpacingExact(st, k, DelaySum(base, k));
    hide KeepsApart, DelaySum, PlanSum;
    if st.maxRestarts < U32 || base == 0 || base >= CAP || k == 1 || k > st.maxRestarts {
      forall ns | IsPlan(st, ns) && |ns| == k ensures DelaySum(base, k) <= PlanSum(base, ns) {
        PlanCounts(ns);
        if k == 1 {
          NoDelay(base, ns);
        } else {
          PlanAtLeast(base, ns);
        }
      }
    } else if k <= U32 {
      var ns := WrappedPlan(st, k, U32);
    } else {
      LongPlan(base, k, U32);
      NoOverflowIff(base);
      assert IsPlan(st, Upto(k)) by {
        hide BackoffDelay;
      }
    }
  }

  lemma NoDelay(base: nat, ns: seq<nat>)
    requires |ns| == 1
    ensures DelaySum(base, 1) == 0 <= PlanSum(base, ns)
  {
  }

  /** k restarts of a child can happen. */
  ghost predicate Possible(st: Strategy, k: nat)
    requires k >= 1
  {
    k <= st.maxRestarts && Affordable(st.baseBackoff, k)
  }

  lemma UptoFits(st: Strategy, k: nat)
    requires k >= 1 && Possible(st, k)
    ensures IsPlan(st, Upto(k))
  {
    hide BackoffDelay;
  }

  lemma {:induction false} ShortSum(base: nat, k: nat)
    requires k >= 1
    ensures PlanSum(base, Upto(k)) <= DelaySum(base, k)
  {
    if k > 1 {
      ShortSum(base, k - 1);
      assert Front(Upto(k)) == Upto(k - 1);
      ComputedIs(base, k);
      hide Computed, Documented;
    }
  }

  lemma PlanIsPossible(st: Strategy, ns: seq<nat>)
    requires IsPlan(st, ns)
    ensures Possible(st, |ns|)
  {
    PlanCounts(ns);
    AffordableLess(st.baseBackoff, |ns|, Last(ns));
  }

  lemma ImpossibleKeeps(st: Strategy, k: nat, d: int)
    requires k >= 1 && !Possible(st, k)
    ensures KeepsApart(st, k, d)
  {
    SpacingExact(st, k, d);
    hide KeepsApart, PlanSum, Possible;
    forall ns | IsPlan(st, ns) ensures Possible(st, |ns|) {
      PlanIsPossible(st, ns);
    }
  }

  lemma KeptIsBelowSum(st: Strategy, k: nat, d: int)
    requires k >= 1 && Possible(st, k) && KeepsApart(st, k, d)
    ensures d <= DelaySum(st.baseBackoff, k)
  {
    UptoFits(st, k);
    ShortSum(st.baseBackoff, k);
    hide KeepsApart, PlanSum, DelaySum, IsPlan;
    SpacingExact(st, k, d);
  }

  lemma NotBeyondCap(base: nat, k: nat)
    requires k >= 2 && base > 0 && Scaled(base, k - 1) <= CAP
    ensures base < CAP
  {
    ScaledMonotone(base, 0, k - 1);
    assert Scaled(base, 0) == base;
  }

  /** `base * (2^k - 2)` is a lower bound on the spacing of k restarts exactly when
      k restarts cannot happen, or the base is zero, or the budget fits in 32 bits
      and neither the cap nor the largest shift is reached. */
  lemma ClosedSpacingIff(st: Strategy, k: nat)
    requires k >= 2
    ensures KeepsApart(st, k, Scaled(st.baseBackoff, k) - 2 * st.baseBackoff) <==>
              || !Possible(st, k) || st.baseBackoff == 0
              || (st.maxRestarts < U32 && k <= 31 && Scaled(st.baseBackoff, k - 1) <= CAP)
  {
    var base := st.baseBackoff;
    var d, sum := Scaled(base, k) - 2 * base, DelaySum(base, k);
    hide KeepsApart, DelaySum, Scaled, Affordable;
    if Possible(st, k) {
      DelaySumClosedIff(base, k);
      DocumentedSpacingIff(st, k);
      if KeepsApart(st, k, d) {
        KeptIsBelowSum(st, k, d);
        assert d == sum;
      }
      if base > 0 && Scaled(base, k - 1) <= CAP {
        NotBeyondCap(base, k);
      }
    } else {
      ImpossibleKeeps(st, k, d);
    }
  }
}
