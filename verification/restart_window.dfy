/** The documented time window for restarts, which the code never looks at, and
    when ignoring it makes no difference. */
module RestartWindow {
  import opened Basics
  import opened Backoff
  import opened Supervision
  import opened Restarts
  import opened RestartAgreement

  /** How many restarts of the log lie less than `within` before time t. */
  function Recent(log: seq<nat>, within: nat, t: nat): (n: nat)
    ensures n <= |log|
  {
    if log == [] then 0
    else Recent(Front(log), within, t) + (if t - Last(log) < within then 1 else 0)
  }

  /** The documented supervisor: when it restarts child c since its last start. A
      known child is restarted while fewer than the maximum of its restarts are
      recent. */
  function WindowLog(st: Strategy, ms: seq<Stamped>, c: ActorId): seq<nat>
    decreases |ms|, 0
  {
    if ms == [] then []
    else if !Concerns(Last(ms), c) then WindowLog(st, Front(ms), c)
    else if Last(ms).msg.ChildStarted? then []
    else if WindowRestarts(st, Front(ms), Last(ms)) then WindowLog(st, Front(ms), c) + [Last(ms).restartAt]
    else WindowLog(st, Front(ms), c)
  }

  /** Whether it restarts the child on crash message m, after messages ms. */
  predicate WindowRestarts(st: Strategy, ms: seq<Stamped>, m: Stamped)
    requires m.msg.ChildCrashed?
    decreases |ms|, 1
  {
    EverStarted(ms, m.msg.child)
    && Recent(WindowLog(st, ms, m.msg.child), st.within, m.elapsedAt) < st.maxRestarts
  }

  /** After each crash message, whether it has the child restarted. */
  function WindowDecisions(st: Strategy, ms: seq<Stamped>): seq<bool> {
    if ms == [] then []
    else if Last(ms).msg.ChildCrashed? then
      WindowDecisions(st, Front(ms)) + [WindowRestarts(st, Front(ms), Last(ms))]
    else WindowDecisions(st, Front(ms))
  }

  /** A crash that comes after the budget is used up comes within the window of the
      first restart since the child's last start. */
  predicate CrashInWindow(st: Strategy, ms: seq<Stamped>)
    requires ms != [] && Run(st, Front(ms)).Ok?
  {
    Last(ms).msg.ChildCrashed? ==>
      var c := Last(ms).msg.child;
      var log := RestartLog(st, Front(ms), c);
      c in Run(st, Front(ms)).value && |log| == st.maxRestarts > 0 ==> Last(ms).elapsedAt - log[0] < st.within
  }

  /** So does every crash of the run. */
  predicate AllInWindow(st: Strategy, ms: seq<Stamped>)
    requires Run(st, ms).Ok?
  {
    ms == [] || (AllInWindow(st, Front(ms)) && CrashInWindow(st, ms))
  }

  predicate Sorted(log: seq<nat>) {
    forall i, j | 0 <= i < j < |log| :: log[i] <= log[j]
  }

  /** All restarts are recent exactly if the first one is. */
  lemma {:induction false} AllRecentIff(log: seq<nat>, within: nat, t: nat)
    requires Sorted(log) && log != []
    ensures Recent(log, within, t) == |log| <==> t - log[0] < within
  {
    if |log| > 1 {
      AllRecentIff(Front(log), within, t);
    } else {
      assert Front(log) == [];
    }
  }

  lemma {:induction false} LogSorted(st: Strategy, ms: seq<Stamped>, c: ActorId)
    requires Run(st, ms).Ok? && Monotone(ms)
    ensures Sorted(RestartLog(st, ms, c))
    ensures forall t | t in RestartLog(st, ms, c) :: ms != [] && t <= Last(ms).restartAt
  {
    if ms != [] {
      MonotoneFront(ms);
      assert Last(ms).elapsedAt <= Last(ms).restartAt;
      assert Run(st, Front(ms)).Ok?;
      hide Run, Monotone;
      LogSorted(st, Front(ms), c);
      SortedSnoc(RestartLog(st, Front(ms), c), Last(ms).restartAt);
    }
  }

  lemma SortedSnoc(log: seq<nat>, t: nat)
    requires Sorted(log) && forall u | u in log :: u <= t
    ensures Sorted(log + [t])
  {
    assert forall i | 0 <= i < |log| :: log[i] in log;
  }

  /** With zero backoff a child is restarted on each crash within its budget. */
  lemma {:induction false} LogLength(st: Strategy, ms: seq<Stamped>, c: ActorId)
    requires st.baseBackoff == 0
    ensures Run(st, ms).Ok?
    ensures c in Run(st, ms).value ==> |RestartLog(st, ms, c)| == Min(CrashCount(ms, c), st.maxRestarts)
    ensures c !in Run(st, ms).value ==> RestartLog(st, ms, c) == []
  {
    ZeroBackoffRuns(st, ms);
    if ms != [] {
      ZeroBackoffRuns(st, Front(ms));
      LogLength(st, Front(ms), c);
      hide CrashEntry, BackoffDelay;
    }
  }

  /** The two decide the last crash alike, given the same restarts before it. */
  lemma LastDecision(st: Strategy, ms: seq<Stamped>)
    requires st.baseBackoff == 0 && Monotone(ms) && ms != [] && Last(ms).msg.ChildCrashed?
    requires Run(st, ms).Ok? && Run(st, Front(ms)).Ok?
    requires var c := Last(ms).msg.child; WindowLog(st, Front(ms), c) == RestartLog(st, Front(ms), c)
    ensures var c := Last(ms).msg.child;
      (WindowRestarts(st, Front(ms), Last(ms)) <==> c in Run(st, ms).value && Run(st, ms).value[c].alive)
      <==> CrashInWindow(st, ms)
  {
    var c, f := Last(ms).msg.child, Front(ms);
    MonotoneFront(ms);
    ZeroBackoffRuns(st, ms);
    LogLength(st, f, c);
    LogSorted(st, f, c);
    KnownIff(st, f, c);
    KnownBefore(st, ms, c);
    var log := RestartLog(st, f, c);
    if log != [] {
      AllRecentIff(log, st.within, Last(ms).elapsedAt);
    }
    hide Run, RestartLog, CrashCount, Sorted, WindowLog, EverStarted;
  }

  lemma KnownBefore(st: Strategy, ms: seq<Stamped>, c: ActorId)
    requires Run(st, ms).Ok? && ms != [] && Fails(Last(ms), c)
    ensures c in Run(st, ms).value <==> c in Run(st, Front(ms)).value
    ensures CrashCount(ms, c) == CrashCount(Front(ms), c) + 1
  {
    hide CrashEntry, BackoffDelay;
  }

  lemma {:induction false} WindowInduction(st: Strategy, ms: seq<Stamped>)
    requires st.baseBackoff == 0 && Monotone(ms) && Run(st, ms).Ok?
    ensures |ActorDecisions(st, ms)| == |WindowDecisions(st, ms)|
    ensures ActorDecisions(st, ms) == WindowDecisions(st, ms) <==> AllInWindow(st, ms)
    ensures AllInWindow(st, ms) ==> forall c :: WindowLog(st, ms, c) == RestartLog(st, ms, c)
  {
    if ms != [] {
      var f := Front(ms);
      MonotoneFront(ms);
      WindowInduction(st, f);
      if Last(ms).msg.ChildCrashed? {
        var c := Last(ms).msg.child;
        var kept := c in Run(st, ms).value && Run(st, ms).value[c].alive;
        SnocEqual(ActorDecisions(st, f), kept, WindowDecisions(st, f), WindowRestarts(st, f, Last(ms)));
        if AllInWindow(st, f) {
          LastDecision(st, ms);
        }
      }
      hide Run, WindowRestarts, CrashInWindow, Monotone;
    }
  }

  /** Ignoring the window, exactly: with zero backoff and a clock that never goes
      back, the supervisor decides every crash as the documented one would if and
      only if each crash of a child that has used up its budget comes within the
      window of the first restart since its start. */
  lemma WindowIgnoredIff(st: Strategy, ms: seq<Stamped>)
    requires st.baseBackoff == 0 && Monotone(ms)
    ensures Run(st, ms).Ok?
    ensures ActorDecisions(st, ms) == WindowDecisions(st, ms) <==> AllInWindow(st, ms)
  {
    ZeroBackoffRuns(st, ms);
    WindowInduction(st, ms);
  }

  /** For instance, for any window w: with a budget of one, a second crash a window
      after the first is given up on, and the documentation has it restarted. */
  lemma WindowForgotten(w: nat)
    ensures var st := OneForOne(1, w, 0);
      var start, crash := Stamped(ChildStarted(7, ""), 0, 0), Stamped(ChildCrashed(7, ""), 0, 0);
      var ms := [start, crash, Stamped(ChildCrashed(7, ""), w, w)];
      && Run(st, ms).Ok?
      && ActorDecisions(st, ms) == [true, false]
      && WindowDecisions(st, ms) == [true, true]
  {
    var st := OneForOne(1, w, 0);
    var m1 := [Stamped(ChildStarted(7, ""), 0, 0)];
    var m2 := m1 + [Stamped(ChildCrashed(7, ""), 0, 0)];
    var m3 := m2 + [Stamped(ChildCrashed(7, ""), w, w)];
    assert Front(m1) == [] && Front(m2) == m1 && Front(m3) == m2;
    assert m3 == [m1[0], m2[1], m3[2]];
    ZeroBackoffRuns(st, m1);
    ZeroBackoffRuns(st, m2);
    ZeroBackoffRuns(st, m3);
    assert Starts(m1[0], 7) && Starts(m2[0], 7);
    hide BackoffDelay, Run, CrashEntry;
    assert WindowLog(st, m1, 7) == [];
    assert Recent([], w, 0) == 0;
    assert WindowLog(st, m2, 7) == [0];
    assert Front([0]) == [];
    assert Recent([0], w, w) == 0;
    assert ActorDecisions(st, m1) == [] && WindowDecisions(st, m1) == [];
    assert ActorDecisions(st, m2) == [true] && WindowDecisions(st, m2) == [true];
  }
}
