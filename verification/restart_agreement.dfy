/** When the supervisor actor and the plain restart counter decide alike. */
module RestartAgreement {
  import opened Basics
  import opened Backoff
  import opened Supervision
  import opened Restarts

  /** The children named by the crash messages, in order. */
  function Crashes(ms: seq<Stamped>): seq<ActorId> {
    if ms == [] then []
    else if Last(ms).msg.ChildCrashed? then Crashes(Front(ms)) + [Last(ms).msg.child]
    else Crashes(Front(ms))
  }

  /** After each crash message, whether the actor has the child restarted. */
  function ActorDecisions(st: Strategy, ms: seq<Stamped>): seq<bool>
    requires Run(st, ms).Ok?
  {
    if ms == [] then []
    else if Last(ms).msg.ChildCrashed? then
      var c := Last(ms).msg.child;
      ActorDecisions(st, Front(ms)) + [c in Run(st, ms).value && Run(st, ms).value[c].alive]
    else ActorDecisions(st, Front(ms))
  }

  /** What the plain counter answers to each failure in a sequence. */
  function CounterDecisions(max: nat, cs: seq<ActorId>): seq<bool> {
    if cs == [] then []
    else CounterDecisions(max, Front(cs)) + [multiset(cs)[Last(cs)] <= max]
  }

  /** Every child is started once, before its first crash. */
  predicate StartedOnce(ms: seq<Stamped>) {
    ms == [] ||
    (StartedOnce(Front(ms)) &&
     match Last(ms).msg
     case GetStatus => true
     case ChildStarted(c, _) => Of(Front(ms), c) == []
     case ChildCrashed(c, _) => Of(Front(ms), c) != [])
  }

  /** With zero backoff a known child is restarted exactly while in budget. */
  lemma {:induction false} ZeroBackoffRuns(st: Strategy, ms: seq<Stamped>)
    requires st.baseBackoff == 0
    ensures Run(st, ms).Ok?
    ensures forall c | c in Run(st, ms).value ::
      && Run(st, ms).value[c].restartCount == CrashCount(ms, c)
      && (Run(st, ms).value[c].alive <==> CrashCount(ms, c) <= st.maxRestarts)
  {
    if ms != [] {
      ZeroBackoffRuns(st, Front(ms));
      assert forall n :: Scaled(0, n) == 0;
      assert forall n :: BackoffDelay(0, n) == Ok(0);
      hide BackoffDelay, Scaled;
    }
  }

  lemma {:induction false} StartedOnceCounts(st: Strategy, ms: seq<Stamped>, c: ActorId)
    requires StartedOnce(ms) && Run(st, ms).Ok?
    ensures c in Run(st, ms).value <==> Of(ms, c) != []
    ensures CrashCount(ms, c) == multiset(Crashes(ms))[c]
    ensures Of(ms, c) == [] ==> CrashCount(ms, c) == 0
  {
    if ms != [] {
      StartedOnceCounts(st, Front(ms), c);
    }
  }

  /** With zero backoff, and every child started once before it crashes, the
      actor decides every crash as the plain restart counter does. */
  lemma {:induction false} AgreesWithCounter(st: Strategy, ms: seq<Stamped>)
    requires st.baseBackoff == 0 && StartedOnce(ms)
    ensures Run(st, ms).Ok?
    ensures ActorDecisions(st, ms) == CounterDecisions(st.maxRestarts, Crashes(ms))
  {
    ZeroBackoffRuns(st, ms);
    if ms != [] {
      AgreesWithCounter(st, Front(ms));
      if Last(ms).msg.ChildCrashed? {
        var c := Last(ms).msg.child;
        StartedOnceCounts(st, ms, c);
        assert Front(Crashes(ms)) == Crashes(Front(ms));
      }
    }
  }

  // ----- Agreement, exactly -----

  predicate Starts(m: Stamped, c: ActorId) {
    m.msg.ChildStarted? && m.msg.child == c
  }

  predicate Fails(m: Stamped, c: ActorId) {
    m.msg.ChildCrashed? && m.msg.child == c
  }

  predicate EverStarted(ms: seq<Stamped>, c: ActorId) {
    exists j | 0 <= j < |ms| :: Starts(ms[j], c)
  }

  /** All crash messages of child c. */
  function Total(ms: seq<Stamped>, c: ActorId): nat {
    multiset(Crashes(ms))[c]
  }

  /** Child c is started before its first crash, if it crashes. */
  predicate StartedFirst(ms: seq<Stamped>, c: ActorId) {
    forall i | 0 <= i < |ms| && Fails(ms[i], c) :: EverStarted(ms[..i], c)
  }

  /** Child c is started between two of its crashes. */
  predicate StartedBetween(ms: seq<Stamped>, c: ActorId) {
    exists i, j, k :: 0 <= i < j < k < |ms| && Fails(ms[i], c) && Starts(ms[j], c) && Fails(ms[k], c)
  }

  /** The same restart decision on the crash that ends ms. */
  predicate SameDecision(max: nat, ms: seq<Stamped>)
    requires ms != []
  {
    Last(ms).msg.ChildCrashed? ==>
      var c := Last(ms).msg.child;
      (EverStarted(ms, c) && CrashCount(ms, c) <= max <==> Total(ms, c) <= max)
  }

  lemma TotalStep(ms: seq<Stamped>, n: nat, c: ActorId)
    requires n < |ms|
    ensures Total(ms[..n + 1], c) == Total(ms[..n], c) + (if Fails(ms[n], c) then 1 else 0)
  {
    assert Front(ms[..n + 1]) == ms[..n];
  }

  lemma {:induction false} TotalMonotone(ms: seq<Stamped>, m: nat, n: nat, c: ActorId)
    requires m <= n <= |ms|
    ensures Total(ms[..m], c) <= Total(ms[..n], c)
  {
    if m < n {
      TotalMonotone(ms, m, n - 1, c);
      TotalStep(ms, n - 1, c);
    }
  }

  /** The t-th crash of a child. */
  lemma {:induction false} CrashNumber(ms: seq<Stamped>, c: ActorId, t: nat) returns (n: nat)
    requires 1 <= t <= Total(ms, c)
    ensures n < |ms| && Fails(ms[n], c) && Total(ms[..n + 1], c) == t
  {
    n := |ms| - 1;
    assert ms[..n + 1] == ms;
    assert Front(ms) == ms[..n];
    TotalStep(ms, n, c);
    if t <= Total(Front(ms), c) {
      n := CrashNumber(Front(ms), c, t);
      assert Front(ms)[..n + 1] == ms[..n + 1];
    }
  }

  lemma {:induction false} KnownIff(st: Strategy, ms: seq<Stamped>, c: ActorId)
    requires Run(st, ms).Ok?
    ensures c in Run(st, ms).value <==> EverStarted(ms, c)
  {
    if ms != [] {
      KnownIff(st, Front(ms), c);
      if EverStarted(Front(ms), c) {
        var j :| 0 <= j < |Front(ms)| && Starts(Front(ms)[j], c);
        assert Starts(ms[j], c);
      }
      if EverStarted(ms, c) && !Starts(Last(ms), c) {
        var j :| 0 <= j < |ms| && Starts(ms[j], c);
        assert Starts(Front(ms)[j], c);
      }
    }
  }

  /** A start wipes out at least the crashes before it. */
  lemma {:induction false} CountAfterStart(ms: seq<Stamped>, c: ActorId, j: nat, n: nat)
    requires j < n <= |ms| && Starts(ms[j], c)
    ensures CrashCount(ms[..n], c) + Total(ms[..j], c) <= Total(ms[..n], c)
  {
    TotalMonotone(ms, j, n, c);
    TotalStep(ms, n - 1, c);
    assert Front(ms[..n]) == ms[..n - 1];
    if n > j + 1 {
      CountAfterStart(ms, c, j, n - 1);
    }
  }

  /** If no start comes after a crash, none is wiped out. */
  lemma {:induction false} CountIsTotal(ms: seq<Stamped>, c: ActorId)
    ensures CrashCount(ms, c) <= Total(ms, c)
    ensures (forall j | 0 <= j < |ms| && Starts(ms[j], c) :: Total(ms[..j], c) == 0) ==>
              CrashCount(ms, c) == Total(ms, c)
  {
    if ms != [] {
      var n := |ms| - 1;
      assert ms[..n] == Front(ms) && ms[..n + 1] == ms;
      TotalStep(ms, n, c);
      CountIsTotal(Front(ms), c);
      forall j | 0 <= j < n ensures Front(ms)[j] == ms[j] && Front(ms)[..j] == ms[..j] {
      }
    }
  }

  /** The same decision on every crash. */
  predicate SameThroughout(max: nat, ms: seq<Stamped>) {
    ms == [] || (SameThroughout(max, Front(ms)) && SameDecision(max, ms))
  }

  lemma {:induction false} SameThroughoutIff(max: nat, ms: seq<Stamped>)
    ensures SameThroughout(max, ms) <==> forall n | 1 <= n <= |ms| :: SameDecision(max, ms[..n])
  {
    hide SameDecision;
    if ms != [] {
      var f := Front(ms);
      SameThroughoutIff(max, f);
      assert ms[..|ms|] == ms;
      forall n | 1 <= n <= |f| ensures f[..n] == ms[..n] {
      }
      if forall n | 1 <= n <= |ms| :: SameDecision(max, ms[..n]) {
        forall n | 1 <= n <= |f| ensures SameDecision(max, f[..n]) {
          assert f[..n] == ms[..n];
        }
      }
    }
  }

  lemma SnocEqual<T>(a: seq<T>, x: T, b: seq<T>, y: T)
    requires |a| == |b|
    ensures a + [x] == b + [y] <==> a == b && x == y
  {
    if a + [x] == b + [y] {
      assert a == (a + [x])[..|a|] && b == (b + [y])[..|b|];
      assert (a + [x])[|a|] == (b + [y])[|b|];
    }
  }

  lemma {:induction false} AgreeOnEvery(st: Strategy, ms: seq<Stamped>)
    requires st.baseBackoff == 0 && Run(st, ms).Ok?
    ensures |ActorDecisions(st, ms)| == |CounterDecisions(st.maxRestarts, Crashes(ms))|
    ensures ActorDecisions(st, ms) == CounterDecisions(st.maxRestarts, Crashes(ms)) <==>
              SameThroughout(st.maxRestarts, ms)
  {
    if ms != [] {
      var f, max := Front(ms), st.maxRestarts;
      AgreeOnEvery(st, f);
      ZeroBackoffRuns(st, ms);
      if Last(ms).msg.ChildCrashed? {
        var c := Last(ms).msg.child;
        KnownIff(st, ms, c);
        assert Front(Crashes(ms)) == Crashes(f) && Last(Crashes(ms)) == c;
        var kept := c in Run(st, ms).value && Run(st, ms).value[c].alive;
        SnocEqual(ActorDecisions(st, f), kept, CounterDecisions(max, Crashes(f)), Total(ms, c) <= max);
      }
      hide Handle, CrashCount, EverStarted;
    }
  }

  /** A crash before any start is decided differently. */
  lemma UnknownDisagrees(max: nat, ms: seq<Stamped>, c: ActorId, i: nat) returns (n: nat)
    requires max >= 1 && i < |ms| && Fails(ms[i], c) && !EverStarted(ms[..i], c)
    ensures n < |ms| && !SameDecision(max, ms[..n + 1])
  {
    TotalStep(ms, i, c);
    n := CrashNumber(ms[..i + 1], c, 1);
    var p := ms[..n + 1];
    assert ms[..i + 1][..n + 1] == p;
    forall j | 0 <= j < |p| ensures !Starts(p[j], c) {
      if j < i {
        assert p[j] == ms[..i][j];
      }
    }
    assert Last(p) == ms[n];
  }

  /** So is a crash after a start between crashes, if there are too many in all. */
  lemma ResetDisagrees(max: nat, ms: seq<Stamped>, c: ActorId, i: nat, j: nat, k: nat) returns (n: nat)
    requires max >= 1 && i < j < k < |ms| && Fails(ms[i], c) && Starts(ms[j], c) && Fails(ms[k], c)
    requires Total(ms, c) > max
    ensures n < |ms| && !SameDecision(max, ms[..n + 1])
  {
    var before := Total(ms[..j], c);
    TotalStep(ms, i, c);
    TotalMonotone(ms, i + 1, j, c);
    TotalMonotone(ms, j, k, c);
    TotalStep(ms, k, c);
    TotalMonotone(ms, k + 1, |ms|, c);
    assert ms[..|ms|] == ms;
    var t := (if before >= max then before else max) + 1;
    n := CrashNumber(ms, c, t);
    if n < j {
      TotalMonotone(ms, n + 1, j, c);
    }
    CountAfterStart(ms, c, j, n + 1);
    var p := ms[..n + 1];
    assert Last(p) == ms[n] && Starts(p[j], c);
  }

  lemma KnownAtCrash(ms: seq<Stamped>, n: nat, c: ActorId)
    requires n < |ms| && Fails(ms[n], c) && StartedFirst(ms, c)
    ensures EverStarted(ms[..n + 1], c)
  {
    var s :| 0 <= s < |ms[..n]| && Starts(ms[..n][s], c);
    assert Starts(ms[..n + 1][s], c);
  }

  lemma NothingWipedOut(ms: seq<Stamped>, n: nat, c: ActorId)
    requires n < |ms| && Fails(ms[n], c) && !StartedBetween(ms, c)
    ensures CrashCount(ms[..n + 1], c) == Total(ms[..n + 1], c)
  {
    var p := ms[..n + 1];
    forall j | 0 <= j < |p| && Starts(p[j], c) ensures Total(p[..j], c) == 0 {
      if Total(p[..j], c) > 0 {
        var i := CrashNumber(p[..j], c, 1);
      }
    }
    CountIsTotal(p, c);
  }

  /** With neither, every crash of the child is decided alike. */
  lemma AgreesOn(max: nat, ms: seq<Stamped>, n: nat, c: ActorId)
    requires n < |ms| && Fails(ms[n], c)
    requires max == 0 || (StartedFirst(ms, c) && (Total(ms, c) <= max || !StartedBetween(ms, c)))
    ensures SameDecision(max, ms[..n + 1])
  {
    var p := ms[..n + 1];
    assert Last(p) == ms[n] && Front(p) == ms[..n];
    TotalStep(ms, n, c);
    TotalMonotone(ms, n + 1, |ms|, c);
    assert ms[..|ms|] == ms;
    CountIsTotal(p, c);
    if max > 0 {
      KnownAtCrash(ms, n, c);
      if Total(ms, c) > max {
        NothingWipedOut(ms, n, c);
      }
    }
    hide StartedFirst, StartedBetween, EverStarted, Total;
  }

  lemma QuietAgrees(max: nat, ms: seq<Stamped>)
    requires ms != [] && !Last(ms).msg.ChildCrashed?
    ensures SameDecision(max, ms)
  {
  }

  /** A child that crashes is started before its first crash, and either crashes no
      more often than max in all or is never started between two of its crashes. */
  predicate Comparable(max: nat, ms: seq<Stamped>, c: ActorId) {
    StartedFirst(ms, c) && (Total(ms, c) <= max || !StartedBetween(ms, c))
  }

  lemma ComparableAgrees(max: nat, ms: seq<Stamped>)
    requires max == 0 || forall c :: Comparable(max, ms, c)
    ensures SameThroughout(max, ms)
  {
    SameThroughoutIff(max, ms);
    hide SameDecision, SameThroughout, StartedFirst, StartedBetween, Total;
    forall n | 1 <= n <= |ms| ensures SameDecision(max, ms[..n]) {
      if ms[n - 1].msg.ChildCrashed? {
        assert max == 0 || Comparable(max, ms, ms[n - 1].msg.child);
        AgreesOn(max, ms, n - 1, ms[n - 1].msg.child);
      } else {
        QuietAgrees(max, ms[..n]);
      }
    }
  }

  lemma OtherwiseDisagrees(max: nat, ms: seq<Stamped>, c: ActorId)
    requires max > 0 && !Comparable(max, ms, c)
    ensures !SameThroughout(max, ms)
  {
    SameThroughoutIff(max, ms);
    hide SameDecision, SameThroughout, Total, EverStarted;
    var n: nat;
    if !StartedFirst(ms, c) {
      var i :| 0 <= i < |ms| && Fails(ms[i], c) && !EverStarted(ms[..i], c);
      n := UnknownDisagrees(max, ms, c, i);
    } else {
      var i, j, k :| 0 <= i < j < k < |ms| && Fails(ms[i], c) && Starts(ms[j], c) && Fails(ms[k], c);
      n := ResetDisagrees(max, ms, c, i, j, k);
    }
    assert !SameDecision(max, ms[..n + 1]);
  }

  /** With zero backoff the two supervisors decide every crash alike if and only if
      the budget is zero, or every child that crashes is started before its first
      crash and either crashes no more often than the budget in all or is never
      started between two of its crashes. */
  lemma AgreesExactlyIff(st: Strategy, ms: seq<Stamped>)
    requires st.baseBackoff == 0
    ensures Run(st, ms).Ok?
    ensures ActorDecisions(st, ms) == CounterDecisions(st.maxRestarts, Crashes(ms)) <==>
              st.maxRestarts == 0 || forall c :: Comparable(st.maxRestarts, ms, c)
  {
    ZeroBackoffRuns(st, ms);
    AgreeOnEvery(st, ms);
    hide Comparable, Run, ActorDecisions, CounterDecisions, SameThroughout;
    if st.maxRestarts == 0 || forall c :: Comparable(st.maxRestarts, ms, c) {
      ComparableAgrees(st.maxRestarts, ms);
    } else {
      var c :| !Comparable(st.maxRestarts, ms, c);
      OtherwiseDisagrees(st.maxRestarts, ms, c);
    }
  }

  lemma TwoFailures(c: ActorId)
    ensures CounterDecisions(1, [c, c]) == [true, false]
  {
    var none: seq<ActorId>, one: seq<ActorId>, two: seq<ActorId> := [], [c], [c, c];
    assert Front(one) == none && Front(two) == one;
    assert multiset(one)[c] == 1 && multiset(two)[c] == 2;
    assert CounterDecisions(1, none) == [];
    assert CounterDecisions(1, one) == [true];
  }

  /** For instance a second start resets the actor's count but not the counter's. */
  lemma SecondStartDisagrees()
    ensures var st := OneForOne(1, 0, 0);
      var start, crash := Stamped(ChildStarted(7, ""), 0, 0), Stamped(ChildCrashed(7, ""), 0, 0);
      var ms := [start, crash, start, crash];
      && Run(st, ms).Ok?
      && ActorDecisions(st, ms) == [true, true]
      && CounterDecisions(1, Crashes(ms)) == [true, false]
  {
    var st := OneForOne(1, 0, 0);
    var start, crash := Stamped(ChildStarted(7, ""), 0, 0), Stamped(ChildCrashed(7, ""), 0, 0);
    var none: seq<Stamped> := [];
    var m1, m2, m3, m4 := [start], [start, crash], [start, crash, start], [start, crash, start, crash];
    assert Front(m1) == none && Front(m2) == m1 && Front(m3) == m2 && Front(m4) == m3;
    ZeroBackoffRuns(st, none);
    ZeroBackoffRuns(st, m1);
    ZeroBackoffRuns(st, m2);
    ZeroBackoffRuns(st, m3);
    ZeroBackoffRuns(st, m4);
    TwoFailures(7);
    hide BackoffDelay, Run, CounterDecisions;
    assert ActorDecisions(st, none) == [] && Crashes(none) == [];
    assert ActorDecisions(st, m1) == [] && Crashes(m1) == [];
    assert ActorDecisions(st, m2) == [true] && Crashes(m2) == [7];
    assert ActorDecisions(st, m3) == [true] && Crashes(m3) == [7];
    assert ActorDecisions(st, m4) == [true, true] && Crashes(m4) == [7, 7];
  }
}
