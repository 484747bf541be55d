/** What a supervisor knows about a child, read off the messages it was sent. */
module Statuses {
  import opened Basics
  import opened Backoff
  import opened Supervision
  import opened Restarts
  import opened RestartAgreement

  /** The name child c was last started under. */
  function LastName(ms: seq<Stamped>, c: ActorId): string {
    if ms == [] then ""
    else if Starts(Last(ms), c) then Last(ms).msg.name
    else LastName(Front(ms), c)
  }

  /** The last message about child c started it, or was a crash that restarts it. */
  predicate IsAlive(st: Strategy, ms: seq<Stamped>, c: ActorId)
    requires Run(st, ms).Ok?
  {
    if ms == [] then false
    else if Starts(Last(ms), c) then true
    else if Fails(Last(ms), c) then
      var log, n := RestartLog(st, Front(ms), c), CrashCount(ms, c);
      EverStarted(ms, c) && n <= st.maxRestarts
      && (log == [] || Passed(Last(log), Computed(st.baseBackoff, n), Last(ms).elapsedAt))
    else IsAlive(st, Front(ms), c)
  }

  /** A known child's entry: its last name, its crashes since its last start, and
      whether it is alive. */
  lemma {:induction false} EntryMeaning(st: Strategy, ms: seq<Stamped>, c: ActorId)
    requires Run(st, ms).Ok? && c in Run(st, ms).value
    ensures var e := Run(st, ms).value[c];
      e.name == LastName(ms, c) && e.restartCount == CrashCount(ms, c) && (e.alive <==> IsAlive(st, ms, c))
  {
    RestartBudget(st, ms, c);
    KnownIff(st, ms, c);
    if ms != [] {
      if Fails(Last(ms), c) {
        RestartDecision(st, ms, c);
        EntryName(st, ms, c);
        hide Run, RestartLog, CrashCount, Passed, Computed;
      } else if !Starts(Last(ms), c) {
        Untouched(st, ms, c);
        EntryMeaning(st, Front(ms), c);
        hide Run, RestartLog, CrashCount;
      } else {
        hide BackoffDelay, CrashEntry;
      }
    }
  }

  lemma Untouched(st: Strategy, ms: seq<Stamped>, c: ActorId)
    requires Run(st, ms).Ok? && ms != [] && c in Run(st, ms).value && !Concerns(Last(ms), c)
    ensures c in Run(st, Front(ms)).value && Run(st, ms).value[c] == Run(st, Front(ms)).value[c]
    ensures CrashCount(ms, c) == CrashCount(Front(ms), c)
  {
    hide BackoffDelay, CrashEntry;
  }

  lemma {:induction false} EntryName(st: Strategy, ms: seq<Stamped>, c: ActorId)
    requires Run(st, ms).Ok? && c in Run(st, ms).value
    ensures Run(st, ms).value[c].name == LastName(ms, c)
  {
    hide BackoffDelay;
    if ms != [] && !Starts(Last(ms), c) {
      EntryName(st, Front(ms), c);
    }
  }

  /** The delay for this crash of child c, or for count 0 if it was never started,
      overflows. */
  predicate Overflows(st: Strategy, ms: seq<Stamped>)
    requires ms != []
  {
    Last(ms).msg.ChildCrashed? &&
      var c := Last(ms).msg.child;
      BackoffDelay(st.baseBackoff, if EverStarted(ms, c) then CrashCount(ms, c) else 0).Panic?
  }

  /** The supervisor panics exactly on the first crash whose delay overflows, even
      if that crash is beyond the budget. */
  lemma {:induction false} PanicsIff(st: Strategy, ms: seq<Stamped>)
    ensures Run(st, ms).Panic? <==> exists n :: 1 <= n <= |ms| && Overflows(st, ms[..n])
  {
    if ms != [] {
      var f := Front(ms);
      PanicsIff(st, f);
      assert ms[..|ms|] == ms;
      forall n | 1 <= n <= |f| ensures f[..n] == ms[..n] {
      }
      if Run(st, f).Ok? {
        LastPanics(st, ms);
        hide Run, Overflows;
        if Run(st, ms).Panic? {
          assert Overflows(st, ms[..|ms|]);
        }
      } else {
        var n :| 1 <= n <= |f| && Overflows(st, f[..n]);
        assert Overflows(st, ms[..n]);
      }
    }
  }

  lemma LastPanics(st: Strategy, ms: seq<Stamped>)
    requires ms != [] && Run(st, Front(ms)).Ok?
    ensures Run(st, ms).Panic? <==> Overflows(st, ms)
  {
    if Last(ms).msg.ChildCrashed? {
      var c := Last(ms).msg.child;
      KnownIff(st, Front(ms), c);
      SameStarts(ms, c);
      RestartBudget(st, Front(ms), c);
      hide BackoffDelay, EverStarted;
    }
  }

  lemma SameStarts(ms: seq<Stamped>, c: ActorId)
    requires ms != [] && !Starts(Last(ms), c)
    ensures EverStarted(ms, c) <==> EverStarted(Front(ms), c)
  {
    if EverStarted(ms, c) {
      var j :| 0 <= j < |ms| && Starts(ms[j], c);
      assert Starts(Front(ms)[j], c);
    }
    if EverStarted(Front(ms), c) {
      var j :| 0 <= j < |Front(ms)| && Starts(Front(ms)[j], c);
      assert Starts(ms[j], c);
    }
  }
}
