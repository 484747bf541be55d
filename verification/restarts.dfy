/** Restarts over whole runs of the supervisor: how many, how far apart, and how
    they compare with the plain restart counter. */
module Restarts {
  import opened Basics
  import opened Backoff
  import opened Supervision

  /** The clock never goes back, within a message or between messages. */
  predicate Monotone(ms: seq<Stamped>) {
    && (forall i | 0 <= i < |ms| :: ms[i].elapsedAt <= ms[i].restartAt)
    && (forall i, j | 0 <= i < j < |ms| :: ms[i].restartAt <= ms[j].elapsedAt)
  }

  /** Crash messages of child c since it was last started. */
  function CrashCount(ms: seq<Stamped>, c: ActorId): nat {
    if ms == [] then 0
    else if !Concerns(Last(ms), c) then CrashCount(Front(ms), c)
    else if Last(ms).msg.ChildStarted? then 0
    else CrashCount(Front(ms), c) + 1
  }

  /** When child c was restarted since it was last started. */
  function RestartLog(st: Strategy, ms: seq<Stamped>, c: ActorId): seq<nat>
    requires Run(st, ms).Ok?
  {
    if ms == [] then []
    else if !Concerns(Last(ms), c) then RestartLog(st, Front(ms), c)
    else if Last(ms).msg.ChildStarted? then []
    else if c in Run(st, ms).value && Run(st, ms).value[c].alive then
      RestartLog(st, Front(ms), c) + [Last(ms).restartAt]
    else RestartLog(st, Front(ms), c)
  }

  lemma MonotoneFront(ms: seq<Stamped>)
    requires Monotone(ms) && ms != []
    ensures Monotone(Front(ms))
    ensures Front(ms) != [] ==> Last(Front(ms)).restartAt <= Last(ms).elapsedAt
  {
  }

  /** The time stamp in a child's entry is that of its last restart. */
  lemma {:induction false} LastRestart(st: Strategy, ms: seq<Stamped>, c: ActorId)
    requires Run(st, ms).Ok? && c in Run(st, ms).value
    ensures var log := RestartLog(st, ms, c);
      Run(st, ms).value[c].lastRestartAt == if log == [] then None else Some(Last(log))
  {
    hide BackoffDelay;
    if ms != [] && c in Run(st, Front(ms)).value {
      LastRestart(st, Front(ms), c);
    } else if ms != [] {
      RestartBudget(st, Front(ms), c);
    }
  }

  /** Restart budget: a child's count is its crashes since its last start, its
      restarts never exceed the maximum, and over budget it is dead. */
  lemma {:induction false} RestartBudget(st: Strategy, ms: seq<Stamped>, c: ActorId)
    requires Run(st, ms).Ok?
    ensures c in Run(st, ms).value ==> Run(st, ms).value[c].restartCount == CrashCount(ms, c)
    ensures c !in Run(st, ms).value ==> RestartLog(st, ms, c) == []
    ensures |RestartLog(st, ms, c)| <= Min(CrashCount(ms, c), st.maxRestarts)
    ensures c in Run(st, ms).value && CrashCount(ms, c) > st.maxRestarts ==> !Run(st, ms).value[c].alive
  {
    hide BackoffDelay;
    if ms != [] {
      RestartBudget(st, Front(ms), c);
    }
  }

  /** A delay from a restart is over, also if the clock has gone back since. */
  predicate Passed(since: nat, delay: nat, now: nat) {
    delay == 0 || since + delay <= now
  }

  /** When exactly a crash restarts its child: the crashes since the last start
      are within the budget, and either none of them restarted it yet or the delay
      computed for their number has passed since the last restart. */
  lemma RestartDecision(st: Strategy, ms: seq<Stamped>, c: ActorId)
    requires Run(st, ms).Ok? && ms != [] && Last(ms).msg.ChildCrashed? && Concerns(Last(ms), c)
    requires c in Run(st, ms).value
    ensures var log, n := RestartLog(st, Front(ms), c), CrashCount(ms, c);
      && BackoffDelay(st.baseBackoff, n).Ok?
      && (Run(st, ms).value[c].alive <==>
            n <= st.maxRestarts
            && (log == [] || Passed(Last(log), BackoffDelay(st.baseBackoff, n).value, Last(ms).elapsedAt)))
  {
    LastRestart(st, Front(ms), c);
    RestartBudget(st, Front(ms), c);
    hide BackoffDelay, RestartLog;
  }
}
