/** Round-robin dispatch with a 64-bit ticket counter: how evenly consecutive
    spawns are spread over the queues, including across the counter's wrap. */
module RoundRobin {
  import opened Arithmetic
  import opened WorkStealing

  /** How many of the k tickets from a on go to queue q of n. */
  function Assigned(a: nat, k: nat, n: nat, q: nat): nat
    requires n > 0
  {
    if k == 0 then 0
    else Assigned(a, k - 1, n, q) + (if QueueOf(a + k - 1, n) == q then 1 else 0)
  }

  /** No two queues' shares of the window differ by more than d. */
  ghost predicate Balanced(a: nat, k: nat, n: nat, d: nat)
    requires n > 0
  {
    forall p: nat, q: nat :: p < n && q < n ==> Assigned(a, k, n, p) <= Assigned(a, k, n, q) + d
  }

  /** The window does not contain both sides of a counter wrap. */
  predicate Unwrapped(a: nat, k: nat) {
    a % WRAP + k <= WRAP
  }

  /** Tickets go round the queues: the first of a cycle of the counter to queue 0,
      each further one to the queue after the last. */
  lemma TicketsGoRound(t: nat, n: nat)
    requires n > 0
    ensures t % WRAP == 0 ==> QueueOf(t, n) == 0
    ensures (t + 1) % WRAP != 0 ==>
              QueueOf(t + 1, n) == if QueueOf(t, n) + 1 == n then 0 else QueueOf(t, n) + 1
  {
    var x := t % WRAP;
    DivMod(t, WRAP);
    if x + 1 < WRAP {
      QuotientIs(t + 1, WRAP, t / WRAP, x + 1);
      DivMod(x, n);
      if x % n + 1 < n {
        QuotientIs(x + 1, n, x / n, x % n + 1);
      } else {
        Distribute(x / n, n);
        QuotientIs(x + 1, n, x / n + 1, 0);
      }
    } else {
      QuotientIs(t + 1, WRAP, t / WRAP + 1, 0);
    }
    if x == 0 {
      QuotientIs(0, n, 0, 0);
    }
  }

  lemma FloorStep(x: int, n: nat)
    requires n > 0
    ensures x / n - (x - 1) / n == if x % n == 0 then 1 else 0
  {
    var d, r := x / n, x % n;
    assert x == d * n + r;
    if r == 0 {
      assert x - 1 == (d - 1) * n + (n - 1);
      QuotientIs(x - 1, n, d - 1, n - 1);
    } else {
      assert x - 1 == d * n + (r - 1);
      QuotientIs(x - 1, n, d, r - 1);
    }
  }

  lemma SameResidue(x: int, q: nat, n: nat)
    requires q < n
    ensures x % n == q <==> (x - q) % n == 0
  {
    var d, r := x / n, x % n;
    if r == q {
      QuotientIs(x - q, n, d, 0);
    }
    if (x - q) % n == 0 {
      QuotientIs(x, n, (x - q) / n, q);
    }
  }

  lemma ResidueShift(a: nat, i: nat, n: nat)
    requires n > 0 && Unwrapped(a, i + 1)
    ensures QueueOf(a + i, n) == (a % WRAP + i) % n
  {
    QuotientIs(a + i, WRAP, a / WRAP, a % WRAP + i);
  }

  /** Within one counter cycle a queue's share is a difference of two floors. */
  lemma {:induction false} AssignedFloors(a: nat, k: nat, n: nat, q: nat)
    requires q < n && Unwrapped(a, k)
    ensures Assigned(a, k, n, q) == (a % WRAP + k - 1 - q) / n - (a % WRAP - 1 - q) / n
  {
    if k > 0 {
      AssignedFloors(a, k - 1, n, q);
      ResidueShift(a, k - 1, n);
      var x := a % WRAP + k - 1;
      SameResidue(x, q, n);
      FloorStep(x - q, n);
    }
  }

  lemma FloorGap(y: int, k: nat, n: nat)
    requires n > 0
    ensures k / n <= (y + k) / n - y / n <= k / n + (if k % n == 0 then 0 else 1)
  {
    var d, r := y / n, y % n;
    var e, m := k / n, k % n;
    assert y + k == (d + e) * n + (r + m);
    if r + m < n {
      QuotientIs(y + k, n, d + e, r + m);
    } else {
      assert y + k == (d + e + 1) * n + (r + m - n);
      QuotientIs(y + k, n, d + e + 1, r + m - n);
    }
  }

  /** Any k consecutive tickets within one cycle give every queue the floor or
      the ceiling of k/n of them. */
  lemma FairShare(a: nat, k: nat, n: nat, q: nat)
    requires q < n && Unwrapped(a, k)
    ensures k / n <= Assigned(a, k, n, q) <= k / n + (if k % n == 0 then 0 else 1)
  {
    AssignedFloors(a, k, n, q);
    FloorGap(a % WRAP - 1 - q, k, n);
  }

  lemma {:induction false} AssignedSplit(a: nat, j: nat, k: nat, n: nat, q: nat)
    requires n > 0
    ensures Assigned(a, j + k, n, q) == Assigned(a, j, n, q) + Assigned(a + j, k, n, q)
  {
    if k > 0 {
      AssignedSplit(a, j, k - 1, n, q);
      assert a + j + k - 1 == a + (j + k) - 1;
    }
  }

  /** The window crosses at most m wraps of the counter. */
  predicate Crosses(a: nat, k: nat, m: nat) {
    a % WRAP + k <= (m + 1) * WRAP
  }

  /** Shares of any window, however long, differ by at most one for each cycle of
      the counter it reaches into: by m + 1 if it crosses m wraps. */
  lemma {:induction false} RoundRobinBalance(a: nat, k: nat, n: nat, m: nat)
    requires n > 0 && Crosses(a, k, m)
    ensures Balanced(a, k, n, m + 1)
    decreases m
  {
    var j := if Unwrapped(a, k) then k else WRAP - a % WRAP;
    if j < k {
      QuotientIs(a + j, WRAP, a / WRAP + 1, 0);
      RoundRobinBalance(a + j, k - j, n, m - 1);
    }
    forall p: nat, q: nat | p < n && q < n
      ensures Assigned(a, k, n, p) <= Assigned(a, k, n, q) + m + 1
    {
      FairShare(a, j, n, p);
      FairShare(a, j, n, q);
      if j < k {
        AssignedSplit(a, j, k - j, n, p);
        AssignedSplit(a, j, k - j, n, q);
      }
    }
  }

  lemma DivisorHidesWrap(t: nat, n: nat)
    requires n > 0 && WRAP % n == 0
    ensures QueueOf(t, n) == t % n
  {
    var c, r := t / WRAP, t % WRAP;
    var m := WRAP / n;
    assert t == c * (m * n) + (r / n * n + r % n) == (c * m + r / n) * n + r % n;
    QuotientIs(t, n, c * m + r / n, r % n);
  }

  lemma {:induction false} AssignedFloorsAnywhere(a: nat, k: nat, n: nat, q: nat)
    requires q < n && WRAP % n == 0
    ensures Assigned(a, k, n, q) == (a + k - 1 - q) / n - (a - 1 - q) / n
  {
    if k > 0 {
      AssignedFloorsAnywhere(a, k - 1, n, q);
      DivisorHidesWrap(a + k - 1, n);
      SameResidue(a + k - 1, q, n);
      FloorStep(a + k - 1 - q, n);
    }
  }

  lemma QueueBeforeWrap(t: nat, n: nat)
    requires n > 0 && t < WRAP
    ensures QueueOf(t, n) == t % n
  {
  }

  lemma OffsetResidue(a: nat, j: nat, n: nat)
    requires j < n && a % n == 0
    ensures (a + j) % n == j
  {
    assert a == a / n * n;
    QuotientIs(a + j, n, a / n, j);
  }

  /** The r tickets from a = w - r on, w being the wrap, never reach queue r, and
      they reach queue 0 at their beginning only. */
  lemma {:induction false} BeforeWrap(a: nat, r: nat, k: nat, n: nat)
    requires 0 < r < n && a + r == WRAP && a % n == 0 && k <= r
    ensures Assigned(a, k, n, r) == 0
    ensures Assigned(a, k, n, 0) == if k == 0 then 0 else 1
  {
    hide QueueOf;
    if k > 0 {
      BeforeWrap(a, r, k - 1, n);
      QueueBeforeWrap(a + k - 1, n);
      OffsetResidue(a, k - 1, n);
    }
  }

  lemma CycleStart(c: nat)
    ensures (c * WRAP) % WRAP == 0
  {
    QuotientIs(c * WRAP, WRAP, c, 0);
  }

  /** Each whole cycle gives queue 0 one task more than queue r. */
  lemma CycleFavoursFirst(c: nat, n: nat, r: nat)
    requires n > 0 && r == WRAP % n > 0
    ensures Assigned(c * WRAP, WRAP, n, 0) == Assigned(c * WRAP, WRAP, n, r) + 1
  {
    var d := WRAP / n;
    CycleStart(c);
    AssignedFloors(c * WRAP, WRAP, n, 0);
    AssignedFloors(c * WRAP, WRAP, n, r);
    QuotientIs(WRAP - 1, n, d, r - 1);
    QuotientIs(WRAP - 1 - r, n, d - 1, n - 1);
    QuotientIs(-1, n, -1, n - 1);
    QuotientIs(-1 - r, n, -1, n - 1 - r);
  }

  lemma {:induction false} CyclesFavourFirst(c: nat, n: nat, r: nat)
    requires n > 0 && r == WRAP % n > 0
    ensures Assigned(WRAP, c * WRAP, n, 0) == Assigned(WRAP, c * WRAP, n, r) + c
  {
    if c > 0 {
      CyclesFavourFirst(c - 1, n, r);
      CycleFavoursFirst(c, n, r);
      AssignedSplit(WRAP, (c - 1) * WRAP, WRAP, n, 0);
      AssignedSplit(WRAP, (c - 1) * WRAP, WRAP, n, r);
    }
  }

  /** From the last incomplete round before the first wrap to the m-th one. */
  lemma UpToWrap(n: nat, m: nat, r: nat)
    requires n > 0 && m > 0 && r == WRAP % n > 0
    ensures Assigned(WRAP - r, r + (m - 1) * WRAP, n, 0) == Assigned(WRAP - r, r + (m - 1) * WRAP, n, r) + m
  {
    var d, a := WRAP / n, WRAP - r;
    assert a == d * n;
    QuotientIs(a, n, d, 0);
    hide Assigned;
    BeforeWrap(a, r, r, n);
    CyclesFavourFirst(m - 1, n, r);
    AssignedSplit(a, r, (m - 1) * WRAP, n, 0);
    AssignedSplit(a, r, (m - 1) * WRAP, n, r);
  }

  /** The first ticket of a cycle goes to queue 0. */
  lemma AtWrap(a: nat, k: nat, n: nat, m: nat, q: nat)
    requires q < n && a + k == m * WRAP
    ensures Assigned(a, k + 1, n, q) == Assigned(a, k, n, q) + (if q == 0 then 1 else 0)
  {
    CycleStart(m);
    assert QueueOf(a + k, n) == 0;
  }

  lemma WindowCrosses(r: nat, m: nat)
    requires 0 < r <= WRAP && m > 0
    ensures Crosses(WRAP - r, r + (m - 1) * WRAP + 1, m)
  {
    QuotientIs(WRAP - r, WRAP, 0, WRAP - r);
  }

  lemma Unbalanced(a: nat, k: nat, n: nat, d: nat, p: nat, q: nat)
    requires p < n && q < n
    ensures Assigned(a, k, n, p) > Assigned(a, k, n, q) + d ==> !Balanced(a, k, n, d)
  {
  }

  /** When n does not divide 2^64, the window from the last incomplete round before
      the first wrap to the first ticket after the m-th one gives queue 0 as many
      as m + 1 tasks more than another queue. */
  lemma WrapUnbalances(n: nat, m: nat, r: nat)
    requires m > 0 && 0 < r < n && r == WRAP % n
    ensures Crosses(WRAP - r, r + (m - 1) * WRAP + 1, m) && !Balanced(WRAP - r, r + (m - 1) * WRAP + 1, n, m)
  {
    var a, k := WRAP - r, r + (m - 1) * WRAP;
    assert r <= WRAP;
    hide Assigned, Balanced, Crosses;
    WindowCrosses(r, m);
    UpToWrap(n, m, r);
    AtWrap(a, k, n, m, 0);
    AtWrap(a, k, n, m, r);
    Unbalanced(a, k + 1, n, m, 0, r);
  }

  lemma BalancedIfDivides(a: nat, k: nat, n: nat)
    requires n > 0 && WRAP % n == 0
    ensures Balanced(a, k, n, 1)
  {
    forall p: nat, q: nat | p < n && q < n
      ensures Assigned(a, k, n, p) <= Assigned(a, k, n, q) + 1
    {
      AssignedFloorsAnywhere(a, k, n, p);
      FloorGap(a - 1 - p, k, n);
      AssignedFloorsAnywhere(a, k, n, q);
      FloorGap(a - 1 - q, k, n);
      hide Assigned;
    }
  }

  /** Dispatch is balanced within one over every window of tickets, wraps
      included, exactly when the number of workers divides 2^64. */
  lemma BalancedAcrossWrapsIff(n: nat)
    requires n > 0
    ensures (forall a: nat, k: nat :: Balanced(a, k, n, 1)) <==> WRAP % n == 0
  {
    hide Balanced;
    if WRAP % n == 0 {
      forall a: nat, k: nat ensures Balanced(a, k, n, 1) {
        BalancedIfDivides(a, k, n);
      }
    } else {
      WrapUnbalances(n, 1, WRAP % n);
    }
  }

  /** Balance, exactly: d bounds the difference of shares in every window crossing
      at most m wraps if and only if it is at least m + 1, or there is only one
      worker, or d is at least one and the number of workers divides 2^64. */
  lemma BalanceExactIff(n: nat, m: nat, d: nat)
    requires n > 0
    ensures (forall a: nat, k: nat | Crosses(a, k, m) :: Balanced(a, k, n, d)) <==>
              d >= m + 1 || n == 1 || (d >= 1 && WRAP % n == 0)
  {
    if d >= m + 1 || n == 1 || (d >= 1 && WRAP % n == 0) {
      forall a: nat, k: nat | Crosses(a, k, m) ensures Balanced(a, k, n, d) {
        if d >= m + 1 {
          RoundRobinBalance(a, k, n, m);
        } else if n > 1 {
          BalancedIfDivides(a, k, n);
        }
        hide Assigned, Crosses;
      }
    } else if d == 0 {
      OneTicketUnbalances(n);
      assert Crosses(0, 1, m);
      hide Balanced, Crosses;
    } else {
      WrapUnbalances(n, m, WRAP % n);
      hide Assigned, Crosses;
      var k := WRAP % n + (m - 1) * WRAP + 1;
      assert !Balanced(WRAP - WRAP % n, k, n, d);
    }
  }

  lemma OneTicketUnbalances(n: nat)
    requires n > 1
    ensures !Balanced(0, 1, n, 0)
  {
    QueueBeforeWrap(0, n);
    OffsetResidue(0, 0, n);
    assert QueueOf(0, n) == 0;
    hide QueueOf;
    assert Assigned(0, 0, n, 0) == 0 && Assigned(0, 0, n, 1) == 0;
    assert Assigned(0, 1, n, 0) == 1 && Assigned(0, 1, n, 1) == 0;
  }

  /** Every queued or running task is with the worker its ticket names. */
  ghost predicate AllHome(s: State)
    requires WellFormed(s)
  {
    && (forall q, i | 0 <= q < |s.queues| && 0 <= i < |s.queues[q]| :: QueueOf(s.queues[q][i], |s.queues|) == q)
    && (forall w | 0 <= w < |s.workers| ::
          !s.workers[w].Transferring? && (s.workers[w].Running? ==> QueueOf(s.workers[w].task, |s.queues|) == w))
  }

  lemma AllHomeNext(s: State, e: Event)
    requires WellFormed(s) && Enabled(s, e) && AllHome(s) && Next(s, e).steals == s.steals
    ensures AllHome(Next(s, e))
  {
    hide QueueOf;
    var s' := Next(s, e);
    forall q, i | 0 <= q < |s'.queues| && 0 <= i < |s'.queues[q]| ensures QueueOf(s'.queues[q][i], |s'.queues|) == q {
      if e.Pop? && q == e.w && s.queues[q] != [] {
        assert s'.queues[q][i] == s.queues[q][i + 1];
      }
    }
  }

  lemma {:induction false} StealsGrow(s: State, es: seq<Event>)
    requires WellFormed(s) && IsRun(s, es)
    ensures s.steals <= After(s, es).steals
    decreases |es|
  {
    if es != [] {
      StealsGrow(Next(s, es[0]), es[1..]);
    }
  }

  /** In a run without successful steals every task is queued on, and run by, the
      worker its ticket dispatches it to. */
  lemma {:induction false} DispatchedHome(s: State, es: seq<Event>)
    requires WellFormed(s) && IsRun(s, es) && AllHome(s) && After(s, es).steals == s.steals
    ensures AllHome(After(s, es))
    decreases |es|
  {
    if es != [] {
      StealsGrow(Next(s, es[0]), es[1..]);
      AllHomeNext(s, es[0]);
      DispatchedHome(Next(s, es[0]), es[1..]);
    }
  }
}
