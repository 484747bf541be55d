/** Counting over a sequence of sequences: how often an element occurs, and how
    many elements there are in all. */
module Tallies {
  function Occurs<T(==)>(q: seq<T>, x: T): (n: nat)
    ensures |q| <= 1 ==> n == if q != [] && q[0] == x then 1 else 0
  {
    multiset(q)[x]
  }

  /** Occurrences of x in the first n sequences. */
  function TallyTo<T(==)>(qs: seq<seq<T>>, n: nat, x: T): nat
    requires n <= |qs|
  {
    if n == 0 then 0 else TallyTo(qs, n - 1, x) + Occurs(qs[n - 1], x)
  }

  function Tally<T(==)>(qs: seq<seq<T>>, x: T): nat {
    TallyTo(qs, |qs|, x)
  }

  /** Elements in the first n sequences. */
  function TotalTo<T>(qs: seq<seq<T>>, n: nat): nat
    requires n <= |qs|
  {
    if n == 0 then 0 else TotalTo(qs, n - 1) + |qs[n - 1]|
  }

  function Total<T>(qs: seq<seq<T>>): nat {
    TotalTo(qs, |qs|)
  }

  lemma OccursConcat<T>(p: seq<T>, q: seq<T>, x: T)
    ensures Occurs(p + q, x) == Occurs(p, x) + Occurs(q, x)
  {
  }

  lemma OccursHead<T>(q: seq<T>, x: T)
    requires q != []
    ensures Occurs(q, x) == (if x == q[0] then 1 else 0) + Occurs(q[1..], x)
  {
    assert q == [q[0]] + q[1..];
  }

  lemma {:induction false} TallyToUpdate<T>(qs: seq<seq<T>>, n: nat, i: nat, q: seq<T>, x: T)
    requires i < |qs| && n <= |qs|
    ensures TallyTo(qs[i := q], n, x) + (if i < n then Occurs(qs[i], x) else 0)
         == TallyTo(qs, n, x) + (if i < n then Occurs(q, x) else 0)
  {
    if n > 0 {
      TallyToUpdate(qs, n - 1, i, q, x);
    }
  }

  /** Replacing one sequence changes the tally by exactly the difference. */
  lemma TallyUpdate<T>(qs: seq<seq<T>>, i: nat, q: seq<T>, x: T)
    requires i < |qs|
    ensures Tally(qs[i := q], x) + Occurs(qs[i], x) == Tally(qs, x) + Occurs(q, x)
  {
    TallyToUpdate(qs, |qs|, i, q, x);
  }

  lemma {:induction false} TotalToUpdate<T>(qs: seq<seq<T>>, n: nat, i: nat, q: seq<T>)
    requires i < |qs| && n <= |qs|
    ensures TotalTo(qs[i := q], n) + (if i < n then |qs[i]| else 0)
         == TotalTo(qs, n) + (if i < n then |q| else 0)
  {
    if n > 0 {
      TotalToUpdate(qs, n - 1, i, q);
    }
  }

  lemma TotalUpdate<T>(qs: seq<seq<T>>, i: nat, q: seq<T>)
    requires i < |qs|
    ensures Total(qs[i := q]) + |qs[i]| == Total(qs) + |q|
  {
    TotalToUpdate(qs, |qs|, i, q);
  }

  lemma {:induction false} TotalCovers<T>(qs: seq<seq<T>>, n: nat, i: nat)
    requires i < n <= |qs|
    ensures |qs[i]| <= TotalTo(qs, n)
  {
    if i < n - 1 {
      TotalCovers(qs, n - 1, i);
    }
  }

  lemma {:induction false} TallyCovers<T>(qs: seq<seq<T>>, n: nat, i: nat, x: T)
    requires i < n <= |qs|
    ensures Occurs(qs[i], x) <= TallyTo(qs, n, x)
  {
    if i < n - 1 {
      TallyCovers(qs, n - 1, i, x);
    }
  }

  lemma {:induction false} TallyOfEmpties<T>(qs: seq<seq<T>>, n: nat, x: T)
    requires n <= |qs| && forall i :: 0 <= i < n ==> qs[i] == []
    ensures TallyTo(qs, n, x) == 0
  {
    if n > 0 {
      TallyOfEmpties(qs, n - 1, x);
    }
  }

  /** Whatever is counted is somewhere. */
  lemma {:induction false} TallyWitness<T>(qs: seq<seq<T>>, n: nat, x: T) returns (i: nat)
    requires n <= |qs| && TallyTo(qs, n, x) > 0
    ensures i < n && x in qs[i]
  {
    if x in qs[n - 1] {
      i := n - 1;
    } else {
      i := TallyWitness(qs, n - 1, x);
    }
  }

  lemma {:induction false} TotalWitness<T>(qs: seq<seq<T>>, n: nat) returns (i: nat)
    requires n <= |qs| && TotalTo(qs, n) > 0
    ensures i < n && qs[i] != []
  {
    i := n - 1;
    if qs[n - 1] == [] {
      i := TotalWitness(qs, n - 1);
    }
  }

  /** Two different sequences holding the same element count it twice. */
  lemma {:induction false} TallyTwice<T>(qs: seq<seq<T>>, n: nat, i: nat, j: nat, x: T)
    requires i < j < n <= |qs| && x in qs[i] && x in qs[j]
    ensures TallyTo(qs, n, x) >= 2
  {
    if j == n - 1 {
      TallyCovers(qs, n - 1, i, x);
    } else {
      TallyTwice(qs, n - 1, i, j, x);
    }
  }

  lemma {:induction false} OccursTwice<T>(q: seq<T>, i: nat, j: nat)
    requires i < j < |q| && q[i] == q[j]
    ensures Occurs(q, q[i]) >= 2
  {
    assert q == q[..j] + q[j..];
    assert q[i] in q[..j] && q[j] in q[j..];
  }

  lemma SubsetSize<T>(a: set<T>, b: set<T>)
    requires a <= b
    ensures |a| <= |b|
  {
    assert b == a + (b - a);
  }

  /** The numbers below n, as a set of exactly n elements. */
  function Below(n: nat): (s: set<nat>)
    ensures forall i: nat :: i in s <==> i < n
    ensures |s| == n
  {
    if n == 0 then {} else Below(n - 1) + {n - 1}
  }
}
