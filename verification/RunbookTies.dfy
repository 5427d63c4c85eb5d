/** Ties between runbooks are broken by the total recovery time: when that is the average recovery time. */
module RunbookTies {
  import opened Actions
  import opened Learner

  /** `x` over `n` attempts is less per attempt than `y` over `m`. */
  predicate LessOnAverage(x: int, n: int, y: int, m: int) {
    x * m < y * n
  }

  /** Totals and averages order two runbooks alike, whatever their recovery times, exactly when they were tried
      equally often. */
  lemma {:induction false} TotalsOrderAveragesIff(n: nat, m: nat)
    requires n > 0 && m > 0
    ensures (forall x: nat, y: nat :: LessOnAverage(x, n, y, m) <==> x < y) <==> n == m
  {
    if n == m {
      forall x: nat, y: nat
        ensures LessOnAverage(x, n, y, m) <==> x < y
      {
        ScaleKeepsOrder(x, y, n);
      }
    } else if n < m {
      CrossingTotals(n, m);
      assert LessOnAverage(n + 2, m, n + 1, n) && !LessOnAverage(n + 1, n, n + 2, m);
    } else {
      CrossingTotals(m, n);
      assert LessOnAverage(m + 2, n, m + 1, m);
    }
  }

  lemma {:induction false} ScaleKeepsOrder(x: int, y: int, n: nat)
    requires n > 0
    ensures x * n < y * n <==> x < y
  {
    assert y * n - x * n == (y - x) * n;
  }

  /** With fewer attempts behind it, a smaller total can be the greater average. */
  lemma {:induction false} CrossingTotals(n: nat, m: nat)
    requires 0 < n < m
    ensures LessOnAverage(n + 2, m, n + 1, n)
  {
    assert (n + 2) * n == n * n + 2 * n;
    assert (n + 1) * (n + 1) == n * n + 2 * n + 1;
    assert (n + 1) * m - (n + 1) * (n + 1) == (n + 1) * (m - n - 1);
    NonNegativeProduct(n + 1, m - n - 1);
  }

  lemma {:induction false} NonNegativeProduct(x: nat, y: nat)
    ensures x * y >= 0
  {}

  // --- Logs --------------------------------------------------------------------------------------

  /** The same runbooks with the same outcomes, and recovery times of their own. */
  ghost predicate SameOutcomes(log: seq<Outcome>, other: seq<Outcome>) {
    && |log| == |other|
    && (forall i :: 0 <= i < |log| ==> log[i].Runbook() == other[i].Runbook() && log[i].success == other[i].success)
    && (forall i :: 0 <= i < |other| ==> other[i].Mttr() >= 0)
  }

  lemma {:induction false} SameCounts(log: seq<Outcome>, other: seq<Outcome>, rb: string)
    requires SameOutcomes(log, other)
    ensures Runbooks(log) == Runbooks(other)
    ensures StatsFor(log, rb).total == StatsFor(other, rb).total &&
      StatsFor(log, rb).success == StatsFor(other, rb).success
  {
    assert Attempts(log) == Attempts(other);
    assert Successes(log) == Successes(other);
  }

  ghost predicate TopRated(log: seq<Outcome>, rb: string) {
    rb in Runbooks(log) && forall x :: x in Runbooks(log) ==> Rate(StatsFor(log, x)) <= Rate(StatsFor(log, rb))
  }

  /** No runbook of the top rate takes less time on average than the recommended one. */
  ghost predicate RecommendsLeastAverage(log: seq<Outcome>)
    requires Runbooks(log) != []
  {
    var mine := StatsFor(log, Best(Runbooks(log), BatchStats(log)));
    forall rb :: TopRated(log, rb) ==>
      var other := StatsFor(log, rb);
      !LessOnAverage(other.mttrTotal, other.total, mine.mttrTotal, mine.total)
  }

  ghost predicate EquallyTried(log: seq<Outcome>) {
    forall a, b :: TopRated(log, a) && TopRated(log, b) ==> StatsFor(log, a).total == StatsFor(log, b).total
  }

  lemma {:induction false} BestIsTopRated(log: seq<Outcome>)
    requires Runbooks(log) != []
    ensures TopRated(log, Best(Runbooks(log), BatchStats(log)))
  {
    forall rb | rb in Runbooks(log)
      ensures Rate(StatsFor(log, rb)) <= Rate(StatsFor(log, Best(Runbooks(log), BatchStats(log))))
    {
      RecommendsTheBest(log, rb);
    }
  }

  lemma {:induction false} SameTopRated(log: seq<Outcome>, other: seq<Outcome>, rb: string)
    requires SameOutcomes(log, other)
    ensures TopRated(log, rb) == TopRated(other, rb)
  {
    forall x
      ensures Rate(StatsFor(log, x)) == Rate(StatsFor(other, x)) && Runbooks(log) == Runbooks(other)
    {
      SameCounts(log, other, x);
    }
  }

  lemma {:induction false} EquallyTriedIsEnough(log: seq<Outcome>)
    requires Runbooks(log) != [] && EquallyTried(log)
    ensures RecommendsLeastAverage(log)
  {
    var best := Best(Runbooks(log), BatchStats(log));
    BestIsTopRated(log);
    forall rb | TopRated(log, rb)
      ensures !LessOnAverage(StatsFor(log, rb).mttrTotal, StatsFor(log, rb).total,
                             StatsFor(log, best).mttrTotal, StatsFor(log, best).total)
    {
      RecommendsTheBest(log, rb);
      StatsFacts(log, rb);
      ScaleKeepsOrder(StatsFor(log, rb).mttrTotal, StatsFor(log, best).mttrTotal, StatsFor(log, rb).total);
    }
  }

  lemma {:induction false} OthersTriedEqually(log: seq<Outcome>, other: seq<Outcome>)
    requires SameOutcomes(log, other) && EquallyTried(log)
    ensures EquallyTried(other)
  {
    forall a, b | TopRated(other, a) && TopRated(other, b)
      ensures StatsFor(other, a).total == StatsFor(other, b).total
    {
      SameTopRated(log, other, a);
      SameTopRated(log, other, b);
      SameCounts(log, other, a);
      SameCounts(log, other, b);
    }
  }

  // --- A log that separates totals from averages -------------------------------------------------

  /** The first outcome of `a` takes `x`, the first of every other runbook one more, the rest no time. */
  function Retimed(log: seq<Outcome>, a: string, x: nat): (other: seq<Outcome>)
    ensures |other| == |log|
    ensures forall i :: 0 <= i < |log| ==>
      other[i].Runbook() == log[i].Runbook() && other[i].success == log[i].success && other[i].Mttr() >= 0
  {
    if log == [] then []
    else
      var front, last := log[..|log| - 1], log[|log| - 1];
      var time := if last.Runbook() in Runbooks(front) then 0 else Price(last.Runbook(), a, x);
      Retimed(front, a, x) + [Outcome(last.runbookId, last.success, Some(time))]
  }

  function Price(rb: string, a: string, x: nat): nat {
    if rb == a then x else x + 1
  }

  lemma {:induction false} RetimedTotals(log: seq<Outcome>, a: string, x: nat, rb: string)
    ensures StatsFor(Retimed(log, a, x), rb).mttrTotal == if rb in Runbooks(log) then Price(rb, a, x) else 0
  {
    if log == [] {
      StatsFacts(log, rb);
    } else {
      var front, last := log[..|log| - 1], log[|log| - 1];
      var other := Retimed(log, a, x);
      RetimedTotals(front, a, x, rb);
      assert log == front + [last];
      assert other == Retimed(front, a, x) + [other[|log| - 1]];
      StatsSnoc(Retimed(front, a, x), other[|log| - 1], rb);
      StatsSnoc(front, last, rb);
    }
  }

  lemma {:induction false} RetimedKeeps(log: seq<Outcome>, a: string, x: nat, rb: string)
    ensures var other := Retimed(log, a, x);
            && SameOutcomes(log, other) && Runbooks(other) == Runbooks(log) && TopRated(other, rb) == TopRated(log, rb)
            && StatsFor(other, rb).total == StatsFor(log, rb).total
  {
    var other := Retimed(log, a, x);
    SameCounts(log, other, rb);
    SameTopRated(log, other, rb);
  }

  /** With these times `a`, of the top rate, is recommended. */
  lemma {:induction false} CheapestIsBest(log: seq<Outcome>, a: string, x: nat)
    requires TopRated(log, a)
    ensures
      var other := Retimed(log, a, x);
      Runbooks(other) != [] && Best(Runbooks(other), BatchStats(other)) == a
  {
    var other := Retimed(log, a, x);
    RetimedKeeps(log, a, x, a);
    var best := Best(Runbooks(other), BatchStats(other));
    RecommendsTheBest(other, a);
    BestIsTopRated(other);
    RetimedTotals(log, a, x, best);
    RetimedTotals(log, a, x, a);
  }

  lemma {:induction false} RetimedStats(log: seq<Outcome>, a: string, x: nat, rb: string)
    requires rb in Runbooks(log)
    ensures
      var s := StatsFor(Retimed(log, a, x), rb);
      s.total == StatsFor(log, rb).total && s.mttrTotal == Price(rb, a, x)
  {
    RetimedKeeps(log, a, x, rb);
    RetimedTotals(log, a, x, rb);
  }

  lemma {:induction false} CrossingStats(s: Stats, t: Stats, n: nat, m: nat)
    requires 0 < n < m && s.total == n && s.mttrTotal == n + 1 && t.total == m && t.mttrTotal == n + 2
    ensures LessOnAverage(t.mttrTotal, t.total, s.mttrTotal, s.total)
  {
    CrossingTotals(n, m);
  }

  lemma {:induction false} UnequalSeparates(log: seq<Outcome>, a: string, b: string, n: nat, m: nat)
    requires TopRated(log, a) && TopRated(log, b)
    requires StatsFor(log, a).total == n && StatsFor(log, b).total == m && 0 < n < m
    ensures
      var other := Retimed(log, a, n + 1);
      SameOutcomes(log, other) && Runbooks(other) != [] && !RecommendsLeastAverage(other)
  {
    var other := Retimed(log, a, n + 1);
    CheapestIsBest(log, a, n + 1);
    RetimedKeeps(log, a, n + 1, b);
    var s, t := StatsFor(other, a), StatsFor(other, b);
    RetimedStats(log, a, n + 1, a);
    RetimedStats(log, a, n + 1, b);
    CrossingStats(s, t, n, m);
    NotLeast(other, a, b, s, t);
  }

  lemma {:induction false} NotLeast(log: seq<Outcome>, a: string, b: string, s: Stats, t: Stats)
    requires Runbooks(log) != [] && Best(Runbooks(log), BatchStats(log)) == a && TopRated(log, b)
    requires s == StatsFor(log, a) && t == StatsFor(log, b)
    requires LessOnAverage(t.mttrTotal, t.total, s.mttrTotal, s.total)
    ensures !RecommendsLeastAverage(log)
  {}

  /** The recommendation takes the least time on average among the runbooks of the top rate, whatever the recovery
      times were, exactly when those runbooks were tried equally often. */
  lemma {:induction false} LeastAverageIff(log: seq<Outcome>)
    requires log != []
    ensures (forall other: seq<Outcome> :: SameOutcomes(log, other) ==>
               Runbooks(other) != [] && RecommendsLeastAverage(other))
       <==> EquallyTried(log)
  {
    if EquallyTried(log) {
      forall other: seq<Outcome> | SameOutcomes(log, other)
        ensures Runbooks(other) != [] && RecommendsLeastAverage(other)
      {
        SomeRunbook(other);
        OthersTriedEqually(log, other);
        EquallyTriedIsEnough(other);
      }
    } else {
      var a, b :| TopRated(log, a) && TopRated(log, b) && StatsFor(log, a).total != StatsFor(log, b).total;
      var n, m := StatsFor(log, a).total, StatsFor(log, b).total;
      StatsFacts(log, a);
      StatsFacts(log, b);
      if n < m {
        UnequalSeparates(log, a, b, n, m);
      } else {
        UnequalSeparates(log, b, a, m, n);
      }
    }
  }
}
