/** The learner's two views of how runbooks fare: the batch statistics behind a recommendation, and the
    counters that are upserted outcome by outcome. */
module Learner {
  import opened Actions
  import opened Accounts

  /** What is known of one past remediation; missing fields get the defaults the code uses. */
  datatype Outcome = Outcome(runbookId: Option<string>, success: bool, mttrSeconds: Option<int>) {
    function Runbook(): string { if runbookId.Some? then runbookId.value else "unknown" }

    function Mttr(): int { if mttrSeconds.Some? then mttrSeconds.value else 0 }

    function SuccessDelta(): nat { if success then 1 else 0 }
  }

  datatype Stats = Stats(success: int, total: int, mttrTotal: int) {
    function Plus(o: Outcome): Stats {
      Stats(success + o.SuccessDelta(), total + 1, mttrTotal + o.Mttr())
    }
  }

  const NOTHING := Stats(0, 0, 0)

  // --- The statistics of a log ------------------------------------------------------------------

  function Posted(log: seq<Outcome>, amount: Outcome -> int): (posts: seq<Post>)
    ensures |posts| == |log|
    ensures forall i :: 0 <= i < |log| ==> posts[i] == Post(log[i].Runbook(), amount(log[i]))
  {
    seq(|log|, i requires 0 <= i < |log| => Post(log[i].Runbook(), amount(log[i])))
  }

  function Once(o: Outcome): int { 1 }

  function SuccessOf(o: Outcome): int { o.SuccessDelta() }

  function MttrOf(o: Outcome): int { o.Mttr() }

  function Attempts(log: seq<Outcome>): seq<Post> { Posted(log, Once) }

  function Successes(log: seq<Outcome>): seq<Post> { Posted(log, SuccessOf) }

  function Mttrs(log: seq<Outcome>): seq<Post> { Posted(log, MttrOf) }

  /** The runbooks of a log, in the order in which they first appear. */
  function Runbooks(log: seq<Outcome>): seq<string> { Keys(Attempts(log)) }

  /** How often the runbook was tried, how often it succeeded, and the time it took altogether. */
  function StatsFor(log: seq<Outcome>, rb: string): Stats {
    Stats(SumFor(Successes(log), rb), SumFor(Attempts(log), rb), SumFor(Mttrs(log), rb))
  }

  function BatchStats(log: seq<Outcome>): map<string, Stats> {
    map rb | rb in Runbooks(log) :: StatsFor(log, rb)
  }

  function StatsOf(m: map<string, Stats>, rb: string): Stats {
    if rb in m then m[rb] else NOTHING
  }

  lemma {:induction false} PostedSnoc(log: seq<Outcome>, o: Outcome, amount: Outcome -> int)
    ensures Posted(log + [o], amount) == Posted(log, amount) + [Post(o.Runbook(), amount(o))]
  {}

  lemma {:induction false} SumPosted(log: seq<Outcome>, o: Outcome, amount: Outcome -> int, rb: string)
    ensures SumFor(Posted(log + [o], amount), rb)
         == if o.Runbook() == rb then SumFor(Posted(log, amount), rb) + amount(o) else SumFor(Posted(log, amount), rb)
  {
    PostedSnoc(log, o, amount);
    Snoc(Posted(log, amount), Post(o.Runbook(), amount(o)));
  }

  lemma {:induction false} RunbooksSnoc(log: seq<Outcome>, o: Outcome)
    ensures Runbooks(log + [o])
         == if o.Runbook() in Runbooks(log) then Runbooks(log) else Runbooks(log) + [o.Runbook()]
  {
    PostedSnoc(log, o, Once);
    Snoc(Attempts(log), Post(o.Runbook(), 1));
  }

  lemma {:induction false} StatsSnoc(log: seq<Outcome>, o: Outcome, rb: string)
    ensures StatsFor(log + [o], rb) == if o.Runbook() == rb then StatsFor(log, rb).Plus(o) else StatsFor(log, rb)
    ensures Runbooks(log + [o])
         == if o.Runbook() in Runbooks(log) then Runbooks(log) else Runbooks(log) + [o.Runbook()]
  {
    RunbooksSnoc(log, o);
    SumPosted(log, o, Once, rb);
    SumPosted(log, o, SuccessOf, rb);
    SumPosted(log, o, MttrOf, rb);
  }

  lemma {:induction false} StatsFacts(log: seq<Outcome>, rb: string)
    ensures rb in Runbooks(log) <==> StatsFor(log, rb).total > 0
    ensures rb !in Runbooks(log) ==> StatsFor(log, rb) == NOTHING
    ensures 0 <= StatsFor(log, rb).success <= StatsFor(log, rb).total <= |log|
  {
    if log != [] {
      var front, last := log[..|log| - 1], log[|log| - 1];
      StatsFacts(front, rb);
      assert log == front + [last];
      StatsSnoc(front, last, rb);
    }
  }

  /** One more outcome changes the entry of its runbook and nothing else. */
  lemma {:induction false} BatchSnoc(log: seq<Outcome>, o: Outcome)
    ensures BatchStats(log + [o]) == BatchStats(log)[o.Runbook() := StatsOf(BatchStats(log), o.Runbook()).Plus(o)]
  {
    var before, after, mine := BatchStats(log), BatchStats(log + [o]), o.Runbook();
    StatsOfBatch(log, mine);
    StatsSnoc(log, o, mine);
    forall rb
      ensures rb in after <==> rb in before || rb == mine
      ensures rb in after ==> after[rb] == if rb == mine then StatsOf(before, mine).Plus(o) else before[rb]
    {
      StatsSnoc(log, o, rb);
    }
  }

  lemma {:induction false} StatsOfBatch(log: seq<Outcome>, rb: string)
    ensures StatsOf(BatchStats(log), rb) == StatsFor(log, rb)
  {
    StatsFacts(log, rb);
  }

  lemma {:induction false} SomeRunbook(log: seq<Outcome>)
    requires log != []
    ensures Runbooks(log) != []
  {
    var front, last := log[..|log| - 1], log[|log| - 1];
    assert log == front + [last];
    StatsSnoc(front, last, last.Runbook());
  }

  lemma {:induction false} AttemptsSum(log: seq<Outcome>)
    ensures SumAll(Attempts(log)) == |log|
  {
    if log != [] {
      var front, last := log[..|log| - 1], log[|log| - 1];
      AttemptsSum(front);
      assert log == front + [last];
      PostedSnoc(front, last, Once);
      Snoc(Attempts(front), Post(last.Runbook(), 1));
    }
  }

  /** The attempts of all runbooks together are the whole log. */
  lemma {:induction false} TotalsSumToLog(log: seq<Outcome>)
    ensures SumOver(Runbooks(log), Attempts(log)) == |log|
  {
    EntriesAddUp(Attempts(log));
    AttemptsSum(log);
  }

  // --- The recommendation -----------------------------------------------------------------------

  datatype Recommendation = Recommendation(runbookId: Option<string>, successRate: real, sampleCount: int, avgMttr: int)

  function Rate(s: Stats): real {
    if s.total > 0 then s.success as real / s.total as real else 0.0
  }

  /** `int(a / n)` truncates towards zero. */
  function Truncated(a: int, n: int): int
    requires n > 0
  {
    if a >= 0 then a / n else -((-a) / n)
  }

  function Average(s: Stats): int {
    if s.total > 0 then Truncated(s.mttrTotal, s.total) else 0
  }

  /** A higher success ratio, or the same with less recovery time in total. */
  predicate Better(a: Stats, b: Stats) {
    Rate(a) > Rate(b) || (Rate(a) == Rate(b) && a.mttrTotal < b.mttrTotal)
  }

  /** The first of the best, as the built-in maximum finds it. */
  function Best(order: seq<string>, stats: map<string, Stats>): (best: string)
    requires order != [] && forall rb :: rb in order ==> rb in stats
    ensures best in order
  {
    var last := order[|order| - 1];
    if |order| == 1 then last
    else
      assert order == order[..|order| - 1] + [last];
      var front := Best(order[..|order| - 1], stats);
      if Better(stats[last], stats[front]) then last else front
  }

  ghost predicate Aggregated(order: seq<string>, stats: map<string, Stats>, hits: seq<Outcome>) {
    order == Runbooks(hits) && stats == BatchStats(hits)
  }

  lemma {:induction false} AggregateOne(order: seq<string>, stats: map<string, Stats>, hits: seq<Outcome>, i: nat)
    requires i < |hits| && Aggregated(order, stats, hits[..i])
    ensures
      var rb := hits[i].Runbook();
      var order' := if rb in stats then order else order + [rb];
      Aggregated(order', stats[rb := StatsOf(stats, rb).Plus(hits[i])], hits[..i + 1])
  {
    assert hits[..i + 1] == hits[..i] + [hits[i]];
    StatsSnoc(hits[..i], hits[i], hits[i].Runbook());
    BatchSnoc(hits[..i], hits[i]);
  }

  method Updated(stats: map<string, Stats>, hit: Outcome) returns (entry: Stats)
    ensures entry == StatsOf(stats, hit.Runbook()).Plus(hit)
  {
    entry := if hit.Runbook() in stats then stats[hit.Runbook()] else NOTHING;
    entry := entry.(total := entry.total + 1);
    if hit.success {
      entry := entry.(success := entry.success + 1);
    }
    entry := entry.(mttrTotal := entry.mttrTotal + hit.Mttr());
  }

  method Aggregate(hits: seq<Outcome>) returns (order: seq<string>, stats: map<string, Stats>)
    ensures order == Runbooks(hits) && stats == BatchStats(hits)
  {
    order, stats := [], map[];
    for i := 0 to |hits|
      invariant Aggregated(order, stats, hits[..i])
    {
      var rb := hits[i].Runbook();
      AggregateOne(order, stats, hits, i);
      var entry := Updated(stats, hits[i]);
      order := if rb in stats then order else order + [rb];
      stats := stats[rb := entry];
    }
    assert hits[..|hits|] == hits;
  }

  /** The hits of the similarity search within the threshold, in the order of the search. */
  method RecommendRunbook(hits: seq<Outcome>) returns (r: Recommendation)
    ensures hits == [] ==> r == Recommendation(None, 0.0, 0, 0)
    ensures hits != [] ==>
      && Runbooks(hits) != []
      && var best := Best(Runbooks(hits), BatchStats(hits));
      && r.runbookId == Some(best)
      && r.sampleCount == StatsFor(hits, best).total > 0
      && r.successRate == Rate(StatsFor(hits, best)) && r.avgMttr == Average(StatsFor(hits, best))
  {
    if hits == [] {
      return Recommendation(None, 0.0, 0, 0);
    }
    var order, stats := Aggregate(hits);
    SomeRunbook(hits);
    var best := Best(order, stats);
    StatsFacts(hits, best);
    return Recommendation(Some(best), Rate(stats[best]), stats[best].total, Average(stats[best]));
  }

  lemma {:induction false} BetterIsTransitive(a: Stats, b: Stats, c: Stats)
    ensures !Better(a, b) && !Better(b, c) ==> !Better(a, c)
    ensures Better(a, b) && !Better(c, b) ==> Better(a, c)
  {}

  lemma {:induction false} BestIsFirstMaximum(order: seq<string>, stats: map<string, Stats>, rb: string)
    requires order != [] && rb in order && forall x :: x in order ==> x in stats
    ensures !Better(stats[rb], stats[Best(order, stats)])
    ensures exists k :: 0 <= k < |order| && order[k] == Best(order, stats) &&
                        forall i :: 0 <= i < k ==> Better(stats[order[k]], stats[order[i]])
  {
    if |order| > 1 {
      var n := |order| - 1;
      var front, last := order[..n], order[n];
      assert order == front + [last];
      var best := Best(front, stats);
      if rb in front {
        BestIsFirstMaximum(front, stats, rb);
      } else {
        BestIsFirstMaximum(front, stats, front[0]);
      }
      if Better(stats[last], stats[best]) {
        forall i | 0 <= i < n
          ensures Better(stats[last], stats[order[i]])
        {
          BestIsFirstMaximum(front, stats, front[i]);
          BetterIsTransitive(stats[last], stats[best], stats[order[i]]);
        }
        BetterIsTransitive(stats[rb], stats[best], stats[last]);
        assert order[n] == Best(order, stats);
      } else {
        var k :| 0 <= k < n && front[k] == best && forall i :: 0 <= i < k ==> Better(stats[front[k]], stats[front[i]]);
        assert order[k] == best && forall i :: 0 <= i < k ==> front[i] == order[i];
      }
    }
  }

  /** The recommended runbook has the greatest success ratio of all that were hit, the least total recovery
      time among those with that ratio, and is the first of those that agree in both. */
  lemma {:induction false} RecommendsTheBest(hits: seq<Outcome>, rb: string)
    requires rb in Runbooks(hits)
    ensures
      var best := Best(Runbooks(hits), BatchStats(hits));
      var mine, other := StatsFor(hits, best), StatsFor(hits, rb);
      && Rate(mine) >= Rate(other)
      && (Rate(mine) == Rate(other) ==> mine.mttrTotal <= other.mttrTotal)
      && exists k :: 0 <= k < |Runbooks(hits)| && Runbooks(hits)[k] == best &&
                     forall i :: 0 <= i < k ==> Better(mine, StatsFor(hits, Runbooks(hits)[i]))
  {
    var order, stats := Runbooks(hits), BatchStats(hits);
    BestIsFirstMaximum(order, stats, rb);
    var best := Best(order, stats);
    var k :| 0 <= k < |order| && order[k] == best &&
             forall i :: 0 <= i < k ==> Better(stats[order[k]], stats[order[i]]);
    forall i | 0 <= i < k
      ensures Better(StatsFor(hits, best), StatsFor(hits, order[i]))
    {
      assert order[i] in stats;
    }
  }

  function Counted(s: Stats, o: Outcome, rb: string): Stats {
    if o.Runbook() == rb then s.Plus(o) else s
  }

  lemma {:induction false} StatsOfThree(x: Outcome, y: Outcome, z: Outcome, rb: string)
    ensures StatsFor([x, y, z], rb) == Counted(Counted(Counted(NOTHING, x, rb), y, rb), z, rb)
  {
    var none: seq<Outcome> := [];
    StatsFacts(none, rb);
    StatsSnoc(none, x, rb);
    StatsSnoc([x], y, rb);
    StatsSnoc([x, y], z, rb);
    assert none + [x] == [x] && [x] + [y] == [x, y] && [x, y] + [z] == [x, y, z];
  }

  lemma {:induction false} RunbooksOfThree(x: Outcome, y: Outcome, z: Outcome)
    requires x.Runbook() == y.Runbook() != z.Runbook()
    ensures Runbooks([x, y, z]) == [x.Runbook(), z.Runbook()]
  {
    var none: seq<Outcome> := [];
    RunbooksSnoc(none, x);
    RunbooksSnoc([x], y);
    RunbooksSnoc([x, y], z);
    assert none + [x] == [x] && [x] + [y] == [x, y] && [x, y] + [z] == [x, y, z];
  }

  /** Ties are broken by the total, not by the average: a runbook that recovers faster each time loses for
      having been used more often. */
  lemma {:induction false} SlowerOnAverageCanWin() returns (hits: seq<Outcome>)
    ensures Runbooks(hits) == ["fast", "slow"] && Best(Runbooks(hits), BatchStats(hits)) == "slow"
    ensures Rate(StatsFor(hits, "slow")) == Rate(StatsFor(hits, "fast")) == 1.0
    ensures Average(StatsFor(hits, "slow")) == 100 && Average(StatsFor(hits, "fast")) == 60
  {
    var fast, slow := Outcome(Some("fast"), true, Some(60)), Outcome(Some("slow"), true, Some(100));
    hits := [fast, fast, slow];
    assert "fast"[0] != "slow"[0];
    StatsOfThree(fast, fast, slow, "fast");
    StatsOfThree(fast, fast, slow, "slow");
    RunbooksOfThree(fast, fast, slow);
    var order := ["fast", "slow"];
    assert order[..1] == ["fast"];
    assert Best(order[..1], BatchStats(hits)) == "fast";
  }

  // --- The counters -----------------------------------------------------------------------------

  const INT32_MAX := 0x7FFF_FFFF
  const INT64_MAX := 0x7FFF_FFFF_FFFF_FFFF

  predicate FitsInt64(n: int) {
    -INT64_MAX - 1 <= n <= INT64_MAX
  }

  /** The columns are 32-bit counters and a 64-bit sum; an upsert that leaves a range fails. */
  predicate Fits(s: Stats) {
    s.success <= INT32_MAX && s.total <= INT32_MAX && FitsInt64(s.mttrTotal)
  }

  function Upserted(rows: map<string, Stats>, o: Outcome): map<string, Stats> {
    var row := StatsOf(rows, o.Runbook()).Plus(o);
    if FitsInt64(o.Mttr()) && Fits(row) then rows[o.Runbook() := row] else rows
  }

  class RunbookOptimizer {
    var rows: map<string, Stats>

    constructor ()
      ensures rows == map[]
    {
      rows := map[];
    }

    /** `ok` is false when the database refuses the upsert. */
    method Record(runbookId: string, success: bool, mttrSeconds: int) returns (ok: bool)
      modifies this
      ensures
        var o := Outcome(Some(runbookId), success, Some(mttrSeconds));
        && rows == Upserted(old(rows), o)
        && ok == (FitsInt64(mttrSeconds) && Fits(StatsOf(old(rows), runbookId).Plus(o)))
    {
      var successDelta := if success then 1 else 0;
      if !FitsInt64(mttrSeconds) {
        return false;
      }
      var row := Stats(successDelta, 1, mttrSeconds);
      if runbookId in rows {
        row := Stats(rows[runbookId].success + successDelta, rows[runbookId].total + 1,
                     rows[runbookId].mttrTotal + mttrSeconds);
      }
      if !Fits(row) {
        return false;
      }
      rows := rows[runbookId := row];
      return true;
    }
  }

  /** The table after all outcomes of a log were recorded. */
  function Recorded(log: seq<Outcome>): map<string, Stats> {
    if log == [] then map[] else Upserted(Recorded(log[..|log| - 1]), log[|log| - 1])
  }

  /** The sums over this log are within the columns for the runbook of its last outcome. */
  predicate InRange(log: seq<Outcome>)
    requires log != []
  {
    var last := log[|log| - 1];
    FitsInt64(last.Mttr()) && Fits(StatsFor(log, last.Runbook()))
  }

  /** No sum over a prefix of the log leaves the range of its column. */
  predicate Storable(log: seq<Outcome>) {
    log == [] || (Storable(log[..|log| - 1]) && InRange(log))
  }

  lemma {:induction false} StorableRecorded(log: seq<Outcome>)
    requires Storable(log)
    ensures Recorded(log) == BatchStats(log)
  {
    if log != [] {
      var front, last := log[..|log| - 1], log[|log| - 1];
      StorableRecorded(front);
      assert log == front + [last];
      BatchSnoc(front, last);
      StatsOfBatch(front, last.Runbook());
      StatsSnoc(front, last, last.Runbook());
    }
  }

  lemma {:induction false} OvercountsNeither(front: seq<Outcome>, last: Outcome, rb: string)
    requires StatsOf(Recorded(front), rb).total <= StatsFor(front, rb).total
    ensures StatsOf(Recorded(front + [last]), rb).total <= StatsFor(front + [last], rb).total
    ensures StatsOf(Recorded(front), rb).total < StatsFor(front, rb).total ==>
      StatsOf(Recorded(front + [last]), rb).total < StatsFor(front + [last], rb).total
  {
    assert (front + [last])[..|front|] == front;
    StatsSnoc(front, last, rb);
  }

  /** A refused upsert is never made up for. */
  lemma {:induction false} RefusedIsLost(log: seq<Outcome>) returns (rb: string)
    requires !Storable(log)
    ensures StatsOf(Recorded(log), rb).total < StatsFor(log, rb).total
  {
    var front, last := log[..|log| - 1], log[|log| - 1];
    assert log == front + [last];
    if Storable(front) {
      rb := last.Runbook();
      StorableRecorded(front);
      StatsOfBatch(front, rb);
      StatsSnoc(front, last, rb);
    } else {
      rb := RefusedIsLost(front);
      OvercountsNeither(front, last, rb);
    }
  }

  /** Upserting outcome by outcome gives exactly the batch statistics, for every log whose sums stay within
      the columns, and for no other. */
  lemma {:induction false} UpsertsMatchBatchIff(log: seq<Outcome>)
    ensures Recorded(log) == BatchStats(log) <==> Storable(log)
  {
    if Storable(log) {
      StorableRecorded(log);
    } else {
      var rb := RefusedIsLost(log);
      StatsOfBatch(log, rb);
    }
  }

  // --- The statistics outcome by outcome ---------------------------------------------------------

  /** An outcome without a runbook counts for "unknown". */
  ghost predicate IsOf(o: Outcome, rb: string) {
    o.runbookId == Some(rb) || (o.runbookId == None && rb == "unknown")
  }

  ghost function Tries(log: seq<Outcome>, rb: string): set<nat> {
    set i: nat | i < |log| && IsOf(log[i], rb)
  }

  ghost function Wins(log: seq<Outcome>, rb: string): set<nat> {
    set i: nat | i < |log| && IsOf(log[i], rb) && log[i].success
  }

  /** The recovery times of the runbook's tries, a missing one being zero. */
  ghost function TimeSpent(log: seq<Outcome>, rb: string): int {
    if log == [] then 0
    else
      var last := log[|log| - 1];
      TimeSpent(log[..|log| - 1], rb) + if IsOf(last, rb) && last.mttrSeconds.Some? then last.mttrSeconds.value else 0
  }

  /** What is kept of a runbook: how often it was tried, how often it succeeded, and the time it took. */
  lemma {:induction false} StatsAreCounts(log: seq<Outcome>, rb: string)
    ensures StatsFor(log, rb) == Stats(|Wins(log, rb)|, |Tries(log, rb)|, TimeSpent(log, rb))
  {
    if log != [] {
      var front, last := log[..|log| - 1], log[|log| - 1];
      StatsAreCounts(front, rb);
      assert log == front + [last];
      StatsSnoc(front, last, rb);
      CountsSnoc(log, rb);
    } else {
      StatsFacts(log, rb);
    }
  }

  lemma {:induction false} CountsSnoc(log: seq<Outcome>, rb: string)
    requires log != []
    ensures
      var front, last := log[..|log| - 1], log[|log| - 1];
      && |Tries(log, rb)| == |Tries(front, rb)| + (if IsOf(last, rb) then 1 else 0)
      && |Wins(log, rb)| == |Wins(front, rb)| + (if IsOf(last, rb) && last.success then 1 else 0)
  {
    var n, front, last := |log| - 1, log[..|log| - 1], log[|log| - 1];
    assert Tries(log, rb) == if IsOf(last, rb) then Tries(front, rb) + {n} else Tries(front, rb);
    assert Wins(log, rb) == if IsOf(last, rb) && last.success then Wins(front, rb) + {n} else Wins(front, rb);
  }

  lemma {:induction false} RatesCompare(a: nat, n: nat, b: nat, k: nat)
    requires n > 0 && k > 0
    ensures a as real / n as real > b as real / k as real <==> a * k > b * n
  {
    var x, y, p, q := a as real / n as real, b as real / k as real, n as real, k as real;
    assert x * p == a as real && y * q == b as real;
    CrossMultiplied(x, y, p, q, p * q);
    assert x * p * q == (a * k) as real && y * q * p == (b * n) as real;
  }

  lemma {:induction false} CrossMultiplied(x: real, y: real, p: real, q: real, pq: real)
    requires p > 0.0 && q > 0.0 && pq == p * q
    ensures x > y <==> x * p * q > y * q * p
  {
    assert pq > 0.0;
    assert x * p * q == x * pq && y * q * p == y * pq;
    assert (x - y) * pq == x * pq - y * pq;
    assert x > y ==> (x - y) * pq > 0.0;
    assert x <= y ==> (x - y) * pq <= 0.0;
  }

  /** In counts: no runbook that was hit has a greater share of successes than the recommended one, and none with the
      same share took less time altogether. */
  lemma {:induction false} RecommendedByCounts(hits: seq<Outcome>, rb: string)
    requires rb in Runbooks(hits)
    ensures Runbooks(hits) != [] && Best(Runbooks(hits), BatchStats(hits)) in Runbooks(hits)
    ensures
      var best := Best(Runbooks(hits), BatchStats(hits));
      var won, tried, otherWon, otherTried :=
        |Wins(hits, best)|, |Tries(hits, best)|, |Wins(hits, rb)|, |Tries(hits, rb)|;
      && won * otherTried >= otherWon * tried
      && (won * otherTried == otherWon * tried ==> TimeSpent(hits, best) <= TimeSpent(hits, rb))
  {
    var best := Best(Runbooks(hits), BatchStats(hits));
    RecommendsTheBest(hits, rb);
    StatsAreCounts(hits, best);
    StatsAreCounts(hits, rb);
    StatsFacts(hits, best);
    StatsFacts(hits, rb);
    var mine, other := StatsFor(hits, best), StatsFor(hits, rb);
    RatesCompare(mine.success, mine.total, other.success, other.total);
    RatesCompare(other.success, other.total, mine.success, mine.total);
  }

  /** The average that is shown is the whole seconds of the average time, towards zero. */
  lemma {:induction false} AverageIsWhole(s: Stats)
    requires s.total >= 0
    ensures s.total > 0 && s.mttrTotal >= 0 ==> Average(s) * s.total <= s.mttrTotal < (Average(s) + 1) * s.total
    ensures s.total > 0 && s.mttrTotal < 0 ==> (Average(s) - 1) * s.total < s.mttrTotal <= Average(s) * s.total
    ensures s.total == 0 ==> Average(s) == 0 && Rate(s) == 0.0
  {}

  /** An outcome counts its row up by one try, by one success if it was one, and by its time; it is refused when a
      counter would exceed 2147483647, or the time or its sum leave 64 bits. */
  lemma {:induction false} UpsertCounts(rows: map<string, Stats>, rb: string, success: bool, mttr: int)
    ensures
      var s := if rb in rows then rows[rb] else Stats(0, 0, 0);
      var row := Stats(if success then s.success + 1 else s.success, s.total + 1, s.mttrTotal + mttr);
      Upserted(rows, Outcome(Some(rb), success, Some(mttr)))
      == if row.success <= 2147483647 && row.total <= 2147483647
            && -9223372036854775808 <= mttr <= 9223372036854775807
            && -9223372036854775808 <= row.mttrTotal <= 9223372036854775807
         then rows[rb := row] else rows
  {}

  datatype Summary = Summary(runbookId: string, totalAttempts: int, successes: int, successRate: real, avgMttr: int)

  function RowToSummary(rb: string, row: Stats): Summary {
    Summary(rb, row.total, row.success, if row.total > 0 then row.success as real / row.total as real else 0.0,
            if row.total > 0 then Truncated(row.mttrTotal, row.total) else 0)
  }

  /** The table shows a row as the recommendation shows its runbook, also one that was never tried. */
  lemma {:induction false} RowShows(rb: string, row: Stats)
    requires row.total >= 0
    ensures RowToSummary(rb, row) == Summary(rb, row.total, row.success, Rate(row), Average(row))
    ensures row.total == 0 ==> RowToSummary(rb, row) == Summary(rb, 0, row.success, 0.0, 0)
  {}

  lemma {:induction false} RateIsARatio(s: Stats)
    requires 0 <= s.success <= s.total
    ensures 0.0 <= Rate(s) <= 1.0
  {}

  /** For the same outcomes the table's summary of the recommended runbook is the recommendation. */
  lemma {:induction false} SummaryIsRecommendation(log: seq<Outcome>)
    requires Storable(log) && log != []
    ensures
      Runbooks(log) != [] &&
      var best := Best(Runbooks(log), BatchStats(log));
      var s := StatsFor(log, best);
      && best in Recorded(log)
      && RowToSummary(best, Recorded(log)[best]) == Summary(best, s.total, s.success, Rate(s), Average(s))
      && 0.0 <= Rate(s) <= 1.0
  {
    StorableRecorded(log);
    SomeRunbook(log);
    StatsFacts(log, Best(Runbooks(log), BatchStats(log)));
    RateIsARatio(StatsFor(log, Best(Runbooks(log), BatchStats(log))));
  }
}
