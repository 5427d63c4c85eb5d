/** The anomaly detector of the observer: one bounded window of readings per key, judged by z-score or by
    value, in exact reals. A z-score is kept as a deviation and a variance, so that no root is needed. */
module Detector {
  import opened Actions
  import opened Predictor

  type Key = string

  function KeyOf(metric: string, service: string): Key {
    metric + ":" + service
  }

  datatype ThresholdType = Dynamic | Static | OtherType(name: string)

  /** A severity and its threshold; a configuration lists them in the order of its map. */
  datatype Level = Level(severity: string, threshold: real)

  datatype Config = Config(thresholdType: ThresholdType, severityMap: seq<Level>)

  /** The z-score `dev / sqrt(variance)`. */
  datatype Score = Score(dev: real, variance: real)

  datatype Criterion = ByScore(score: Score) | ByValue(value: real)

  type Labels = map<string, string>

  /** What a reading is of. */
  datatype Subject = Subject(metric: string, service: string, labels: Option<Labels>)

  /** `mean` is the baseline's for a dynamic threshold, and zero for a static one. */
  datatype Anomaly = Anomaly(subject: Subject, level: Level, value: real, criterion: Criterion, mean: real)

  /** An empty baseline has no mean, and a negative window size is refused; both raise. */
  datatype Outcome = Raised | Anomalies(list: seq<Anomaly>)

  function Variance(xs: seq<real>): real
    requires xs != []
  {
    if |xs| > 1 then Squares(Centred(xs)) / (|xs| - 1) as real else 0.0
  }

  const SUBSTITUTE_VARIANCE := 0.0001

  /** With no variance the deviation counts in hundredths, unless there is none or the mean is zero. */
  function ScoreOf(baseline: seq<real>, value: real): Score
    requires baseline != []
  {
    var mean := Mean(baseline);
    if Variance(baseline) > 0.0 then Score(value - mean, Variance(baseline))
    else if value != mean && mean != 0.0 then Score(value - mean, SUBSTITUTE_VARIANCE)
    else Score(0.0, 1.0)
  }

  /** |dev| / sqrt(variance) >= t, squared. */
  predicate Reaches(z: Score, t: real) {
    t <= 0.0 || Times(z.dev, z.dev) >= Times(t, t) * z.variance
  }

  predicate Met(c: Criterion, t: real) {
    match c
    case ByScore(z) => Reaches(z, t)
    case ByValue(v) => v >= t
  }

  // --- The choice of severity -------------------------------------------------------------------

  /** The stable sort by threshold, greatest first. */
  function Insert(levels: seq<Level>, x: Level): seq<Level> {
    if levels == [] then [x]
    else
      var n := |levels| - 1;
      if levels[n].threshold < x.threshold then Insert(levels[..n], x) + [levels[n]] else levels + [x]
  }

  function SortDescending(levels: seq<Level>): seq<Level> {
    if levels == [] then []
    else Insert(SortDescending(levels[..|levels| - 1]), levels[|levels| - 1])
  }

  function FirstMet(levels: seq<Level>, c: Criterion): Option<Level> {
    if levels == [] then None
    else
      var n := |levels| - 1;
      var front := FirstMet(levels[..n], c);
      if front.Some? then front else if Met(c, levels[n].threshold) then Some(levels[n]) else None
  }

  function Chosen(levels: seq<Level>, c: Criterion): Option<Level> {
    FirstMet(SortDescending(levels), c)
  }

  /** The criterion a reading is judged by, if there is enough of a baseline. */
  function CriterionFor(minDataPoints: int, baseline: seq<real>, value: real, t: ThresholdType): Option<Criterion>
    requires baseline != [] || |baseline| < minDataPoints || !t.Dynamic?
  {
    match t
    case Dynamic => if |baseline| < minDataPoints then None else Some(ByScore(ScoreOf(baseline, value)))
    case Static => Some(ByValue(value))
    case OtherType(_) => None
  }

  function MeanShown(baseline: seq<real>, c: Criterion): real
    requires baseline != [] || c.ByValue?
  {
    if c.ByScore? then Mean(baseline) else 0.0
  }

  function Judge(minDataPoints: int, baseline: seq<real>, subject: Subject, value: real, config: Config): Outcome {
    if config.thresholdType.Dynamic? && baseline == [] && minDataPoints <= 0 then Raised
    else
      match CriterionFor(minDataPoints, baseline, value, config.thresholdType)
      case None => Anomalies([])
      case Some(c) =>
        match Chosen(config.severityMap, c)
        case None => Anomalies([])
        case Some(level) => Anomalies([Anomaly(subject, level, value, c, MeanShown(baseline, c))])
  }

  // --- The windows ------------------------------------------------------------------------------

  type Windows = map<Key, seq<real>>

  function WindowOf(windows: Windows, key: Key): seq<real> {
    if key in windows then windows[key] else []
  }

  function Recorded(windows: Windows, size: nat, key: Key, value: real): Windows {
    windows[key := LastN(WindowOf(windows, key) + [value], size)]
  }

  /** Everything but the newest reading. */
  function Baseline(window: seq<real>): seq<real> {
    if window == [] then [] else window[..|window| - 1]
  }

  class AnomalyDetector {
    const windowSize: int
    const minDataPoints: int
    var windows: Windows

    constructor (windowSize: int := 60, minDataPoints: int := 5)
      ensures this.windowSize == windowSize && this.minDataPoints == minDataPoints && windows == map[]
    {
      this.windowSize, this.minDataPoints := windowSize, minDataPoints;
      windows := map[];
    }

    method RecordValue(metric: string, service: string, value: real) returns (raised: bool)
      modifies this
      ensures raised == (windowSize < 0)
      ensures windows
           == if raised then old(windows) else Recorded(old(windows), windowSize, KeyOf(metric, service), value)
    {
      if windowSize < 0 {
        return true;
      }
      var key := KeyOf(metric, service);
      var window := (if key in windows then windows[key] else []) + [value];
      if |window| > windowSize {
        window := window[|window| - windowSize..];
      }
      windows := windows[key := window];
      return false;
    }

    method FirstOf(sorted: seq<Level>, c: Criterion) returns (found: Option<Level>)
      ensures found == FirstMet(sorted, c)
    {
      for i := 0 to |sorted|
        invariant FirstMet(sorted[..i], c) == None
      {
        assert sorted[..i + 1][..i] == sorted[..i];
        if Met(c, sorted[i].threshold) {
          FirstStays(sorted, c, i + 1);
          return Some(sorted[i]);
        }
      }
      assert sorted[..|sorted|] == sorted;
      return None;
    }

    method Evaluate(subject: Subject, value: real, config: Config) returns (r: Outcome)
      modifies this
      ensures windowSize < 0 ==> r == Raised && windows == old(windows)
      ensures windowSize >= 0 ==>
        var key := KeyOf(subject.metric, subject.service);
        && windows == Recorded(old(windows), windowSize, key, value)
        && r == Judge(minDataPoints, Baseline(windows[key]), subject, value, config)
    {
      var raised := RecordValue(subject.metric, subject.service, value);
      if raised {
        return Raised;
      }
      var baseline := Baseline(windows[KeyOf(subject.metric, subject.service)]);
      var criterion, mean := ByValue(value), 0.0;
      if config.thresholdType == Dynamic {
        if |baseline| < minDataPoints {
          return Anomalies([]);
        }
        if baseline == [] {
          return Raised;
        }
        mean := Mean(baseline);
        criterion := ByScore(ScoreOf(baseline, value));
      } else if config.thresholdType != Static {
        return Anomalies([]);
      }
      var found := FirstOf(SortDescending(config.severityMap), criterion);
      if found == None {
        return Anomalies([]);
      }
      return Anomalies([Anomaly(subject, found.value, value, criterion, mean)]);
    }
  }

  lemma {:induction false} FirstStays(levels: seq<Level>, c: Criterion, n: nat)
    requires n <= |levels| && FirstMet(levels[..n], c).Some?
    ensures FirstMet(levels, c) == FirstMet(levels[..n], c)
  {
    if n < |levels| {
      var front := levels[..|levels| - 1];
      assert front[..n] == levels[..n];
      FirstStays(front, c, n);
    } else {
      assert levels[..n] == levels;
    }
  }

  // --- What is chosen ---------------------------------------------------------------------------

  ghost predicate Descending(levels: seq<Level>) {
    forall i, j :: 0 <= i < j < |levels| ==> levels[i].threshold >= levels[j].threshold
  }

  lemma {:induction false} InsertKeepsOrder(levels: seq<Level>, x: Level)
    requires Descending(levels)
    ensures Descending(Insert(levels, x))
    ensures forall y :: y in Insert(levels, x) <==> y in levels || y == x
  {
    if levels != [] {
      var n := |levels| - 1;
      assert levels == levels[..n] + [levels[n]];
      if levels[n].threshold < x.threshold {
        InsertKeepsOrder(levels[..n], x);
        var rest := Insert(levels[..n], x);
        forall i | 0 <= i < |rest|
          ensures rest[i].threshold >= levels[n].threshold
        {
          assert rest[i] in rest;
        }
      }
    }
  }

  lemma {:induction false} SortedDescends(levels: seq<Level>)
    ensures Descending(SortDescending(levels))
    ensures forall y :: y in SortDescending(levels) <==> y in levels
  {
    if levels != [] {
      var n := |levels| - 1;
      SortedDescends(levels[..n]);
      InsertKeepsOrder(SortDescending(levels[..n]), levels[n]);
      assert levels == levels[..n] + [levels[n]];
    }
  }

  lemma {:induction false} FirstMetIsMet(levels: seq<Level>, c: Criterion)
    ensures match FirstMet(levels, c)
            case Some(x) => x in levels && Met(c, x.threshold)
            case None => forall y :: y in levels ==> !Met(c, y.threshold)
  {
    if levels != [] {
      var n := |levels| - 1;
      FirstMetIsMet(levels[..n], c);
      assert levels == levels[..n] + [levels[n]];
    }
  }

  lemma {:induction false} FirstMetSnoc(levels: seq<Level>, x: Level, c: Criterion)
    ensures FirstMet(levels + [x], c)
         == if FirstMet(levels, c).Some? then FirstMet(levels, c) else if Met(c, x.threshold) then Some(x) else None
  {
    assert (levels + [x])[..|levels|] == levels;
  }

  /** A level inserted into the sorted list is chosen when it is met and beats what was chosen before. */
  lemma {:induction false} InsertChooses(levels: seq<Level>, x: Level, c: Criterion)
    requires Descending(levels)
    ensures FirstMet(Insert(levels, x), c)
         == var before := FirstMet(levels, c);
            if Met(c, x.threshold) && (before == None || before.value.threshold < x.threshold) then Some(x) else before
  {
    if levels == [] {
      FirstMetSnoc([], x, c);
      assert [] + [x] == [x];
    } else {
      var n := |levels| - 1;
      FirstMetIsMet(levels, c);
      if levels[n].threshold < x.threshold {
        InsertChooses(levels[..n], x, c);
        FirstMetSnoc(Insert(levels[..n], x), levels[n], c);
      } else {
        FirstMetSnoc(levels, x, c);
      }
    }
  }

  ghost predicate GreatestMet(levels: seq<Level>, c: Criterion, k: int)
    requires 0 <= k < |levels|
  {
    && Met(c, levels[k].threshold)
    && (forall i :: 0 <= i < |levels| && Met(c, levels[i].threshold) ==> levels[i].threshold <= levels[k].threshold)
    && (forall i :: 0 <= i < k && Met(c, levels[i].threshold) ==> levels[i].threshold < levels[k].threshold)
  }

  lemma {:induction false} GreatestMetGrows(levels: seq<Level>, c: Criterion, k: nat)
    requires |levels| > 1 && k < |levels| - 1 && GreatestMet(levels[..|levels| - 1], c, k)
    ensures
      var n := |levels| - 1;
      if Met(c, levels[n].threshold) && levels[k].threshold < levels[n].threshold then GreatestMet(levels, c, n)
      else GreatestMet(levels, c, k)
  {
    var front := levels[..|levels| - 1];
    assert forall i :: 0 <= i < |front| ==> front[i] == levels[i];
  }

  /** `x` is the met level with the greatest threshold, the first such in the configuration. */
  ghost predicate IsGreatestMet(levels: seq<Level>, c: Criterion, x: Level) {
    exists k :: 0 <= k < |levels| && levels[k] == x && GreatestMet(levels, c, k)
  }

  lemma {:induction false} NoneMetSnoc(levels: seq<Level>, c: Criterion)
    requires levels != [] && forall i :: 0 <= i < |levels| - 1 ==> !Met(c, levels[i].threshold)
    ensures Met(c, levels[|levels| - 1].threshold) ==> IsGreatestMet(levels, c, levels[|levels| - 1])
  {
    if Met(c, levels[|levels| - 1].threshold) {
      assert GreatestMet(levels, c, |levels| - 1);
    }
  }

  lemma {:induction false} ChosenSnoc(levels: seq<Level>, c: Criterion)
    requires levels != []
    ensures
      var n := |levels| - 1;
      var before, x := Chosen(levels[..n], c), levels[n];
      Chosen(levels, c)
      == if Met(c, x.threshold) && (before == None || before.value.threshold < x.threshold) then Some(x) else before
  {
    SortedDescends(levels[..|levels| - 1]);
    InsertChooses(SortDescending(levels[..|levels| - 1]), levels[|levels| - 1], c);
  }

  /** The chosen level is one that is met, with the greatest threshold of all that are met, and the first such
      in the configuration; nothing is chosen exactly when nothing is met. */
  lemma {:induction false} ChoosesTheGreatest(levels: seq<Level>, c: Criterion)
    ensures match Chosen(levels, c)
            case None => forall i :: 0 <= i < |levels| ==> !Met(c, levels[i].threshold)
            case Some(x) => IsGreatestMet(levels, c, x)
  {
    if levels != [] {
      var n := |levels| - 1;
      var front := levels[..n];
      ChoosesTheGreatest(front, c);
      ChosenSnoc(levels, c);
      match Chosen(front, c) {
        case None =>
          assert forall i :: 0 <= i < n ==> front[i] == levels[i];
          NoneMetSnoc(levels, c);
        case Some(x) =>
          var k :| 0 <= k < n && front[k] == x && GreatestMet(front, c, k);
          GreatestMetGrows(levels, c, k);
      }
    }
  }

  /** At most one anomaly is reported; it carries the greatest threshold met, and there is none exactly when
      nothing is met or there is nothing to judge by. */
  lemma {:induction false} ReportsAtMostOne(minDataPoints: int, baseline: seq<real>, subject: Subject, value: real,
                                            config: Config)
    ensures
      var r := Judge(minDataPoints, baseline, subject, value, config);
      && (r.Raised? <==> config.thresholdType.Dynamic? && baseline == [] && minDataPoints <= 0)
      && (r.Anomalies? && r.list == [] ==>
            forall c, i :: IsCriterion(minDataPoints, baseline, value, config, c) && 0 <= i < |config.severityMap| ==>
              !Met(c, config.severityMap[i].threshold))
      && (r.Anomalies? && r.list != [] ==>
            && |r.list| == 1 && r.list[0].subject == subject && r.list[0].value == value
            && r.list[0].mean == (if config.thresholdType.Static? || baseline == [] then 0.0 else Mean(baseline))
            && IsCriterion(minDataPoints, baseline, value, config, r.list[0].criterion)
            && IsGreatestMet(config.severityMap, r.list[0].criterion, r.list[0].level))
  {
    var enough := baseline != [] && |baseline| >= minDataPoints;
    if config.thresholdType.Static? || (config.thresholdType.Dynamic? && enough) {
      var c := CriterionFor(minDataPoints, baseline, value, config.thresholdType).value;
      ChoosesTheGreatest(config.severityMap, c);
      assert IsCriterion(minDataPoints, baseline, value, config, c);
    }
  }

  ghost predicate IsCriterion(minDataPoints: int, baseline: seq<real>, value: real, config: Config, c: Criterion) {
    match config.thresholdType
    case Dynamic => baseline != [] && |baseline| >= minDataPoints && c == ByScore(ScoreOf(baseline, value))
    case Static => c == ByValue(value)
    case OtherType(_) => false
  }

  // --- What the windows are kept by --------------------------------------------------------------

  lemma {:induction false} CutStart(p: string, x: string, y: string)
    requires p + x == p + y
    ensures x == y
  {
    assert (p + x)[|p|..] == x && (p + y)[|p|..] == y;
  }

  lemma {:induction false} CutEnd(x: string, y: string, e: string)
    requires x + e == y + e
    ensures x == y
  {
    assert |x| == |y|;
    assert (x + e)[..|x|] == x && (y + e)[..|y|] == y;
  }

  /** Two metrics of one service, and one metric of two services, have windows of their own. */
  lemma {:induction false} KeysDiffer(metric: string, service: string, otherMetric: string, otherService: string)
    ensures KeyOf(metric, service) == KeyOf(metric, otherService) ==> service == otherService
    ensures KeyOf(metric, service) == KeyOf(otherMetric, service) ==> metric == otherMetric
  {
    if KeyOf(metric, service) == KeyOf(metric, otherService) {
      CutStart(metric + ":", service, otherService);
    }
    if KeyOf(metric, service) == KeyOf(otherMetric, service) {
      assert KeyOf(metric, service) == metric + (":" + service);
      assert KeyOf(otherMetric, service) == otherMetric + (":" + service);
      CutEnd(metric, otherMetric, ":" + service);
    }
  }

  // --- What the criteria say ---------------------------------------------------------------------

  lemma {:induction false} SquaresMinus(xs: seq<real>, c: real)
    ensures Squares(Minus(xs, c)) == Squares(xs) - 2.0 * Times(c, Sum(xs)) + |xs| as real * Times(c, c)
  {
    if xs != [] {
      var front, x := xs[..|xs| - 1], xs[|xs| - 1];
      SquaresMinus(front, c);
      assert Minus(xs, c)[..|xs| - 1] == Minus(front, c);
      assert Times(x - c, x - c) == Times(x, x) - 2.0 * Times(c, x) + Times(c, c);
      assert Times(c, Sum(xs)) == Times(c, Sum(front)) + Times(c, x);
    }
  }

  /** The sample variance: n · (n - 1) times it is n times the sum of squares less the square of the sum. */
  lemma {:induction false} VarianceInSums(xs: seq<real>)
    requires |xs| > 1
    ensures
      var n := |xs| as real;
      n * ((n - 1.0) * Variance(xs)) == n * Squares(xs) - Times(Sum(xs), Sum(xs))
  {
    var n, m, v, s := |xs| as real, Mean(xs), Variance(xs), Sum(xs);
    SquaresMinus(xs, m);
    assert Centred(xs) == Minus(xs, m);
    DivideBack(Squares(Centred(xs)), (|xs| - 1) as real);
    assert (n - 1.0) * v == Squares(Centred(xs));
    MeanSquare(m, s, n);
  }

  lemma {:induction false} MeanSquare(m: real, s: real, n: real)
    requires n > 0.0 && m == s / n
    ensures n * (0.0 - 2.0 * Times(m, s) + n * Times(m, m)) == 0.0 - Times(s, s)
  {
    assert n * m == s;
    assert n * Times(m, s) == Times(s, s);
    assert n * (n * Times(m, m)) == Times(s, s);
  }

  /** A threshold is met in either direction when it is not positive, or the deviation from the mean is at least that
      many standard deviations, where a baseline without variance counts in hundredths unless its mean is zero. */
  lemma {:induction false} DynamicMetIff(baseline: seq<real>, value: real, t: real)
    requires baseline != []
    ensures
      var m, v := Mean(baseline), Variance(baseline);
      var d := value - m;
      Met(ByScore(ScoreOf(baseline, value)), t)
      <==> || t <= 0.0
           || (v > 0.0 && d * d >= t * t * v)
           || (v <= 0.0 && d != 0.0 && m != 0.0 && 10000.0 * (d * d) >= t * t)
  {
    var d, v := value - Mean(baseline), Variance(baseline);
    if v > 0.0 {
      ReachesIff(d, v, t);
    } else if d != 0.0 && Mean(baseline) != 0.0 {
      ReachesIff(d, SUBSTITUTE_VARIANCE, t);
      Hundredths(d * d, t * t);
    } else {
      NothingReaches(t);
    }
  }

  lemma {:induction false} NothingReaches(t: real)
    ensures Reaches(Score(0.0, 1.0), t) <==> t <= 0.0
  {
    SquareSign(t);
    assert Times(0.0, 0.0) == 0.0;
  }

  /** The score that is reported has the sign of the deviation; a single reading has no variance. */
  lemma {:induction false} ScoreCases(baseline: seq<real>, value: real)
    requires baseline != []
    ensures |baseline| == 1 ==> Variance(baseline) == 0.0
    ensures Variance(baseline) > 0.0 ==>
      ScoreOf(baseline, value) == Score(value - Mean(baseline), Variance(baseline))
    ensures Variance(baseline) <= 0.0 ==>
      ScoreOf(baseline, value).dev == if Mean(baseline) != 0.0 then value - Mean(baseline) else 0.0
  {}

  lemma {:induction false} ReachesIff(d: real, v: real, t: real)
    ensures Reaches(Score(d, v), t) <==> t <= 0.0 || d * d >= t * t * v
  {}

  lemma {:induction false} Hundredths(a: real, b: real)
    ensures a >= b * SUBSTITUTE_VARIANCE <==> 10000.0 * a >= b
  {}

  lemma {:induction false} StaticMetIff(value: real, t: real)
    ensures Met(ByValue(value), t) <==> value >= t
  {}

  // --- What a run of readings leaves ------------------------------------------------------------

  datatype Reading = Reading(key: Key, value: real)

  function RunWindows(size: nat, rs: seq<Reading>): Windows {
    if rs == [] then map[]
    else Recorded(RunWindows(size, rs[..|rs| - 1]), size, rs[|rs| - 1].key, rs[|rs| - 1].value)
  }

  function ReadingsOf(rs: seq<Reading>, key: Key): seq<real> {
    if rs == [] then []
    else
      var front, last := ReadingsOf(rs[..|rs| - 1], key), rs[|rs| - 1];
      if last.key == key then front + [last.value] else front
  }

  lemma {:induction false} LastNOfMore(s: seq<real>, x: real, n: nat)
    ensures LastN(LastN(s, n) + [x], n) == LastN(s + [x], n)
    ensures Baseline(LastN(s + [x], n)) == LastN(s, if n > 0 then n - 1 else 0)
    ensures n > 0 ==> LastN(s + [x], n) != [] && LastN(s + [x], n)[|LastN(s + [x], n)| - 1] == x
  {}

  lemma {:induction false} WindowsAreTails(size: nat, rs: seq<Reading>, key: Key)
    ensures WindowOf(RunWindows(size, rs), key) == LastN(ReadingsOf(rs, key), size)
  {
    if rs != [] {
      var front, last := rs[..|rs| - 1], rs[|rs| - 1];
      WindowsAreTails(size, front, key);
      LastNOfMore(ReadingsOf(front, key), last.value, size);
    }
  }

  /** However keys are interleaved, a window holds the last readings of its key in their order, as many as there are
      or as it has room for. */
  lemma {:induction false} WindowsHoldTheLatest(size: nat, rs: seq<Reading>, key: Key)
    ensures
      var window, all := WindowOf(RunWindows(size, rs), key), ReadingsOf(rs, key);
      && |window| == (if |all| < size then |all| else size)
      && (forall i :: 0 <= i < |window| ==> window[i] == all[|all| - |window| + i])
  {
    WindowsAreTails(size, rs, key);
  }

  /** However the readings of different keys are interleaved, a reading is the newest of its window and is judged
      against exactly the previous readings of its own key, as many as there are but one fewer than the window holds. */
  lemma {:induction false} BaselineIsThePast(size: nat, rs: seq<Reading>, r: Reading)
    ensures
      var past, windows := ReadingsOf(rs, r.key), RunWindows(size, rs + [r]);
      && r.key in windows
      && (size > 0 ==> windows[r.key] != [] && windows[r.key][|windows[r.key]| - 1] == r.value)
      && var baseline := Baseline(windows[r.key]);
      && |baseline| == (if |past| < size then |past| else if size > 0 then size - 1 else 0)
      && (forall i :: 0 <= i < |baseline| ==> baseline[i] == past[|past| - |baseline| + i])
  {
    assert (rs + [r])[..|rs|] == rs;
    WindowsAreTails(size, rs, r.key);
    LastNOfMore(ReadingsOf(rs, r.key), r.value, size);
  }

  // --- Units do not matter, exactly when there is variance --------------------------------------

  function Affine(xs: seq<real>, a: real, b: real): (ys: seq<real>)
    ensures |ys| == |xs|
  {
    seq(|xs|, i requires 0 <= i < |xs| => a * xs[i] + b)
  }

  lemma {:induction false} AffineMean(n: real, m': real, a: real, m: real, b: real, sum: real, sum': real)
    requires n > 0.0 && n * m == sum && n * m' == sum' && sum' - n * b == a * sum
    ensures m' == a * m + b
  {
    var d := m' - b - a * m;
    assert a * (n * m) == n * (a * m);
    assert n * d == n * m' - n * b - n * (a * m);
    DivideBack(d, n);
  }

  lemma {:induction false} SumOfAffine(xs: seq<real>, a: real, b: real)
    ensures Sum(Affine(xs, a, b)) - |xs| as real * b == a * Sum(xs)
  {
    var ys := Affine(xs, a, b);
    SumScaled(xs, Minus(ys, b), a);
    SumMinus(ys, b);
  }

  lemma {:induction false} MeanOfAffine(xs: seq<real>, a: real, b: real)
    requires xs != []
    ensures Mean(Affine(xs, a, b)) == a * Mean(xs) + b
  {
    var ys := Affine(xs, a, b);
    SumOfAffine(xs, a, b);
    MeanIsMean(xs);
    MeanIsMean(ys);
    AffineMean(|xs| as real, Mean(ys), a, Mean(xs), b, Sum(xs), Sum(ys));
  }

  lemma {:induction false} CentredOfAffine(xs: seq<real>, a: real, b: real)
    requires xs != []
    ensures Squares(Centred(Affine(xs, a, b))) == a * a * Squares(Centred(xs))
  {
    var ys := Affine(xs, a, b);
    MeanOfAffine(xs, a, b);
    forall i | 0 <= i < |xs|
      ensures Centred(ys)[i] == a * Centred(xs)[i]
    {
      DifferenceScales(a, xs[i], Mean(xs), b);
    }
    ScaledSquares(Centred(xs), Centred(ys), a);
  }

  lemma {:induction false} DifferenceScales(a: real, x: real, y: real, b: real)
    ensures (a * x + b) - (a * y + b) == a * (x - y)
  {}

  lemma {:induction false} VarianceOfAffine(xs: seq<real>, a: real, b: real)
    requires xs != []
    ensures Variance(Affine(xs, a, b)) == Times(a, a) * Variance(xs)
  {
    var q, before, after := Times(a, a), Squares(Centred(xs)), Squares(Centred(Affine(xs, a, b)));
    CentredOfAffine(xs, a, b);
    assert after == q * before;
    if |xs| > 1 {
      var n := (|xs| - 1) as real;
      QuotientScales(q, before, n);
      assert Variance(xs) == before / n && Variance(Affine(xs, a, b)) == after / n;
    } else {
      assert q * 0.0 == 0.0;
    }
  }

  lemma {:induction false} QuotientScales(q: real, x: real, n: real)
    requires n > 0.0
    ensures (q * x) / n == q * (x / n)
  {}

  lemma {:induction false} VarianceSign(xs: seq<real>)
    requires xs != []
    ensures Variance(xs) >= 0.0
  {
    SquaresNonNegative(Centred(xs));
    if |xs| > 1 {
      NonNegativeQuotient(Squares(Centred(xs)), (|xs| - 1) as real);
    }
  }

  lemma {:induction false} NonNegativeQuotient(x: real, n: real)
    requires x >= 0.0 && n > 0.0
    ensures x / n >= 0.0
  {}

  /** Scaling deviation and deviation unit by the same factor reaches the same thresholds. */
  lemma {:induction false} ReachesScaled(dev: real, variance: real, a: real, t: real)
    requires a != 0.0
    ensures Reaches(Score(a * dev, Times(a, a) * variance), t) <==> Reaches(Score(dev, variance), t)
  {
    var q, left, right := Times(a, a), Times(dev, dev), Times(t, t) * variance;
    SquareSign(a);
    assert Times(a * dev, a * dev) == q * left by {
      ProductOfSquares(a, dev);
    }
    assert Times(t, t) * (q * variance) == q * right by {
      Regroup(Times(t, t), q, variance);
    }
    ScaleOrder(q, left, right);
  }

  lemma {:induction false} ProductOfSquares(a: real, d: real)
    ensures Times(a * d, a * d) == Times(a, a) * Times(d, d)
  {
    assert (a * d) * (a * d) == (a * a) * (d * d);
  }

  lemma {:induction false} Regroup(x: real, y: real, z: real)
    ensures x * (y * z) == y * (x * z)
  {}

  lemma {:induction false} ScaleOrder(q: real, x: real, y: real)
    requires q > 0.0
    ensures q * x >= q * y <==> x >= y
  {
    if x > y {
      SameSign(q, x - y);
    } else if x < y {
      SameSign(q, y - x);
    }
    assert q * (x - y) == q * x - q * y;
  }

  lemma {:induction false} SameCriterionSameChoice(levels: seq<Level>, c: Criterion, d: Criterion)
    requires forall t :: Met(c, t) == Met(d, t)
    ensures FirstMet(levels, c) == FirstMet(levels, d)
  {
    if levels != [] {
      SameCriterionSameChoice(levels[..|levels| - 1], c, d);
    }
  }

  /** The level chosen for a dynamic threshold. */
  function DynamicChoice(baseline: seq<real>, value: real, levels: seq<Level>): Option<Level>
    requires baseline != []
  {
    Chosen(levels, ByScore(ScoreOf(baseline, value)))
  }

  /** The level chosen when everything is measured in other units. */
  function ChoiceIn(a: real, b: real, baseline: seq<real>, value: real, levels: seq<Level>): Option<Level>
    requires baseline != []
  {
    DynamicChoice(Affine(baseline, a, b), a * value + b, levels)
  }

  lemma {:induction false} ScoreOfAffine(baseline: seq<real>, value: real, a: real, b: real)
    requires baseline != [] && a != 0.0 && Variance(baseline) > 0.0
    ensures ScoreOf(Affine(baseline, a, b), a * value + b)
         == Score(a * (value - Mean(baseline)), Times(a, a) * Variance(baseline))
  {
    MeanOfAffine(baseline, a, b);
    VarianceOfAffine(baseline, a, b);
    SquareSign(a);
    SameSign(Times(a, a), Variance(baseline));
    DifferenceScales(a, value, Mean(baseline), b);
  }

  lemma {:induction false} VariedIsInvariant(baseline: seq<real>, value: real, levels: seq<Level>, a: real, b: real)
    requires baseline != [] && a != 0.0 && Variance(baseline) > 0.0
    ensures ChoiceIn(a, b, baseline, value, levels) == DynamicChoice(baseline, value, levels)
  {
    var z, z' := ScoreOf(baseline, value), ScoreOf(Affine(baseline, a, b), a * value + b);
    ScoreOfAffine(baseline, value, a, b);
    forall t
      ensures Met(ByScore(z'), t) == Met(ByScore(z), t)
    {
      ReachesScaled(z.dev, z.variance, a, t);
    }
    SameCriterionSameChoice(SortDescending(levels), ByScore(z'), ByScore(z));
  }

  /** Without variance a reading at the mean has no score in any units. */
  lemma {:induction false} FlatIsInvariant(baseline: seq<real>, value: real, levels: seq<Level>, a: real, b: real)
    requires baseline != [] && Variance(baseline) == 0.0 && value == Mean(baseline)
    ensures ChoiceIn(a, b, baseline, value, levels) == DynamicChoice(baseline, value, levels)
  {
    MeanOfAffine(baseline, a, b);
    VarianceOfAffine(baseline, a, b);
    assert a * value + b == Mean(Affine(baseline, a, b));
    assert Variance(Affine(baseline, a, b)) == 0.0;
    assert ScoreOf(Affine(baseline, a, b), a * value + b) == Score(0.0, 1.0) == ScoreOf(baseline, value);
  }

  /** Without variance the score of any other reading depends on the units. */
  lemma {:induction false} FlatScores(baseline: seq<real>, value: real, levels: seq<Level>, a: real, b: real, dev: real)
    requires baseline != [] && Variance(baseline) == 0.0 && value != Mean(baseline) && a != 0.0
    requires dev == a * (value - Mean(baseline))
    ensures ChoiceIn(a, b, baseline, value, levels)
         == var z := if a * Mean(baseline) + b != 0.0 then Score(dev, SUBSTITUTE_VARIANCE) else Score(0.0, 1.0);
            Chosen(levels, ByScore(z))
  {
    MeanOfAffine(baseline, a, b);
    VarianceOfAffine(baseline, a, b);
    DifferenceScales(a, value, Mean(baseline), b);
    NonZeroProduct(a, value - Mean(baseline));
  }

  lemma {:induction false} NonZeroProduct(a: real, d: real)
    requires a != 0.0 && d != 0.0
    ensures a * d != 0.0
  {
    if (a > 0.0) == (d > 0.0) {
      SameSign(a, d);
    } else {
      SameSign(a, -d);
    }
  }

  ghost predicate UnitsDoNotMatter(baseline: seq<real>, value: real, levels: seq<Level>)
    requires baseline != []
  {
    forall a, b :: a != 0.0 ==> ChoiceIn(a, b, baseline, value, levels) == DynamicChoice(baseline, value, levels)
  }

  lemma {:induction false} FarReaches(t: real)
    requires t > 0.0
    ensures Reaches(Score(t + 1.0, SUBSTITUTE_VARIANCE), t) && !Reaches(Score(0.0, 1.0), t)
  {
    assert Times(t + 1.0, t + 1.0) == Times(t, t) + 2.0 * t + 1.0;
    SquareSign(t);
  }

  /** Units in which a flat baseline has mean zero and no reading has a score. */
  lemma {:induction false} NearUnits(baseline: seq<real>, value: real, levels: seq<Level>)
    requires baseline != [] && Variance(baseline) == 0.0 && value != Mean(baseline)
    ensures ChoiceIn(1.0, -Mean(baseline), baseline, value, levels)
         == Chosen(levels, ByScore(Score(0.0, 1.0)))
  {
    FlatScores(baseline, value, levels, 1.0, -Mean(baseline), value - Mean(baseline));
  }

  /** Units in which the reading is `d` away from a flat baseline. */
  lemma {:induction false} FarUnits(baseline: seq<real>, value: real, levels: seq<Level>, d: real)
    returns (a: real, b: real)
    requires baseline != [] && Variance(baseline) == 0.0 && value != Mean(baseline) && d > 0.0
    ensures a != 0.0
    ensures ChoiceIn(a, b, baseline, value, levels) == Chosen(levels, ByScore(Score(d, SUBSTITUTE_VARIANCE)))
  {
    var m := Mean(baseline);
    var gap := value - m;
    a := d / gap;
    DivideBack(d, gap);
    b := 1.0 - a * m;
    assert a * m + b == 1.0;
    FlatScores(baseline, value, levels, a, b, d);
  }

  lemma {:induction false} FlatDependsOnUnits(baseline: seq<real>, value: real, levels: seq<Level>, k: nat)
    requires baseline != [] && Variance(baseline) == 0.0 && value != Mean(baseline)
    requires k < |levels| && levels[k].threshold > 0.0
    ensures !UnitsDoNotMatter(baseline, value, levels)
  {
    var t := levels[k].threshold;
    NearUnits(baseline, value, levels);
    NearChoosesNothingPositive(levels);
    var a, b := FarUnits(baseline, value, levels, t + 1.0);
    FarChoosesPositive(levels, k);
    var original := DynamicChoice(baseline, value, levels);
    if original == Chosen(levels, ByScore(Score(0.0, 1.0))) {
      assert ChoiceIn(a, b, baseline, value, levels) != original;
    } else {
      assert ChoiceIn(1.0, -Mean(baseline), baseline, value, levels) != original;
    }
  }

  lemma {:induction false} FarChoosesPositive(levels: seq<Level>, k: nat)
    requires k < |levels| && levels[k].threshold > 0.0
    ensures
      var x := Chosen(levels, ByScore(Score(levels[k].threshold + 1.0, SUBSTITUTE_VARIANCE)));
      x.Some? && x.value.threshold > 0.0
  {
    var far := ByScore(Score(levels[k].threshold + 1.0, SUBSTITUTE_VARIANCE));
    FarReaches(levels[k].threshold);
    assert Met(far, levels[k].threshold);
    ChoosesTheGreatest(levels, far);
  }

  lemma {:induction false} NearChoosesNothingPositive(levels: seq<Level>)
    ensures
      var x := Chosen(levels, ByScore(Score(0.0, 1.0)));
      x.Some? ==> x.value.threshold <= 0.0
  {
    var near := ByScore(Score(0.0, 1.0));
    FirstMetIsMet(SortDescending(levels), near);
    var x := Chosen(levels, near);
    if x.Some? && x.value.threshold > 0.0 {
      FarReaches(x.value.threshold);
    }
  }

  lemma {:induction false} NothingPositiveAlwaysMet(levels: seq<Level>, c: Criterion, d: Criterion)
    requires c.ByScore? && d.ByScore? && forall x :: x in levels ==> x.threshold <= 0.0
    ensures FirstMet(levels, c) == FirstMet(levels, d)
  {
    if levels != [] {
      NothingPositiveAlwaysMet(levels[..|levels| - 1], c, d);
    }
  }

  /** The dynamic verdict is the same in all units of measurement exactly when the baseline varies, or the
      reading equals its mean, or no threshold is positive. */
  lemma {:induction false} UnitsDoNotMatterIff(baseline: seq<real>, value: real, levels: seq<Level>)
    requires baseline != []
    ensures UnitsDoNotMatter(baseline, value, levels)
       <==> || Variance(baseline) > 0.0
            || value == Mean(baseline)
            || forall i :: 0 <= i < |levels| ==> levels[i].threshold <= 0.0
  {
    VarianceSign(baseline);
    if Variance(baseline) > 0.0 {
      forall a, b | a != 0.0
        ensures ChoiceIn(a, b, baseline, value, levels) == DynamicChoice(baseline, value, levels)
      {
        VariedIsInvariant(baseline, value, levels, a, b);
      }
    } else if value == Mean(baseline) {
      forall a, b | a != 0.0
        ensures ChoiceIn(a, b, baseline, value, levels) == DynamicChoice(baseline, value, levels)
      {
        FlatIsInvariant(baseline, value, levels, a, b);
      }
    } else if forall i :: 0 <= i < |levels| ==> levels[i].threshold <= 0.0 {
      SortedDescends(levels);
      forall a, b | a != 0.0
        ensures ChoiceIn(a, b, baseline, value, levels) == DynamicChoice(baseline, value, levels)
      {
        NothingPositiveAlwaysMet(SortDescending(levels), ByScore(ScoreOf(Affine(baseline, a, b), a * value + b)),
                                 ByScore(ScoreOf(baseline, value)));
      }
    } else {
      var k :| 0 <= k < |levels| && levels[k].threshold > 0.0;
      FlatDependsOnUnits(baseline, value, levels, k);
    }
  }
}
