/** The alert deduplicator of the observer: a sliding window of emitted alerts per fingerprint. */
module Deduplicator {
  import opened Windows
  import Detector

  /** The joined parts of an anomaly; the hash over them is taken to be injective. */
  type Fingerprint = string

  function FingerprintOf(anomaly: Detector.Anomaly): Fingerprint {
    anomaly.subject.metric + ":" + anomaly.subject.service + ":" + anomaly.level.severity
  }

  datatype Limits = Limits(windowSeconds: int, maxPerWindow: int) {
    function Window(): Time { windowSeconds * SECOND }

    function Cap(): nat { if maxPerWindow > 0 then maxPerWindow else 0 }
  }

  type Seen = map<Fingerprint, seq<Time>>

  function StampsOf(seen: Seen, fp: Fingerprint): seq<Time> {
    if fp in seen then seen[fp] else []
  }

  /** A stamp t is kept while now - t is less than the window. */
  function Kept(c: Limits, ts: seq<Time>, now: Time): seq<Time> {
    After(ts, now - c.Window())
  }

  class AlertDeduplicator {
    const limits: Limits
    var seen: Seen

    constructor (limits: Limits := Limits(300, 1))
      ensures this.limits == limits && seen == map[]
    {
      this.limits := limits;
      seen := map[];
    }

    method Recent(ts: seq<Time>, now: Time) returns (kept: seq<Time>)
      ensures kept == Kept(limits, ts, now)
    {
      kept := [];
      for i := 0 to |ts|
        invariant kept == Kept(limits, ts[..i], now)
      {
        assert ts[..i + 1][..i] == ts[..i];
        if now - ts[i] < limits.Window() {
          kept := kept + [ts[i]];
        }
      }
      assert ts[..|ts|] == ts;
    }

    method IsDuplicate(anomaly: Detector.Anomaly, now: Time) returns (duplicate: bool)
      modifies this
      ensures
        var fp := FingerprintOf(anomaly);
        var kept := Kept(limits, StampsOf(old(seen), fp), now);
        && duplicate == (|kept| >= limits.maxPerWindow)
        && seen == old(seen)[fp := if duplicate then kept else kept + [now]]
    {
      var fp := FingerprintOf(anomaly);
      var kept := Recent(if fp in seen then seen[fp] else [], now);
      seen := seen[fp := kept];
      if |seen[fp]| >= limits.maxPerWindow {
        return true;
      }
      seen := seen[fp := seen[fp] + [now]];
      return false;
    }
  }

  // --- Runs -------------------------------------------------------------------------------------

  datatype Call = Call(fp: Fingerprint, at: Time)

  /** `emitted` remembers every alert that got through, for ever. */
  datatype State = State(seen: Seen, emitted: seq<Call>)

  function Step(c: Limits, s: State, call: Call): State {
    var kept := Kept(c, StampsOf(s.seen, call.fp), call.at);
    var full := |kept| >= c.maxPerWindow;
    State(s.seen[call.fp := if full then kept else kept + [call.at]], if full then s.emitted else s.emitted + [call])
  }

  function Run(c: Limits, calls: seq<Call>): State {
    if calls == [] then State(map[], []) else Step(c, Run(c, calls[..|calls| - 1]), calls[|calls| - 1])
  }

  /** The clock never goes back. */
  ghost predicate Timed(calls: seq<Call>) {
    forall i, j :: 0 <= i < j < |calls| ==> calls[i].at <= calls[j].at
  }

  /** When calls with this fingerprint were made. */
  function TimesOf(calls: seq<Call>, fp: Fingerprint): seq<Time> {
    if calls == [] then []
    else
      var front, last := TimesOf(calls[..|calls| - 1], fp), calls[|calls| - 1];
      if last.fp == fp then front + [last.at] else front
  }

  /** The alerts that get through if nothing is ever forgotten: one does when fewer than the maximum got
      through within the window before it. */
  function Greedy(c: Limits, ts: seq<Time>): seq<Time> {
    if ts == [] then []
    else
      var front, last := Greedy(c, ts[..|ts| - 1]), ts[|ts| - 1];
      if |Kept(c, front, last)| < c.maxPerWindow then front + [last] else front
  }

  lemma {:induction false} TimesOfSnoc(calls: seq<Call>, call: Call, fp: Fingerprint)
    ensures TimesOf(calls + [call], fp)
         == if call.fp == fp then TimesOf(calls, fp) + [call.at] else TimesOf(calls, fp)
  {
    assert (calls + [call])[..|calls|] == calls;
  }

  lemma {:induction false} GreedySnoc(c: Limits, ts: seq<Time>, t: Time)
    ensures Greedy(c, ts + [t])
         == if |Kept(c, Greedy(c, ts), t)| < c.maxPerWindow then Greedy(c, ts) + [t] else Greedy(c, ts)
  {
    assert (ts + [t])[..|ts|] == ts;
  }

  function Clock(calls: seq<Call>, otherwise: Time): Time {
    if calls == [] then otherwise else calls[|calls| - 1].at
  }

  /** What is remembered of a fingerprint answers every later question about all its emitted alerts. */
  ghost predicate Remembers(c: Limits, ts: seq<Time>, emitted: seq<Time>, clock: Time) {
    forall cutoff :: cutoff >= clock - c.Window() ==> After(ts, cutoff) == After(emitted, cutoff)
  }

  lemma {:induction false} AskingRemembers(c: Limits, ts: seq<Time>, emitted: seq<Time>, clock: Time, now: Time)
    requires Remembers(c, ts, emitted, clock) && clock <= now
    ensures Kept(c, ts, now) == Kept(c, emitted, now)
    ensures Remembers(c, Kept(c, ts, now), emitted, now)
    ensures Remembers(c, Kept(c, ts, now) + [now], emitted + [now], now)
  {
    var cut := now - c.Window();
    assert After(ts, cut) == After(emitted, cut);
    forall cutoff | cutoff >= cut
      ensures After(Kept(c, ts, now), cutoff) == After(emitted, cutoff)
      ensures After(Kept(c, ts, now) + [now], cutoff) == After(emitted + [now], cutoff)
    {
      AfterAfter(ts, cut, cutoff);
      AfterSnoc(Kept(c, ts, now), now, cutoff);
      AfterSnoc(emitted, now, cutoff);
    }
  }

  ghost predicate Answers(c: Limits, s: State, fp: Fingerprint, ts: seq<Time>, clock: Time) {
    TimesOf(s.emitted, fp) == Greedy(c, ts) && Remembers(c, StampsOf(s.seen, fp), Greedy(c, ts), clock)
  }

  lemma {:induction false} StepAnswers(c: Limits, s: State, call: Call, fp: Fingerprint, ts: seq<Time>, clock: Time)
    requires clock <= call.at && Answers(c, s, fp, ts, clock)
    ensures Answers(c, Step(c, s, call), fp, if call.fp == fp then ts + [call.at] else ts, call.at)
    ensures call.fp == fp ==> Kept(c, StampsOf(s.seen, fp), call.at) == Kept(c, Greedy(c, ts), call.at)
  {
    TimesOfSnoc(s.emitted, call, fp);
    if call.fp == fp {
      AskingRemembers(c, StampsOf(s.seen, fp), Greedy(c, ts), clock, call.at);
      GreedySnoc(c, ts, call.at);
    }
  }

  lemma {:induction false} FrontIsTimed(calls: seq<Call>, start: Time)
    requires calls != [] && Timed(calls) && start <= calls[0].at
    ensures
      var front, last := calls[..|calls| - 1], calls[|calls| - 1];
      && Timed(front) && (front != [] ==> start <= front[0].at)
      && Clock(front, start) <= last.at
  {}

  lemma {:induction false} RunAnswers(c: Limits, calls: seq<Call>, fp: Fingerprint, start: Time)
    requires Timed(calls) && (calls != [] ==> start <= calls[0].at)
    ensures Answers(c, Run(c, calls), fp, TimesOf(calls, fp), Clock(calls, start))
  {
    if calls == [] {
      NothingYet(c, fp, start);
    } else {
      var front, last := calls[..|calls| - 1], calls[|calls| - 1];
      FrontIsTimed(calls, start);
      RunAnswers(c, front, fp, start);
      StepAnswers(c, Run(c, front), last, fp, TimesOf(front, fp), Clock(front, start));
    }
  }

  lemma {:induction false} NothingYet(c: Limits, fp: Fingerprint, start: Time)
    ensures Answers(c, State(map[], []), fp, [], start)
  {}

  // --- What a run guarantees --------------------------------------------------------------------

  /** The pruned windows, whatever other fingerprints do in between, let through exactly the alerts that a
      deduplicator with an unbounded memory for this fingerprint alone would. */
  lemma {:induction false} EmitsGreedily(c: Limits, calls: seq<Call>, fp: Fingerprint)
    requires Timed(calls)
    ensures TimesOf(Run(c, calls).emitted, fp) == Greedy(c, TimesOf(calls, fp))
  {
    RunAnswers(c, calls, fp, if calls == [] then 0 else calls[0].at);
  }

  /** An alert is suppressed exactly when the window already holds the maximum of emitted alerts. */
  lemma {:induction false} SuppressedExactly(c: Limits, calls: seq<Call>, call: Call)
    requires Timed(calls + [call])
    ensures Run(c, calls + [call]).emitted == Run(c, calls).emitted
       <==> |Kept(c, TimesOf(Run(c, calls).emitted, call.fp), call.at)| >= c.maxPerWindow
  {
    var all := calls + [call];
    assert forall i :: 0 <= i < |calls| ==> all[i] == calls[i];
    assert all[..|calls|] == calls && all[|calls|] == call;
    assert calls != [] ==> all[0].at <= all[|calls|].at && all[|calls| - 1].at <= all[|calls|].at;
    var start := if calls == [] then call.at else calls[0].at;
    RunAnswers(c, calls, call.fp, start);
    StepAnswers(c, Run(c, calls), call, call.fp, TimesOf(calls, call.fp), Clock(calls, start));
  }

  /** The emitted alerts of the call's fingerprint less than `windowSeconds` before it. */
  ghost function Recent(c: Limits, emitted: seq<Call>, call: Call): set<nat> {
    set i: nat | i < |emitted| && emitted[i].fp == call.fp && call.at - emitted[i].at < c.windowSeconds * 1_000_000
  }

  lemma {:induction false} RecentAreKept(c: Limits, emitted: seq<Call>, call: Call)
    ensures |Recent(c, emitted, call)| == |Kept(c, TimesOf(emitted, call.fp), call.at)|
  {
    if emitted != [] {
      var front, last := emitted[..|emitted| - 1], emitted[|emitted| - 1];
      RecentAreKept(c, front, call);
      assert Recent(c, emitted, call)
          == if last.fp == call.fp && call.at - last.at < c.windowSeconds * 1_000_000
             then Recent(c, front, call) + {|front|} else Recent(c, front, call);
      AfterSnoc(TimesOf(front, call.fp), last.at, call.at - c.Window());
    }
  }

  /** In seconds: an alert is suppressed exactly when at least the maximum of alerts with its fingerprint were emitted
      less than `windowSeconds` before it. */
  lemma {:induction false} SuppressedIff(c: Limits, calls: seq<Call>, call: Call)
    requires Timed(calls + [call])
    ensures Run(c, calls + [call]).emitted
         == if |Recent(c, Run(c, calls).emitted, call)| >= c.maxPerWindow then Run(c, calls).emitted
            else Run(c, calls).emitted + [call]
  {
    SuppressedExactly(c, calls, call);
    RecentAreKept(c, Run(c, calls).emitted, call);
    assert (calls + [call])[..|calls|] == calls;
  }

  /** Alerts that differ in one of metric, service and severity have different fingerprints. */
  lemma {:induction false} FingerprintsDiffer(a: Detector.Anomaly, b: Detector.Anomaly)
    requires FingerprintOf(a) == FingerprintOf(b)
    ensures a.subject.metric == b.subject.metric && a.subject.service == b.subject.service ==>
      a.level.severity == b.level.severity
    ensures a.subject.metric == b.subject.metric && a.level.severity == b.level.severity ==>
      a.subject.service == b.subject.service
    ensures a.subject.service == b.subject.service && a.level.severity == b.level.severity ==>
      a.subject.metric == b.subject.metric
  {
    var (m, s, l) := (a.subject.metric, a.subject.service, a.level.severity);
    var (n, t, k) := (b.subject.metric, b.subject.service, b.level.severity);
    if s == t && l == k {
      assert m + ":" + s + ":" + l == m + (":" + s + ":" + l) && n + ":" + t + ":" + k == n + (":" + s + ":" + l);
      Detector.CutEnd(m, n, ":" + s + ":" + l);
    }
    if m == n && l == k {
      assert m + ":" + s + ":" + l == (m + ":" + s) + (":" + l) && n + ":" + t + ":" + k == (m + ":" + t) + (":" + l);
      Detector.CutEnd(m + ":" + s, m + ":" + t, ":" + l);
      Detector.CutStart(m + ":", s, t);
    }
    if m == n && s == t {
      Detector.CutStart(m + ":" + s + ":", l, k);
    }
  }

  /** At no time, on any clock, are more stamps kept than the maximum. */
  lemma {:induction false} NeverMoreThanCap(c: Limits, calls: seq<Call>, fp: Fingerprint)
    ensures |StampsOf(Run(c, calls).seen, fp)| <= if c.maxPerWindow > 0 then c.maxPerWindow else 0
  {
    if calls != [] {
      var front, last := calls[..|calls| - 1], calls[|calls| - 1];
      NeverMoreThanCap(c, front, fp);
      KeptIsShorter(c, StampsOf(Run(c, front).seen, fp), last.at);
    }
  }

  lemma {:induction false} KeptIsShorter(c: Limits, ts: seq<Time>, now: Time)
    ensures |Kept(c, ts, now)| <= |ts|
  {
    if ts != [] {
      KeptIsShorter(c, ts[..|ts| - 1], now);
    }
  }

  lemma {:induction false} TimesAreSorted(calls: seq<Call>, fp: Fingerprint, until: Time)
    requires Timed(calls) && (calls != [] ==> calls[|calls| - 1].at <= until)
    ensures Sorted(TimesOf(calls, fp)) && forall i :: 0 <= i < |TimesOf(calls, fp)| ==> TimesOf(calls, fp)[i] <= until
  {
    if calls != [] {
      TimesAreSorted(calls[..|calls| - 1], fp, calls[|calls| - 1].at);
    }
  }

  lemma {:induction false} GreedyIsSpread(c: Limits, ts: seq<Time>, until: Time)
    requires Sorted(ts) && forall i :: 0 <= i < |ts| ==> ts[i] <= until
    ensures Sorted(Greedy(c, ts)) && Spread(Greedy(c, ts), c.Cap(), c.Window())
    ensures forall i :: 0 <= i < |Greedy(c, ts)| ==> Greedy(c, ts)[i] <= until
  {
    if ts != [] {
      var front, last := ts[..|ts| - 1], ts[|ts| - 1];
      GreedyIsSpread(c, front, last);
      if |Kept(c, Greedy(c, front), last)| < c.maxPerWindow {
        SpreadExtend(Greedy(c, front), c.Cap(), c.Window(), last, last);
      }
    }
  }

  /** No interval up to the window long emits more alerts of one fingerprint than the maximum. */
  lemma {:induction false} EmissionsAreCapped(c: Limits, calls: seq<Call>, fp: Fingerprint, lo: Time, hi: Time)
    requires Timed(calls) && hi - lo <= c.Window()
    ensures |Within(TimesOf(Run(c, calls).emitted, fp), lo, hi)| <= if c.maxPerWindow > 0 then c.maxPerWindow else 0
  {
    var until := Clock(calls, 0);
    EmitsGreedily(c, calls, fp);
    TimesAreSorted(calls, fp, until);
    GreedyIsSpread(c, TimesOf(calls, fp), until);
    SpreadBoundsInterval(Greedy(c, TimesOf(calls, fp)), c.Cap(), c.Window(), lo, hi);
  }

  /** `seen` holds the emitted alerts of `fp` still inside the window as of its last call. */
  ghost predicate HoldsTheWindow(c: Limits, s: State, fp: Fingerprint, ts: seq<Time>) {
    ts != [] ==> fp in s.seen && s.seen[fp] == Kept(c, TimesOf(s.emitted, fp), ts[|ts| - 1])
  }

  /** Within a positive window a stamp is inside as it is made. */
  lemma {:induction false} OwnStampIsKept(c: Limits, emitted: seq<Time>, now: Time)
    requires c.windowSeconds > 0
    ensures Kept(c, emitted + [now], now) == Kept(c, emitted, now) + [now]
  {
    AfterSnoc(emitted, now, now - c.Window());
  }

  lemma {:induction false} OwnCallHolds(c: Limits, s: State, call: Call, ts: seq<Time>, clock: Time)
    requires clock <= call.at && Answers(c, s, call.fp, ts, clock)
    requires c.windowSeconds > 0 || c.maxPerWindow <= 0
    ensures HoldsTheWindow(c, Step(c, s, call), call.fp, ts + [call.at])
  {
    var emitted := TimesOf(s.emitted, call.fp);
    AskingRemembers(c, StampsOf(s.seen, call.fp), emitted, clock, call.at);
    TimesOfSnoc(s.emitted, call, call.fp);
    if c.windowSeconds > 0 {
      OwnStampIsKept(c, emitted, call.at);
    }
  }

  lemma {:induction false} OtherCallHolds(c: Limits, s: State, call: Call, fp: Fingerprint, ts: seq<Time>)
    requires call.fp != fp && HoldsTheWindow(c, s, fp, ts)
    ensures HoldsTheWindow(c, Step(c, s, call), fp, ts)
  {
    TimesOfSnoc(s.emitted, call, fp);
  }

  lemma {:induction false} WindowHeld(c: Limits, calls: seq<Call>, fp: Fingerprint)
    requires Timed(calls) && (c.windowSeconds > 0 || c.maxPerWindow <= 0)
    ensures HoldsTheWindow(c, Run(c, calls), fp, TimesOf(calls, fp))
  {
    if calls != [] {
      var front, last := calls[..|calls| - 1], calls[|calls| - 1];
      var start := if front == [] then last.at else front[0].at;
      if last.fp == fp {
        RunAnswers(c, front, fp, start);
        OwnCallHolds(c, Run(c, front), last, TimesOf(front, fp), Clock(front, start));
      } else {
        WindowHeld(c, front, fp);
        OtherCallHolds(c, Run(c, front), last, fp, TimesOf(front, fp));
      }
    }
  }

  /** This holds in every run exactly when the window is positive, or nothing is ever emitted: with an empty
      window an alert is stored although it is outside at once. */
  lemma {:induction false} HoldsTheWindowIff(c: Limits)
    ensures (forall calls, fp :: Timed(calls) ==> HoldsTheWindow(c, Run(c, calls), fp, TimesOf(calls, fp)))
       <==> c.windowSeconds > 0 || c.maxPerWindow <= 0
  {
    if c.windowSeconds > 0 || c.maxPerWindow <= 0 {
      forall calls, fp | Timed(calls)
        ensures HoldsTheWindow(c, Run(c, calls), fp, TimesOf(calls, fp))
      {
        WindowHeld(c, calls, fp);
      }
    } else {
      var call := Call("", 0);
      var calls := [call];
      assert calls[..0] == [] && calls == [] + [call];
      TimesOfSnoc([], call, "");
      AfterSnoc([], 0, 0 - c.Window());
      assert Run(c, []) == State(map[], []) && Kept(c, StampsOf(map[], ""), 0) == [];
      var s := Step(c, Run(c, []), call);
      assert [] + [call] == calls && [] + [0] == [0];
      assert Run(c, calls) == s;
      assert s.emitted == calls && s.seen[""] == [0] && TimesOf(calls, "") == [0];
      assert !HoldsTheWindow(c, s, "", TimesOf(calls, ""));
    }
  }
}
