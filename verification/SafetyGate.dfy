/** The safety agent: blast radius, rate limit and policy combined into one verdict per proposal,
    and what that verdict guarantees over whole runs. */
module SafetyGate {
  import opened Windows
  import opened Actions
  import opened RateLimiting
  import opened Policy
  import opened BlastRadius

  datatype Decision =
    | Approved(blast: BlastInfo, action: Action)
    | Rejected(why: RateVerdict)
    | PendingHuman(rule: Rule, blast: BlastInfo, proposed: Action)
    | Raised

  const ELEVATED: set<Risk> := {Medium, High}

  predicate DeclaredElevated(action: Action) {
    action.DeclaredRisk().Some? && action.DeclaredRisk().value in ELEVATED
  }

  /** The action as the policy engine is shown it. */
  ghost function Shown(g: Graph, action: Action): Action {
    if action.Action? && (DeclaredElevated(action) || Blast(g, action).level in ELEVATED)
    then action.(declared := Some(High)) else action
  }

  /** One evaluation: the decision, and the rate log it leaves behind. */
  ghost function Review(limits: Limits, g: Graph, history: seq<Entry>, action: Action, checkedAt: Time,
                        recordedAt: Time)
    : (Decision, seq<Entry>)
  {
    var blast := Blast(g, action);
    var kept := Prune(history, checkedAt - HOUR);
    var rate := Verdict(limits, Stamps(history, FingerprintOf(action)), checkedAt);
    if rate != Allowed then (Rejected(rate), kept)
    else
      match Policy.Evaluate(Shown(g, action))
      case Refused(rule) => (PendingHuman(rule, blast, action), kept)
      case Raises => (Raised, kept)
      case Passed => (Approved(blast, action), kept + [EntryOf(action, recordedAt)])
  }

  /** The part of the verdict that depends on the action alone. */
  ghost predicate AutoApprovable(g: Graph, action: Action) {
    && Permitted(action)
    && action.declared != Some(Medium) && action.declared != Some(High)
    && Blast(g, action).level != Medium && Blast(g, action).level != High
  }

  class SafetyAgent {
    const rateLimiter: RateLimiter
    const blastCalc: BlastRadiusCalculator

    constructor ()
      ensures fresh(rateLimiter) && fresh(blastCalc)
      ensures rateLimiter.actionHistory == [] && rateLimiter.limits == Limits(3, 15)
      ensures blastCalc.graph == STATIC_GRAPH
    {
      rateLimiter := new RateLimiter();
      blastCalc := new BlastRadiusCalculator();
    }

    method EvaluateAction(action: Action, checkedAt: Time, recordedAt: Time) returns (decision: Decision)
      requires blastCalc.graph.WellFormed()
      modifies rateLimiter`actionHistory
      ensures (decision, rateLimiter.actionHistory)
           == Review(rateLimiter.limits, blastCalc.graph, old(rateLimiter.actionHistory), action, checkedAt, recordedAt)
    {
      var blastInfo := blastCalc.Calculate(action);
      var rate := rateLimiter.Check(action, checkedAt);
      if rate != Allowed {
        return Rejected(rate);
      }
      var actionWithContext := action;
      if DeclaredElevated(action) || blastInfo.level in ELEVATED {
        if action.Action? {
          actionWithContext := action.(declared := Some(High));
        }
      }
      var verdict := Policy.Evaluate(actionWithContext);
      match verdict
      case Refused(rule) => return PendingHuman(rule, blastInfo, action);
      case Raises => return Raised;
      case Passed =>
        rateLimiter.Record(action, recordedAt);
        return Approved(blastInfo, action);
    }
  }

  /** An action is approved exactly when the rate log has room for it and it is auto-approvable. */
  lemma {:induction false} ApprovesExactly(limits: Limits, g: Graph, history: seq<Entry>, action: Action,
                                           checkedAt: Time, recordedAt: Time)
    ensures Review(limits, g, history, action, checkedAt, recordedAt).0.Approved?
       <==> && Verdict(limits, Stamps(history, FingerprintOf(action)), checkedAt) == Allowed
            && Permitted(action)
            && action.declared != Some(Medium) && action.declared != Some(High)
            && Blast(g, action).level != Medium && Blast(g, action).level != High
    ensures Review(limits, g, history, action, checkedAt, recordedAt).0.Approved?
       <==> && Verdict(limits, Stamps(history, FingerprintOf(action)), checkedAt) == Allowed
            && AutoApprovable(g, action)
  {
    PassesExactlyPermitted(action);
    if action.Action? {
      PassesExactlyPermitted(action.(declared := Some(High)));
    }
  }

  /** A human is asked exactly when there is room and the policy objects; so no action is ever both approved and
      left to a human. */
  lemma {:induction false} AsksHumanExactly(limits: Limits, g: Graph, history: seq<Entry>, action: Action,
                                            checkedAt: Time, recordedAt: Time)
    ensures Review(limits, g, history, action, checkedAt, recordedAt).0.PendingHuman?
       <==> && Verdict(limits, Stamps(history, FingerprintOf(action)), checkedAt) == Allowed
            && NeedsHuman(g, action)
    ensures NeedsHuman(g, action) ==> !AutoApprovable(g, action)
  {
    PassesExactlyPermitted(action);
    PassesExactlyPermitted(Shown(g, action));
  }

  ghost predicate NeedsHuman(g: Graph, action: Action) {
    Policy.Evaluate(Shown(g, action)).Refused?
  }

  /** On the built graph the blast radius never decides anything: only critical is reported for core
      infrastructure, and critical is not one of the levels the gate reacts to. */
  lemma {:induction false} StaticGraphNeverBlocks(action: Action)
    ensures AutoApprovable(STATIC_GRAPH, action)
       <==> Permitted(action) && action.declared != Some(Medium) && action.declared != Some(High)
  {
    StaticBlastNeverMediumOrHigh(action);
  }

  /** Whatever is done to core infrastructure, its critical blast radius is no obstacle: it is approved exactly when
      the rate check, the policy and the declared risk allow it. */
  lemma {:induction false} CriticalIsNoObstacle(limits: Limits, history: seq<Entry>, action: Action,
                                                checkedAt: Time, recordedAt: Time)
    requires action.Target().Some? && action.Target().value in OVERRIDES
    ensures Blast(STATIC_GRAPH, action).level == Critical
    ensures Review(limits, STATIC_GRAPH, history, action, checkedAt, recordedAt).0.Approved?
       <==> && Verdict(limits, Stamps(history, FingerprintOf(action)), checkedAt) == Allowed
            && Permitted(action) && action.declared != Some(Medium) && action.declared != Some(High)
  {
    StaticGraphNeverBlocks(action);
    ApprovesExactly(limits, STATIC_GRAPH, history, action, checkedAt, recordedAt);
  }

  // --- Runs -------------------------------------------------------------------------------------

  /** `approvals` is the log that is never pruned; `history` is what the limiter still holds. */
  datatype GateState = GateState(history: seq<Entry>, approvals: seq<Entry>, clock: Time)

  datatype Request = Request(action: Action, checkedAt: Time, recordedAt: Time)

  ghost function GateStep(limits: Limits, g: Graph, s: GateState, r: Request): GateState {
    var (decision, history) := Review(limits, g, s.history, r.action, r.checkedAt, r.recordedAt);
    var approvals :=
      if decision.Approved? then s.approvals + [EntryOf(r.action, r.recordedAt)] else s.approvals;
    GateState(history, approvals, r.recordedAt)
  }

  /** The clock never goes back, within an evaluation or between two. */
  ghost predicate WellTimed(start: Time, rs: seq<Request>) {
    && (forall i :: 0 <= i < |rs| ==> start <= rs[i].checkedAt <= rs[i].recordedAt)
    && (forall i, j :: 0 <= i < j < |rs| ==> rs[i].recordedAt <= rs[j].checkedAt)
  }

  ghost function GateRun(limits: Limits, g: Graph, start: Time, rs: seq<Request>): GateState {
    if rs == [] then GateState([], [], start)
    else GateStep(limits, g, GateRun(limits, g, start, rs[..|rs| - 1]), rs[|rs| - 1])
  }

  ghost predicate Chronological(log: seq<Entry>, until: Time) {
    && (forall i, j :: 0 <= i < j < |log| ==> log[i].at <= log[j].at)
    && (forall i :: 0 <= i < |log| ==> log[i].at <= until)
  }

  ghost predicate HistoryIsRecent(s: GateState) {
    forall cutoff :: cutoff >= s.clock - HOUR ==> Prune(s.history, cutoff) == Prune(s.approvals, cutoff)
  }

  ghost predicate Paced(limits: Limits, log: seq<Entry>) {
    forall fp ::
      && Spread(Stamps(log, fp), limits.Cap(), HOUR)
      && (limits.Cooldown() <= HOUR ==> Spread(Stamps(log, fp), 1, limits.Cooldown()))
  }

  ghost predicate GateInv(limits: Limits, s: GateState) {
    Chronological(s.approvals, s.clock) && HistoryIsRecent(s) && Paced(limits, s.approvals)
  }

  lemma {:induction false} ChronologicalStamps(log: seq<Entry>, until: Time, fp: Fingerprint)
    requires Chronological(log, until)
    ensures Sorted(Stamps(log, fp))
    ensures forall i :: 0 <= i < |Stamps(log, fp)| ==> Stamps(log, fp)[i] <= until
  {
    if log != [] {
      var front, last := log[..|log| - 1], log[|log| - 1];
      ChronologicalStamps(front, last.at, fp);
    }
  }

  /** The pruned history answers for the whole log. */
  lemma {:induction false} HistoryAnswersForLog(limits: Limits, s: GateState, fp: Fingerprint, now: Time)
    requires HistoryIsRecent(s) && now >= s.clock
    ensures Verdict(limits, Stamps(s.history, fp), now) == Verdict(limits, Stamps(s.approvals, fp), now)
  {
    StampsOfPruned(s.history, now - HOUR, fp);
    StampsOfPruned(s.approvals, now - HOUR, fp);
    assert Prune(s.history, now - HOUR) == Prune(s.approvals, now - HOUR);
  }

  lemma {:induction false} ReviewLeaves(limits: Limits, g: Graph, s: GateState, r: Request)
    ensures
      var s', e := GateStep(limits, g, s, r), EntryOf(r.action, r.recordedAt);
      var kept := Prune(s.history, r.checkedAt - HOUR);
      || (s'.history == kept && s'.approvals == s.approvals)
      || (s'.history == kept + [e] && s'.approvals == s.approvals + [e])
  {}

  lemma {:induction false} PruneAgain(history: seq<Entry>, approvals: seq<Entry>, early: Time, late: Time, e: Entry)
    requires early <= late && Prune(history, late) == Prune(approvals, late)
    ensures Prune(Prune(history, early), late) == Prune(approvals, late)
    ensures Prune(Prune(history, early) + [e], late) == Prune(approvals + [e], late)
  {
    PrunePrune(history, early, late);
    PruneSnoc(Prune(history, early), e, late);
    PruneSnoc(approvals, e, late);
  }

  lemma {:induction false} RecentHistoryStep(limits: Limits, g: Graph, s: GateState, r: Request)
    requires HistoryIsRecent(s) && s.clock <= r.checkedAt <= r.recordedAt
    ensures HistoryIsRecent(GateStep(limits, g, s, r))
  {
    var s' := GateStep(limits, g, s, r);
    ReviewLeaves(limits, g, s, r);
    forall cutoff | cutoff >= r.recordedAt - HOUR
      ensures Prune(s'.history, cutoff) == Prune(s'.approvals, cutoff)
    {
      PruneAgain(s.history, s.approvals, r.checkedAt - HOUR, cutoff, EntryOf(r.action, r.recordedAt));
    }
  }

  lemma {:induction false} PacedStep(limits: Limits, s: GateState, e: Entry, checkedAt: Time)
    requires GateInv(limits, s) && s.clock <= checkedAt <= e.at
    requires Verdict(limits, Stamps(s.history, e.fp), checkedAt) == Allowed
    ensures Paced(limits, s.approvals + [e])
  {
    var ts := Stamps(s.approvals, e.fp);
    HistoryAnswersForLog(limits, s, e.fp, checkedAt);
    ChronologicalStamps(s.approvals, s.clock, e.fp);
    AllowedExactly(limits, ts, checkedAt);
    SpreadExtend(ts, limits.Cap(), HOUR, checkedAt, e.at);
    if limits.Cooldown() <= HOUR {
      PruningIsInvisible(limits, ts, checkedAt);
      assert Spread(ts + [e.at], 1, limits.Cooldown());
    }
    forall other
      ensures
        && Spread(Stamps(s.approvals + [e], other), limits.Cap(), HOUR)
        && (limits.Cooldown() <= HOUR ==>
          Spread(Stamps(s.approvals + [e], other), 1, limits.Cooldown()))
    {
      StampsSnoc(s.approvals, e, other);
    }
  }

  lemma {:induction false} GateInvStep(limits: Limits, g: Graph, s: GateState, r: Request)
    requires GateInv(limits, s) && s.clock <= r.checkedAt <= r.recordedAt
    ensures GateInv(limits, GateStep(limits, g, s, r))
  {
    RecentHistoryStep(limits, g, s, r);
    ApprovesExactly(limits, g, s.history, r.action, r.checkedAt, r.recordedAt);
    if Review(limits, g, s.history, r.action, r.checkedAt, r.recordedAt).0.Approved? {
      PacedStep(limits, s, EntryOf(r.action, r.recordedAt), r.checkedAt);
    }
  }

  lemma {:induction false} GateInvHolds(limits: Limits, g: Graph, start: Time, rs: seq<Request>)
    requires WellTimed(start, rs)
    ensures GateInv(limits, GateRun(limits, g, start, rs))
    ensures GateRun(limits, g, start, rs).clock == if rs == [] then start else rs[|rs| - 1].recordedAt
  {
    if rs != [] {
      GateInvHolds(limits, g, start, rs[..|rs| - 1]);
      GateInvStep(limits, g, GateRun(limits, g, start, rs[..|rs| - 1]), rs[|rs| - 1]);
    }
  }

  // --- What a run guarantees --------------------------------------------------------------------

  /** In no hour does any fingerprint get more approvals than the cap. */
  lemma {:induction false} HourlyCap(limits: Limits, g: Graph, start: Time, rs: seq<Request>, fp: Fingerprint, lo: Time)
    requires WellTimed(start, rs)
    ensures |Within(Stamps(GateRun(limits, g, start, rs).approvals, fp), lo, lo + 3_600_000_000)|
         <= if limits.perHour > 0 then limits.perHour else 0
  {
    GateInvHolds(limits, g, start, rs);
    var s := GateRun(limits, g, start, rs);
    ChronologicalStamps(s.approvals, s.clock, fp);
    SpreadBoundsInterval(Stamps(s.approvals, fp), limits.Cap(), HOUR, lo, lo + HOUR);
  }

  lemma {:induction false} ApprovalsAreLogged(limits: Limits, g: Graph, start: Time, rs: seq<Request>)
    ensures IsLog(GateRun(limits, g, start, rs).approvals)
  {
    if rs != [] {
      var front, r := rs[..|rs| - 1], rs[|rs| - 1];
      ApprovalsAreLogged(limits, g, start, front);
      ApprovesExactly(limits, g, GateRun(limits, g, start, front).history, r.action, r.checkedAt, r.recordedAt);
    }
  }

  /** After any run the rate check answers by what was approved in the last 3600 seconds. */
  lemma {:induction false} RoomAfterRun(limits: Limits, g: Graph, start: Time, rs: seq<Request>, action: Action,
                                        now: Time)
    requires WellTimed(start, rs) && GateRun(limits, g, start, rs).clock <= now && action.Action?
    ensures IsLog(GateRun(limits, g, start, rs).approvals)
    ensures
      var s := GateRun(limits, g, start, rs);
      var alike := Alike(s.approvals, action, now - 3_600_000_000);
      Verdict(limits, Stamps(s.history, FingerprintOf(action)), now) == Allowed
      <==> && |alike| < limits.perHour
           && (forall i :: i in alike ==> now - s.approvals[i].at >= limits.cooldownMins * 60_000_000)
  {
    var s := GateRun(limits, g, start, rs);
    GateInvHolds(limits, g, start, rs);
    ApprovalsAreLogged(limits, g, start, rs);
    HistoryAnswersForLog(limits, s, FingerprintOf(action), now);
    RoomIff(limits, s.approvals, action, now);
  }

  /** After any run the next action is approved exactly when fewer than the hourly limit of actions of its type and
      target were approved in the last 3600 seconds, none of them in the last `cooldownMins` times 60 seconds, no rule
      objects to it, and neither its declared nor its computed risk is medium or high. */
  lemma {:induction false} ApprovedIff(limits: Limits, g: Graph, start: Time, rs: seq<Request>, r: Request)
    requires WellTimed(start, rs) && GateRun(limits, g, start, rs).clock <= r.checkedAt && r.action.Action?
    ensures IsLog(GateRun(limits, g, start, rs).approvals)
    ensures
      var s := GateRun(limits, g, start, rs);
      var alike := Alike(s.approvals, r.action, r.checkedAt - 3_600_000_000);
      Review(limits, g, s.history, r.action, r.checkedAt, r.recordedAt).0.Approved?
      <==> && |alike| < limits.perHour
           && (forall i :: i in alike ==> r.checkedAt - s.approvals[i].at >= limits.cooldownMins * 60_000_000)
           && Permitted(r.action)
           && r.action.declared != Some(Medium) && r.action.declared != Some(High)
           && Blast(g, r.action).level != Medium && Blast(g, r.action).level != High
  {
    RoomAfterRun(limits, g, start, rs, r.action, r.checkedAt);
    ApprovesExactly(limits, g, GateRun(limits, g, start, rs).history, r.action, r.checkedAt, r.recordedAt);
  }

  lemma {:induction false} CapZeroApprovesNothing(ts: seq<Time>, cap: nat)
    requires Spread(ts, cap, HOUR)
    ensures cap == 0 ==> ts == []
  {
    if ts != [] {
      LastIsSpread(ts, cap, HOUR, |ts| - 1);
    }
  }

  /** An action no rule objects to, on any graph. */
  const HARMLESS := Action(Some(CircuitBreaker), None, false, None, None, Absent, Absent, None)
  const HARMLESS_FP := FingerprintOf(HARMLESS)

  lemma {:induction false} HarmlessIsApproved(limits: Limits, g: Graph, s: GateState, at: Time)
    requires Verdict(limits, Stamps(s.history, HARMLESS_FP), at) == Allowed
    ensures GateStep(limits, g, s, Request(HARMLESS, at, at))
         == GateState(Prune(s.history, at - HOUR) + [EntryOf(HARMLESS, at)], s.approvals + [EntryOf(HARMLESS, at)], at)
  {
    ApprovesExactly(limits, g, s.history, HARMLESS, at, at);
  }

  /** Two approvals of the harmless action, one hour apart. */
  lemma {:induction false} HourApartRun(limits: Limits, g: Graph)
    requires limits.perHour > 0
    ensures
      var rs := [Request(HARMLESS, 0, 0), Request(HARMLESS, HOUR, HOUR)];
      && WellTimed(0, rs) && WellTimed(0, rs[..1])
      && GateRun(limits, g, 0, rs[..1]) == GateState([EntryOf(HARMLESS, 0)], [EntryOf(HARMLESS, 0)], 0)
      && Verdict(limits, [0], HOUR) == Allowed
      && Stamps([EntryOf(HARMLESS, 0)], HARMLESS_FP) == [0]
      && Stamps(GateRun(limits, g, 0, rs).approvals, HARMLESS_FP) == [0, HOUR]
  {
    var rs := [Request(HARMLESS, 0, 0), Request(HARMLESS, HOUR, HOUR)];
    assert rs[..1] == [rs[0]] && rs[..1][..0] == [];
    HarmlessIsApproved(limits, g, GateState([], [], 0), 0);
    var s1 := GateState([EntryOf(HARMLESS, 0)], [EntryOf(HARMLESS, 0)], 0);
    StampsSnoc([], EntryOf(HARMLESS, 0), HARMLESS_FP);
    assert [] + [EntryOf(HARMLESS, 0)] == [EntryOf(HARMLESS, 0)];
    assert GateRun(limits, g, 0, rs[..1]) == s1;
    AfterSnoc([], 0, 0);
    HarmlessIsApproved(limits, g, s1, HOUR);
    StampsSnoc(s1.approvals, EntryOf(HARMLESS, HOUR), HARMLESS_FP);
  }

  lemma {:induction false} CooldownKept(limits: Limits, g: Graph, start: Time, rs: seq<Request>, fp: Fingerprint)
    requires WellTimed(start, rs) && (limits.Cooldown() <= HOUR || limits.perHour <= 0)
    ensures Spread(Stamps(GateRun(limits, g, start, rs).approvals, fp), 1, limits.Cooldown())
  {
    GateInvHolds(limits, g, start, rs);
    var ts := Stamps(GateRun(limits, g, start, rs).approvals, fp);
    assert Spread(ts, limits.Cap(), HOUR);
    CapZeroApprovesNothing(ts, limits.Cap());
  }

  /** Approvals of one fingerprint keep the cooldown in every run exactly when the cooldown is at most
      the hour the log remembers (or nothing is ever approved). */
  lemma {:induction false} CooldownKeptIff(limits: Limits, g: Graph)
    ensures (forall start, rs, fp :: WellTimed(start, rs) ==>
              Spread(Stamps(GateRun(limits, g, start, rs).approvals, fp), 1, limits.Cooldown()))
       <==> limits.Cooldown() <= HOUR || limits.perHour <= 0
  {
    if limits.Cooldown() <= HOUR || limits.perHour <= 0 {
      forall start, rs, fp | WellTimed(start, rs)
        ensures Spread(Stamps(GateRun(limits, g, start, rs).approvals, fp), 1, limits.Cooldown())
      {
        CooldownKept(limits, g, start, rs, fp);
      }
    } else {
      HourApartRun(limits, g);
      var rs := [Request(HARMLESS, 0, 0), Request(HARMLESS, HOUR, HOUR)];
      var ts := Stamps(GateRun(limits, g, 0, rs).approvals, HARMLESS_FP);
      assert ts[1] - ts[0] < limits.Cooldown();
    }
  }

  /** After every run the pruned history gives the answer, reason included, that the never-pruned log
      would give, exactly when the cooldown is at most the hour (or nothing is ever approved). */
  lemma {:induction false} PrunedAnswersLikeUnprunedIff(limits: Limits, g: Graph)
    ensures (forall start, rs, fp, now ::
              WellTimed(start, rs) && now >= GateRun(limits, g, start, rs).clock ==>
                Verdict(limits, Stamps(GateRun(limits, g, start, rs).history, fp), now)
                == UnprunedVerdict(limits, Stamps(GateRun(limits, g, start, rs).approvals, fp), now))
       <==> limits.Cooldown() <= HOUR || limits.perHour <= 0
  {
    if limits.Cooldown() <= HOUR || limits.perHour <= 0 {
      forall start, rs, fp, now | WellTimed(start, rs) && now >= GateRun(limits, g, start, rs).clock
        ensures Verdict(limits, Stamps(GateRun(limits, g, start, rs).history, fp), now)
             == UnprunedVerdict(limits, Stamps(GateRun(limits, g, start, rs).approvals, fp), now)
      {
        GateInvHolds(limits, g, start, rs);
        var s := GateRun(limits, g, start, rs);
        HistoryAnswersForLog(limits, s, fp, now);
        if limits.Cooldown() <= HOUR {
          PruningIsInvisible(limits, Stamps(s.approvals, fp), now);
        }
      }
    } else {
      HourApartRun(limits, g);
      var rs := [Request(HARMLESS, 0, 0), Request(HARMLESS, HOUR, HOUR)][..1];
      assert UnprunedVerdict(limits, [0], HOUR) != Allowed;
      assert WellTimed(0, rs) && HOUR >= GateRun(limits, g, 0, rs).clock;
    }
  }

  // --- Restarts of the agent ---------------------------------------------------------------------

  /** One process of the agent: it starts with an empty log. */
  datatype Epoch = Epoch(start: Time, requests: seq<Request>)

  ghost function StampsOfEpoch(limits: Limits, g: Graph, e: Epoch, fp: Fingerprint): seq<Time> {
    Stamps(GateRun(limits, g, e.start, e.requests).approvals, fp)
  }

  /** All approvals of a fingerprint over several processes. */
  ghost function StampsOfEpochs(limits: Limits, g: Graph, es: seq<Epoch>, fp: Fingerprint): seq<Time> {
    if es == [] then []
    else StampsOfEpochs(limits, g, es[..|es| - 1], fp) + StampsOfEpoch(limits, g, es[|es| - 1], fp)
  }

  function EndOf(e: Epoch): Time {
    if e.requests == [] then e.start else e.requests[|e.requests| - 1].recordedAt
  }

  ghost predicate WellTimedEpochs(es: seq<Epoch>) {
    && (forall i :: 0 <= i < |es| ==> WellTimed(es[i].start, es[i].requests))
    && (forall i, j :: 0 <= i < j < |es| ==> EndOf(es[i]) <= es[j].start)
  }

  /** The restarts in an interval; the first process is not one. */
  function RestartsIn(es: seq<Epoch>, lo: Time, hi: Time): nat {
    if |es| <= 1 then 0
    else RestartsIn(es[..|es| - 1], lo, hi) + if lo <= es[|es| - 1].start < hi then 1 else 0
  }

  lemma {:induction false} WithinConcat(a: seq<Time>, b: seq<Time>, lo: Time, hi: Time)
    ensures Within(a + b, lo, hi) == Within(a, lo, hi) + Within(b, lo, hi)
  {
    if b == [] {
      assert a + b == a;
    } else {
      assert (a + b)[..|a + b| - 1] == a + b[..|b| - 1];
      WithinConcat(a, b[..|b| - 1], lo, hi);
    }
  }

  lemma {:induction false} NoneWithin(ts: seq<Time>, lo: Time, hi: Time)
    requires forall i :: 0 <= i < |ts| ==> ts[i] < lo || ts[i] >= hi
    ensures Within(ts, lo, hi) == []
  {
    if ts != [] {
      NoneWithin(ts[..|ts| - 1], lo, hi);
    }
  }

  lemma {:induction false} StepStampsAfter(limits: Limits, g: Graph, s: GateState, r: Request, start: Time,
                                           fp: Fingerprint)
    requires start <= r.recordedAt && forall t :: t in Stamps(s.approvals, fp) ==> start <= t
    ensures forall t :: t in Stamps(GateStep(limits, g, s, r).approvals, fp) ==> start <= t
  {
    StampsSnoc(s.approvals, EntryOf(r.action, r.recordedAt), fp);
  }

  lemma {:induction false} StampsAfterStart(limits: Limits, g: Graph, start: Time, rs: seq<Request>, fp: Fingerprint)
    requires WellTimed(start, rs)
    ensures forall t :: t in Stamps(GateRun(limits, g, start, rs).approvals, fp) ==> start <= t
  {
    if rs != [] {
      var front := rs[..|rs| - 1];
      StampsAfterStart(limits, g, start, front, fp);
      StepStampsAfter(limits, g, GateRun(limits, g, start, front), rs[|rs| - 1], start, fp);
    }
  }

  lemma {:induction false} EpochStamps(limits: Limits, g: Graph, e: Epoch, fp: Fingerprint)
    requires WellTimed(e.start, e.requests)
    ensures forall t :: t in StampsOfEpoch(limits, g, e, fp) ==> e.start <= t <= EndOf(e)
  {
    StampsAfterStart(limits, g, e.start, e.requests, fp);
    GateInvHolds(limits, g, e.start, e.requests);
    var s := GateRun(limits, g, e.start, e.requests);
    ChronologicalStamps(s.approvals, s.clock, fp);
  }

  lemma {:induction false} StampsUntil(limits: Limits, g: Graph, es: seq<Epoch>, fp: Fingerprint, until: Time)
    requires WellTimedEpochs(es) && forall i :: 0 <= i < |es| ==> EndOf(es[i]) <= until
    ensures forall t :: t in StampsOfEpochs(limits, g, es, fp) ==> t <= until
  {
    if es != [] {
      StampsUntil(limits, g, es[..|es| - 1], fp, until);
      EpochStamps(limits, g, es[|es| - 1], fp);
    }
  }

  lemma {:induction false} NothingAfter(ts: seq<Time>, start: Time, lo: Time, hi: Time)
    requires forall t :: t in ts ==> start <= t
    ensures start >= hi ==> Within(ts, lo, hi) == []
  {
    if start >= hi {
      assert forall i :: 0 <= i < |ts| ==> ts[i] in ts;
      NoneWithin(ts, lo, hi);
    }
  }

  lemma {:induction false} NothingBefore(ts: seq<Time>, start: Time, lo: Time, hi: Time)
    requires forall t :: t in ts ==> t <= start
    ensures start < lo ==> Within(ts, lo, hi) == []
  {
    if start < lo {
      assert forall i :: 0 <= i < |ts| ==> ts[i] in ts;
      NoneWithin(ts, lo, hi);
    }
  }

  lemma {:induction false} FrontIsWellTimed(es: seq<Epoch>)
    requires WellTimedEpochs(es) && es != []
    ensures
      var front, last := es[..|es| - 1], es[|es| - 1];
      && WellTimedEpochs(front) && WellTimed(last.start, last.requests)
      && forall i :: 0 <= i < |front| ==> EndOf(front[i]) <= last.start
  {}

  /** What the last process adds within an hour. */
  lemma {:induction false} LastEpochWithin(limits: Limits, g: Graph, es: seq<Epoch>, fp: Fingerprint, lo: Time)
    requires WellTimedEpochs(es) && es != []
    ensures
      var front, last := es[..|es| - 1], es[|es| - 1];
      var before := |Within(StampsOfEpochs(limits, g, front, fp), lo, lo + HOUR)|;
      var all := |Within(StampsOfEpochs(limits, g, es, fp), lo, lo + HOUR)|;
      && all <= before + limits.Cap()
      && (last.start >= lo + HOUR ==> all == before)
      && (last.start < lo || front == [] ==> all <= limits.Cap())
  {
    var front, last := es[..|es| - 1], es[|es| - 1];
    FrontIsWellTimed(es);
    HourlyCap(limits, g, last.start, last.requests, fp, lo);
    EpochStamps(limits, g, last, fp);
    StampsUntil(limits, g, front, fp, last.start);
    var before, mine := StampsOfEpochs(limits, g, front, fp), StampsOfEpoch(limits, g, last, fp);
    WithinConcat(before, mine, lo, lo + HOUR);
    NothingAfter(mine, last.start, lo, lo + HOUR);
    NothingBefore(before, last.start, lo, lo + HOUR);
  }

  /** One cap, and one more for every restart. */
  function Caps(restarts: nat, cap: nat): nat {
    if restarts == 0 then cap else Caps(restarts - 1, cap) + cap
  }

  lemma {:induction false} CapsGrow(restarts: nat, cap: nat)
    ensures cap <= Caps(restarts, cap) && Caps(restarts, cap) == (restarts + 1) * cap
  {
    if restarts > 0 {
      CapsGrow(restarts - 1, cap);
      assert (restarts + 1) * cap == restarts * cap + cap;
    }
  }

  lemma {:induction false} CapsCover(es: seq<Epoch>, lo: Time, cap: nat, before: nat, all: nat)
    requires es != [] && before <= Caps(RestartsIn(es[..|es| - 1], lo, lo + HOUR), cap) && all <= before + cap
    requires es[|es| - 1].start >= lo + HOUR ==> all == before
    requires es[|es| - 1].start < lo || |es| == 1 ==> all <= cap
    ensures all <= Caps(RestartsIn(es, lo, lo + HOUR), cap)
  {
    CapsGrow(RestartsIn(es, lo, lo + HOUR), cap);
  }

  /** With the agent restarted, which empties its log, an hour holds at most one cap more for every restart in it. */
  lemma {:induction false} HourlyCapWithRestarts(limits: Limits, g: Graph, es: seq<Epoch>, fp: Fingerprint, lo: Time)
    requires WellTimedEpochs(es)
    ensures |Within(StampsOfEpochs(limits, g, es, fp), lo, lo + HOUR)|
         <= Caps(RestartsIn(es, lo, lo + HOUR), limits.Cap())
  {
    if es != [] {
      var front := es[..|es| - 1];
      FrontIsWellTimed(es);
      LastEpochWithin(limits, g, es, fp, lo);
      HourlyCapWithRestarts(limits, g, front, fp, lo);
      CapsCover(es, lo, limits.Cap(), |Within(StampsOfEpochs(limits, g, front, fp), lo, lo + HOUR)|,
                |Within(StampsOfEpochs(limits, g, es, fp), lo, lo + HOUR)|);
    }
  }
}
