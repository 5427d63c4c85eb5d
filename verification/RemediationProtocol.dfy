/** The remediator and the safety agent together, over a message bus that may deliver any message ever
    published any number of times, in any order, or never. The remediator may be restarted at any time. */
module RemediationProtocol {
  import opened Windows
  import opened Actions
  import opened BlastRadius
  import opened RateLimiting
  import opened SafetyGate
  import opened Remediator

  /** `env` says which diagnoses are published. */
  datatype Config = Config(limits: Limits, graph: Graph, plan: Diagnosis -> Option<Plan>, env: (Cid, Diagnosis) -> bool)

  /** One trace of what both agents do. An evaluation keeps the rate log it was answered from, a restart what the
      remediator forgets by it. */
  datatype Happening =
    | Evaluated(cid: Cid, action: Action, decision: Decision, history: seq<Entry>, checkedAt: Time, serial: nat)
    | Did(deed: Deed)
    | Restarted(lost: Rem)

  datatype World = World(rem: Rem, gate: GateState, net: set<Msg>, trace: seq<Happening>, delivered: seq<nat>)

  datatype Step =
    | Diagnose(cid: Cid, diagnosis: Diagnosis)
    | DeliverDiagnosis(cid: Cid, diagnosis: Diagnosis)
    | DeliverReview(cid: Cid, diagnosis: Diagnosis, action: Action, checkedAt: Time, recordedAt: Time)
    | DeliverDecision(cid: Cid, status: Status, serial: nat, docker: Docker)
    | Verify(verifyOk: bool)
    | Acknowledge
    | Restart

  function StatusOf(d: Decision): Status {
    match d
    case Approved(_, _) => StatusApproved
    case Rejected(_) => StatusRejected
    case PendingHuman(_, _, _) => StatusPending
    case Raised => StatusOther
  }

  function Deeds(ds: seq<Deed>): (hs: seq<Happening>)
    ensures |hs| == |ds| && forall i :: 0 <= i < |ds| ==> hs[i] == Did(ds[i])
  {
    seq(|ds|, i requires 0 <= i < |ds| => Did(ds[i]))
  }

  /** Decisions are handled one at a time: the next one waits while a verification or the acknowledgement of a
      report is pending. */
  ghost predicate Enabled(c: Config, w: World, s: Step) {
    match s
    case Diagnose(cid, d) => c.env(cid, d)
    case DeliverDiagnosis(cid, d) => DiagnosisMsg(cid, d) in w.net
    case DeliverReview(cid, d, action, checkedAt, recordedAt) =>
      ReviewMsg(cid, d, action) in w.net && w.gate.clock <= checkedAt <= recordedAt
    case DeliverDecision(cid, status, serial, _) => DecisionMsg(cid, status, serial) in w.net && w.rem.pending == Idle
    case Verify(_) => w.rem.pending.Verifying?
    case Acknowledge => w.rem.pending.Reporting?
    case Restart => true
  }

  function Apply(w: World, e: Effect): World {
    World(e.rem, w.gate, w.net + (set m | m in e.sent), w.trace + Deeds(e.deeds), w.delivered)
  }

  /** The serial number of the next evaluation. */
  function Serial(trace: seq<Happening>): nat {
    |trace|
  }

  ghost function Next(c: Config, w: World, s: Step): World
    requires Enabled(c, w, s)
  {
    match s
    case Diagnose(cid, d) => w.(net := w.net + {DiagnosisMsg(cid, d)})
    case DeliverDiagnosis(cid, d) => Apply(w, OnDiagnosis(w.rem, c.plan, cid, d))
    case DeliverReview(cid, d, action, checkedAt, recordedAt) =>
      var decision := Review(c.limits, c.graph, w.gate.history, action, checkedAt, recordedAt).0;
      var serial := Serial(w.trace);
      World(w.rem,
            GateStep(c.limits, c.graph, w.gate, Request(action, checkedAt, recordedAt)),
            if decision.Raised? then w.net else w.net + {DecisionMsg(cid, StatusOf(decision), serial)},
            w.trace + [Evaluated(cid, action, decision, w.gate.history, checkedAt, serial)],
            w.delivered)
    case DeliverDecision(cid, status, serial, docker) =>
      Apply(w, OnDecision(w.rem, cid, status, serial, docker)).(delivered := w.delivered + [serial])
    case Verify(verifyOk) => Apply(w, OnVerified(w.rem, verifyOk))
    case Acknowledge => Apply(w, OnReported(w.rem))
    case Restart => w.(rem := Rem(map[], Idle, w.rem.stored), trace := w.trace + [Restarted(w.rem)])
  }

  const START := World(Rem(map[], Idle, 0), GateState([], [], 0), {}, [], [])

  ghost predicate Follows(c: Config, w: World, w': World) {
    exists s :: Enabled(c, w, s) && w' == Next(c, w, s)
  }

  ghost predicate IsRun(c: Config, ws: seq<World>) {
    && ws != [] && ws[0] == START
    && forall i :: 0 <= i < |ws| - 1 ==> Follows(c, ws[i], ws[i + 1])
  }

  /** A run with the steps that were taken. */
  ghost predicate IsLabelledRun(c: Config, ws: seq<World>, ss: seq<Step>) {
    && |ws| == |ss| + 1 && ws[0] == START
    && forall i :: 0 <= i < |ss| ==> Enabled(c, ws[i], ss[i]) && ws[i + 1] == Next(c, ws[i], ss[i])
  }

  lemma {:induction false} LabelledIsRun(c: Config, ws: seq<World>, ss: seq<Step>)
    requires IsLabelledRun(c, ws, ss)
    ensures IsRun(c, ws)
  {
    forall i | 0 <= i < |ws| - 1
      ensures Follows(c, ws[i], ws[i + 1])
    {
      assert Enabled(c, ws[i], ss[i]);
    }
  }

  lemma {:induction false} FrontIsLabelled(c: Config, ws: seq<World>, ss: seq<Step>)
    requires IsLabelledRun(c, ws, ss) && ss != []
    ensures IsLabelledRun(c, ws[..|ws| - 1], ss[..|ss| - 1])
    ensures Enabled(c, ws[|ws| - 2], ss[|ss| - 1]) && ws[|ws| - 1] == Next(c, ws[|ws| - 2], ss[|ss| - 1])
  {
    var us, rs := ws[..|ws| - 1], ss[..|ss| - 1];
    forall i | 0 <= i < |rs|
      ensures Enabled(c, us[i], rs[i]) && us[i + 1] == Next(c, us[i], rs[i])
    {
      assert Enabled(c, ws[i], ss[i]);
    }
  }

  // --- What an approval is ----------------------------------------------------------------------

  /** The evaluation approved this action for this correlation id: the rate check passed on the log of the
      time, the policy passed, and neither the declared nor the computed risk was medium or high. */
  ghost predicate ApprovedIt(c: Config, h: Happening, cid: Cid, action: Action) {
    && h.Evaluated? && h.cid == cid && h.action == action && h.decision.Approved?
    && Verdict(c.limits, Stamps(h.history, FingerprintOf(action)), h.checkedAt) == Allowed
    && AutoApprovable(c.graph, action)
  }

  ghost predicate ApprovedBefore(c: Config, trace: seq<Happening>, k: nat, cid: Cid, action: Action) {
    exists j :: 0 <= j < k && j < |trace| && ApprovedIt(c, trace[j], cid, action)
  }

  predicate IsExecution(h: Happening) {
    h.Did? && h.deed.Executed?
  }

  /** Every approved decision that led to an execution had approved exactly the executed action, earlier and for
      its correlation id. What a rollback executes is not asked for here. */
  ghost predicate Sound(c: Config, trace: seq<Happening>) {
    forall k :: 0 <= k < |trace| && IsExecution(trace[k]) ==>
      ApprovedBefore(c, trace, k, trace[k].deed.cid, trace[k].deed.action)
  }

  /** Some published diagnosis of this correlation id leads to this action. */
  ghost predicate Planned(c: Config, cid: Cid, action: Action) {
    exists d :: c.env(cid, d) && c.plan(d).Some? && c.plan(d).value.action == action
  }

  /** Some planned action of this correlation id can be approved. */
  ghost predicate HasApprovable(c: Config, cid: Cid) {
    c.limits.perHour > 0 && exists a :: Planned(c, cid, a) && AutoApprovable(c.graph, a)
  }

  /** If one action of a correlation id can be approved, no other with a type is planned for it. */
  ghost predicate Unambiguous(c: Config) {
    c.limits.perHour > 0 ==>
      forall cid, a, b ::
        Planned(c, cid, a) && AutoApprovable(c.graph, a) && Planned(c, cid, b) && b.Kind().Some? ==> a == b
  }

  // --- The invariants ---------------------------------------------------------------------------

  ghost predicate NetInv(c: Config, w: World) {
    && (forall cid, d :: DiagnosisMsg(cid, d) in w.net ==> c.env(cid, d))
    && (forall cid, d, a :: ReviewMsg(cid, d, a) in w.net ==> Planned(c, cid, a))
    && (forall cid, n: nat :: DecisionMsg(cid, StatusApproved, n) in w.net ==>
          n < |w.trace| && w.trace[n].Evaluated? && ApprovedIt(c, w.trace[n], cid, w.trace[n].action)
          && Planned(c, cid, w.trace[n].action))
  }

  /** What is proposed, decided and stored comes from published diagnoses. */
  ghost predicate PlanInv(c: Config, w: World) {
    NetInv(c, w) && forall cid :: cid in w.rem.active ==> Planned(c, cid, w.rem.active[cid].action)
  }

  lemma {:induction false} ReviewFacts(c: Config, w: World, cid: Cid, d: Diagnosis, action: Action, checkedAt: Time,
                                       recordedAt: Time)
    requires Enabled(c, w, DeliverReview(cid, d, action, checkedAt, recordedAt))
    ensures
      var w' := Next(c, w, DeliverReview(cid, d, action, checkedAt, recordedAt));
      && |w'.trace| == |w.trace| + 1 && w'.trace[..|w.trace|] == w.trace
      && var h := w'.trace[|w.trace|];
      && h.Evaluated? && h.cid == cid && h.action == action
      && (h.decision.Approved? ==> ApprovedIt(c, h, cid, action))
  {
    ApprovesExactly(c.limits, c.graph, w.gate.history, action, checkedAt, recordedAt);
  }

  /** Every review is answered by one decision: rejected if the rate check refuses, else approved if nothing objects,
      else left to a human if a rule does; one that raises is not answered. */
  lemma {:induction false} ReviewIsAnswered(c: Config, w: World, s: Step)
    requires s.DeliverReview? && Enabled(c, w, s)
    ensures
      var room := Verdict(c.limits, Stamps(w.gate.history, FingerprintOf(s.action)), s.checkedAt) == Allowed;
      Next(c, w, s).net
      == w.net
         + if !room then {DecisionMsg(s.cid, StatusRejected, |w.trace|)}
           else if AutoApprovable(c.graph, s.action) then {DecisionMsg(s.cid, StatusApproved, |w.trace|)}
           else if NeedsHuman(c.graph, s.action) then {DecisionMsg(s.cid, StatusPending, |w.trace|)}
           else {}
  {
    ApprovesExactly(c.limits, c.graph, w.gate.history, s.action, s.checkedAt, s.recordedAt);
    AsksHumanExactly(c.limits, c.graph, w.gate.history, s.action, s.checkedAt, s.recordedAt);
  }

  lemma {:induction false} SoundGrows(c: Config, trace: seq<Happening>, more: seq<Happening>)
    requires Sound(c, trace)
    requires forall k :: 0 <= k < |more| && IsExecution(more[k]) ==>
      ApprovedBefore(c, trace, |trace|, more[k].deed.cid, more[k].deed.action)
    ensures Sound(c, trace + more)
  {
    var all := trace + more;
    forall k | 0 <= k < |all| && IsExecution(all[k])
      ensures ApprovedBefore(c, all, k, all[k].deed.cid, all[k].deed.action)
    {
      var cid, action := all[k].deed.cid, all[k].deed.action;
      var bound := if k < |trace| then k else |trace|;
      assert k >= |trace| ==> all[k] == more[k - |trace|];
      assert ApprovedBefore(c, trace, bound, cid, action);
      var j :| 0 <= j < bound && j < |trace| && ApprovedIt(c, trace[j], cid, action);
      assert all[j] == trace[j];
    }
  }

  lemma {:induction false} AllowedNeedsRoom(limits: Limits, ts: seq<Time>, now: Time)
    requires Verdict(limits, ts, now) == Allowed
    ensures limits.perHour > 0
  {}

  /** An approval comes from a planned action that can be approved. */
  lemma {:induction false} ApprovalHasGround(c: Config, w: World, cid: Cid, n: nat)
    requires NetInv(c, w) && DecisionMsg(cid, StatusApproved, n) in w.net
    ensures HasApprovable(c, cid)
  {
    var h := w.trace[n];
    AllowedNeedsRoom(c.limits, Stamps(h.history, FingerprintOf(h.action)), h.checkedAt);
  }

  lemma {:induction false} DiagnosisKeepsPlans(c: Config, w: World, cid: Cid, d: Diagnosis)
    requires PlanInv(c, w) && Enabled(c, w, DeliverDiagnosis(cid, d))
    ensures PlanInv(c, Next(c, w, DeliverDiagnosis(cid, d)))
  {
    if c.plan(d).Some? {
      assert Planned(c, cid, c.plan(d).value.action);
    }
  }

  lemma {:induction false} ReviewKeepsPlans(c: Config, w: World, s: Step)
    requires PlanInv(c, w) && s.DeliverReview? && Enabled(c, w, s)
    ensures PlanInv(c, Next(c, w, s))
  {
    var w' := Next(c, w, s);
    ReviewFacts(c, w, s.cid, s.diagnosis, s.action, s.checkedAt, s.recordedAt);
    assert forall n :: 0 <= n < |w.trace| ==> w'.trace[n] == w.trace[n];
  }

  lemma {:induction false} StepKeepsPlans(c: Config, w: World, s: Step)
    requires PlanInv(c, w) && Enabled(c, w, s)
    ensures PlanInv(c, Next(c, w, s))
  {
    match s {
      case DeliverDiagnosis(cid, d) => DiagnosisKeepsPlans(c, w, cid, d);
      case DeliverReview(_, _, _, _, _) => ReviewKeepsPlans(c, w, s);
      case _ =>
    }
  }

  /** An execution is triggered by an approval of a planned action. */
  lemma {:induction false} DecisionKeepsSound(c: Config, w: World, s: Step)
    requires Unambiguous(c) && PlanInv(c, w) && Sound(c, w.trace) && s.DeliverDecision? && Enabled(c, w, s)
    ensures Sound(c, Next(c, w, s).trace)
  {
    var e := OnDecision(w.rem, s.cid, s.status, s.serial, s.docker);
    if s.status == StatusApproved && Acts(w.rem, s.cid) {
      var h := w.trace[s.serial];
      assert ApprovedIt(c, h, s.cid, h.action);
      assert h.action == w.rem.active[s.cid].action;
      assert ApprovedBefore(c, w.trace, |w.trace|, s.cid, w.rem.active[s.cid].action);
    }
    SoundGrows(c, w.trace, Deeds(e.deeds));
  }

  lemma {:induction false} StepKeepsSound(c: Config, w: World, s: Step)
    requires Unambiguous(c) && PlanInv(c, w) && Sound(c, w.trace) && Enabled(c, w, s)
    ensures Sound(c, Next(c, w, s).trace)
  {
    match s {
      case Diagnose(_, _) =>
      case DeliverDiagnosis(cid, d) => SoundGrows(c, w.trace, Deeds(OnDiagnosis(w.rem, c.plan, cid, d).deeds));
      case DeliverReview(cid, d, a, t, u) =>
        ReviewFacts(c, w, cid, d, a, t, u);
        SoundGrows(c, w.trace, [Next(c, w, s).trace[|w.trace|]]);
        assert Next(c, w, s).trace == w.trace + [Next(c, w, s).trace[|w.trace|]];
      case DeliverDecision(_, _, _, _) => DecisionKeepsSound(c, w, s);
      case Verify(ok) => SoundGrows(c, w.trace, Deeds(OnVerified(w.rem, ok).deeds));
      case Acknowledge => SoundGrows(c, w.trace, Deeds(OnReported(w.rem).deeds));
      case Restart => SoundGrows(c, w.trace, [Restarted(w.rem)]);
    }
  }

  lemma {:induction false} FrontIsRun(c: Config, ws: seq<World>)
    requires IsRun(c, ws) && |ws| > 1
    ensures IsRun(c, ws[..|ws| - 1]) && Follows(c, ws[|ws| - 2], ws[|ws| - 1])
  {
    var front := ws[..|ws| - 1];
    assert forall i :: 0 <= i < |front| - 1 ==> Follows(c, ws[i], ws[i + 1]);
  }

  lemma {:induction false} FollowsKeepsPlans(c: Config, w: World, w': World)
    requires PlanInv(c, w) && Follows(c, w, w')
    ensures PlanInv(c, w')
  {
    var s :| Enabled(c, w, s) && w' == Next(c, w, s);
    StepKeepsPlans(c, w, s);
  }

  lemma {:induction false} PlansRun(c: Config, ws: seq<World>)
    requires IsRun(c, ws)
    ensures PlanInv(c, ws[|ws| - 1])
  {
    if |ws| > 1 {
      FrontIsRun(c, ws);
      PlansRun(c, ws[..|ws| - 1]);
      FollowsKeepsPlans(c, ws[|ws| - 2], ws[|ws| - 1]);
    }
  }

  lemma {:induction false} FollowsKeepsSound(c: Config, w: World, w': World)
    requires Unambiguous(c) && PlanInv(c, w) && Sound(c, w.trace) && Follows(c, w, w')
    ensures Sound(c, w'.trace)
  {
    var s :| Enabled(c, w, s) && w' == Next(c, w, s);
    StepKeepsSound(c, w, s);
  }

  lemma {:induction false} SoundRun(c: Config, ws: seq<World>)
    requires Unambiguous(c) && IsRun(c, ws)
    ensures Sound(c, ws[|ws| - 1].trace)
  {
    if |ws| > 1 {
      FrontIsRun(c, ws);
      SoundRun(c, ws[..|ws| - 1]);
      PlansRun(c, ws[..|ws| - 1]);
      FollowsKeepsSound(c, ws[|ws| - 2], ws[|ws| - 1]);
    }
  }
}
