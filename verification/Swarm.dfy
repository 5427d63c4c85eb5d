/** Safety agent, remediator and orchestrator together: which incidents can be resolved at all. */
module Swarm {
  import opened Windows
  import opened Actions
  import opened RateLimiting
  import opened SafetyGate
  import opened Remediator
  import opened IncidentFsm
  import opened Escalation
  import opened Orchestrator
  import P = RemediationProtocol
  import G = RemediationGuarantees
  import R = OrchestratorRuns

  datatype World = World(agents: P.World, orch: Orch)

  datatype Move = Agents(step: P.Step) | Orchestrates(event: R.Event)

  function VerdictOf(status: Status): Verdict {
    match status
    case StatusApproved => VerdictApproved
    case StatusRejected => VerdictRejected
    case StatusPending => VerdictPending
    case StatusOther => VerdictOther
  }

  /** Decisions and results reach the orchestrator only if the agents published them; anomalies, diagnoses and what
      humans say may come at any time. */
  ghost predicate Backed(net: set<Msg>, id: Id, msg: Message) {
    match msg
    case SafetyDecision(v) => exists status, n: nat :: DecisionMsg(id, status, n) in net && v == VerdictOf(status)
    case ExecutionResult(success) =>
      exists kind, result :: CompletionMsg(id, kind, result) in net && success == (result == Success)
    case _ => true
  }

  /** The orchestrator can hear exactly the verdicts that the safety agent published. */
  lemma {:induction false} HeardIff(net: set<Msg>, id: Id)
    ensures Backed(net, id, SafetyDecision(VerdictApproved))
       <==> exists n: nat :: DecisionMsg(id, StatusApproved, n) in net
    ensures Backed(net, id, SafetyDecision(VerdictRejected))
       <==> exists n: nat :: DecisionMsg(id, StatusRejected, n) in net
    ensures Backed(net, id, SafetyDecision(VerdictPending))
       <==> exists n: nat :: DecisionMsg(id, StatusPending, n) in net
    ensures Backed(net, id, ExecutionResult(true)) <==> exists kind :: CompletionMsg(id, kind, Success) in net
    ensures Backed(net, id, ExecutionResult(false))
       <==> exists kind, result ::
              CompletionMsg(id, kind, result) in net && result in {FailedVerification, FailedExecution}
  {}

  ghost predicate Enabled(c: P.Config, w: World, m: Move) {
    match m
    case Agents(s) => P.Enabled(c, w.agents, s)
    case Orchestrates(e) => R.CanOccur(w.orch, e) && (e.Deliver? ==> Backed(w.agents.net, e.id, e.msg))
  }

  ghost function Next(c: P.Config, w: World, m: Move): World
    requires Enabled(c, w, m)
  {
    match m
    case Agents(s) => World(P.Next(c, w.agents, s), w.orch)
    case Orchestrates(e) => World(w.agents, R.Step(w.orch, e))
  }

  const START := World(P.START, R.EMPTY)

  ghost predicate Follows(c: P.Config, w: World, w': World) {
    exists m :: Enabled(c, w, m) && w' == Next(c, w, m)
  }

  ghost predicate IsRun(c: P.Config, ws: seq<World>) {
    && ws != [] && ws[0] == START
    && forall i :: 0 <= i < |ws| - 1 ==> Follows(c, ws[i], ws[i + 1])
  }

  // --- What the messages tell about the actions --------------------------------------------------

  /** Some planned action of this correlation id is left to a human. */
  ghost predicate HasHumanOnly(c: P.Config, cid: Cid) {
    c.limits.perHour > 0 && exists a :: P.Planned(c, cid, a) && NeedsHuman(c.graph, a)
  }

  /** Some planned action of this correlation id can run successfully. */
  ghost predicate HasRunnable(c: P.Config, cid: Cid) {
    exists a :: P.Planned(c, cid, a) && Runnable(a)
  }

  /** The remediator can report a success for this correlation id. */
  ghost predicate CanSucceed(c: P.Config, cid: Cid) {
    P.HasApprovable(c, cid) && HasRunnable(c, cid)
  }

  ghost predicate NetInv(c: P.Config, net: set<Msg>) {
    && (forall cid, n: nat :: DecisionMsg(cid, StatusPending, n) in net ==> HasHumanOnly(c, cid))
    && (forall cid, kind :: CompletionMsg(cid, kind, Success) in net ==> CanSucceed(c, cid))
  }

  ghost predicate AgentsInv(c: P.Config, w: P.World) {
    P.PlanInv(c, w) && NetInv(c, w.net) && (w.rem.pending.Verifying? ==> CanSucceed(c, w.rem.pending.cid))
  }

  lemma {:induction false} ReviewKeepsAgents(c: P.Config, w: P.World, s: P.Step)
    requires AgentsInv(c, w) && s.DeliverReview? && P.Enabled(c, w, s)
    ensures AgentsInv(c, P.Next(c, w, s))
  {
    var history := w.gate.history;
    P.ReviewKeepsPlans(c, w, s);
    AsksHumanExactly(c.limits, c.graph, history, s.action, s.checkedAt, s.recordedAt);
    assert P.Planned(c, s.cid, s.action);
    if RateLimiting.Verdict(c.limits, Stamps(history, FingerprintOf(s.action)), s.checkedAt) == Allowed {
      P.AllowedNeedsRoom(c.limits, Stamps(history, FingerprintOf(s.action)), s.checkedAt);
    }
  }

  lemma {:induction false} DecisionKeepsAgents(c: P.Config, w: P.World, s: P.Step)
    requires AgentsInv(c, w) && s.DeliverDecision? && P.Enabled(c, w, s)
    ensures AgentsInv(c, P.Next(c, w, s))
  {
    P.StepKeepsPlans(c, w, s);
    if s.status == StatusApproved && Acts(w.rem, s.cid) {
      P.ApprovalHasGround(c, w, s.cid, s.serial);
      RunnableIff(w.rem.active[s.cid].action);
    }
  }

  lemma {:induction false} StepKeepsAgents(c: P.Config, w: P.World, s: P.Step)
    requires AgentsInv(c, w) && P.Enabled(c, w, s)
    ensures AgentsInv(c, P.Next(c, w, s))
  {
    match s {
      case DeliverReview(_, _, _, _, _) => ReviewKeepsAgents(c, w, s);
      case DeliverDecision(_, _, _, _) => DecisionKeepsAgents(c, w, s);
      case _ => P.StepKeepsPlans(c, w, s);
    }
  }

  // --- What the orchestrator makes of them -------------------------------------------------------

  /** Without a pending decision no incident gets further than proposing. */
  predicate Early(s: State) {
    s == Diagnosing || s == ProposingRemediation
  }

  /** Without a successful execution none gets further than executing. */
  predicate Open(s: State) {
    Early(s) || s == SafetyReview || s == Executing
  }

  ghost predicate Within(o: Orch, id: Id, p: State -> bool) {
    && (id in o.fsms ==> p(o.fsms[id].state))
    && (id in o.db ==> p(o.db[id].status))
  }

  ghost predicate OrchInv(c: P.Config, o: Orch) {
    && (forall id :: !HasHumanOnly(c, id) ==> Within(o, id, Early))
    && (forall id :: !CanSucceed(c, id) ==> Within(o, id, Open))
  }

  lemma {:induction false} MessageKeepsEarly(o: Orch, id: Id, msg: Message, now: Time)
    requires Within(o, id, Early) && msg != SafetyDecision(VerdictPending)
    ensures Within(Handle(o, id, msg, now), id, Early)
  {}

  lemma {:induction false} MessageKeepsOpen(o: Orch, id: Id, msg: Message, now: Time)
    requires Within(o, id, Open) && msg != ExecutionResult(true)
    ensures Within(Handle(o, id, msg, now), id, Open)
  {}

  lemma {:induction false} MessageKeepsOthers(o: Orch, id: Id, msg: Message, now: Time, other: Id, p: State -> bool)
    requires Within(o, other, p) && other != id
    ensures Within(Handle(o, id, msg, now), other, p)
  {
    R.HandleTouchesOne(o, id, msg, now);
  }

  lemma {:induction false} DeliverKeepsOrch(c: P.Config, w: World, id: Id, msg: Message, now: Time)
    requires NetInv(c, w.agents.net) && OrchInv(c, w.orch) && Backed(w.agents.net, id, msg)
    ensures OrchInv(c, Handle(w.orch, id, msg, now))
  {
    forall other | !HasHumanOnly(c, other)
      ensures Within(Handle(w.orch, id, msg, now), other, Early)
    {
      if other == id {
        MessageKeepsEarly(w.orch, id, msg, now);
      } else {
        MessageKeepsOthers(w.orch, id, msg, now, other, Early);
      }
    }
    forall other | !CanSucceed(c, other)
      ensures Within(Handle(w.orch, id, msg, now), other, Open)
    {
      if other == id {
        MessageKeepsOpen(w.orch, id, msg, now);
      } else {
        MessageKeepsOthers(w.orch, id, msg, now, other, Open);
      }
    }
  }

  lemma {:induction false} OtherEventKeepsWithin(o: Orch, e: R.Event, id: Id, p: State -> bool)
    requires R.CanOccur(o, e) && !e.Deliver? && Within(o, id, p)
    ensures Within(R.Step(o, e), id, p)
  {}

  lemma {:induction false} EventKeepsOrch(c: P.Config, w: World, e: R.Event)
    requires NetInv(c, w.agents.net) && OrchInv(c, w.orch) && Enabled(c, w, Orchestrates(e))
    ensures OrchInv(c, R.Step(w.orch, e))
  {
    if e.Deliver? {
      DeliverKeepsOrch(c, w, e.id, e.msg, e.now);
    } else {
      forall id
        ensures !HasHumanOnly(c, id) ==> Within(R.Step(w.orch, e), id, Early)
        ensures !CanSucceed(c, id) ==> Within(R.Step(w.orch, e), id, Open)
      {
        if !HasHumanOnly(c, id) {
          OtherEventKeepsWithin(w.orch, e, id, Early);
        }
        if !CanSucceed(c, id) {
          OtherEventKeepsWithin(w.orch, e, id, Open);
        }
      }
    }
  }

  lemma {:induction false} FollowsKeepsInv(c: P.Config, w: World, w': World)
    requires AgentsInv(c, w.agents) && OrchInv(c, w.orch) && Follows(c, w, w')
    ensures AgentsInv(c, w'.agents) && OrchInv(c, w'.orch)
  {
    var m :| Enabled(c, w, m) && w' == Next(c, w, m);
    match m {
      case Agents(s) => StepKeepsAgents(c, w.agents, s);
      case Orchestrates(e) => EventKeepsOrch(c, w, e);
    }
  }

  lemma {:induction false} FrontIsRun(c: P.Config, ws: seq<World>)
    requires IsRun(c, ws) && |ws| > 1
    ensures IsRun(c, ws[..|ws| - 1]) && Follows(c, ws[|ws| - 2], ws[|ws| - 1])
  {
    var front := ws[..|ws| - 1];
    assert forall i :: 0 <= i < |front| - 1 ==> Follows(c, ws[i], ws[i + 1]);
  }

  lemma {:induction false} InvHolds(c: P.Config, ws: seq<World>)
    requires IsRun(c, ws)
    ensures AgentsInv(c, ws[|ws| - 1].agents) && OrchInv(c, ws[|ws| - 1].orch)
  {
    if |ws| > 1 {
      FrontIsRun(c, ws);
      InvHolds(c, ws[..|ws| - 1]);
      FollowsKeepsInv(c, ws[|ws| - 2], ws[|ws| - 1]);
    }
  }

  // --- A run that resolves -----------------------------------------------------------------------

  ghost function Advance(c: P.Config, ws: seq<P.World>, s: P.Step): seq<P.World>
    requires ws != [] && P.Enabled(c, ws[|ws| - 1], s)
  {
    ws + [P.Next(c, ws[|ws| - 1], s)]
  }

  /** Both decisions are on their way, one left to a human and one approved, and nothing is being handled. */
  ghost predicate Decided(w: P.World, cid: Cid) {
    w.rem.pending == Idle && DecisionMsg(cid, StatusPending, 1) in w.net && DecisionMsg(cid, StatusApproved, 4) in w.net
  }

  /** A proposal for `d` is stored, over whatever was there. */
  lemma {:induction false} Proposed(c: P.Config, us: seq<P.World>, cid: Cid, d: Diagnosis) returns (ws: seq<P.World>)
    requires P.IsRun(c, us) && c.env(cid, d) && c.plan(d).Some?
    ensures P.IsRun(c, ws)
    ensures
      var w, w', a := us[|us| - 1], ws[|ws| - 1], c.plan(d).value.action;
      && w'.rem.pending == w.rem.pending && w'.gate == w.gate && w.net <= w'.net && ReviewMsg(cid, d, a) in w'.net
      && cid in w'.rem.active && w'.rem.active[cid].action == a
      && |w'.trace| == |w.trace| + if cid in w.rem.active then 2 else 1
  {
    G.ExtendRun(c, us, P.Diagnose(cid, d));
    ws := Advance(c, us, P.Diagnose(cid, d));
    G.ExtendRun(c, ws, P.DeliverDiagnosis(cid, d));
    ws := Advance(c, ws, P.DeliverDiagnosis(cid, d));
  }

  lemma {:induction false} BothDecided(c: P.Config, cid: Cid, d1: Diagnosis, d2: Diagnosis) returns (ws: seq<P.World>)
    requires c.env(cid, d1) && c.plan(d1).Some? && AutoApprovable(c.graph, c.plan(d1).value.action)
    requires c.env(cid, d2) && c.plan(d2).Some? && NeedsHuman(c.graph, c.plan(d2).value.action) && c.limits.perHour > 0
    ensures P.IsRun(c, ws) && Decided(ws[|ws| - 1], cid)
  {
    var a, b := c.plan(d1).value.action, c.plan(d2).value.action;
    ws := Proposed(c, [P.START], cid, d2);
    AsksHumanExactly(c.limits, c.graph, [], b, 0, 0);
    G.ExtendRun(c, ws, P.DeliverReview(cid, d2, b, 0, 0));
    ws := Advance(c, ws, P.DeliverReview(cid, d2, b, 0, 0));
    ws := Proposed(c, ws, cid, d1);
    assert |ws[|ws| - 1].trace| == 4;
    ApprovesExactly(c.limits, c.graph, [], a, 0, 0);
    G.ExtendRun(c, ws, P.DeliverReview(cid, d1, a, 0, 0));
    ws := Advance(c, ws, P.DeliverReview(cid, d1, a, 0, 0));
  }

  /** What is stored last is what the approval executes. */
  lemma {:induction false} Completes(c: P.Config, us: seq<P.World>, cid: Cid, d: Diagnosis) returns (ws: seq<P.World>)
    requires P.IsRun(c, us) && Decided(us[|us| - 1], cid)
    requires c.env(cid, d) && c.plan(d).Some? && Runnable(c.plan(d).value.action)
    ensures P.IsRun(c, ws)
    ensures
      var w := ws[|ws| - 1];
      && DecisionMsg(cid, StatusPending, 1) in w.net && DecisionMsg(cid, StatusApproved, 4) in w.net
      && exists kind :: CompletionMsg(cid, kind, Success) in w.net
  {
    ws := Proposed(c, us, cid, d);
    var state := ws[|ws| - 1].rem.active[cid];
    G.ExtendRun(c, ws, P.DeliverDecision(cid, StatusApproved, 4, RestartWorks));
    ws := Advance(c, ws, P.DeliverDecision(cid, StatusApproved, 4, RestartWorks));
    assert ws[|ws| - 1].rem.pending == Pending.Verifying(cid, state);
    G.ExtendRun(c, ws, P.Verify(true));
    ws := Advance(c, ws, P.Verify(true));
    assert CompletionMsg(cid, state.action.Kind(), Success) in ws[|ws| - 1].net;
  }

  /** What the agents can do they can do while the orchestrator stands still. */
  lemma {:induction false} Lift(c: P.Config, us: seq<P.World>) returns (ws: seq<World>)
    requires P.IsRun(c, us)
    ensures IsRun(c, ws) && ws[|ws| - 1] == World(us[|us| - 1], R.EMPTY)
  {
    ws := seq(|us|, i requires 0 <= i < |us| => World(us[i], R.EMPTY));
    forall i | 0 <= i < |ws| - 1
      ensures Follows(c, ws[i], ws[i + 1])
    {
      assert P.Follows(c, us[i], us[i + 1]);
      var s :| P.Enabled(c, us[i], s) && us[i + 1] == P.Next(c, us[i], s);
      assert Enabled(c, ws[i], Agents(s)) && ws[i + 1] == Next(c, ws[i], Agents(s));
    }
  }

  lemma {:induction false} ExtendRun(c: P.Config, ws: seq<World>, m: Move)
    requires IsRun(c, ws) && Enabled(c, ws[|ws| - 1], m)
    ensures IsRun(c, ws + [Next(c, ws[|ws| - 1], m)])
  {
    var next := Next(c, ws[|ws| - 1], m);
    var all := ws + [next];
    assert Follows(c, ws[|ws| - 1], next);
    forall i | 0 <= i < |all| - 1
      ensures Follows(c, all[i], all[i + 1])
    {
      assert i < |ws| - 1 ==> Follows(c, ws[i], ws[i + 1]);
    }
  }

  /** The state of one incident after a message for it, in a run. */
  lemma {:induction false} Delivered(c: P.Config, us: seq<World>, id: Id, msg: Message) returns (ws: seq<World>)
    requires IsRun(c, us) && Backed(us[|us| - 1].agents.net, id, msg)
    ensures IsRun(c, ws) && ws[|ws| - 1] == World(us[|us| - 1].agents, Handle(us[|us| - 1].orch, id, msg, 0))
  {
    ExtendRun(c, us, Orchestrates(R.Deliver(id, msg, 0)));
    ws := us + [Next(c, us[|us| - 1], Orchestrates(R.Deliver(id, msg, 0)))];
  }

  ghost predicate IsResolved(w: World, id: Id) {
    id in w.orch.fsms && w.orch.fsms[id].state == Resolved
  }

  /** Detection, diagnosis, pending, approval and success, one after the other, resolve. */
  function Resolving(id: Id): Orch {
    Handle(Handle(Reviewing(id), id, SafetyDecision(VerdictApproved), 0), id, ExecutionResult(true), 0)
  }

  function Reviewing(id: Id): Orch {
    Handle(Handle(Handle(R.EMPTY, id, Anomaly, 0), id, DiagnosisResult, 0), id, SafetyDecision(VerdictPending), 0)
  }

  lemma {:induction false} ReviewingReviews(id: Id)
    ensures id in Reviewing(id).fsms && Reviewing(id).fsms[id].state == SafetyReview
  {
    var o := Handle(R.EMPTY, id, Anomaly, 0);
    assert id in o.fsms && o.fsms[id].state == Diagnosing;
    var o' := Handle(o, id, DiagnosisResult, 0);
    assert id in o'.fsms && o'.fsms[id].state == ProposingRemediation;
  }

  lemma {:induction false} ResolvingResolves(id: Id)
    ensures id in Resolving(id).fsms && Resolving(id).fsms[id].state == Resolved
  {
    ReviewingReviews(id);
    var o := Handle(Reviewing(id), id, SafetyDecision(VerdictApproved), 0);
    assert id in o.fsms && o.fsms[id].state == Executing;
  }

  lemma {:induction false} OrchestratorHalf(c: P.Config, us: seq<World>, agents: P.World, id: Id)
    returns (ws: seq<World>)
    requires IsRun(c, us) && us[|us| - 1] == World(agents, R.EMPTY)
    requires Backed(agents.net, id, SafetyDecision(VerdictPending))
    requires Backed(agents.net, id, SafetyDecision(VerdictApproved)) && Backed(agents.net, id, ExecutionResult(true))
    ensures IsRun(c, ws) && ws[|ws| - 1] == World(agents, Resolving(id))
  {
    ws := Delivered(c, us, id, Anomaly);
    ws := Delivered(c, ws, id, DiagnosisResult);
    ws := Delivered(c, ws, id, SafetyDecision(VerdictPending));
    assert ws[|ws| - 1] == World(agents, Reviewing(id));
    ws := Delivered(c, ws, id, SafetyDecision(VerdictApproved));
    ws := Delivered(c, ws, id, ExecutionResult(true));
  }

  ghost function DiagnosisFor(c: P.Config, cid: Cid, action: Action): (d: Diagnosis)
    requires P.Planned(c, cid, action)
    ensures c.env(cid, d) && c.plan(d).Some? && c.plan(d).value.action == action
  {
    var d :| c.env(cid, d) && c.plan(d).Some? && c.plan(d).value.action == action;
    d
  }

  lemma {:induction false} AgentsHalf(c: P.Config, id: Id) returns (us: seq<P.World>)
    requires P.HasApprovable(c, id) && HasHumanOnly(c, id) && HasRunnable(c, id)
    ensures P.IsRun(c, us)
    ensures
      var net := us[|us| - 1].net;
      && Backed(net, id, SafetyDecision(VerdictPending)) && Backed(net, id, SafetyDecision(VerdictApproved))
      && Backed(net, id, ExecutionResult(true))
  {
    var a :| P.Planned(c, id, a) && AutoApprovable(c.graph, a);
    var b :| P.Planned(c, id, b) && NeedsHuman(c.graph, b);
    var r :| P.Planned(c, id, r) && Runnable(r);
    var d1, d2, d3 := DiagnosisFor(c, id, a), DiagnosisFor(c, id, b), DiagnosisFor(c, id, r);
    us := BothDecided(c, id, d1, d2);
    us := Completes(c, us, id, d3);
    var kind :| CompletionMsg(id, kind, Success) in us[|us| - 1].net;
  }

  lemma {:induction false} ResolvingRun(c: P.Config, id: Id) returns (ws: seq<World>)
    requires P.HasApprovable(c, id) && HasHumanOnly(c, id) && HasRunnable(c, id)
    ensures IsRun(c, ws) && IsResolved(ws[|ws| - 1], id)
  {
    var us := AgentsHalf(c, id);
    ws := Lift(c, us);
    ws := OrchestratorHalf(c, ws, us[|us| - 1], id);
    ResolvingResolves(id);
  }

  // --- Which incidents can be resolved -----------------------------------------------------------

  /** An incident is resolved in some run of the three agents exactly when its correlation id has a planned action
      that can be approved, one that is left to a human, and one that the executor can run: the first to get an
      approval, the second to let the orchestrator into the review that execution has to follow, the third, which may
      be any of those or another, to be in the map when the approval arrives. */
  lemma {:induction false} ResolvableIff(c: P.Config, id: Id)
    ensures (exists ws: seq<World> :: IsRun(c, ws) && IsResolved(ws[|ws| - 1], id))
       <==> P.HasApprovable(c, id) && HasHumanOnly(c, id) && HasRunnable(c, id)
  {
    if P.HasApprovable(c, id) && HasHumanOnly(c, id) && HasRunnable(c, id) {
      var ws := ResolvingRun(c, id);
    }
    forall ws: seq<World> | IsRun(c, ws) && IsResolved(ws[|ws| - 1], id)
      ensures P.HasApprovable(c, id) && HasHumanOnly(c, id) && HasRunnable(c, id)
    {
      InvHolds(c, ws);
      assert CanSucceed(c, id);
    }
  }

  /** So with one action per correlation id no incident is ever resolved. */
  lemma {:induction false} OneActionNeverResolves(c: P.Config, id: Id, ws: seq<World>)
    requires forall a, b :: P.Planned(c, id, a) && P.Planned(c, id, b) ==> a == b
    requires IsRun(c, ws)
    ensures !IsResolved(ws[|ws| - 1], id)
  {
    ResolvableIff(c, id);
    if P.HasApprovable(c, id) && HasHumanOnly(c, id) {
      var a :| P.Planned(c, id, a) && AutoApprovable(c.graph, a);
      assert NeedsHuman(c.graph, a);
      AsksHumanExactly(c.limits, c.graph, [], a, 0, 0);
    }
  }
}
