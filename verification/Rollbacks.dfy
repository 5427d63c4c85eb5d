/** Everything that reaches the executor: approved actions, and what a failed verification takes them back with,
    which no check has seen. */
module Rollbacks {
  import opened Actions
  import opened Policy
  import opened BlastRadius
  import opened SafetyGate
  import opened Remediator
  import opened RemediationProtocol
  import opened RemediationGuarantees

  /** What is handed to the executor here, if anything. */
  function Handed(h: Happening): Option<Action> {
    if h.Did? && h.deed.Executed? then Some(h.deed.action)
    else if h.Did? && h.deed.RolledBack? then h.deed.undo
    else None
  }

  ghost predicate IsHanded(trace: seq<Happening>, cid: Cid, action: Action) {
    exists k :: 0 <= k < |trace| && Handed(trace[k]) == Some(action) && trace[k].deed.cid == cid
  }

  // --- What can be handed ------------------------------------------------------------------------

  /** A planned action with a type, for a correlation id for which something can be approved. */
  ghost predicate MayRun(c: Config, cid: Cid, action: Action) {
    HasApprovable(c, cid) && Planned(c, cid, action) && action.Kind().Some?
  }

  ghost predicate Licensed(c: Config, d: Deed) {
    && (d.Executed? ==> MayRun(c, d.cid, d.action))
    && (d.RolledBack? ==> MayRun(c, d.cid, d.action) && Runnable(d.action) && d.undo == d.action.Undo())
  }

  ghost predicate AllLicensed(c: Config, trace: seq<Happening>) {
    forall k :: 0 <= k < |trace| && trace[k].Did? ==> Licensed(c, trace[k].deed)
  }

  ghost predicate LicenceInv(c: Config, w: World) {
    && AllLicensed(c, w.trace)
    && (w.rem.pending.Verifying? ==>
          MayRun(c, w.rem.pending.cid, w.rem.pending.entry.action) && Runnable(w.rem.pending.entry.action))
  }

  lemma {:induction false} DeedsAreLicensed(c: Config, trace: seq<Happening>, ds: seq<Deed>)
    requires AllLicensed(c, trace) && forall i :: 0 <= i < |ds| ==> Licensed(c, ds[i])
    ensures AllLicensed(c, trace + Deeds(ds))
  {
    var all := trace + Deeds(ds);
    forall k | 0 <= k < |all| && all[k].Did?
      ensures Licensed(c, all[k].deed)
    {
      assert k >= |trace| ==> all[k] == Did(ds[k - |trace|]);
    }
  }

  lemma {:induction false} DecisionIsLicensed(c: Config, w: World, s: RemediationProtocol.Step)
    requires PlanInv(c, w) && LicenceInv(c, w) && s.DeliverDecision? && Enabled(c, w, s)
    ensures LicenceInv(c, RemediationProtocol.Next(c, w, s))
  {
    if s.status == StatusApproved && Acts(w.rem, s.cid) {
      ApprovalHasGround(c, w, s.cid, s.serial);
      RunnableIff(w.rem.active[s.cid].action);
    }
    DeedsAreLicensed(c, w.trace, OnDecision(w.rem, s.cid, s.status, s.serial, s.docker).deeds);
  }

  lemma {:induction false} StepIsLicensed(c: Config, w: World, s: RemediationProtocol.Step)
    requires PlanInv(c, w) && LicenceInv(c, w) && Enabled(c, w, s)
    ensures LicenceInv(c, RemediationProtocol.Next(c, w, s))
  {
    match s {
      case Diagnose(_, _) =>
      case DeliverDiagnosis(cid, d) => DeedsAreLicensed(c, w.trace, OnDiagnosis(w.rem, c.plan, cid, d).deeds);
      case DeliverReview(_, _, _, _, _) =>
      case DeliverDecision(_, _, _, _) => DecisionIsLicensed(c, w, s);
      case Verify(ok) => DeedsAreLicensed(c, w.trace, OnVerified(w.rem, ok).deeds);
      case Acknowledge => DeedsAreLicensed(c, w.trace, OnReported(w.rem).deeds);
      case Restart =>
    }
  }

  lemma {:induction false} FollowsIsLicensed(c: Config, w: World, w': World)
    requires PlanInv(c, w) && LicenceInv(c, w) && Follows(c, w, w')
    ensures LicenceInv(c, w')
  {
    var s :| Enabled(c, w, s) && w' == RemediationProtocol.Next(c, w, s);
    StepIsLicensed(c, w, s);
  }

  lemma {:induction false} LicensedRun(c: Config, ws: seq<World>)
    requires IsRun(c, ws)
    ensures LicenceInv(c, ws[|ws| - 1])
  {
    if |ws| > 1 {
      FrontIsRun(c, ws);
      LicensedRun(c, ws[..|ws| - 1]);
      PlansRun(c, ws[..|ws| - 1]);
      FollowsIsLicensed(c, ws[|ws| - 2], ws[|ws| - 1]);
    }
  }

  // --- What is handed in some run ----------------------------------------------------------------

  /** The stored action is executed, its verification fails, and what it is taken back with is executed. */
  lemma {:induction false} RollbackRun(c: Config, cid: Cid, d: Diagnosis, e: Diagnosis) returns (ws: seq<World>)
    requires CanAct(c, cid, d, e) && Runnable(c.plan(e).value.action)
    ensures IsRun(c, ws)
    ensures
      var trace, b := ws[|ws| - 1].trace, c.plan(e).value.action;
      && |trace| == 7 && trace[1].Evaluated? && trace[1].action == c.plan(d).value.action
      && (forall j :: 0 <= j < |trace| && trace[j].Evaluated? ==> j == 1)
      && trace[4] == Did(Executed(1, cid, b, true, 1)) && trace[5] == Did(RolledBack(1, cid, b, b.Undo()))
  {
    var b := c.plan(e).value.action;
    ws := ExecutingRun(c, cid, d, e, RestartWorks);
    var w0, w := ws[|ws| - 2].trace, ws[|ws| - 1];
    assert forall j :: 0 <= j < 4 ==> w.trace[j] == w0[j];
    ExtendRun(c, ws, Verify(false));
    ws := ws + [RemediationProtocol.Next(c, w, Verify(false))];
    assert ws[|ws| - 1].trace
        == w.trace + [Did(RolledBack(1, cid, b, b.Undo())), Did(Completed(1, cid, b, FailedVerification))];
  }

  lemma {:induction false} ActingDiagnoses(c: Config, cid: Cid, b: Action) returns (d: Diagnosis, e: Diagnosis)
    requires MayRun(c, cid, b)
    ensures CanAct(c, cid, d, e) && c.plan(e).value.action == b
  {
    var a :| Planned(c, cid, a) && AutoApprovable(c.graph, a);
    d :| c.env(cid, d) && c.plan(d).Some? && c.plan(d).value.action == a;
    e :| c.env(cid, e) && c.plan(e).Some? && c.plan(e).value.action == b;
  }

  /** The action is what some action that can run successfully is taken back with. */
  ghost predicate UndoesRunnable(c: Config, cid: Cid, action: Action) {
    exists b :: MayRun(c, cid, b) && Runnable(b) && b.Undo() == Some(action)
  }

  lemma {:induction false} HandedInSomeRun(c: Config, cid: Cid, action: Action) returns (ws: seq<World>)
    requires MayRun(c, cid, action) || UndoesRunnable(c, cid, action)
    ensures IsRun(c, ws) && IsHanded(ws[|ws| - 1].trace, cid, action)
  {
    if MayRun(c, cid, action) {
      var d, e := ActingDiagnoses(c, cid, action);
      ws := ExecutingRun(c, cid, d, e, NoSuchContainer);
      assert Handed(ws[|ws| - 1].trace[4]) == Some(action);
    } else {
      var b :| MayRun(c, cid, b) && Runnable(b) && b.Undo() == Some(action);
      var d, e := ActingDiagnoses(c, cid, b);
      ws := RollbackRun(c, cid, d, e);
      assert Handed(ws[|ws| - 1].trace[5]) == Some(action);
    }
  }

  /** An action that can be approved and run has a run that hands over what it is taken back with. */
  lemma {:induction false} RollbackIsHanded(c: Config, cid: Cid, b: Action) returns (ws: seq<World>)
    requires c.limits.perHour > 0 && Planned(c, cid, b) && AutoApprovable(c.graph, b)
    requires Runnable(b) && b.Undo().Some?
    ensures IsRun(c, ws) && IsHanded(ws[|ws| - 1].trace, cid, b.Undo().value)
  {
    RunnableIff(b);
    assert MayRun(c, cid, b) && UndoesRunnable(c, cid, b.Undo().value);
    ws := HandedInSomeRun(c, cid, b.Undo().value);
  }

  lemma {:induction false} HandedOnlyThen(c: Config, ws: seq<World>, cid: Cid, action: Action)
    requires IsRun(c, ws) && IsHanded(ws[|ws| - 1].trace, cid, action)
    ensures MayRun(c, cid, action) || UndoesRunnable(c, cid, action)
  {
    LicensedRun(c, ws);
    var trace := ws[|ws| - 1].trace;
    var k :| 0 <= k < |trace| && Handed(trace[k]) == Some(action) && trace[k].deed.cid == cid;
    assert Licensed(c, trace[k].deed);
  }

  /** Exactly these actions reach the executor for a correlation id in some run: once anything can be approved for
      it, all planned ones that have a type, and all that the runnable ones among them are taken back with. */
  lemma {:induction false} HandedIff(c: Config, cid: Cid, action: Action)
    ensures (exists ws: seq<World> :: IsRun(c, ws) && IsHanded(ws[|ws| - 1].trace, cid, action))
       <==> MayRun(c, cid, action) || UndoesRunnable(c, cid, action)
  {
    if MayRun(c, cid, action) || UndoesRunnable(c, cid, action) {
      var ws := HandedInSomeRun(c, cid, action);
    }
    forall ws: seq<World> | IsRun(c, ws) && IsHanded(ws[|ws| - 1].trace, cid, action)
      ensures MayRun(c, cid, action) || UndoesRunnable(c, cid, action)
    {
      HandedOnlyThen(c, ws, cid, action);
    }
  }

  // --- When everything handed is permitted -------------------------------------------------------

  ghost predicate AllPermitted(c: Config, trace: seq<Happening>) {
    forall cid, action :: IsHanded(trace, cid, action) ==> AutoApprovable(c.graph, action)
  }

  /** Whatever can run, and whatever it is taken back with if it can run successfully, meets the rules of the
      safety agent. */
  ghost predicate PermittedPlans(c: Config) {
    forall cid, b :: MayRun(c, cid, b) ==>
      && AutoApprovable(c.graph, b)
      && (Runnable(b) && b.Undo().Some? ==> AutoApprovable(c.graph, b.Undo().value))
  }

  /** In every run everything handed to the executor meets policy and risk rules exactly when all plans do, the
      definitions of their rollbacks included. */
  lemma {:induction false} PermittedIff(c: Config)
    ensures (forall ws: seq<World> :: IsRun(c, ws) ==> AllPermitted(c, ws[|ws| - 1].trace)) <==> PermittedPlans(c)
  {
    if PermittedPlans(c) {
      forall ws: seq<World> | IsRun(c, ws)
        ensures AllPermitted(c, ws[|ws| - 1].trace)
      {
        var trace := ws[|ws| - 1].trace;
        forall cid, action | IsHanded(trace, cid, action)
          ensures AutoApprovable(c.graph, action)
        {
          HandedOnlyThen(c, ws, cid, action);
        }
      }
    } else {
      var cid, b :| MayRun(c, cid, b) && !(
          AutoApprovable(c.graph, b) &&
          (Runnable(b) && b.Undo().Some? ==> AutoApprovable(c.graph, b.Undo().value)));
      var bad := if AutoApprovable(c.graph, b) then b.Undo().value else b;
      var ws := HandedInSomeRun(c, cid, bad);
      assert !AllPermitted(c, ws[|ws| - 1].trace);
    }
  }

  // --- When everything handed was approved -------------------------------------------------------

  /** Everything handed to the executor was approved earlier for its correlation id. */
  ghost predicate AllApproved(c: Config, trace: seq<Happening>) {
    forall k :: 0 <= k < |trace| && Handed(trace[k]).Some? ==>
      ApprovedBefore(c, trace, k, trace[k].deed.cid, Handed(trace[k]).value)
  }

  /** Nothing that can run successfully defines a rollback. */
  ghost predicate Irreversible(c: Config) {
    forall cid, b :: MayRun(c, cid, b) && Runnable(b) ==> b.Undo() == None
  }

  function Depth(action: Action): nat {
    if action.EmptyAction? || action.rollback == None then 0 else 1 + Depth(action.rollback.value)
  }

  /** An action is not what takes itself back. */
  lemma {:induction false} UndoIsOther(action: Action)
    ensures action.Undo() != Some(action)
  {
    if action.Undo().Some? {
      assert Depth(action) == 1 + Depth(action.Undo().value);
    }
  }

  /** In every run everything handed to the executor was approved before exactly when actions are unambiguous and
      none of them defines a rollback: what a rollback executes is never approved. */
  lemma {:induction false} ApprovedIff(c: Config)
    ensures (forall ws: seq<World> :: IsRun(c, ws) ==> AllApproved(c, ws[|ws| - 1].trace))
       <==> Unambiguous(c) && Irreversible(c)
  {
    if Unambiguous(c) && Irreversible(c) {
      forall ws: seq<World> | IsRun(c, ws)
        ensures AllApproved(c, ws[|ws| - 1].trace)
      {
        IrreversibleIsApproved(c, ws);
      }
    } else if Unambiguous(c) {
      var cid, b :| MayRun(c, cid, b) && Runnable(b) && b.Undo().Some?;
      var ws := UnapprovedRollback(c, cid, b);
    } else {
      SoundIffUnambiguous(c);
      var ws: seq<World> :| IsRun(c, ws) && !Sound(c, ws[|ws| - 1].trace);
      if AllApproved(c, ws[|ws| - 1].trace) {
        ApprovedIsSound(c, ws[|ws| - 1].trace);
      }
    }
  }

  lemma {:induction false} ApprovedIsSound(c: Config, trace: seq<Happening>)
    requires AllApproved(c, trace)
    ensures Sound(c, trace)
  {
    forall k | 0 <= k < |trace| && IsExecution(trace[k])
      ensures ApprovedBefore(c, trace, k, trace[k].deed.cid, trace[k].deed.action)
    {
      assert Handed(trace[k]) == Some(trace[k].deed.action);
    }
  }

  lemma {:induction false} IrreversibleIsApproved(c: Config, ws: seq<World>)
    requires Unambiguous(c) && Irreversible(c) && IsRun(c, ws)
    ensures AllApproved(c, ws[|ws| - 1].trace)
  {
    SoundRun(c, ws);
    LicensedRun(c, ws);
    var trace := ws[|ws| - 1].trace;
    forall k | 0 <= k < |trace| && Handed(trace[k]).Some?
      ensures ApprovedBefore(c, trace, k, trace[k].deed.cid, Handed(trace[k]).value)
    {
      assert Licensed(c, trace[k].deed);
      assert IsExecution(trace[k]);
    }
  }

  lemma {:induction false} UnapprovedRollback(c: Config, cid: Cid, b: Action) returns (ws: seq<World>)
    requires Unambiguous(c) && MayRun(c, cid, b) && Runnable(b) && b.Undo().Some?
    ensures IsRun(c, ws) && !AllApproved(c, ws[|ws| - 1].trace)
  {
    var d, e := ActingDiagnoses(c, cid, b);
    assert Planned(c, cid, c.plan(d).value.action);
    ws := RollbackRun(c, cid, d, e);
    var trace := ws[|ws| - 1].trace;
    UndoIsOther(b);
    assert Handed(trace[5]) == b.Undo();
    assert !ApprovedBefore(c, trace, 5, cid, b.Undo().value);
  }

  // --- Concrete inputs ---------------------------------------------------------------------------

  /** A restart of the user service that is taken back by a restart of the agents' database. */
  const RESTART_AGENT_DB: Action :=
    Action(Some(ContainerRestart), Some(Low), false, Some(PostgresAgents), None, Absent, Absent, None)
  const RESTART_USER_SVC: Action :=
    Action(Some(ContainerRestart), Some(Low), false, Some(UserSvc), None, Absent, Absent, Some(RESTART_AGENT_DB))

  /** Two replicas of at most five. */
  const SCALE_TO_TWO: Action :=
    Action(Some(ContainerScale), Some(Low), false, Some(UserSvc), None, Parsed(2), Parsed(5), None)

  /** The policy bans the restart of the agents' database, and passes what is taken back with it. */
  lemma {:induction false} RestartIsApprovedRollbackBanned()
    ensures AutoApprovable(STATIC_GRAPH, RESTART_USER_SVC)
    ensures Policy.Evaluate(RESTART_AGENT_DB) == Refused(BannedTarget)
  {
    StaticGraphNeverBlocks(RESTART_USER_SVC);
  }

  lemma {:induction false} RestartIsTakenBack()
    ensures Runnable(RESTART_USER_SVC) && RESTART_USER_SVC.Undo() == Some(RESTART_AGENT_DB)
  {}

  /** Wherever such a restart is planned, the banned one runs. */
  lemma {:induction false} BannedRestartIsRun(c: Config, cid: Cid) returns (ws: seq<World>)
    requires c.graph == STATIC_GRAPH && c.limits.perHour > 0 && Planned(c, cid, RESTART_USER_SVC)
    ensures IsRun(c, ws) && IsHanded(ws[|ws| - 1].trace, cid, RESTART_AGENT_DB)
  {
    RestartIsApprovedRollbackBanned();
    RestartIsTakenBack();
    ws := RollbackIsHanded(c, cid, RESTART_USER_SVC);
  }

  /** A restart of a container that does not exist, or that the runtime refuses, is reported as failed. */
  lemma {:induction false} MissingContainerFails(cid: Cid, entry: InFlight, serial: nat)
    requires entry.action == RESTART_USER_SVC
    ensures forall docker :: docker in {NoSuchContainer, ApiError} ==>
      OnDecision(Rem(map[cid := entry], Idle, 1), cid, StatusApproved, serial, docker).sent
      == [CompletionMsg(cid, Some(ContainerRestart), FailedExecution)]
  {
    forall docker | docker in {NoSuchContainer, ApiError}
      ensures
        OnDecision(Rem(map[cid := entry], Idle, 1), cid, StatusApproved, serial, docker).sent
        == [CompletionMsg(cid, Some(ContainerRestart), FailedExecution)]
    {
      ApprovedIsExecuted(Rem(map[cid := entry], Idle, 1), cid, serial, docker);
    }
  }

  /** The policy knows a type of action that the executor does not. */
  lemma {:induction false} ScalingIsApprovedAndFails(docker: Docker)
    ensures AutoApprovable(STATIC_GRAPH, SCALE_TO_TWO) && !Execute(SCALE_TO_TWO, docker)
  {
    StaticGraphNeverBlocks(SCALE_TO_TWO);
    assert ReadInt(SCALE_TO_TWO.replicas, 0) == Some(2) && ReadInt(SCALE_TO_TWO.maxReplicas, 5) == Some(5);
  }
}
