/** What the remediation protocol guarantees, and exactly when. */
module RemediationGuarantees {
  import opened Windows
  import opened Actions
  import opened Policy
  import opened BlastRadius
  import opened RateLimiting
  import opened SafetyGate
  import opened Remediator
  import opened RemediationProtocol

  // --- Executions are approved, exactly when actions are unambiguous -----------------------------

  lemma {:induction false} ExtendRun(c: Config, ws: seq<World>, s: RemediationProtocol.Step)
    requires IsRun(c, ws) && Enabled(c, ws[|ws| - 1], s)
    ensures IsRun(c, ws + [RemediationProtocol.Next(c, ws[|ws| - 1], s)])
  {
    var next := RemediationProtocol.Next(c, ws[|ws| - 1], s);
    var all := ws + [next];
    assert Follows(c, ws[|ws| - 1], next);
    forall i | 0 <= i < |all| - 1
      ensures Follows(c, all[i], all[i + 1])
    {
      assert i < |ws| - 1 ==> Follows(c, ws[i], ws[i + 1]);
    }
  }

  /** A run up to the point where action `a` has been proposed for `cid` and approved. */
  lemma {:induction false} ApprovedRun(c: Config, cid: Cid, d: Diagnosis) returns (ws: seq<World>)
    requires c.env(cid, d) && c.plan(d).Some? && AutoApprovable(c.graph, c.plan(d).value.action) && c.limits.perHour > 0
    ensures IsRun(c, ws)
    ensures
      var w, a := ws[|ws| - 1], c.plan(d).value.action;
      && w.rem == Rem(map[cid := InFlight(0, d, c.plan(d).value.runbook, a)], Idle, 1)
      && |w.trace| == 2 && w.trace[0] == Did(Stored(0, cid, a))
      && w.trace[1].Evaluated? && w.trace[1].cid == cid && w.trace[1].action == a && w.trace[1].decision.Approved?
      && DiagnosisMsg(cid, d) in w.net && DecisionMsg(cid, StatusApproved, 1) in w.net
      && w.delivered == []
  {
    var a := c.plan(d).value.action;
    ws := [START];
    var s1 := Diagnose(cid, d);
    ExtendRun(c, ws, s1);
    var w1 := RemediationProtocol.Next(c, START, s1);
    ws := ws + [w1];
    var s2 := DeliverDiagnosis(cid, d);
    ExtendRun(c, ws, s2);
    var w2 := RemediationProtocol.Next(c, w1, s2);
    ws := ws + [w2];
    assert w2.trace == [Did(Stored(0, cid, a))];
    assert ReviewMsg(cid, d, a) in w2.net;
    var s3 := DeliverReview(cid, d, a, 0, 0);
    ApprovesExactly(c.limits, c.graph, [], a, 0, 0);
    ExtendRun(c, ws, s3);
    ws := ws + [RemediationProtocol.Next(c, w2, s3)];
  }

  /** One diagnosis of `cid` leads to an action that can be approved, and one, maybe the same, to an action with a
      type. */
  ghost predicate CanAct(c: Config, cid: Cid, d: Diagnosis, e: Diagnosis) {
    && c.env(cid, d) && c.plan(d).Some? && AutoApprovable(c.graph, c.plan(d).value.action) && c.limits.perHour > 0
    && c.env(cid, e) && c.plan(e).Some? && c.plan(e).value.action.Kind().Some?
  }

  /** The map holds the action of `e`, and a decision that approved the action of `d` is on its way. */
  ghost predicate Prepared(c: Config, w: World, cid: Cid, d: Diagnosis, e: Diagnosis)
    requires c.plan(d).Some? && c.plan(e).Some?
  {
    var a, b := c.plan(d).value.action, c.plan(e).value.action;
    && w.rem == Rem(map[cid := InFlight(1, e, c.plan(e).value.runbook, b)], Idle, 2)
    && |w.trace| == 4 && w.trace[0] == Did(Stored(0, cid, a))
    && w.trace[1].Evaluated? && w.trace[1].cid == cid && w.trace[1].action == a && w.trace[1].decision.Approved?
    && w.trace[2] == Did(Overwritten(0, cid, a)) && w.trace[3] == Did(Stored(1, cid, b))
    && DiagnosisMsg(cid, e) in w.net && DecisionMsg(cid, StatusApproved, 1) in w.net
    && w.delivered == []
  }

  lemma {:induction false} PreparedRun(c: Config, cid: Cid, d: Diagnosis, e: Diagnosis) returns (ws: seq<World>)
    requires CanAct(c, cid, d, e)
    ensures IsRun(c, ws) && Prepared(c, ws[|ws| - 1], cid, d, e)
  {
    var a, b := c.plan(d).value.action, c.plan(e).value.action;
    ws := ApprovedRun(c, cid, d);
    var w := ws[|ws| - 1];
    ExtendRun(c, ws, Diagnose(cid, e));
    var w1 := RemediationProtocol.Next(c, w, Diagnose(cid, e));
    ws := ws + [w1];
    ExtendRun(c, ws, DeliverDiagnosis(cid, e));
    var w2 := RemediationProtocol.Next(c, w1, DeliverDiagnosis(cid, e));
    ws := ws + [w2];
    assert w2.trace == w.trace + [Did(Overwritten(0, cid, a)), Did(Stored(1, cid, b))];
    assert w2.rem.active == map[cid := InFlight(1, e, c.plan(e).value.runbook, b)];
  }

  /** The stored action is executed by the approval, whichever action that approved. */
  lemma {:induction false} ExecutingRun(c: Config, cid: Cid, d: Diagnosis, e: Diagnosis, docker: Docker)
    returns (ws: seq<World>)
    requires CanAct(c, cid, d, e)
    ensures IsRun(c, ws) && |ws| > 1 && Prepared(c, ws[|ws| - 2], cid, d, e)
    ensures
      var w, w', b := ws[|ws| - 2], ws[|ws| - 1], c.plan(e).value.action;
      && w' == RemediationProtocol.Next(c, w, DeliverDecision(cid, StatusApproved, 1, docker))
      && |w'.trace| >= 5 && w'.trace[..4] == w.trace
      && w'.trace[4] == Did(Executed(1, cid, b, Execute(b, docker), 1))
      && (Execute(b, docker) ==> |w'.trace| == 5 && w'.rem.pending == Verifying(cid, w.rem.active[cid]))
      && (!Execute(b, docker) ==> w'.rem.pending == Reporting(cid, w.rem.active[cid]))
  {
    ws := PreparedRun(c, cid, d, e);
    var w := ws[|ws| - 1];
    ExtendRun(c, ws, DeliverDecision(cid, StatusApproved, 1, docker));
    ws := ws + [RemediationProtocol.Next(c, w, DeliverDecision(cid, StatusApproved, 1, docker))];
  }

  /** Two planned actions for one correlation id, one of them approvable: the approval of the one can
      end up executing the other. */
  lemma {:induction false} AmbiguityIsUnsound(c: Config, cid: Cid, d: Diagnosis, e: Diagnosis)
    returns (ws: seq<World>)
    requires CanAct(c, cid, d, e) && c.plan(d).value.action != c.plan(e).value.action
    ensures IsRun(c, ws) && !Sound(c, ws[|ws| - 1].trace)
  {
    ws := ExecutingRun(c, cid, d, e, NoSuchContainer);
    var w, b := ws[|ws| - 1], c.plan(e).value.action;
    assert IsExecution(w.trace[4]);
    forall j | 0 <= j < 4
      ensures !ApprovedIt(c, w.trace[j], cid, b)
    {
      assert w.trace[j] == w.trace[..4][j];
    }
    assert !ApprovedBefore(c, w.trace, 4, cid, b);
  }

  /** Every approved decision, in every run, executes an action approved earlier for its correlation id exactly when
      no correlation id has two planned actions of which one can be approved and the other has a type. */
  lemma {:induction false} SoundIffUnambiguous(c: Config)
    ensures (forall ws: seq<World> :: IsRun(c, ws) ==> Sound(c, ws[|ws| - 1].trace)) <==> Unambiguous(c)
  {
    if Unambiguous(c) {
      forall ws: seq<World> | IsRun(c, ws)
        ensures Sound(c, ws[|ws| - 1].trace)
      {
        SoundRun(c, ws);
      }
    } else {
      var cid, a, b :| Planned(c, cid, a) && AutoApprovable(c.graph, a) && Planned(c, cid, b) && b.Kind().Some? &&
        a != b;
      var d :| c.env(cid, d) && c.plan(d).Some? && c.plan(d).value.action == a;
      var e :| c.env(cid, e) && c.plan(e).Some? && c.plan(e).value.action == b;
      var ws := AmbiguityIsUnsound(c, cid, d, e);
    }
  }

  /** An evaluation of this action for this correlation id that found room in the rate log, no rule that objects, and
      neither a declared nor a computed risk of medium or high. */
  ghost predicate IsClearance(c: Config, h: Happening, cid: Cid, action: Action) {
    && h.Evaluated? && h.cid == cid && h.action == action && h.decision.Approved?
    && Verdict(c.limits, Stamps(h.history, FingerprintOf(action)), h.checkedAt) == Allowed
    && Permitted(action)
    && action.declared != Some(Medium) && action.declared != Some(High)
    && Blast(c.graph, action).level != Medium && Blast(c.graph, action).level != High
  }

  /** Identical diagnoses per correlation id are enough. */
  lemma {:induction false} IdenticalDiagnosesAreSound(c: Config, ws: seq<World>)
    requires forall cid, d1, d2 :: c.env(cid, d1) && c.env(cid, d2) ==> d1 == d2
    requires IsRun(c, ws)
    ensures Sound(c, ws[|ws| - 1].trace)
    ensures
      var trace := ws[|ws| - 1].trace;
      forall k :: 0 <= k < |trace| && IsExecution(trace[k]) ==>
        exists j :: 0 <= j < k && IsClearance(c, trace[j], trace[k].deed.cid, trace[k].deed.action)
  {
    forall cid, a, b | Planned(c, cid, a) && Planned(c, cid, b)
      ensures a == b
    {
      var d1 :| c.env(cid, d1) && c.plan(d1).Some? && c.plan(d1).value.action == a;
      var d2 :| c.env(cid, d2) && c.plan(d2).Some? && c.plan(d2).value.action == b;
    }
    SoundRun(c, ws);
    var trace := ws[|ws| - 1].trace;
    forall k | 0 <= k < |trace| && IsExecution(trace[k])
      ensures exists j :: 0 <= j < k && IsClearance(c, trace[j], trace[k].deed.cid, trace[k].deed.action)
    {
      assert ApprovedBefore(c, trace, k, trace[k].deed.cid, trace[k].deed.action);
      var j :| 0 <= j < k && ApprovedIt(c, trace[j], trace[k].deed.cid, trace[k].deed.action);
      assert IsClearance(c, trace[j], trace[k].deed.cid, trace[k].deed.action);
    }
  }

  // --- Executions and approvals -----------------------------------------------------------------

  predicate IsApproval(h: Happening) { h.Evaluated? && h.decision.Approved? }

  /** The decisions that led to executions. */
  function Triggers(trace: seq<Happening>): seq<nat> {
    if trace == [] then []
    else
      var front, h := Triggers(trace[..|trace| - 1]), trace[|trace| - 1];
      if IsExecution(h) then front + [h.deed.serial] else front
  }

  /** The positions of the approvals. */
  function Approvals(trace: seq<Happening>): set<nat> {
    set n | 0 <= n < |trace| && IsApproval(trace[n])
  }

  ghost predicate Traced(w: World) {
    && multiset(Triggers(w.trace)) <= multiset(w.delivered)
    && (forall n :: n in Triggers(w.trace) ==> n in Approvals(w.trace))
    && (forall cid, n: nat :: DecisionMsg(cid, StatusApproved, n) in w.net ==> n in Approvals(w.trace))
  }

  lemma {:induction false} TriggersSnoc(trace: seq<Happening>, h: Happening)
    ensures Triggers(trace + [h]) == if IsExecution(h) then Triggers(trace) + [h.deed.serial] else Triggers(trace)
    ensures Approvals(trace + [h]) == if IsApproval(h) then Approvals(trace) + {|trace|} else Approvals(trace)
  {
    assert (trace + [h])[..|trace|] == trace;
    assert forall n :: 0 <= n < |trace| ==> (trace + [h])[n] == trace[n];
  }

  lemma {:induction false} QuietDeeds(trace: seq<Happening>, ds: seq<Deed>)
    requires forall i :: 0 <= i < |ds| ==> !ds[i].Executed?
    ensures Triggers(trace + Deeds(ds)) == Triggers(trace)
    ensures Approvals(trace + Deeds(ds)) == Approvals(trace)
  {
    if ds == [] {
      assert trace + Deeds(ds) == trace;
    } else {
      var front, last := ds[..|ds| - 1], ds[|ds| - 1];
      QuietDeeds(trace, front);
      assert trace + Deeds(ds) == trace + Deeds(front) + [Did(last)];
      TriggersSnoc(trace + Deeds(front), Did(last));
    }
  }

  lemma {:induction false} ExecutionKeepsTraced(w: World, cid: Cid, serial: nat, docker: Docker)
    requires Traced(w) && DecisionMsg(cid, StatusApproved, serial) in w.net && Acts(w.rem, cid)
    ensures
      var w' := Apply(w, OnDecision(w.rem, cid, StatusApproved, serial, docker));
      Traced(w'.(delivered := w.delivered + [serial]))
  {
    var e := OnDecision(w.rem, cid, StatusApproved, serial, docker);
    var run := Did(e.deeds[0]);
    TriggersSnoc(w.trace, run);
    QuietDeeds(w.trace + [run], e.deeds[1..]);
    assert w.trace + Deeds(e.deeds) == w.trace + [run] + Deeds(e.deeds[1..]);
    OneMore(Triggers(w.trace), w.delivered, serial);
  }

  lemma {:induction false} OneMore(s: seq<nat>, t: seq<nat>, n: nat)
    requires multiset(s) <= multiset(t)
    ensures multiset(s + [n]) <= multiset(t + [n]) && multiset(s) <= multiset(t + [n])
  {}

  /** A step that executes nothing and publishes no approval. */
  lemma {:induction false} QuietStepKeepsTraced(w: World, e: Effect, delivered: seq<nat>)
    requires Traced(w) && w.delivered <= delivered
    requires forall i :: 0 <= i < |e.deeds| ==> !e.deeds[i].Executed?
    requires forall i :: 0 <= i < |e.sent| ==> !e.sent[i].DecisionMsg?
    ensures Traced(Apply(w, e).(delivered := delivered))
  {
    QuietDeeds(w.trace, e.deeds);
    assert delivered == w.delivered + delivered[|w.delivered|..];
  }

  lemma {:induction false} DecisionKeepsTraced(w: World, cid: Cid, status: Status, serial: nat, docker: Docker)
    requires Traced(w) && DecisionMsg(cid, status, serial) in w.net
    ensures Traced(Apply(w, OnDecision(w.rem, cid, status, serial, docker)).(delivered := w.delivered + [serial]))
  {
    if Acts(w.rem, cid) && status == StatusApproved {
      ExecutionKeepsTraced(w, cid, serial, docker);
    } else {
      QuietStepKeepsTraced(w, OnDecision(w.rem, cid, status, serial, docker), w.delivered + [serial]);
    }
  }

  /** Anything but an execution happens, and no approval is published but of what happens. */
  lemma {:induction false} SnocKeepsTraced(w: World, w': World, h: Happening)
    requires Traced(w) && !IsExecution(h) && w'.trace == w.trace + [h] && w'.delivered == w.delivered
    requires forall k, n: nat :: DecisionMsg(k, StatusApproved, n) in w'.net ==>
      DecisionMsg(k, StatusApproved, n) in w.net || (n == |w.trace| && IsApproval(h))
    ensures Traced(w')
  {
    TriggersSnoc(w.trace, h);
  }

  lemma {:induction false} ReviewKeepsTraced(c: Config, w: World, s: RemediationProtocol.Step)
    requires Traced(w) && s.DeliverReview? && Enabled(c, w, s)
    ensures Traced(RemediationProtocol.Next(c, w, s))
  {
    var w' := RemediationProtocol.Next(c, w, s);
    SnocKeepsTraced(w, w', w'.trace[|w.trace|]);
  }

  lemma {:induction false} StepKeepsTraced(c: Config, w: World, s: RemediationProtocol.Step)
    requires Traced(w) && Enabled(c, w, s)
    ensures Traced(RemediationProtocol.Next(c, w, s))
  {
    match s {
      case Diagnose(_, _) =>
      case DeliverDiagnosis(cid, d) => QuietStepKeepsTraced(w, OnDiagnosis(w.rem, c.plan, cid, d), w.delivered);
      case DeliverReview(_, _, _, _, _) => ReviewKeepsTraced(c, w, s);
      case DeliverDecision(cid, status, serial, ok) => DecisionKeepsTraced(w, cid, status, serial, ok);
      case Verify(ok) => QuietStepKeepsTraced(w, OnVerified(w.rem, ok), w.delivered);
      case Acknowledge => QuietStepKeepsTraced(w, OnReported(w.rem), w.delivered);
      case Restart => SnocKeepsTraced(w, RemediationProtocol.Next(c, w, s), Restarted(w.rem));
    }
  }

  lemma {:induction false} FollowsKeepsTraced(c: Config, w: World, w': World)
    requires Traced(w) && Follows(c, w, w')
    ensures Traced(w')
  {
    var s :| Enabled(c, w, s) && w' == RemediationProtocol.Next(c, w, s);
    StepKeepsTraced(c, w, s);
  }

  lemma {:induction false} StartIsTraced()
    ensures Traced(START)
  {}

  lemma {:induction false} TracedRun(c: Config, ws: seq<World>)
    requires IsRun(c, ws)
    ensures Traced(ws[|ws| - 1])
  {
    if |ws| > 1 {
      FrontIsRun(c, ws);
      TracedRun(c, ws[..|ws| - 1]);
      FollowsKeepsTraced(c, ws[|ws| - 2], ws[|ws| - 1]);
    } else {
      StartIsTraced();
    }
  }

  ghost predicate Distinct(s: seq<nat>) {
    forall i, j :: 0 <= i < j < |s| ==> s[i] != s[j]
  }

  lemma {:induction false} DistinctOnce(s: seq<nat>, n: nat)
    requires Distinct(s)
    ensures multiset(s)[n] <= 1
  {
    if s != [] {
      var front, last := s[..|s| - 1], s[|s| - 1];
      DistinctOnce(front, n);
      assert s == front + [last];
      assert n == last ==> n !in front;
    }
  }

  /** A sequence without repetitions is no longer than a set that holds its elements. */
  lemma {:induction false} FitsInSet(s: seq<nat>, t: set<nat>)
    requires forall n :: n in s ==> n in t
    requires forall n :: multiset(s)[n] <= 1
    ensures |s| <= |t|
  {
    if s != [] {
      var front, last := s[..|s| - 1], s[|s| - 1];
      assert s == front + [last];
      assert multiset(s) == multiset(front) + multiset{last};
      assert multiset(s)[last] == multiset(front)[last] + 1;
      assert forall n :: multiset(front)[n] <= multiset(s)[n];
      assert last !in front;
      FitsInSet(front, t - {last});
    }
  }

  /** When no decision is delivered twice, there are at most as many executions as approvals, and each is
      triggered by an approval of its own. */
  lemma {:induction false} ExecutionsWithinApprovals(c: Config, ws: seq<World>)
    requires IsRun(c, ws) && Distinct(ws[|ws| - 1].delivered)
    ensures
      var trace := ws[|ws| - 1].trace;
      && |Triggers(trace)| <= |Approvals(trace)|
      && (forall n :: n in Triggers(trace) ==> n in Approvals(trace) && multiset(Triggers(trace))[n] == 1)
  {
    TracedRun(c, ws);
    var w := ws[|ws| - 1];
    forall n
      ensures multiset(Triggers(w.trace))[n] <= 1
    {
      if 0 <= n {
        DistinctOnce(w.delivered, n);
      }
    }
    FitsInSet(Triggers(w.trace), Approvals(w.trace));
  }

  /** An approved decision that finds an entry whose action has a type. */
  predicate IsLive(w: World, s: RemediationProtocol.Step, n: nat) {
    s.DeliverDecision? && s.serial == n && s.status == StatusApproved && Acts(w.rem, s.cid)
  }

  /** How often the decision `n` was delivered approved while its correlation id had such an entry. */
  function LiveDeliveries(ws: seq<World>, ss: seq<RemediationProtocol.Step>, n: nat): nat
    requires |ws| == |ss| + 1
    decreases |ss|
  {
    if ss == [] then 0
    else
      LiveDeliveries(ws[..|ws| - 1], ss[..|ss| - 1], n)
      + if IsLive(ws[|ws| - 2], ss[|ss| - 1], n) then 1 else 0
  }

  lemma {:induction false} LiveDecisionTriggers(w: World, cid: Cid, serial: nat, docker: Docker)
    requires Acts(w.rem, cid)
    ensures
      var trace' := Apply(w, OnDecision(w.rem, cid, StatusApproved, serial, docker)).trace;
      Triggers(trace') == Triggers(w.trace) + [serial] && Approvals(trace') == Approvals(w.trace)
  {
    var e := OnDecision(w.rem, cid, StatusApproved, serial, docker);
    var run := Did(e.deeds[0]);
    TriggersSnoc(w.trace, run);
    QuietDeeds(w.trace + [run], e.deeds[1..]);
    assert w.trace + Deeds(e.deeds) == w.trace + [run] + Deeds(e.deeds[1..]);
  }

  /** A step executes exactly when it delivers an approved decision that finds an entry. */
  lemma {:induction false} StepTriggers(c: Config, w: World, s: RemediationProtocol.Step)
    requires Enabled(c, w, s)
    ensures
      Triggers(RemediationProtocol.Next(c, w, s).trace)
      == if s.DeliverDecision? && IsLive(w, s, s.serial) then Triggers(w.trace) + [s.serial] else Triggers(w.trace)
  {
    match s {
      case Diagnose(_, _) =>
      case DeliverDiagnosis(cid, d) => QuietDeeds(w.trace, OnDiagnosis(w.rem, c.plan, cid, d).deeds);
      case DeliverReview(cid, d, a, t, u) =>
        TriggersSnoc(w.trace, RemediationProtocol.Next(c, w, s).trace[|w.trace|]);
      case DeliverDecision(cid, status, serial, ok) =>
        if IsLive(w, s, serial) {
          LiveDecisionTriggers(w, cid, serial, ok);
        } else {
          QuietDeeds(w.trace, OnDecision(w.rem, cid, status, serial, ok).deeds);
        }
      case Verify(ok) => QuietDeeds(w.trace, OnVerified(w.rem, ok).deeds);
      case Acknowledge => QuietDeeds(w.trace, OnReported(w.rem).deeds);
      case Restart => TriggersSnoc(w.trace, Restarted(w.rem));
    }
  }

  /** A decision executes exactly as often as it is delivered approved while its correlation id has an
      entry whose action has a type. */
  lemma {:induction false} ExecutesPerLiveDelivery(c: Config, ws: seq<World>, ss: seq<RemediationProtocol.Step>, n: nat)
    requires IsLabelledRun(c, ws, ss)
    ensures Occurrences(Triggers(ws[|ws| - 1].trace), n) == LiveDeliveries(ws, ss, n)
    decreases |ss|
  {
    if ss != [] {
      FrontIsLabelled(c, ws, ss);
      ExecutesPerLiveDelivery(c, ws[..|ws| - 1], ss[..|ss| - 1], n);
      StepTriggers(c, ws[|ws| - 2], ss[|ss| - 1]);
    }
  }

  function Occurrences(s: seq<nat>, n: nat): nat {
    multiset(s)[n]
  }

  lemma {:induction false} OnceIsDistinct(s: seq<nat>)
    requires forall n: nat :: Occurrences(s, n) <= 1
    ensures Distinct(s)
  {
    forall i, j | 0 <= i < j < |s|
      ensures s[i] != s[j]
    {
      var n := s[i];
      assert Occurrences(s, n) <= 1;
      assert s == s[..j] + s[j..] && s[..j][i] == n && s[j..][0] == s[j];
      assert n in s[..j] && s[j] in s[j..];
    }
  }

  lemma {:induction false} OnceIff(s: seq<nat>)
    ensures Distinct(s) <==> forall n: nat :: Occurrences(s, n) <= 1
  {
    if Distinct(s) {
      forall n: nat
        ensures Occurrences(s, n) <= 1
      {
        DistinctOnce(s, n);
      }
    }
    if forall n: nat :: Occurrences(s, n) <= 1 {
      OnceIsDistinct(s);
    }
  }

  /** In a run no decision executes twice exactly when none is delivered live twice. */
  lemma {:induction false} OncePerRunIff(c: Config, ws: seq<World>, ss: seq<RemediationProtocol.Step>)
    requires IsLabelledRun(c, ws, ss)
    ensures Distinct(Triggers(ws[|ws| - 1].trace)) <==> forall n: nat :: LiveDeliveries(ws, ss, n) <= 1
  {
    var ts := Triggers(ws[|ws| - 1].trace);
    OnceIff(ts);
    if Distinct(ts) {
      forall n: nat
        ensures LiveDeliveries(ws, ss, n) <= 1
      {
        ExecutesPerLiveDelivery(c, ws, ss, n);
        assert Occurrences(ts, n) <= 1;
      }
    } else {
      var n: nat :| Occurrences(ts, n) > 1;
      ExecutesPerLiveDelivery(c, ws, ss, n);
      assert LiveDeliveries(ws, ss, n) > 1;
    }
  }

  // --- When approvals can be used twice ----------------------------------------------------------

  /** Something can be approved for some correlation id, and something with a type is planned for it. */
  ghost predicate CanExecute(c: Config) {
    exists cid, d, e :: CanAct(c, cid, d, e)
  }

  predicate IsCalm(d: Deed) {
    d.Stored? || d.Overwritten? || d.Dropped?
  }

  /** Nothing has been executed. */
  ghost predicate Calm(w: World) {
    w.rem.pending == Idle && forall k :: 0 <= k < |w.trace| && w.trace[k].Did? ==> IsCalm(w.trace[k].deed)
  }

  /** No approval arrives that finds an action to execute. */
  lemma {:induction false} NothingActs(c: Config, w: World, cid: Cid, n: nat)
    requires !CanExecute(c) && PlanInv(c, w) && DecisionMsg(cid, StatusApproved, n) in w.net
    ensures !Acts(w.rem, cid)
  {
    if Acts(w.rem, cid) {
      ApprovalHasGround(c, w, cid, n);
      var a :| Planned(c, cid, a) && AutoApprovable(c.graph, a);
      var d :| c.env(cid, d) && c.plan(d).Some? && c.plan(d).value.action == a;
      var e :| c.env(cid, e) && c.plan(e).Some? && c.plan(e).value.action == w.rem.active[cid].action;
      assert CanAct(c, cid, d, e);
    }
  }

  lemma {:induction false} StepKeepsCalm(c: Config, w: World, w': World)
    requires !CanExecute(c) && PlanInv(c, w) && Calm(w) && Follows(c, w, w')
    ensures Calm(w')
  {
    var s :| Enabled(c, w, s) && w' == RemediationProtocol.Next(c, w, s);
    if s.DeliverDecision? && s.status == StatusApproved {
      NothingActs(c, w, s.cid, s.serial);
    }
  }

  lemma {:induction false} CalmRun(c: Config, ws: seq<World>)
    requires !CanExecute(c) && IsRun(c, ws)
    ensures Calm(ws[|ws| - 1])
  {
    if |ws| > 1 {
      FrontIsRun(c, ws);
      CalmRun(c, ws[..|ws| - 1]);
      PlansRun(c, ws[..|ws| - 1]);
      StepKeepsCalm(c, ws[|ws| - 2], ws[|ws| - 1]);
    }
  }

  lemma {:induction false} CalmTriggersNothing(trace: seq<Happening>)
    requires forall k :: 0 <= k < |trace| && trace[k].Did? ==> IsCalm(trace[k].deed)
    ensures Triggers(trace) == []
  {
    if trace != [] {
      CalmTriggersNothing(trace[..|trace| - 1]);
    }
  }

  /** An approved decision can be executed, reported and done with while nothing else happens. */
  lemma {:induction false} HandledAtOnce(c: Config, us: seq<World>, cid: Cid, serial: nat) returns (ws: seq<World>)
    requires IsRun(c, us)
    requires
      var w := us[|us| - 1];
      w.rem.pending == Idle && Acts(w.rem, cid) && DecisionMsg(cid, StatusApproved, serial) in w.net
    ensures IsRun(c, ws)
    ensures
      var w, w' := us[|us| - 1], ws[|ws| - 1];
      && w'.rem == Rem(Forget(w.rem.active, cid), Idle, w.rem.stored) && w.net <= w'.net
      && Triggers(w'.trace) == Triggers(w.trace) + [serial] && Approvals(w'.trace) == Approvals(w.trace)
  {
    var w := us[|us| - 1];
    var decide := DeliverDecision(cid, StatusApproved, serial, NoSuchContainer);
    ExtendRun(c, us, decide);
    var w1 := RemediationProtocol.Next(c, w, decide);
    LiveDecisionTriggers(w, cid, serial, NoSuchContainer);
    ws := us + [w1];
    ws := Finished(c, ws);
  }

  /** A handler at work can be brought to its end. */
  lemma {:induction false} Finished(c: Config, us: seq<World>) returns (ws: seq<World>)
    requires IsRun(c, us) && us[|us| - 1].rem.pending != Idle
    ensures IsRun(c, ws)
    ensures
      var w, w' := us[|us| - 1], ws[|ws| - 1];
      && w'.rem == Rem(Forget(w.rem.active, w.rem.pending.cid), Idle, w.rem.stored) && w.net <= w'.net
      && Triggers(w'.trace) == Triggers(w.trace) && Approvals(w'.trace) == Approvals(w.trace)
    decreases us[|us| - 1].rem.pending.Verifying?
  {
    var w := us[|us| - 1];
    if w.rem.pending.Verifying? {
      ExtendRun(c, us, Verify(true));
      QuietDeeds(w.trace, OnVerified(w.rem, true).deeds);
      ws := Finished(c, us + [RemediationProtocol.Next(c, w, Verify(true))]);
    } else {
      ExtendRun(c, us, Acknowledge);
      QuietDeeds(w.trace, OnReported(w.rem).deeds);
      ws := us + [RemediationProtocol.Next(c, w, Acknowledge)];
    }
  }

  /** A decision that is delivered again after its diagnosis was delivered again executes again: two
      executions of one approval, which the rate limiter never sees. */
  lemma {:induction false} RedeliveryExecutesTwice(c: Config, cid: Cid, d: Diagnosis, e: Diagnosis)
    returns (ws: seq<World>)
    requires CanAct(c, cid, d, e)
    ensures IsRun(c, ws)
    ensures Triggers(ws[|ws| - 1].trace) == [1, 1] && Approvals(ws[|ws| - 1].trace) == {1}
  {
    ws := PreparedRun(c, cid, d, e);
    PreparedTriggers(c, ws[|ws| - 1], cid, d, e);
    ws := HandledAtOnce(c, ws, cid, 1);
    var w := ws[|ws| - 1];
    ExtendRun(c, ws, DeliverDiagnosis(cid, e));
    QuietDeeds(w.trace, OnDiagnosis(w.rem, c.plan, cid, e).deeds);
    ws := ws + [RemediationProtocol.Next(c, w, DeliverDiagnosis(cid, e))];
    ws := HandledAtOnce(c, ws, cid, 1);
    assert [] + [1] == [1] && [1] + [1] == [1, 1];
  }

  lemma {:induction false} PreparedTriggers(c: Config, w: World, cid: Cid, d: Diagnosis, e: Diagnosis)
    requires c.plan(d).Some? && c.plan(e).Some? && Prepared(c, w, cid, d, e)
    ensures Triggers(w.trace) == [] && Approvals(w.trace) == {1}
  {
    TriggersOfTwo(w.trace[..2]);
    TriggersSnoc(w.trace[..2], w.trace[2]);
    TriggersSnoc(w.trace[..3], w.trace[3]);
    assert w.trace[..2] + [w.trace[2]] == w.trace[..3] && w.trace[..3] + [w.trace[3]] == w.trace;
  }

  lemma {:induction false} TriggersOfTwo(trace: seq<Happening>)
    requires |trace| == 2 && trace[0].Did? && !IsExecution(trace[0]) && IsApproval(trace[1])
    ensures Triggers(trace) == [] && Approvals(trace) == {1}
  {
    var none: seq<Happening> := [];
    TriggersSnoc(none, trace[0]);
    TriggersSnoc([trace[0]], trace[1]);
    assert none + [trace[0]] == [trace[0]] && [trace[0]] + [trace[1]] == trace;
  }

  /** No decision ever executes twice, in any run, exactly when nothing can be executed at all. */
  lemma {:induction false} AtMostOnceIff(c: Config)
    ensures (forall ws: seq<World> :: IsRun(c, ws) ==> Distinct(Triggers(ws[|ws| - 1].trace))) <==> !CanExecute(c)
  {
    if CanExecute(c) {
      var cid, d, e :| CanAct(c, cid, d, e);
      var ws := RedeliveryExecutesTwice(c, cid, d, e);
      var ts := Triggers(ws[|ws| - 1].trace);
      assert ts[0] == ts[1];
    } else {
      forall ws: seq<World> | IsRun(c, ws)
        ensures Distinct(Triggers(ws[|ws| - 1].trace))
      {
        CalmRun(c, ws);
        CalmTriggersNothing(ws[|ws| - 1].trace);
      }
    }
  }

  // --- The rate limit over the protocol ---------------------------------------------------------

  lemma {:induction false} FollowsKeepsPace(c: Config, w: World, w': World)
    requires GateInv(c.limits, w.gate) && Follows(c, w, w')
    ensures GateInv(c.limits, w'.gate)
  {
    var s :| Enabled(c, w, s) && w' == RemediationProtocol.Next(c, w, s);
    if s.DeliverReview? {
      GateInvStep(c.limits, c.graph, w.gate, Request(s.action, s.checkedAt, s.recordedAt));
    } else {
      assert w'.gate == w.gate;
    }
  }

  lemma {:induction false} StartIsPaced(limits: Limits)
    ensures GateInv(limits, START.gate)
  {}

  lemma {:induction false} GateStaysPaced(c: Config, ws: seq<World>)
    requires IsRun(c, ws)
    ensures GateInv(c.limits, ws[|ws| - 1].gate)
  {
    if |ws| > 1 {
      FrontIsRun(c, ws);
      GateStaysPaced(c, ws[..|ws| - 1]);
      FollowsKeepsPace(c, ws[|ws| - 2], ws[|ws| - 1]);
    } else {
      StartIsPaced(c.limits);
    }
  }

  /** However messages are duplicated and reordered, no fingerprint is approved more often in any hour than
      the cap allows. */
  lemma {:induction false} ApprovalsStayCapped(c: Config, ws: seq<World>, fp: Fingerprint, lo: Time)
    requires IsRun(c, ws)
    ensures |Within(Stamps(ws[|ws| - 1].gate.approvals, fp), lo, lo + 3_600_000_000)|
         <= if c.limits.perHour > 0 then c.limits.perHour else 0
  {
    GateStaysPaced(c, ws);
    var gate := ws[|ws| - 1].gate;
    ChronologicalStamps(gate.approvals, gate.clock, fp);
    SpreadBoundsInterval(Stamps(gate.approvals, fp), c.limits.Cap(), HOUR, lo, lo + HOUR);
  }
}
