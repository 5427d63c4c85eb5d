/** What holds of the orchestrator over whole runs: messages in any order, scans, dead agents, restarts. */
module OrchestratorRuns {
  import opened Windows
  import opened IncidentFsm
  import opened Escalation
  import opened Orchestrator

  datatype Event =
    | Deliver(id: Id, msg: Message, now: Time)
    | Scan(ids: seq<Id>, readings: map<Id, Reading>)
    | AgentDied(agent: AgentType, ids: seq<Id>)
    | Restart

  ghost predicate CanOccur(o: Orch, e: Event) {
    match e
    case Scan(ids, readings) => Lists(ids, o.fsms) && readings.Keys == o.fsms.Keys
    case AgentDied(_, ids) => Lists(ids, o.fsms)
    case _ => true
  }

  ghost function Step(o: Orch, e: Event): Orch
    requires CanOccur(o, e)
  {
    match e
    case Deliver(id, msg, now) => Handle(o, id, msg, now)
    case Scan(ids, readings) => ScanStep(o, ids, readings)
    case AgentDied(agent, ids) =>
      o.(notices := o.notices + DeadAgentNotices(ids, InOrder(o.fsms, ids), agent, |ids|))
    case Restart => o.(fsms := Recovered(o.db))
  }

  const EMPTY := Orch(map[], map[], [], [])

  ghost predicate Follows(o: Orch, o': Orch) {
    exists e :: CanOccur(o, e) && o' == Step(o, e)
  }

  ghost predicate IsRun(states: seq<Orch>) {
    && states != [] && states[0] == EMPTY
    && forall i :: 0 <= i < |states| - 1 ==> Follows(states[i], states[i + 1])
  }

  // --- Every machine, in every run --------------------------------------------------------------

  /** Statuses that are ever persisted. */
  const PERSISTED: set<State> := {Diagnosing, ProposingRemediation, SafetyReview, Executing, Resolved}

  ghost predicate Inv(o: Orch) {
    && (forall id :: id in o.fsms ==> Good(o.fsms[id]) && id in o.db)
    && (forall id :: id in o.db ==> o.db[id].status in PERSISTED)
    && (forall id :: id in o.db && o.db[id].status != Resolved ==> id in o.fsms)
  }

  lemma {:induction false} RetriedKeepsGood(f: Fsm, now: Time)
    requires Good(f) && f.ShouldRetry()
    ensures Good(f.Retried(now))
  {}

  lemma {:induction false} SetBackKeepsGood(f: Fsm, now: Time)
    requires Good(f) && f.ShouldRetry()
    ensures Good(SetBack(f, now))
  {
    RetriedKeepsGood(f, now);
    var f' := f.Retried(now);
    if f'.CanMove(ProposingRemediation) {
      MovedKeepsGood(f', ProposingRemediation, now);
    }
  }

  lemma {:induction false} NewIsGood(now: Time)
    ensures Good(Fsm(Detecting, now, 0, []).Moved(Diagnosing, now))
  {}

  /** The machine an incident has after a message about it. */
  lemma {:induction false} HandleKnownKeepsGood(o: Orch, id: Id, msg: Message, now: Time)
    requires id in o.fsms && Good(o.fsms[id])
    ensures var o' := HandleKnown(o, id, o.fsms[id], msg, now); id in o'.fsms && Good(o'.fsms[id])
  {
    var f := o.fsms[id];
    forall target | f.CanMove(target) && target !in {Verifying, Closed}
      ensures Good(f.Moved(target, now))
    {
      MovedKeepsGood(f, target, now);
    }
    if f.CanMove(Verifying) {
      VerifiedAndResolvedKeepsGood(f, now);
    }
    if f.ShouldRetry() {
      SetBackKeepsGood(f, now);
    }
  }

  /** Two states that differ in one incident at most, which is not lost. */
  ghost predicate SameElsewhere(o: Orch, o': Orch, id: Id) {
    && (forall k :: k != id ==> (k in o'.fsms <==> k in o.fsms) && (k in o'.db <==> k in o.db))
    && (forall k :: k != id && k in o.fsms ==> o'.fsms[k] == o.fsms[k])
    && (forall k :: k != id && k in o.db ==> o'.db[k] == o.db[k])
    && (id in o.fsms ==> id in o'.fsms) && (id in o.db ==> id in o'.db)
  }

  lemma {:induction false} AdvanceTouchesOne(o: Orch, id: Id, f: Fsm, target: State, now: Time)
    ensures SameElsewhere(o, Advance(o, id, f, target, now), id)
  {}

  lemma {:induction false} SetBackTouchesOne(o: Orch, id: Id, f: Fsm, now: Time)
    ensures SameElsewhere(o, SetBackOrCall(o, id, f, now), id)
  {}

  lemma {:induction false} KnownTouchesOne(o: Orch, id: Id, f: Fsm, msg: Message, now: Time)
    ensures SameElsewhere(o, HandleKnown(o, id, f, msg, now), id)
  {
    match msg {
      case DiagnosisResult => AdvanceTouchesOne(o, id, f, ProposingRemediation, now);
      case SafetyDecision(VerdictApproved) => AdvanceTouchesOne(o, id, f, Executing, now);
      case HumanApproval(HumanApprove) => AdvanceTouchesOne(o, id, f, Executing, now);
      case SafetyDecision(VerdictRejected) => SetBackTouchesOne(o, id, f, now);
      case ExecutionResult(false) => SetBackTouchesOne(o, id, f, now);
      case _ =>
    }
  }

  /** A message touches one incident only. */
  lemma {:induction false} HandleTouchesOne(o: Orch, id: Id, msg: Message, now: Time)
    ensures SameElsewhere(o, Handle(o, id, msg, now), id)
  {
    if id in o.fsms {
      KnownTouchesOne(o, id, o.fsms[id], msg, now);
    }
  }

  lemma {:induction false} RowAfterHandle(o: Orch, id: Id, msg: Message, now: Time)
    requires id in o.fsms && id in o.db
    ensures
      var o' := Handle(o, id, msg, now);
      o'.db[id].status == o.db[id].status ||
        o'.db[id].status in {ProposingRemediation, Executing, SafetyReview, Resolved}
  {}

  lemma {:induction false} HandleKnownKeepsInv(o: Orch, id: Id, msg: Message, now: Time)
    requires Inv(o) && id in o.fsms
    ensures Inv(Handle(o, id, msg, now))
  {
    HandleTouchesOne(o, id, msg, now);
    HandleKnownKeepsGood(o, id, msg, now);
    RowAfterHandle(o, id, msg, now);
  }

  lemma {:induction false} HandleKeepsInv(o: Orch, id: Id, msg: Message, now: Time)
    requires Inv(o)
    ensures Inv(Handle(o, id, msg, now))
  {
    if id in o.fsms {
      HandleKnownKeepsInv(o, id, msg, now);
    } else {
      NewIsGood(now);
    }
  }

  lemma {:induction false} ScannedKeepsGood(f: Fsm, r: Reading)
    requires Good(f)
    ensures Good(Scanned(f, r)) && Scanned(f, r).state == f.state && Scanned(f, r).history == f.history
  {
    if f.ShouldRetry() {
      RetriedKeepsGood(f, r.reset);
    }
  }

  lemma {:induction false} ScanKeepsInv(o: Orch, ids: seq<Id>, readings: map<Id, Reading>)
    requires Inv(o) && Lists(ids, o.fsms) && readings.Keys == o.fsms.Keys
    ensures Inv(ScanStep(o, ids, readings))
  {
    forall id | id in o.fsms
      ensures Good(ScanStep(o, ids, readings).fsms[id])
    {
      ScannedKeepsGood(o.fsms[id], readings[id]);
    }
  }

  lemma {:induction false} RecoveredIsGood(row: Row)
    requires row.status in PERSISTED && !IsTerminal(row.status)
    ensures Good(Fsm(row.status, row.enteredAt, 0, []))
  {}

  lemma {:induction false} RestartKeepsInv(o: Orch)
    requires Inv(o)
    ensures Inv(o.(fsms := Recovered(o.db)))
  {
    forall id | id in Recovered(o.db)
      ensures Good(Recovered(o.db)[id])
    {
      RecoveredIsGood(o.db[id]);
    }
  }

  lemma {:induction false} StepKeepsInv(o: Orch, e: Event)
    requires Inv(o) && CanOccur(o, e)
    ensures Inv(Step(o, e))
  {
    match e {
      case Deliver(id, msg, now) => HandleKeepsInv(o, id, msg, now);
      case Scan(ids, readings) => ScanKeepsInv(o, ids, readings);
      case AgentDied(_, _) =>
      case Restart => RestartKeepsInv(o);
    }
  }

  lemma {:induction false} FollowsKeepsInv(o: Orch, o': Orch)
    requires Inv(o) && Follows(o, o')
    ensures Inv(o')
  {
    var e :| CanOccur(o, e) && o' == Step(o, e);
    StepKeepsInv(o, e);
  }

  lemma {:induction false} FrontIsRun(states: seq<Orch>)
    requires IsRun(states) && |states| > 1
    ensures IsRun(states[..|states| - 1]) && Follows(states[|states| - 2], states[|states| - 1])
  {
    var front := states[..|states| - 1];
    assert forall i :: 0 <= i < |front| - 1 ==> Follows(states[i], states[i + 1]);
  }

  lemma {:induction false} NothingYet()
    ensures Inv(EMPTY)
  {}

  lemma {:induction false} InvHolds(states: seq<Orch>)
    requires IsRun(states)
    ensures Inv(states[|states| - 1])
  {
    if |states| > 1 {
      FrontIsRun(states);
      InvHolds(states[..|states| - 1]);
      FollowsKeepsInv(states[|states| - 2], states[|states| - 1]);
    } else {
      NothingYet();
    }
  }

  ghost predicate IsLastProposal(f: Fsm, i: int) {
    && 0 <= i < |Path(f)| && Path(f)[i] == ProposingRemediation
    && forall j :: i < j < |Path(f)| ==> Path(f)[j] != ProposingRemediation
  }

  /** In every reachable state, every machine has walked one unbroken path of allowed transitions to where
      it is, has at most the maximal number of retries, and rests neither verifying nor closed; a resolved one
      came by exactly proposal, review, execution and verification. */
  lemma {:induction false} EveryMachineIsLawful(states: seq<Orch>, id: Id)
    requires IsRun(states) && id in states[|states| - 1].fsms
    ensures
      var f := states[|states| - 1].fsms[id];
      && Unbroken(f)
      && 0 <= f.retries <= MAX_RETRIES
      && f.state !in {Verifying, Closed}
      && (f.state == Resolved ==>
            var p := Path(f);
            var k := Shorter(|p|, 5);
            k >= 3 && p[|p| - k..] == RESOLUTION[5 - k..])
      && (f.state == Resolved ==> forall i :: IsLastProposal(f, i) ==> Path(f)[i..] == RESOLUTION)
  {
    InvHolds(states);
    var f := states[|states| - 1].fsms[id];
    if f.state == Resolved {
      ResolvedTail(f);
      forall i | IsLastProposal(f, i)
        ensures Path(f)[i..] == RESOLUTION
      {
        ResolvedAfterLastProposal(f, i);
      }
    }
  }

  /** Nothing but a restart moves a resolved machine. */
  lemma {:induction false} ResolvedIsAbsorbing(o: Orch, e: Event, id: Id)
    requires Inv(o) && CanOccur(o, e) && e != Restart
    requires id in o.fsms && o.fsms[id].state == Resolved
    ensures
      var o' := Step(o, e);
      id in o'.fsms && o'.fsms[id].state == Resolved && o'.fsms[id].history == o.fsms[id].history
  {
    match e {
      case Deliver(k, msg, now) => ResolvedIgnoresMessages(o, k, msg, now, id);
      case _ =>
    }
  }

  lemma {:induction false} ResolvedIgnoresMessages(o: Orch, k: Id, msg: Message, now: Time, id: Id)
    requires id in o.fsms && o.fsms[id].state == Resolved
    ensures
      var o' := Handle(o, k, msg, now);
      id in o'.fsms && o'.fsms[id].state == Resolved && o'.fsms[id].history == o.fsms[id].history
  {
    HandleTouchesOne(o, k, msg, now);
  }

  ghost predicate FollowsUp(o: Orch, o': Orch) {
    exists e :: e != Restart && CanOccur(o, e) && o' == Step(o, e)
  }

  lemma {:induction false} FollowsUpKeepsResolved(o: Orch, o': Orch, id: Id)
    requires Inv(o) && FollowsUp(o, o') && id in o.fsms && o.fsms[id].state == Resolved
    ensures Inv(o') && id in o'.fsms && o'.fsms[id].state == Resolved && o'.fsms[id].history == o.fsms[id].history
  {
    var e :| e != Restart && CanOccur(o, e) && o' == Step(o, e);
    StepKeepsInv(o, e);
    ResolvedIsAbsorbing(o, e, id);
  }

  /** However long a process runs, an incident that it has resolved stays resolved, with the path it had. */
  lemma {:induction false} ResolvedForGood(states: seq<Orch>, id: Id)
    requires states != [] && Inv(states[0])
    requires forall i :: 0 <= i < |states| - 1 ==> FollowsUp(states[i], states[i + 1])
    requires id in states[0].fsms && states[0].fsms[id].state == Resolved
    ensures
      var o := states[|states| - 1];
      && Inv(o) && id in o.fsms
      && o.fsms[id].state == Resolved && o.fsms[id].history == states[0].fsms[id].history
  {
    if |states| > 1 {
      FollowsUpKeepsResolved(states[0], states[1], id);
      ResolvedForGood(states[1..], id);
    }
  }

  // --- Runs of one process -----------------------------------------------------------------------

  /** A run from nothing without a restart. */
  ghost predicate IsFirstRun(states: seq<Orch>) {
    && states != [] && states[0] == EMPTY
    && forall i :: 0 <= i < |states| - 1 ==> FollowsUp(states[i], states[i + 1])
  }

  /** The machine remembers how its incident was opened. */
  ghost predicate RemembersOpening(f: Fsm) {
    f.history != [] && f.history[0].from == Detecting && f.history[0].to == Diagnosing
  }

  ghost predicate AllRememberOpening(o: Orch) {
    forall id :: id in o.fsms ==> RemembersOpening(o.fsms[id])
  }

  lemma {:induction false} MessageKeepsOpening(o: Orch, id: Id, msg: Message, now: Time)
    requires AllRememberOpening(o)
    ensures AllRememberOpening(Handle(o, id, msg, now))
  {
    HandleTouchesOne(o, id, msg, now);
    if id in o.fsms {
      assert RemembersOpening(o.fsms[id]);
      KnownKeepsOpening(o, id, msg, now);
    }
  }

  lemma {:induction false} KnownKeepsOpening(o: Orch, id: Id, msg: Message, now: Time)
    requires id in o.fsms && RemembersOpening(o.fsms[id])
    ensures
      var o' := HandleKnown(o, id, o.fsms[id], msg, now);
      id in o'.fsms && RemembersOpening(o'.fsms[id])
  {}

  lemma {:induction false} FollowsUpKeepsOpening(o: Orch, o': Orch)
    requires Inv(o) && AllRememberOpening(o) && FollowsUp(o, o')
    ensures Inv(o') && AllRememberOpening(o')
  {
    var e :| e != Restart && CanOccur(o, e) && o' == Step(o, e);
    StepKeepsInv(o, e);
    match e {
      case Deliver(id, msg, now) => MessageKeepsOpening(o, id, msg, now);
      case Scan(ids, readings) =>
        forall id | id in o'.fsms
          ensures RemembersOpening(o'.fsms[id])
        {
          ScannedKeepsGood(o.fsms[id], readings[id]);
        }
      case AgentDied(_, _) =>
    }
  }

  lemma {:induction false} OpeningsAreRemembered(states: seq<Orch>)
    requires IsFirstRun(states)
    ensures Inv(states[|states| - 1]) && AllRememberOpening(states[|states| - 1])
  {
    if |states| > 1 {
      var front := states[..|states| - 1];
      assert forall i :: 0 <= i < |front| - 1 ==> FollowsUp(states[i], states[i + 1]);
      OpeningsAreRemembered(front);
      FollowsUpKeepsOpening(states[|states| - 2], states[|states| - 1]);
    } else {
      NothingYet();
    }
  }

  const OPENING: seq<State> := [Detecting, Diagnosing, ProposingRemediation]

  /** In a run without a restart a resolved incident was detected, diagnosed and proposed first, and ended with
      proposal, review, execution, verification and resolution. */
  lemma {:induction false} WholePathIsRecorded(states: seq<Orch>, id: Id)
    requires IsFirstRun(states) && id in states[|states| - 1].fsms
    requires states[|states| - 1].fsms[id].state == Resolved
    ensures
      var p := Path(states[|states| - 1].fsms[id]);
      |p| >= 7 && p[..3] == OPENING && p[|p| - 5..] == RESOLUTION
  {
    OpeningsAreRemembered(states);
    WholePath(states[|states| - 1].fsms[id]);
  }

  lemma {:induction false} TailsAgree(s: seq<State>, i: nat, t: seq<State>, j: nat, n: nat)
    requires i + n < |s| && j + n < |t| && s[i..] == t[j..]
    ensures s[i + n] == t[j + n]
  {
    assert s[i..][n] == t[j..][n];
  }

  lemma {:induction false} ResolutionIsLate(i: nat)
    requires i < 5
    ensures RESOLUTION[i] != Detecting && RESOLUTION[i] != Diagnosing
  {}

  /** A path that starts with detection and ends with the recorded end of a resolution is long enough for both. */
  lemma {:induction false} BothEndsFit(p: seq<State>, k: nat)
    requires |p| >= 2 && p[0] == Detecting && p[1] == Diagnosing
    requires k == Shorter(|p|, 5) && p[|p| - k..] == RESOLUTION[5 - k..]
    ensures k == 5 && |p| >= 7
  {
    TailsAgree(p, |p| - k, RESOLUTION, 5 - k, 0);
    ResolutionIsLate(5 - k);
    TailsAgree(p, |p| - k, RESOLUTION, 5 - k, 1);
    ResolutionIsLate(6 - k);
  }

  lemma {:induction false} OpeningStates(f: Fsm)
    requires Unbroken(f) && RemembersOpening(f) && |f.history| >= 2
    ensures Path(f)[..3] == OPENING
  {
    var p, h := Path(f), f.history;
    assert h[1].from == h[0].to == Diagnosing && h[1].to in Successors(Diagnosing);
    assert p[0] == h[0].from && p[1] == h[0].to && p[2] == h[1].to;
  }

  lemma {:induction false} WholePath(f: Fsm)
    requires Good(f) && RemembersOpening(f) && f.state == Resolved
    ensures var p := Path(f); |p| >= 7 && p[..3] == OPENING && p[|p| - 5..] == RESOLUTION
  {
    ResolvedTail(f);
    var p := Path(f);
    assert p[0] == Detecting && p[1] == Diagnosing;
    BothEndsFit(p, Shorter(|p|, 5));
    OpeningStates(f);
    assert RESOLUTION[0..] == RESOLUTION;
  }

  /** A scan treats an incident by itself, so its outcomes are those of `Escalation.Outcomes`. */
  lemma {:induction false} ScanIsPerIncident(o: Orch, ids: seq<Id>, readings: map<Id, Reading>, id: Id)
    requires CanOccur(o, Scan(ids, readings)) && id in o.fsms
    ensures Step(o, Scan(ids, readings)).fsms[id] == Scanned(o.fsms[id], readings[id])
    ensures forall n :: n in NoticeOf(id, o.fsms[id], readings[id]) ==> n in Step(o, Scan(ids, readings)).notices
  {
    var i :| 0 <= i < |ids| && ids[i] == id;
    NoticeIsSent(ids, InOrder(o.fsms, ids), InOrder(readings, ids), i, |ids|);
  }

  lemma {:induction false} NoticeIsSent(ids: seq<Id>, fsms: seq<Fsm>, readings: seq<Reading>, i: nat, n: nat)
    requires i < n <= |ids| == |fsms| == |readings|
    ensures forall x :: x in NoticeOf(ids[i], fsms[i], readings[i]) ==> x in NoticesOf(ids, fsms, readings, n)
  {
    if i < n - 1 {
      NoticeIsSent(ids, fsms, readings, i, n - 1);
    }
  }

  // --- Memory and database ----------------------------------------------------------------------

  /** The persisted status of every active incident is the state of its machine. */
  ghost predicate InSync(o: Orch) {
    forall id :: id in o.fsms ==> id in o.db && o.db[id].status == o.fsms[id].state
  }

  /** Events after which memory and database disagree: a rejection or failure that moves the machine
      without saying so, and a pending decision that is written although the machine does not move. */
  predicate Drifts(o: Orch, e: Event) {
    e.Deliver? && e.id in o.fsms &&
    var f := o.fsms[e.id];
    match e.msg
    case SafetyDecision(VerdictRejected) => f.ShouldRetry() && f.CanMove(ProposingRemediation)
    case ExecutionResult(false) => f.ShouldRetry() && f.CanMove(ProposingRemediation)
    case SafetyDecision(VerdictPending) => f.state != ProposingRemediation && f.state != SafetyReview
    case _ => false
  }

  /** Starting in step, memory and database stay in step exactly when the event is not one of these. */
  lemma {:induction false} SyncKeptIff(o: Orch, e: Event)
    requires Inv(o) && InSync(o) && CanOccur(o, e)
    ensures InSync(Step(o, e)) <==> !Drifts(o, e)
  {
    match e {
      case Deliver(id, msg, now) => DeliverSync(o, id, msg, now);
      case Scan(ids, readings) =>
        forall id | id in o.fsms
          ensures Step(o, e).fsms[id].state == o.fsms[id].state
        {
          ScannedKeepsGood(o.fsms[id], readings[id]);
        }
      case AgentDied(_, _) =>
      case Restart =>
    }
  }

  lemma {:induction false} DeliverSync(o: Orch, id: Id, msg: Message, now: Time)
    requires Inv(o) && InSync(o)
    ensures InSync(Handle(o, id, msg, now)) <==> !Drifts(o, Deliver(id, msg, now))
  {
    var o' := Handle(o, id, msg, now);
    HandleTouchesOne(o, id, msg, now);
    if id in o'.fsms {
      OneSync(o, id, msg, now);
      assert InSync(o') <==> o'.db[id].status == o'.fsms[id].state;
    }
  }

  lemma {:induction false} OneSyncKnown(o: Orch, id: Id, f: Fsm, msg: Message, now: Time)
    requires id in o.fsms && f == o.fsms[id] && id in o.db && o.db[id].status == f.state
    ensures
      var o' := HandleKnown(o, id, f, msg, now);
      && id in o'.fsms && id in o'.db
      && (o'.db[id].status == o'.fsms[id].state <==> !Drifts(o, Deliver(id, msg, now)))
  {}

  lemma {:induction false} OneSync(o: Orch, id: Id, msg: Message, now: Time)
    requires Inv(o) && InSync(o) && id in Handle(o, id, msg, now).fsms
    ensures
      var o' := Handle(o, id, msg, now);
      && id in o'.db
      && (o'.db[id].status == o'.fsms[id].state <==> !Drifts(o, Deliver(id, msg, now)))
  {
    if id in o.fsms {
      OneSyncKnown(o, id, o.fsms[id], msg, now);
    }
  }

  /** Events of a run in which nothing drifts. */
  ghost predicate FollowsInStep(o: Orch, o': Orch) {
    exists e :: CanOccur(o, e) && !Drifts(o, e) && o' == Step(o, e)
  }

  ghost predicate IsRunInStep(states: seq<Orch>) {
    && states != [] && states[0] == EMPTY
    && forall i :: 0 <= i < |states| - 1 ==> FollowsInStep(states[i], states[i + 1])
  }

  lemma {:induction false} FollowsKeepsSync(o: Orch, o': Orch)
    requires Inv(o) && InSync(o) && FollowsInStep(o, o')
    ensures Inv(o') && InSync(o')
  {
    var e :| CanOccur(o, e) && !Drifts(o, e) && o' == Step(o, e);
    StepKeepsInv(o, e);
    SyncKeptIff(o, e);
  }

  lemma {:induction false} FrontIsInStep(states: seq<Orch>)
    requires IsRunInStep(states) && |states| > 1
    ensures IsRunInStep(states[..|states| - 1]) && FollowsInStep(states[|states| - 2], states[|states| - 1])
  {
    var front := states[..|states| - 1];
    assert forall i :: 0 <= i < |front| - 1 ==> FollowsInStep(states[i], states[i + 1]);
  }

  lemma {:induction false} SyncHolds(states: seq<Orch>)
    requires IsRunInStep(states)
    ensures Inv(states[|states| - 1]) && InSync(states[|states| - 1])
  {
    if |states| > 1 {
      FrontIsInStep(states);
      SyncHolds(states[..|states| - 1]);
      FollowsKeepsSync(states[|states| - 2], states[|states| - 1]);
    } else {
      NothingYet();
    }
  }

  /** After a run in which nothing drifted, a restart rebuilds exactly the unresolved machines, each in its state. */
  lemma {:induction false} RecoveryIsExact(states: seq<Orch>)
    requires IsRunInStep(states)
    ensures
      var o := states[|states| - 1];
      && (forall id :: id in Recovered(o.db) <==> id in o.fsms && !IsTerminal(o.fsms[id].state))
      && (forall id :: id in Recovered(o.db) ==> Recovered(o.db)[id].state == o.fsms[id].state)
  {
    SyncHolds(states);
  }
}
