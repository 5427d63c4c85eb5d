/** What every message does to an incident, listed by the state its machine is in. */
module MessageTable {
  import opened Windows
  import opened IncidentFsm
  import opened Escalation
  import opened Orchestrator

  /** The machine has entered a state: its clock is new, its retries are forgotten, and the change is recorded. */
  ghost predicate Entered(f: Fsm, f': Fsm, state: State, now: Time) {
    && f'.state == state && f'.enteredAt == now && f'.retries == 0
    && f'.history == f.history + [Change(f.state, state, now)]
  }

  /** The machine of `id` is all that may differ in memory, and a row of `id` that exists shows the status. */
  ghost predicate Persisted(o: Orch, o': Orch, id: Id, status: State, now: Time) {
    && o'.fsms.Keys == o.fsms.Keys && (forall k :: k in o.fsms && k != id ==> o'.fsms[k] == o.fsms[k])
    && o'.db == (if id in o.db then o.db[id := Row(status, now)] else o.db)
    && o'.notices == o.notices
  }

  /** An anomaly opens an incident that has neither machine nor row, and asks for its diagnosis. */
  lemma {:induction false} AnomalyOpens(o: Orch, id: Id, now: Time)
    ensures Handle(o, id, Anomaly, now)
         == if id in o.fsms || id in o.db then o
            else Orch(o.fsms[id := Fsm(Diagnosing, now, 0, [Change(Detecting, Diagnosing, now)])],
                      o.db[id := Row(Diagnosing, now)],
                      o.published + [DiagnosisRequested(id), Created(id)],
                      o.notices)
  {
    assert [] + [Change(Detecting, Diagnosing, now)] == [Change(Detecting, Diagnosing, now)];
  }

  /** Without a machine no other message does anything. */
  lemma {:induction false} UnknownIsIgnored(o: Orch, id: Id, msg: Message, now: Time)
    requires id !in o.fsms && msg != Anomaly
    ensures Handle(o, id, msg, now) == o
  {}

  /** A diagnosis leads to a proposal from diagnosing, review and execution, which is persisted and announced. */
  lemma {:induction false} DiagnosisProposes(o: Orch, id: Id, now: Time)
    requires id in o.fsms
    ensures
      var f, o' := o.fsms[id], Handle(o, id, DiagnosisResult, now);
      && (f.state in {Diagnosing, SafetyReview, Executing} ==>
            && id in o'.fsms && Entered(f, o'.fsms[id], ProposingRemediation, now)
            && Persisted(o, o', id, ProposingRemediation, now)
            && o'.published == o.published + [Updated(id, ProposingRemediation)])
      && (f.state !in {Diagnosing, SafetyReview, Executing} ==> o' == o)
  {}

  /** An approval, by the safety agent or by a human, leads to execution from review, which is persisted and
      announced. */
  lemma {:induction false} ApprovalExecutes(o: Orch, id: Id, msg: Message, now: Time)
    requires id in o.fsms && msg in {SafetyDecision(VerdictApproved), HumanApproval(HumanApprove)}
    ensures
      var f, o' := o.fsms[id], Handle(o, id, msg, now);
      && (f.state in {SafetyReview, Verifying} ==>
            && id in o'.fsms && Entered(f, o'.fsms[id], Executing, now)
            && Persisted(o, o', id, Executing, now)
            && o'.published == o.published + [Updated(id, Executing)])
      && (f.state !in {SafetyReview, Verifying} ==> o' == o)
  {}

  /** A decision left to a human puts a proposal under review; the row says review whatever the machine does, and
      nothing is announced. */
  lemma {:induction false} PendingReviews(o: Orch, id: Id, now: Time)
    requires id in o.fsms
    ensures
      var f, o' := o.fsms[id], Handle(o, id, SafetyDecision(VerdictPending), now);
      && id in o'.fsms && Persisted(o, o', id, SafetyReview, now) && o'.published == o.published
      && (f.state == ProposingRemediation ==> Entered(f, o'.fsms[id], SafetyReview, now))
      && (f.state != ProposingRemediation ==> o'.fsms[id] == f)
  {}

  /** A rejection or a failed execution calls a human after two retries. Before, it goes back to proposing from
      diagnosing, review and execution, and counts a retry elsewhere; neither is persisted or announced. */
  lemma {:induction false} RejectionSetsBack(o: Orch, id: Id, msg: Message, now: Time)
    requires id in o.fsms && msg in {SafetyDecision(VerdictRejected), ExecutionResult(false)}
    ensures
      var f, o' := o.fsms[id], Handle(o, id, msg, now);
      && (f.retries >= 2 ==> o' == o.(notices := o.notices + [EscalationToHuman(id, f.state, f.retries)]))
      && (f.retries < 2 ==>
            && id in o'.fsms && o'.fsms.Keys == o.fsms.Keys
            && (forall k :: k in o.fsms && k != id ==> o'.fsms[k] == o.fsms[k])
            && o'.db == o.db && o'.published == o.published && o'.notices == o.notices
            && (f.state in {Diagnosing, SafetyReview, Executing} ==>
                  Entered(f, o'.fsms[id], ProposingRemediation, now))
            && (f.state !in {Diagnosing, SafetyReview, Executing} ==>
                  o'.fsms[id] == Fsm(f.state, now, f.retries + 1, f.history)))
  {}

  /** A successful execution resolves what is being executed, through verifying; a resolution is announced as such. */
  lemma {:induction false} SuccessResolves(o: Orch, id: Id, now: Time)
    requires id in o.fsms
    ensures
      var f, o' := o.fsms[id], Handle(o, id, ExecutionResult(true), now);
      && (f.state == Executing ==>
            && id in o'.fsms && Persisted(o, o', id, Resolved, now) && o'.published == o.published + [Done(id)]
            && o'.fsms[id] == Fsm(Resolved, now, 0,
                                  f.history + [Change(Executing, Verifying, now), Change(Verifying, Resolved, now)]))
      && (f.state != Executing ==> o' == o)
  {
    var h, c, d := o.fsms[id].history, Change(Executing, Verifying, now), Change(Verifying, Resolved, now);
    assert h + [c] + [d] == h + [c, d];
  }

  /** A human who rejects is told so; anything else does nothing. */
  lemma {:induction false} HumanRejectionIsNoted(o: Orch, id: Id, msg: Message, now: Time)
    requires id in o.fsms
    requires msg in {HumanApproval(HumanReject), HumanApproval(HumanOther), SafetyDecision(VerdictOther)}
    ensures
      var f, o' := o.fsms[id], Handle(o, id, msg, now);
      o' == if msg == HumanApproval(HumanReject)
            then o.(notices := o.notices + [EscalationToHuman(id, f.state, f.retries)]) else o
  {}

  /** A restart rebuilds exactly the incidents whose row is neither resolved nor closed: in the state and at the time of
      the row, with no retries and no history. */
  lemma {:induction false} RestartRebuilds(db: map<Id, Row>)
    ensures forall id :: id in Recovered(db) <==> id in db && db[id].status !in {Resolved, Closed}
    ensures forall id :: id in Recovered(db) ==> Recovered(db)[id] == Fsm(db[id].status, db[id].enteredAt, 0, [])
  {}

  // --- Scans -------------------------------------------------------------------------------------

  ghost function Chosen(p: nat -> bool, n: nat): set<nat> {
    set i: nat | i < n && p(i)
  }

  lemma {:induction false} ChosenNext(p: nat -> bool, n: nat)
    ensures |Chosen(p, n + 1)| == |Chosen(p, n)| + if p(n) then 1 else 0
  {
    assert Chosen(p, n + 1) == if p(n) then Chosen(p, n) + {n} else Chosen(p, n);
  }

  /** The scan has something to say about the incident. */
  ghost function Noticed(ids: seq<Id>, fsms: seq<Fsm>, readings: seq<Reading>): nat -> bool
    requires |ids| == |fsms| == |readings|
  {
    (i: nat) => i < |ids| && NoticeOf(ids[i], fsms[i], readings[i]) != []
  }

  /** A scan sends one notice about each incident it has something to say about, in their order, and no other. */
  lemma {:induction false} OneNoticeEach(ids: seq<Id>, fsms: seq<Fsm>, readings: seq<Reading>, n: nat)
    requires n <= |ids| == |fsms| == |readings|
    ensures |NoticesOf(ids, fsms, readings, n)| == |Chosen(Noticed(ids, fsms, readings), n)|
    ensures n > 0 && NoticeOf(ids[n - 1], fsms[n - 1], readings[n - 1]) != [] ==>
      var all := NoticesOf(ids, fsms, readings, n);
      all != [] && [all[|all| - 1]] == NoticeOf(ids[n - 1], fsms[n - 1], readings[n - 1])
  {
    if n > 0 {
      OneNoticeEach(ids, fsms, readings, n - 1);
      ChosenNext(Noticed(ids, fsms, readings), n - 1);
    }
  }

  /** A scan returns the incidents it has called a human about, in the order it went through them. */
  lemma {:induction false} ReturnsTheCalled(ids: seq<Id>, fsms: seq<Fsm>, readings: seq<Reading>, n: nat)
    requires n < |ids| == |fsms| == |readings|
    ensures EscalatedOf(ids, fsms, readings, 0) == []
    ensures
      var called :=
        NoticeOf(ids[n], fsms[n], readings[n]) == [EscalationToHuman(ids[n], fsms[n].state, fsms[n].retries)];
      EscalatedOf(ids, fsms, readings, n + 1)
      == EscalatedOf(ids, fsms, readings, n) + if called then [ids[n]] else []
  {}

  // --- Dead agents -------------------------------------------------------------------------------

  /** The states that wait for an agent: detection for the observer, diagnosis for the diagnoser, review for the safety
      agent, execution for the remediator. */
  ghost predicate Needs(state: State, agent: AgentType) {
    || (state == Detecting && agent == Observer) || (state == Diagnosing && agent == Diagnoser)
    || (state == SafetyReview && agent == Safety) || (state == Executing && agent == AgentType.Remediator)
  }

  /** When an agent dies, a human is called about exactly the incidents whose state waits for it. */
  lemma {:induction false} DeadAgentIff(ids: seq<Id>, fsms: seq<Fsm>, agent: AgentType, n: nat, notice: Notice)
    requires n <= |ids| == |fsms|
    ensures notice in DeadAgentNotices(ids, fsms, agent, n)
       <==> exists i :: 0 <= i < n && Needs(fsms[i].state, agent)
              && notice == EscalationToHuman(ids[i], fsms[i].state, fsms[i].retries)
  {
    if n > 0 {
      DeadAgentIff(ids, fsms, agent, n - 1, notice);
    }
  }

  /** ... and once about each. */
  lemma {:induction false} DeadAgentOnceEach(ids: seq<Id>, fsms: seq<Fsm>, agent: AgentType, n: nat)
    requires n <= |ids| == |fsms|
    ensures |DeadAgentNotices(ids, fsms, agent, n)| == |Chosen(WaitsFor(fsms, agent), n)|
  {
    if n > 0 {
      DeadAgentOnceEach(ids, fsms, agent, n - 1);
      ChosenNext(WaitsFor(fsms, agent), n - 1);
    }
  }

  ghost function WaitsFor(fsms: seq<Fsm>, agent: AgentType): nat -> bool {
    (i: nat) => i < |fsms| && Needs(fsms[i].state, agent)
  }
}
