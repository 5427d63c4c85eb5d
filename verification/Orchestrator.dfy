/** The orchestrator: message handlers that drive one state machine per incident and persist its status,
    the periodic timeout scan, and recovery of the machines after a restart. */
module Orchestrator {
  import opened Windows
  import opened IncidentFsm
  import opened Escalation

  datatype Row = Row(status: State, enteredAt: Time)

  datatype Verdict = VerdictApproved | VerdictRejected | VerdictPending | VerdictOther
  datatype HumanDecision = HumanApprove | HumanReject | HumanOther

  datatype Message =
    | Anomaly
    | DiagnosisResult
    | SafetyDecision(verdict: Verdict)
    | ExecutionResult(success: bool)
    | HumanApproval(decision: HumanDecision)

  datatype Lifecycle = DiagnosisRequested(id: Id) | Created(id: Id) | Updated(id: Id, state: State) | Done(id: Id)

  /** The machines in memory, the incident rows in the database, and what has been published. */
  datatype Orch = Orch(fsms: map<Id, Fsm>, db: map<Id, Row>, published: seq<Lifecycle>, notices: seq<Notice>)

  function SetStatus(db: map<Id, Row>, id: Id, status: State, now: Time): map<Id, Row> {
    if id in db then db[id := Row(status, now)] else db
  }

  /** A rejection or a failure with a retry left: count it, and propose again where that is allowed. */
  function SetBack(f: Fsm, now: Time): Fsm {
    var f' := f.Retried(now);
    if f'.CanMove(ProposingRemediation) then f'.Moved(ProposingRemediation, now) else f'
  }

  function CallHuman(o: Orch, id: Id, f: Fsm): Orch {
    o.(notices := o.notices + [EscalationToHuman(id, f.state, f.retries)])
  }

  /** Move the machine, persist the new status, and announce it. */
  function Advance(o: Orch, id: Id, f: Fsm, target: State, now: Time): Orch {
    if f.CanMove(target)
    then o.(fsms := o.fsms[id := f.Moved(target, now)],
            db := SetStatus(o.db, id, target, now),
            published := o.published + [Updated(id, target)])
    else o
  }

  function SetBackOrCall(o: Orch, id: Id, f: Fsm, now: Time): Orch {
    if f.ShouldRetry() then o.(fsms := o.fsms[id := SetBack(f, now)]) else CallHuman(o, id, f)
  }

  /** A message about an incident whose machine is `f`. */
  function HandleKnown(o: Orch, id: Id, f: Fsm, msg: Message, now: Time): Orch {
    match msg
    case Anomaly => o
    case DiagnosisResult => Advance(o, id, f, ProposingRemediation, now)
    case SafetyDecision(VerdictApproved) => Advance(o, id, f, Executing, now)
    case SafetyDecision(VerdictRejected) => SetBackOrCall(o, id, f, now)
    case SafetyDecision(VerdictPending) =>
      o.(fsms := if f.CanMove(SafetyReview) then o.fsms[id := f.Moved(SafetyReview, now)] else o.fsms,
         db := SetStatus(o.db, id, SafetyReview, now))
    case SafetyDecision(VerdictOther) => o
    case ExecutionResult(true) =>
      if f.CanMove(Verifying)
      then o.(fsms := o.fsms[id := f.Moved(Verifying, now).Moved(Resolved, now)],
              db := SetStatus(o.db, id, Resolved, now),
              published := o.published + [Done(id)])
      else o
    case ExecutionResult(false) => SetBackOrCall(o, id, f, now)
    case HumanApproval(HumanApprove) => Advance(o, id, f, Executing, now)
    case HumanApproval(HumanReject) => CallHuman(o, id, f)
    case HumanApproval(HumanOther) => o
  }

  /** An anomaly opens an incident unless one is active; a row left by an earlier one makes the insert fail. */
  function Handle(o: Orch, id: Id, msg: Message, now: Time): Orch {
    if id in o.fsms then HandleKnown(o, id, o.fsms[id], msg, now)
    else if msg == Anomaly && id !in o.db then
      Orch(o.fsms[id := Fsm(Detecting, now, 0, []).Moved(Diagnosing, now)],
           o.db[id := Row(Diagnosing, now)],
           o.published + [DiagnosisRequested(id), Created(id)],
           o.notices)
    else o
  }

  /** The machines a restart rebuilds: one per row that is not resolved or closed, retries and history gone. */
  function Recovered(db: map<Id, Row>): map<Id, Fsm> {
    map id | id in db && !IsTerminal(db[id].status) :: Fsm(db[id].status, db[id].enteredAt, 0, [])
  }

  function InOrder<V>(m: map<Id, V>, ids: seq<Id>): (r: seq<V>)
    requires forall i :: 0 <= i < |ids| ==> ids[i] in m
    ensures |r| == |ids|
  {
    seq(|ids|, i requires 0 <= i < |ids| => m[ids[i]])
  }

  /** `ids` lists the keys of the map, once each, in the order the map is iterated. */
  ghost predicate Lists<V>(ids: seq<Id>, m: map<Id, V>) {
    && (forall i :: 0 <= i < |ids| ==> ids[i] in m)
    && (forall i, j :: 0 <= i < |ids| && 0 <= j < |ids| && i != j ==> ids[i] != ids[j])
    && (forall id :: id in m ==> id in ids)
  }

  // --- The agent --------------------------------------------------------------------------------

  class OrchestratorAgent {
    var activeFsms: map<Id, IncidentFSM>
    var db: map<Id, Row>
    var published: seq<Lifecycle>
    const escalation: EscalationManager

    /** No two incidents share a machine. */
    ghost predicate Valid()
      reads this`activeFsms
    {
      forall a, b :: a in activeFsms && b in activeFsms && a != b ==> activeFsms[a] != activeFsms[b]
    }

    ghost function Machines(): set<IncidentFSM>
      reads this`activeFsms
    {
      set id | id in activeFsms :: activeFsms[id]
    }

    ghost function MachineOf(id: Id): set<IncidentFSM>
      reads this`activeFsms
    {
      if id in activeFsms then {activeFsms[id]} else {}
    }

    ghost function Fsms(): map<Id, Fsm>
      reads this`activeFsms, Machines()
    {
      map id | id in activeFsms :: activeFsms[id].View()
    }

    ghost function View(): Orch
      reads this, escalation, Machines()
    {
      Orch(Fsms(), db, published, escalation.published)
    }

    /** Ask the machine of an active incident to move. */
    method Move(id: Id, target: State, now: Time) returns (ok: bool)
      requires Valid() && id in activeFsms
      modifies MachineOf(id)
      ensures ok == old(Fsms())[id].CanMove(target)
      ensures Fsms() == if ok then old(Fsms())[id := old(Fsms())[id].Moved(target, now)] else old(Fsms())
    {
      ok := activeFsms[id].Transition(target, now);
    }

    /** Two moves in a row; the first one decides. */
    method MoveTwice(id: Id, first: State, second: State, now: Time) returns (ok: bool)
      requires Valid() && id in activeFsms && second in Successors(first)
      modifies MachineOf(id)
      ensures ok == old(Fsms())[id].CanMove(first)
      ensures Fsms()
           == if ok then old(Fsms())[id := old(Fsms())[id].Moved(first, now).Moved(second, now)] else old(Fsms())
    {
      var fsm := activeFsms[id];
      ok := fsm.Transition(first, now);
      if ok {
        var _ := fsm.Transition(second, now);
      }
    }

    /** Count a retry, and go back to proposing where that is allowed. */
    method SetBackMachine(id: Id, now: Time)
      requires Valid() && id in activeFsms
      modifies MachineOf(id)
      ensures Fsms() == old(Fsms())[id := SetBack(old(Fsms())[id], now)]
    {
      var fsm := activeFsms[id];
      var _ := fsm.IncrementRetry(now);
      var _ := fsm.Transition(ProposingRemediation, now);
    }

    method AddMachine(id: Id, now: Time)
      requires Valid() && id !in activeFsms
      modifies this`activeFsms
      ensures Valid()
      ensures Fsms() == old(Fsms())[id := Fsm(Detecting, now, 0, []).Moved(Diagnosing, now)]
      ensures id in activeFsms && fresh(activeFsms[id]) && activeFsms == old(activeFsms)[id := activeFsms[id]]
    {
      var fsm := new IncidentFSM(Detecting, now);
      var _ := fsm.Transition(Diagnosing, now);
      activeFsms := activeFsms[id := fsm];
    }

    /** A fresh process on the rows an earlier one left; `ids` is the order in which they are fetched. */
    constructor (db: map<Id, Row>, ids: seq<Id>)
      requires Lists(ids, db)
      ensures Valid() && fresh(escalation) && forall id :: id in activeFsms ==> fresh(activeFsms[id])
      ensures View() == Orch(Recovered(db), db, [], [])
    {
      this.db, activeFsms, published := db, map[], [];
      escalation := new EscalationManager();
      new;
      RecoverInflight(ids);
    }

    method RecoverInflight(ids: seq<Id>)
      requires Lists(ids, db) && activeFsms == map[]
      modifies this`activeFsms
      ensures Valid() && forall id :: id in activeFsms ==> fresh(activeFsms[id])
      ensures activeFsms.Keys == Recovered(db).Keys
      ensures forall id :: id in activeFsms ==> activeFsms[id].View() == Recovered(db)[id]
    {
      for i := 0 to |ids|
        invariant Valid() && forall id :: id in activeFsms ==> fresh(activeFsms[id])
        invariant forall id :: id in activeFsms <==> id in ids[..i] && !IsTerminal(db[id].status)
        invariant forall id :: id in activeFsms ==> activeFsms[id].View() == Recovered(db)[id]
      {
        var row := db[ids[i]];
        if !IsTerminal(row.status) {
          var fsm := new IncidentFSM(row.status, row.enteredAt);
          activeFsms := activeFsms[ids[i] := fsm];
        }
      }
    }

    method HandleAnomaly(id: Id, now: Time)
      requires Valid()
      modifies this
      ensures Valid()
      ensures
        || activeFsms == old(activeFsms)
        || (id in activeFsms && fresh(activeFsms[id]) && activeFsms == old(activeFsms)[id := activeFsms[id]])
      ensures View() == Handle(old(View()), id, Anomaly, now)
    {
      if id in activeFsms {
        return;
      }
      if id in db {
        return;
      }
      AddMachine(id, now);
      db := db[id := Row(Diagnosing, now)];
      published := published + [DiagnosisRequested(id), Created(id)];
    }

    method UpdateIncidentStatus(id: Id, status: State, now: Time)
      modifies this`db
      ensures db == SetStatus(old(db), id, status, now)
    {
      if id in db {
        db := db[id := Row(status, now)];
      }
    }

    method HandleDiagnosisResult(id: Id, now: Time)
      requires Valid()
      modifies this`db, this`published, MachineOf(id)
      ensures View() == Handle(old(View()), id, DiagnosisResult, now)
    {
      if id !in activeFsms {
        return;
      }
      var ok := Move(id, ProposingRemediation, now);
      if !ok {
        return;
      }
      UpdateIncidentStatus(id, ProposingRemediation, now);
      published := published + [Updated(id, ProposingRemediation)];
    }

    /** What an approval does, whether it comes from the safety agent or from a human. */
    method Approve(id: Id, now: Time)
      requires Valid() && id in activeFsms
      modifies this`db, this`published, MachineOf(id)
      ensures View() == Advance(old(View()), id, old(Fsms())[id], Executing, now)
    {
      var ok := Move(id, Executing, now);
      if !ok {
        return;
      }
      UpdateIncidentStatus(id, Executing, now);
      published := published + [Updated(id, Executing)];
    }

    /** What a rejection and a failed execution do. */
    method RetryOrCall(id: Id, now: Time)
      requires Valid() && id in activeFsms
      modifies MachineOf(id), escalation
      ensures View() == SetBackOrCall(old(View()), id, old(Fsms())[id], now)
    {
      var fsm := activeFsms[id];
      if fsm.View().ShouldRetry() {
        SetBackMachine(id, now);
      } else {
        escalation.EscalateToHuman(id, fsm);
      }
    }

    /** What a pending decision does. */
    method Pend(id: Id, now: Time)
      requires Valid() && id in activeFsms
      modifies this`db, MachineOf(id)
      ensures View() == HandleKnown(old(View()), id, old(Fsms())[id], SafetyDecision(VerdictPending), now)
    {
      var _ := Move(id, SafetyReview, now);
      UpdateIncidentStatus(id, SafetyReview, now);
    }

    method HandleSafetyDecision(id: Id, verdict: Verdict, now: Time)
      requires Valid()
      modifies this`db, this`published, MachineOf(id), escalation
      ensures View() == Handle(old(View()), id, SafetyDecision(verdict), now)
    {
      if id !in activeFsms {
        return;
      }
      match verdict
      case VerdictApproved => Approve(id, now);
      case VerdictRejected => RetryOrCall(id, now);
      case VerdictPending => Pend(id, now);
      case VerdictOther =>
    }

    method HandleExecutionResult(id: Id, success: bool, now: Time)
      requires Valid()
      modifies this`db, this`published, MachineOf(id), escalation
      ensures View() == Handle(old(View()), id, ExecutionResult(success), now)
    {
      if id !in activeFsms {
        return;
      }
      if success {
        Resolve(id, now);
      } else {
        RetryOrCall(id, now);
      }
    }

    /** What a successful execution does. */
    method Resolve(id: Id, now: Time)
      requires Valid() && id in activeFsms
      modifies this`db, this`published, MachineOf(id)
      ensures View() == HandleKnown(old(View()), id, old(Fsms())[id], ExecutionResult(true), now)
    {
      var ok := MoveTwice(id, Verifying, Resolved, now);
      if !ok {
        return;
      }
      UpdateIncidentStatus(id, Resolved, now);
      published := published + [Done(id)];
    }

    method HandleHumanApproval(id: Id, decision: HumanDecision, now: Time)
      requires Valid()
      modifies this`db, this`published, MachineOf(id), escalation
      ensures View() == Handle(old(View()), id, HumanApproval(decision), now)
    {
      if id !in activeFsms {
        return;
      }
      match decision
      case HumanApprove => Approve(id, now);
      case HumanReject => escalation.EscalateToHuman(id, activeFsms[id]);
      case HumanOther =>
    }

    /** Hand the items of the map to the escalation manager. */
    method ScanMachines(ids: seq<Id>, readings: map<Id, Reading>)
      requires Valid() && Lists(ids, activeFsms) && readings.Keys == activeFsms.Keys
      modifies escalation, Machines()
      ensures Fsms() == ScanAll(old(Fsms()), readings)
      ensures escalation.published == old(escalation.published)
        + NoticesOf(ids, InOrder(old(Fsms()), ids), InOrder(readings, ids), |ids|)
    {
      var machines := InOrder(activeFsms, ids);
      ghost var before := Fsms();
      ViewsInOrder(ids);
      var escalated := escalation.CheckTimeouts(ids, machines, InOrder(readings, ids));
      ViewsInOrder(ids);
      ScannedOneByOne(before, Fsms(), ids, readings);
    }

    /** The machines in the order of the map are distinct, and their views are the values of the map. */
    lemma {:induction false} ViewsInOrder(ids: seq<Id>)
      requires Valid() && Lists(ids, activeFsms)
      ensures Views(InOrder(activeFsms, ids)) == InOrder(Fsms(), ids)
      ensures forall i :: 0 <= i < |ids| ==> Fsms()[ids[i]] == InOrder(activeFsms, ids)[i].View()
      ensures
        var machines := InOrder(activeFsms, ids);
        forall i, j :: 0 <= i < |machines| && 0 <= j < |machines| && i != j ==> machines[i] != machines[j]
    {}

    /** One round of the periodic timeout check. */
    method CheckTimeouts(ids: seq<Id>, readings: map<Id, Reading>)
      requires Valid() && Lists(ids, activeFsms) && readings.Keys == activeFsms.Keys
      modifies escalation, Machines()
      ensures View() == ScanStep(old(View()), ids, readings)
    {
      ScanMachines(ids, readings);
    }
  }

  lemma {:induction false} ScannedOneByOne(before: map<Id, Fsm>, after: map<Id, Fsm>, ids: seq<Id>, readings: map<Id,
                                           Reading>)
    requires Lists(ids, before) && before.Keys == after.Keys == readings.Keys
    requires forall i :: 0 <= i < |ids| ==> after[ids[i]] == Scanned(before[ids[i]], readings[ids[i]])
    ensures after == ScanAll(before, readings)
  {
    forall id | id in after
      ensures after[id] == ScanAll(before, readings)[id]
    {
      var i :| 0 <= i < |ids| && ids[i] == id;
    }
  }

  function ScanStep(o: Orch, ids: seq<Id>, readings: map<Id, Reading>): Orch
    requires forall i :: 0 <= i < |ids| ==> ids[i] in o.fsms && ids[i] in readings
  {
    o.(fsms := ScanAll(o.fsms, readings),
       notices := o.notices + NoticesOf(ids, InOrder(o.fsms, ids), InOrder(readings, ids), |ids|))
  }
}
