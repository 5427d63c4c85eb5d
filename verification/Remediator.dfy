/** The remediator: turns a diagnosis into a proposal, and an approved proposal into an execution that is
    verified or rolled back, and reported. One entry per correlation id. */
module Remediator {
  import opened Actions

  type Cid = string

  datatype Diagnosis = Diagnosis(category: Option<string>, confidence: int, service: Option<string>)

  datatype Runbook = Runbook(name: string)

  /** The matching runbook with its first action rendered for the diagnosis. */
  datatype Plan = Plan(runbook: Runbook, action: Action)

  /** An entry of the map. `id` tells entries apart, as the identity of the stored object does; the agents do
      not look at it. */
  datatype InFlight = InFlight(id: nat, diagnosis: Diagnosis, runbook: Runbook, action: Action)

  datatype Status = StatusApproved | StatusRejected | StatusPending | StatusOther

  datatype Result = Success | FailedVerification | FailedExecution

  /** `serial` tells decisions apart; the agents do not look at it. */
  datatype Msg =
    | DiagnosisMsg(cid: Cid, diagnosis: Diagnosis)
    | ReviewMsg(cid: Cid, diagnosis: Diagnosis, action: Action)
    | DecisionMsg(cid: Cid, status: Status, serial: nat)
    | CompletionMsg(cid: Cid, kind: Option<Kind>, result: Result)

  // --- The executor ------------------------------------------------------------------------------

  /** What becomes of a restart: without a connection the executor only pretends; otherwise some container matches
      and is restarted, none matches, or the runtime answers with an error. */
  datatype Docker = Unconnected | RestartWorks | NoSuchContainer | ApiError

  /** The answer of the executor. It knows two types of action; everything else fails. */
  function Execute(action: Action, docker: Docker): bool {
    match action.Kind()
    case Some(ContainerRestart) => action.target.Some? && (docker == Unconnected || docker == RestartWorks)
    case Some(CircuitBreaker) => true
    case _ => false
  }

  /** The executor can succeed with this action. */
  predicate Runnable(action: Action) {
    Execute(action, RestartWorks)
  }

  /** Nothing but a circuit breaker, and a restart of a target that the runtime carries out or that is only pretended,
      succeeds. */
  lemma {:induction false} ExecutesIff(action: Action, docker: Docker)
    ensures Execute(action, docker)
       <==> && action.Action?
            && (action.kind == Some(CircuitBreaker) ||
                (action.kind == Some(ContainerRestart) && action.target.Some? &&
                 (docker == Unconnected || docker == RestartWorks)))
  {}

  lemma {:induction false} RunnableIff(action: Action)
    ensures Runnable(action) <==> exists docker :: Execute(action, docker)
    ensures Runnable(action)
       <==> action.Kind() == Some(CircuitBreaker) || (action.Kind() == Some(ContainerRestart) && action.target.Some?)
  {
    if docker :| Execute(action, docker) {
      assert docker == Unconnected || docker == RestartWorks || action.Kind() == Some(CircuitBreaker);
    }
  }

  // --- The handlers ------------------------------------------------------------------------------

  /** What the remediator does, one entry each; `undo` is what a rollback hands to the executor, `Completed` is the
      publication of the completion message, and `Deleted` the removal of the entry that the map holds by then. */
  datatype Deed =
    | Stored(id: nat, cid: Cid, action: Action)
    | Overwritten(id: nat, cid: Cid, action: Action)
    | Dropped(id: nat, cid: Cid, action: Action)
    | Executed(id: nat, cid: Cid, action: Action, ok: bool, serial: nat)
    | RolledBack(id: nat, cid: Cid, action: Action, undo: Option<Action>)
    | Completed(id: nat, cid: Cid, action: Action, result: Result)
    | Deleted(id: nat, cid: Cid, action: Action)

  /** Where the decision handler waits, with the entry it took when it started: for the answer of the verification,
      or for the acknowledgement of its completion message. */
  datatype Pending = Idle | Verifying(cid: Cid, entry: InFlight) | Reporting(cid: Cid, entry: InFlight)

  /** `stored` counts the entries made so far. */
  datatype Rem = Rem(active: map<Cid, InFlight>, pending: Pending, stored: nat)

  datatype Effect = Effect(rem: Rem, sent: seq<Msg>, deeds: seq<Deed>)

  /** The whole diagnosis handler; nothing else runs in between. */
  function OnDiagnosis(rem: Rem, plan: Diagnosis -> Option<Plan>, cid: Cid, d: Diagnosis): Effect {
    match plan(d)
    case None => Effect(rem, [], [])
    case Some(p) =>
      var entry, stored := InFlight(rem.stored, d, p.runbook, p.action), Stored(rem.stored, cid, p.action);
      Effect(Rem(rem.active[cid := entry], rem.pending, rem.stored + 1),
             [ReviewMsg(cid, d, p.action)],
             if cid in rem.active then [Overwritten(rem.active[cid].id, cid, rem.active[cid].action), stored]
             else [stored])
  }

  function Forget(active: map<Cid, InFlight>, cid: Cid): map<Cid, InFlight> {
    map c | c in active && c != cid :: active[c]
  }

  /** An approval for `cid` leads to an execution: there is an entry, and its action has a type. */
  predicate Acts(rem: Rem, cid: Cid) {
    cid in rem.active && rem.active[cid].action.Kind().Some?
  }

  /** The decision handler up to where it has to wait. An approved action without a type raises before anything
      is done. */
  function OnDecision(rem: Rem, cid: Cid, status: Status, serial: nat, docker: Docker): Effect {
    if cid !in rem.active then Effect(rem, [], [])
    else
      var state := rem.active[cid];
      match status
      case StatusRejected =>
        Effect(rem.(active := Forget(rem.active, cid)), [], [Dropped(state.id, cid, state.action)])
      case StatusApproved =>
        if state.action.Kind() == None then Effect(rem, [], [])
        else if Execute(state.action, docker) then
          Effect(rem.(pending := Verifying(cid, state)), [], [Executed(state.id, cid, state.action, true, serial)])
        else
          Effect(rem.(pending := Reporting(cid, state)),
                 [CompletionMsg(cid, state.action.Kind(), FailedExecution)],
                 [Executed(state.id, cid, state.action, false, serial),
                  Completed(state.id, cid, state.action, FailedExecution)])
      case _ => Effect(rem, [], [])
  }

  function ResultOf(verifyOk: bool): Result {
    if verifyOk then Success else FailedVerification
  }

  /** The decision handler from the answer of the verification to the publication of its report. */
  function OnVerified(rem: Rem, verifyOk: bool): Effect
    requires rem.pending.Verifying?
  {
    var cid, state := rem.pending.cid, rem.pending.entry;
    var done := Completed(state.id, cid, state.action, ResultOf(verifyOk));
    Effect(rem.(pending := Reporting(cid, state)),
           [CompletionMsg(cid, state.action.Kind(), ResultOf(verifyOk))],
           if verifyOk then [done] else [RolledBack(state.id, cid, state.action, state.action.Undo()), done])
  }

  /** What the handler deletes at its end: the entry of `cid` as it is then; without one the deletion raises. */
  function Deletion(active: map<Cid, InFlight>, cid: Cid): seq<Deed> {
    if cid in active then [Deleted(active[cid].id, cid, active[cid].action)] else []
  }

  /** The end of the decision handler, once its report is acknowledged. */
  function OnReported(rem: Rem): Effect
    requires rem.pending.Reporting?
  {
    Effect(Rem(Forget(rem.active, rem.pending.cid), Idle, rem.stored), [], Deletion(rem.active, rem.pending.cid))
  }

  function Then(e: Effect, f: Effect): Effect {
    Effect(f.rem, e.sent + f.sent, e.deeds + f.deeds)
  }

  /** The decision handler without anything in between. */
  function OnDecisionAtOnce(rem: Rem, cid: Cid, status: Status, serial: nat, docker: Docker, verifyOk: bool): Effect {
    var first := OnDecision(rem, cid, status, serial, docker);
    var second := if first.rem.pending.Verifying? then Then(first, OnVerified(first.rem, verifyOk)) else first;
    if second.rem.pending.Reporting? then Then(second, OnReported(second.rem)) else second
  }

  // --- What each answer leads to -----------------------------------------------------------------

  /** A diagnosis that finds a runbook is stored under its correlation id, over whatever was there, with the action of
      the runbook, and a review of exactly this action is asked for; without a runbook nothing happens. */
  lemma {:induction false} DiagnosisIsStored(rem: Rem, plan: Diagnosis -> Option<Plan>, cid: Cid, d: Diagnosis)
    ensures plan(d) == None ==> OnDiagnosis(rem, plan, cid, d) == Effect(rem, [], [])
    ensures plan(d).Some? ==>
      var e, p := OnDiagnosis(rem, plan, cid, d), plan(d).value;
      && e.rem.pending == rem.pending && e.rem.stored == rem.stored + 1
      && (forall c :: c in e.rem.active <==> c in rem.active || c == cid)
      && (forall c :: c in rem.active && c != cid ==> e.rem.active[c] == rem.active[c])
      && e.rem.active[cid] == InFlight(rem.stored, d, p.runbook, p.action)
      && e.sent == [ReviewMsg(cid, d, p.action)]
  {}

  /** An approved entry with a type goes on to its verification exactly if it is a circuit breaker, or a restart with a
      target that the runtime has carried out or that is only pretended; everything else is reported as failed. */
  lemma {:induction false} ApprovedIsExecuted(rem: Rem, cid: Cid, serial: nat, docker: Docker)
    requires cid in rem.active && rem.active[cid].action.Action? && rem.active[cid].action.kind.Some?
    ensures
      var entry, e := rem.active[cid], OnDecision(rem, cid, StatusApproved, serial, docker);
      var a := entry.action;
      && e.rem.active == rem.active && e.rem.stored == rem.stored
      && (if a.kind == Some(CircuitBreaker) ||
             (a.kind == Some(ContainerRestart) && a.target.Some? && (docker == Unconnected || docker == RestartWorks))
          then e.rem.pending == Verifying(cid, entry) && e.sent == []
          else e.rem.pending == Reporting(cid, entry) && e.sent == [CompletionMsg(cid, a.kind, FailedExecution)])
  {}

  /** A rejection takes the entry of its correlation id out and does nothing else. */
  lemma {:induction false} RejectedIsDropped(rem: Rem, cid: Cid, serial: nat, docker: Docker)
    requires cid in rem.active
    ensures
      var e := OnDecision(rem, cid, StatusRejected, serial, docker);
      && (forall c :: c in e.rem.active <==> c in rem.active && c != cid)
      && (forall c :: c in e.rem.active ==> e.rem.active[c] == rem.active[c])
      && e.rem.pending == rem.pending && e.sent == []
      && e.deeds == [Dropped(rem.active[cid].id, cid, rem.active[cid].action)]
  {}

  /** A decision that is left to a human, or about an unknown correlation id, or that approves an action without a
      type, changes nothing. */
  lemma {:induction false} NothingToDo(rem: Rem, cid: Cid, status: Status, serial: nat, docker: Docker)
    requires
      || cid !in rem.active || status == StatusPending || status == StatusOther
      || (status == StatusApproved && (rem.active[cid].action.EmptyAction? || rem.active[cid].action.kind == None))
    ensures OnDecision(rem, cid, status, serial, docker) == Effect(rem, [], [])
  {}

  /** A verification that succeeds is reported as success. One that fails makes the remediator hand the action's
      rollback, unless that is missing or empty, to the executor, and is reported as failed. */
  lemma {:induction false} VerificationIsReported(active: map<Cid, InFlight>, stored: nat, cid: Cid, entry: InFlight)
    requires entry.action.Action?
    ensures
      var rem, a := Rem(active, Verifying(cid, entry), stored), entry.action;
      var good, bad := OnVerified(rem, true), OnVerified(rem, false);
      && good.rem == bad.rem == Rem(active, Reporting(cid, entry), stored)
      && good.sent == [CompletionMsg(cid, a.kind, Success)]
      && bad.sent == [CompletionMsg(cid, a.kind, FailedVerification)]
      && (forall d :: d in good.deeds ==> !d.RolledBack?)
      && bad.deeds[0] == RolledBack(entry.id, cid, a, if a.rollback == Some(EmptyAction) then None else a.rollback)
  {}

  /** Without anything in between, an approved entry with a type is executed, reported once and gone: a success only if
      both execution and verification succeeded. */
  lemma {:induction false} AtOnceIsDone(rem: Rem, cid: Cid, serial: nat, docker: Docker, verifyOk: bool)
    requires rem.pending == Idle && cid in rem.active
    requires rem.active[cid].action.Action? && rem.active[cid].action.kind.Some?
    ensures
      var e, a := OnDecisionAtOnce(rem, cid, StatusApproved, serial, docker, verifyOk), rem.active[cid].action;
      && e.rem.pending == Idle && (forall c :: c in e.rem.active <==> c in rem.active && c != cid)
      && e.sent == [CompletionMsg(cid, a.kind, if !Execute(a, docker) then FailedExecution
                                               else if verifyOk then Success else FailedVerification)]
  {}

  class RemediatorAgent {
    const plan: Diagnosis -> Option<Plan>
    var activeRemediations: map<Cid, InFlight>
    var stored: nat
    var sent: seq<Msg>
    ghost var deeds: seq<Deed>

    constructor (plan: Diagnosis -> Option<Plan>)
      ensures this.plan == plan && activeRemediations == map[] && stored == 0 && sent == [] && deeds == []
    {
      this.plan := plan;
      activeRemediations, stored, sent, deeds := map[], 0, [], [];
    }

    method HandleDiagnosis(cid: Cid, diagnosis: Diagnosis)
      modifies this
      ensures
        var e := OnDiagnosis(Rem(old(activeRemediations), Idle, old(stored)), plan, cid, diagnosis);
        && activeRemediations == e.rem.active && stored == e.rem.stored
        && sent == old(sent) + e.sent && deeds == old(deeds) + e.deeds
    {
      var runbook := plan(diagnosis);
      if runbook == None {
        return;
      }
      var action := runbook.value.action;
      if cid in activeRemediations {
        deeds := deeds + [Overwritten(activeRemediations[cid].id, cid, activeRemediations[cid].action)];
      }
      activeRemediations := activeRemediations[cid := InFlight(stored, diagnosis, runbook.value.runbook, action)];
      deeds := deeds + [Stored(stored, cid, action)];
      stored := stored + 1;
      sent := sent + [ReviewMsg(cid, diagnosis, action)];
    }

    method PublishCompletion(cid: Cid, state: InFlight, result: Result)
      modifies this`sent, this`deeds
      ensures sent == old(sent) + [CompletionMsg(cid, state.action.Kind(), result)]
      ensures deeds == old(deeds) + [Completed(state.id, cid, state.action, result)]
    {
      sent := sent + [CompletionMsg(cid, state.action.Kind(), result)];
      deeds := deeds + [Completed(state.id, cid, state.action, result)];
    }

    /** The decision handler up to its first `await`; other handlers may run before the handler goes on from where
        it is `pending`. `docker` is what the container runtime would answer. */
    method StartDecision(cid: Cid, status: Status, ghost serial: nat, docker: Docker)
      returns (pending: Pending, raised: bool)
      modifies this`sent, this`deeds, this`activeRemediations
      ensures raised == (status == StatusApproved && cid in old(activeRemediations)
                         && !Acts(Rem(old(activeRemediations), Idle, stored), cid))
      ensures
        var e := OnDecision(Rem(old(activeRemediations), Idle, stored), cid, status, serial, docker);
        && activeRemediations == e.rem.active && pending == e.rem.pending
        && sent == old(sent) + e.sent && deeds == old(deeds) + e.deeds
    {
      pending, raised := Idle, false;
      if cid !in activeRemediations {
        return;
      }
      var state := activeRemediations[cid];
      if status == StatusRejected {
        activeRemediations := Forget(activeRemediations, cid);
        deeds := deeds + [Dropped(state.id, cid, state.action)];
        return;
      }
      if status == StatusApproved {
        if state.action.Kind() == None {
          return Idle, true;
        }
        var execOk := Execute(state.action, docker);
        deeds := deeds + [Executed(state.id, cid, state.action, execOk, serial)];
        if execOk {
          return Verifying(cid, state), false;
        }
        PublishCompletion(cid, state, FailedExecution);
        return Reporting(cid, state), false;
      }
    }

    /** The decision handler from the answer of the verification engine to the `await` of its report. */
    method ReportVerification(cid: Cid, state: InFlight, verifyOk: bool) returns (pending: Pending)
      modifies this`sent, this`deeds
      ensures
        var e := OnVerified(Rem(activeRemediations, Verifying(cid, state), stored), verifyOk);
        && pending == e.rem.pending && sent == old(sent) + e.sent && deeds == old(deeds) + e.deeds
    {
      if verifyOk {
        PublishCompletion(cid, state, Success);
      } else {
        deeds := deeds + [RolledBack(state.id, cid, state.action, state.action.Undo())];
        PublishCompletion(cid, state, FailedVerification);
      }
      return Reporting(cid, state);
    }

    /** The end of the handler: `del` on whatever the map holds by then; `raised` when there is no such entry. */
    method Delete(cid: Cid, ghost state: InFlight) returns (raised: bool)
      modifies this`activeRemediations, this`deeds
      ensures raised == (cid !in old(activeRemediations))
      ensures
        var e := OnReported(Rem(old(activeRemediations), Reporting(cid, state), stored));
        activeRemediations == e.rem.active && deeds == old(deeds) + e.deeds
    {
      if cid !in activeRemediations {
        return true;
      }
      deeds := deeds + [Deleted(activeRemediations[cid].id, cid, activeRemediations[cid].action)];
      activeRemediations := Forget(activeRemediations, cid);
      return false;
    }

    /** The decision handler when nothing else runs during its `await`s. */
    method HandleSafetyDecision(cid: Cid, status: Status, ghost serial: nat, docker: Docker, verifyOk: bool)
      returns (raised: bool)
      modifies this`activeRemediations, this`sent, this`deeds
      ensures raised == (status == StatusApproved && cid in old(activeRemediations)
                         && !Acts(Rem(old(activeRemediations), Idle, stored), cid))
      ensures
        var e := OnDecisionAtOnce(Rem(old(activeRemediations), Idle, stored), cid, status, serial, docker, verifyOk);
        && activeRemediations == e.rem.active && sent == old(sent) + e.sent && deeds == old(deeds) + e.deeds
    {
      var pending;
      pending, raised := StartDecision(cid, status, serial, docker);
      ghost var first := OnDecision(Rem(old(activeRemediations), Idle, stored), cid, status, serial, docker);
      ghost var second := first;
      if pending.Verifying? {
        pending := ReportVerification(pending.cid, pending.entry, verifyOk);
        second := Then(first, OnVerified(first.rem, verifyOk));
      }
      assert sent == old(sent) + second.sent && deeds == old(deeds) + second.deeds && pending == second.rem.pending;
      assert pending.Reporting? ==> cid in activeRemediations && !raised && pending.cid == cid;
      if pending.Reporting? {
        raised := Delete(pending.cid, pending.entry);
      }
    }
  }
}
