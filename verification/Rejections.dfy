/** What rejections do to an incident: when they use up retries, and when they do not. */
module Rejections {
  import opened Windows
  import opened IncidentFsm
  import opened Escalation
  import opened Orchestrator

  const REJECTED := SafetyDecision(VerdictRejected)
  const PENDING := SafetyDecision(VerdictPending)

  /** While retries are left, a rejection clears the count exactly when the machine can go back to proposing, and
      counts one more where it is otherwise; after that it calls a human. */
  lemma {:induction false} RejectionResetsIff(o: Orch, id: Id, now: Time)
    requires id in o.fsms && 0 <= o.fsms[id].retries
    ensures
      var f, o' := o.fsms[id], Handle(o, id, REJECTED, now);
      var f' := o'.fsms[id];
      if f.ShouldRetry() then
        && o'.notices == o.notices
        && (f'.retries == 0 <==> f.CanMove(ProposingRemediation))
        && (f'.retries != 0 ==> f'.retries == f.retries + 1)
        && f'.state == (if f.CanMove(ProposingRemediation) then ProposingRemediation else f.state)
      else f' == f && o'.notices == o.notices + [EscalationToHuman(id, f.state, f.retries)]
  {}

  /** Rejections of one incident with nothing else in between. */
  function Rejected(o: Orch, id: Id, times: seq<Time>): Orch
    decreases times
  {
    if times == [] then o else Rejected(Handle(o, id, REJECTED, times[0]), id, times[1..])
  }

  /** How many rejections in a row a machine takes before a human is called. */
  function Patience(f: Fsm): int {
    if !f.ShouldRetry() then 0
    else if f.CanMove(ProposingRemediation) then 1 + MAX_RETRIES
    else MAX_RETRIES - f.retries
  }

  function Excess(n: nat, patience: int): nat {
    if n > patience >= 0 then n - patience else 0
  }

  lemma {:induction false} PatienceShrinks(o: Orch, id: Id, now: Time)
    requires id in o.fsms && 0 <= o.fsms[id].retries <= MAX_RETRIES
    ensures
      var f, o' := o.fsms[id], Handle(o, id, REJECTED, now);
      && id in o'.fsms && 0 <= o'.fsms[id].retries <= MAX_RETRIES
      && 0 <= Patience(f) <= 1 + MAX_RETRIES
      && (if Patience(f) > 0 then o'.notices == o.notices && Patience(o'.fsms[id]) == Patience(f) - 1
          else Patience(o'.fsms[id]) == 0 && |o'.notices| == |o.notices| + 1)
  {
    RejectionResetsIff(o, id, now);
  }

  /** Rejections in a row do accumulate: as many as the patience are silent, every further one calls a human. */
  lemma {:induction false} RejectionsInARow(o: Orch, id: Id, times: seq<Time>)
    requires id in o.fsms && 0 <= o.fsms[id].retries <= MAX_RETRIES
    ensures |Rejected(o, id, times).notices| == |o.notices| + Excess(|times|, Patience(o.fsms[id]))
    decreases times
  {
    PatienceShrinks(o, id, if times == [] then 0 else times[0]);
    if times != [] {
      RejectionsInARow(Handle(o, id, REJECTED, times[0]), id, times[1..]);
    }
  }

  /** Rejections, each after a new review. */
  function ReviewedAndRejected(o: Orch, id: Id, n: nat, now: Time): Orch {
    if n == 0 then o
    else Handle(Handle(ReviewedAndRejected(o, id, n - 1, now), id, PENDING, now), id, REJECTED, now)
  }

  /** With a review in between they do not: any number of rejections is taken without calling a human. */
  lemma {:induction false} ReviewsClearTheCount(o: Orch, id: Id, n: nat, now: Time)
    requires id in o.fsms && o.fsms[id].state == ProposingRemediation
    ensures
      var o' := ReviewedAndRejected(o, id, n, now);
      && id in o'.fsms && o'.fsms[id].state == ProposingRemediation
      && o'.notices == o.notices && (n > 0 ==> o'.fsms[id].retries == 0)
  {
    if n > 0 {
      ReviewsClearTheCount(o, id, n - 1, now);
    }
  }
}
