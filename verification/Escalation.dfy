/** The escalation manager: scans the active incidents for timeouts, retries, and calls a human. */
module Escalation {
  import opened Windows
  import opened IncidentFsm

  type Id = string

  datatype Notice =
    | StateRetry(id: Id, state: State, count: int)
    | EscalationToHuman(id: Id, state: State, retries: int)

  datatype Outcome = Quiet | Retry | Escalate

  /** The clock as one scan reads it for one incident: at the timeout check, and at the reset of a retry. */
  datatype Reading = Reading(check: Time, reset: Time)

  function OutcomeOf(f: Fsm, check: Time): Outcome {
    if !f.TimedOut(check) then Quiet else if f.ShouldRetry() then Retry else Escalate
  }

  function Scanned(f: Fsm, r: Reading): Fsm {
    if OutcomeOf(f, r.check) == Retry then f.Retried(r.reset) else f
  }

  function NoticeOf(id: Id, f: Fsm, r: Reading): seq<Notice> {
    match OutcomeOf(f, r.check)
    case Quiet => []
    case Retry => [StateRetry(id, f.state, f.retries + 1)]
    case Escalate => [EscalationToHuman(id, f.state, f.retries)]
  }

  /** One scan of all incidents: each is treated by itself. */
  function ScanAll(fsms: map<Id, Fsm>, readings: map<Id, Reading>): map<Id, Fsm> {
    map id | id in fsms :: if id in readings then Scanned(fsms[id], readings[id]) else fsms[id]
  }

  /** The notices about the first `n` listed incidents. */
  function NoticesOf(ids: seq<Id>, fsms: seq<Fsm>, readings: seq<Reading>, n: nat): seq<Notice>
    requires n <= |ids| == |fsms| == |readings|
  {
    if n == 0 then []
    else NoticesOf(ids, fsms, readings, n - 1) + NoticeOf(ids[n - 1], fsms[n - 1], readings[n - 1])
  }

  function EscalatedOf(ids: seq<Id>, fsms: seq<Fsm>, readings: seq<Reading>, n: nat): seq<Id>
    requires n <= |ids| == |fsms| == |readings|
  {
    if n == 0 then []
    else
      EscalatedOf(ids, fsms, readings, n - 1)
      + if OutcomeOf(fsms[n - 1], readings[n - 1].check) == Escalate then [ids[n - 1]] else []
  }

  /** States that wait for an agent of the given type. */
  datatype AgentType = Diagnoser | Remediator | Safety | Observer | OtherAgent

  function WaitingOn(agent: AgentType): set<State> {
    match agent
    case Diagnoser => {Diagnosing}
    case Remediator => {Executing}
    case Safety => {SafetyReview}
    case Observer => {Detecting}
    case OtherAgent => {}
  }

  function DeadAgentNotices(ids: seq<Id>, fsms: seq<Fsm>, agent: AgentType, n: nat): seq<Notice>
    requires n <= |ids| == |fsms|
  {
    if n == 0 then []
    else
      var f := fsms[n - 1];
      DeadAgentNotices(ids, fsms, agent, n - 1)
      + if f.state in WaitingOn(agent) then [EscalationToHuman(ids[n - 1], f.state, f.retries)] else []
  }

  // --- The manager ------------------------------------------------------------------------------

  ghost function Views(machines: seq<IncidentFSM>): (vs: seq<Fsm>)
    reads machines
    ensures |vs| == |machines|
    ensures forall i :: 0 <= i < |machines| ==> vs[i] == machines[i].View()
  {
    seq(|machines|, i requires 0 <= i < |machines| reads machines => machines[i].View())
  }

  class EscalationManager {
    var published: seq<Notice>

    constructor ()
      ensures published == []
    {
      published := [];
    }

    method RetryCurrentState(id: Id, fsm: IncidentFSM, now: Time)
      modifies this, fsm
      ensures fsm.View() == old(fsm.View()).Retried(now)
      ensures published == old(published) + [StateRetry(id, old(fsm.state), old(fsm.retryCount) + 1)]
    {
      var count := fsm.IncrementRetry(now);
      published := published + [StateRetry(id, fsm.state, count)];
    }

    method EscalateToHuman(id: Id, fsm: IncidentFSM)
      modifies this
      ensures published == old(published) + [EscalationToHuman(id, fsm.state, fsm.retryCount)]
    {
      published := published + [EscalationToHuman(id, fsm.state, fsm.retryCount)];
    }

    /** The scan's treatment of one incident. */
    method CheckOne(id: Id, fsm: IncidentFSM, r: Reading) returns (escalated: bool)
      modifies this, fsm
      ensures fsm.View() == Scanned(old(fsm.View()), r)
      ensures published == old(published) + NoticeOf(id, old(fsm.View()), r)
      ensures escalated <==> OutcomeOf(old(fsm.View()), r.check) == Escalate
    {
      if IsTerminal(fsm.state) {
        return false;
      }
      if !fsm.View().TimedOut(r.check) {
        return false;
      }
      if fsm.View().ShouldRetry() {
        RetryCurrentState(id, fsm, r.reset);
        return false;
      }
      EscalateToHuman(id, fsm);
      return true;
    }

    /** The items of the map of active incidents, in the order they are iterated. */
    method CheckTimeouts(ids: seq<Id>, machines: seq<IncidentFSM>, readings: seq<Reading>)
      returns (escalated: seq<Id>)
      requires |ids| == |machines| == |readings|
      requires forall i, j :: 0 <= i < |machines| && 0 <= j < |machines| && i != j ==> machines[i] != machines[j]
      modifies this, machines
      ensures forall i :: 0 <= i < |ids| ==> machines[i].View() == Scanned(old(machines[i].View()), readings[i])
      ensures published == old(published) + NoticesOf(ids, old(Views(machines)), readings, |ids|)
      ensures escalated == EscalatedOf(ids, old(Views(machines)), readings, |ids|)
    {
      ghost var before := Views(machines);
      escalated := [];
      for i := 0 to |ids|
        invariant forall j :: 0 <= j < i ==> machines[j].View() == Scanned(before[j], readings[j])
        invariant forall j :: i <= j < |ids| ==> machines[j].View() == before[j]
        invariant published == old(published) + NoticesOf(ids, before, readings, i)
        invariant escalated == EscalatedOf(ids, before, readings, i)
      {
        ghost var sent := NoticeOf(ids[i], before[i], readings[i]);
        assert NoticesOf(ids, before, readings, i + 1) == NoticesOf(ids, before, readings, i) + sent;
        var gaveUp := CheckOne(ids[i], machines[i], readings[i]);
        assert published == old(published) + (NoticesOf(ids, before, readings, i) + sent);
        if gaveUp {
          escalated := escalated + [ids[i]];
        }
      }
    }

    method HandleDeadAgent(agent: AgentType, ids: seq<Id>, machines: seq<IncidentFSM>)
      requires |ids| == |machines|
      modifies this
      ensures published == old(published) + DeadAgentNotices(ids, old(Views(machines)), agent, |ids|)
    {
      var affected := WaitingOn(agent);
      for i := 0 to |ids|
        invariant forall j :: 0 <= j < |machines| ==> machines[j].View() == old(machines[j].View())
        invariant published == old(published) + DeadAgentNotices(ids, old(Views(machines)), agent, i)
      {
        if machines[i].state in affected {
          EscalateToHuman(ids[i], machines[i]);
        }
      }
    }
  }

  // --- How long an unattended incident waits ----------------------------------------------------

  /** What a sequence of scans does to one incident that nothing else touches. */
  function Outcomes(f: Fsm, scans: seq<Reading>): (os: seq<Outcome>)
    ensures |os| == |scans|
    decreases scans
  {
    if scans == [] then []
    else [OutcomeOf(f, scans[0].check)] + Outcomes(Scanned(f, scans[0]), scans[1..])
  }

  /** Checks come at most `gap` apart, counted from `since`, and a retry resets the clock at most `lag`
      after its check; nothing happens before `floor`. */
  ghost predicate Spaced(floor: Time, since: Time, gap: Time, lag: Time, scans: seq<Reading>)
    decreases scans
  {
    scans != [] ==>
      && floor <= scans[0].check <= since + gap
      && scans[0].check <= scans[0].reset <= scans[0].check + lag
      && Spaced(scans[0].reset, scans[0].check, gap, lag, scans[1..])
  }

  function Count(o: Outcome, os: seq<Outcome>): nat {
    if os == [] then 0 else (if os[0] == o then 1 else 0) + Count(o, os[1..])
  }

  /** The escalation at `k` is the first. */
  ghost predicate FirstEscalation(os: seq<Outcome>, k: nat) {
    k < |os| && os[k] == Escalate && forall j :: 0 <= j < k ==> os[j] != Escalate
  }

  /** `n` whole timeouts. */
  function Times(n: nat, t: Time): Time {
    if n == 0 then 0 else t + Times(n - 1, t)
  }

  ghost predicate Waiting(f: Fsm, floor: Time, since: Time) {
    && !IsTerminal(f.state) && 0 <= f.retries <= MAX_RETRIES
    && f.enteredAt <= floor && since <= f.enteredAt + Timeout(f.state)
  }

  lemma {:induction false} QuietKeepsWaiting(f: Fsm, floor: Time, since: Time, gap: Time, lag: Time,
                                             scans: seq<Reading>)
    requires Waiting(f, floor, since) && scans != [] && Spaced(floor, since, gap, lag, scans)
    requires OutcomeOf(f, scans[0].check) != Escalate
    ensures Waiting(Scanned(f, scans[0]), scans[0].reset, scans[0].check)
  {}

  /** When the first escalation of an incident that has `f.retries` retries behind it comes, how many more
      retries it gets before, and that every later scan escalates again. */
  lemma {:induction false} EscalationTime(f: Fsm, floor: Time, since: Time, gap: Time, lag: Time,
                                          scans: seq<Reading>, k: nat)
    requires Waiting(f, floor, since) && Spaced(floor, since, gap, lag, scans)
    requires FirstEscalation(Outcomes(f, scans), k)
    ensures
      var t, left := Timeout(f.state), MAX_RETRIES - f.retries;
      && Count(Retry, Outcomes(f, scans)[..k]) == left
      && scans[k].check > f.enteredAt + Times(left + 1, t)
      && scans[k].check <= f.enteredAt + Times(left + 1, t + gap) + Times(left, lag)
    decreases k
  {
    var os, f' := Outcomes(f, scans), Scanned(f, scans[0]);
    if k > 0 {
      assert os[0] != Escalate;
      QuietKeepsWaiting(f, floor, since, gap, lag, scans);
      var rest := Outcomes(f', scans[1..]);
      assert os[1..] == rest;
      assert forall j :: 0 <= j < k - 1 ==> rest[j] == os[j + 1];
      assert os[..k] == [os[0]] + rest[..k - 1];
      EscalationTime(f', scans[0].reset, scans[0].check, gap, lag, scans[1..], k - 1);
    } else {
      assert Times(1, Timeout(f.state)) == Timeout(f.state);
      assert Times(1, Timeout(f.state) + gap) == Timeout(f.state) + gap;
    }
  }

  /** ... and it does come: without one, no scan is later than the bound. */
  lemma {:induction false} NoEscalationIsEarly(f: Fsm, floor: Time, since: Time, gap: Time, lag: Time,
                                               scans: seq<Reading>, i: nat)
    requires Waiting(f, floor, since) && Spaced(floor, since, gap, lag, scans) && i < |scans| && lag >= 0 && gap >= 0
    requires forall j :: 0 <= j < |scans| ==> Outcomes(f, scans)[j] != Escalate
    ensures
      var left := MAX_RETRIES - f.retries;
      scans[i].check <= f.enteredAt + Times(left + 1, Timeout(f.state) + gap) + Times(left, lag)
    decreases i
  {
    var os, f' := Outcomes(f, scans), Scanned(f, scans[0]);
    var left, t := MAX_RETRIES - f.retries, Timeout(f.state);
    assert os[0] != Escalate;
    assert Times(left + 1, t + gap) == t + gap + Times(left, t + gap);
    TimesNonNegative(left, t + gap);
    TimesNonNegative(left, lag);
    if i > 0 {
      QuietKeepsWaiting(f, floor, since, gap, lag, scans);
      assert forall j :: 0 <= j < |scans| - 1 ==> Outcomes(f', scans[1..])[j] == os[j + 1];
      NoEscalationIsEarly(f', scans[0].reset, scans[0].check, gap, lag, scans[1..], i - 1);
    }
  }

  lemma {:induction false} TimesNonNegative(n: nat, t: Time)
    requires t >= 0
    ensures Times(n, t) >= 0
  {
    if n > 0 {
      TimesNonNegative(n - 1, t);
    }
  }

  /** Once escalated, an unattended incident is escalated again at every later scan. */
  lemma {:induction false} EscalatesForEver(f: Fsm, floor: Time, since: Time, gap: Time, lag: Time,
                                            scans: seq<Reading>, k: nat, j: nat)
    requires Spaced(floor, since, gap, lag, scans) && k <= j < |scans| && Outcomes(f, scans)[k] == Escalate
    ensures Outcomes(f, scans)[j] == Escalate
    decreases j
  {
    if k > 0 {
      EscalatesForEver(Scanned(f, scans[0]), scans[0].reset, scans[0].check, gap, lag, scans[1..], k - 1, j - 1);
    } else if j > 0 {
      assert scans[1..] != [];
      assert scans[1..][0].check >= scans[0].reset;
      assert Outcomes(f, scans[1..])[0] == Escalate;
      EscalatesForEver(f, scans[0].reset, scans[0].check, gap, lag, scans[1..], 0, j - 1);
    }
  }

  /** An incident that enters a state and is then only scanned, at most `gap` apart: it gets exactly the
      maximal number of retries before its first escalation, which comes after that many and one timeouts,
      and at the latest one scan gap later for each. */
  lemma {:induction false} UnattendedIncident(f: Fsm, gap: Time, scans: seq<Reading>)
    requires !IsTerminal(f.state) && f.retries == 0 && gap >= 0
    requires Spaced(f.enteredAt, f.enteredAt, gap, 0, scans)
    ensures forall k: nat :: FirstEscalation(Outcomes(f, scans), k) ==>
      && Count(Retry, Outcomes(f, scans)[..k]) == MAX_RETRIES
      && scans[k].check > f.enteredAt + (MAX_RETRIES + 1) * Timeout(f.state)
      && scans[k].check <= f.enteredAt + (MAX_RETRIES + 1) * (Timeout(f.state) + gap)
    ensures forall i ::
      0 <= i < |scans| && scans[i].check > f.enteredAt + (MAX_RETRIES + 1) * (Timeout(f.state) + gap) ==>
        exists k: nat :: FirstEscalation(Outcomes(f, scans), k)
  {
    var os := Outcomes(f, scans);
    ThreeTimes(Timeout(f.state), gap);
    forall k: nat | FirstEscalation(os, k)
      ensures
        && Count(Retry, os[..k]) == MAX_RETRIES
        && scans[k].check > f.enteredAt + (MAX_RETRIES + 1) * Timeout(f.state)
        && scans[k].check <= f.enteredAt + (MAX_RETRIES + 1) * (Timeout(f.state) + gap)
    {
      EscalationTime(f, f.enteredAt, f.enteredAt, gap, 0, scans, k);
    }
    if !exists k: nat :: FirstEscalation(os, k) {
      NoFirstMeansNone(os);
      forall i | 0 <= i < |scans|
        ensures scans[i].check <= f.enteredAt + (MAX_RETRIES + 1) * (Timeout(f.state) + gap)
      {
        NoEscalationIsEarly(f, f.enteredAt, f.enteredAt, gap, 0, scans, i);
      }
    }
  }

  lemma {:induction false} ThreeTimes(t: Time, gap: Time)
    ensures Times(3, t) == 3 * t && Times(3, t + gap) == 3 * (t + gap) && Times(2, 0) == 0
  {
    assert Times(1, t) == t && Times(2, t) == t + t;
    assert Times(1, t + gap) == t + gap && Times(2, t + gap) == t + gap + (t + gap);
    assert Times(1, 0) == 0;
  }

  lemma {:induction false} NoFirstMeansNone(os: seq<Outcome>)
    requires !exists k: nat :: FirstEscalation(os, k)
    ensures forall j :: 0 <= j < |os| ==> os[j] != Escalate
  {
    var j := 0;
    while j < |os|
      invariant 0 <= j <= |os|
      invariant forall i :: 0 <= i < j ==> os[i] != Escalate
    {
      assert !FirstEscalation(os, j);
      j := j + 1;
    }
  }
}
