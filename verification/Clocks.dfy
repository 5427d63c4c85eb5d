/** Where the clock of an incident's machine stands in any run, and so when a scan leaves the incident alone. */
module Clocks {
  import opened Windows
  import opened IncidentFsm
  import opened Escalation
  import opened Orchestrator
  import opened OrchestratorRuns

  /** A run with its events. */
  ghost predicate IsLabelledRun(states: seq<Orch>, events: seq<Event>) {
    && |states| == |events| + 1 && states[0] == EMPTY
    && forall i :: 0 <= i < |events| ==> CanOccur(states[i], events[i]) && states[i + 1] == Step(states[i], events[i])
  }

  lemma {:induction false} FrontIsLabelled(states: seq<Orch>, events: seq<Event>)
    requires IsLabelledRun(states, events) && events != []
    ensures IsLabelledRun(states[..|states| - 1], events[..|events| - 1])
    ensures
      var o, e := states[|states| - 2], events[|events| - 1];
      CanOccur(o, e) && states[|states| - 1] == Step(o, e)
  {
    var front, rest := states[..|states| - 1], events[..|events| - 1];
    forall i | 0 <= i < |rest|
      ensures CanOccur(front[i], rest[i]) && front[i + 1] == Step(front[i], rest[i])
    {
      assert CanOccur(states[i], events[i]);
    }
  }

  // --- The clock of a machine --------------------------------------------------------------------

  /** The machine is new, has changed its state, or has a retry more or less. */
  predicate Touched(o: Orch, o': Orch, id: Id) {
    && id in o'.fsms
    && (id !in o.fsms || o'.fsms[id].state != o.fsms[id].state || o'.fsms[id].retries != o.fsms[id].retries)
  }

  /** When an event that concerns the incident happens; of a scan, when it resets the clock. */
  function TimeOf(e: Event, id: Id): Time {
    match e
    case Deliver(_, _, now) => now
    case Scan(_, readings) => if id in readings then readings[id].reset else 0
    case AgentDied(_, _) => 0
    case Restart => 0
  }

  /** The time of the last event that touched the machine; a restart takes the row's time over. */
  ghost function ClockOf(states: seq<Orch>, events: seq<Event>, id: Id): Time
    requires |states| == |events| + 1
    decreases |events|
  {
    if events == [] then 0
    else
      var o, o', e := states[|states| - 2], states[|states| - 1], events[|events| - 1];
      if e == Restart && id in o.db then o.db[id].enteredAt
      else if Touched(o, o', id) then TimeOf(e, id)
      else ClockOf(states[..|states| - 1], events[..|events| - 1], id)
  }

  lemma {:induction false} KnownTouches(o: Orch, id: Id, msg: Message, now: Time)
    requires id in o.fsms
    ensures
      var o' := HandleKnown(o, id, o.fsms[id], msg, now);
      && id in o'.fsms
      && o'.fsms[id].enteredAt == if Touched(o, o', id) then now else o.fsms[id].enteredAt
  {}

  lemma {:induction false} MessageTouches(o: Orch, k: Id, msg: Message, now: Time, id: Id)
    requires id in Handle(o, k, msg, now).fsms
    ensures
      var o' := Handle(o, k, msg, now);
      && (Touched(o, o', id) ==> o'.fsms[id].enteredAt == now)
      && (!Touched(o, o', id) ==> id in o.fsms && o'.fsms[id].enteredAt == o.fsms[id].enteredAt)
  {
    HandleTouchesOne(o, k, msg, now);
    if k == id && id in o.fsms {
      KnownTouches(o, id, msg, now);
    }
  }

  lemma {:induction false} StepTouches(o: Orch, e: Event, id: Id)
    requires CanOccur(o, e) && e != Restart && id in Step(o, e).fsms
    ensures
      var o' := Step(o, e);
      && (Touched(o, o', id) ==> o'.fsms[id].enteredAt == TimeOf(e, id))
      && (!Touched(o, o', id) ==> id in o.fsms && o'.fsms[id].enteredAt == o.fsms[id].enteredAt)
  {
    if e.Deliver? {
      MessageTouches(o, e.id, e.msg, e.now, id);
    }
  }

  /** In every run the clock of a machine stands at the time of the last change of its state or of its number of
      retries; after a restart, at the time of the row. */
  lemma {:induction false} ClockIsLastTouch(states: seq<Orch>, events: seq<Event>, id: Id)
    requires IsLabelledRun(states, events) && id in states[|states| - 1].fsms
    ensures states[|states| - 1].fsms[id].enteredAt == ClockOf(states, events, id)
    decreases |events|
  {
    FrontIsLabelled(states, events);
    var o, o', e := states[|states| - 2], states[|states| - 1], events[|events| - 1];
    if e != Restart {
      StepTouches(o, e, id);
      if !Touched(o, o', id) {
        ClockIsLastTouch(states[..|states| - 1], events[..|events| - 1], id);
      }
    }
  }

  // --- The time of a row -------------------------------------------------------------------------

  /** The event writes the row: it announces something about the incident, or it is a pending decision about it. */
  ghost predicate Writes(o: Orch, e: Event, id: Id)
    requires CanOccur(o, e)
  {
    e.Deliver? && e.id == id &&
    (Step(o, e).published != o.published || (e.msg == SafetyDecision(VerdictPending) && id in o.fsms))
  }

  ghost predicate RowsAreTimed(o: Orch, e: Event, id: Id)
    requires CanOccur(o, e)
  {
    id in Step(o, e).db ==>
      if Writes(o, e, id) then Step(o, e).db[id].enteredAt == TimeOf(e, id)
      else id in o.db && Step(o, e).db[id] == o.db[id]
  }

  /** A row bears the time of the event that wrote it, and no other event changes it. */
  lemma {:induction false} RowTime(o: Orch, e: Event, id: Id)
    requires CanOccur(o, e)
    ensures RowsAreTimed(o, e, id)
  {
    if e.Deliver? {
      HandleTouchesOne(o, e.id, e.msg, e.now);
      if e.id == id && id in o.fsms {
        KnownWrites(o, id, o.fsms[id], e.msg, e.now);
      }
    }
  }

  lemma {:induction false} KnownWrites(o: Orch, id: Id, f: Fsm, msg: Message, now: Time)
    ensures
      var o' := HandleKnown(o, id, f, msg, now);
      id in o'.db ==>
        id in o.db &&
        if o'.published != o.published || msg == SafetyDecision(VerdictPending) then o'.db[id].enteredAt == now
        else o'.db[id] == o.db[id]
  {}

  // --- When a scan is quiet ----------------------------------------------------------------------

  /** The microseconds an incident may spend in a state. */
  function Allowance(s: State): Time {
    match s
    case Detecting => 120_000_000
    case Diagnosing => 180_000_000
    case ProposingRemediation => 120_000_000
    case SafetyReview => 300_000_000
    case Executing => 180_000_000
    case Verifying => 120_000_000
    case _ => 0
  }

  /** In every run a scan says nothing about an incident exactly if it is resolved or closed, or not longer in its
      state, counted from the last change or retry, than that state allows. Else it counts one of two retries, or
      calls a human. */
  lemma {:induction false} QuietIff(states: seq<Orch>, events: seq<Event>, id: Id, r: Reading)
    requires IsLabelledRun(states, events) && id in states[|states| - 1].fsms
    ensures
      var f := states[|states| - 1].fsms[id];
      var quiet := f.state in {Resolved, Closed} || r.check - ClockOf(states, events, id) <= Allowance(f.state);
      NoticeOf(id, f, r)
      == if quiet then []
         else if f.retries < 2 then [StateRetry(id, f.state, f.retries + 1)]
         else [EscalationToHuman(id, f.state, f.retries)]
  {
    ClockIsLastTouch(states, events, id);
  }

  /** A message that changes the state of an incident gives it the whole time of its new state: every scan up to then is
      quiet and leaves the machine alone, and the first one later counts the first retry. */
  lemma {:induction false} NewStateHasItsTime(o: Orch, id: Id, msg: Message, now: Time, r: Reading)
    requires id in Handle(o, id, msg, now).fsms
    requires id in o.fsms ==> Handle(o, id, msg, now).fsms[id].state != o.fsms[id].state
    requires Handle(o, id, msg, now).fsms[id].state !in {Resolved, Closed}
    ensures
      var f := Handle(o, id, msg, now).fsms[id];
      && (r.check <= now + Allowance(f.state) ==> NoticeOf(id, f, r) == [] && Scanned(f, r) == f)
      && (r.check > now + Allowance(f.state) ==> NoticeOf(id, f, r) == [StateRetry(id, f.state, 1)])
  {
    MessageTouches(o, id, msg, now, id);
    ChangeClearsRetries(o, id, msg, now);
  }

  lemma {:induction false} ChangeClearsRetries(o: Orch, id: Id, msg: Message, now: Time)
    requires id in Handle(o, id, msg, now).fsms
    requires id in o.fsms ==> Handle(o, id, msg, now).fsms[id].state != o.fsms[id].state
    ensures Handle(o, id, msg, now).fsms[id].retries == 0
  {}

  /** An incident diagnosed after 170 seconds is quiet at a scan ten seconds later. */
  lemma {:induction false} LateDiagnosisIsQuiet(o: Orch, id: Id)
    requires id in o.fsms && o.fsms[id].state == Diagnosing
    ensures
      var f := Handle(o, id, DiagnosisResult, 170_000_000).fsms[id];
      NoticeOf(id, f, Reading(180_000_000, 180_000_000)) == []
  {
    assert Handle(o, id, DiagnosisResult, 170_000_000).fsms[id].state == ProposingRemediation;
    NewStateHasItsTime(o, id, DiagnosisResult, 170_000_000, Reading(180_000_000, 180_000_000));
  }
}
