/** What a restart does to resolved incidents. */
module Restarts {
  import opened Windows
  import opened IncidentFsm
  import opened Escalation
  import opened Orchestrator
  import opened OrchestratorRuns

  /** States and the events between them, restarts included. */
  ghost predicate IsTrace(states: seq<Orch>, events: seq<Event>) {
    && |states| == |events| + 1
    && forall i :: 0 <= i < |events| ==> CanOccur(states[i], events[i]) && states[i + 1] == Step(states[i], events[i])
  }

  predicate Pends(e: Event, id: Id) {
    e.Deliver? && e.id == id && e.msg == SafetyDecision(VerdictPending)
  }

  /** The machine is resolved; the row has the given status. */
  predicate ResolvedWith(o: Orch, id: Id, status: State) {
    id in o.fsms && o.fsms[id].state == Resolved && id in o.db && o.db[id].status == status
  }

  /** There is no machine, and the row is resolved. */
  predicate AtRest(o: Orch, id: Id) {
    id !in o.fsms && id in o.db && o.db[id].status == Resolved
  }

  /** A message to a resolved incident changes at most its row, and only a pending decision does. */
  lemma {:induction false} MessageToResolved(o: Orch, id: Id, msg: Message, now: Time, status: State)
    requires ResolvedWith(o, id, status)
    ensures
      var status' := if msg == SafetyDecision(VerdictPending) then SafetyReview else status;
      ResolvedWith(Handle(o, id, msg, now), id, status')
  {}

  lemma {:induction false} MessageToOther(o: Orch, k: Id, msg: Message, now: Time, id: Id, status: State)
    requires k != id && ResolvedWith(o, id, status)
    ensures ResolvedWith(Handle(o, k, msg, now), id, status)
  {
    HandleTouchesOne(o, k, msg, now);
  }

  /** What any event but a restart does to a resolved incident. */
  lemma {:induction false} EventOnResolved(o: Orch, e: Event, id: Id, status: State)
    requires Inv(o) && CanOccur(o, e) && ResolvedWith(o, id, status) && e != Restart
    ensures ResolvedWith(Step(o, e), id, if Pends(e, id) then SafetyReview else status)
  {
    match e {
      case Deliver(k, msg, now) =>
        if k == id {
          MessageToResolved(o, id, msg, now, status);
        } else {
          MessageToOther(o, k, msg, now, id, status);
        }
      case _ => ResolvedIsAbsorbing(o, e, id);
    }
  }

  /** The row of a resolved incident stays resolved unless a pending decision is delivered for it. */
  lemma {:induction false} RowRewrittenIff(o: Orch, e: Event, id: Id)
    requires Inv(o) && CanOccur(o, e) && ResolvedWith(o, id, Resolved)
    ensures id in Step(o, e).db && (Step(o, e).db[id].status != Resolved <==> Pends(e, id))
  {
    if e != Restart {
      EventOnResolved(o, e, id, Resolved);
    }
  }

  /** An incident without a machine whose row is resolved is never taken up again. */
  lemma {:induction false} RestStays(o: Orch, e: Event, id: Id)
    requires Inv(o) && CanOccur(o, e) && AtRest(o, id)
    ensures AtRest(Step(o, e), id)
  {
    if e.Deliver? {
      HandleTouchesOne(o, e.id, e.msg, e.now);
    }
  }

  lemma {:induction false} TraceTail(states: seq<Orch>, events: seq<Event>)
    requires IsTrace(states, events) && events != [] && Inv(states[0])
    ensures IsTrace(states[1..], events[1..]) && Inv(states[1])
    ensures CanOccur(states[0], events[0]) && states[1] == Step(states[0], events[0])
  {
    StepKeepsInv(states[0], events[0]);
    var us, es := states[1..], events[1..];
    forall i | 0 <= i < |es|
      ensures CanOccur(us[i], es[i]) && us[i + 1] == Step(us[i], es[i])
    {
      assert CanOccur(states[i + 1], events[i + 1]);
    }
  }

  // --- The next restart --------------------------------------------------------------------------

  ghost predicate PendsWithin(events: seq<Event>, id: Id) {
    exists i :: 0 <= i < |events| && Pends(events[i], id)
  }

  lemma {:induction false} PendsFirstOrLater(events: seq<Event>, id: Id)
    requires events != []
    ensures PendsWithin(events, id) <==> Pends(events[0], id) || PendsWithin(events[1..], id)
  {
    if PendsWithin(events, id) && !Pends(events[0], id) {
      var i :| 0 <= i < |events| && Pends(events[i], id);
      assert events[1..][i - 1] == events[i];
    }
    if PendsWithin(events[1..], id) {
      var i :| 0 <= i < |events[1..]| && Pends(events[1..][i], id);
      assert events[i + 1] == events[1..][i];
    }
  }

  ghost predicate RestartsWithin(events: seq<Event>) {
    exists j :: 0 <= j < |events| && events[j] == Restart
  }

  lemma {:induction false} RestartsFirstOrLater(events: seq<Event>)
    requires events != []
    ensures RestartsWithin(events) <==> events[0] == Restart || RestartsWithin(events[1..])
  {
    if RestartsWithin(events) && events[0] != Restart {
      var j :| 0 <= j < |events| && events[j] == Restart;
      assert events[1..][j - 1] == events[j];
    }
    if RestartsWithin(events[1..]) {
      var j :| 0 <= j < |events[1..]| && events[1..][j] == Restart;
      assert events[j + 1] == events[1..][j];
    }
  }

  lemma {:induction false} FirstStep(states: seq<Orch>, events: seq<Event>, id: Id, status: State)
    requires IsTrace(states, events) && Inv(states[0]) && ResolvedWith(states[0], id, status)
    requires events != [] && events[0] != Restart
    ensures IsTrace(states[1..], events[1..]) && Inv(states[1])
    ensures ResolvedWith(states[1], id, if Pends(events[0], id) then SafetyReview else status)
  {
    TraceTail(states, events);
    EventOnResolved(states[0], events[0], id, status);
  }

  lemma {:induction false} InvAlong(states: seq<Orch>, events: seq<Event>, i: nat)
    requires IsTrace(states, events) && Inv(states[0]) && i < |states|
    ensures Inv(states[i])
  {
    if i > 0 {
      InvAlong(states, events, i - 1);
      StepKeepsInv(states[i - 1], events[i - 1]);
    }
  }

  ghost predicate KeepsRow(o: Orch, e: Event, o': Orch, id: Id) {
    forall status :: ResolvedWith(o, id, status) ==> ResolvedWith(o', id, if Pends(e, id) then SafetyReview else status)
  }

  /** Each state follows from the one before as far as a resolved incident is concerned. */
  ghost predicate RowsFollow(states: seq<Orch>, events: seq<Event>, id: Id)
    requires |states| == |events| + 1
  {
    forall i :: 0 <= i < |events| ==> KeepsRow(states[i], events[i], states[i + 1], id)
  }

  lemma {:induction false} TracesFollow(states: seq<Orch>, events: seq<Event>, id: Id)
    requires IsTrace(states, events) && Inv(states[0]) && !RestartsWithin(events)
    ensures RowsFollow(states, events, id)
  {
    forall i | 0 <= i < |events|
      ensures KeepsRow(states[i], events[i], states[i + 1], id)
    {
      InvAlong(states, events, i);
      forall status | ResolvedWith(states[i], id, status)
        ensures ResolvedWith(states[i + 1], id, if Pends(events[i], id) then SafetyReview else status)
      {
        EventOnResolved(states[i], events[i], id, status);
      }
    }
  }

  lemma {:induction false} LastRow(states: seq<Orch>, events: seq<Event>, id: Id, status: State)
    requires |states| == |events| + 1 && RowsFollow(states, events, id) && ResolvedWith(states[0], id, status)
    ensures ResolvedWith(states[|states| - 1], id, if PendsWithin(events, id) then SafetyReview else status)
    decreases |events|
  {
    if events != [] {
      var us, es := states[1..], events[1..];
      PendsFirstOrLater(events, id);
      assert KeepsRow(states[0], events[0], states[1], id);
      forall i | 0 <= i < |es|
        ensures KeepsRow(us[i], es[i], us[i + 1], id)
      {
        assert KeepsRow(states[i + 1], events[i + 1], states[i + 2], id);
      }
      LastRow(us, es, id, if Pends(events[0], id) then SafetyReview else status);
    }
  }

  lemma {:induction false} RowAtTheEnd(states: seq<Orch>, events: seq<Event>, id: Id, status: State)
    requires IsTrace(states, events) && Inv(states[0]) && ResolvedWith(states[0], id, status)
    requires !RestartsWithin(events)
    ensures ResolvedWith(states[|states| - 1], id, if PendsWithin(events, id) then SafetyReview else status)
  {
    TracesFollow(states, events, id);
    LastRow(states, events, id, status);
  }

  /** Without a restart so far, the next restart rebuilds a resolved incident exactly when a pending decision was
      delivered for it meanwhile. */
  lemma {:induction false} RebuiltByNextRestartIff(states: seq<Orch>, events: seq<Event>, id: Id)
    requires IsTrace(states, events) && Inv(states[0]) && ResolvedWith(states[0], id, Resolved)
    requires !RestartsWithin(events)
    ensures id in Recovered(states[|states| - 1].db) <==> PendsWithin(events, id)
  {
    RowAtTheEnd(states, events, id, Resolved);
  }

  // --- Any number of restarts --------------------------------------------------------------------

  /** At some time the incident has a machine that is not resolved. */
  ghost predicate Revived(states: seq<Orch>, id: Id) {
    exists k :: 0 <= k < |states| && id in states[k].fsms && states[k].fsms[id].state != Resolved
  }

  /** A pending decision before the first restart, and a restart after it. */
  ghost predicate PendsThenRestarts(events: seq<Event>, id: Id) {
    exists i :: 0 <= i < |events| && PendsFirst(events, id, i)
  }

  ghost predicate PendsFirst(events: seq<Event>, id: Id, i: nat)
    requires i < |events|
  {
    && Pends(events[i], id) && (forall k :: 0 <= k < i ==> events[k] != Restart)
    && RestartsWithin(events[i + 1..])
  }

  lemma {:induction false} RevivedFirstOrLater(states: seq<Orch>, id: Id)
    requires |states| > 1 && (id in states[0].fsms ==> states[0].fsms[id].state == Resolved)
    ensures Revived(states, id) <==> Revived(states[1..], id)
  {
    if Revived(states, id) {
      var k :| 0 <= k < |states| && id in states[k].fsms && states[k].fsms[id].state != Resolved;
      assert states[1..][k - 1] == states[k];
    }
    if Revived(states[1..], id) {
      var k :| 0 <= k < |states[1..]| && id in states[1..][k].fsms && states[1..][k].fsms[id].state != Resolved;
      assert states[k + 1] == states[1..][k];
    }
  }

  lemma {:induction false} AtRestIsNotRevived(states: seq<Orch>, events: seq<Event>, id: Id)
    requires IsTrace(states, events) && Inv(states[0]) && AtRest(states[0], id)
    ensures !Revived(states, id)
    decreases |events|
  {
    if events != [] {
      TraceTail(states, events);
      RestStays(states[0], events[0], id);
      AtRestIsNotRevived(states[1..], events[1..], id);
      RevivedFirstOrLater(states, id);
    }
  }

  /** A rewritten row is taken up by the first restart. */
  lemma {:induction false} RewrittenRevivedIff(states: seq<Orch>, events: seq<Event>, id: Id)
    requires IsTrace(states, events) && Inv(states[0]) && ResolvedWith(states[0], id, SafetyReview)
    ensures Revived(states, id) <==> RestartsWithin(events)
    decreases |events|
  {
    if events != [] {
      TraceTail(states, events);
      RestartsFirstOrLater(events);
      if events[0] == Restart {
        assert id in states[1].fsms && states[1].fsms[id].state != Resolved;
      } else {
        FirstStep(states, events, id, SafetyReview);
        RewrittenRevivedIff(states[1..], events[1..], id);
        RevivedFirstOrLater(states, id);
      }
    }
  }

  lemma {:induction false} PendsLater(events: seq<Event>, id: Id)
    requires events != [] && events[0] != Restart && !Pends(events[0], id)
    ensures PendsThenRestarts(events, id) <==> PendsThenRestarts(events[1..], id)
  {
    var rest := events[1..];
    forall i | 1 <= i < |events|
      ensures PendsFirst(events, id, i) == PendsFirst(rest, id, i - 1)
    {
      assert events[i + 1..] == rest[i..] && rest[i - 1] == events[i];
      assert forall k :: 0 <= k < |rest| ==> rest[k] == events[k + 1];
      assert (forall k :: 0 <= k < i ==> events[k] != Restart)
        <==> (forall k :: 0 <= k < i - 1 ==> rest[k] != Restart) by {
        if forall k :: 0 <= k < i - 1 ==> rest[k] != Restart {
          forall k | 0 <= k < i
            ensures events[k] != Restart
          {
            assert k > 0 ==> rest[k - 1] == events[k];
          }
        }
      }
    }
    if PendsThenRestarts(rest, id) {
      var i :| 0 <= i < |rest| && PendsFirst(rest, id, i);
      assert PendsFirst(events, id, i + 1);
    }
  }

  lemma {:induction false} PendsNow(events: seq<Event>, id: Id)
    requires events != [] && Pends(events[0], id)
    ensures PendsThenRestarts(events, id) <==> RestartsWithin(events[1..])
  {
    if PendsThenRestarts(events, id) {
      var i :| 0 <= i < |events| && PendsFirst(events, id, i);
      var j :| 0 <= j < |events[i + 1..]| && events[i + 1..][j] == Restart;
      assert events[1..][i + j] == Restart;
    }
    if RestartsWithin(events[1..]) {
      assert PendsFirst(events, id, 0);
    }
  }

  /** Over any run with any number of restarts, a resolved incident is taken up again exactly when a pending decision
      is delivered for it before the first restart, and a restart follows. */
  lemma {:induction false} RevivedIff(states: seq<Orch>, events: seq<Event>, id: Id)
    requires IsTrace(states, events) && Inv(states[0]) && ResolvedWith(states[0], id, Resolved)
    ensures Revived(states, id) <==> PendsThenRestarts(events, id)
    decreases |events|
  {
    if events != [] {
      TraceTail(states, events);
      RevivedFirstOrLater(states, id);
      if events[0] != Restart {
        FirstStep(states, events, id, Resolved);
      }
      if events[0] == Restart {
        AtRestIsNotRevived(states[1..], events[1..], id);
      } else if Pends(events[0], id) {
        PendsNow(events, id);
        RewrittenRevivedIff(states[1..], events[1..], id);
      } else {
        PendsLater(events, id);
        RevivedIff(states[1..], events[1..], id);
      }
    }
  }
}
