/** The incident timeline and the postmortem's time per event type. */
module Timeline {
  import opened Windows
  import opened Actions
  import opened Accounts

  /** What the timestamp of an entry parses to; two stamps can be subtracted only when both or neither
      carry a time zone. */
  datatype Stamp = Unreadable | Naive(at: Time) | Aware(at: Time)

  type Details = map<string, string>

  datatype Event = Event(kind: Option<string>, agent: string, summary: string, details: Details, stamp: Stamp)

  datatype Postmortem = Postmortem(duration: Option<Time>, stateDurations: map<string, Time>,
                                   keyDecisions: seq<Event>, totalEvents: nat)

  function Gap(a: Stamp, b: Stamp): Option<Time> {
    if (a.Naive? && b.Naive?) || (a.Aware? && b.Aware?) then Some(b.at - a.at) else None
  }

  function KindOf(e: Event): string {
    if e.kind.Some? then e.kind.value else "unknown"
  }

  /** The measurable gaps between neighbours, each posted under the type of the earlier event. */
  function Gaps(events: seq<Event>): seq<Post> {
    if |events| < 2 then []
    else
      var n, front := |events| - 1, Gaps(events[..|events| - 1]);
      match Gap(events[n - 1].stamp, events[n].stamp)
      case Some(g) => front + [Post(KindOf(events[n - 1]), g)]
      case None => front
  }

  predicate IsKeyDecision(e: Event) {
    e.kind in {Some("safety_approved"), Some("safety_rejected"), Some("escalated")}
  }

  function KeyDecisions(events: seq<Event>): seq<Event> {
    if events == [] then []
    else
      var front, last := KeyDecisions(events[..|events| - 1]), events[|events| - 1];
      if IsKeyDecision(last) then front + [last] else front
  }

  /** The durations of the first `m` events. */
  ghost function DurationsOf(events: seq<Event>, m: nat): map<string, Time>
    requires m <= |events|
  {
    Totals(Gaps(events[..m]))
  }

  /** How many of `n` events the first `i` rounds of the loop have looked at: a round looks one event ahead. */
  ghost function Seen(i: nat, n: nat): nat {
    if i < n then i + 1 else i
  }

  lemma {:induction false} DurationsEnds(events: seq<Event>)
    ensures DurationsOf(events, 0) == map[] && (events != [] ==> DurationsOf(events, 1) == map[])
    ensures DurationsOf(events, |events|) == Totals(Gaps(events))
  {
    assert events[..|events|] == events;
  }

  class TimelineBuilder {
    var timeline: seq<Event>

    constructor ()
      ensures timeline == []
    {
      timeline := [];
    }

    method AddEvent(kind: string, agent: string, summary: string, details: Option<Details>, now: Time)
      modifies this
      ensures |timeline| == |old(timeline)| + 1 && timeline[..|old(timeline)|] == old(timeline)
      ensures
        var event := timeline[|old(timeline)|];
        && event.kind == Some(kind) && event.agent == agent && event.summary == summary
        && event.details == (if details == None then map[] else details.value) && event.stamp == Aware(now)
    {
      var event := Event(Some(kind), agent, summary, if details.Some? then details.value else map[], Aware(now));
      timeline := timeline + [event];
    }

    method StateDurations() returns (stateDurations: map<string, Time>)
      ensures stateDurations == Totals(Gaps(timeline))
    {
      stateDurations := map[];
      DurationsEnds(timeline);
      for i := 0 to |timeline|
        invariant stateDurations == DurationsOf(timeline, Seen(i, |timeline|))
      {
        if i + 1 < |timeline| {
          TotalsSnoc(timeline, i + 1);
          var gap := Gap(timeline[i].stamp, timeline[i + 1].stamp);
          if gap.Some? {
            var state := KindOf(timeline[i]);
            stateDurations :=
              stateDurations[state := (if state in stateDurations then stateDurations[state] else 0) + gap.value];
          }
        }
      }
    }

    method GeneratePostmortem(createdAt: Stamp, resolvedAt: Stamp) returns (p: Postmortem)
      ensures p.duration == Gap(createdAt, resolvedAt)
      ensures p.stateDurations == Totals(Gaps(timeline))
      ensures p.keyDecisions == KeyDecisions(timeline) && p.totalEvents == |timeline|
    {
      var stateDurations := StateDurations();
      return Postmortem(Gap(createdAt, resolvedAt), stateDurations, KeyDecisions(timeline), |timeline|);
    }
  }

  lemma {:induction false} GapsSnoc(events: seq<Event>, n: nat)
    requires 1 <= n < |events|
    ensures Gaps(events[..n + 1])
         == match Gap(events[n - 1].stamp, events[n].stamp)
            case Some(g) => Gaps(events[..n]) + [Post(KindOf(events[n - 1]), g)]
            case None => Gaps(events[..n])
  {
    assert events[..n + 1][..n] == events[..n];
  }

  lemma {:induction false} TotalsSnoc(events: seq<Event>, n: nat)
    requires 1 <= n < |events|
    ensures
      var d, k := DurationsOf(events, n), KindOf(events[n - 1]);
      DurationsOf(events, n + 1)
      == match Gap(events[n - 1].stamp, events[n].stamp)
         case Some(g) => d[k := (if k in d then d[k] else 0) + g]
         case None => d
  {
    GapsSnoc(events, n);
    var gap := Gap(events[n - 1].stamp, events[n].stamp);
    if gap.Some? {
      PostKeepsTotals(Gaps(events[..n]), Post(KindOf(events[n - 1]), gap.value));
    }
  }

  // --- The durations event by event --------------------------------------------------------------

  /** An event without a type counts as "unknown". */
  ghost predicate IsOfType(e: Event, kind: string) {
    e.kind == Some(kind) || (e.kind == None && kind == "unknown")
  }

  /** The stamps of this event and of the next are both with, or both without, a time zone. */
  ghost predicate IsMeasured(events: seq<Event>, i: nat)
    requires i + 1 < |events|
  {
    || (events[i].stamp.Aware? && events[i + 1].stamp.Aware?)
    || (events[i].stamp.Naive? && events[i + 1].stamp.Naive?)
  }

  /** The time from each measured event of a type to the event after it, over the first `n` events. */
  ghost function TimeIn(events: seq<Event>, kind: string, n: nat): Time
    requires n <= |events|
  {
    if n < 2 then 0
    else
      TimeIn(events, kind, n - 1)
      + if IsOfType(events[n - 2], kind) && IsMeasured(events, n - 2)
        then events[n - 1].stamp.at - events[n - 2].stamp.at else 0
  }

  ghost predicate HasTime(events: seq<Event>, kind: string, n: nat)
    requires n <= |events|
  {
    exists i: nat :: i + 1 < n && IsOfType(events[i], kind) && IsMeasured(events, i)
  }

  lemma {:induction false} DurationsUpTo(events: seq<Event>, kind: string, n: nat)
    requires 1 <= n <= |events|
    ensures
      var d := DurationsOf(events, n);
      && (kind in d <==> HasTime(events, kind, n))
      && (if kind in d then d[kind] else 0) == TimeIn(events, kind, n)
  {
    if n == 1 {
      DurationsEnds(events);
    } else {
      DurationsUpTo(events, kind, n - 1);
      TotalsSnoc(events, n - 1);
      assert HasTime(events, kind, n)
        <==> HasTime(events, kind, n - 1) || (IsOfType(events[n - 2], kind) && IsMeasured(events, n - 2));
    }
  }

  /** The postmortem has an entry for exactly the types that were measured at least once, and it is the time from each
      such event to the one after it; a missing type is "unknown". */
  lemma {:induction false} DurationsAreTimes(events: seq<Event>, kind: string)
    ensures
      var d := Totals(Gaps(events));
      && (kind in d <==> HasTime(events, kind, |events|))
      && (kind in d ==> d[kind] == TimeIn(events, kind, |events|))
  {
    DurationsEnds(events);
    if events != [] {
      DurationsUpTo(events, kind, |events|);
    }
  }

  /** They come in the order in which they happened. */
  lemma {:induction false} KeyDecisionsInOrder(events: seq<Event>, e: Event)
    ensures KeyDecisions([]) == []
    ensures KeyDecisions(events + [e])
         == KeyDecisions(events)
            + if e.kind in {Some("safety_approved"), Some("safety_rejected"), Some("escalated")} then [e] else []
  {
    assert (events + [e])[..|events|] == events;
  }

  /** The key decisions are the approvals, rejections and escalations, each as often as it happened. */
  lemma {:induction false} KeyDecisionsAre(events: seq<Event>)
    ensures |KeyDecisions(events)| <= |events|
    ensures forall e ::
      multiset(KeyDecisions(events))[e]
      == if e.kind in {Some("safety_approved"), Some("safety_rejected"), Some("escalated")} then multiset(events)[e]
         else 0
  {
    if events != [] {
      var front, last := events[..|events| - 1], events[|events| - 1];
      KeyDecisionsAre(front);
      assert events == front + [last];
    }
  }

  /** Every entry carries a time zone, and time does not go back. */
  ghost predicate Chronicle(events: seq<Event>) {
    && (forall i :: 0 <= i < |events| ==> events[i].stamp.Aware?)
    && (forall i, j :: 0 <= i < j < |events| ==> events[i].stamp.at <= events[j].stamp.at)
  }

  datatype Addition = Addition(kind: string, agent: string, summary: string, details: Option<Details>, now: Time)

  /** The timeline after a run of `AddEvent` calls. */
  function Built(calls: seq<Addition>): (events: seq<Event>)
    ensures |events| == |calls|
    ensures forall i :: 0 <= i < |calls| ==>
      events[i].stamp == Aware(calls[i].now) && events[i].kind == Some(calls[i].kind)
  {
    if calls == [] then []
    else
      var last := calls[|calls| - 1];
      Built(calls[..|calls| - 1])
      + [Event(Some(last.kind), last.agent, last.summary, if last.details.Some? then last.details.value else map[],
               Aware(last.now))]
  }

  lemma {:induction false} ChronicleSnoc(events: seq<Event>, n: nat)
    requires Chronicle(events) && 1 <= n < |events|
    ensures events[n].stamp.at >= events[n - 1].stamp.at
    ensures Gaps(events[..n + 1])
         == Gaps(events[..n]) + [Post(KindOf(events[n - 1]), events[n].stamp.at - events[n - 1].stamp.at)]
    ensures SumAll(Gaps(events[..n + 1])) == SumAll(Gaps(events[..n])) + events[n].stamp.at - events[n - 1].stamp.at
  {
    GapsSnoc(events, n);
    Snoc(Gaps(events[..n]), Post(KindOf(events[n - 1]), events[n].stamp.at - events[n - 1].stamp.at));
  }

  lemma {:induction false} GapsTelescopeUpTo(events: seq<Event>, n: nat)
    requires Chronicle(events) && 1 <= n <= |events|
    ensures SumAll(Gaps(events[..n])) == events[n - 1].stamp.at - events[0].stamp.at
    ensures forall i :: 0 <= i < |Gaps(events[..n])| ==> Gaps(events[..n])[i].amount >= 0
  {
    if n > 1 {
      GapsTelescopeUpTo(events, n - 1);
      ChronicleSnoc(events, n - 1);
    }
  }

  lemma {:induction false} GapsTelescope(events: seq<Event>)
    requires Chronicle(events) && events != []
    ensures SumAll(Gaps(events)) == events[|events| - 1].stamp.at - events[0].stamp.at
    ensures forall i :: 0 <= i < |Gaps(events)| ==> Gaps(events)[i].amount >= 0
  {
    assert events[..|events|] == events;
    GapsTelescopeUpTo(events, |events|);
  }

  /** The durations of a timeline built by `AddEvent` under a clock that does not go back are non-negative and
      add up, over all event types, to the time from the first event to the last. */
  lemma {:induction false} DurationsPartitionTheTime(calls: seq<Addition>)
    requires calls != [] && forall i, j :: 0 <= i < j < |calls| ==> calls[i].now <= calls[j].now
    ensures
      var gaps := Gaps(Built(calls));
      && (forall k :: k in Totals(gaps) ==> Totals(gaps)[k] >= 0)
      && SumOver(Keys(gaps), gaps) == calls[|calls| - 1].now - calls[0].now
  {
    var events := Built(calls);
    GapsTelescope(events);
    EntriesAddUp(Gaps(events));
    forall k {
      EntriesAreNonNegative(Gaps(events), k);
    }
  }

  /** The last readable stamp, if there is one. */
  function LastReadable(events: seq<Event>): Option<Time> {
    if events == [] then None
    else if events[|events| - 1].stamp.Aware? then Some(events[|events| - 1].stamp.at)
    else LastReadable(events[..|events| - 1])
  }

  /** Entries may be unreadable; the readable ones are in order. */
  ghost predicate PatchyChronicle(events: seq<Event>) {
    && (forall i :: 0 <= i < |events| ==> !events[i].stamp.Naive?)
    && (forall i, j :: 0 <= i < j < |events| && events[i].stamp.Aware? && events[j].stamp.Aware? ==>
          events[i].stamp.at <= events[j].stamp.at)
  }

  ghost predicate Apart(events: seq<Event>) {
    forall i, j :: 0 <= i < j < |events| && events[i].stamp.Aware? && events[j].stamp.Aware? ==>
      events[i].stamp.at != events[j].stamp.at
  }

  lemma {:induction false} LastReadableIsAnEvent(events: seq<Event>)
    requires LastReadable(events).Some?
    ensures exists i :: 0 <= i < |events| && events[i].stamp == Aware(LastReadable(events).value)
  {
    if !events[|events| - 1].stamp.Aware? {
      LastReadableIsAnEvent(events[..|events| - 1]);
    }
  }

  lemma {:induction false} GapsOfOneMore(events: seq<Event>)
    requires |events| > 1 && PatchyChronicle(events)
    ensures
      var n := |events| - 1;
      && PatchyChronicle(events[..n])
      && SumAll(Gaps(events))
         == SumAll(Gaps(events[..n]))
            + if events[n - 1].stamp.Aware? &&
              events[n].stamp.Aware? then events[n].stamp.at - events[n - 1].stamp.at else 0
  {
    var n := |events| - 1;
    assert events[..n + 1] == events;
    GapsSnoc(events, n);
    if events[n - 1].stamp.Aware? && events[n].stamp.Aware? {
      Snoc(Gaps(events[..n]), Post(KindOf(events[n - 1]), events[n].stamp.at - events[n - 1].stamp.at));
    }
  }

  /** Time next to an unreadable stamp is counted for no event type: what is counted never exceeds the time
      between the readable ends. */
  lemma {:induction false} UnreadableStampsLoseTime(events: seq<Event>)
    requires PatchyChronicle(events) && events != [] && events[0].stamp.Aware?
    ensures LastReadable(events).Some?
    ensures 0 <= SumAll(Gaps(events)) <= LastReadable(events).value - events[0].stamp.at
  {
    if |events| > 1 {
      var n := |events| - 1;
      UnreadableStampsLoseTime(events[..n]);
      GapsOfOneMore(events);
      if events[n].stamp.Aware? {
        LastReadableIsAnEvent(events[..n]);
      }
    }
  }

  /** Nothing unreadable comes before a readable stamp. */
  ghost predicate Covered(events: seq<Event>) {
    forall i, j :: 0 <= i < j < |events| && events[j].stamp.Aware? ==> events[i].stamp.Aware?
  }

  lemma {:induction false} CoveredOneMore(events: seq<Event>)
    requires |events| > 1 && Covered(events[..|events| - 1])
    requires events[|events| - 1].stamp.Aware? ==> events[|events| - 2].stamp.Aware?
    ensures Covered(events)
  {
    var front := events[..|events| - 1];
    assert forall i :: 0 <= i < |front| ==> front[i] == events[i];
  }

  lemma {:induction false} FullTimeIsCovered(events: seq<Event>)
    requires PatchyChronicle(events) && Apart(events) && events != [] && events[0].stamp.Aware?
    requires LastReadable(events).Some? && SumAll(Gaps(events)) == LastReadable(events).value - events[0].stamp.at
    ensures Covered(events)
  {
    if |events| > 1 {
      var n := |events| - 1;
      GapsOfOneMore(events);
      UnreadableStampsLoseTime(events[..n]);
      LastReadableIsAnEvent(events[..n]);
      FullTimeIsCovered(events[..n]);
      CoveredOneMore(events);
    }
  }

  /** With readable ends and distinct readable stamps, the durations cover the whole time exactly when every
      stamp is readable. */
  lemma {:induction false} WholeTimeIff(events: seq<Event>)
    requires PatchyChronicle(events) && Apart(events)
    requires events != [] && events[0].stamp.Aware? && events[|events| - 1].stamp.Aware?
    ensures SumOver(Keys(Gaps(events)), Gaps(events)) == events[|events| - 1].stamp.at - events[0].stamp.at
       <==> forall i :: 0 <= i < |events| ==> events[i].stamp.Aware?
  {
    EntriesAddUp(Gaps(events));
    if SumAll(Gaps(events)) == events[|events| - 1].stamp.at - events[0].stamp.at {
      FullTimeIsCovered(events);
    }
    if forall i :: 0 <= i < |events| ==> events[i].stamp.Aware? {
      GapsTelescope(events);
    }
  }
}
