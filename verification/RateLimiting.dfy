/** The rate limiter of the safety agent: an hourly cap and a cooldown per action fingerprint,
    answered from an in-memory log that every check prunes. */
module RateLimiting {
  import opened Windows
  import opened Actions

  /** Type and target identify an action; the hash of the two is taken to be injective. */
  datatype Fingerprint = Fingerprint(kind: Kind, target: Option<Service>)

  datatype Entry = Entry(fp: Fingerprint, at: Time, action: Action)

  datatype Limits = Limits(perHour: int, cooldownMins: int) {
    function Cooldown(): Time { cooldownMins * 60 * SECOND }

    function Cap(): nat { if perHour > 0 then perHour else 0 }
  }

  datatype RateVerdict = Allowed | LimitExceeded(times: nat) | CoolingDown(last: Time)

  /** A missing type counts as an empty one. */
  function FingerprintOf(action: Action): Fingerprint {
    Fingerprint(if action.Kind().Some? then action.Kind().value else OtherKind(""), action.Target())
  }

  function EntryOf(action: Action, at: Time): Entry {
    Entry(FingerprintOf(action), at, action)
  }

  function Prune(log: seq<Entry>, cutoff: Time): seq<Entry> {
    if log == [] then []
    else
      var front := Prune(log[..|log| - 1], cutoff);
      if log[|log| - 1].at > cutoff then front + [log[|log| - 1]] else front
  }

  function Stamps(log: seq<Entry>, fp: Fingerprint): seq<Time> {
    if log == [] then []
    else
      var front := Stamps(log[..|log| - 1], fp);
      if log[|log| - 1].fp == fp then front + [log[|log| - 1].at] else front
  }

  function Latest(ts: seq<Time>): (t: Time)
    requires ts != []
    ensures t in ts && forall u :: u in ts ==> u <= t
  {
    if |ts| == 1 then ts[0]
    else
      assert ts == ts[..|ts| - 1] + [ts[|ts| - 1]];
      var front := Latest(ts[..|ts| - 1]);
      if front > ts[|ts| - 1] then front else ts[|ts| - 1]
  }

  /** The answer for the stamps of one fingerprint, looking back one hour. */
  ghost function Verdict(limits: Limits, ts: seq<Time>, now: Time): RateVerdict {
    var recent := After(ts, now - HOUR);
    if |recent| >= limits.perHour then LimitExceeded(|recent|)
    else if recent != [] && now - Latest(recent) < limits.Cooldown() then CoolingDown(Latest(recent))
    else Allowed
  }

  /** The answer of a limiter that forgets nothing: the cooldown runs from the latest stamp of all. */
  ghost function UnprunedVerdict(limits: Limits, ts: seq<Time>, now: Time): RateVerdict {
    var recent := After(ts, now - HOUR);
    if |recent| >= limits.perHour then LimitExceeded(|recent|)
    else if ts != [] && now - Latest(ts) < limits.Cooldown() then CoolingDown(Latest(ts))
    else Allowed
  }

  lemma {:induction false} StampsOfPruned(log: seq<Entry>, cutoff: Time, fp: Fingerprint)
    ensures Stamps(Prune(log, cutoff), fp) == After(Stamps(log, fp), cutoff)
  {
    if log != [] {
      var front, last := log[..|log| - 1], log[|log| - 1];
      StampsOfPruned(front, cutoff, fp);
      if last.at > cutoff {
        StampsSnoc(Prune(front, cutoff), last, fp);
      }
      if last.fp == fp {
        AfterSnoc(Stamps(front, fp), last.at, cutoff);
      }
    }
  }

  lemma {:induction false} StampsSnoc(log: seq<Entry>, e: Entry, fp: Fingerprint)
    ensures Stamps(log + [e], fp) == if e.fp == fp then Stamps(log, fp) + [e.at] else Stamps(log, fp)
  {
    assert (log + [e])[..|log|] == log;
  }

  lemma {:induction false} PruneSnoc(log: seq<Entry>, e: Entry, cutoff: Time)
    ensures Prune(log + [e], cutoff) == if e.at > cutoff then Prune(log, cutoff) + [e] else Prune(log, cutoff)
  {
    assert (log + [e])[..|log|] == log;
  }

  lemma {:induction false} PrunePrune(log: seq<Entry>, early: Time, late: Time)
    requires early <= late
    ensures Prune(Prune(log, early), late) == Prune(log, late)
  {
    if log != [] {
      var front, last := log[..|log| - 1], log[|log| - 1];
      PrunePrune(front, early, late);
      if last.at > early {
        PruneSnoc(Prune(front, early), last, late);
      }
    }
  }

  /** What an allowed check means: room under the cap, and no recent stamp inside the cooldown. */
  lemma {:induction false} AllowedExactly(limits: Limits, ts: seq<Time>, now: Time)
    ensures Verdict(limits, ts, now) == Allowed
       <==> && |After(ts, now - HOUR)| < limits.perHour
            && (forall t :: t in ts && t > now - HOUR ==> now - t >= limits.Cooldown())
  {
    var recent := After(ts, now - HOUR);
    forall t: Time
      ensures t in recent <==> t in ts && t > now - HOUR
    {
      AfterMember(ts, now - HOUR, t);
    }
    if Verdict(limits, ts, now) == Allowed {
      forall t | t in ts && t > now - HOUR
        ensures now - t >= limits.Cooldown()
      {
        assert t in recent;
      }
    }
  }

  // --- The check in terms of the logged actions ---------------------------------------------------

  /** The log as the limiter writes it: every entry under the fingerprint of its action. */
  ghost predicate IsLog(log: seq<Entry>) {
    forall i :: 0 <= i < |log| ==> log[i].action.Action? && log[i].fp == FingerprintOf(log[i].action)
  }

  /** Same type, where a missing one is the empty one, and same target, where a database stands in for a missing
      target. */
  ghost predicate SameKind(a: Action, b: Action)
    requires a.Action? && b.Action?
  {
    && (a.kind == b.kind || (a.kind in {None, Some(OtherKind(""))} && b.kind in {None, Some(OtherKind(""))}))
    && (if a.target == None then a.targetDb else a.target) == (if b.target == None then b.targetDb else b.target)
  }

  lemma {:induction false} FingerprintsAgreeIff(a: Action, b: Action)
    requires a.Action? && b.Action?
    ensures FingerprintOf(a) == FingerprintOf(b) <==> SameKind(a, b)
  {}

  /** The entries later than `since` whose action has the type and target of `action`. */
  ghost function Alike(log: seq<Entry>, action: Action, since: Time): set<nat>
    requires action.Action? && IsLog(log)
  {
    set i: nat | i < |log| && log[i].at > since && SameKind(log[i].action, action)
  }

  lemma {:induction false} AlikeSnoc(log: seq<Entry>, action: Action, since: Time)
    requires log != [] && action.Action? && IsLog(log)
    ensures
      var front, last := log[..|log| - 1], log[|log| - 1];
      Alike(log, action, since)
      == if last.at > since && SameKind(last.action, action)
         then Alike(front, action, since) + {|log| - 1} else Alike(front, action, since)
  {
    var front := log[..|log| - 1];
    assert forall i :: 0 <= i < |front| ==> front[i] == log[i];
  }

  lemma {:induction false} AlikeAreTheRecent(log: seq<Entry>, action: Action, since: Time)
    requires IsLog(log) && action.Action?
    ensures |Alike(log, action, since)| == |After(Stamps(log, FingerprintOf(action)), since)|
    ensures forall t :: t in After(Stamps(log, FingerprintOf(action)), since)
                   <==> exists i :: i in Alike(log, action, since) && log[i].at == t
  {
    if log != [] {
      var front, last := log[..|log| - 1], log[|log| - 1];
      AlikeAreTheRecent(front, action, since);
      AlikeSnoc(log, action, since);
      FingerprintsAgreeIff(last.action, action);
      AfterSnoc(Stamps(front, FingerprintOf(action)), last.at, since);
      var recent := After(Stamps(log, FingerprintOf(action)), since);
      forall t
        ensures t in recent <==> exists i :: i in Alike(log, action, since) && log[i].at == t
      {
        if t in recent && t !in After(Stamps(front, FingerprintOf(action)), since) {
          assert |log| - 1 in Alike(log, action, since) && log[|log| - 1].at == t;
        } else if t in recent {
          var i :| i in Alike(front, action, since) && front[i].at == t;
          assert i in Alike(log, action, since) && log[i].at == t;
        }
        if i :| i in Alike(log, action, since) && log[i].at == t {
          assert i < |front| ==> i in Alike(front, action, since) && front[i].at == t;
        }
      }
    }
  }

  /** The check of the limiter: fewer than the hourly limit of logged actions of this type and target in the last
      3600 seconds, and none of them in the last `cooldownMins` times 60 seconds. */
  lemma {:induction false} RoomIff(limits: Limits, log: seq<Entry>, action: Action, now: Time)
    requires IsLog(log) && action.Action?
    ensures
      var alike := Alike(log, action, now - 3_600_000_000);
      && (Verdict(limits, Stamps(log, FingerprintOf(action)), now) == Allowed
          <==> |alike| < limits.perHour
               && forall i :: i in alike ==> now - log[i].at >= limits.cooldownMins * 60_000_000)
      && (|alike| >= limits.perHour ==>
            Verdict(limits, Stamps(log, FingerprintOf(action)), now) == LimitExceeded(|alike|))
      && (Verdict(limits, Stamps(log, FingerprintOf(action)), now).CoolingDown? ==>
            var last := Verdict(limits, Stamps(log, FingerprintOf(action)), now).last;
            && |alike| < limits.perHour && now - last < limits.cooldownMins * 60_000_000
            && (exists i :: i in alike && log[i].at == last) && forall i :: i in alike ==> log[i].at <= last)
  {
    var ts, cutoff := Stamps(log, FingerprintOf(action)), now - 3_600_000_000;
    AllowedExactly(limits, ts, now);
    AlikeAreTheRecent(log, action, cutoff);
    forall t
      ensures t in ts && t > cutoff <==> t in After(ts, cutoff)
    {
      AfterMember(ts, cutoff, t);
    }
    assert limits.Cooldown() == limits.cooldownMins * 60_000_000;
    forall i | i in Alike(log, action, cutoff)
      ensures log[i].at in After(ts, cutoff) && log[i].at in ts && log[i].at > cutoff
    {
      assert log[i].at in After(ts, cutoff);
    }
  }

  /** Pruning by the hour is invisible when no cooldown is longer than the hour. */
  lemma {:induction false} PruningIsInvisible(limits: Limits, ts: seq<Time>, now: Time)
    requires limits.Cooldown() <= HOUR
    ensures Verdict(limits, ts, now) == UnprunedVerdict(limits, ts, now)
  {
    var recent := After(ts, now - HOUR);
    forall t: Time
      ensures t in recent <==> t in ts && t > now - HOUR
    {
      AfterMember(ts, now - HOUR, t);
    }
  }

  class RateLimiter {
    var actionHistory: seq<Entry>
    const limits: Limits

    constructor (perHour: int := 3, cooldownMins: int := 15)
      ensures actionHistory == [] && limits == Limits(perHour, cooldownMins)
    {
      actionHistory := [];
      limits := Limits(perHour, cooldownMins);
    }

    method Check(action: Action, now: Time) returns (verdict: RateVerdict)
      modifies this`actionHistory
      ensures actionHistory == Prune(old(actionHistory), now - HOUR)
      ensures verdict == Verdict(limits, Stamps(old(actionHistory), FingerprintOf(action)), now)
    {
      var fingerprint := FingerprintOf(action);
      StampsOfPruned(actionHistory, now - HOUR, fingerprint);
      actionHistory := Prune(actionHistory, now - HOUR);
      var matches := Stamps(actionHistory, fingerprint);
      if |matches| >= limits.perHour {
        return LimitExceeded(|matches|);
      }
      if matches != [] {
        var last := Latest(matches);
        if now - last < limits.Cooldown() {
          return CoolingDown(last);
        }
      }
      return Allowed;
    }

    method Record(action: Action, now: Time)
      modifies this`actionHistory
      ensures actionHistory == old(actionHistory) + [EntryOf(action, now)]
    {
      actionHistory := actionHistory + [EntryOf(action, now)];
    }
  }
}
