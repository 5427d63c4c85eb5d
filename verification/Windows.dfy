/** Sliding windows over sequences of time stamps, shared by the rate limiter and the deduplicator.
    Times are whole microseconds, the resolution of the timestamps the agents take. */
module Windows {
  type Time = int

  const SECOND: Time := 1_000_000
  const HOUR: Time := 3600 * SECOND

  ghost predicate Sorted(ts: seq<Time>) {
    forall i, j :: 0 <= i < j < |ts| ==> ts[i] <= ts[j]
  }

  /** The stamps strictly later than `cutoff`, in order. */
  function After(ts: seq<Time>, cutoff: Time): seq<Time> {
    if ts == [] then []
    else
      var front := After(ts[..|ts| - 1], cutoff);
      if ts[|ts| - 1] > cutoff then front + [ts[|ts| - 1]] else front
  }

  /** The stamps in the half-open interval from `lo` to `hi`, in order. */
  function Within(ts: seq<Time>, lo: Time, hi: Time): seq<Time> {
    if ts == [] then []
    else
      var front := Within(ts[..|ts| - 1], lo, hi);
      if lo <= ts[|ts| - 1] < hi then front + [ts[|ts| - 1]] else front
  }

  /** Any two stamps that are `n` places apart are at least `gap` apart in time. */
  ghost predicate Spread(ts: seq<Time>, n: nat, gap: Time) {
    forall i, j :: 0 <= i && i + n <= j < |ts| ==> ts[j] - ts[i] >= gap
  }

  lemma {:induction false} AfterMember(ts: seq<Time>, cutoff: Time, t: Time)
    ensures t in After(ts, cutoff) <==> t in ts && t > cutoff
  {
    if ts != [] {
      AfterMember(ts[..|ts| - 1], cutoff, t);
      assert ts == ts[..|ts| - 1] + [ts[|ts| - 1]];
    }
  }

  /** In a sorted log the recent stamps are a suffix. */
  lemma {:induction false} AfterIsSuffix(ts: seq<Time>, cutoff: Time)
    requires Sorted(ts)
    ensures |After(ts, cutoff)| <= |ts|
    ensures After(ts, cutoff) == ts[|ts| - |After(ts, cutoff)|..]
    ensures forall i :: 0 <= i < |ts| - |After(ts, cutoff)| ==> ts[i] <= cutoff
    ensures forall i :: |ts| - |After(ts, cutoff)| <= i < |ts| ==> ts[i] > cutoff
  {
    if ts != [] {
      var front, last := ts[..|ts| - 1], ts[|ts| - 1];
      AfterIsSuffix(front, cutoff);
      var kept := After(front, cutoff);
      if last > cutoff {
        assert ts[|ts| - |kept| - 1..] == front[|front| - |kept|..] + [last];
      } else {
        assert forall i :: 0 <= i < |front| ==> front[i] <= ts[|ts| - 1];
      }
    }
  }

  lemma {:induction false} AfterSnoc(ts: seq<Time>, t: Time, cutoff: Time)
    ensures After(ts + [t], cutoff) == if t > cutoff then After(ts, cutoff) + [t] else After(ts, cutoff)
  {
    assert (ts + [t])[..|ts|] == ts;
  }

  /** Filtering twice is filtering once by the later cutoff. */
  lemma {:induction false} AfterAfter(ts: seq<Time>, early: Time, late: Time)
    requires early <= late
    ensures After(After(ts, early), late) == After(ts, late)
  {
    if ts != [] {
      var front, last := ts[..|ts| - 1], ts[|ts| - 1];
      AfterAfter(front, early, late);
      if last > early {
        var kept := After(front, early) + [last];
        assert kept[..|kept| - 1] == After(front, early);
      }
    }
  }

  lemma {:induction false} WithinIsAfter(ts: seq<Time>, lo: Time, hi: Time)
    requires forall i :: 0 <= i < |ts| ==> ts[i] < hi
    ensures Within(ts, lo, hi) == After(ts, lo - 1)
  {
    if ts != [] {
      WithinIsAfter(ts[..|ts| - 1], lo, hi);
    }
  }

  /** Admitting a stamp only when fewer than `n` earlier ones lie within `gap` keeps the log spread,
      even if the stamp recorded is later than the one that was checked. */
  lemma {:induction false} SpreadExtend(ts: seq<Time>, n: nat, gap: Time, checked: Time, recorded: Time)
    requires Sorted(ts) && Spread(ts, n, gap)
    requires |After(ts, checked - gap)| < n && checked <= recorded
    ensures Spread(ts + [recorded], n, gap)
  {
    AfterIsSuffix(ts, checked - gap);
  }

  lemma {:induction false} LastIsSpread(ts: seq<Time>, n: nat, gap: Time, i: int)
    requires ts != [] && Spread(ts, n, gap) && 0 <= i
    ensures i + n < |ts| ==> ts[|ts| - 1] - ts[i] >= gap
  {}

  /** In a sorted, spread log no half-open interval of length `gap` holds more than `n` stamps. */
  lemma {:induction false} SpreadBoundsInterval(ts: seq<Time>, n: nat, gap: Time, lo: Time, hi: Time)
    requires Sorted(ts) && Spread(ts, n, gap) && hi - lo <= gap
    ensures |Within(ts, lo, hi)| <= n
  {
    if ts != [] {
      var front, last := ts[..|ts| - 1], ts[|ts| - 1];
      if last >= hi {
        SpreadBoundsInterval(front, n, gap, lo, hi);
      } else {
        WithinIsAfter(ts, lo, hi);
        AfterIsSuffix(ts, lo - 1);
        LastIsSpread(ts, n, gap, |ts| - |After(ts, lo - 1)|);
      }
    }
  }
}
