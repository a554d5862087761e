/**
 The fixed-window throttler. INCR and the EXPIRE of the first request of a
 window are taken as one step. Instants and windows are in milliseconds.
 */
module Throttle {
  import opened Wrappers
  import opened Redis

  const DEFAULT_LIMIT: int := 30
  const DEFAULT_WINDOW: nat := 60 * 1000

  type Bucket = Option<Timed<nat>>

  /** The counter after one more request: it counts on while the key lives. */
  function Hit(bucket: Bucket, now: nat, window: nat): Timed<nat> {
    if bucket.Some? && now < bucket.value.deadline
    then Timed(bucket.value.value + 1, bucket.value.deadline)
    else Timed(1, now + window)
  }

  class IpThrottlerGuard {
    var store: Store<nat>

    constructor ()
      ensures store == map[]
    {
      store := map[];
    }

    /** True lets the request through; false is the 429. */
    method CanActivate(key: string, limit: Option<int>, window: Option<nat>, now: nat) returns (ok: bool)
      modifies this
      ensures var bucket := if key in old(store) then Some(old(store)[key]) else None;
        var hit := Hit(bucket, now, window.GetOr(DEFAULT_WINDOW));
        && store == old(store)[key := hit]
        && ok == (hit.value <= limit.GetOr(DEFAULT_LIMIT))
    {
      var seen := Get(store, now, key);
      var count := if seen.Some? then seen.value + 1 else 1;
      var deadline := if seen.Some? then store[key].deadline else now + window.GetOr(DEFAULT_WINDOW);
      store := store[key := Timed(count, deadline)];
      ok := count <= limit.GetOr(DEFAULT_LIMIT);
    }
  }

  // ----- one bucket over a whole run of requests

  /** The bucket after requests at the given instants. */
  function After(start: Bucket, times: seq<nat>, window: nat): Bucket {
    if times == [] then start
    else Some(Hit(After(start, times[..|times| - 1], window), times[|times| - 1], window))
  }

  /** How many requests of the run are let through at an instant in [from, to). */
  function Admitted(start: Bucket, times: seq<nat>, limit: int, window: nat, from: nat, to: nat): nat {
    if times == [] then 0
    else
      var now := times[|times| - 1];
      Admitted(start, times[..|times| - 1], limit, window, from, to) +
      if from <= now < to && After(start, times, window).value.value <= limit then 1 else 0
  }

  predicate Ordered(times: seq<nat>) {
    forall i, j :: 0 <= i < j < |times| ==> times[i] <= times[j]
  }

  function Max(a: int, b: int): int { if a < b then b else a }

  function Min(a: int, b: int): int { if a < b then a else b }

  /** The requests of one counter lifetime: exactly min(n, limit) pass. */
  lemma {:induction false} LifetimeAdmitsLimit(start: Bucket, times: seq<nat>, limit: int, window: nat, to: nat)
    requires times != [] && Ordered(times) && times[|times| - 1] < times[0] + window <= to
    requires start.Some? ==> start.value.deadline <= times[0]
    ensures Admitted(start, times, limit, window, times[0], to) == Max(0, Min(|times|, limit))
    ensures After(start, times, window) == Some(Timed(|times|, times[0] + window))
  {
    var before := times[..|times| - 1];
    if before == [] {
      assert After(start, before, window) == start;
      assert Admitted(start, before, limit, window, times[0], to) == 0;
    } else {
      LifetimeAdmitsLimit(start, before, limit, window, to);
    }
  }

  /** What one window-long interval has let through so far, by where the current
      counter began relative to it. */
  ghost predicate SlidingInv(bucket: Bucket, last: nat, admitted: nat, limit: int, window: nat, from: nat) {
    && bucket.Some?
    && last < bucket.value.deadline <= last + window
    && bucket.value.value >= 1
    && var began, let := bucket.value.deadline - window, Max(0, Min(bucket.value.value, limit));
      && (last < from ==> admitted == 0)
      && (began < from ==> admitted <= Max(0, let - 1))
      && (began == from ==> admitted <= let)
      && (from < began < from + window ==> admitted <= Max(0, limit - 1) + let)
      && (from + window <= began ==> admitted <= Max(0, 2 * limit - 1))
  }

  lemma {:induction false} SlidingInvHolds(times: seq<nat>, limit: int, window: nat, from: nat)
    requires times != [] && Ordered(times) && window > 0
    ensures SlidingInv(After(None, times, window), times[|times| - 1],
                       Admitted(None, times, limit, window, from, from + window), limit, window, from)
  {
    var before := times[..|times| - 1];
    if before == [] {
      assert After(None, before, window) == None;
      assert Admitted(None, before, limit, window, from, from + window) == 0;
    } else {
      SlidingInvHolds(before, limit, window, from);
    }
  }

  /** Any interval as long as the window lets at most 2 * limit - 1 requests through. */
  lemma SlidingBound(times: seq<nat>, limit: int, window: nat, from: nat)
    requires Ordered(times)
    ensures Admitted(None, times, limit, window, from, from + window) <= Max(0, 2 * limit - 1)
  {
    if window == 0 {
      EmptyIntervalAdmitsNone(times, limit, window, from);
    } else if times != [] {
      SlidingInvHolds(times, limit, window, from);
    }
  }

  lemma {:induction false} EmptyIntervalAdmitsNone(times: seq<nat>, limit: int, window: nat, at: nat)
    ensures Admitted(None, times, limit, window, at, at) == 0
  {
    if times == [] {
    } else {
      EmptyIntervalAdmitsNone(times[..|times| - 1], limit, window, at);
    }
  }

  // ----- the bound is reached

  function Repeat(t: nat, n: nat): seq<nat> {
    seq(n, _ => t)
  }

  lemma {:induction false} RepeatedHitsPass(
    times: seq<nat>, t: nat, n: nat, limit: int, window: nat, from: nat, to: nat)
    requires times != [] && from <= t < to
    requires After(None, times, window).value.value + n <= limit && t < After(None, times, window).value.deadline
    ensures var b := After(None, times, window).value;
      After(None, times + Repeat(t, n), window) == Some(Timed(b.value + n, b.deadline))
    ensures Admitted(None, times + Repeat(t, n), limit, window, from, to) ==
            Admitted(None, times, limit, window, from, to) + n
  {
    var longer := times + Repeat(t, n);
    if n == 0 {
      assert longer == times;
    } else {
      RepeatedHitsPass(times, t, n - 1, limit, window, from, to);
      assert longer[..|longer| - 1] == times + Repeat(t, n - 1);
    }
  }

  /** One early request, the rest of its limit at the end of its window, and a
      full limit at the start of the next. */
  lemma SlidingBoundIsReached(limit: nat, window: nat, times: seq<nat>)
    requires limit >= 1 && window >= 2
    requires times == ([0] + Repeat(window - 1, limit - 1)) + [window] + Repeat(window, limit - 1)
    ensures Ordered(times)
    ensures Admitted(None, times, limit, window, window - 1, (window - 1) + window) == 2 * limit - 1
  {
    var from := window - 1;
    var first := [0];
    assert first[..0] == [];
    assert After(None, [], window) == None;
    assert After(None, first, window) == Some(Timed(1, window));
    assert Admitted(None, first, limit, window, from, from + window) == 0;
    RepeatedHitsPass(first, window - 1, limit - 1, limit, window, from, from + window);
    var one := first + Repeat(window - 1, limit - 1);
    var two := one + [window];
    assert two[..|two| - 1] == one;
    assert After(None, two, window) == Some(Timed(1, window + window));
    RepeatedHitsPass(two, window, limit - 1, limit, window, from, from + window);
  }
}
