/**
 The request throttle of src/linkedin/throttle.rs: every caller reserves the next slot of
 a shared schedule under a short lock and then sleeps what it owes. The clock is read
 before the lock is taken, so readings may reach the lock out of order.
 */
module Throttle {
  import opened Common

  /** One reservation: the clock reading brought to the lock and the spacing it draws. */
  datatype Arrival = Arrival(now: int, spacing: nat)

  /** Start of the next free slot once `log` has been served. */
  function NextFree(start: int, log: seq<Arrival>): int {
    if log == [] then start
    else
      var last := log[|log| - 1];
      Max(NextFree(start, log[..|log| - 1]), last.now) + last.spacing
  }

  /** The instant at which arrival k may call upstream. */
  function GrantAt(start: int, log: seq<Arrival>, k: nat): int
    requires k < |log|
  {
    Max(NextFree(start, log[..k]), log[k].now)
  }

  function Grants(start: int, log: seq<Arrival>): (g: seq<int>)
    ensures |g| == |log|
    ensures forall k :: 0 <= k < |log| ==> g[k] == GrantAt(start, log, k)
  {
    seq(|log|, k requires 0 <= k < |log| => GrantAt(start, log, k))
  }

  lemma {:induction false} NextFreeSnoc(start: int, log: seq<Arrival>, a: Arrival)
    ensures NextFree(start, log + [a]) == Max(NextFree(start, log), a.now) + a.spacing
    ensures GrantAt(start, log + [a], |log|) == Max(NextFree(start, log), a.now)
  {
    assert (log + [a])[..|log|] == log;
  }

  class RequestThrottle {
    const minInterval: nat
    const jitter: nat
    var nextAllowedAt: int

    ghost const start: int
    ghost var log: seq<Arrival>

    ghost predicate Valid()
      reads this
    {
      && nextAllowedAt == NextFree(start, log)
      && forall i :: 0 <= i < |log| ==> minInterval <= log[i].spacing
    }

    constructor (minInterval: int, jitter: int, now: int)
      ensures Valid() && log == [] && start == now
      ensures this.minInterval == Max(minInterval, 0) && this.jitter == Max(jitter, 0)
    {
      this.minInterval := Max(minInterval, 0);
      this.jitter := Max(jitter, 0);
      nextAllowedAt := now;
      start := now;
      log := [];
    }

    /** The lock region of `acquire`. `draw` is the random jitter, `now` the reading made before the lock. */
    method Acquire(now: int, draw: nat) returns (waitFor: nat)
      requires Valid()
      requires jitter > 0 ==> draw < jitter
      modifies this
      ensures Valid()
      ensures log == old(log) + [Arrival(now, minInterval + if jitter == 0 then 0 else draw)]
      ensures now + waitFor == GrantAt(start, log, |old(log)|)
    {
      hide NextFree, GrantAt;
      var drawn := if jitter == 0 then 0 else draw;
      waitFor := if nextAllowedAt > now then nextAllowedAt - now else 0;
      var spacing := minInterval + drawn;
      nextAllowedAt := Max(nextAllowedAt, now) + spacing;
      NextFreeSnoc(start, log, Arrival(now, spacing));
      log := log + [Arrival(now, spacing)];
    }
  }

  // ------------------------------------------------------------------ max-plus closed form

  /** Total spacing drawn by arrivals i, ..., k-1. */
  function SpacingBetween(log: seq<Arrival>, i: nat, k: nat): nat
    requires i <= k <= |log|
    decreases k - i
  {
    if i == k then 0 else SpacingBetween(log, i, k - 1) + log[k - 1].spacing
  }

  /** One term of the max-plus sum: the slot of arrival k if the queue behind `i` never idles. */
  function PathWeight(start: int, log: seq<Arrival>, i: int, k: nat): int
    requires -1 <= i <= k < |log|
  {
    if i < 0 then start + SpacingBetween(log, 0, k) else log[i].now + SpacingBetween(log, i, k)
  }

  /** `g` is the maximum over the initial slot and all readings, each pushed through the spacings after it. */
  ghost predicate IsMaxPlus(start: int, log: seq<Arrival>, k: nat, g: int)
    requires k < |log|
  {
    && (forall i :: -1 <= i <= k ==> PathWeight(start, log, i, k) <= g)
    && (exists i :: -1 <= i <= k && PathWeight(start, log, i, k) == g)
  }

  lemma {:induction false} GrantRecurrence(start: int, log: seq<Arrival>, k: nat)
    requires 0 < k < |log|
    ensures GrantAt(start, log, k) == Max(GrantAt(start, log, k - 1) + log[k - 1].spacing, log[k].now)
  {
    assert log[..k][..k - 1] == log[..k - 1];
  }

  /** Whatever order the readings arrive in, every grant is its max-plus closed form. */
  lemma {:induction false} GrantIsMaxPlus(start: int, log: seq<Arrival>, k: nat)
    requires k < |log|
    ensures IsMaxPlus(start, log, k, GrantAt(start, log, k))
  {
    assert PathWeight(start, log, k, k) == log[k].now;
    if k == 0 {
      assert PathWeight(start, log, -1, 0) == start;
    } else {
      GrantIsMaxPlus(start, log, k - 1);
      GrantRecurrence(start, log, k);
      assert forall i :: -1 <= i <= k - 1 ==>
          PathWeight(start, log, i, k) == PathWeight(start, log, i, k - 1) + log[k - 1].spacing;
      var j :| -1 <= j <= k - 1 && PathWeight(start, log, j, k - 1) == GrantAt(start, log, k - 1);
      assert PathWeight(start, log, j, k) == GrantAt(start, log, k - 1) + log[k - 1].spacing;
    }
  }

  // ------------------------------------------------------------------ least feasible schedule

  /** A schedule that starts no slot early and keeps every drawn spacing. */
  ghost predicate Feasible(start: int, log: seq<Arrival>, h: seq<int>) {
    && |h| == |log|
    && (|h| > 0 ==> start <= h[0])
    && (forall k :: 0 <= k < |h| ==> log[k].now <= h[k])
    && (forall k :: 0 <= k && k + 1 < |h| ==> h[k] + log[k].spacing <= h[k + 1])
  }

  lemma {:induction false} GrantsFeasible(start: int, log: seq<Arrival>)
    ensures Feasible(start, log, Grants(start, log))
  {
    forall k | 0 <= k && k + 1 < |log|
      ensures Grants(start, log)[k] + log[k].spacing <= Grants(start, log)[k + 1]
    {
      GrantRecurrence(start, log, k + 1);
    }
  }

  /** The grants are the pointwise least feasible schedule. */
  lemma {:induction false} GrantsLeast(start: int, log: seq<Arrival>, h: seq<int>, k: nat)
    requires Feasible(start, log, h) && k < |log|
    ensures GrantAt(start, log, k) <= h[k]
  {
    if k > 0 {
      GrantsLeast(start, log, h, k - 1);
      GrantRecurrence(start, log, k);
      assert h[k - 1] + log[k - 1].spacing <= h[k - 1 + 1];
    }
  }

  /** At least `minInterval` between successive grants, so a closed window of length w holds at most w/minInterval + 1. */
  lemma {:induction false} GrantRate(start: int, log: seq<Arrival>, minInterval: nat, lo: int, w: nat)
    requires forall i :: 0 <= i < |log| ==> minInterval <= log[i].spacing
    ensures Spaced(Grants(start, log), minInterval)
    ensures minInterval > 0 ==> CountIn(Grants(start, log), lo, lo + w) <= w / minInterval + 1
  {
    GrantsFeasible(start, log);
    if minInterval > 0 {
      SpacedWindow(Grants(start, log), minInterval, lo, w);
    }
  }
}
