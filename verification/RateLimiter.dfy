/**
 The inbound rate limiter of src/api/middleware.rs: a sliding log of admissions per
 identity, trimmed on use and evicted in bulk, against a reference that never forgets.
 */
module RateLimiter {
  import opened Common

  const MAX_IDENTITIES: nat := 4096
  const TICKS_PER_SECOND: nat := 1_000_000_000

  type Identity = string

  /** Admission instants per identity, oldest first. */
  type Logs = map<Identity, seq<int>>

  datatype Verdict = Admitted | Limited(retryAfter: nat)

  /** `Instant::duration_since`: saturating at zero. */
  function Elapsed(now: int, t: int): nat {
    if now >= t then now - t else 0
  }

  // ------------------------------------------------------------------ the log that never forgets

  /** How many of the admissions are still inside the window at `now`. */
  function Recent(log: seq<int>, now: int, window: nat): nat {
    if log == [] then 0
    else Recent(log[..|log| - 1], now, window) + if Elapsed(now, log[|log| - 1]) <= window then 1 else 0
  }

  function LogOf(logs: Logs, id: Identity): seq<int> {
    if id in logs then logs[id] else []
  }

  predicate Admits(log: seq<int>, now: int, limit: nat, window: nat) {
    Recent(log, now, window) < limit
  }

  /** One request against the reference: admitted requests are logged and nothing is ever dropped. */
  function Reference(logs: Logs, id: Identity, now: int, limit: nat, window: nat)
    : Logs
  {
    if Admits(LogOf(logs, id), now, limit, window) then logs[id := LogOf(logs, id) + [now]] else logs
  }

  ghost predicate Sorted(log: seq<int>) {
    forall i, j :: 0 <= i <= j < |log| ==> log[i] <= log[j]
  }

  /** Admissions with `limit` - 1 or more others between them are more than `width` apart. */
  ghost predicate Spread(log: seq<int>, limit: nat, width: int) {
    forall i, j :: 0 <= i && i + limit <= j < |log| ==> log[j] - log[i] > width
  }

  /** `bucket` is the log without some admissions that have left the window by `clock`. */
  ghost predicate Covers(log: seq<int>, bucket: seq<int>, clock: int, window: nat) {
    && |bucket| <= |log|
    && bucket == log[|log| - |bucket|..]
    && forall i :: 0 <= i < |log| - |bucket| ==> clock - log[i] > window
  }

  /** What a bucket owes to the full log of its identity. */
  ghost predicate Keeps(log: seq<int>, bucket: seq<int>, clock: int, limit: nat, window: nat) {
    && Sorted(log) && Spread(log, limit, window)
    && (forall i :: 0 <= i < |log| ==> log[i] <= clock)
    && Covers(log, bucket, clock, window)
  }

  /** The last admission of the bucket is still inside the window. */
  predicate Live(bucket: seq<int>, now: int, window: nat) {
    bucket != [] && Elapsed(now, bucket[|bucket| - 1]) <= window
  }

  /** `r` is how long the oldest of the last `limit` admissions still blocks this identity. */
  ghost predicate IsRetryAfter(log: seq<int>, now: int, limit: nat, window: nat, r: nat) {
    && 1 <= limit <= |log|
    && r == window - Elapsed(now, log[|log| - limit])
  }

  // ------------------------------------------------------------------------------ buckets

  /** A bucket without the expired admissions at its front. */
  function Trimmed(bucket: seq<int>, now: int, window: nat): (hits: seq<int>)
    ensures |hits| <= |bucket| && hits == bucket[|bucket| - |hits|..]
    ensures forall i :: 0 <= i < |bucket| - |hits| ==> Elapsed(now, bucket[i]) > window
    ensures hits == [] || Elapsed(now, hits[0]) <= window
  {
    if bucket != [] && Elapsed(now, bucket[0]) > window then Trimmed(bucket[1..], now, window) else bucket
  }

  /** The pop loop. */
  method Trim(bucket: seq<int>, now: int, window: nat) returns (hits: seq<int>)
    ensures hits == Trimmed(bucket, now, window)
  {
    hits := bucket;
    while hits != [] && Elapsed(now, hits[0]) > window
      invariant Trimmed(hits, now, window) == Trimmed(bucket, now, window)
      decreases |hits|
    {
      hits := hits[1..];
    }
  }

  lemma {:induction false} KeepsTrimmed(log: seq<int>, bucket: seq<int>, hits: seq<int>, clock: int, now: int, limit: nat, window: nat)
    requires Keeps(log, bucket, clock, limit, window) && clock <= now
    requires hits == Trimmed(bucket, now, window)
    ensures Keeps(log, hits, now, limit, window)
    ensures Recent(log, now, window) == |hits|
    ensures |hits| <= limit && |hits| <= |log| && hits == log[|log| - |hits|..]
    ensures hits != [] ==> Elapsed(now, hits[0]) <= window
  {
    hide Recent, Trimmed;
    forall i | 0 <= i < |log| - |hits| ensures now - log[i] > window {
      if i >= |log| - |bucket| {
        assert log[i] == bucket[i - (|log| - |bucket|)];
      }
    }
    RecentOfBucket(log, hits, now, window);
    if hits != [] {
      assert hits[0] == log[|log| - |hits|] && log[|log| - 1] <= now;
    }
  }

  lemma {:induction false} RecentOfBucket(log: seq<int>, bucket: seq<int>, now: int, window: nat)
    requires Covers(log, bucket, now, window) && Sorted(log)
    requires forall i :: 0 <= i < |log| ==> log[i] <= now
    requires bucket == [] || Elapsed(now, bucket[0]) <= window
    ensures Recent(log, now, window) == |bucket|
  {
    if log != [] {
      var n := |log| - 1;
      if bucket == [] {
        RecentOfBucket(log[..n], [], now, window);
      } else {
        assert bucket[0] == log[|log| - |bucket|] <= log[n];
        RecentOfBucket(log[..n], bucket[..|bucket| - 1], now, window);
      }
    }
  }

  lemma {:induction false} KeepsAppended(log: seq<int>, hits: seq<int>, now: int, limit: nat, window: nat)
    requires Keeps(log, hits, now, limit, window) && |hits| < limit
    ensures Keeps(log + [now], hits + [now], now, limit, window)
  {
    var longer := log + [now];
    forall i, j | 0 <= i && i + limit <= j < |longer| ensures longer[j] - longer[i] > window {
      if j == |log| {
        assert i < |log| - |hits|;
      }
    }
  }

  /** A bucket whose last admission has expired may be forgotten altogether. */
  lemma {:induction false} KeepsForgotten(log: seq<int>, bucket: seq<int>, now: int, limit: nat, window: nat)
    requires Keeps(log, bucket, now, limit, window) && !Live(bucket, now, window)
    ensures Keeps(log, [], now, limit, window)
  {
    forall i | 0 <= i < |log| ensures now - log[i] > window {
      if bucket != [] {
        assert bucket[|bucket| - 1] == log[|log| - 1];
        assert log[i] <= log[|log| - 1];
      }
    }
  }

  // ------------------------------------------------------------------------------ the limiter

  /** The bulk eviction: only live buckets stay. */
  function Evict(identities: Logs, now: int, window: nat): Logs {
    map id | id in identities && Live(identities[id], now, window) :: identities[id]
  }

  lemma {:induction false} EvictedLive(identities: Logs, now: int, window: nat)
    ensures forall id :: id in Evict(identities, now, window) ==> Live(Evict(identities, now, window)[id], now, window)
  {
  }

  ghost predicate AllKeep(logs: Logs, identities: Logs, clock: int, limit: nat, window: nat) {
    && (forall id :: id in identities ==> id in logs)
    && (forall id :: id in logs ==> Keeps(logs[id], LogOf(identities, id), clock, limit, window))
  }

  lemma {:induction false} AllKeepAt(logs: Logs, identities: Logs, clock: int, limit: nat, window: nat, id: Identity)
    requires AllKeep(logs, identities, clock, limit, window)
    ensures Keeps(LogOf(logs, id), LogOf(identities, id), clock, limit, window)
    ensures id !in logs ==> LogOf(logs, id) == []
  {
  }

  lemma {:induction false} AllKeepLater(logs: Logs, identities: Logs, clock: int, now: int, limit: nat, window: nat)
    requires AllKeep(logs, identities, clock, limit, window) && clock <= now
    ensures AllKeep(logs, identities, now, limit, window)
  {
    forall id | id in logs ensures Keeps(logs[id], LogOf(identities, id), now, limit, window) {
      assert Keeps(logs[id], LogOf(identities, id), clock, limit, window);
    }
  }

  lemma {:induction false} AllKeepEvicted(logs: Logs, identities: Logs, now: int, limit: nat, window: nat)
    requires AllKeep(logs, identities, now, limit, window)
    ensures AllKeep(logs, Evict(identities, now, window), now, limit, window)
  {
    forall id | id in logs ensures Keeps(logs[id], LogOf(Evict(identities, now, window), id), now, limit, window) {
      if !Live(LogOf(identities, id), now, window) {
        KeepsForgotten(logs[id], LogOf(identities, id), now, limit, window);
      }
    }
  }

  lemma {:induction false} AllKeepUpdated(logs: Logs, identities: Logs, now: int, limit: nat, window: nat,
                       id: Identity, log: seq<int>, hits: seq<int>)
    requires AllKeep(logs, identities, now, limit, window) && Keeps(log, hits, now, limit, window)
    ensures AllKeep(logs[id := log], identities[id := hits], now, limit, window)
  {
    var logs', identities' := logs[id := log], identities[id := hits];
    forall other | other in logs' ensures Keeps(logs'[other], LogOf(identities', other), now, limit, window) {
      if other != id {
        assert Keeps(logs[other], LogOf(identities, other), now, limit, window);
      }
    }
  }

  /** After the pop loop the bucket is exactly the recent part of its log, and nobody else is affected. */
  lemma {:induction false} AllKeepTrimmed(logs: Logs, identities: Logs, clock: int, now: int, limit: nat, window: nat,
                       id: Identity, hits: seq<int>)
    requires AllKeep(logs, identities, clock, limit, window) && clock <= now && limit >= 1
    requires hits == Trimmed(LogOf(identities, id), now, window)
    ensures Admits(LogOf(logs, id), now, limit, window) <==> |hits| < limit
    ensures |hits| >= limit ==>
              && Elapsed(now, hits[0]) <= window
              && IsRetryAfter(LogOf(logs, id), now, limit, window, window - Elapsed(now, hits[0]))
              && AllKeep(logs, identities[id := hits], now, limit, window)
    ensures |hits| < limit ==>
              AllKeep(logs[id := LogOf(logs, id) + [now]], identities[id := hits + [now]], now, limit, window)
  {
    hide Keeps, AllKeep, Recent, Trimmed;
    var log := LogOf(logs, id);
    AllKeepAt(logs, identities, clock, limit, window, id);
    KeepsTrimmed(log, LogOf(identities, id), hits, clock, now, limit, window);
    AllKeepLater(logs, identities, clock, now, limit, window);
    if |hits| < limit {
      KeepsAppended(log, hits, now, limit, window);
      AllKeepUpdated(logs, identities, now, limit, window, id, log + [now], hits + [now]);
    } else {
      AllKeepUpdated(logs, identities, now, limit, window, id, log, hits);
      AllKeepAt(logs, identities, now, limit, window, id);
      assert logs[id := log] == logs;
    }
  }

  /** The map after an insertion: bounded by dropping every bucket that is not live, once it is over the limit. */
  function Bounded(buckets: Logs, now: int, window: nat): Logs {
    if |buckets| > 2 * MAX_IDENTITIES then Evict(buckets, now, window) else buckets
  }

  /** The buckets, and all admissions ever made, each in the order in which it reached the lock. */
  datatype State = State(buckets: Logs, logs: Logs)

  /** One request, for any reading of the clock. */
  function Step(s: State, id: Identity, now: int, limit: nat, window: nat): State {
    var hits := Trimmed(LogOf(s.buckets, id), now, window);
    if |hits| >= limit then s.(buckets := s.buckets[id := hits])
    else State(Bounded(s.buckets[id := hits + [now]], now, window), s.logs[id := LogOf(s.logs, id) + [now]])
  }

  class Limiter {
    const limit: nat
    const window: nat
    var identities: Logs

    ghost var clock: int
    ghost var logs: Logs

    ghost predicate Valid()
      reads this
    {
      limit >= 1 && AllKeep(logs, identities, clock, limit, window)
    }

    constructor (limit: nat, windowSeconds: nat, now: int)
      ensures Valid() && identities == map[] && logs == map[] && clock == now
      ensures this.limit == Max(limit, 1) && window == Max(windowSeconds, 1) * 1_000_000_000
    {
      this.limit := Max(limit, 1);
      window := Max(windowSeconds, 1) * TICKS_PER_SECOND;
      identities := map[];
      logs := map[];
      clock := now;
    }

    ghost function Snapshot(): State
      reads this
    {
      State(identities, logs)
    }

    /**
     One inbound request, for any reading of the clock. As long as readings reach the lock in order,
     the decision and the log it leaves are those of the reference.
     */
    method Check(id: Identity, now: int) returns (verdict: Verdict)
      requires limit >= 1
      modifies this
      ensures Snapshot() == Step(old(Snapshot()), id, now, limit, window)
      ensures var hits := Trimmed(LogOf(old(identities), id), now, window);
              verdict == if |hits| >= limit then Limited(window - Elapsed(now, hits[0])) else Admitted
      ensures verdict.Admitted? ==>
                || |identities| <= 8192
                || forall other :: other in identities ==> Live(identities[other], now, window)
      ensures old(Valid()) && old(clock) <= now ==>
                && Valid() && clock == now
                && (verdict.Admitted? <==> Admits(LogOf(old(logs), id), now, limit, window))
                && logs == Reference(old(logs), id, now, limit, window)
                && (verdict.Limited? ==> IsRetryAfter(LogOf(logs, id), now, limit, window, verdict.retryAfter))
    {
      hide AllKeep, Admits, IsRetryAfter, Trimmed, LogOf, Evict, Live, Elapsed;
      ghost var ordered := Valid() && clock <= now;
      var hits := Trim(LogOf(identities, id), now, window);
      if ordered {
        AllKeepTrimmed(logs, identities, clock, now, limit, window, id, hits);
      }
      clock := now;
      if |hits| >= limit {
        identities := identities[id := hits];
        verdict := Limited(window - Elapsed(now, hits[0]));
      } else {
        logs := logs[id := LogOf(logs, id) + [now]];
        identities := identities[id := hits + [now]];
        if |identities| > 2 * MAX_IDENTITIES {
          if ordered {
            AllKeepEvicted(logs, identities, now, limit, window);
          }
          EvictedLive(identities, now, window);
          identities := Evict(identities, now, window);
        }
        verdict := Admitted;
      }
    }
  }

  // ------------------------------------------------------------------------------ whole runs

  datatype Request = Request(id: Identity, now: int)

  /** Readings never run backwards, starting from `from`. */
  ghost predicate Ordered(from: int, requests: seq<Request>) {
    && (forall i :: 0 <= i < |requests| ==> from <= requests[i].now)
    && (forall i, j :: 0 <= i <= j < |requests| ==> requests[i].now <= requests[j].now)
  }

  function ReferenceRun(logs: Logs, requests: seq<Request>, limit: nat, window: nat): Logs {
    if requests == [] then logs
    else
      var last := requests[|requests| - 1];
      Reference(ReferenceRun(logs, requests[..|requests| - 1], limit, window), last.id, last.now, limit, window)
  }

  lemma {:induction false} RecentAtLeast(log: seq<int>, now: int, window: nat, i: nat)
    requires Sorted(log) && i < |log| && Elapsed(now, log[i]) <= window
    ensures Recent(log, now, window) >= |log| - i
  {
    var n := |log| - 1;
    assert log[i] <= log[n];
    if i < n {
      assert log[..n][i] == log[i];
      RecentAtLeast(log[..n], now, window, i);
    }
  }

  lemma {:induction false} RecentAtMost(log: seq<int>, now: int, window: nat, m: nat)
    requires m <= |log| && forall i :: 0 <= i < m ==> Elapsed(now, log[i]) > window
    ensures Recent(log, now, window) <= |log| - m
  {
    if log != [] {
      var n := |log| - 1;
      RecentAtMost(log[..n], now, window, if m <= n then m else n);
    }
  }

  /** Over every run the log of one identity stays ordered, and `limit` + 1 admissions never fit a window. */
  lemma {:induction false} ReferenceSpread(from: int, requests: seq<Request>, limit: nat, window: nat, id: Identity)
    requires limit >= 1 && Ordered(from, requests)
    ensures GoodLog(LogOf(ReferenceRun(map[], requests, limit, window), id), LastReading(from, requests), limit, window)
  {
    if requests != [] {
      var n := |requests| - 1;
      var now := requests[n].now;
      ReferenceSpread(from, requests[..n], limit, window, id);
      var log := LogOf(ReferenceRun(map[], requests[..n], limit, window), id);
      assert LastReading(from, requests[..n]) <= now;
      GoodLogLater(log, LastReading(from, requests[..n]), now, limit, window);
      if Admits(log, now, limit, window) {
        SpreadExtends(log, now, limit, window);
      }
    }
  }

  ghost predicate GoodLog(log: seq<int>, clock: int, limit: nat, window: nat) {
    Sorted(log) && Spread(log, limit, window) && forall i :: 0 <= i < |log| ==> log[i] <= clock
  }

  function LastReading(from: int, requests: seq<Request>): int {
    if requests == [] then from else requests[|requests| - 1].now
  }

  lemma {:induction false} GoodLogLater(log: seq<int>, clock: int, now: int, limit: nat, window: nat)
    requires GoodLog(log, clock, limit, window) && clock <= now
    ensures GoodLog(log, now, limit, window)
  {
  }

  lemma {:induction false} SpreadExtends(log: seq<int>, now: int, limit: nat, window: nat)
    requires limit >= 1 && GoodLog(log, now, limit, window) && Admits(log, now, limit, window)
    ensures GoodLog(log + [now], now, limit, window)
  {
    forall i | 0 <= i && i + limit <= |log| ensures now - log[i] > window {
      if now - log[i] <= window {
        RecentAtLeast(log, now, window, i);
      }
    }
  }

  /** Every closed interval of length `window` holds at most `limit` admissions of one identity. */
  lemma {:induction false} WindowHoldsLimit(from: int, requests: seq<Request>, limit: nat, window: nat, id: Identity, lo: int)
    requires limit >= 1 && Ordered(from, requests)
    ensures CountIn(LogOf(ReferenceRun(map[], requests, limit, window), id), lo, lo + window) <= limit
  {
    ReferenceSpread(from, requests, limit, window, id);
    SpreadCount(LogOf(ReferenceRun(map[], requests, limit, window), id), limit, window, lo);
  }

  lemma {:induction false} SpreadCount(log: seq<int>, limit: nat, width: int, lo: int)
    requires limit >= 1 && Spread(log, limit, width)
    ensures CountIn(log, lo, lo + width) <= limit
  {
    if log != [] {
      if !(lo <= log[0] <= lo + width) {
        SpreadCount(log[1..], limit, width, lo);
      } else if limit <= |log| {
        var head, tail := log[..limit], log[limit..];
        assert log == head + tail;
        forall k | 0 <= k < |tail| ensures lo + width < tail[k] {
          assert log[limit + k] - log[0] > width;
        }
        CountInAppend(head, tail, lo, lo + width);
        CountInAfter(tail, lo, lo + width);
        CountInBound(head, lo, lo + width);
      } else {
        CountInBound(log, lo, lo + width);
      }
    }
  }

  lemma {:induction false} CountInBound(times: seq<int>, lo: int, hi: int)
    ensures CountIn(times, lo, hi) <= |times|
  {
    if times != [] {
      CountInBound(times[1..], lo, hi);
    }
  }

  /** The announced retry-after r is exact for the log as it stands: blocked up to now + r, free strictly after. */
  lemma {:induction false} RetryAfterOfLog(log: seq<int>, now: int, limit: nat, window: nat, r: nat, t: int)
    requires Sorted(log) && IsRetryAfter(log, now, limit, window, r)
    requires now <= t && forall i :: 0 <= i < |log| ==> log[i] <= now
    ensures Admits(log, t, limit, window) <==> t > now + r
  {
    var oldest := |log| - limit;
    if t <= now + r {
      RecentAtLeast(log, t, window, oldest);
    } else {
      forall i | 0 <= i < oldest + 1 ensures Elapsed(t, log[i]) > window {
        assert log[i] <= log[oldest];
      }
      RecentAtMost(log, t, window, oldest + 1);
    }
  }

  /**
   After a rejection that announced r, and after any further requests in which this identity has not
   yet come back later than now + r, its next request at t is admitted exactly when t > now + r.
   */
  lemma {:induction false} RetryAfterExact(logs: Logs, id: Identity, now: int, limit: nat, window: nat, r: nat,
                                           requests: seq<Request>, t: int)
    requires var log := LogOf(logs, id);
             Sorted(log) && IsRetryAfter(log, now, limit, window, r) && forall i :: 0 <= i < |log| ==> log[i] <= now
    requires Ordered(now, requests) && now <= t
    requires forall i :: 0 <= i < |requests| && requests[i].id == id ==> requests[i].now <= now + r
    ensures LogOf(ReferenceRun(logs, requests, limit, window), id) == LogOf(logs, id)
    ensures Admits(LogOf(ReferenceRun(logs, requests, limit, window), id), t, limit, window) <==> t > now + r
    decreases |requests|
  {
    RetryAfterOfLog(LogOf(logs, id), now, limit, window, r, t);
    if requests != [] {
      var n := |requests| - 1;
      var last := requests[n];
      RetryAfterExact(logs, id, now, limit, window, r, requests[..n], last.now);
    }
  }

  // ------------------------------------------------------------------------------ late readings

  function Run(requests: seq<Request>, limit: nat, window: nat): State {
    if requests == [] then State(map[], map[])
    else
      var last := requests[|requests| - 1];
      Step(Run(requests[..|requests| - 1], limit, window), last.id, last.now, limit, window)
  }

  /** The admissions of one identity over a whole run of the limiter. */
  function Admissions(requests: seq<Request>, limit: nat, window: nat, id: Identity): seq<int> {
    LogOf(Run(requests, limit, window).logs, id)
  }

  /** One request in order: the reference's decision, and every bucket still owes nothing. */
  lemma {:induction false} StepRefines(s: State, clock: int, id: Identity, now: int, limit: nat, window: nat)
    requires AllKeep(s.logs, s.buckets, clock, limit, window) && clock <= now && limit >= 1
    ensures Step(s, id, now, limit, window).logs == Reference(s.logs, id, now, limit, window)
    ensures AllKeep(Step(s, id, now, limit, window).logs, Step(s, id, now, limit, window).buckets, now, limit, window)
  {
    hide AllKeep, Admits, IsRetryAfter, Trimmed, Evict, LogOf;
    var hits := Trimmed(LogOf(s.buckets, id), now, window);
    AllKeepTrimmed(s.logs, s.buckets, clock, now, limit, window, id, hits);
    if |hits| < limit {
      AllKeepEvicted(s.logs[id := LogOf(s.logs, id) + [now]], s.buckets[id := hits + [now]], now, limit, window);
    }
  }

  /** Over every run with ordered readings the limiter admits what the log that never forgets admits. */
  lemma {:induction false} RunRefines(from: int, requests: seq<Request>, limit: nat, window: nat)
    requires limit >= 1 && Ordered(from, requests)
    ensures var s := Run(requests, limit, window);
            && s.logs == ReferenceRun(map[], requests, limit, window)
            && AllKeep(s.logs, s.buckets, LastReading(from, requests), limit, window)
  {
    hide AllKeep, Step, Reference;
    if requests == [] {
      NothingKept(from, limit, window);
    } else {
      var n := |requests| - 1;
      RunRefines(from, requests[..n], limit, window);
      StepRefines(Run(requests[..n], limit, window), LastReading(from, requests[..n]), requests[n].id, requests[n].now, limit, window);
    }
  }

  lemma {:induction false} NothingKept(clock: int, limit: nat, window: nat)
    ensures AllKeep(map[], map[], clock, limit, window)
  {
  }

  /** No reading is more than `lag` behind one that reached the lock before it. */
  ghost predicate Lagging(requests: seq<Request>, lag: nat) {
    forall i, j :: 0 <= i <= j < |requests| ==> requests[j].now >= requests[i].now - lag
  }

  /** Too few identities for the bulk eviction. */
  ghost predicate Few(requests: seq<Request>) {
    |Names(requests)| <= 8192
  }

  function Names(requests: seq<Request>): set<Identity> {
    set r | r in requests :: r.id
  }

  /** `peak` is the latest of the readings. */
  ghost predicate Peak(requests: seq<Request>, peak: int) {
    && (forall i :: 0 <= i < |requests| ==> requests[i].now <= peak)
    && (exists i :: 0 <= i < |requests| && requests[i].now == peak)
  }

  /**
   A bucket is the tail of its log. What it dropped, by popping or by eviction, was behind the peak by
   more than the window, less `slack` for evictions, which look at the last admission only.
   */
  ghost predicate Behind(log: seq<int>, bucket: seq<int>, peak: int, lag: nat, slack: nat, limit: nat, window: nat) {
    && |bucket| <= |log| && bucket == log[|log| - |bucket|..]
    && (forall i :: 0 <= i < |log| - |bucket| ==> peak - log[i] > window - slack)
    && (forall i, j :: 0 <= i <= j < |log| ==> log[j] >= log[i] - lag)
    && Spread(log, limit, window - lag - slack)
    && (forall i :: 0 <= i < |log| ==> log[i] <= peak)
  }

  lemma {:induction false} BehindLater(log: seq<int>, bucket: seq<int>, peak: int, peak': int, lag: nat, slack: nat, limit: nat, window: nat)
    requires Behind(log, bucket, peak, lag, slack, limit, window) && peak <= peak'
    ensures Behind(log, bucket, peak', lag, slack, limit, window)
  {
  }

  lemma {:induction false} BehindTrimmed(log: seq<int>, bucket: seq<int>, now: int, peak: int, lag: nat, slack: nat, limit: nat, window: nat)
    requires Behind(log, bucket, peak, lag, slack, limit, window) && now <= peak
    ensures Behind(log, Trimmed(bucket, now, window), peak, lag, slack, limit, window)
  {
    hide Trimmed, Spread;
    var hits := Trimmed(bucket, now, window);
    forall i | 0 <= i < |log| - |hits| ensures peak - log[i] > window - slack {
      if i >= |log| - |bucket| {
        assert log[i] == bucket[i - (|log| - |bucket|)];
      }
    }
  }

  lemma {:induction false} BehindAppended(log: seq<int>, hits: seq<int>, now: int, peak: int, lag: nat, slack: nat, limit: nat, window: nat)
    requires Behind(log, hits, peak, lag, slack, limit, window) && |hits| < limit
    requires peak - lag <= now <= peak
    ensures Behind(log + [now], hits + [now], peak, lag, slack, limit, window)
  {
    var longer := log + [now];
    forall i, j | 0 <= i && i + limit <= j < |longer| ensures longer[j] - longer[i] > window - lag - slack {
      if j == |log| {
        assert peak - log[i] > window - slack;
      }
    }
  }

  lemma {:induction false} BehindEvicted(log: seq<int>, bucket: seq<int>, now: int, peak: int, lag: nat, slack: nat, limit: nat, window: nat)
    requires Behind(log, bucket, peak, lag, slack, limit, window) && now <= peak && slack >= lag
    requires !Live(bucket, now, window)
    ensures Behind(log, [], peak, lag, slack, limit, window)
  {
    forall i | 0 <= i < |log| ensures peak - log[i] > window - slack {
      if bucket != [] && i >= |log| - |bucket| {
        assert bucket[|bucket| - 1] == log[|log| - 1] >= log[i] - lag;
      }
    }
  }

  ghost predicate AllBehind(s: State, peak: int, lag: nat, slack: nat, limit: nat, window: nat) {
    forall id :: Behind(LogOf(s.logs, id), LogOf(s.buckets, id), peak, lag, slack, limit, window)
  }

  lemma {:induction false} LogSet(logs: Logs, id: Identity, log: seq<int>, other: Identity)
    ensures LogOf(logs[id := log], other) == if other == id then log else LogOf(logs, other)
  {
  }

  lemma {:induction false} EvictedAt(buckets: Logs, now: int, window: nat, id: Identity)
    ensures LogOf(Evict(buckets, now, window), id) ==
            if Live(LogOf(buckets, id), now, window) then LogOf(buckets, id) else []
  {
  }

  /** One request keeps every identity behind; only an eviction needs the slack. */
  lemma {:induction false} BehindStep(s: State, id: Identity, now: int, peak: int, lag: nat, slack: nat, limit: nat, window: nat)
    requires AllBehind(s, peak, lag, slack, limit, window) && peak - lag <= now <= peak
    requires slack >= lag || |s.buckets.Keys + {id}| <= 2 * MAX_IDENTITIES
    ensures AllBehind(Step(s, id, now, limit, window), peak, lag, slack, limit, window)
  {
    hide Behind, Trimmed, Live, Evict, LogOf;
    var log, hits := LogOf(s.logs, id), Trimmed(LogOf(s.buckets, id), now, window);
    var s' := Step(s, id, now, limit, window);
    BehindTrimmed(log, LogOf(s.buckets, id), now, peak, lag, slack, limit, window);
    if |hits| >= limit {
      forall other ensures Behind(LogOf(s'.logs, other), LogOf(s'.buckets, other), peak, lag, slack, limit, window) {
        LogSet(s.buckets, id, hits, other);
      }
    } else {
      BehindAppended(log, hits, now, peak, lag, slack, limit, window);
      var longer := s.buckets[id := hits + [now]];
      assert longer.Keys == s.buckets.Keys + {id};
      forall other ensures Behind(LogOf(s'.logs, other), LogOf(s'.buckets, other), peak, lag, slack, limit, window) {
        LogSet(s.buckets, id, hits + [now], other);
        LogSet(s.logs, id, log + [now], other);
        EvictedAt(longer, now, window, other);
        if |longer| > 2 * MAX_IDENTITIES && !Live(LogOf(longer, other), now, window) {
          BehindEvicted(LogOf(s'.logs, other), LogOf(longer, other), now, peak, lag, slack, limit, window);
        }
      }
    }
  }

  lemma {:induction false} RunNames(requests: seq<Request>, limit: nat, window: nat)
    ensures Run(requests, limit, window).buckets.Keys <= Names(requests)
  {
    if requests != [] {
      var n := |requests| - 1;
      assert requests == requests[..n] + [requests[n]];
      assert Names(requests) == Names(requests[..n]) + {requests[n].id};
      RunNames(requests[..n], limit, window);
    }
  }

  lemma {:induction false} SubsetSize<T>(a: set<T>, b: set<T>)
    requires a <= b
    ensures |a| <= |b|
  {
    assert b == a + (b - a);
  }

  lemma {:induction false} FewEarlier(requests: seq<Request>, limit: nat, window: nat)
    requires requests != [] && Few(requests)
    ensures var n := |requests| - 1;
            Few(requests[..n]) && |Run(requests[..n], limit, window).buckets.Keys + {requests[n].id}| <= 2 * MAX_IDENTITIES
  {
    hide Run;
    var n := |requests| - 1;
    assert requests == requests[..n] + [requests[n]];
    assert Names(requests) == Names(requests[..n]) + {requests[n].id};
    SubsetSize(Names(requests[..n]), Names(requests));
    RunNames(requests[..n], limit, window);
    SubsetSize(Run(requests[..n], limit, window).buckets.Keys + {requests[n].id}, Names(requests));
  }

  lemma {:induction false} PeakEarlier(requests: seq<Request>, lag: nat, peak: int) returns (top: int)
    requires requests != [] && Lagging(requests, lag) && Peak(requests, peak)
    ensures var n := |requests| - 1;
            && Lagging(requests[..n], lag) && (requests[..n] == [] || Peak(requests[..n], top))
            && top <= peak && peak - lag <= requests[n].now <= peak
  {
    var n := |requests| - 1;
    top := PeakOf(requests[..n], requests[n].now);
    if n > 0 {
      var i :| 0 <= i < n && requests[..n][i].now == top;
      assert requests[i].now == top;
    }
  }

  /** Over every run: all identities are behind the latest reading. */
  lemma {:induction false} RunBehind(requests: seq<Request>, lag: nat, slack: nat, limit: nat, window: nat, peak: int)
    requires Lagging(requests, lag) && (slack >= lag || Few(requests))
    requires requests == [] || Peak(requests, peak)
    ensures AllBehind(Run(requests, limit, window), peak, lag, slack, limit, window)
  {
    hide Behind, Step, Few, Peak, Lagging;
    if requests == [] {
      BehindNothing(peak, lag, slack, limit, window);
    } else {
      var n := |requests| - 1;
      var s := Run(requests[..n], limit, window);
      var top := PeakEarlier(requests, lag, peak);
      if Few(requests) {
        FewEarlier(requests, limit, window);
      }
      RunBehind(requests[..n], lag, slack, limit, window, top);
      forall id ensures Behind(LogOf(s.logs, id), LogOf(s.buckets, id), peak, lag, slack, limit, window) {
        BehindLater(LogOf(s.logs, id), LogOf(s.buckets, id), top, peak, lag, slack, limit, window);
      }
      BehindStep(s, requests[n].id, requests[n].now, peak, lag, slack, limit, window);
    }
  }

  lemma {:induction false} BehindNothing(peak: int, lag: nat, slack: nat, limit: nat, window: nat)
    ensures AllBehind(State(map[], map[]), peak, lag, slack, limit, window)
  {
  }

  lemma {:induction false} PeakOf(requests: seq<Request>, low: int) returns (peak: int)
    ensures if requests == [] then peak == low else Peak(requests, peak)
  {
    if requests == [] {
      peak := low;
    } else {
      var n := |requests| - 1;
      var earlier := PeakOf(requests[..n], requests[n].now);
      peak := Max(earlier, requests[n].now);
      if n > 0 && peak == earlier {
        var i :| 0 <= i < n && requests[..n][i].now == earlier;
        assert requests[i].now == peak;
      } else {
        assert requests[n].now == peak;
      }
    }
  }

  /** Every closed interval of length at most `width` holds at most `limit` of these admissions. */
  ghost predicate WithinLimit(log: seq<int>, limit: nat, width: int) {
    forall lo: int, hi: int :: hi - lo <= width ==> CountIn(log, lo, hi) <= limit
  }

  lemma {:induction false} SpreadWithin(log: seq<int>, limit: nat, width: int)
    requires limit >= 1 && Spread(log, limit, width)
    ensures WithinLimit(log, limit, width)
  {
    forall lo: int, hi: int | hi - lo <= width ensures CountIn(log, lo, hi) <= limit {
      SpreadCount(log, limit, hi - lo, lo);
    }
  }

  /**
   With readings up to `lag` late, every closed interval of length window - 2 lag holds at most `limit`
   admissions of one identity, and of length window - lag as long as nothing was evicted in bulk.
   */
  lemma {:induction false} LaggingWindow(requests: seq<Request>, lag: nat, limit: nat, window: nat, id: Identity)
    requires limit >= 1 && Lagging(requests, lag)
    ensures WithinLimit(Admissions(requests, limit, window, id), limit, window - 2 * lag)
    ensures Few(requests) ==> WithinLimit(Admissions(requests, limit, window, id), limit, window - lag)
  {
    hide Run, Few, Lagging, Peak, AllBehind, Spread, WithinLimit;
    var peak := PeakOf(requests, 0);
    RunBehind(requests, lag, lag, limit, window, peak);
    BehindSpread(Run(requests, limit, window), id, peak, lag, lag, limit, window);
    SpreadWithin(Admissions(requests, limit, window, id), limit, window - 2 * lag);
    if Few(requests) {
      RunBehind(requests, lag, 0, limit, window, peak);
      BehindSpread(Run(requests, limit, window), id, peak, lag, 0, limit, window);
      SpreadWithin(Admissions(requests, limit, window, id), limit, window - lag);
    }
  }

  lemma {:induction false} BehindSpread(s: State, id: Identity, peak: int, lag: nat, slack: nat, limit: nat, window: nat)
    requires AllBehind(s, peak, lag, slack, limit, window)
    ensures Spread(LogOf(s.logs, id), limit, window - lag - slack)
  {
    hide Spread;
    assert Behind(LogOf(s.logs, id), LogOf(s.buckets, id), peak, lag, slack, limit, window);
  }

  // ------------------------------------------------------------------------------ the bound is exact

  /** A limiter that has met one identity only. */
  function Solo(id: Identity, bucket: seq<int>, log: seq<int>): State {
    State(map[id := bucket], map[id := log])
  }

  lemma {:induction false} SoloStep(id: Identity, bucket: seq<int>, log: seq<int>, now: int, limit: nat, window: nat)
    requires |Trimmed(bucket, now, window)| < limit
    ensures Step(Solo(id, bucket, log), id, now, limit, window) ==
              Solo(id, Trimmed(bucket, now, window) + [now], log + [now])
  {
    hide Trimmed;
    var hits := Trimmed(bucket, now, window);
    assert map[id := bucket][id := hits + [now]] == map[id := hits + [now]];
    assert map[id := log][id := log + [now]] == map[id := log + [now]];
  }

  lemma {:induction false} FirstStep(id: Identity, now: int, limit: nat, window: nat)
    requires limit >= 1
    ensures Step(State(map[], map[]), id, now, limit, window) == Solo(id, [now], [now])
  {
    var none: Logs := map[];
    TrimmedExpired([], now, window);
    assert [] + [now] == [now] && none[id := [now]] == map[id := [now]];
  }

  lemma {:induction false} RunSnoc(requests: seq<Request>, r: Request, limit: nat, window: nat)
    ensures Run(requests + [r], limit, window) == Step(Run(requests, limit, window), r.id, r.now, limit, window)
  {
    assert (requests + [r])[..|requests|] == requests;
  }

  lemma {:induction false} TrimmedExpired(bucket: seq<int>, now: int, window: nat)
    requires forall i :: 0 <= i < |bucket| ==> Elapsed(now, bucket[i]) > window
    ensures Trimmed(bucket, now, window) == []
  {
    if bucket != [] {
      TrimmedExpired(bucket[1..], now, window);
    }
  }

  lemma {:induction false} TrimmedCurrent(bucket: seq<int>, now: int, window: nat)
    requires bucket != [] ==> Elapsed(now, bucket[0]) <= window
    ensures Trimmed(bucket, now, window) == bucket
  {
  }

  function Zeros(n: nat): seq<int> {
    if n == 0 then [] else Zeros(n - 1) + [0]
  }

  function ZeroRequests(id: Identity, n: nat): seq<Request> {
    if n == 0 then [] else ZeroRequests(id, n - 1) + [Request(id, 0)]
  }

  lemma {:induction false} AllZero(id: Identity, n: nat)
    ensures |Zeros(n)| == n == |ZeroRequests(id, n)|
    ensures forall i :: 0 <= i < n ==> Zeros(n)[i] == 0 && ZeroRequests(id, n)[i] == Request(id, 0)
  {
    if n > 0 {
      AllZero(id, n - 1);
    }
  }

  lemma {:induction false} ZerosRun(id: Identity, limit: nat, window: nat, n: nat)
    requires 1 <= n <= limit
    ensures Run(ZeroRequests(id, n), limit, window) == Solo(id, Zeros(n), Zeros(n))
  {
    hide Run, Step, Trimmed;
    RunSnoc(ZeroRequests(id, n - 1), Request(id, 0), limit, window);
    if n == 1 {
      EmptyRun(limit, window);
      FirstStep(id, 0, limit, window);
      assert ZeroRequests(id, 0) == [] && Zeros(1) == [] + [0] == [0];
    } else {
      ZerosRun(id, limit, window, n - 1);
      AllZero(id, n - 1);
      TrimmedCurrent(Zeros(n - 1), 0, window);
      SoloStep(id, Zeros(n - 1), Zeros(n - 1), 0, limit, window);
    }
  }

  lemma {:induction false} EmptyRun(limit: nat, window: nat)
    ensures Run([], limit, window) == State(map[], map[])
  {
  }

  /** `limit` requests at 0, one that empties the bucket, and one that is `late`. */
  function LateRun(id: Identity, limit: nat, window: nat, late: nat): seq<Request> {
    ZeroRequests(id, limit) + [Request(id, window + 1)] + [Request(id, window + 1 - late)]
  }

  /** All of them are admitted. */
  lemma {:induction false} LateRunAdmitted(id: Identity, limit: nat, window: nat, late: nat)
    requires limit >= 2 && late <= window + 1
    ensures Admissions(LateRun(id, limit, window, late), limit, window, id) ==
              Zeros(limit) + [window + 1] + [window + 1 - late]
  {
    hide Run, Step, Trimmed;
    var zeros, now := Zeros(limit), window + 1;
    ZerosRun(id, limit, window, limit);
    AllZero(id, limit);
    TrimmedExpired(zeros, now, window);
    SoloStep(id, zeros, zeros, now, limit, window);
    RunSnoc(ZeroRequests(id, limit), Request(id, now), limit, window);
    assert [] + [now] == [now];
    TrimmedCurrent([now], now - late, window);
    SoloStep(id, [now], zeros + [now], now - late, limit, window);
    RunSnoc(ZeroRequests(id, limit) + [Request(id, now)], Request(id, now - late), limit, window);
  }

  lemma {:induction false} LateRunLags(id: Identity, limit: nat, window: nat, late: nat)
    requires late <= window + 1
    ensures Lagging(LateRun(id, limit, window, late), late) && Few(LateRun(id, limit, window, late))
  {
    var requests := LateRun(id, limit, window, late);
    AllZero(id, limit);
    assert forall r :: r in requests ==> r.id == id;
    SubsetSize(Names(requests), {id});
  }

  lemma {:induction false} LateRunOverfull(limit: nat, window: nat, late: nat, length: nat)
    requires late <= window + 1 && window + 1 - late <= length
    ensures CountIn(Zeros(limit) + [window + 1] + [window + 1 - late], 0, length) > limit
  {
    CountInAppend(Zeros(limit) + [window + 1], [window + 1 - late], 0, length);
    CountInAppend(Zeros(limit), [window + 1], 0, length);
    CountZeros(limit, length);
  }

  lemma {:induction false} CountZeros(n: nat, length: nat)
    ensures CountIn(Zeros(n), 0, length) == n
  {
    if n > 0 {
      CountInAppend(Zeros(n - 1), [0], 0, length);
      CountZeros(n - 1, length);
    }
  }

  /**
   The exact bound while nothing is evicted in bulk: with readings up to `lag` late, a length is safe on
   every run if and only if it is at most window - lag.
   */
  lemma {:induction false} LagBoundIff(lag: nat, limit: nat, window: nat, length: nat)
    requires limit >= 2
    ensures (forall requests: seq<Request>, id :: Lagging(requests, lag) && Few(requests) ==>
               WithinLimit(Admissions(requests, limit, window, id), limit, length))
            <==> length <= window - lag
  {
    hide Admissions, Lagging, Few, CountIn, LateRun;
    if length <= window - lag {
      forall requests: seq<Request>, id | Lagging(requests, lag) && Few(requests)
        ensures WithinLimit(Admissions(requests, limit, window, id), limit, length)
      {
        LaggingWindow(requests, lag, limit, window, id);
      }
    } else {
      var late := if lag <= window + 1 then lag else window + 1;
      var requests := LateRun("a", limit, window, late);
      LateRunAdmitted("a", limit, window, late);
      LateRunLags("a", limit, window, late);
      LateRunOverfull(limit, window, late, length);
      LaggingMore(requests, late, lag);
      assert !WithinLimit(Admissions(requests, limit, window, "a"), limit, length);
    }
  }

  lemma {:induction false} LaggingMore(requests: seq<Request>, lag: nat, more: nat)
    requires Lagging(requests, lag) && lag <= more
    ensures Lagging(requests, more)
  {
  }

  /** With a limit of one the bucket is the last admission, and the next one is a window later, however late it is read. */
  ghost predicate Single(log: seq<int>, bucket: seq<int>, window: nat) {
    && bucket == (if log == [] then [] else [log[|log| - 1]])
    && Spaced(log, window + 1)
  }

  ghost predicate AllSingle(s: State, window: nat) {
    forall id :: Single(LogOf(s.logs, id), LogOf(s.buckets, id), window)
  }

  lemma {:induction false} SingleTrimmed(log: seq<int>, bucket: seq<int>, now: int, window: nat)
    requires Single(log, bucket, window)
    ensures Trimmed(bucket, now, window) == bucket || Trimmed(bucket, now, window) == []
    ensures Trimmed(bucket, now, window) == [] && log != [] ==> now - log[|log| - 1] > window
    ensures |bucket| <= 1
  {
    hide Spaced;
    if bucket != [] {
      assert bucket[1..] == [];
    }
  }

  lemma {:induction false} SingleAppended(log: seq<int>, hits: seq<int>, now: int, window: nat)
    requires Spaced(log, window + 1) && (log != [] ==> now - log[|log| - 1] > window) && hits == []
    ensures Single(log + [now], hits + [now], window)
  {
  }

  lemma {:induction false} SingleNext(log: seq<int>, bucket: seq<int>, now: int, window: nat)
    requires Single(log, bucket, window)
    ensures |Trimmed(bucket, now, window)| >= 1 ==> Single(log, Trimmed(bucket, now, window), window)
    ensures |Trimmed(bucket, now, window)| < 1 ==> Single(log + [now], Trimmed(bucket, now, window) + [now], window)
  {
    hide Trimmed, Spaced;
    SingleTrimmed(log, bucket, now, window);
    if |Trimmed(bucket, now, window)| < 1 {
      SingleAppended(log, Trimmed(bucket, now, window), now, window);
    }
  }

  lemma {:induction false} SingleStep(s: State, id: Identity, now: int, window: nat)
    requires AllSingle(s, window) && |s.buckets.Keys + {id}| <= 2 * MAX_IDENTITIES
    ensures AllSingle(Step(s, id, now, 1, window), window)
  {
    hide Single, Trimmed, LogOf;
    var log, bucket := LogOf(s.logs, id), LogOf(s.buckets, id);
    var hits, s' := Trimmed(bucket, now, window), Step(s, id, now, 1, window);
    SingleNext(log, bucket, now, window);
    if |hits| >= 1 {
      forall other ensures Single(LogOf(s'.logs, other), LogOf(s'.buckets, other), window) {
        LogSet(s.buckets, id, hits, other);
      }
    } else {
      assert s.buckets[id := hits + [now]].Keys == s.buckets.Keys + {id};
      forall other ensures Single(LogOf(s'.logs, other), LogOf(s'.buckets, other), window) {
        LogSet(s.buckets, id, hits + [now], other);
        LogSet(s.logs, id, log + [now], other);
      }
    }
  }

  lemma {:induction false} SingleRun(requests: seq<Request>, window: nat)
    requires Few(requests)
    ensures AllSingle(Run(requests, 1, window), window)
  {
    hide Single, Step, Few;
    if requests == [] {
      SingleNothing(window);
    } else {
      var n := |requests| - 1;
      FewEarlier(requests, 1, window);
      SingleRun(requests[..n], window);
      SingleStep(Run(requests[..n], 1, window), requests[n].id, requests[n].now, window);
    }
  }

  lemma {:induction false} SingleNothing(window: nat)
    ensures AllSingle(State(map[], map[]), window)
  {
  }

  /** A limit of one needs no order: while nothing is evicted in bulk the window bound holds whatever the readings. */
  lemma {:induction false} LimitOneHolds(requests: seq<Request>, window: nat, id: Identity)
    requires Few(requests)
    ensures WithinLimit(Admissions(requests, 1, window, id), 1, window)
  {
    hide Run, Few, WithinLimit;
    SingleRun(requests, window);
    var log := Admissions(requests, 1, window, id);
    assert Single(log, LogOf(Run(requests, 1, window).buckets, id), window);
    forall i, j | 0 <= i && i + 1 <= j < |log| ensures log[j] - log[i] > window {
      SpacedIsSorted(log, window + 1, i, j);
    }
    SpreadWithin(log, 1, window);
  }

  /** The pop loop leaves these of the bucket. */
  ghost predicate Leaves(bucket: seq<int>, now: int, window: nat, hits: seq<int>) {
    hits == Trimmed(bucket, now, window)
  }

  lemma {:induction false} SoloBucket(id: Identity, bucket: seq<int>, log: seq<int>)
    ensures LogOf(Solo(id, bucket, log).buckets, id) == bucket
  {
  }

  /** The first check of all. */
  method First(l: Limiter, id: Identity, now: int) returns (verdict: Verdict)
    requires l.Snapshot() == State(map[], map[]) && l.limit >= 1
    modifies l
    ensures verdict == Admitted && l.Snapshot() == Solo(id, [now], [now])
  {
    hide Step, AllKeep, Admits, IsRetryAfter, Live, Evict, Reference;
    FirstStep(id, now, l.limit, l.window);
    TrimmedExpired([], now, l.window);
    verdict := l.Check(id, now);
  }

  /** A check by the only identity so far whose trimmed bucket has room. */
  method Admit(l: Limiter, id: Identity, bucket: seq<int>, hits: seq<int>, log: seq<int>, now: int) returns (verdict: Verdict)
    requires l.Snapshot() == Solo(id, bucket, log) && Leaves(bucket, now, l.window, hits) && |hits| < l.limit
    modifies l
    ensures verdict == Admitted && l.Snapshot() == Solo(id, hits + [now], log + [now])
  {
    hide Step, Trimmed, AllKeep, Admits, IsRetryAfter, Live, Evict, Reference, LogOf;
    assert LogOf(l.identities, id) == bucket by {
      SoloBucket(id, bucket, log);
    }
    SoloStep(id, bucket, log, now, l.limit, l.window);
    verdict := l.Check(id, now);
  }

  lemma {:induction false} LateCount(window: nat)
    ensures CountIn([0, 0, window + 1, window], 0, window) == 3
  {
    var late := [0, 0, window + 1, window];
    assert late[1..] == [0, window + 1, window] && late[1..][1..] == [window + 1, window];
    assert late[1..][1..][1..] == [window] && late[1..][1..][1..][1..] == [];
    assert CountIn(late[1..][1..][1..], 0, window) == 1;
    assert CountIn(late[1..][1..], 0, window) == 1;
  }

  /** Four calls on the limiter itself: all are admitted, and [0, window] holds three where two are allowed. */
  method LateReadingAdmitted(windowSeconds: nat) returns (verdicts: seq<Verdict>, window: nat, admissions: seq<int>)
    ensures verdicts == [Admitted, Admitted, Admitted, Admitted] && window == Max(windowSeconds, 1) * TICKS_PER_SECOND
    ensures CountIn(admissions, 0, window) == 3
  {
    hide Step, Trimmed, AllKeep, Admits, IsRetryAfter, Live, Evict, Reference, LogOf, CountIn, Solo, Leaves;
    var l := new Limiter(2, windowSeconds, 0);
    window := l.window;
    LateBuckets(window);
    var a := First(l, "a", 0);
    var b := Admit(l, "a", [0], [0], [0], 0);
    var c := Admit(l, "a", [0, 0], [], [0, 0], window + 1);
    var d := Admit(l, "a", [window + 1], [window + 1], [0, 0, window + 1], window);
    verdicts, admissions := [a, b, c, d], [0, 0, window + 1, window];
    assert l.Snapshot() == Solo("a", [window + 1, window], admissions);
    LateCount(window);
  }

  /** What the bucket of this run looks like on the way. */
  lemma {:induction false} LateBuckets(window: nat)
    ensures Leaves([0], 0, window, [0]) && Leaves([0, 0], window + 1, window, []) && Leaves([window + 1], window, window, [window + 1])
    ensures [0] + [0] == [0, 0] && [] + [window + 1] == [window + 1] && [window + 1] + [window] == [window + 1, window]
    ensures [0, 0] + [window + 1] == [0, 0, window + 1] && [0, 0, window + 1] + [window] == [0, 0, window + 1, window]
  {
    hide Trimmed;
    TrimmedCurrent([0], 0, window);
    TrimmedExpired([0, 0], window + 1, window);
    TrimmedCurrent([window + 1], window, window);
  }
}
