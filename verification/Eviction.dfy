/**
 What late readings and bulk eviction do to the limiter's bound together. A bucket is evicted by its
 last admission alone, which may itself be late, so an eviction can forget admissions that a late
 reading would still have counted. The bound that is left is proved over all runs, and exact.
 */
module Eviction {
  import opened Common
  import opened RateLimiter

  // ------------------------------------------------------------------------------ a limit of one

  /**
   With a limit of one a bucket is the last admission, or empty once that is more than a window behind
   the latest reading; admissions keep their order, `window` - `lag` apart.
   */
  ghost predicate One(log: seq<int>, bucket: seq<int>, peak: int, lag: nat, window: nat) {
    && (bucket == [] || (log != [] && bucket == [log[|log| - 1]]))
    && (bucket == [] && log != [] ==> peak - log[|log| - 1] > window)
    && (forall i :: 0 <= i && i + 1 < |log| ==> log[i + 1] - log[i] > window - lag)
  }

  ghost predicate AllOne(s: State, peak: int, lag: nat, window: nat) {
    forall id :: One(LogOf(s.logs, id), LogOf(s.buckets, id), peak, lag, window)
  }

  lemma {:induction false} OneLater(log: seq<int>, bucket: seq<int>, peak: int, peak': int, lag: nat, window: nat)
    requires One(log, bucket, peak, lag, window) && peak <= peak'
    ensures One(log, bucket, peak', lag, window)
  {
  }

  /** What the pop loop leaves of such a bucket: all of it, or nothing when it is more than a window old. */
  lemma {:induction false} OneTrimmed(log: seq<int>, bucket: seq<int>, now: int, peak: int, lag: nat, window: nat)
    requires One(log, bucket, peak, lag, window) && peak - lag <= now <= peak
    ensures |Trimmed(bucket, now, window)| >= 1 ==> One(log, Trimmed(bucket, now, window), peak, lag, window)
    ensures |Trimmed(bucket, now, window)| < 1 ==>
              Trimmed(bucket, now, window) == [] && (log != [] ==> now - log[|log| - 1] > window - lag)
  {
    if bucket != [] {
      assert bucket[1..] == [];
    }
  }

  lemma {:induction false} OneAppended(log: seq<int>, now: int, peak: int, lag: nat, window: nat)
    requires forall i :: 0 <= i && i + 1 < |log| ==> log[i + 1] - log[i] > window - lag
    requires log != [] ==> now - log[|log| - 1] > window - lag
    ensures One(log + [now], [] + [now], peak, lag, window)
  {
  }

  lemma {:induction false} OneEvicted(log: seq<int>, bucket: seq<int>, now: int, peak: int, lag: nat, window: nat)
    requires One(log, bucket, peak, lag, window) && now <= peak && !Live(bucket, now, window)
    ensures One(log, [], peak, lag, window)
  {
  }

  lemma {:induction false} OneNext(log: seq<int>, bucket: seq<int>, now: int, peak: int, lag: nat, window: nat)
    requires One(log, bucket, peak, lag, window) && peak - lag <= now <= peak
    ensures var hits := Trimmed(bucket, now, window);
            if |hits| >= 1 then One(log, hits, peak, lag, window) else One(log + [now], hits + [now], peak, lag, window)
  {
    hide Trimmed;
    OneTrimmed(log, bucket, now, peak, lag, window);
    if |Trimmed(bucket, now, window)| < 1 {
      OneAppended(log, now, peak, lag, window);
    }
  }

  lemma {:induction false} OneStep(s: State, id: Identity, now: int, peak: int, lag: nat, window: nat)
    requires AllOne(s, peak, lag, window) && peak - lag <= now <= peak
    ensures AllOne(Step(s, id, now, 1, window), peak, lag, window)
  {
    hide One, Trimmed, Live, Evict, LogOf;
    var log, hits := LogOf(s.logs, id), Trimmed(LogOf(s.buckets, id), now, window);
    var s' := Step(s, id, now, 1, window);
    OneNext(log, LogOf(s.buckets, id), now, peak, lag, window);
    if |hits| >= 1 {
      forall other ensures One(LogOf(s'.logs, other), LogOf(s'.buckets, other), peak, lag, window) {
        LogSet(s.buckets, id, hits, other);
      }
    } else {
      var longer := s.buckets[id := hits + [now]];
      forall other ensures One(LogOf(s'.logs, other), LogOf(s'.buckets, other), peak, lag, window) {
        LogSet(s.buckets, id, hits + [now], other);
        LogSet(s.logs, id, log + [now], other);
        EvictedAt(longer, now, window, other);
        if |longer| > 2 * MAX_IDENTITIES && !Live(LogOf(longer, other), now, window) {
          OneEvicted(LogOf(s'.logs, other), LogOf(longer, other), now, peak, lag, window);
        }
      }
    }
  }

  lemma {:induction false} OneRun(requests: seq<Request>, lag: nat, window: nat, peak: int)
    requires Lagging(requests, lag) && (requests == [] || Peak(requests, peak))
    ensures AllOne(Run(requests, 1, window), peak, lag, window)
  {
    hide One, Step, Peak, Lagging;
    if requests == [] {
      OneNothing(peak, lag, window);
    } else {
      var n := |requests| - 1;
      var s := Run(requests[..n], 1, window);
      var top := PeakEarlier(requests, lag, peak);
      OneRun(requests[..n], lag, window, top);
      forall id ensures One(LogOf(s.logs, id), LogOf(s.buckets, id), peak, lag, window) {
        OneLater(LogOf(s.logs, id), LogOf(s.buckets, id), top, peak, lag, window);
      }
      OneStep(s, requests[n].id, requests[n].now, peak, lag, window);
    }
  }

  lemma {:induction false} OneNothing(peak: int, lag: nat, window: nat)
    ensures AllOne(State(map[], map[]), peak, lag, window)
  {
  }

  /** No interval is shorter than nothing. */
  lemma {:induction false} NegativeWidth(log: seq<int>, limit: nat, width: int)
    requires width < 0
    ensures WithinLimit(log, limit, width)
  {
    forall lo: int, hi: int | hi - lo <= width ensures CountIn(log, lo, hi) <= limit {
      CountNothing(log, lo, hi);
    }
  }

  lemma {:induction false} CountNothing(log: seq<int>, lo: int, hi: int)
    requires hi < lo
    ensures CountIn(log, lo, hi) == 0
  {
    if log != [] {
      CountNothing(log[1..], lo, hi);
    }
  }

  /** A limit of one loses one lag to evictions, not two. */
  lemma {:induction false} LimitOneLags(requests: seq<Request>, lag: nat, window: nat, id: Identity)
    requires Lagging(requests, lag)
    ensures WithinLimit(Admissions(requests, 1, window, id), 1, window - lag)
  {
    hide Run, Lagging, Peak, WithinLimit;
    var log := Admissions(requests, 1, window, id);
    if window < lag {
      NegativeWidth(log, 1, window - lag);
    } else {
      var peak := PeakOf(requests, 0);
      OneRun(requests, lag, window, peak);
      assert One(log, LogOf(Run(requests, 1, window).buckets, id), peak, lag, window);
      forall i, j | 0 <= i && i + 1 <= j < |log| ensures log[j] - log[i] > window - lag {
        SpacedIsSorted(log, window - lag + 1, i, j);
      }
      SpreadWithin(log, 1, window - lag);
    }
  }

  // ------------------------------------------------------------------------------ flooding

  /** Other callers, all different. */
  function Name(i: nat): string {
    if i == 0 then "b" else Name(i - 1) + "b"
  }

  lemma {:induction false} NameLength(i: nat)
    ensures |Name(i)| == i + 1 && Name(i) != "a"
  {
    if i > 0 {
      NameLength(i - 1);
    }
  }

  function NameSet(n: nat): set<Identity> {
    if n == 0 then {} else NameSet(n - 1) + {Name(n - 1)}
  }

  lemma {:induction false} NameSetSize(n: nat)
    ensures |NameSet(n)| == n && "a" !in NameSet(n)
    ensures forall m: nat :: m >= n ==> Name(m) !in NameSet(n)
  {
    if n > 0 {
      NameSetSize(n - 1);
      NameLength(n - 1);
      forall m: nat | m >= n ensures Name(m) != Name(n - 1) {
        NameLength(m);
      }
    }
  }

  /** n other callers, once each. */
  function Others(n: nat, now: int): seq<Request> {
    if n == 0 then [] else Others(n - 1, now) + [Request(Name(n - 1), now)]
  }

  /** The bucket of "a" is untouched and nobody has been evicted yet. */
  ghost predicate Filling(s: State, n: nat, bucket: seq<int>, log: seq<int>) {
    && LogOf(s.logs, "a") == log && LogOf(s.buckets, "a") == bucket
    && s.buckets.Keys == {"a"} + NameSet(n)
  }

  /** A first request is admitted; unless the map overflows nothing else changes. */
  lemma {:induction false} FillStep(s: State, n: nat, bucket: seq<int>, log: seq<int>, now: int, limit: nat, window: nat)
    requires Filling(s, n, bucket, log) && limit >= 1 && n + 1 < 2 * MAX_IDENTITIES
    ensures Filling(Step(s, Name(n), now, limit, window), n + 1, bucket, log)
  {
    hide Trimmed, Name;
    NameSetSize(n);
    NameSetSize(n + 1);
    NameLength(n);
    TrimmedExpired([], now, window);
    assert LogOf(s.buckets, Name(n)) == [];
    assert s.buckets[Name(n) := [now]].Keys == {"a"} + NameSet(n + 1);
    assert [] + [now] == [now];
    assert |{"a"} + NameSet(n + 1)| == n + 2;
  }

  /** The request that overflows the map drops a bucket whose last admission is more than a window back. */
  lemma {:induction false} OverflowStep(s: State, n: nat, bucket: seq<int>, log: seq<int>, now: int, limit: nat, window: nat)
    requires Filling(s, n, bucket, log) && limit >= 1 && n + 1 == 2 * MAX_IDENTITIES
    requires !Live(bucket, now, window)
    ensures var s' := Step(s, Name(n), now, limit, window);
            LogOf(s'.logs, "a") == log && LogOf(s'.buckets, "a") == []
  {
    hide Trimmed, Name, Live, Evict;
    NameSetSize(n);
    NameSetSize(n + 1);
    NameLength(n);
    TrimmedExpired([], now, window);
    assert LogOf(s.buckets, Name(n)) == [];
    assert [] + [now] == [now];
    var longer := s.buckets[Name(n) := [now]];
    assert longer.Keys == {"a"} + NameSet(n + 1);
    assert |{"a"} + NameSet(n + 1)| == n + 2;
    EvictedAt(longer, now, window, "a");
  }

  lemma {:induction false} FillRun(pre: seq<Request>, n: nat, bucket: seq<int>, log: seq<int>, now: int, limit: nat, window: nat)
    requires Run(pre, limit, window) == Solo("a", bucket, log) && limit >= 1 && n < 2 * MAX_IDENTITIES
    ensures Filling(Run(pre + Others(n, now), limit, window), n, bucket, log)
  {
    hide Run, Step, Filling, Name;
    if n == 0 {
      assert pre + [] == pre;
      FillingSolo(bucket, log);
    } else {
      FillRun(pre, n - 1, bucket, log, now, limit, window);
      FillStep(Run(pre + Others(n - 1, now), limit, window), n - 1, bucket, log, now, limit, window);
      RunSnoc(pre + Others(n - 1, now), Request(Name(n - 1), now), limit, window);
      assert pre + Others(n, now) == pre + Others(n - 1, now) + [Request(Name(n - 1), now)];
    }
  }

  lemma {:induction false} FillingSolo(bucket: seq<int>, log: seq<int>)
    ensures Filling(Solo("a", bucket, log), 0, bucket, log)
  {
  }

  /** Enough other callers make the limiter forget "a". */
  lemma {:induction false} FloodRun(pre: seq<Request>, bucket: seq<int>, log: seq<int>, now: int, limit: nat, window: nat)
    requires Run(pre, limit, window) == Solo("a", bucket, log) && limit >= 1 && !Live(bucket, now, window)
    ensures var s := Run(pre + Others(2 * MAX_IDENTITIES, now), limit, window);
            LogOf(s.logs, "a") == log && LogOf(s.buckets, "a") == []
  {
    hide Run, Step, Filling, Name, Live;
    var n := 2 * MAX_IDENTITIES - 1;
    FillRun(pre, n, bucket, log, now, limit, window);
    OverflowStep(Run(pre + Others(n, now), limit, window), n, bucket, log, now, limit, window);
    RunSnoc(pre + Others(n, now), Request(Name(n), now), limit, window);
    assert pre + Others(n + 1, now) == pre + Others(n, now) + [Request(Name(n), now)];
  }

  /** An admitted request is logged and stays in its bucket, whatever is evicted by it. */
  lemma {:induction false} AdmittedStep(s: State, id: Identity, now: int, limit: nat, window: nat)
    requires |Trimmed(LogOf(s.buckets, id), now, window)| < limit
    ensures var s' := Step(s, id, now, limit, window);
            && LogOf(s'.logs, id) == LogOf(s.logs, id) + [now]
            && LogOf(s'.buckets, id) == Trimmed(LogOf(s.buckets, id), now, window) + [now]
  {
    hide Trimmed, Evict, LogOf, Live;
    var hits := Trimmed(LogOf(s.buckets, id), now, window);
    LogSet(s.buckets, id, hits + [now], id);
    LogSet(s.logs, id, LogOf(s.logs, id) + [now], id);
    EvictedAt(s.buckets[id := hits + [now]], now, window, id);
    JustAdmitted(hits, now, window);
  }

  lemma {:induction false} JustAdmitted(hits: seq<int>, now: int, window: nat)
    ensures Live(hits + [now], now, window)
  {
  }

  // ------------------------------------------------------------------------------ the worst run

  /**
   All but one of the limit at 0 and one `early` behind them; then enough others to evict that bucket as
   soon as its last admission is more than a window back; then two readings that are `late`.
   */
  function Before(limit: nat, early: int): seq<Request>
    requires limit >= 1
  {
    ZeroRequests("a", limit - 1) + [Request("a", -early)]
  }

  function WorstRun(limit: nat, window: nat, early: int, late: nat): seq<Request>
    requires limit >= 1
  {
    var peak := window + 1 - early;
    Before(limit, early) + Others(2 * MAX_IDENTITIES, peak) + [Request("a", peak - late)] + [Request("a", peak - late)]
  }

  lemma {:induction false} BeforeRun(limit: nat, window: nat, early: int)
    requires limit >= 1 && early >= 0
    ensures var log := Zeros(limit - 1) + [-early]; Run(Before(limit, early), limit, window) == Solo("a", log, log)
  {
    hide Run, Step, Trimmed;
    RunSnoc(ZeroRequests("a", limit - 1), Request("a", -early), limit, window);
    if limit == 1 {
      EmptyRun(limit, window);
      FirstStep("a", -early, limit, window);
      assert ZeroRequests("a", 0) == [] && Zeros(0) + [-early] == [-early];
    } else {
      ZerosRun("a", limit, window, limit - 1);
      AllZero("a", limit - 1);
      TrimmedCurrent(Zeros(limit - 1), -early, window);
      SoloStep("a", Zeros(limit - 1), Zeros(limit - 1), -early, limit, window);
    }
  }

  /** A reading that finds its bucket forgotten is admitted. */
  lemma {:induction false} ForgottenStep(s: State, log: seq<int>, x: int, limit: nat, window: nat)
    requires LogOf(s.logs, "a") == log && LogOf(s.buckets, "a") == [] && limit >= 1
    ensures LogOf(Step(s, "a", x, limit, window).logs, "a") == log + [x]
    ensures LogOf(Step(s, "a", x, limit, window).buckets, "a") == [x]
  {
    hide Trimmed, LogOf, Step;
    TrimmedExpired([], x, window);
    AdmittedStep(s, "a", x, limit, window);
    assert [] + [x] == [x];
  }

  /** The next one at the same instant is admitted if the limit is two or more. */
  lemma {:induction false} SecondStep(s: State, log: seq<int>, x: int, limit: nat, window: nat)
    requires LogOf(s.logs, "a") == log && LogOf(s.buckets, "a") == [x] && limit >= 1
    ensures LogOf(Step(s, "a", x, limit, window).logs, "a") == if limit == 1 then log else log + [x]
  {
    hide Trimmed, LogOf, Step;
    TrimmedCurrent([x], x, window);
    if limit == 1 {
      RejectedStep(s, "a", x, limit, window);
    } else {
      AdmittedStep(s, "a", x, limit, window);
    }
  }

  /** The first of the late readings is admitted, and with a limit of two or more the second as well. */
  lemma {:induction false} WorstRunAdmitted(limit: nat, window: nat, early: int, late: nat)
    requires limit >= 1 && early >= 0
    ensures var x, log := window + 1 - early - late, Admissions(WorstRun(limit, window, early, late), limit, window, "a");
            log == Zeros(limit - 1) + [-early] + (if limit == 1 then [x] else [x] + [x])
  {
    hide Run, Step, Live, LogOf, Others;
    var log, peak, x := Zeros(limit - 1) + [-early], window + 1 - early, window + 1 - early - late;
    BeforeRun(limit, window, early);
    BeforeDead(log, peak, window);
    FloodRun(Before(limit, early), log, log, peak, limit, window);
    var flooded := Before(limit, early) + Others(2 * MAX_IDENTITIES, peak);
    var s := Run(flooded, limit, window);
    RunSnoc(flooded, Request("a", x), limit, window);
    RunSnoc(flooded + [Request("a", x)], Request("a", x), limit, window);
    ForgottenStep(s, log, x, limit, window);
    SecondStep(Step(s, "a", x, limit, window), log + [x], x, limit, window);
    assert log + [x] + [x] == log + ([x] + [x]);
  }

  lemma {:induction false} RejectedStep(s: State, id: Identity, now: int, limit: nat, window: nat)
    requires |Trimmed(LogOf(s.buckets, id), now, window)| >= limit
    ensures Step(s, id, now, limit, window).logs == s.logs
  {
  }

  lemma {:induction false} BeforeDead(log: seq<int>, peak: int, window: nat)
    requires log != [] && peak - log[|log| - 1] > window
    ensures !Live(log, peak, window)
  {
  }

  lemma {:induction false} LaggingAppend(a: seq<Request>, b: seq<Request>, lag: nat)
    requires Lagging(a, lag) && Lagging(b, lag)
    requires forall i, j :: 0 <= i < |a| && 0 <= j < |b| ==> b[j].now >= a[i].now - lag
    ensures Lagging(a + b, lag)
  {
    var c := a + b;
    forall i, j | 0 <= i <= j < |c| ensures c[j].now >= c[i].now - lag {
      assert c[i] == if i < |a| then a[i] else b[i - |a|];
      assert c[j] == if j < |a| then a[j] else b[j - |a|];
    }
  }

  lemma {:induction false} OthersAt(n: nat, now: int)
    ensures |Others(n, now)| == n && forall i :: 0 <= i < n ==> Others(n, now)[i].now == now
  {
    if n > 0 {
      OthersAt(n - 1, now);
    }
  }

  lemma {:induction false} WorstRunLags(limit: nat, window: nat, early: int, late: nat, lag: nat)
    requires limit >= 1 && 0 <= early <= lag && late <= lag && early + late <= window + 1
    ensures Lagging(WorstRun(limit, window, early, late), lag)
  {
    hide Others;
    var peak := window + 1 - early;
    AllZero("a", limit - 1);
    OthersAt(2 * MAX_IDENTITIES, peak);
    var before, others, x := Before(limit, early), Others(2 * MAX_IDENTITIES, peak), [Request("a", peak - late)];
    LaggingAppend(ZeroRequests("a", limit - 1), [Request("a", -early)], lag);
    LaggingAppend(before, others, lag);
    LaggingAppend(before + others, x, lag);
    LaggingAppend(before + others + x, x, lag);
  }

  lemma {:induction false} WorstRunOverfull(limit: nat, early: int, x: nat, length: nat)
    requires limit >= 1 && x <= length && (limit == 1 ==> early == 0)
    ensures CountIn(Zeros(limit - 1) + [-early] + (if limit == 1 then [x] else [x] + [x]), 0, length) > limit
  {
    var last := if limit == 1 then [x] else [x] + [x];
    CountInAppend(Zeros(limit - 1) + [-early], last, 0, length);
    CountInAppend(Zeros(limit - 1), [-early], 0, length);
    CountInAppend([x], [x], 0, length);
    CountZeros(limit - 1, length);
    CountOne(x, length);
    assert limit == 1 ==> CountIn([-early], 0, length) == 1 by {
      CountOne(0, length);
    }
  }

  lemma {:induction false} CountOne(x: nat, length: nat)
    requires x <= length
    ensures CountIn([x], 0, length) == 1
  {
    assert [x][1..] == [];
  }

  // ------------------------------------------------------------------------------ the exact bound

  /** How much of the window late readings can cost. */
  function Cost(limit: nat, lag: nat): nat {
    if limit == 1 then lag else 2 * lag
  }

  lemma {:induction false} WithinNarrower(log: seq<int>, limit: nat, width: int, narrow: int)
    requires WithinLimit(log, limit, width) && narrow <= width
    ensures WithinLimit(log, limit, narrow)
  {
  }

  /** Every longer interval is overfull on some run. */
  lemma {:induction false} LongerOverfull(lag: nat, limit: nat, window: nat, length: nat) returns (requests: seq<Request>)
    requires limit >= 1 && length > window - Cost(limit, lag)
    ensures Lagging(requests, lag) && !WithinLimit(Admissions(requests, limit, window, "a"), limit, length)
  {
    hide Lagging, Admissions, WorstRun, CountIn;
    var total := if Cost(limit, lag) <= window + 1 then Cost(limit, lag) else window + 1;
    var early := if limit == 1 then 0 else total / 2;
    var late := total - early;
    requests := WorstRun(limit, window, early, late);
    WorstRunLags(limit, window, early, late, lag);
    WorstRunAdmitted(limit, window, early, late);
    WorstRunOverfull(limit, early, window + 1 - total, length);
  }

  /**
   The exact bound over all runs, evictions included: with readings up to `lag` late, a length is safe on
   every run if and only if it is at most the window less `lag`, or less twice `lag` for a limit of two or more.
   */
  lemma {:induction false} AllRunsBoundIff(lag: nat, limit: nat, window: nat, length: nat)
    requires limit >= 1
    ensures (forall requests: seq<Request>, id :: Lagging(requests, lag) ==>
               WithinLimit(Admissions(requests, limit, window, id), limit, length))
            <==> length <= window - Cost(limit, lag)
  {
    hide Lagging, Admissions, WithinLimit, Few;
    if length <= window - Cost(limit, lag) {
      forall requests: seq<Request>, id | Lagging(requests, lag)
        ensures WithinLimit(Admissions(requests, limit, window, id), limit, length)
      {
        if limit == 1 {
          LimitOneLags(requests, lag, window, id);
        } else {
          LaggingWindow(requests, lag, limit, window, id);
        }
        WithinNarrower(Admissions(requests, limit, window, id), limit, window - Cost(limit, lag), length);
      }
    } else {
      var requests := LongerOverfull(lag, limit, window, length);
    }
  }

  /** In particular, for every limit: the window itself is safe on all runs if and only if no reading is late. */
  lemma {:induction false} WindowBoundIff(lag: nat, limit: nat, window: nat)
    requires limit >= 1
    ensures (forall requests: seq<Request>, id :: Lagging(requests, lag) ==>
               WithinLimit(Admissions(requests, limit, window, id), limit, window))
            <==> lag == 0
  {
    hide Lagging, Admissions, WithinLimit;
    AllRunsBoundIff(lag, limit, window, window);
  }
}
