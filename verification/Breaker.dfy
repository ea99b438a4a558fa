/**
 The three-state circuit breaker of src/linkedin/throttle.rs. Every call reads the clock
 under the mutex, so readings are ordered like the calls. `check` reads it twice on the
 rejecting path and subtracts the second reading from the cooldown; when the cooldown
 ends between the two readings that subtraction panics and poisons the mutex.
 */
module Breaker {
  import opened Common

  datatype Inner =
    | Closed(failures: nat)
    | Open(openedAt: int)
    | HalfOpen
    | Poisoned

  datatype Verdict = Pass | Reject(retryIn: int) | Panic

  /** A call on the breaker with its clock readings. */
  datatype Event =
    | Check(now: int, later: int)
    | Success
    | Failure(at: int)

  datatype State = ClosedState | OpenState | HalfOpenState

  function CheckStep(inner: Inner, cooldown: nat, now: int, later: int): (Inner, Verdict) {
    match inner
    case Closed(_) => (inner, Pass)
    case Open(openedAt) =>
      if now - openedAt < cooldown then
        if later - openedAt > cooldown then (Poisoned, Panic)
        else (inner, Reject(cooldown - (later - openedAt)))
      else (HalfOpen, Pass)
    case HalfOpen => (inner, Reject(cooldown))
    case Poisoned => (inner, Panic)
  }

  function Step(inner: Inner, threshold: nat, cooldown: nat, e: Event): Inner {
    match e
    case Check(now, later) => CheckStep(inner, cooldown, now, later).0
    case Success => if inner.Poisoned? then inner else Closed(0)
    case Failure(at) =>
      match inner
      case Closed(f) => if f + 1 >= threshold then Open(at) else Closed(f + 1)
      case HalfOpen => Open(at)
      case Open(_) => inner
      case Poisoned => inner
  }

  function Run(inner: Inner, threshold: nat, cooldown: nat, log: seq<Event>): Inner {
    if log == [] then inner
    else Step(Run(inner, threshold, cooldown, log[..|log| - 1]), threshold, cooldown, log[|log| - 1])
  }

  class CircuitBreaker {
    const threshold: nat
    const cooldown: nat
    var inner: Inner
    ghost var log: seq<Event>

    ghost predicate Valid()
      reads this
    {
      threshold >= 1 && inner == Run(Closed(0), threshold, cooldown, log)
    }

    constructor (threshold: nat, cooldown: int)
      ensures Valid() && log == []
      ensures this.threshold == Max(threshold, 1) && this.cooldown == Max(cooldown, 0)
    {
      this.threshold := Max(threshold, 1);
      this.cooldown := Max(cooldown, 0);
      inner := Closed(0);
      log := [];
    }

    method Check(now: int, later: int) returns (v: Verdict)
      requires Valid()
      modifies this
      ensures Valid() && log == old(log) + [Event.Check(now, later)]
      ensures v == CheckStep(old(inner), cooldown, now, later).1
      ensures !old(inner).Poisoned? ==> IsVerdict(old(log), threshold, cooldown, now, later, v)
    {
      if !inner.Poisoned? {
        VerdictFromHistory(threshold, cooldown, log, now, later);
      }
      match inner {
        case Closed(_) => v := Pass;
        case Open(openedAt) =>
          if now - openedAt < cooldown {
            if later - openedAt > cooldown {
              inner, v := Poisoned, Panic;
            } else {
              v := Reject(cooldown - (later - openedAt));
            }
          } else {
            inner, v := HalfOpen, Pass;
          }
        case HalfOpen => v := Reject(cooldown);
        case Poisoned => v := Panic;
      }
      Extend(Event.Check(now, later));
    }

    method RecordSuccess()
      requires Valid()
      modifies this
      ensures Valid() && log == old(log) + [Success]
    {
      if !inner.Poisoned? {
        inner := Closed(0);
      }
      Extend(Success);
    }

    method RecordFailure(at: int)
      requires Valid()
      modifies this
      ensures Valid() && log == old(log) + [Failure(at)]
    {
      match inner {
        case Closed(failures) =>
          inner := if failures + 1 >= threshold then Open(at) else Closed(failures + 1);
        case HalfOpen => inner := Open(at);
        case Open(_) =>
        case Poisoned =>
      }
      Extend(Failure(at));
    }

    /** The diagnostic view: an open breaker past its cooldown already reports half-open. */
    method Report(now: int) returns (s: Option<State>)
      requires Valid()
      ensures s.None? <==> inner.Poisoned?
      ensures s == Some(ClosedState) <==> inner.Closed?
      ensures s == Some(OpenState) <==> inner.Open? && CheckStep(inner, cooldown, now, now).1.Reject?
    {
      match inner {
        case Closed(_) => s := Some(ClosedState);
        case Open(openedAt) =>
          s := Some(if now - openedAt >= cooldown then HalfOpenState else OpenState);
        case HalfOpen => s := Some(HalfOpenState);
        case Poisoned => s := None;
      }
    }

    ghost method Extend(e: Event)
      requires threshold >= 1
      requires inner == Step(Run(Closed(0), threshold, cooldown, log), threshold, cooldown, e)
      modifies this`log
      ensures Valid() && log == old(log) + [e]
    {
      ghost var before := log;
      log := log + [e];
      assert log[..|log| - 1] == before;
    }
  }

  // --------------------------------------------------------------- which state, from the history

  /** Failures recorded since the last success. */
  function FailuresSinceSuccess(log: seq<Event>): nat {
    if log == [] then 0
    else
      var rest := FailuresSinceSuccess(log[..|log| - 1]);
      match log[|log| - 1]
      case Check(_, _) => rest
      case Success => 0
      case Failure(_) => rest + 1
  }

  /**
   Over every history that has not poisoned the mutex: the breaker is closed exactly while fewer
   than `threshold` failures have been recorded since the last success, and then its counter is
   that number.
   */
  lemma {:induction false} ClosedIffFewFailures(threshold: nat, cooldown: nat, log: seq<Event>)
    requires threshold >= 1
    requires !Run(Closed(0), threshold, cooldown, log).Poisoned?
    ensures Run(Closed(0), threshold, cooldown, log).Closed? <==> FailuresSinceSuccess(log) < threshold
    ensures Run(Closed(0), threshold, cooldown, log).Closed? ==>
              Run(Closed(0), threshold, cooldown, log).failures == FailuresSinceSuccess(log)
  {
    if log != [] {
      ClosedIffFewFailures(threshold, cooldown, log[..|log| - 1]);
    }
  }

  // ------------------------------------------------------------------------------ the verdict, from the history

  /**
   The instant of the failure that opened the breaker: the one that filled the count, or a later one that
   answered a probe. A failure recorded while the breaker is open does not count.
   */
  function OpenedAt(log: seq<Event>, threshold: nat, cooldown: nat): Option<int> {
    if log == [] then None
    else
      var earlier := log[..|log| - 1];
      match log[|log| - 1]
      case Success => None
      case Check(_, _) => OpenedAt(earlier, threshold, cooldown)
      case Failure(at) =>
        if FailuresSinceSuccess(log) < threshold then None
        else if FailuresSinceSuccess(log) == threshold || ProbeOut(earlier, threshold, cooldown) then Some(at)
        else OpenedAt(earlier, threshold, cooldown)
  }

  /** Since the last record some check came a cooldown or more after the breaker opened. */
  predicate ProbeOut(log: seq<Event>, threshold: nat, cooldown: nat) {
    log != [] && log[|log| - 1].Check? &&
    var earlier := log[..|log| - 1];
    || ProbeOut(earlier, threshold, cooldown)
    || (match OpenedAt(earlier, threshold, cooldown)
        case Some(t) => t + cooldown <= log[|log| - 1].now
        case None => false)
  }

  /**
   What a check is told after this history: pass while fewer than `threshold` failures were recorded since
   the last success, and pass, as the probe, a cooldown after the opening. Until then, the time left of the
   cooldown; while a probe is out, a whole cooldown.
   */
  ghost predicate IsVerdict(log: seq<Event>, threshold: nat, cooldown: nat, now: int, later: int, v: Verdict) {
    if FailuresSinceSuccess(log) < threshold then v == Pass
    else if ProbeOut(log, threshold, cooldown) then v == Reject(cooldown)
    else
      match OpenedAt(log, threshold, cooldown)
      case None => false
      case Some(t) =>
        if t + cooldown <= now then v == Pass
        else if t + cooldown < later then v == Panic
        else v == Reject(t + cooldown - later)
  }

  lemma {:induction false} OpenedFromHistory(threshold: nat, cooldown: nat, log: seq<Event>)
    requires threshold >= 1 && !Run(Closed(0), threshold, cooldown, log).Poisoned?
    ensures var inner := Run(Closed(0), threshold, cooldown, log);
            && (inner.HalfOpen? <==> ProbeOut(log, threshold, cooldown))
            && (inner.Open? ==> OpenedAt(log, threshold, cooldown) == Some(inner.openedAt))
            && (inner.HalfOpen? ==> FailuresSinceSuccess(log) >= threshold)
            && (inner.Closed? ==> OpenedAt(log, threshold, cooldown) == None)
  {
    ClosedIffFewFailures(threshold, cooldown, log);
    if log != [] {
      var earlier := log[..|log| - 1];
      OpenedFromHistory(threshold, cooldown, earlier);
      ClosedIffFewFailures(threshold, cooldown, earlier);
    }
  }

  /** Over every history that has not poisoned the mutex, and for any two readings: the verdict of the next check. */
  lemma {:induction false} VerdictFromHistory(threshold: nat, cooldown: nat, log: seq<Event>, now: int, later: int)
    requires threshold >= 1 && !Run(Closed(0), threshold, cooldown, log).Poisoned?
    ensures IsVerdict(log, threshold, cooldown, now, later,
                      CheckStep(Run(Closed(0), threshold, cooldown, log), cooldown, now, later).1)
  {
    hide Run, FailuresSinceSuccess, OpenedAt, ProbeOut;
    ClosedIffFewFailures(threshold, cooldown, log);
    OpenedFromHistory(threshold, cooldown, log);
  }

  // ------------------------------------------------------------------------------ the panic

  /** A check that meets an open breaker whose cooldown ends strictly between its two readings. */
  ghost predicate CutShort(inner: Inner, cooldown: nat, e: Event) {
    e.Check? && inner.Open? && e.now < inner.openedAt + cooldown < e.later
  }

  /** The k-th event of this history is such a check. */
  ghost predicate CutShortAt(threshold: nat, cooldown: nat, log: seq<Event>, k: nat) {
    k < |log| && CutShort(Run(Closed(0), threshold, cooldown, log[..k]), cooldown, log[k])
  }

  /** Over every history: the mutex is poisoned if and only if the cooldown once ended inside a check. */
  lemma {:induction false} PoisonedIff(threshold: nat, cooldown: nat, log: seq<Event>)
    ensures Run(Closed(0), threshold, cooldown, log).Poisoned? <==>
            exists k: nat :: CutShortAt(threshold, cooldown, log, k)
  {
    if log != [] {
      var n := |log| - 1;
      var earlier := log[..n];
      PoisonedIff(threshold, cooldown, earlier);
      assert forall k: nat :: k < n ==> earlier[..k] == log[..k];
      assert forall k: nat :: k < n ==> CutShortAt(threshold, cooldown, earlier, k) == CutShortAt(threshold, cooldown, log, k);
      PoisonStep(Run(Closed(0), threshold, cooldown, earlier), threshold, cooldown, log[n]);
      assert CutShortAt(threshold, cooldown, log, n) ==
             CutShort(Run(Closed(0), threshold, cooldown, earlier), cooldown, log[n]);
    }
  }

  lemma {:induction false} PoisonStep(inner: Inner, threshold: nat, cooldown: nat, e: Event)
    ensures Step(inner, threshold, cooldown, e).Poisoned? <==> inner.Poisoned? || CutShort(inner, cooldown, e)
  {
  }

  /** From then on no check ever passes, whatever is recorded, successes included. */
  lemma {:induction false} PoisonIsForever(threshold: nat, cooldown: nat, log: seq<Event>, events: seq<Event>)
    requires Run(Closed(0), threshold, cooldown, log).Poisoned?
    ensures Run(Closed(0), threshold, cooldown, log + events).Poisoned?
    ensures Passes(Run(Closed(0), threshold, cooldown, log), threshold, cooldown, events) == []
  {
    if events == [] {
      assert log + events == log;
    } else {
      var n := |events| - 1;
      assert (log + events)[..|log| + n] == log + events[..n];
      PoisonIsForever(threshold, cooldown, log, events[..n]);
    }
    PassesOfPoisoned(threshold, cooldown, events);
  }

  lemma {:induction false} PassesOfPoisoned(threshold: nat, cooldown: nat, events: seq<Event>)
    ensures Passes(Poisoned, threshold, cooldown, events) == []
  {
    if events != [] {
      PassesOfPoisoned(threshold, cooldown, events[1..]);
    }
  }

  /** With any positive cooldown a run that a clock can produce gets there in two calls. */
  lemma {:induction false} PanicReachable(cooldown: nat)
    requires cooldown > 0
    ensures var log := [Failure(0), Check(cooldown - 1, cooldown + 1)];
            Ordered(0, log) && Run(Closed(0), 1, cooldown, log) == Poisoned
  {
    var log := [Failure(0), Check(cooldown - 1, cooldown + 1)];
    assert log[1..] == [Check(cooldown - 1, cooldown + 1)] && log[1..][1..] == [];
    assert log[..1] == [Failure(0)] && log[..1][..0] == [];
    assert Run(Closed(0), 1, cooldown, log[..1]) == Open(0);
  }

  // ------------------------------------------------------------------------------ probe rate

  /** Clock readings never run backwards from one call to the next. */
  ghost predicate Ordered(from: int, events: seq<Event>)
    decreases |events|
  {
    events == [] ||
    match events[0]
    case Check(now, later) => from <= now <= later && Ordered(later, events[1..])
    case Success => Ordered(from, events[1..])
    case Failure(at) => from <= at && Ordered(at, events[1..])
  }

  /** The readings at which `check` let a caller through. */
  function Passes(inner: Inner, threshold: nat, cooldown: nat, events: seq<Event>): seq<int>
    decreases |events|
  {
    if events == [] then []
    else
      var rest := Passes(Step(inner, threshold, cooldown, events[0]), threshold, cooldown, events[1..]);
      if events[0].Check? && CheckStep(inner, cooldown, events[0].now, events[0].later).1.Pass?
      then [events[0].now] + rest
      else rest
  }

  /** No probe can be granted before this instant. */
  function EarliestProbe(inner: Inner, cooldown: nat, from: int): int {
    match inner
    case Open(openedAt) => openedAt + cooldown
    case _ => from + cooldown
  }

  lemma {:induction false} ProbesSpaced(inner: Inner, threshold: nat, cooldown: nat, from: int, events: seq<Event>)
    requires !inner.Closed? && Ordered(from, events) && Success !in events
    ensures Spaced(Passes(inner, threshold, cooldown, events), cooldown)
    ensures var p := Passes(inner, threshold, cooldown, events);
            p != [] ==> EarliestProbe(inner, cooldown, from) <= p[0] && from <= p[0]
    ensures inner.Poisoned? ==> Passes(inner, threshold, cooldown, events) == []
    decreases |events|
  {
    if events != [] {
      var e := events[0];
      var from' := match e case Check(_, later) => later case Success => from case Failure(at) => at;
      assert e in events && forall x :: x in events[1..] ==> x in events;
      var next := Step(inner, threshold, cooldown, e);
      ProbesSpaced(next, threshold, cooldown, from', events[1..]);
      var rest := Passes(next, threshold, cooldown, events[1..]);
      if e.Check? && CheckStep(inner, cooldown, e.now, e.later).1.Pass? {
        var p := [e.now] + rest;
        forall i | 0 <= i && i + 1 < |p| ensures p[i] + cooldown <= p[i + 1] {
          if i > 0 { assert rest[i - 1] + cooldown <= rest[i - 1 + 1]; }
        }
      }
    }
  }

  /**
   From the moment the breaker has opened until the next recorded success, granted probes are a
   cooldown apart: a closed window of length w lets at most w/cooldown + 1 calls through.
   */
  lemma {:induction false} ProbeRate(inner: Inner, threshold: nat, cooldown: nat, from: int, events: seq<Event>, lo: int, w: nat)
    requires !inner.Closed? && Ordered(from, events) && Success !in events
    ensures Spaced(Passes(inner, threshold, cooldown, events), cooldown)
    ensures cooldown > 0 ==> CountIn(Passes(inner, threshold, cooldown, events), lo, lo + w) <= w / cooldown + 1
  {
    ProbesSpaced(inner, threshold, cooldown, from, events);
    if cooldown > 0 {
      SpacedWindow(Passes(inner, threshold, cooldown, events), cooldown, lo, w);
    }
  }

  ghost predicate OnlyChecks(events: seq<Event>) {
    forall i :: 0 <= i < |events| ==> events[i].Check?
  }

  /** While the probe is out nobody else passes, for as long as nothing is recorded: checks alone never release it. */
  lemma {:induction false} HalfOpenHolds(threshold: nat, cooldown: nat, events: seq<Event>)
    requires OnlyChecks(events)
    ensures Passes(HalfOpen, threshold, cooldown, events) == []
    ensures Run(HalfOpen, threshold, cooldown, events) == HalfOpen
  {
    if events != [] {
      HalfOpenHolds(threshold, cooldown, events[..|events| - 1]);
    }
    PassesOfHalfOpen(threshold, cooldown, events);
  }

  lemma {:induction false} PassesOfHalfOpen(threshold: nat, cooldown: nat, events: seq<Event>)
    requires OnlyChecks(events)
    ensures Passes(HalfOpen, threshold, cooldown, events) == []
  {
    if events != [] {
      PassesOfHalfOpen(threshold, cooldown, events[1..]);
    }
  }
}
