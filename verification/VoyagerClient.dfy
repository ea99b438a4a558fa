/**
 The retry loop of `VoyagerClient::fetch` (src/linkedin/client.rs), driven by an arbitrary
 upstream: the answers, the session checks and the clock are parameters. What the loop
 tells the circuit breaker is the point, on every way out: two of them unwind, when the body of an
 error answer is cut for the log and when the back-off is drawn, and the caller may go away while the
 fetch waits.
 */
module VoyagerClient {
  import opened Common
  import opened Breaker
  import PercentCodec
  import Session

  datatype Answer = Answer(status: int, payload: bool)

  /**
   What one fetch meets: the answer to the k-th send, the text of its body and the cookies held by the
   transport after it, the session that the first session check yields, if it does, the fresh one of
   a forced re-authentication, the configured back-off and the jitter drawn after attempt k, in seconds,
   and whether the caller goes away.
   */
  datatype World = World(
    answer: nat -> Answer,
    body: nat -> PercentCodec.Bytes,
    cookies: nat -> Session.Jar,
    sessionOk: bool,
    session: Session.Jar,
    reauthOk: bool,
    renewed: Session.Jar,
    backoff: real,
    jitter: nat -> real,
    gone: Option<Departure>)

  /**
   The caller goes away while this attempt is under way, before its answer is acted on, with the cookies
   of the answer already taken in or not; attempt 0 is the first session check. Waiting for a renewed
   session belongs to the attempt that was refused, sleeping to the attempt that follows.
   */
  datatype Departure = Departure(attempt: nat, absorbed: bool)

  datatype Call = Call(required: bool, allowFallback: bool)

  datatype ErrorKind =
    | CircuitOpen
    | AuthError
    | SessionExpired
    | ProfileNotFound
    | RateLimited(throttledBy: int)
    | Unavailable(status: Option<int>)

  /** A response, an error, a panic, or nobody left to answer. */
  datatype Outcome =
    | Response(status: int, payload: bool, attempts: nat)
    | Failed(error: ErrorKind)
    | Panicked
    | Vanished

  /** How the fetch was left. */
  datatype Exit =
    | NoSession
    | Payload
    | SignedOut
    | ReauthFailed
    | Unauthorized
    | NotFound
    | Retired
    | Unwound
    | Dropped
    | Exhausted

  /**
   What one fetch did: sends begun, forced re-authentications, the failures it recorded on
   the breaker, whether it then recorded a success, and the way out.
   */
  datatype Trace = Trace(sends: nat, reauths: nat, failures: nat, success: bool, exit: Exit, lastError: Option<ErrorKind>)

  /** The branches of the status chain, in its order. */
  datatype Kind = Good | Empty | Redirect | Refused | Missing | Gone | Throttling | Transient | Other

  function Classify(a: Answer): Kind {
    var s := a.status;
    if s == 200 then if a.payload then Good else Empty
    else if s == 301 || s == 302 || s == 303 || s == 307 || s == 308 then Redirect
    else if s == 401 || s == 403 then Refused
    else if s == 404 then Missing
    else if s == 410 then Gone
    else if s == 429 || s == 999 then Throttling
    else if s == 500 || s == 502 || s == 503 || s == 504 then Transient
    else Other
  }

  function KindAt(w: World, k: nat): Kind {
    Classify(w.answer(k))
  }

  function UnavailableAt(w: World, k: nat): Option<ErrorKind> {
    Some(Unavailable(Some(w.answer(k).status)))
  }

  predicate Leaves(w: World, k: nat) {
    w.gone.Some? && w.gone.value.attempt == k
  }

  const LOGGED: nat := 4096

  /** The log keeps 4096 bytes of an error answer's body; the slice panics inside a character. */
  predicate Cut(w: World, k: nat) {
    var status, body := w.answer(k).status, w.body(k);
    status != 0 && status != 200 && !PercentCodec.Boundary(body, if |body| < LOGGED then |body| else LOGGED)
  }

  /** The answer is acted on. */
  predicate Reads(w: World, k: nat) {
    !Leaves(w, k) && !Cut(w, k)
  }

  function Pow2(n: nat): nat {
    if n == 0 then 1 else 2 * Pow2(n - 1)
  }

  /** No jitter can be drawn from an empty range, and a duration holds fewer than 2^64 seconds. */
  predicate BackoffFails(w: World, k: nat)
    requires k >= 1
  {
    w.backoff == 0.0 || w.backoff * Pow2(k - 1) as real + w.jitter(k) >= 0x1_0000_0000_0000_0000 as real
  }

  /** The loop would sleep after answer k, having an attempt left, and cannot. */
  predicate Stumbles(w: World, attempts: nat, k: nat)
    requires k >= 1
  {
    k < attempts && BackoffFails(w, k)
  }

  /** The loop moves on from answer k. */
  predicate Continues(call: Call, w: World, k: nat, reauthed: bool) {
    match KindAt(w, k)
    case Empty => true
    case Throttling => true
    case Transient => true
    case Refused => !reauthed && !call.allowFallback && w.reauthOk
    case _ => false
  }

  /** The error remembered when the loop moves on from answer k; a renewed session leaves it alone. */
  function NextError(w: World, k: nat, lastError: Option<ErrorKind>): Option<ErrorKind> {
    match KindAt(w, k)
    case Refused => lastError
    case Throttling => Some(RateLimited(w.answer(k).status))
    case _ => UnavailableAt(w, k)
  }

  /** The answer that ends the loop. */
  function Stop(call: Call, w: World, k: nat, reauthed: bool, lastError: Option<ErrorKind>): Trace {
    match KindAt(w, k)
    case Good => Trace(k, 0, 0, true, Payload, lastError)
    case Redirect =>
      if Session.SignedOut(w.session) then Trace(k, 0, 0, false, SignedOut, lastError)
      else Trace(k, 0, 1, false, Exhausted, UnavailableAt(w, k))
    case Refused =>
      if reauthed || call.allowFallback then Trace(k, 0, 1, false, Unauthorized, lastError)
      else Trace(k, 1, 1, false, ReauthFailed, lastError)
    case Missing => Trace(k, 0, 0, false, NotFound, lastError)
    case Gone => Trace(k, 0, 0, false, Retired, lastError)
    case _ => Trace(k, 0, 1, false, Exhausted, UnavailableAt(w, k))
  }

  /** The loop from attempt k on. */
  function LoopFrom(call: Call, w: World, attempts: nat, k: nat, reauthed: bool, lastError: Option<ErrorKind>): Trace
    requires k >= 1
    decreases attempts + 1 - k
  {
    if k > attempts then Trace(attempts, 0, 1, false, Exhausted, lastError)
    else if Leaves(w, k) then Trace(k, 0, 0, false, Dropped, lastError)
    else if Cut(w, k) then Trace(k, 0, 0, false, Unwound, lastError)
    else if Continues(call, w, k, reauthed) then
      var renews, told := KindAt(w, k).Refused?, if KindAt(w, k).Throttling? then 1 else 0;
      if !renews && Stumbles(w, attempts, k) then Trace(k, 0, told, false, Unwound, NextError(w, k, lastError))
      else
        var t := LoopFrom(call, w, attempts, k + 1, reauthed || renews, NextError(w, k, lastError));
        t.(failures := t.failures + told, reauths := t.reauths + (if renews then 1 else 0))
    else Stop(call, w, k, reauthed, lastError)
  }

  /** A whole fetch once the breaker has let it through. */
  function FetchTrace(call: Call, w: World, maxRetries: nat): Trace {
    if Leaves(w, 0) then Trace(0, 0, 0, false, Dropped, None)
    else if !w.sessionOk then Trace(0, 0, 0, false, NoSession, None)
    else LoopFrom(call, w, Max(maxRetries, 1), 1, false, None)
  }

  function OutcomeOf(call: Call, w: World, maxRetries: nat, t: Trace): Outcome {
    match t.exit
    case NoSession => Failed(AuthError)
    case Payload => Response(200, true, t.sends)
    case SignedOut => Failed(SessionExpired)
    case ReauthFailed => Failed(AuthError)
    case Unauthorized =>
      if call.required && !call.allowFallback then Failed(SessionExpired)
      else Response(w.answer(t.sends).status, false, t.sends)
    case NotFound =>
      if call.required || call.allowFallback then Failed(ProfileNotFound)
      else Response(404, false, t.sends)
    case Retired => Response(410, false, t.sends)
    case Unwound => Panicked
    case Dropped => Vanished
    case Exhausted =>
      if call.required && !call.allowFallback then
        Failed(if t.lastError.Some? then t.lastError.value else Unavailable(None))
      else Response(0, false, Max(maxRetries, 1))
  }

  // ------------------------------------------------------------------------------ the shared session

  /**
   What `send` leaves in the shared session: the copy taken before the loop with the transport's cookies
   folded in, if that holds anything the copy did not; a transport error (status 0) leaves it alone.
   */
  function Absorbed(w: World, k: nat, shared: Session.Jar): Session.Jar {
    var rotated := Session.Rotated(w.session, w.cookies(k));
    if w.answer(k).status == 0 || (forall n :: n in rotated ==> Session.At(w.session, n) == Some(rotated[n])) then shared
    else rotated
  }

  /** The cookies of answer k are taken in, unless the caller is gone before that. */
  predicate TakesIn(w: World, k: nat) {
    Leaves(w, k) ==> w.gone.value.absorbed
  }

  function Taken(w: World, k: nat, shared: Session.Jar): Session.Jar {
    if TakesIn(w, k) then Absorbed(w, k, shared) else shared
  }

  /** The shared session after the loop from attempt k on. */
  function SharedFrom(call: Call, w: World, attempts: nat, k: nat, reauthed: bool, shared: Session.Jar): Session.Jar
    requires k >= 1
    decreases attempts + 1 - k
  {
    if k > attempts then shared
    else
      var taken := Taken(w, k, shared);
      if !Reads(w, k) || !Continues(call, w, k, reauthed) then taken
      else if KindAt(w, k).Refused? then SharedFrom(call, w, attempts, k + 1, true, w.renewed)
      else if Stumbles(w, attempts, k) then taken
      else SharedFrom(call, w, attempts, k + 1, reauthed, taken)
  }

  /** The shared session after a fetch that the breaker has let through. */
  function SharedAfter(call: Call, w: World, maxRetries: nat, shared: Session.Jar): Session.Jar {
    if w.sessionOk && !Leaves(w, 0) then SharedFrom(call, w, Max(maxRetries, 1), 1, false, w.session) else shared
  }

  // ------------------------------------------------------------------------------ the client

  /** The breaker's history `before`, followed by n failures, the i-th recorded at `clock(i)`. */
  function AfterFailures(before: seq<Event>, clock: nat -> int, n: nat): seq<Event> {
    if n == 0 then before else AfterFailures(before, clock, n - 1) + [Failure(clock(n - 1))]
  }

  /** The breaker's history after everything a fetch tells it: a success can only come last. */
  function AfterReports(before: seq<Event>, clock: nat -> int, failures: nat, success: bool): seq<Event> {
    if success then AfterFailures(before, clock, failures) + [Success] else AfterFailures(before, clock, failures)
  }

  class Client {
    const maxRetries: nat
    const breaker: CircuitBreaker
    var shared: Session.Jar

    constructor (maxRetries: nat, breaker: CircuitBreaker, shared: Session.Jar)
      ensures this.maxRetries == maxRetries && this.breaker == breaker && this.shared == shared
    {
      this.maxRetries := maxRetries;
      this.breaker := breaker;
      this.shared := shared;
    }

    /** `fetch`, with `now` and `later` the readings of the breaker check and `clock(i)` the reading of its i-th record. */
    method Fetch(call: Call, w: World, now: int, later: int, clock: nat -> int) returns (outcome: Outcome)
      requires breaker.Valid()
      modifies breaker, this`shared
      ensures breaker.Valid()
      ensures var verdict := CheckStep(old(breaker.inner), breaker.cooldown, now, later).1;
              var t := FetchTrace(call, w, maxRetries);
              var checked := old(breaker.log) + [Check(now, later)];
              match verdict
              case Pass =>
                && breaker.log == AfterReports(checked, clock, t.failures, t.success)
                && outcome == OutcomeOf(call, w, maxRetries, t)
                && shared == SharedAfter(call, w, maxRetries, old(shared))
                && IsAnswer(call, w, maxRetries, outcome)
              case Reject(_) => breaker.log == checked && outcome == Failed(CircuitOpen) && shared == old(shared)
              case Panic => breaker.log == checked && outcome == Panicked && shared == old(shared)
    {
      hide Run, LoopFrom, SharedFrom, IsAnswer, IsVerdict;
      LastAnswerDecides(call, w, maxRetries);
      var v := breaker.Check(now, later);
      if v.Panic? {
        return Panicked;
      }
      if v.Reject? {
        return Failed(CircuitOpen);
      }
      if Leaves(w, 0) {
        return Vanished;
      }
      if !w.sessionOk {
        return Failed(AuthError);
      }
      shared := w.session;
      outcome := Attempts(call, w, clock);
    }

    /** The retry loop. `w.session` is the copy of the session taken before it. */
    method Attempts(call: Call, w: World, clock: nat -> int) returns (outcome: Outcome)
      requires breaker.Valid()
      modifies breaker, this`shared
      ensures breaker.Valid()
      ensures var t := LoopFrom(call, w, Max(maxRetries, 1), 1, false, None);
              && breaker.log == AfterReports(old(breaker.log), clock, t.failures, t.success)
              && outcome == OutcomeOf(call, w, maxRetries, t)
      ensures shared == SharedFrom(call, w, Max(maxRetries, 1), 1, false, old(shared))
    {
      hide Run, Taken, Stop, Leaves, Cut, Stumbles;
      var lastError: Option<ErrorKind> := None;
      var reauthenticated := false;
      var attempts := Max(maxRetries, 1);
      var attempt := 1;
      var failed := 0;
      ghost var whole := LoopFrom(call, w, attempts, 1, false, None);
      ghost var ending := SharedFrom(call, w, attempts, 1, false, shared);
      while attempt <= attempts
        invariant 1 <= attempt <= attempts + 1
        invariant breaker.Valid() && breaker.log == AfterFailures(old(breaker.log), clock, failed)
        invariant var t := LoopFrom(call, w, attempts, attempt, reauthenticated, lastError);
                  && whole.failures == failed + t.failures && whole.success == t.success
                  && whole.exit == t.exit && whole.sends == t.sends && whole.lastError == t.lastError
        invariant ending == SharedFrom(call, w, attempts, attempt, reauthenticated, shared)
      {
        shared := Taken(w, attempt, shared);
        if Leaves(w, attempt) {
          return Vanished;
        }
        if Cut(w, attempt) {
          return Panicked;
        }
        var kind := Classify(w.answer(attempt));
        var cured := !reauthenticated && !call.allowFallback && w.reauthOk;
        if !(kind.Empty? || kind.Transient? || kind.Throttling? || (kind.Refused? && cured)) {
          outcome := Leave(call, w, attempt, reauthenticated, lastError, old(breaker.log), failed, clock);
          return;
        }
        if kind.Throttling? {
          lastError := Some(RateLimited(w.answer(attempt).status));
          failed := TellFailure(old(breaker.log), failed, clock);
        } else if kind.Refused? {
          reauthenticated := true;
          shared := w.renewed;
        } else {
          lastError := UnavailableAt(w, attempt);
        }
        if !kind.Refused? && Stumbles(w, attempts, attempt) {
          return Panicked;
        }
        attempt := attempt + 1;
      }
      outcome := GiveUp(call, lastError, old(breaker.log), failed, clock);
    }

    /** The branches that leave the loop on answer k. */
    method Leave(call: Call, w: World, k: nat, reauthenticated: bool, lastError: Option<ErrorKind>,
                 ghost before: seq<Event>, failed: nat, clock: nat -> int)
      returns (outcome: Outcome)
      requires !Continues(call, w, k, reauthenticated)
      requires breaker.Valid() && breaker.log == AfterFailures(before, clock, failed)
      modifies breaker
      ensures breaker.Valid()
      ensures var t := Stop(call, w, k, reauthenticated, lastError);
              && breaker.log == AfterReports(before, clock, failed + t.failures, t.success)
              && outcome == OutcomeOf(call, w, maxRetries, t)
    {
      hide Run;
      var status := w.answer(k).status;
      var kind := Classify(w.answer(k));
      if kind.Good? {
        breaker.RecordSuccess();
        return Response(200, true, k);
      } else if kind.Redirect? && Session.SignedOut(w.session) {
        return Failed(SessionExpired);
      } else if kind.Refused? {
        var _ := TellFailure(before, failed, clock);
        if !reauthenticated && !call.allowFallback {
          return Failed(AuthError);
        }
        if call.required && !call.allowFallback {
          return Failed(SessionExpired);
        }
        return Response(status, false, k);
      } else if kind.Missing? {
        if call.required || call.allowFallback {
          return Failed(ProfileNotFound);
        }
        return Response(status, false, k);
      } else if kind.Gone? {
        return Response(status, false, k);
      } else {
        outcome := GiveUp(call, UnavailableAt(w, k), before, failed, clock);
      }
    }

    /** What follows the loop: one more failure, then the error or an empty response. */
    method GiveUp(call: Call, lastError: Option<ErrorKind>, ghost before: seq<Event>, failed: nat, clock: nat -> int)
      returns (outcome: Outcome)
      requires breaker.Valid() && breaker.log == AfterFailures(before, clock, failed)
      modifies breaker
      ensures breaker.Valid() && breaker.log == AfterFailures(before, clock, failed + 1)
      ensures outcome == if call.required && !call.allowFallback
                         then Failed(if lastError.Some? then lastError.value else Unavailable(None))
                         else Response(0, false, Max(maxRetries, 1))
    {
      var _ := TellFailure(before, failed, clock);
      if call.required && !call.allowFallback {
        return Failed(if lastError.Some? then lastError.value else Unavailable(None));
      }
      return Response(0, false, Max(maxRetries, 1));
    }

    method TellFailure(ghost before: seq<Event>, failed: nat, clock: nat -> int) returns (failed': nat)
      requires breaker.Valid() && breaker.log == AfterFailures(before, clock, failed)
      modifies breaker
      ensures failed' == failed + 1
      ensures breaker.Valid() && breaker.log == AfterFailures(before, clock, failed')
    {
      breaker.RecordFailure(clock(failed));
      failed' := failed + 1;
    }
  }

  // ------------------------------------------------------------------------------ accounting

  predicate Throttles(w: World, k: nat) {
    w.answer(k).status == 429 || w.answer(k).status == 999
  }

  predicate Refuses(w: World, k: nat) {
    w.answer(k).status == 401 || w.answer(k).status == 403
  }

  predicate Redirects(w: World, k: nat) {
    w.answer(k).status in {301, 302, 303, 307, 308}
  }

  /** A 200 whose body is not the payload, or a transient server error. */
  predicate Falters(w: World, k: nat) {
    w.answer(k) == Answer(200, false) || w.answer(k).status in {500, 502, 503, 504}
  }

  /** How many of answers i, ..., n throttled us, arrived while the caller was there, and could be logged. */
  function ThrottleAnswers(w: World, i: nat, n: nat): nat
    decreases n + 1 - i
  {
    if i > n then 0
    else (if Throttles(w, i) && Reads(w, i) then 1 else 0) + ThrottleAnswers(w, i + 1, n)
  }

  /** The exits that record a failure of their own. */
  predicate IsFailing(exit: Exit) { exit.ReauthFailed? || exit.Unauthorized? || exit.Exhausted? }

  /** Only a soft answer, or a refusal that could be cured, is ever followed by another send. */
  predicate KeepsGoing(call: Call, w: World, k: nat) {
    Continues(call, w, k, false)
  }

  /** There is a next send. */
  predicate GoesOn(call: Call, w: World, attempts: nat, k: nat, reauthed: bool)
    requires k >= 1
  {
    Reads(w, k) && Continues(call, w, k, reauthed) && (Refuses(w, k) || !Stumbles(w, attempts, k))
  }

  lemma {:induction false} LoopStops(call: Call, w: World, attempts: nat, k: nat, reauthed: bool, lastError: Option<ErrorKind>)
    requires 1 <= k <= attempts + 1
    ensures var t := LoopFrom(call, w, attempts, k, reauthed, lastError);
            && k <= t.sends + 1 && t.sends <= attempts
            && t.reauths <= (if reauthed then 0 else 1)
            && (t.exit != Exhausted ==> k <= t.sends)
            && (t.exit != Exhausted && t.exit != Unwound && t.exit != Dropped ==> !Throttles(w, t.sends))
            && (t.exit == Dropped ==> Leaves(w, t.sends))
            && (t.exit == Payload ==> w.answer(t.sends) == Answer(200, true))
            && (forall j :: k <= j < t.sends ==> KeepsGoing(call, w, j))
    decreases attempts + 1 - k
  {
    hide Cut, BackoffFails, Session.SignedOut;
    if k <= attempts && GoesOn(call, w, attempts, k, reauthed) {
      LoopStops(call, w, attempts, k + 1, reauthed || Refuses(w, k), NextError(w, k, lastError));
    }
  }

  lemma {:induction false} LoopFailures(call: Call, w: World, attempts: nat, k: nat, reauthed: bool, lastError: Option<ErrorKind>)
    requires 1 <= k <= attempts + 1
    ensures var t := LoopFrom(call, w, attempts, k, reauthed, lastError);
            && k <= t.sends + 1
            && (t.success <==> t.exit == Payload)
            && t.failures == ThrottleAnswers(w, k, t.sends) + (if IsFailing(t.exit) then 1 else 0)
    decreases attempts + 1 - k
  {
    hide Cut, BackoffFails, Session.SignedOut;
    if k <= attempts {
      if GoesOn(call, w, attempts, k, reauthed) {
        LoopFailures(call, w, attempts, k + 1, reauthed || Refuses(w, k), NextError(w, k, lastError));
      } else {
        assert ThrottleAnswers(w, k + 1, k) == 0;
      }
    }
  }

  lemma {:induction false} ThrottleAnswersBound(w: World, i: nat, n: nat)
    requires i <= n + 1
    ensures ThrottleAnswers(w, i, n) <= n + 1 - i
    ensures i <= n && (!Throttles(w, n) || !Reads(w, n)) ==> ThrottleAnswers(w, i, n) <= n - i
    decreases n + 1 - i
  {
    if i <= n {
      ThrottleAnswersBound(w, i + 1, n);
    }
  }

  /**
   For every sequence of answers, on every way out: at most max(1, maxRetries) sends and one forced
   re-authentication; a success is recorded exactly when the fetch returns a 200 payload; the
   failures recorded are the throttling answers it could log plus one for the three failing exits.
   */
  lemma {:induction false} FetchAccounting(call: Call, w: World, maxRetries: nat)
    ensures var t := FetchTrace(call, w, maxRetries);
            && t.sends <= Max(maxRetries, 1)
            && t.reauths <= 1
            && (t.success <==> OutcomeOf(call, w, maxRetries, t) == Response(200, true, t.sends))
            && (t.success ==> w.answer(t.sends) == Answer(200, true))
            && t.failures == ThrottleAnswers(w, 1, t.sends) + (if IsFailing(t.exit) then 1 else 0)
            && t.failures <= t.sends + (if t.exit.Exhausted? then 1 else 0)
            && (forall j :: 1 <= j < t.sends ==> KeepsGoing(call, w, j))
  {
    hide Cut, BackoffFails, LoopFrom;
    var t := FetchTrace(call, w, maxRetries);
    if w.sessionOk && !Leaves(w, 0) {
      LoopStops(call, w, Max(maxRetries, 1), 1, false, None);
      LoopFailures(call, w, Max(maxRetries, 1), 1, false, None);
      ThrottleAnswersBound(w, 1, t.sends);
    } else {
      assert ThrottleAnswers(w, 1, 0) == 0;
    }
  }

  // ------------------------------------------------------------------- resolving a probe

  /** Refusals among answers k, ..., m-1. */
  function Refusals(w: World, k: nat, m: nat): nat
    decreases m - k
  {
    if k >= m then 0 else (if Refuses(w, k) then 1 else 0) + Refusals(w, k + 1, m)
  }

  predicate Soft(w: World, k: nat) {
    Falters(w, k) || Throttles(w, k)
  }

  /** An answer the loop moves on from if an attempt is left. */
  predicate Passable(call: Call, w: World, j: nat)
    requires j >= 1
  {
    && Reads(w, j)
    && ((Soft(w, j) && !BackoffFails(w, j)) || (Refuses(w, j) && !call.allowFallback && w.reauthOk))
  }

  /** The answers from k up to m are passed, with at most one refusal. */
  ghost predicate Reaches(call: Call, w: World, k: nat, reauthed: bool, m: nat)
    requires k >= 1
  {
    && (forall j :: k <= j < m ==> Passable(call, w, j))
    && Refusals(w, k, m) + (if reauthed then 1 else 0) <= 1
  }

  /** The body is cut, or a soft answer comes before a failing back-off. */
  predicate EndsUnwound(w: World, attempts: nat, m: nat)
    requires m >= 1
  {
    !Leaves(w, m) && (Cut(w, m) || (Soft(w, m) && m < attempts && BackoffFails(w, m)))
  }

  /**
   An answer the fetch is left on without telling the breaker: the caller is gone, its body is cut, it is
   missing or retired, a redirect when signed out at the start, or an empty 200 or transient error before a
   failing back-off.
   */
  predicate EndsSilently(w: World, attempts: nat, m: nat)
    requires m >= 1
  {
    || Leaves(w, m) || Cut(w, m) || w.answer(m).status == 404 || w.answer(m).status == 410
    || (Redirects(w, m) && Session.SignedOut(w.session))
    || (Falters(w, m) && m < attempts && BackoffFails(w, m))
  }

  /** The answers from k on are passed without a throttling one up to answer m, which ends silently. */
  ghost predicate SilentAt(call: Call, w: World, attempts: nat, k: nat, reauthed: bool, m: nat)
    requires k >= 1
  {
    && k <= m <= attempts && EndsSilently(w, attempts, m) && Reaches(call, w, k, reauthed, m)
    && (forall j :: k <= j < m ==> !Throttles(w, j))
  }

  ghost predicate UnwindAt(call: Call, w: World, attempts: nat, k: nat, reauthed: bool, m: nat)
    requires k >= 1
  {
    k <= m <= attempts && EndsUnwound(w, attempts, m) && Reaches(call, w, k, reauthed, m)
  }

  /**
   What leaves the breaker untouched: the caller gone or no session to begin with, or a silent ending
   within the attempts after nothing but empty 200s and transient errors and at most one refusal that was
   cured.
   */
  ghost predicate SilentAnswers(call: Call, w: World, maxRetries: nat) {
    Leaves(w, 0) || !w.sessionOk || exists m: nat :: SilentAt(call, w, Max(maxRetries, 1), 1, false, m)
  }

  /** One answer further on. */
  lemma {:induction false} ReachesLater(call: Call, w: World, k: nat, reauthed: bool, m: nat)
    requires 1 <= k < m
    ensures Reaches(call, w, k, reauthed, m) <==>
            Passable(call, w, k) && !(reauthed && Refuses(w, k)) &&
            Reaches(call, w, k + 1, reauthed || Refuses(w, k), m)
  {
    hide Cut, BackoffFails, Reads, Soft;
    if Reaches(call, w, k, reauthed, m) {
      assert Passable(call, w, k);
    }
  }

  /** Where there is a next send, the answer is passed, and the other way round while an attempt is left. */
  lemma {:induction false} GoesOnIff(call: Call, w: World, attempts: nat, k: nat, reauthed: bool)
    requires 1 <= k < attempts
    ensures GoesOn(call, w, attempts, k, reauthed) <==> Passable(call, w, k) && !(reauthed && Refuses(w, k))
  {
    hide Cut, BackoffFails;
  }

  /**
   The fetch unwinds exactly for these answers: passed with at most one refusal, up to one whose body is cut
   or after which it cannot back off.
   */
  lemma {:induction false} UnwindsIff(call: Call, w: World, maxRetries: nat)
    ensures FetchTrace(call, w, maxRetries).exit == Unwound <==>
              !Leaves(w, 0) && w.sessionOk && exists m: nat :: UnwindAt(call, w, Max(maxRetries, 1), 1, false, m)
  {
    hide UnwindAt, LoopFrom;
    if w.sessionOk {
      LoopUnwinds(call, w, Max(maxRetries, 1), 1, false, None);
    }
  }

  lemma {:induction false} LoopUnwinds(call: Call, w: World, attempts: nat, k: nat, reauthed: bool, lastError: Option<ErrorKind>)
    requires 1 <= k <= attempts + 1
    ensures LoopFrom(call, w, attempts, k, reauthed, lastError).exit == Unwound <==>
              exists m: nat :: UnwindAt(call, w, attempts, k, reauthed, m)
    decreases attempts + 1 - k
  {
    hide Cut, BackoffFails, UnwindAt;
    if k > attempts {
      forall m: nat ensures !UnwindAt(call, w, attempts, k, reauthed, m) {
        NothingPast(call, w, attempts, k, reauthed, m);
      }
    } else if !GoesOn(call, w, attempts, k, reauthed) {
      forall m: nat ensures UnwindAt(call, w, attempts, k, reauthed, m) == (m == k && EndsUnwound(w, attempts, k)) {
        UnwindHere(call, w, attempts, k, reauthed, m);
      }
      assert UnwindAt(call, w, attempts, k, reauthed, k) == EndsUnwound(w, attempts, k);
    } else {
      var next, reauthed' := k + 1, reauthed || Refuses(w, k);
      LoopUnwinds(call, w, attempts, next, reauthed', NextError(w, k, lastError));
      forall m: nat ensures UnwindAt(call, w, attempts, k, reauthed, m) == UnwindAt(call, w, attempts, next, reauthed', m) {
        UnwindLater(call, w, attempts, k, reauthed, m);
      }
    }
  }

  lemma {:induction false} NothingPast(call: Call, w: World, attempts: nat, k: nat, reauthed: bool, m: nat)
    requires k > attempts
    ensures !UnwindAt(call, w, attempts, k, reauthed, m) && !SilentAt(call, w, attempts, k, reauthed, m)
  {
  }

  lemma {:induction false} UnwindHere(call: Call, w: World, attempts: nat, k: nat, reauthed: bool, m: nat)
    requires 1 <= k <= attempts && !GoesOn(call, w, attempts, k, reauthed)
    ensures UnwindAt(call, w, attempts, k, reauthed, m) == (m == k && EndsUnwound(w, attempts, k))
  {
    hide Cut, BackoffFails, Reads, GoesOn, Passable;
    if k < m <= attempts {
      ReachesLater(call, w, k, reauthed, m);
      GoesOnIff(call, w, attempts, k, reauthed);
    }
  }

  lemma {:induction false} UnwindLater(call: Call, w: World, attempts: nat, k: nat, reauthed: bool, m: nat)
    requires 1 <= k <= attempts && GoesOn(call, w, attempts, k, reauthed)
    ensures UnwindAt(call, w, attempts, k, reauthed, m) ==
            UnwindAt(call, w, attempts, k + 1, reauthed || Refuses(w, k), m)
  {
    GoesOnEnds(call, w, attempts, k, reauthed);
    hide Cut, BackoffFails, Reads, GoesOn, Passable, EndsUnwound;
    if k < m <= attempts {
      ReachesLater(call, w, k, reauthed, m);
      GoesOnIff(call, w, attempts, k, reauthed);
    }
  }

  /** An answer that is followed by another send ends nothing. */
  lemma {:induction false} GoesOnEnds(call: Call, w: World, attempts: nat, k: nat, reauthed: bool)
    requires 1 <= k <= attempts && GoesOn(call, w, attempts, k, reauthed)
    ensures !EndsUnwound(w, attempts, k) && !EndsSilently(w, attempts, k)
  {
    hide Cut, BackoffFails;
  }

  lemma {:induction false} LoopSilentIff(call: Call, w: World, attempts: nat, k: nat, reauthed: bool, lastError: Option<ErrorKind>)
    requires 1 <= k <= attempts + 1
    ensures var t := LoopFrom(call, w, attempts, k, reauthed, lastError);
            t.failures == 0 && !t.success <==> exists m: nat :: SilentAt(call, w, attempts, k, reauthed, m)
    decreases attempts + 1 - k
  {
    hide Cut, BackoffFails, SilentAt;
    if k > attempts {
      forall m: nat ensures !SilentAt(call, w, attempts, k, reauthed, m) {
        NothingPast(call, w, attempts, k, reauthed, m);
      }
    } else if !GoesOn(call, w, attempts, k, reauthed) {
      forall m: nat ensures SilentAt(call, w, attempts, k, reauthed, m) == (m == k && EndsSilently(w, attempts, k)) {
        SilentHere(call, w, attempts, k, reauthed, m);
      }
      assert SilentAt(call, w, attempts, k, reauthed, k) == EndsSilently(w, attempts, k);
    } else {
      var next, reauthed' := k + 1, reauthed || Refuses(w, k);
      LoopSilentIff(call, w, attempts, next, reauthed', NextError(w, k, lastError));
      forall m: nat
        ensures SilentAt(call, w, attempts, k, reauthed, m) ==
                (!Throttles(w, k) && SilentAt(call, w, attempts, next, reauthed', m))
      {
        SilentLater(call, w, attempts, k, reauthed, m);
      }
    }
  }

  lemma {:induction false} SilentHere(call: Call, w: World, attempts: nat, k: nat, reauthed: bool, m: nat)
    requires 1 <= k <= attempts && !GoesOn(call, w, attempts, k, reauthed)
    ensures SilentAt(call, w, attempts, k, reauthed, m) == (m == k && EndsSilently(w, attempts, k))
  {
    hide Cut, BackoffFails, Reads, GoesOn, Passable;
    if k < m <= attempts {
      ReachesLater(call, w, k, reauthed, m);
      GoesOnIff(call, w, attempts, k, reauthed);
    }
  }

  lemma {:induction false} SilentLater(call: Call, w: World, attempts: nat, k: nat, reauthed: bool, m: nat)
    requires 1 <= k <= attempts && GoesOn(call, w, attempts, k, reauthed)
    ensures SilentAt(call, w, attempts, k, reauthed, m) ==
            (!Throttles(w, k) && SilentAt(call, w, attempts, k + 1, reauthed || Refuses(w, k), m))
  {
    GoesOnEnds(call, w, attempts, k, reauthed);
    hide Cut, BackoffFails, Reads, GoesOn, Passable, EndsSilently, KindAt;
    if k < m <= attempts {
      ReachesLater(call, w, k, reauthed, m);
      GoesOnIff(call, w, attempts, k, reauthed);
    }
  }

  /**
   A granted probe whose fetch is the only one to record: the breaker is still waiting for its probe
   afterwards exactly for these answers.
   */
  lemma {:induction false} StuckProbeIff(call: Call, w: World, maxRetries: nat, threshold: nat, cooldown: nat, clock: nat -> int)
    ensures var t := FetchTrace(call, w, maxRetries);
            Run(HalfOpen, threshold, cooldown, AfterReports([], clock, t.failures, t.success)) == HalfOpen
            <==> SilentAnswers(call, w, maxRetries)
  {
    hide Run, SilentAt, LoopFrom;
    var t := FetchTrace(call, w, maxRetries);
    ReportsFromHalfOpen(threshold, cooldown, clock, t.failures, t.success);
    if w.sessionOk && !Leaves(w, 0) {
      LoopSilentIff(call, w, Max(maxRetries, 1), 1, false, None);
    }
  }

  lemma {:induction false} ReportsFromHalfOpen(threshold: nat, cooldown: nat, clock: nat -> int, n: nat, success: bool)
    ensures var s := Run(HalfOpen, threshold, cooldown, AfterReports([], clock, n, success));
            if success then s == Closed(0) else if n == 0 then s == HalfOpen else s.Open?
  {
    var f := AfterFailures([], clock, n);
    FailuresFromHalfOpen(threshold, cooldown, clock, n);
    assert (f + [Success])[..|f|] == f;
  }

  /** Such a fetch wedges the breaker: from then on checks alone are never let through, whatever the clock says. */
  lemma {:induction false} SilentProbeWedges(call: Call, w: World, maxRetries: nat, threshold: nat, cooldown: nat, clock: nat -> int,
                          checks: seq<Event>)
    requires SilentAnswers(call, w, maxRetries) && OnlyChecks(checks)
    ensures var t := FetchTrace(call, w, maxRetries);
            var after := Run(HalfOpen, threshold, cooldown, AfterReports([], clock, t.failures, t.success));
            Passes(after, threshold, cooldown, checks) == []
  {
    StuckProbeIff(call, w, maxRetries, threshold, cooldown, clock);
    HalfOpenHolds(threshold, cooldown, checks);
  }

  /**
   A whole run: a failure opens the breaker, the cooldown passes, the probe is answered with a 404, and a
   check is rejected at whatever reading it comes.
   */
  method WedgedByNotFound(cooldown: nat, t: int) returns (probe: Outcome, verdict: Verdict)
    ensures probe == Failed(ProfileNotFound) && verdict == Reject(cooldown)
  {
    var breaker := new CircuitBreaker(1, cooldown);
    breaker.RecordFailure(0);
    OneFailureOpens(1, cooldown);
    assert breaker.log == [Failure(0)];
    var client := new Client(3, breaker, map[]);
    var missing := World(k => Answer(404, false), k => [], k => map[], true, map[], false, map[], 1.5, k => 0.5, None);
    var call := Call(true, false);
    assert KindAt(missing, 1) == Missing && !Continues(call, missing, 1, false) && Reads(missing, 1);
    assert FetchTrace(call, missing, 3) == Trace(1, 0, 0, false, NotFound, None);
    probe := client.Fetch(call, missing, cooldown, cooldown, i => 0);
    assert breaker.log[..1] == [Failure(0)];
    assert breaker.inner == HalfOpen;
    verdict := breaker.Check(t, t);
  }

  /**
   The same for every silent fetch: whatever its answers, call and settings, a check that comes after it is
   rejected at every reading.
   */
  method WedgedRun(call: Call, w: World, maxRetries: nat, cooldown: nat, t: int) returns (verdict: Verdict)
    requires SilentAnswers(call, w, maxRetries)
    ensures verdict == Reject(cooldown)
  {
    hide SilentAt, LoopFrom, SharedFrom, OutcomeOf;
    var breaker := new CircuitBreaker(1, cooldown);
    breaker.RecordFailure(0);
    OneFailureOpens(1, cooldown);
    assert breaker.log == [Failure(0)];
    var client := new Client(maxRetries, breaker, map[]);
    if w.sessionOk && !Leaves(w, 0) {
      LoopSilentIff(call, w, Max(maxRetries, 1), 1, false, None);
    }
    var _ := client.Fetch(call, w, cooldown, cooldown, i => 0);
    assert breaker.log[..1] == [Failure(0)];
    assert breaker.inner == HalfOpen;
    verdict := breaker.Check(t, t);
  }

  /** An error page of 4095 one-byte characters and one of two bytes. */
  function AccentedPage(): (page: PercentCodec.Bytes)
    ensures |page| == LOGGED + 1 && page[LOGGED] == 0xA9
  {
    seq(LOGGED - 1, i => 0x61) + [0xC3, 0xA9]
  }

  lemma {:induction false} AccentedPageWellFormed(n: nat)
    ensures PercentCodec.WellFormed(seq(n, i => 0x61) + [0xC3, 0xA9])
  {
    var page: PercentCodec.Bytes := seq(n, i => 0x61) + [0xC3, 0xA9];
    if n == 0 {
      assert page == [0xC3, 0xA9] && PercentCodec.Width(page) == 2 && page[2..] == [];
    } else {
      assert page[0] == 0x61 && PercentCodec.Width(page) == 1;
      assert page[1..] == seq(n - 1, i => 0x61) + [0xC3, 0xA9];
      AccentedPageWellFormed(n - 1);
    }
  }

  /** A body is cut exactly if it is that of an error answer and its byte 4096 continues a character. */
  lemma {:induction false} CutIff(w: World, k: nat)
    ensures Cut(w, k) <==>
            w.answer(k).status !in {0, 200} && |w.body(k)| > 4096 && 0x80 <= w.body(k)[4096] <= 0xBF
  {
  }

  lemma {:induction false} Pow2Grows(n: nat, m: nat)
    requires n <= m
    ensures 1 <= Pow2(n) <= Pow2(m)
  {
    if n < m {
      Pow2Grows(n, m - 1);
    } else if n > 0 {
      Pow2Grows(n - 1, n - 1);
    }
  }

  lemma {:induction false} Pow2Of31()
    ensures Pow2(31) == 0x8000_0000
  {
    assert Pow2(3) == 8 && Pow2(4) == 16;
    Pow2Sum(4, 3);
    Pow2Sum(4, 4);
    Pow2Sum(8, 8);
    Pow2Sum(16, 8);
    Pow2Sum(24, 7);
  }

  lemma {:induction false} Pow2Sum(m: nat, n: nat)
    ensures Pow2(m + n) == Pow2(m) * Pow2(n)
  {
    if n > 0 {
      Pow2Sum(m, n - 1);
      assert Pow2(m + n) == 2 * (Pow2(m) * Pow2(n - 1)) == Pow2(m) * (2 * Pow2(n - 1));
    }
  }

  /** A positive back-off of up to 2^32 seconds can be drawn after each of the first 32 answers. */
  lemma {:induction false} BackoffWorks(w: World, k: nat)
    requires 1 <= k <= 32 && 0.0 < w.backoff <= 0x1_0000_0000 as real && 0.0 <= w.jitter(k) < w.backoff
    ensures !BackoffFails(w, k)
  {
    Pow2Grows(k - 1, 31);
    Pow2Of31();
    var factor := Pow2(k - 1) as real;
    assert factor <= 0x8000_0000 as real;
    ProductBound(w.backoff, factor);
  }

  lemma {:induction false} ProductBound(a: real, b: real)
    requires 0.0 < a <= 0x1_0000_0000 as real && 0.0 < b <= 0x8000_0000 as real
    ensures a * b <= 0x8000_0000_0000_0000 as real
  {
    var limit := 0x1_0000_0000 as real;
    FactorsKeepSign(limit - a, b);
    assert (limit - a) * b == limit * b - a * b;
    assert limit * b <= 0x8000_0000_0000_0000 as real;
  }

  lemma {:induction false} FactorsKeepSign(a: real, b: real)
    requires a >= 0.0 && b >= 0.0
    ensures a * b >= 0.0
  {
  }

  /** A probe answered with a transient error, a throttling answer or a refusal on such a page leaves the breaker waiting for good. */
  lemma {:induction false} ErrorPageWedges(call: Call, w: World, maxRetries: nat)
    requires w.answer(1).status != 0 && w.answer(1).status != 200 && w.body(1) == AccentedPage()
    ensures PercentCodec.WellFormed(w.body(1)) && SilentAnswers(call, w, maxRetries)
  {
    hide PercentCodec.WellFormed;
    AccentedPageWellFormed(LOGGED - 1);
    assert Cut(w, 1);
    assert SilentAt(call, w, Max(maxRetries, 1), 1, false, 1);
  }

  /** So does a caller that goes away during the session check or the first send. */
  lemma {:induction false} DroppedWedges(call: Call, w: World, maxRetries: nat)
    requires w.gone.Some? && w.gone.value.attempt <= 1
    ensures SilentAnswers(call, w, maxRetries)
  {
    if Leaves(w, 1) {
      assert SilentAt(call, w, Max(maxRetries, 1), 1, false, 1);
    }
  }

  /** So does a transient error when the back-off is configured as zero and a second attempt is left. */
  lemma {:induction false} ZeroBackoffWedges(call: Call, w: World, maxRetries: nat)
    requires w.backoff == 0.0 && maxRetries >= 2 && Falters(w, 1)
    ensures SilentAnswers(call, w, maxRetries)
  {
    assert SilentAt(call, w, Max(maxRetries, 1), 1, false, 1);
  }

  lemma {:induction false} OneFailureOpens(threshold: nat, cooldown: nat)
    requires threshold == 1
    ensures Run(Closed(0), threshold, cooldown, [Failure(0)]) == Open(0)
  {
    assert [Failure(0)][..0] == [];
  }

  lemma {:induction false} FailuresFromHalfOpen(threshold: nat, cooldown: nat, clock: nat -> int, n: nat)
    ensures var s := Run(HalfOpen, threshold, cooldown, AfterFailures([], clock, n));
            if n == 0 then s == HalfOpen else s.Open?
  {
    if n > 0 {
      FailuresFromHalfOpen(threshold, cooldown, clock, n - 1);
      var f := AfterFailures([], clock, n);
      assert f[..|f| - 1] == AfterFailures([], clock, n - 1);
    }
  }

  // -------------------------------------------------------------------- the error reported

  /** The error set by the last of answers 1, ..., n that sets one; session refusals set none. */
  function LastErrorOf(w: World, n: nat): Option<ErrorKind> {
    if n == 0 then None
    else
      var status := w.answer(n).status;
      if Refuses(w, n) then LastErrorOf(w, n - 1)
      else Some(if Throttles(w, n) then RateLimited(status) else Unavailable(Some(status)))
  }

  /** An exhausted required fetch reports the last answer that was not a session refusal. */
  lemma {:induction false} ExhaustedReportsLastError(call: Call, w: World, attempts: nat, k: nat, reauthed: bool)
    requires 1 <= k <= attempts + 1
    ensures var t := LoopFrom(call, w, attempts, k, reauthed, LastErrorOf(w, k - 1));
            t.exit == Exhausted ==> t.lastError == LastErrorOf(w, t.sends)
    decreases attempts + 1 - k
  {
    hide Cut, BackoffFails;
    if k <= attempts && GoesOn(call, w, attempts, k, reauthed) {
      ExhaustedReportsLastError(call, w, attempts, k + 1, reauthed || Refuses(w, k));
    }
  }

  // ------------------------------------------------------------------- the answer, from the last status

  /** Answer m is the last: all before it are passed, and it is the last attempt, or not passed, or refused again. */
  ghost predicate LastAt(call: Call, w: World, attempts: nat, k: nat, reauthed: bool, m: nat)
    requires k >= 1
  {
    && k <= m <= attempts && Reaches(call, w, k, reauthed, m)
    && (m == attempts || !Passable(call, w, m) || (Refuses(w, m) && RefusedBefore(w, k, reauthed, m)))
  }

  predicate RefusedBefore(w: World, k: nat, reauthed: bool, m: nat) {
    reauthed || Refusals(w, k, m) > 0
  }

  /** The call is required and nothing replaces it. */
  predicate Needed(call: Call) {
    call.required && !call.allowFallback
  }

  /** What a fetch that ends on answer m says, read off the number of that answer. */
  function AnswerAt(call: Call, w: World, attempts: nat, m: nat, again: bool): Outcome
    requires m >= 1
  {
    var status := w.answer(m).status;
    if Leaves(w, m) then Vanished
    else if EndsUnwound(w, attempts, m) then Panicked
    else if w.answer(m) == Answer(200, true) then Response(200, true, m)
    else if status == 404 && (call.required || call.allowFallback) then Failed(ProfileNotFound)
    else if status == 404 || status == 410 then Response(status, false, m)
    else if Redirects(w, m) && Session.SignedOut(w.session) then Failed(SessionExpired)
    else if Refuses(w, m) && !again && !call.allowFallback && !w.reauthOk then Failed(AuthError)
    else if Refuses(w, m) && (again || call.allowFallback) then
      if Needed(call) then Failed(SessionExpired) else Response(status, false, m)
    else if !Needed(call) then Response(0, false, attempts)
    else Failed(LastErrorOf(w, m).Or(Some(Unavailable(None))).value)
  }

  /** The answer of a fetch with a caller: no session, or the last answer decides. */
  ghost predicate IsAnswer(call: Call, w: World, maxRetries: nat, outcome: Outcome) {
    if Leaves(w, 0) then outcome == Vanished
    else if !w.sessionOk then outcome == Failed(AuthError)
    else
      exists m: nat ::
        && LastAt(call, w, Max(maxRetries, 1), 1, false, m)
        && outcome == AnswerAt(call, w, Max(maxRetries, 1), m, RefusedBefore(w, 1, false, m))
  }

  lemma {:induction false} LastHere(call: Call, w: World, attempts: nat, k: nat, reauthed: bool, m: nat)
    requires 1 <= k <= attempts && (!GoesOn(call, w, attempts, k, reauthed) || k == attempts)
    ensures LastAt(call, w, attempts, k, reauthed, m) <==> m == k
  {
    hide Cut, BackoffFails, Reads, GoesOn, Passable;
    if k < attempts {
      GoesOnIff(call, w, attempts, k, reauthed);
    }
    if k < m <= attempts {
      ReachesLater(call, w, k, reauthed, m);
    }
  }

  lemma {:induction false} LastLater(call: Call, w: World, attempts: nat, k: nat, reauthed: bool, m: nat)
    requires 1 <= k < attempts && GoesOn(call, w, attempts, k, reauthed)
    ensures LastAt(call, w, attempts, k, reauthed, m) <==> LastAt(call, w, attempts, k + 1, reauthed || Refuses(w, k), m)
    ensures k < m ==> RefusedBefore(w, k, reauthed, m) == RefusedBefore(w, k + 1, reauthed || Refuses(w, k), m)
  {
    hide Cut, BackoffFails, Reads, GoesOn, Passable;
    GoesOnIff(call, w, attempts, k, reauthed);
    if k < m <= attempts {
      ReachesLater(call, w, k, reauthed, m);
    }
  }

  /** The one last answer of the loop, and what the loop makes of it. */
  lemma {:induction false} LoopAnswers(call: Call, w: World, maxRetries: nat, k: nat, reauthed: bool)
    requires 1 <= k <= Max(maxRetries, 1)
    ensures var attempts := Max(maxRetries, 1);
            var t := LoopFrom(call, w, attempts, k, reauthed, LastErrorOf(w, k - 1));
            && k <= t.sends
            && (forall m: nat :: LastAt(call, w, attempts, k, reauthed, m) <==> m == t.sends)
            && OutcomeOf(call, w, maxRetries, t) ==
                 AnswerAt(call, w, attempts, t.sends, RefusedBefore(w, k, reauthed, t.sends))
    decreases Max(maxRetries, 1) - k
  {
    hide LastAt, Cut, BackoffFails, AnswerAt, OutcomeOf, RefusedBefore;
    var attempts := Max(maxRetries, 1);
    if k < attempts && GoesOn(call, w, attempts, k, reauthed) {
      LoopAnswers(call, w, maxRetries, k + 1, reauthed || Refuses(w, k));
      forall m: nat {
        LastLater(call, w, attempts, k, reauthed, m);
      }
      SameOutcome(call, w, maxRetries, LoopFrom(call, w, attempts, k, reauthed, LastErrorOf(w, k - 1)),
                  LoopFrom(call, w, attempts, k + 1, reauthed || Refuses(w, k), LastErrorOf(w, k)));
    } else {
      forall m: nat {
        LastHere(call, w, attempts, k, reauthed, m);
      }
      LoopEnds(call, w, maxRetries, k, reauthed);
    }
  }

  lemma {:induction false} SameOutcome(call: Call, w: World, maxRetries: nat, t: Trace, u: Trace)
    requires t.exit == u.exit && t.sends == u.sends && t.lastError == u.lastError
    ensures OutcomeOf(call, w, maxRetries, t) == OutcomeOf(call, w, maxRetries, u)
  {
  }

  lemma {:induction false} LoopEnds(call: Call, w: World, maxRetries: nat, k: nat, reauthed: bool)
    requires 1 <= k <= Max(maxRetries, 1) && (!GoesOn(call, w, Max(maxRetries, 1), k, reauthed) || k == Max(maxRetries, 1))
    ensures var attempts := Max(maxRetries, 1);
            var t := LoopFrom(call, w, attempts, k, reauthed, LastErrorOf(w, k - 1));
            && t.sends == k
            && OutcomeOf(call, w, maxRetries, t) == AnswerAt(call, w, attempts, k, RefusedBefore(w, k, reauthed, k))
  {
    hide Cut, BackoffFails, Session.SignedOut;
    var attempts, error := Max(maxRetries, 1), LastErrorOf(w, k - 1);
    if !Reads(w, k) {
    } else if !Continues(call, w, k, reauthed) {
      hide LoopFrom;
      StopAnswers(call, w, maxRetries, k, reauthed);
      assert LoopFrom(call, w, attempts, k, reauthed, error) == Stop(call, w, k, reauthed, error);
    } else if k == attempts {
      LastAttemptAnswers(call, w, maxRetries, reauthed);
    }
  }

  lemma {:induction false} StopAnswers(call: Call, w: World, maxRetries: nat, k: nat, reauthed: bool)
    requires k >= 1 && Reads(w, k) && !Continues(call, w, k, reauthed)
    ensures var t := Stop(call, w, k, reauthed, LastErrorOf(w, k - 1));
            && t.sends == k
            && OutcomeOf(call, w, maxRetries, t) == AnswerAt(call, w, Max(maxRetries, 1), k, RefusedBefore(w, k, reauthed, k))
  {
    hide Cut, BackoffFails, Session.SignedOut;
  }

  lemma {:induction false} LastAttemptAnswers(call: Call, w: World, maxRetries: nat, reauthed: bool)
    requires var k := Max(maxRetries, 1); Reads(w, k) && Continues(call, w, k, reauthed)
    ensures var k := Max(maxRetries, 1);
            var t := LoopFrom(call, w, k, k, reauthed, LastErrorOf(w, k - 1));
            t.sends == k && OutcomeOf(call, w, maxRetries, t) == AnswerAt(call, w, k, k, RefusedBefore(w, k, reauthed, k))
  {
    hide Cut, BackoffFails, Session.SignedOut;
  }

  /** Every fetch with a caller says what its one last answer calls for. */
  lemma {:induction false} LastAnswerDecides(call: Call, w: World, maxRetries: nat)
    ensures IsAnswer(call, w, maxRetries, OutcomeOf(call, w, maxRetries, FetchTrace(call, w, maxRetries)))
    ensures w.sessionOk && !Leaves(w, 0) ==>
              forall m: nat :: LastAt(call, w, Max(maxRetries, 1), 1, false, m) <==> m == FetchTrace(call, w, maxRetries).sends
  {
    hide LastAt, LoopFrom, AnswerAt;
    if w.sessionOk && !Leaves(w, 0) {
      LoopAnswers(call, w, maxRetries, 1, false);
    }
  }

  /** What a caller can rely on, by the number of the last answer and the flags of the call alone. */
  ghost predicate RepliesByStatus(call: Call, w: World, attempts: nat, m: nat, outcome: Outcome)
    requires m >= 1
  {
    var status := w.answer(m).status;
    var expired := Redirects(w, m) && Session.SignedOut(w.session);
    var refused := Refuses(w, m) && (call.allowFallback || RefusedBefore(w, 1, false, m));
    var told := w.answer(m) == Answer(200, true) || status == 404 || status == 410 || refused;
    var read := !Leaves(w, m) && !EndsUnwound(w, attempts, m);
    && (outcome.Vanished? <==> Leaves(w, m)) && (outcome.Panicked? <==> EndsUnwound(w, attempts, m))
    // a replaceable call fails for a missing profile and an announced sign-out, and for nothing soft
    && (call.allowFallback ==> (outcome.Failed? <==> read && (status == 404 || expired)))
    // an optional call fails for an announced sign-out and a session that cannot be renewed
    && (!call.allowFallback && !call.required ==>
          (outcome.Failed? <==> read && (expired || (Refuses(w, m) && !refused && !w.reauthOk))))
    // a call that is needed fails for everything but its payload and a retired endpoint
    && (Needed(call) ==> (outcome.Failed? <==> read && w.answer(m) != Answer(200, true) && status != 410))
    && (outcome.Failed? && status == 404 ==> outcome.error == ProfileNotFound)
    && (outcome.Failed? && (expired || refused) ==> outcome.error == SessionExpired)
    && (outcome.Failed? && Throttles(w, m) ==> outcome.error == RateLimited(status))
    && (outcome.Failed? && !expired && !Refuses(w, m) && !Throttles(w, m) && status != 404 ==>
          outcome.error == Unavailable(Some(status)))
    && (outcome.Failed? && Refuses(w, m) && !refused && !w.reauthOk ==> outcome.error == AuthError)
    // a response carries the status it stands for, or 0 and the number of attempts when they are exhausted
    && (outcome.Response? ==>
          outcome == if told then Response(status, status == 200, m) else Response(0, false, attempts))
  }

  lemma {:induction false} ReplyByStatus(call: Call, w: World, maxRetries: nat, m: nat)
    requires w.sessionOk && !Leaves(w, 0) && LastAt(call, w, Max(maxRetries, 1), 1, false, m)
    ensures RepliesByStatus(call, w, Max(maxRetries, 1), m, OutcomeOf(call, w, maxRetries, FetchTrace(call, w, maxRetries)))
  {
    hide LoopFrom, OutcomeOf, Cut, BackoffFails, Session.SignedOut, Refusals;
    LastAnswerDecides(call, w, maxRetries);
    LoopAnswers(call, w, maxRetries, 1, false);
  }

  /** The last answer is one that is recorded as a failure. */
  predicate EndsFailing(call: Call, w: World, attempts: nat, m: nat)
    requires m >= 1
  {
    && !EndsSilently(w, attempts, m) && !EndsUnwound(w, attempts, m)
    && w.answer(m) != Answer(200, true)
  }

  /** What the breaker is told: a failure for each throttling answer and for a failing last one, a success for a payload. */
  lemma {:induction false} ReportsByStatus(call: Call, w: World, maxRetries: nat, m: nat)
    requires w.sessionOk && !Leaves(w, 0) && LastAt(call, w, Max(maxRetries, 1), 1, false, m)
    ensures var t := FetchTrace(call, w, maxRetries);
            && t.failures == ThrottleAnswers(w, 1, m) + (if EndsFailing(call, w, Max(maxRetries, 1), m) then 1 else 0)
            && (t.success <==> Reads(w, m) && w.answer(m) == Answer(200, true))
            && t.reauths == Refusals(w, 1, m) +
                 (if Reads(w, m) && Refuses(w, m) && Refusals(w, 1, m) == 0 && !call.allowFallback then 1 else 0)
  {
    hide LastAt, LoopFrom, EndsFailing, IsFailing, Reads;
    var attempts := Max(maxRetries, 1);
    LastAnswerDecides(call, w, maxRetries);
    LoopFailures(call, w, attempts, 1, false, None);
    LoopExits(call, w, attempts, 1, false, None);
    LoopReauths(call, w, attempts, 1, false, None);
  }

  lemma {:induction false} LoopExits(call: Call, w: World, attempts: nat, k: nat, reauthed: bool, lastError: Option<ErrorKind>)
    requires 1 <= k <= attempts
    ensures var t := LoopFrom(call, w, attempts, k, reauthed, lastError);
            && k <= t.sends
            && (IsFailing(t.exit) <==> EndsFailing(call, w, attempts, t.sends))
            && (t.exit == Payload <==> Reads(w, t.sends) && w.answer(t.sends) == Answer(200, true))
    decreases attempts + 1 - k
  {
    hide Cut, BackoffFails, Session.SignedOut;
    if k < attempts && GoesOn(call, w, attempts, k, reauthed) {
      LoopExits(call, w, attempts, k + 1, reauthed || Refuses(w, k), NextError(w, k, lastError));
    } else if k == attempts && GoesOn(call, w, attempts, k, reauthed) {
      assert LoopFrom(call, w, attempts, k + 1, reauthed || Refuses(w, k), NextError(w, k, lastError)).exit.Exhausted?;
    }
  }

  lemma {:induction false} LoopReauths(call: Call, w: World, attempts: nat, k: nat, reauthed: bool, lastError: Option<ErrorKind>)
    requires 1 <= k <= attempts
    ensures var t := LoopFrom(call, w, attempts, k, reauthed, lastError);
            && k <= t.sends
            && t.reauths == Refusals(w, k, t.sends) +
                 (if Reads(w, t.sends) && Refuses(w, t.sends) && !RefusedBefore(w, k, reauthed, t.sends) && !call.allowFallback
                  then 1 else 0)
    decreases attempts + 1 - k
  {
    hide Cut, BackoffFails, Session.SignedOut;
    if k < attempts && GoesOn(call, w, attempts, k, reauthed) {
      LoopReauths(call, w, attempts, k + 1, reauthed || Refuses(w, k), NextError(w, k, lastError));
    }
  }

  // ------------------------------------------------------------------- the session left behind

  /** Answer k is the first refusal, and cured. */
  predicate Renews(call: Call, w: World, k: nat) {
    Reads(w, k) && Refuses(w, k) && Refusals(w, 1, k) == 0 && !call.allowFallback && w.reauthOk
  }

  /** The transport holds a cookie after answer k that the session read at the start holds not, or otherwise. */
  predicate Rotates(w: World, k: nat) {
    var rotated := Session.Rotated(w.session, w.cookies(k));
    w.gone != Some(Departure(k, false)) && w.answer(k).status != 0 && exists n :: n in rotated && (n in w.session ==> w.session[n] != rotated[n])
  }

  /** By a scan from answer m back: the renewed session, or the first one with the cookies of the latest answer that rotated any. */
  function LastSession(call: Call, w: World, m: nat): Session.Jar {
    if m == 0 then w.session
    else if Renews(call, w, m) then w.renewed
    else if Rotates(w, m) then Session.Rotated(w.session, w.cookies(m))
    else LastSession(call, w, m - 1)
  }

  lemma {:induction false} TakenLast(call: Call, w: World, k: nat)
    requires k >= 1 && !Renews(call, w, k)
    ensures Taken(w, k, LastSession(call, w, k - 1)) == LastSession(call, w, k)
  {
    hide Session.Rotated, Renews;
    var rotated := Session.Rotated(w.session, w.cookies(k));
    assert forall n :: n in rotated ==>
        (Session.At(w.session, n) == Some(rotated[n]) <==> n in w.session && w.session[n] == rotated[n]);
  }

  lemma {:induction false} RefusalsSnoc(w: World, k: nat, m: nat)
    requires k <= m
    ensures Refusals(w, k, m + 1) == Refusals(w, k, m) + if Refuses(w, m) then 1 else 0
    decreases m - k
  {
    if k < m {
      RefusalsSnoc(w, k + 1, m);
    } else {
      assert Refusals(w, k + 1, k + 1) == 0;
    }
  }

  lemma {:induction false} LoopSession(call: Call, w: World, attempts: nat, k: nat, reauthed: bool, lastError: Option<ErrorKind>)
    requires 1 <= k <= attempts && (reauthed <==> Refusals(w, 1, k) > 0)
    ensures var t := LoopFrom(call, w, attempts, k, reauthed, lastError);
            SharedFrom(call, w, attempts, k, reauthed, LastSession(call, w, k - 1)) == LastSession(call, w, t.sends)
    decreases attempts + 1 - k
  {
    hide Cut, BackoffFails, Session.SignedOut, Taken, Rotates;
    RefusalsSnoc(w, 1, k);
    if !Renews(call, w, k) {
      TakenLast(call, w, k);
    }
    if k < attempts && GoesOn(call, w, attempts, k, reauthed) {
      LoopSession(call, w, attempts, k + 1, reauthed || Refuses(w, k), NextError(w, k, lastError));
    }
  }

  /** The shared session that a fetch leaves is that of the scan from its last answer. */
  lemma {:induction false} SharedByScan(call: Call, w: World, maxRetries: nat, m: nat, shared: Session.Jar)
    requires w.sessionOk && !Leaves(w, 0) && LastAt(call, w, Max(maxRetries, 1), 1, false, m)
    ensures SharedAfter(call, w, maxRetries, shared) == LastSession(call, w, m)
  {
    hide LastAt, LoopFrom, SharedFrom;
    LastAnswerDecides(call, w, maxRetries);
    LoopSession(call, w, Max(maxRetries, 1), 1, false, None);
  }

  // ---------------------------------------------------------------------- signing out

  /** A fetch reports a sign-out exactly when it stops at a redirect with a session signed out before its first send. */
  lemma {:induction false} SignOutReportedIff(call: Call, w: World, maxRetries: nat)
    ensures var t := FetchTrace(call, w, maxRetries);
            t.exit == SignedOut <==>
              !Leaves(w, 0) && w.sessionOk && Session.SignedOut(w.session) &&
              t.sends > 0 && Redirects(w, t.sends) && Reads(w, t.sends)
  {
    hide Cut, BackoffFails;
    if w.sessionOk {
      LoopSignedOut(call, w, Max(maxRetries, 1), 1, false, None);
    }
  }

  lemma {:induction false} LoopSignedOut(call: Call, w: World, attempts: nat, k: nat, reauthed: bool, lastError: Option<ErrorKind>)
    requires 1 <= k <= attempts + 1
    requires k > 1 ==> !Redirects(w, k - 1)
    ensures var t := LoopFrom(call, w, attempts, k, reauthed, lastError);
            t.exit == SignedOut <==>
              Session.SignedOut(w.session) && t.sends > 0 && Redirects(w, t.sends) && Reads(w, t.sends)
    decreases attempts + 1 - k
  {
    hide Cut, BackoffFails, Session.SignedOut;
    if k <= attempts && GoesOn(call, w, attempts, k, reauthed) {
      LoopSignedOut(call, w, attempts, k + 1, reauthed || Refuses(w, k), NextError(w, k, lastError));
    }
  }

  /**
   A session usable at the start and signed out by the cookies of the redirect that ends the fetch: the
   shared session is signed out, unless the caller goes away before they are taken in, and the fetch
   reports an unavailable upstream, or unwinds, or nothing, but never a sign-out.
   */
  lemma {:induction false} MidRequestSignOutMissed(call: Call, w: World, maxRetries: nat, shared: Session.Jar)
    requires var t := FetchTrace(call, w, maxRetries);
             && w.sessionOk && Session.IsUsable(w.session)
             && t.sends > 0 && Redirects(w, t.sends) && Session.SignedOut(w.cookies(t.sends))
    ensures TakesIn(w, FetchTrace(call, w, maxRetries).sends) ==> Session.SignedOut(SharedAfter(call, w, maxRetries, shared))
    ensures OutcomeOf(call, w, maxRetries, FetchTrace(call, w, maxRetries)) ==
            if Leaves(w, FetchTrace(call, w, maxRetries).sends) then Vanished
            else if Cut(w, FetchTrace(call, w, maxRetries).sends) then Panicked
            else if call.required && !call.allowFallback
            then Failed(Unavailable(Some(w.answer(FetchTrace(call, w, maxRetries).sends).status)))
            else Response(0, false, Max(maxRetries, 1))
  {
    hide Cut, TakesIn, LoopFrom, SharedFrom, KindAt, Session.SignedOut, Session.IsUsable;
    LoopSharedSignedOut(call, w, Max(maxRetries, 1), 1, false, None, w.session);
  }

  lemma {:induction false} LoopSharedSignedOut(call: Call, w: World, attempts: nat, k: nat, reauthed: bool,
                                               lastError: Option<ErrorKind>, shared: Session.Jar)
    requires 1 <= k <= attempts + 1 && Session.IsUsable(w.session)
    requires var t := LoopFrom(call, w, attempts, k, reauthed, lastError);
             t.sends > 0 && Redirects(w, t.sends) && Session.SignedOut(w.cookies(t.sends))
    requires k > 1 ==> !Redirects(w, k - 1)
    ensures TakesIn(w, LoopFrom(call, w, attempts, k, reauthed, lastError).sends) ==>
              Session.SignedOut(SharedFrom(call, w, attempts, k, reauthed, shared))
    ensures var t := LoopFrom(call, w, attempts, k, reauthed, lastError);
            if Leaves(w, t.sends) then t.exit == Dropped
            else if Cut(w, t.sends) then t.exit == Unwound
            else t.exit == Exhausted && t.lastError == UnavailableAt(w, t.sends)
    decreases attempts + 1 - k
  {
    hide Session.IsTombstone, Session.Rotated, Absorbed, Cut, BackoffFails;
    if k <= attempts {
      if GoesOn(call, w, attempts, k, reauthed) {
        var renews := Refuses(w, k);
        LoopSharedSignedOut(call, w, attempts, k + 1, reauthed || renews, NextError(w, k, lastError),
                            if renews then w.renewed else Taken(w, k, shared));
      } else {
        AbsorbedSignedOut(w, k, shared);
      }
    }
  }

  /** A tombstone for the auth cookie always reaches the shared session. */
  lemma {:induction false} AbsorbedSignedOut(w: World, k: nat, shared: Session.Jar)
    requires Session.IsUsable(w.session) && Session.SignedOut(w.cookies(k)) && w.answer(k).status != 0
    ensures Session.SignedOut(Absorbed(w, k, shared))
  {
    hide Session.Rotated;
    var rotated, token := Session.Rotated(w.session, w.cookies(k)), w.cookies(k)[Session.LI_AT];
    Session.TombstoneFilled(token);
    assert Session.At(rotated, Session.LI_AT) == Session.Issue(Session.At(w.session, Session.LI_AT), Session.LI_AT, Some(token));
  }

  /** A run of that kind. */
  method SignedOutByRedirect(cookies: Session.Jar) returns (outcome: Outcome, after: Session.Jar)
    requires Session.IsUsable(cookies)
    ensures outcome == Failed(Unavailable(Some(302))) && Session.SignedOut(after)
  {
    hide Session.IsUsable;
    var breaker := new CircuitBreaker(1, 0);
    var client := new Client(1, breaker, cookies);
    var expired: Session.Jar := map[Session.LI_AT := Session.TOMBSTONE];
    var w := World(k => Answer(302, false), k => [], k => expired, true, cookies, false, map[], 1.5, k => 0.5, None);
    var call := Call(true, false);
    Session.MarkerIsTombstone();
    Session.UsableNotSignedOut(cookies);
    assert KindAt(w, 1) == Redirect && !Continues(call, w, 1, false) && Reads(w, 1);
    assert FetchTrace(call, w, 1).sends == 1;
    MidRequestSignOutMissed(call, w, 1, cookies);
    outcome := client.Fetch(call, w, 0, 0, i => 0);
    after := client.shared;
  }
}
