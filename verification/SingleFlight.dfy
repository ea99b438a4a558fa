/**
 Keyed request coalescing of `fetch_once` in src/service/profile.rs. One step per lock
 region or watch-channel access, so any interleaving of leaders, waiters, cancellations
 and panicking leaders is a sequence of steps.
 */
module SingleFlight {
  import opened Common

  type Key = string

  datatype Outcome = Fetched(profile: int) | Failed(error: int)

  /** Where a leader task stands: fetching, panicked while it was, outcome published, map entry removed. */
  datatype Leader = Fetching | Crashed | Sent | Gone

  /** A flight is one upstream fetch; `outcome` is the content of its watch channel. */
  datatype Flight = Flight(key: Key, outcome: Option<Outcome>, leader: Leader)

  /**
   A waiter that has read the outcome still has to lock the map and remove the key; one whose channel
   has lost its sender returns an error at once and removes nothing.
   */
  datatype Phase = Waiting | Removing(result: Outcome) | Returned(result: Outcome) | Dropped | Cancelled

  datatype Waiter = Waiter(flight: nat, phase: Phase)

  datatype State = State(flights: seq<Flight>, waiters: seq<Waiter>, inflight: map<Key, nat>)

  datatype Event =
    | Arrive(key: Key)
    | Send(flight: nat, outcome: Outcome)
    | Crash(flight: nat)
    | LeaderRemove(flight: nat)
    | Poll(waiter: nat)
    | WaiterRemove(waiter: nat)
    | Cancel(waiter: nat)

  const INITIAL := State([], [], map[])

  function Unlink(inflight: map<Key, nat>, key: Key): map<Key, nat> {
    inflight - {key}
  }

  /** One step; an event that is not enabled does nothing. */
  function Step(s: State, e: Event): State {
    match e
    case Arrive(key) =>
      if key in s.inflight then s.(waiters := s.waiters + [Waiter(s.inflight[key], Waiting)])
      else
        var f := |s.flights|;
        State(s.flights + [Flight(key, None, Fetching)], s.waiters + [Waiter(f, Waiting)], s.inflight[key := f])
    case Send(f, outcome) =>
      if f < |s.flights| && s.flights[f].leader == Fetching
      then s.(flights := s.flights[f := s.flights[f].(outcome := Some(outcome), leader := Sent)])
      else s
    case Crash(f) =>
      if f < |s.flights| && s.flights[f].leader == Fetching
      then s.(flights := s.flights[f := s.flights[f].(leader := Crashed)])
      else s
    case LeaderRemove(f) =>
      if f < |s.flights| && s.flights[f].leader == Sent
      then s.(flights := s.flights[f := s.flights[f].(leader := Gone)], inflight := Unlink(s.inflight, s.flights[f].key))
      else s
    case Poll(w) =>
      if w < |s.waiters| && s.waiters[w].phase == Waiting then
        if ResultOf(s, w).Some? then SetPhase(s, w, Removing(ResultOf(s, w).value))
        else if Lost(s, s.waiters[w].flight) then SetPhase(s, w, Dropped)
        else s
      else s
    case WaiterRemove(w) =>
      if w < |s.waiters| && s.waiters[w].phase.Removing? && s.waiters[w].flight < |s.flights|
      then SetPhase(s, w, Returned(s.waiters[w].phase.result))
           .(inflight := Unlink(s.inflight, s.flights[s.waiters[w].flight].key))
      else s
    case Cancel(w) =>
      if w < |s.waiters| && (s.waiters[w].phase.Waiting? || s.waiters[w].phase.Removing?)
      then SetPhase(s, w, Cancelled)
      else s
  }

  function ResultOf(s: State, w: nat): Option<Outcome>
    requires w < |s.waiters|
  {
    var f := s.waiters[w].flight;
    if f < |s.flights| then s.flights[f].outcome else None
  }

  /** The leader of this flight panicked. */
  predicate Lost(s: State, f: nat) {
    f < |s.flights| && s.flights[f].leader == Crashed
  }

  function SetPhase(s: State, w: nat, phase: Phase): State
    requires w < |s.waiters|
  {
    s.(waiters := s.waiters[w := s.waiters[w].(phase := phase)])
  }

  function Run(s: State, events: seq<Event>): State {
    if events == [] then s else Step(Run(s, events[..|events| - 1]), events[|events| - 1])
  }

  // ------------------------------------------------------------------------------ the service

  class ProfileService {
    var inflight: map<Key, nat>
    var flights: seq<Flight>
    var waiters: seq<Waiter>

    function Snapshot(): State
      reads this
    {
      State(flights, waiters, inflight)
    }

    constructor ()
      ensures Snapshot() == INITIAL
    {
      inflight, flights, waiters := map[], [], [];
    }

    /** The first lock region: join the flight of this key, or start one. */
    method Join(key: Key) returns (waiter: nat)
      modifies this
      ensures Snapshot() == Step(old(Snapshot()), Arrive(key))
      ensures key in inflight && waiters == old(waiters) + [Waiter(inflight[key], Waiting)]
      ensures if key in old(inflight) then inflight == old(inflight) && flights == old(flights)
              else inflight == old(inflight)[key := |old(flights)|] && flights == old(flights) + [Flight(key, None, Fetching)]
      ensures waiter == |old(waiters)|
    {
      waiter := |waiters|;
      if key in inflight {
        waiters := waiters + [Waiter(inflight[key], Waiting)];
      } else {
        inflight := inflight[key := |flights|];
        waiters := waiters + [Waiter(|flights|, Waiting)];
        flights := flights + [Flight(key, None, Fetching)];
      }
    }

    /** The leader publishes its outcome. */
    method Publish(f: nat, outcome: Outcome)
      requires f < |flights| && flights[f].leader == Fetching
      modifies this
      ensures Snapshot() == Step(old(Snapshot()), Send(f, outcome))
      ensures |flights| == |old(flights)| && flights[f] == Flight(old(flights)[f].key, Some(outcome), Sent)
    {
      flights := flights[f := flights[f].(outcome := Some(outcome), leader := Sent)];
    }

    /** The leader panics; its sender is dropped, its map entry stays. */
    method Fail(f: nat)
      requires f < |flights| && flights[f].leader == Fetching
      modifies this
      ensures Snapshot() == Step(old(Snapshot()), Crash(f))
      ensures |flights| == |old(flights)| && flights[f] == Flight(old(flights)[f].key, old(flights)[f].outcome, Crashed)
    {
      flights := flights[f := flights[f].(leader := Crashed)];
    }

    /** The leader's removal: whatever the map holds for the key goes. */
    method LeaderCleanup(f: nat)
      requires f < |flights| && flights[f].leader == Sent
      modifies this
      ensures Snapshot() == Step(old(Snapshot()), LeaderRemove(f))
      ensures inflight == old(inflight) - {old(flights)[f].key}
    {
      inflight := Unlink(inflight, flights[f].key);
      flights := flights[f := flights[f].(leader := Gone)];
    }

    /** A waiter looks at its channel, and leaves it with the outcome or, the sender being gone, with an error. */
    method Look(w: nat) returns (done: bool)
      requires w < |waiters| && waiters[w].phase == Waiting && waiters[w].flight < |flights|
      modifies this
      ensures Snapshot() == Step(old(Snapshot()), Poll(w))
      ensures done <==> ResultOf(old(Snapshot()), w).Some? || Lost(old(Snapshot()), old(waiters)[w].flight)
      ensures var flight := flights[waiters[w].flight];
              waiters[w].phase == if flight.outcome.Some? then Removing(flight.outcome.value)
                                  else if flight.leader == Crashed then Dropped else Waiting
    {
      match flights[waiters[w].flight].outcome {
        case None =>
          done := flights[waiters[w].flight].leader == Crashed;
          if done {
            waiters := waiters[w := waiters[w].(phase := Dropped)];
          }
        case Some(result) =>
          waiters := waiters[w := waiters[w].(phase := Removing(result))];
          done := true;
      }
    }

    /** The waiter's own removal, before it returns. */
    method WaiterCleanup(w: nat) returns (result: Outcome)
      requires w < |waiters| && waiters[w].phase.Removing? && waiters[w].flight < |flights|
      modifies this
      ensures Snapshot() == Step(old(Snapshot()), WaiterRemove(w))
      ensures waiters[w].phase == Returned(result) && result == old(waiters)[w].phase.result
      ensures inflight == old(inflight) - {flights[waiters[w].flight].key}
    {
      result := waiters[w].phase.result;
      inflight := Unlink(inflight, flights[waiters[w].flight].key);
      waiters := waiters[w := waiters[w].(phase := Returned(result))];
    }
  }

  // ------------------------------------------------------------------------------ outcomes and cleanup

  ghost predicate Inv(s: State) {
    && (forall f :: 0 <= f < |s.flights| ==> (s.flights[f].leader == Fetching || s.flights[f].leader == Crashed <==> s.flights[f].outcome.None?))
    && (forall w :: 0 <= w < |s.waiters| ==> WaiterInv(s, s.waiters[w]))
    && (forall k :: k in s.inflight ==> EntryInv(s, k, s.inflight[k]))
  }

  /** A waiter belongs to a flight and carries no other outcome than its flight's. */
  ghost predicate WaiterInv(s: State, w: Waiter) {
    && w.flight < |s.flights|
    && (w.phase.Removing? || w.phase.Returned? ==> s.flights[w.flight].outcome == Some(w.phase.result))
    && (w.phase.Dropped? ==> s.flights[w.flight].leader == Crashed)
  }

  /** A map entry belongs to a leader of that key that has not yet run its removal. */
  ghost predicate EntryInv(s: State, k: Key, f: nat) {
    f < |s.flights| && s.flights[f].key == k && s.flights[f].leader != Gone
  }

  /** Flights are only appended, keep their key, never change a published outcome, and stay crashed. */
  ghost predicate Grows(s: State, s': State) {
    && |s.flights| <= |s'.flights| && |s.waiters| <= |s'.waiters|
    && (forall f :: 0 <= f < |s.flights| ==>
          && s'.flights[f].key == s.flights[f].key
          && (s.flights[f].outcome.Some? ==> s'.flights[f].outcome == s.flights[f].outcome)
          && (s.flights[f].leader == Crashed ==> s'.flights[f] == s.flights[f]))
    && (forall w :: 0 <= w < |s.waiters| ==> s'.waiters[w].flight == s.waiters[w].flight)
  }

  lemma {:induction false} StepFlights(s: State, e: Event)
    requires Inv(s)
    ensures Grows(s, Step(s, e))
    ensures forall f :: 0 <= f < |Step(s, e).flights| ==>
              (Step(s, e).flights[f].leader == Fetching || Step(s, e).flights[f].leader == Crashed <==> Step(s, e).flights[f].outcome.None?)
  {
    hide EntryInv;
  }

  lemma {:induction false} StepWaiters(s: State, e: Event)
    requires Inv(s)
    ensures forall w :: 0 <= w < |Step(s, e).waiters| ==> WaiterInv(Step(s, e), Step(s, e).waiters[w])
  {
    assert e.Arrive? && e.key in s.inflight ==> EntryInv(s, e.key, s.inflight[e.key]);
    forall w | 0 <= w < |Step(s, e).waiters| ensures WaiterInv(Step(s, e), Step(s, e).waiters[w]) {
      assert w < |s.waiters| ==> WaiterInv(s, s.waiters[w]);
    }
  }

  lemma {:induction false} StepEntries(s: State, e: Event)
    requires Inv(s)
    ensures forall k :: k in Step(s, e).inflight ==> EntryInv(Step(s, e), k, Step(s, e).inflight[k])
  {
    hide WaiterInv;
    forall k | k in Step(s, e).inflight ensures EntryInv(Step(s, e), k, Step(s, e).inflight[k]) {
      assert k in s.inflight ==> EntryInv(s, k, s.inflight[k]);
    }
  }

  lemma {:induction false} StepInv(s: State, e: Event)
    requires Inv(s)
    ensures Inv(Step(s, e)) && Grows(s, Step(s, e))
  {
    hide Step, WaiterInv, EntryInv;
    StepFlights(s, e);
    StepWaiters(s, e);
    StepEntries(s, e);
  }

  lemma {:induction false} RunInv(s: State, events: seq<Event>)
    requires Inv(s)
    ensures Inv(Run(s, events)) && Grows(s, Run(s, events))
  {
    if events != [] {
      RunInv(s, events[..|events| - 1]);
      StepInv(Run(s, events[..|events| - 1]), events[|events| - 1]);
    }
  }

  /** In every run: two waiters of one flight that return agree, and stay in agreement with it for ever after. */
  lemma {:induction false} WaitersAgree(events: seq<Event>, more: seq<Event>, w1: nat, w2: nat)
    requires var s := Run(INITIAL, events);
             && w1 < |s.waiters| && s.waiters[w1].phase.Returned?
    ensures var s, s' := Run(INITIAL, events), Run(Run(INITIAL, events), more);
            && s.waiters[w1].flight < |s'.flights|
            && s'.flights[s.waiters[w1].flight].outcome == Some(s.waiters[w1].phase.result)
            && (w2 < |s'.waiters| && s'.waiters[w2].phase.Returned? && s'.waiters[w2].flight == s.waiters[w1].flight ==>
                  s'.waiters[w2].phase.result == s.waiters[w1].phase.result)
  {
    var s := Run(INITIAL, events);
    RunInv(INITIAL, events);
    RunInv(s, more);
    assert WaiterInv(s, s.waiters[w1]);
    if w2 < |Run(s, more).waiters| {
      assert WaiterInv(Run(s, more), Run(s, more).waiters[w2]);
    }
  }

  // ------------------------------------------------------------------------------ what was fetched is what is served

  /** The first event that ends the fetch of flight f: its leader sends, or panics. */
  function FirstEnd(events: seq<Event>, f: nat): Option<Event> {
    if events == [] then None
    else
      var n := |events| - 1;
      var earlier := FirstEnd(events[..n], f);
      if earlier.Some? || f >= |Run(INITIAL, events[..n]).flights| then earlier
      else if events[n] == Crash(f) || (events[n].Send? && events[n].flight == f) then Some(events[n])
      else None
  }

  /** The keys asked for, in the order of their arrival. */
  function ArrivalKeys(events: seq<Event>): seq<Key> {
    if events == [] then []
    else
      var n := |events| - 1;
      ArrivalKeys(events[..n]) + if events[n].Arrive? then [events[n].key] else []
  }

  /** Over every run: the outcome of a flight is the one its leader sent, unless it panicked before. */
  lemma {:induction false} OutcomeWasSent(events: seq<Event>, f: nat)
    ensures var s := Run(INITIAL, events);
            if f >= |s.flights| then FirstEnd(events, f).None?
            else match FirstEnd(events, f)
                 case Some(Send(_, outcome)) =>
                   s.flights[f].outcome == Some(outcome) && (s.flights[f].leader == Sent || s.flights[f].leader == Gone)
                 case Some(_) => s.flights[f].outcome.None? && s.flights[f].leader == Crashed
                 case None => s.flights[f].outcome.None? && s.flights[f].leader == Fetching
  {
    if events != [] {
      OutcomeWasSent(events[..|events| - 1], f);
    }
  }

  /** Waiter w is on a flight of this key. */
  ghost predicate WaitsFor(s: State, w: nat, key: Key) {
    && w < |s.waiters| && s.waiters[w].flight < |s.flights|
    && s.flights[s.waiters[w].flight].key == key
  }

  lemma {:induction false} WaitsForStep(s: State, e: Event, w: nat, key: Key)
    requires Inv(s) && WaitsFor(s, w, key)
    ensures WaitsFor(Step(s, e), w, key)
  {
    hide Step, Inv;
    StepInv(s, e);
  }

  lemma {:induction false} WaitersStep(s: State, e: Event)
    requires Inv(s)
    ensures |Step(s, e).waiters| == |s.waiters| + if e.Arrive? then 1 else 0
    ensures e.Arrive? ==> WaitsFor(Step(s, e), |s.waiters|, e.key)
  {
    if e.Arrive? && e.key in s.inflight {
      assert EntryInv(s, e.key, s.inflight[e.key]);
    }
  }

  /** Over every run: there is one waiter for each arrival, on a flight of the key asked for. */
  lemma {:induction false} WaiterPerArrival(events: seq<Event>, w: nat)
    ensures |Run(INITIAL, events).waiters| == |ArrivalKeys(events)|
    ensures w < |ArrivalKeys(events)| ==> WaitsFor(Run(INITIAL, events), w, ArrivalKeys(events)[w])
  {
    if events != [] {
      hide Step, Inv, WaitsFor;
      var n := |events| - 1;
      var before := Run(INITIAL, events[..n]);
      WaiterPerArrival(events[..n], w);
      InitialInv();
      RunInv(INITIAL, events[..n]);
      WaitersStep(before, events[n]);
      if w < |before.waiters| {
        WaitsForStep(before, events[n], w, ArrivalKeys(events[..n])[w]);
      }
    }
  }

  /**
   Over every run: whoever gets an answer gets what the leader of a flight of its own key sent, and whoever
   is dropped waited on one that panicked.
   */
  lemma {:induction false} ServedWhatWasSent(events: seq<Event>, w: nat)
    requires w < |Run(INITIAL, events).waiters|
    ensures var waiter := Run(INITIAL, events).waiters[w];
            && w < |ArrivalKeys(events)| && waiter.flight < |Run(INITIAL, events).flights|
            && Run(INITIAL, events).flights[waiter.flight].key == ArrivalKeys(events)[w]
            && (waiter.phase.Removing? || waiter.phase.Returned? ==>
                  FirstEnd(events, waiter.flight) == Some(Send(waiter.flight, waiter.phase.result)))
            && (waiter.phase.Dropped? ==> FirstEnd(events, waiter.flight) == Some(Crash(waiter.flight)))
  {
    hide Run, FirstEnd, ArrivalKeys;
    var s := Run(INITIAL, events);
    InitialInv();
    RunInv(INITIAL, events);
    assert WaiterInv(s, s.waiters[w]);
    WaiterPerArrival(events, w);
    OutcomeWasSent(events, s.waiters[w].flight);
    EndNames(events, s.waiters[w].flight);
  }

  lemma {:induction false} EndNames(events: seq<Event>, f: nat)
    ensures match FirstEnd(events, f)
            case Some(e) => e == Crash(f) || (e.Send? && e.flight == f)
            case None => true
  {
    if events != [] {
      EndNames(events[..|events| - 1], f);
    }
  }

  function PhaseOf(s: State, w: nat): Option<Phase> {
    if w < |s.waiters| then Some(s.waiters[w].phase) else None
  }

  /** Nothing happens to this waiter itself. */
  ghost predicate LeftAlone(events: seq<Event>, w: nat) {
    Poll(w) !in events && WaiterRemove(w) !in events && Cancel(w) !in events
  }

  lemma {:induction false} LeftAloneRun(s: State, events: seq<Event>, w: nat)
    requires Inv(s) && w < |s.waiters| && LeftAlone(events, w)
    ensures Inv(Run(s, events)) && Grows(s, Run(s, events)) && Run(s, events).waiters[w] == s.waiters[w]
  {
    hide Inv;
    RunInv(s, events);
    if events != [] {
      var n := |events| - 1;
      assert events == events[..n] + [events[n]];
      LeftAloneRun(s, events[..n], w);
    }
  }

  /**
   Once the outcome is sent, a waiter gets it by looking and removing, whatever happens before, between or to
   others, and the map holds no flight of its key when it does. Cancelled, it gets nothing.
   */
  lemma {:induction false} WaiterIsServed(s: State, w: nat, before: seq<Event>, between: seq<Event>, outcome: Outcome)
    requires Inv(s) && w < |s.waiters| && s.waiters[w].phase.Waiting? && ResultOf(s, w) == Some(outcome)
    requires LeftAlone(before, w) && LeftAlone(between, w)
    ensures var s1 := Step(Run(s, before), Poll(w));
            var s2 := Step(Run(s1, between), WaiterRemove(w));
            && PhaseOf(s2, w) == Some(Returned(outcome))
            && s.flights[s.waiters[w].flight].key !in s2.inflight
            && PhaseOf(Step(Run(s1, between), Cancel(w)), w) == Some(Cancelled)
            && PhaseOf(Step(Run(s, before), Cancel(w)), w) == Some(Cancelled)
  {
    hide Run, Inv;
    assert WaiterInv(s, s.waiters[w]) by {
      InvWaiter(s, w);
    }
    LeftAloneRun(s, before, w);
    var s1 := Step(Run(s, before), Poll(w));
    StepInv(Run(s, before), Poll(w));
    LeftAloneRun(s1, between, w);
  }

  lemma {:induction false} InvWaiter(s: State, w: nat)
    requires Inv(s) && w < |s.waiters|
    ensures WaiterInv(s, s.waiters[w])
  {
  }

  /** The leaders that have not run their removal. */
  function Running(s: State): set<nat> {
    set f | 0 <= f < |s.flights| && s.flights[f].leader != Gone
  }

  lemma {:induction false} InjectionBound(keys: set<Key>, m: map<Key, nat>, values: set<nat>)
    requires keys <= m.Keys && forall k :: k in keys ==> m[k] in values
    requires forall k, k' :: k in keys && k' in keys && m[k] == m[k'] ==> k == k'
    ensures |keys| <= |values|
  {
    if keys != {} {
      var k :| k in keys;
      InjectionBound(keys - {k}, m, values - {m[k]});
    }
  }

  /** In every run the map is no larger than the number of leaders that have not run their removal. */
  lemma {:induction false} MapBounded(events: seq<Event>)
    ensures var s := Run(INITIAL, events);
            && |s.inflight| <= |Running(s)|
            && (Running(s) == {} ==> s.inflight == map[])
            && (forall k :: k in s.inflight ==> s.inflight[k] in Running(s) && s.flights[s.inflight[k]].key == k)
  {
    var s := Run(INITIAL, events);
    RunInv(INITIAL, events);
    forall k | k in s.inflight ensures s.inflight[k] in Running(s) && s.flights[s.inflight[k]].key == k {
      assert EntryInv(s, k, s.inflight[k]);
    }
    InjectionBound(s.inflight.Keys, s.inflight, Running(s));
    if Running(s) == {} {
      assert s.inflight.Keys == {};
    }
  }

  /** Every leader has ended, by its removal or by a panic. */
  ghost predicate AllEnded(s: State) {
    forall f :: 0 <= f < |s.flights| ==> s.flights[f].leader == Gone || s.flights[f].leader == Crashed
  }

  /** Once every leader has ended the map is empty if and only if it holds no flight that panicked. */
  lemma {:induction false} MapEmptyIff(events: seq<Event>)
    requires AllEnded(Run(INITIAL, events))
    ensures var s := Run(INITIAL, events);
            s.inflight == map[] <==> forall f :: 0 <= f < |s.flights| && s.flights[f].leader == Crashed ==> !Holds(s, f)
  {
    var s := Run(INITIAL, events);
    RunInv(INITIAL, events);
    if s.inflight != map[] {
      var k :| k in s.inflight;
      assert EntryInv(s, k, s.inflight[k]);
      assert Holds(s, s.inflight[k]);
    }
  }

  // ------------------------------------------------------------------------------ one fetch at a time

  /** The outcome of f is not sent: its leader is fetching, or has panicked. */
  predicate Pending(s: State, f: nat) {
    f < |s.flights| && s.flights[f].outcome.None?
  }

  predicate Fetches(s: State, f: nat) {
    f < |s.flights| && s.flights[f].leader == Fetching
  }

  /** The map holds flight f for its key. */
  predicate Holds(s: State, f: nat) {
    f < |s.flights| && s.flights[f].key in s.inflight && s.inflight[s.flights[f].key] == f
  }

  /** A leader or waiter of another flight of this key may still have a removal to run. */
  ghost predicate StaleLeader(s: State, f: nat, g: nat)
    requires f < |s.flights|
  {
    g < |s.flights| && g != f && s.flights[g].key == s.flights[f].key &&
    (s.flights[g].leader == Fetching || s.flights[g].leader == Sent)
  }

  ghost predicate StaleWaiter(s: State, f: nat, w: nat)
    requires f < |s.flights|
  {
    && w < |s.waiters| && s.waiters[w].flight < |s.flights|
    && s.waiters[w].flight != f && s.flights[s.waiters[w].flight].key == s.flights[f].key
    && s.flights[s.waiters[w].flight].leader != Crashed
    && (s.waiters[w].phase.Waiting? || s.waiters[w].phase.Removing?)
  }

  ghost predicate Quiet(s: State, f: nat)
    requires f < |s.flights|
  {
    && (forall g :: 0 <= g < |s.flights| ==> !StaleLeader(s, f, g))
    && (forall w :: 0 <= w < |s.waiters| ==> !StaleWaiter(s, f, w))
  }

  /** Between s and s' no fetch of this key started, and every newcomer for the key waits on f. */
  ghost predicate OnlyFlight(s: State, s': State, f: nat)
    requires f < |s.flights|
  {
    && Holds(s', f)
    && (forall g :: |s.flights| <= g < |s'.flights| ==> s'.flights[g].key != s.flights[f].key)
    && (forall w :: |s.waiters| <= w < |s'.waiters| ==> WaitsOnlyOn(s', s'.waiters[w], f))
  }

  /** A waiter for the key of f waits on f. */
  ghost predicate WaitsOnlyOn(s: State, w: Waiter, f: nat)
    requires f < |s.flights|
  {
    w.flight < |s.flights| && s.flights[w.flight].key == s.flights[f].key ==> w.flight == f
  }

  lemma {:induction false} QuietStep(s: State, f: nat, e: Event)
    requires Inv(s) && Holds(s, f) && Quiet(s, f) && Pending(Step(s, e), f)
    ensures Holds(Step(s, e), f) && Quiet(Step(s, e), f)
  {
    var s' := Step(s, e);
    if e.WaiterRemove? && e.waiter < |s.waiters| {
      assert WaiterInv(s, s.waiters[e.waiter]) && !StaleWaiter(s, f, e.waiter);
    }
    if e.LeaderRemove? && e.flight < |s.flights| {
      assert !StaleLeader(s, f, e.flight);
    }
    forall g | 0 <= g < |s'.flights| ensures !StaleLeader(s', f, g) {
      assert g < |s.flights| ==> !StaleLeader(s, f, g);
    }
    forall w | 0 <= w < |s'.waiters| ensures !StaleWaiter(s', f, w) {
      assert w < |s.waiters| ==> !StaleWaiter(s, f, w);
    }
  }

  lemma {:induction false} PendingBefore(s: State, f: nat, e: Event)
    requires Inv(s) && f < |s.flights| && Pending(Step(s, e), f)
    ensures Pending(s, f)
  {
  }

  lemma {:induction false} OnlyFlightStep(s: State, mid: State, f: nat, e: Event)
    requires f < |s.flights| && Grows(s, mid) && OnlyFlight(s, mid, f) && Holds(Step(mid, e), f)
    requires Inv(mid) && Grows(mid, Step(mid, e))
    ensures OnlyFlight(s, Step(mid, e), f)
  {
    var s' := Step(mid, e);
    forall w | |s.waiters| <= w < |s'.waiters| ensures WaitsOnlyOn(s', s'.waiters[w], f) {
      if w < |mid.waiters| {
        assert WaitsOnlyOn(mid, mid.waiters[w], f) && WaiterInv(mid, mid.waiters[w]);
      }
    }
  }

  /** Once no stale removal is left, then for as long as f is pending it is the only flight of its key. */
  lemma {:induction false} QuietRun(s: State, f: nat, events: seq<Event>)
    requires Inv(s) && Holds(s, f) && Quiet(s, f) && Pending(Run(s, events), f)
    ensures Grows(s, Run(s, events)) && Quiet(Run(s, events), f) && OnlyFlight(s, Run(s, events), f)
  {
    hide Inv, Quiet, Step;
    RunInv(s, events);
    if events != [] {
      var mid := Run(s, events[..|events| - 1]);
      var e := events[|events| - 1];
      RunInv(s, events[..|events| - 1]);
      StepInv(mid, e);
      PendingBefore(mid, f, e);
      QuietRun(s, f, events[..|events| - 1]);
      QuietStep(mid, f, e);
      OnlyFlightStep(s, mid, f, e);
    }
  }

  /** A stale removal can always be brought about without f's outcome having been sent. */
  lemma {:induction false} StaleUnlinks(s: State, f: nat) returns (events: seq<Event>)
    requires Inv(s) && Holds(s, f) && Pending(s, f) && !Quiet(s, f)
    ensures Pending(Run(s, events), f) && s.flights[f].key !in Run(s, events).inflight
    ensures Run(s, events).flights[f] == s.flights[f]
  {
    if g :| 0 <= g < |s.flights| && StaleLeader(s, f, g) {
      events := [Send(g, Failed(0)), LeaderRemove(g)];
      RunTwo(s, Send(g, Failed(0)), LeaderRemove(g));
    } else {
      var w :| 0 <= w < |s.waiters| && StaleWaiter(s, f, w);
      assert !StaleLeader(s, f, s.waiters[w].flight);
      assert WaiterInv(s, s.waiters[w]);
      events := [Poll(w), WaiterRemove(w)];
      RunTwo(s, Poll(w), WaiterRemove(w));
    }
  }

  lemma {:induction false} RunTwo(s: State, a: Event, b: Event)
    ensures Run(s, [a, b]) == Step(Step(s, a), b)
  {
    assert [a, b][..1] == [a] && [a][..0] == [];
    assert Run(s, [a]) == Step(Run(s, []), a);
  }

  lemma {:induction false} RunAppend(s: State, events: seq<Event>, e: Event)
    ensures Run(s, events + [e]) == Step(Run(s, events), e)
  {
    assert (events + [e])[..|events|] == events;
  }

  /**
   The exact guarantee. A pending flight held by the map stays the only fetch of its key, over
   every continuation in which its outcome is still unsent, if and only if no leader or waiter of
   another flight of that key has its map removal still to run.
   */
  lemma {:induction false} SingleFlightIff(s: State, f: nat)
    requires Inv(s) && Holds(s, f) && Pending(s, f)
    ensures (forall events :: Pending(Run(s, events), f) ==> OnlyFlight(s, Run(s, events), f)) <==> Quiet(s, f)
  {
    if Quiet(s, f) {
      forall events | Pending(Run(s, events), f) ensures OnlyFlight(s, Run(s, events), f) {
        QuietRun(s, f, events);
      }
    } else {
      var events := StaleUnlinks(s, f);
      RunInv(s, events);
      assert Pending(Run(s, events), f) && !OnlyFlight(s, Run(s, events), f);
    }
  }

  /**
   What a panicked leader leaves behind, exactly: its entry stays in the map for ever, so that every
   later arrival for the key joins a flight that can only fail, if and only if no leader or waiter of
   another flight of the key may still have a removal to run.
   */
  lemma {:induction false} CrashIsForeverIff(s: State, f: nat)
    requires Inv(s) && Holds(s, f) && Lost(s, f)
    ensures (forall events :: Holds(Run(s, events), f)) <==> Quiet(s, f)
    ensures Quiet(s, f) ==> forall events :: OnlyFlight(s, Run(s, events), f) && NobodyServed(Run(s, events), f)
  {
    if Quiet(s, f) {
      forall events ensures Holds(Run(s, events), f) && OnlyFlight(s, Run(s, events), f) && NobodyServed(Run(s, events), f) {
        RunInv(s, events);
        QuietRun(s, f, events);
        CrashedServesNobody(Run(s, events), f);
      }
    } else {
      var events := StaleUnlinks(s, f);
      RunInv(s, events);
      assert !Holds(Run(s, events), f);
    }
  }

  /** No waiter of this flight has or gets an outcome. */
  ghost predicate NobodyServed(s: State, f: nat) {
    forall w :: 0 <= w < |s.waiters| && s.waiters[w].flight == f ==> !s.waiters[w].phase.Removing? && !s.waiters[w].phase.Returned?
  }

  lemma {:induction false} CrashedServesNobody(s: State, f: nat)
    requires Inv(s) && Lost(s, f)
    ensures NobodyServed(s, f)
  {
    forall w | 0 <= w < |s.waiters| && s.waiters[w].flight == f
      ensures !s.waiters[w].phase.Removing? && !s.waiters[w].phase.Returned?
    {
      assert WaiterInv(s, s.waiters[w]);
    }
  }

  /** A run that gets there: the only leader panics, and the next arrival is told nothing but an error. */
  lemma {:induction false} CrashReachable(key: Key)
    ensures var s := Run(INITIAL, [Arrive(key), Crash(0), Arrive(key), Poll(1)]);
            && s == State([Flight(key, None, Crashed)], [Waiter(0, Waiting), Waiter(0, Dropped)], map[key := 0])
            && Inv(s) && Holds(s, 0) && Lost(s, 0) && Quiet(s, 0)
  {
    hide Run, Inv;
    RunTwo(INITIAL, Arrive(key), Crash(0));
    RunAppend(INITIAL, [Arrive(key), Crash(0)], Arrive(key));
    RunAppend(INITIAL, [Arrive(key), Crash(0)] + [Arrive(key)], Poll(1));
    var events := [Arrive(key), Crash(0)] + [Arrive(key)] + [Poll(1)];
    assert events == [Arrive(key), Crash(0), Arrive(key), Poll(1)];
    assert Inv(INITIAL) by {
      InitialInv();
    }
    RunInv(INITIAL, events);
  }

  lemma {:induction false} InitialInv()
    ensures Inv(INITIAL)
  {
  }

  /** And what a stale removal costs: a continuation with two fetches of the same key running at once. */
  lemma {:induction false} StaleDoublesFetch(s: State, f: nat) returns (events: seq<Event>, g: nat)
    requires Inv(s) && Holds(s, f) && Fetches(s, f) && !Quiet(s, f)
    ensures Fetches(Run(s, events), f) && Fetches(Run(s, events), g)
    ensures |s.flights| <= g && Run(s, events).flights[g].key == s.flights[f].key
  {
    var stale := StaleUnlinks(s, f);
    RunInv(s, stale);
    g := |Run(s, stale).flights|;
    events := stale + [Arrive(s.flights[f].key)];
    RunAppend(s, stale, Arrive(s.flights[f].key));
  }

  /** Such a state is reachable: a waiter that has read a failed outcome delays its removal past the next flight's start. */
  lemma {:induction false} StaleStateReachable(key: Key)
    ensures var s := Run(INITIAL, [Arrive(key), Send(0, Failed(0)), Poll(0), LeaderRemove(0), Arrive(key)]);
            Inv(s) && Pending(s, 1) && Holds(s, 1) && !Quiet(s, 1)
  {
    hide Inv, Quiet;
    var late := [Arrive(key), Send(0, Failed(0)), Poll(0), LeaderRemove(0), Arrive(key)];
    var failed := Flight(key, Some(Failed(0)), Gone);
    var reader := Waiter(0, Removing(Failed(0)));
    var s := State([failed, Flight(key, None, Fetching)], [reader, Waiter(1, Waiting)], map[key := 1]);
    ReadThenReplaced(key);
    RunInv(INITIAL, late);
    StaleReader(s);
  }

  lemma {:induction false} StaleReader(s: State)
    requires |s.flights| == 2 && |s.waiters| == 2 && s.waiters[0].flight == 0 && s.waiters[0].phase.Removing?
    requires s.flights[0].key == s.flights[1].key && s.flights[0].leader == Gone
    ensures !Quiet(s, 1)
  {
    assert StaleWaiter(s, 1, 0);
  }

  lemma {:induction false} ReadThenReplaced(key: Key)
    ensures Run(INITIAL, [Arrive(key), Send(0, Failed(0)), Poll(0), LeaderRemove(0), Arrive(key)]) ==
              State([Flight(key, Some(Failed(0)), Gone), Flight(key, None, Fetching)],
                    [Waiter(0, Removing(Failed(0))), Waiter(1, Waiting)], map[key := 1])
  {
    hide Run;
    var failed := Flight(key, Some(Failed(0)), Sent);
    var reader := Waiter(0, Removing(Failed(0)));
    var e2 := [Arrive(key), Send(0, Failed(0))];
    RunTwo(INITIAL, Arrive(key), Send(0, Failed(0)));
    assert Run(INITIAL, e2) == State([failed], [Waiter(0, Waiting)], map[key := 0]);
    RunAppend(INITIAL, e2, Poll(0));
    assert Run(INITIAL, e2 + [Poll(0)]) == State([failed], [reader], map[key := 0]);
    RunAppend(INITIAL, e2 + [Poll(0)], LeaderRemove(0));
    assert Run(INITIAL, e2 + [Poll(0)] + [LeaderRemove(0)]) == State([failed.(leader := Gone)], [reader], map[]);
    RunAppend(INITIAL, e2 + [Poll(0)] + [LeaderRemove(0)], Arrive(key));
    assert e2 + [Poll(0)] + [LeaderRemove(0)] + [Arrive(key)] ==
           [Arrive(key), Send(0, Failed(0)), Poll(0), LeaderRemove(0), Arrive(key)];
  }
}
