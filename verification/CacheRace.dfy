/**
 One key of the two-level cache when lookups, refreshes and fetches overlap (`get_profile` and the
 leader of `fetch_once` in src/service/profile.rs). A disk lookup reads the file and inserts what it
 read in two steps, a fetch inserts, stamps and saves in three, a refresh drops memory and file in
 two; anything may happen in between, and time passes. Profiles are numbered in the order in which
 their fetches insert them.
 */
module CacheRace {
  import opened Common

  /** A profile in memory, in the file, or read from it; it is not served after `expires`. */
  datatype Entry = Entry(version: nat, expires: int)

  /** A fetch has inserted its profile and has not stamped it yet, has stamped it but not written it, or is done. */
  datatype Saving = Unstamped(version: nat) | Stamped(entry: Entry) | Done

  /** `loads` holds what a disk lookup has read but not inserted. */
  datatype State = State(
    ttl: nat,
    clock: int,
    latest: nat,
    memory: Option<Entry>,
    disk: Option<Entry>,
    loads: seq<Option<Entry>>,
    saves: seq<Saving>)

  datatype Event =
    | Tick(passed: nat)
    | Fetch
    | Stamp(save: nat)
    | Save(save: nat)
    | FailSave(save: nat)
    | Load
    | Insert(load: nat)
    | DropMemory
    | DropDisk

  function Initial(ttl: nat): State {
    State(ttl, 0, 0, None, None, [], [])
  }

  /** An entry of this version stamped now. */
  function Now(s: State, version: nat): Entry {
    Entry(version, s.clock + s.ttl)
  }

  /** One step; an event that is not enabled does nothing. A load takes the current file only, and starts its own TTL in memory. */
  function Step(s: State, e: Event): State {
    match e
    case Tick(passed) => s.(clock := s.clock + passed)
    case Fetch =>
      s.(latest := s.latest + 1, memory := Some(Now(s, s.latest + 1)), saves := s.saves + [Unstamped(s.latest + 1)])
    case Stamp(i) =>
      if i < |s.saves| && s.saves[i].Unstamped? then s.(saves := s.saves[i := Stamped(Now(s, s.saves[i].version))]) else s
    case Save(i) =>
      if i < |s.saves| && s.saves[i].Stamped? then s.(disk := Some(s.saves[i].entry), saves := s.saves[i := Done]) else s
    case FailSave(i) =>
      if i < |s.saves| then s.(saves := s.saves[i := Done]) else s
    case Load =>
      if s.disk.Some? && s.clock <= s.disk.value.expires then s.(loads := s.loads + [Some(Now(s, s.disk.value.version))]) else s
    case Insert(i) =>
      if i < |s.loads| && s.loads[i].Some? then s.(memory := s.loads[i], loads := s.loads[i := None]) else s
    case DropMemory => s.(memory := None)
    case DropDisk => s.(disk := None)
  }

  function Run(s: State, events: seq<Event>): State {
    if events == [] then s else Step(Run(s, events[..|events| - 1]), events[|events| - 1])
  }

  /** This slot can still yield an older profile than the latest. */
  predicate Threat(s: State, slot: Option<Entry>) {
    slot.Some? && slot.value.version != s.latest && s.clock <= slot.value.expires
  }

  predicate SaveThreat(s: State, save: Saving) {
    match save
    case Unstamped(version) => version != s.latest
    case Stamped(entry) => Threat(s, Some(entry))
    case Done => false
  }

  /** Nothing older that has not expired is in memory, on disk, or on its way to either. */
  ghost predicate Safe(s: State) {
    && !Threat(s, s.memory) && !Threat(s, s.disk)
    && (forall i :: 0 <= i < |s.loads| ==> !Threat(s, s.loads[i]))
    && (forall i :: 0 <= i < |s.saves| ==> !SaveThreat(s, s.saves[i]))
  }

  ghost predicate NoFetch(events: seq<Event>) {
    Fetch !in events
  }

  lemma {:induction false} SafeStep(s: State, e: Event)
    requires Safe(s) && e != Fetch
    ensures Safe(Step(s, e))
  {
    var s' := Step(s, e);
    forall i | 0 <= i < |s'.saves| ensures !SaveThreat(s', s'.saves[i]) {
      assert !SaveThreat(s, s.saves[i]);
    }
  }

  lemma {:induction false} SafeRun(s: State, events: seq<Event>)
    requires Safe(s) && NoFetch(events)
    ensures Safe(Run(s, events))
  {
    hide Safe, Step;
    if events != [] {
      var n := |events| - 1;
      assert events[n] in events && forall e :: e in events[..n] ==> e in events;
      SafeRun(s, events[..n]);
      SafeStep(Run(s, events[..n]), events[n]);
    }
  }

  lemma {:induction false} RunSnoc(s: State, events: seq<Event>, e: Event)
    ensures Run(s, events + [e]) == Step(Run(s, events), e)
  {
    assert (events + [e])[..|events|] == events;
  }

  lemma {:induction false} RunOne(s: State, e: Event)
    ensures Run(s, [e]) == Step(s, e)
  {
    assert [e][..0] == [];
  }

  /** An older file that has not expired can be loaded and inserted. */
  lemma {:induction false} OldDiskSurfaces(s: State) returns (events: seq<Event>)
    requires Threat(s, s.disk)
    ensures NoFetch(events) && Threat(Run(s, events), Run(s, events).memory)
  {
    events := [Load] + [Insert(|s.loads|)];
    RunOne(s, Load);
    RunSnoc(s, [Load], Insert(|s.loads|));
  }

  /** So can an older profile that is still to be written. */
  lemma {:induction false} OldSaveSurfaces(s: State, i: nat) returns (events: seq<Event>)
    requires i < |s.saves| && s.saves[i].Stamped? && Threat(s, Some(s.saves[i].entry))
    ensures NoFetch(events) && Threat(Run(s, events), Run(s, events).memory)
  {
    hide Run;
    var later := OldDiskSurfaces(Step(s, Save(i)));
    events := [Save(i)] + later;
    RunFirst(s, Save(i), later);
  }

  /** Otherwise some continuation without a fetch lets memory serve an older profile. */
  lemma {:induction false} UnsafeSurfaces(s: State) returns (events: seq<Event>)
    requires !Safe(s)
    ensures NoFetch(events) && Threat(Run(s, events), Run(s, events).memory)
  {
    hide Run;
    if Threat(s, s.memory) {
      events := [];
      RunNothing(s);
    } else if Threat(s, s.disk) {
      events := OldDiskSurfaces(s);
    } else if i :| 0 <= i < |s.loads| && Threat(s, s.loads[i]) {
      events := [Insert(i)];
      RunOne(s, Insert(i));
    } else {
      var i :| 0 <= i < |s.saves| && SaveThreat(s, s.saves[i]);
      if s.saves[i].Stamped? {
        events := OldSaveSurfaces(s, i);
      } else {
        var later := OldSaveSurfaces(Step(s, Stamp(i)), i);
        events := [Stamp(i)] + later;
        RunFirst(s, Stamp(i), later);
      }
    }
  }

  lemma {:induction false} RunNothing(s: State)
    ensures Run(s, []) == s
  {
  }

  lemma {:induction false} RunFirst(s: State, e: Event, events: seq<Event>)
    ensures Run(s, [e] + events) == Run(Step(s, e), events)
  {
    if events == [] {
      assert [e] + events == [e];
      RunOne(s, e);
    } else {
      var n := |events| - 1;
      assert ([e] + events)[..n + 1] == [e] + events[..n];
      RunFirst(s, e, events[..n]);
    }
  }

  /**
   Exactly: memory serves nothing but the latest profile until the next fetch if and only if nothing older
   that has not expired is under way.
   */
  lemma {:induction false} SafeIff(s: State)
    ensures (forall events :: NoFetch(events) ==> !Threat(Run(s, events), Run(s, events).memory)) <==> Safe(s)
  {
    if Safe(s) {
      forall events | NoFetch(events) ensures !Threat(Run(s, events), Run(s, events).memory) {
        SafeRun(s, events);
      }
    } else {
      var events := UnsafeSurfaces(s);
    }
  }

  // ------------------------------------------------------------------------------ what a fetch needs

  /** Nothing is numbered beyond the latest. */
  ghost predicate Known(s: State) {
    && (s.memory.Some? ==> s.memory.value.version <= s.latest) && (s.disk.Some? ==> s.disk.value.version <= s.latest)
    && (forall i :: 0 <= i < |s.loads| && s.loads[i].Some? ==> s.loads[i].value.version <= s.latest)
    && (forall i :: 0 <= i < |s.saves| ==> SaveKnown(s, s.saves[i]))
  }

  predicate SaveKnown(s: State, save: Saving) {
    match save
    case Unstamped(version) => version <= s.latest
    case Stamped(entry) => entry.version <= s.latest
    case Done => true
  }

  /** The file is gone or expired, and whatever a lookup has read or a fetch has stamped has expired too; no fetch has yet to stamp. */
  ghost predicate Settled(s: State) {
    && Spent(s, s.disk)
    && (forall i :: 0 <= i < |s.loads| ==> Spent(s, s.loads[i]))
    && (forall i :: 0 <= i < |s.saves| ==> SaveSpent(s, s.saves[i]))
  }

  predicate Spent(s: State, slot: Option<Entry>) {
    slot.Some? ==> slot.value.expires < s.clock
  }

  predicate SaveSpent(s: State, save: Saving) {
    match save
    case Unstamped(_) => false
    case Stamped(entry) => entry.expires < s.clock
    case Done => true
  }

  lemma {:induction false} KnownRun(ttl: nat, events: seq<Event>)
    ensures Known(Run(Initial(ttl), events))
  {
    hide Known, Step;
    if events == [] {
      InitiallyFine(ttl);
    } else {
      KnownRun(ttl, events[..|events| - 1]);
      KnownStep(Run(Initial(ttl), events[..|events| - 1]), events[|events| - 1]);
    }
  }

  lemma {:induction false} KnownStep(s: State, e: Event)
    requires Known(s)
    ensures Known(Step(s, e))
  {
    var s' := Step(s, e);
    forall i | 0 <= i < |s'.saves| ensures SaveKnown(s', s'.saves[i]) {
      assert i < |s.saves| ==> SaveKnown(s, s.saves[i]);
    }
  }

  /** In every reachable state: a fetch that inserts now is safe from older profiles if and only if everything else has settled. */
  lemma {:induction false} FetchSafeIff(ttl: nat, events: seq<Event>)
    ensures Safe(Step(Run(Initial(ttl), events), Fetch)) <==> Settled(Run(Initial(ttl), events))
  {
    hide Run;
    var s := Run(Initial(ttl), events);
    KnownRun(ttl, events);
    var s' := Step(s, Fetch);
    forall i | 0 <= i < |s.saves| ensures SaveThreat(s', s'.saves[i]) == !SaveSpent(s, s.saves[i]) {
      assert SaveKnown(s, s.saves[i]) && s'.saves[i] == s.saves[i];
    }
    if Safe(s') {
      forall i | 0 <= i < |s.saves| ensures SaveSpent(s, s.saves[i]) {
        assert !SaveThreat(s', s'.saves[i]);
      }
    }
  }

  /** Every fetch of the run inserts in a settled state. */
  ghost predicate FetchesSettled(ttl: nat, events: seq<Event>) {
    forall k :: 0 <= k < |events| && events[k] == Fetch ==> Settled(Run(Initial(ttl), events[..k]))
  }

  /** Then memory never regresses at all. */
  lemma {:induction false} NeverRegresses(ttl: nat, events: seq<Event>)
    requires FetchesSettled(ttl, events)
    ensures Safe(Run(Initial(ttl), events))
  {
    hide Safe, Settled, Step;
    if events == [] {
      InitiallyFine(ttl);
    } else {
      var n := |events| - 1;
      assert forall k :: 0 <= k < n ==> events[..n][..k] == events[..k];
      NeverRegresses(ttl, events[..n]);
      if events[n] == Fetch {
        FetchSafeIff(ttl, events[..n]);
      } else {
        SafeStep(Run(Initial(ttl), events[..n]), events[n]);
      }
    }
  }

  lemma {:induction false} InitiallyFine(ttl: nat)
    ensures Safe(Run(Initial(ttl), [])) && Known(Run(Initial(ttl), []))
  {
  }

  /**
   The run that needs it: a lookup reads the file, a refresh empties both levels and fetches anew, and
   the lookup then inserts what it read. Memory is back at the first profile, the file at the second.
   */
  lemma {:induction false} LateLoadRegresses(ttl: nat)
    ensures Run(Initial(ttl), [Fetch, Stamp(0), Save(0), DropMemory, Load, DropMemory, DropDisk, Fetch, Stamp(1), Save(1), Insert(0)]) ==
              State(ttl, 0, 2, Some(Entry(1, ttl)), Some(Entry(2, ttl)), [None], [Done, Done])
  {
    hide Run;
    var s := Initial(ttl);
    var one, two := Entry(1, ttl), Entry(2, ttl);
    var saved := [Fetch] + [Stamp(0)] + [Save(0)];
    RunOne(s, Fetch);
    RunSnoc(s, [Fetch], Stamp(0));
    RunSnoc(s, [Fetch] + [Stamp(0)], Save(0));
    assert Run(s, saved) == State(ttl, 0, 1, Some(one), Some(one), [], [Done]);
    var read := saved + [DropMemory] + [Load];
    RunSnoc(s, saved, DropMemory);
    RunSnoc(s, saved + [DropMemory], Load);
    assert Run(s, read) == State(ttl, 0, 1, None, Some(one), [Some(one)], [Done]);
    var refreshed := read + [DropMemory] + [DropDisk] + [Fetch];
    RunSnoc(s, read, DropMemory);
    RunSnoc(s, read + [DropMemory], DropDisk);
    RunSnoc(s, read + [DropMemory] + [DropDisk], Fetch);
    assert Run(s, refreshed) == State(ttl, 0, 2, Some(two), None, [Some(one)], [Done, Unstamped(2)]);
    RunSnoc(s, refreshed, Stamp(1));
    RunSnoc(s, refreshed + [Stamp(1)], Save(1));
    RunSnoc(s, refreshed + [Stamp(1)] + [Save(1)], Insert(0));
    assert refreshed + [Stamp(1)] + [Save(1)] + [Insert(0)] ==
           [Fetch, Stamp(0), Save(0), DropMemory, Load, DropMemory, DropDisk, Fetch, Stamp(1), Save(1), Insert(0)];
  }

  /** What a lookup reads back from the file lives for a TTL of its own: a profile is served two TTLs after its fetch. */
  lemma {:induction false} ReloadedLivesOn(ttl: nat)
    ensures var s := Run(Initial(ttl), [Fetch, Stamp(0), Save(0), Tick(ttl), DropMemory, Load, Insert(0), Tick(ttl)]);
            && s == State(ttl, 2 * ttl, 1, Some(Entry(1, 2 * ttl)), Some(Entry(1, ttl)), [None], [Done])
            && s.clock <= s.memory.value.expires
  {
    hide Run;
    var s := Initial(ttl);
    RunOne(s, Fetch);
    RunSnoc(s, [Fetch], Stamp(0));
    RunSnoc(s, [Fetch] + [Stamp(0)], Save(0));
    var saved := [Fetch] + [Stamp(0)] + [Save(0)];
    assert Run(s, saved) == State(ttl, 0, 1, Some(Entry(1, ttl)), Some(Entry(1, ttl)), [], [Done]);
    RunSnoc(s, saved, Tick(ttl));
    RunSnoc(s, saved + [Tick(ttl)], DropMemory);
    var later := saved + [Tick(ttl)] + [DropMemory];
    RunSnoc(s, later, Load);
    RunSnoc(s, later + [Load], Insert(0));
    RunSnoc(s, later + [Load] + [Insert(0)], Tick(ttl));
    assert later + [Load] + [Insert(0)] + [Tick(ttl)] ==
           [Fetch, Stamp(0), Save(0), Tick(ttl), DropMemory, Load, Insert(0), Tick(ttl)];
  }

  /** A failed save leaves the old file: read back after a newer fetch, it is served in place of that one. */
  lemma {:induction false} FailedSaveRegresses(ttl: nat)
    ensures Run(Initial(ttl), [Fetch, Stamp(0), Save(0), Fetch, FailSave(1), DropMemory, Load, Insert(0)]) ==
              State(ttl, 0, 2, Some(Entry(1, ttl)), Some(Entry(1, ttl)), [None], [Done, Done])
  {
    hide Run;
    var s, one := Initial(ttl), Entry(1, ttl);
    RunOne(s, Fetch);
    RunSnoc(s, [Fetch], Stamp(0));
    RunSnoc(s, [Fetch] + [Stamp(0)], Save(0));
    var saved := [Fetch] + [Stamp(0)] + [Save(0)];
    RunSnoc(s, saved, Fetch);
    RunSnoc(s, saved + [Fetch], FailSave(1));
    var failed := saved + [Fetch] + [FailSave(1)];
    assert Run(s, failed) == State(ttl, 0, 2, Some(Entry(2, ttl)), Some(one), [], [Done, Done]);
    RunSnoc(s, failed, DropMemory);
    RunSnoc(s, failed + [DropMemory], Load);
    RunSnoc(s, failed + [DropMemory] + [Load], Insert(0));
    assert failed + [DropMemory] + [Load] + [Insert(0)] ==
           [Fetch, Stamp(0), Save(0), Fetch, FailSave(1), DropMemory, Load, Insert(0)];
  }
}
