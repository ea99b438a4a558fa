/**
 The two-level profile cache of src/service/cache.rs and the sequential lookup around it
 (`get_profile` in src/service/profile.rs): an LRU list in memory, one file per digest on
 disk, one TTL. The digest is an arbitrary function, so two keys may share a file; saving
 may silently fail, and so may reading. One clock serves both levels.
 */
module ProfileCache {
  import opened Common

  type Key = string
  type Path = string
  type Profile = string

  const SCHEMA_VERSION: nat := 1

  datatype CachedProfile = CachedProfile(profile: Profile, insertedAt: int, storedAt: int)

  /** What a cache file may hold: anything that does not parse counts as garbage. */
  datatype File =
    | Garbage
    | DiskEntry(schemaVersion: nat, key: Key, storedAt: int, profile: Profile)

  datatype Slot = Slot(key: Key, entry: CachedProfile)

  // ------------------------------------------------------------------------ the LRU list

  /** Most recently used first. */
  type Lru = seq<Slot>

  ghost predicate Distinct(lru: Lru) {
    forall i, j :: 0 <= i < j < |lru| ==> lru[i].key != lru[j].key
  }

  function Find(lru: Lru, key: Key): Option<CachedProfile> {
    if lru == [] then None
    else if lru[0].key == key then Some(lru[0].entry)
    else Find(lru[1..], key)
  }

  function Without(lru: Lru, key: Key): (rest: Lru)
    ensures forall s :: s in rest <==> s in lru && s.key != key
    ensures |rest| <= |lru|
  {
    if lru == [] then []
    else (if lru[0].key == key then [] else [lru[0]]) + Without(lru[1..], key)
  }

  /** A hit moves the entry to the front. */
  function Touch(lru: Lru, key: Key): Lru {
    match Find(lru, key)
    case None => lru
    case Some(entry) => [Slot(key, entry)] + Without(lru, key)
  }

  /** Inserting evicts from the back. */
  function Put(lru: Lru, key: Key, entry: CachedProfile, capacity: nat): Lru
    requires capacity >= 1
  {
    var longer := [Slot(key, entry)] + Without(lru, key);
    if |longer| <= capacity then longer else longer[..capacity]
  }

  lemma {:induction false} WithoutDistinct(lru: Lru, key: Key)
    requires Distinct(lru)
    ensures Distinct(Without(lru, key))
    ensures (exists i :: 0 <= i < |lru| && lru[i].key == key) ==> |Without(lru, key)| < |lru|
  {
    if lru != [] {
      WithoutDistinct(lru[1..], key);
      var rest := Without(lru[1..], key);
      forall j | 0 <= j < |rest| && lru[0].key != key ensures lru[0].key != rest[j].key {
        assert rest[j] in lru[1..];
      }
      if i :| 0 <= i < |lru| && lru[i].key == key {
        assert i > 0 ==> lru[1..][i - 1].key == key;
      }
    }
  }

  lemma {:induction false} FindSound(lru: Lru, key: Key)
    ensures Find(lru, key).Some? ==> Slot(key, Find(lru, key).value) in lru
    ensures Find(lru, key).None? <==> forall s :: s in lru ==> s.key != key
    ensures Find(lru, key).Some? ==> exists i :: 0 <= i < |lru| && lru[i].key == key
  {
    if lru != [] {
      FindSound(lru[1..], key);
      assert lru == [lru[0]] + lru[1..];
      if lru[0].key != key && Find(lru[1..], key).Some? {
        var i :| 0 <= i < |lru[1..]| && lru[1..][i].key == key;
        assert lru[i + 1].key == key;
      }
    }
  }

  lemma {:induction false} WithoutAbsent(lru: Lru, key: Key)
    requires Find(lru, key).None?
    ensures Without(lru, key) == lru
  {
    if lru != [] {
      WithoutAbsent(lru[1..], key);
    }
  }

  /** Taking a key out takes out one slot, its own. */
  lemma {:induction false} WithoutPermutes(lru: Lru, key: Key)
    requires Distinct(lru) && Find(lru, key).Some?
    ensures multiset(lru) == multiset([Slot(key, Find(lru, key).value)] + Without(lru, key))
  {
    hide Distinct;
    DistinctTail(lru);
    assert lru == [lru[0]] + lru[1..];
    if lru[0].key == key {
      FindSound(lru[1..], key);
      WithoutAbsent(lru[1..], key);
    } else {
      WithoutPermutes(lru[1..], key);
      SwapFront(Slot(key, Find(lru, key).value), lru[0], Without(lru[1..], key), lru[1..]);
    }
  }

  lemma {:induction false} DistinctTail(lru: Lru)
    requires Distinct(lru) && lru != []
    ensures Distinct(lru[1..]) && forall s :: s in lru[1..] ==> s.key != lru[0].key
  {
  }

  lemma {:induction false} SwapFront(a: Slot, b: Slot, rest: Lru, lru: Lru)
    requires multiset(lru) == multiset([a] + rest)
    ensures multiset([b] + lru) == multiset([a] + ([b] + rest))
  {
  }

  lemma {:induction false} FindWithout(lru: Lru, key: Key, k: Key)
    ensures Find(Without(lru, key), k) == if k == key then None else Find(lru, k)
  {
    if lru != [] {
      FindWithout(lru[1..], key, k);
      if lru[0].key == key {
        assert Without(lru, key) == Without(lru[1..], key);
      } else {
        assert Without(lru, key)[1..] == Without(lru[1..], key);
      }
    }
  }

  lemma {:induction false} FindPrefix(lru: Lru, n: nat, k: Key)
    requires n <= |lru|
    ensures Find(lru[..n], k) == None || Find(lru[..n], k) == Find(lru, k)
  {
    if n > 0 {
      assert lru[..n][1..] == lru[1..][..n - 1];
      FindPrefix(lru[1..], n - 1, k);
    }
  }

  /** A lookup only reorders the list and changes no other lookup. */
  lemma {:induction false} TouchKeeps(lru: Lru, key: Key)
    requires Distinct(lru)
    ensures Distinct(Touch(lru, key)) && multiset(Touch(lru, key)) == multiset(lru)
    ensures forall k :: Find(Touch(lru, key), k) == Find(lru, k)
  {
    hide Distinct;
    FindSound(lru, key);
    WithoutDistinct(lru, key);
    if Find(lru, key).Some? {
      WithoutPermutes(lru, key);
      FrontDistinct(lru, key, Find(lru, key).value);
      forall k ensures Find(Touch(lru, key), k) == Find(lru, k) {
        FindWithout(lru, key, k);
        assert Touch(lru, key)[1..] == Without(lru, key);
      }
    }
  }

  lemma {:induction false} FrontDistinct(lru: Lru, key: Key, entry: CachedProfile)
    requires Distinct(Without(lru, key))
    ensures Distinct([Slot(key, entry)] + Without(lru, key))
  {
    assert forall j :: 0 <= j < |Without(lru, key)| ==> Without(lru, key)[j] in Without(lru, key);
  }

  /** After an insertion the key maps to its new entry alone; other keys map to what they did, or are evicted. */
  lemma {:induction false} PutKeeps(lru: Lru, key: Key, entry: CachedProfile, capacity: nat)
    requires Distinct(lru) && capacity >= 1
    ensures Distinct(Put(lru, key, entry, capacity))
    ensures |Put(lru, key, entry, capacity)| <= capacity
    ensures Find(Put(lru, key, entry, capacity), key) == Some(entry)
    ensures forall k :: k != key ==>
              Find(Put(lru, key, entry, capacity), k) == None || Find(Put(lru, key, entry, capacity), k) == Find(lru, k)
    ensures forall s :: s in Put(lru, key, entry, capacity) ==> s == Slot(key, entry) || (s in lru && s.key != key)
  {
    WithoutDistinct(lru, key);
    FrontDistinct(lru, key, entry);
    var longer := [Slot(key, entry)] + Without(lru, key);
    assert Put(lru, key, entry, capacity)[0] == Slot(key, entry);
    forall k | k != key
      ensures Find(Put(lru, key, entry, capacity), k) == None || Find(Put(lru, key, entry, capacity), k) == Find(lru, k)
    {
      assert longer[1..] == Without(lru, key);
      FindWithout(lru, key, k);
      if |longer| > capacity {
        FindPrefix(longer, capacity, k);
      }
    }
  }

  /** A full list makes room for a new key by dropping exactly its least recently used entry. */
  lemma {:induction false} PutEvictsLast(lru: Lru, key: Key, entry: CachedProfile, capacity: nat)
    requires Find(lru, key).None? && |lru| == capacity >= 1
    ensures Put(lru, key, entry, capacity) == [Slot(key, entry)] + lru[..capacity - 1]
  {
    WithoutAbsent(lru, key);
  }

  // ------------------------------------------------------------------------ recency

  /** A key is used: found in the list, or fetched and inserted. */
  function Used(lru: Lru, key: Key, entry: CachedProfile, capacity: nat): Lru
    requires capacity >= 1
  {
    if Find(lru, key).Some? then Touch(lru, key) else Put(lru, key, entry, capacity)
  }

  function UsedAll(lru: Lru, uses: seq<Slot>, capacity: nat): Lru
    requires capacity >= 1
  {
    if uses == [] then lru
    else
      var n := |uses| - 1;
      Used(UsedAll(lru, uses[..n], capacity), uses[n].key, uses[n].entry, capacity)
  }

  function Keys(slots: seq<Slot>): set<Key> {
    set s | s in slots :: s.key
  }

  /** Exactly these keys are in front of this one. */
  ghost predicate Behind(lru: Lru, key: Key, newer: set<Key>) {
    |newer| < |lru| && lru[|newer|].key == key && Keys(lru[..|newer|]) == newer
  }

  ghost predicate Fits(lru: Lru, capacity: nat) {
    Distinct(lru) && |lru| <= capacity
  }

  lemma {:induction false} UsedFront(lru: Lru, key: Key, entry: CachedProfile, capacity: nat)
    requires Fits(lru, capacity) && capacity >= 1
    ensures var after := Used(lru, key, entry, capacity);
            && Fits(after, capacity) && after != [] && after[0].key == key
            && after == ([after[0]] + Without(lru, key))[..|after|]
            && (Find(lru, key).Some? ==> |after| == |lru| == 1 + |Without(lru, key)|)
            && (Find(lru, key).None? ==> Without(lru, key) == lru && |after| == if |lru| < capacity then |lru| + 1 else capacity)
  {
    hide Distinct, Without, Find;
    if Find(lru, key).Some? {
      TouchKeeps(lru, key);
      SameLength(Touch(lru, key), lru);
    } else {
      WithoutAbsent(lru, key);
      PutKeeps(lru, key, entry, capacity);
    }
  }

  lemma {:induction false} KeysAppend(a: seq<Slot>, b: seq<Slot>)
    ensures Keys(a + b) == Keys(a) + Keys(b)
  {
  }

  /** Distinct keys: as many as slots. */
  lemma {:induction false} KeysSize(lru: Lru)
    requires Distinct(lru)
    ensures |Keys(lru)| == |lru|
  {
    hide Distinct;
    if lru != [] {
      DistinctTail(lru);
      KeysSize(lru[1..]);
      assert lru == [lru[0]] + lru[1..];
      KeysAppend([lru[0]], lru[1..]);
      assert Keys([lru[0]]) == {lru[0].key};
      assert lru[0].key !in Keys(lru[1..]);
    }
  }

  lemma {:induction false} WithoutAppend(a: Lru, b: Lru, key: Key)
    ensures Without(a + b, key) == Without(a, key) + Without(b, key)
  {
    if a == [] {
      assert a + b == b;
    } else {
      assert (a + b)[1..] == a[1..] + b;
      WithoutAppend(a[1..], b, key);
    }
  }

  lemma {:induction false} KeysWithout(lru: Lru, key: Key)
    ensures Keys(Without(lru, key)) == Keys(lru) - {key}
  {
  }

  lemma {:induction false} BehindSplit(lru: Lru, key: Key, newer: set<Key>) returns (front: Lru, slot: Slot, back: Lru)
    requires Distinct(lru) && Behind(lru, key, newer)
    ensures lru == front + ([slot] + back) && slot.key == key && Keys(front) == newer && Distinct(front)
    ensures key !in newer
  {
    var n := |newer|;
    front, slot, back := lru[..n], lru[n], lru[n + 1..];
    assert forall s :: s in front ==> s.key != key;
  }

  /** With one more key used the others are one further behind, or, when `capacity` keys are newer, gone. */
  lemma {:induction false} UsedBehind(lru: Lru, key: Key, newer: set<Key>, other: Key, entry: CachedProfile, capacity: nat)
    requires Fits(lru, capacity) && capacity >= 1 && Behind(lru, key, newer) && other != key
    ensures var after := Used(lru, other, entry, capacity);
            if |newer + {other}| < capacity then Behind(after, key, newer + {other}) else Find(after, key).None?
  {
    hide Used, Without, Find, Keys, Distinct, Behind;
    var after := Used(lru, other, entry, capacity);
    UsedFront(lru, other, entry, capacity);
    var front, slot, back := BehindSplit(lru, key, newer);
    var front', back' := Without(front, other), Without(back, other);
    SplitWithout(front, slot, back, other);
    assert [after[0]] + Without(lru, other) == ([after[0]] + front') + ([slot] + back');
    assert newer + {other} == Keys([after[0]] + front') by {
      KeysAppend([after[0]], front');
      KeysOne(after[0]);
    }
    Place(after, [after[0]] + front', slot, [slot] + back');
  }

  lemma {:induction false} SplitWithout(front: Lru, slot: Slot, back: Lru, other: Key)
    requires Distinct(front) && slot.key != other
    ensures Without(front + ([slot] + back), other) == Without(front, other) + ([slot] + Without(back, other))
    ensures Keys(Without(front, other)) == Keys(front) - {other} && |Keys(front) + {other}| == |Without(front, other)| + 1
  {
    hide Without, Keys, Distinct;
    WithoutAppend(front, [slot] + back, other);
    WithoutAppend([slot], back, other);
    WithoutOther(slot, other);
    WithoutDistinct(front, other);
    KeysWithout(front, other);
    KeysSize(Without(front, other));
    assert Keys(front) + {other} == (Keys(front) - {other}) + {other};
  }

  /** A slot of a list that was cut to length is where it was, or cut off. */
  lemma {:induction false} Place(lru: Lru, front: Lru, slot: Slot, back: Lru)
    requires |lru| <= |front + back| && lru == (front + back)[..|lru|] && back != [] && back[0] == slot
    requires |Keys(front)| == |front| && slot.key !in Keys(front)
    ensures if |front| < |lru| then Behind(lru, slot.key, Keys(front)) else Find(lru, slot.key).None?
  {
    hide Keys, Find;
    if |front| < |lru| {
      InFront(lru, front, slot, back);
    } else {
      NotAmong(lru, front, slot.key);
    }
  }

  lemma {:induction false} WithoutOther(slot: Slot, other: Key)
    requires slot.key != other
    ensures Without([slot], other) == [slot]
  {
    assert [slot][1..] == [];
  }

  lemma {:induction false} KeysOne(slot: Slot)
    ensures Keys([slot]) == {slot.key}
  {
  }

  lemma {:induction false} InFront(lru: Lru, front: Lru, slot: Slot, back: Lru)
    requires |front| < |lru| <= |front + back| && lru == (front + back)[..|lru|] && back != [] && back[0] == slot
    requires |Keys(front)| == |front|
    ensures Behind(lru, slot.key, Keys(front))
  {
    hide Keys;
    assert lru[..|front|] == front && lru[|front|] == slot;
  }

  lemma {:induction false} NotAmong(lru: Lru, front: Lru, key: Key)
    requires |lru| <= |front| && lru == front[..|lru|] && key !in Keys(front)
    ensures Find(lru, key).None?
  {
    FindSound(lru, key);
  }

  lemma {:induction false} UsedAbsent(lru: Lru, key: Key, other: Key, entry: CachedProfile, capacity: nat)
    requires Fits(lru, capacity) && capacity >= 1 && Find(lru, key).None? && other != key
    ensures Find(Used(lru, other, entry, capacity), key).None?
  {
    hide Distinct, Find, Touch, Put;
    if Find(lru, other).Some? {
      TouchKeeps(lru, other);
    } else {
      PutKeeps(lru, other, entry, capacity);
    }
  }

  lemma {:induction false} UsedIsFirst(lru: Lru, key: Key, entry: CachedProfile, capacity: nat)
    requires Fits(lru, capacity) && capacity >= 1
    ensures Behind(Used(lru, key, entry, capacity), key, {})
  {
    hide Used, Find, Without;
    UsedFront(lru, key, entry, capacity);
    assert Keys(Used(lru, key, entry, capacity)[..0]) == {};
  }

  /**
   Least recently used, exactly: whatever the list, a key stays until `capacity` other keys have been used
   since, and exactly those are in front of it.
   */
  lemma {:induction false} RecentlyUsedStays(lru: Lru, key: Key, entry: CachedProfile, uses: seq<Slot>, capacity: nat)
    requires Fits(lru, capacity) && capacity >= 1 && key !in Keys(uses)
    ensures var after := UsedAll(Used(lru, key, entry, capacity), uses, capacity);
            && Fits(after, capacity)
            && (if |Keys(uses)| < capacity then Behind(after, key, Keys(uses)) else Find(after, key).None?)
  {
    hide Used, Find, Keys, Behind, Fits;
    if uses == [] {
      UsedFront(lru, key, entry, capacity);
      UsedIsFirst(lru, key, entry, capacity);
      NoKeys();
    } else {
      var n := |uses| - 1;
      var before := UsedAll(Used(lru, key, entry, capacity), uses[..n], capacity);
      assert uses == uses[..n] + [uses[n]];
      KeysAppend(uses[..n], [uses[n]]);
      KeysOne(uses[n]);
      RecentlyUsedStays(lru, key, entry, uses[..n], capacity);
      UsedFront(before, uses[n].key, uses[n].entry, capacity);
      SizeGrows(Keys(uses[..n]), uses[n].key);
      if |Keys(uses[..n])| < capacity {
        UsedBehind(before, key, Keys(uses[..n]), uses[n].key, uses[n].entry, capacity);
      } else {
        UsedAbsent(before, key, uses[n].key, uses[n].entry, capacity);
      }
    }
  }

  lemma {:induction false} NoKeys()
    ensures Keys([]) == {}
  {
  }

  lemma {:induction false} SizeGrows(keys: set<Key>, key: Key)
    ensures |keys + {key}| >= |keys|
  {
    assert key in keys ==> keys + {key} == keys;
  }
  // ------------------------------------------------------------------------------ the cache

  /** What the outside world does to one disk access: reading, and the three steps of a save. */
  datatype Disk = Disk(readable: bool, created: bool, written: bool, renamed: bool) {
    predicate Saves() {
      created && written && renamed
    }
  }

  const WORKING := Disk(true, true, true, true)

  /** A memory entry that was read back from disk carries its old stamp; both stamps age by at most one TTL. */
  ghost predicate Fresh(entry: CachedProfile, ttl: nat, clock: int) {
    && entry.storedAt <= entry.insertedAt <= clock
    && entry.insertedAt <= entry.storedAt + ttl
  }

  class Cache {
    const ttl: nat
    const capacity: nat
    const persistent: bool
    const digest: Key -> Path

    var entries: Lru
    var files: map<Path, File>
    /** Temporary files, by the path they are written for. */
    var temps: map<Path, File>
    var hits: nat
    var misses: nat

    /** The latest successful fetch of every key, and the latest clock reading. */
    ghost var latest: map<Key, Profile>
    ghost var clock: int

    ghost predicate Truthful(key: Key, profile: Profile)
      reads this
    {
      key in latest && latest[key] == profile
    }

    ghost predicate Bounded()
      reads this
    {
      capacity >= 1 && |entries| <= capacity && Distinct(entries)
    }

    /** Both levels are in shape and hold nothing older than their stamps allow. */
    ghost predicate Valid()
      reads this
    {
      && Bounded()
      && (!persistent ==> files == map[])
      && (forall s :: s in entries ==> Fresh(s.entry, ttl, clock))
      && (forall p :: p in files && files[p].DiskEntry? ==> files[p].storedAt <= clock)
    }

    /** Neither level can serve this key anything but its latest fetch. */
    ghost predicate Honest(key: Key)
      reads this
    {
      && (MemoryHit(entries, key, clock).Some? ==> Truthful(key, MemoryHit(entries, key, clock).value.profile))
      && (Servable(files, key, clock) ==> Truthful(key, files[digest(key)].profile))
    }

    /** A file of this key that holds another profile than the one just fetched, and may still be served. */
    predicate Superseded(files: map<Path, File>, key: Key, fetched: Profile, now: int) {
      Servable(files, key, now) && files[digest(key)].profile != fetched
    }

    constructor (ttl: nat, maxEntries: nat, persistent: bool, digest: Key -> Path, now: int)
      ensures Valid() && latest == map[] && clock == now && entries == [] && files == map[]
      ensures forall key :: Honest(key)
      ensures this.ttl == ttl && capacity == Max(maxEntries, 1) && this.persistent == persistent && this.digest == digest
    {
      this.ttl, this.capacity, this.persistent, this.digest := ttl, Max(maxEntries, 1), persistent, digest;
      entries, files, temps, hits, misses := [], map[], map[], 0, 0;
      latest, clock := map[], now;
    }

    /** The memory entry of this key, while it is within the TTL. */
    function MemoryHit(lru: Lru, key: Key, now: int): Option<CachedProfile> {
      match Find(lru, key)
      case None => None
      case Some(e) => if now - e.insertedAt > ttl then None else Some(e)
    }

    /** The file of this key holds an entry of this very key, of this version and within the TTL. */
    predicate Servable(files: map<Path, File>, key: Key, now: int) {
      && persistent && digest(key) in files
      && match files[digest(key)]
         case Garbage => false
         case DiskEntry(version, storedKey, storedAt, _) => version == SCHEMA_VERSION && storedKey == key && now - storedAt <= ttl
    }

    /** What a disk lookup yields: a servable entry re-enters memory with its old stamp. */
    function DiskHit(files: map<Path, File>, key: Key, readable: bool, now: int): Option<CachedProfile> {
      if readable && Servable(files, key, now)
      then Some(CachedProfile(files[digest(key)].profile, now, files[digest(key)].storedAt))
      else None
    }

    /** The file of this key is gone, if there is a disk and it could be reached. */
    function Removed(files: map<Path, File>, key: Key, reached: bool): map<Path, File> {
      if persistent && reached then files - {digest(key)} else files
    }

    function Saved(files: map<Path, File>, key: Key, profile: Profile, storedAt: int, disk: Disk): map<Path, File> {
      if persistent && disk.Saves() then files[digest(key) := DiskEntry(SCHEMA_VERSION, key, storedAt, profile)]
      else files
    }

    /** What honesty is worth: no single lookup of the key, in either level and at any later reading, tells anything else. */
    lemma {:induction false} HonestIff(key: Key)
      ensures Honest(key) <==>
              && (forall now: int :: clock <= now && MemoryHit(entries, key, now).Some? ==>
                    Truthful(key, MemoryHit(entries, key, now).value.profile))
              && (forall now: int :: clock <= now && DiskHit(files, key, true, now).Some? ==>
                    Truthful(key, DiskHit(files, key, true, now).value.profile))
    {
      hide Find;
      assert Servable(files, key, clock) ==> DiskHit(files, key, true, clock).Some?;
    }

    /** Memory lookup. */
    method Get(key: Key, now: int) returns (r: Option<CachedProfile>)
      requires Valid() && clock <= now
      modifies this`entries, this`hits, this`misses, this`clock
      ensures Valid() && clock == now
      ensures r == MemoryHit(old(entries), key, now)
      ensures entries == if r.None? then Without(old(entries), key) else Touch(old(entries), key)
      ensures hits + misses == old(hits + misses) + 1 && (r.Some? <==> hits == old(hits) + 1)
      ensures r.Some? ==> now <= r.value.storedAt + 2 * ttl
      ensures r.Some? && r.value.storedAt == r.value.insertedAt ==> now <= r.value.storedAt + ttl
      ensures r.Some? && old(Honest(key)) ==> Truthful(key, r.value.profile)
      ensures forall k :: old(Honest(k)) ==> Honest(k)
    {
      hide Distinct, Touch, Without, Find;
      clock := now;
      FindSound(entries, key);
      WithoutDistinct(entries, key);
      TouchKeeps(entries, key);
      TouchSame(entries, key);
      match Find(entries, key) {
        case None =>
          WithoutAbsent(entries, key);
          misses := misses + 1;
          r := None;
        case Some(e) =>
          assert Slot(key, e) in entries;
          if now - e.insertedAt > ttl {
            misses := misses + 1;
            entries := Without(entries, key);
            forall k ensures Find(entries, k) == if k == key then None else Find(old(entries), k) {
              FindWithout(old(entries), key, k);
            }
            r := None;
          } else {
            hits := hits + 1;
            entries := Touch(entries, key);
            r := Some(e);
          }
      }
    }

    /** Disk lookup: anything but a current entry of this very key is removed, unless it cannot be read at all. */
    method LoadDisk(key: Key, readable: bool, now: int) returns (r: Option<CachedProfile>)
      requires Valid() && clock <= now
      modifies this`files, this`clock
      ensures Valid() && clock == now
      ensures r == DiskHit(old(files), key, readable, now)
      ensures files == if r.Some? then old(files) else Removed(old(files), key, readable)
      ensures r.Some? ==> persistent && readable && digest(key) in old(files) && r.value.insertedAt == now &&
                          old(files)[digest(key)] == DiskEntry(1, key, r.value.storedAt, r.value.profile)
      ensures r.Some? ==> Fresh(r.value, ttl, now)
      ensures r.Some? && old(Honest(key)) ==> Truthful(key, r.value.profile)
      ensures forall k :: old(Honest(k)) ==> Honest(k)
    {
      hide Distinct, Find;
      clock := now;
      if !persistent {
        return None;
      }
      var path := digest(key);
      if path !in files || !readable {
        assert path !in files ==> files - {path} == files;
        return None;
      }
      match files[path] {
        case Garbage =>
          files := files - {path};
          r := None;
        case DiskEntry(version, storedKey, storedAt, profile) =>
          if version != SCHEMA_VERSION || storedKey != key || now - storedAt > ttl {
            files := files - {path};
            r := None;
          } else {
            r := Some(CachedProfile(profile, now, storedAt));
          }
      }
    }

    method InsertMemory(key: Key, entry: CachedProfile)
      requires Valid() && Fresh(entry, ttl, clock)
      modifies this`entries
      ensures Valid() && entries == Put(old(entries), key, entry, capacity)
      ensures forall k :: k != key && old(Honest(k)) ==> Honest(k)
      ensures Truthful(key, entry.profile) && old(Honest(key)) ==> Honest(key)
    {
      hide Distinct, Put, Find;
      PutKeeps(entries, key, entry, capacity);
      entries := Put(entries, key, entry, capacity);
    }

    /**
     Create the directory, write a temporary file, rename it over the old one. Any step may fail; a failed
     write may leave garbage in the temporary file. The file proper is the old one or the new one, whole.
     */
    method SaveDisk(key: Key, entry: CachedProfile, disk: Disk)
      modifies this`files, this`temps
      ensures persistent && disk.created && disk.written && disk.renamed ==>
                files == old(files)[digest(key) := DiskEntry(SCHEMA_VERSION, key, entry.storedAt, entry.profile)]
      ensures !(persistent && disk.created && disk.written && disk.renamed) ==> files == old(files)
      ensures forall p :: p in temps && p != digest(key) ==> p in old(temps) && temps[p] == old(temps)[p]
      ensures digest(key) in temps ==> !disk.created || !disk.written || !persistent
      ensures forall p :: p in files && files[p].Garbage? ==> p in old(files) && old(files)[p].Garbage?
    {
      if !persistent || !disk.created {
        return;
      }
      var path := digest(key);
      if !disk.written {
        temps := temps[path := Garbage];
        return;
      }
      temps := temps[path := DiskEntry(SCHEMA_VERSION, key, entry.storedAt, entry.profile)];
      if disk.renamed {
        files := files[path := temps[path]];
      }
      temps := temps - {path};
    }

    method Invalidate(key: Key)
      requires Valid()
      modifies this`entries, this`files
      ensures Valid() && Honest(key)
      ensures entries == Without(old(entries), key)
      ensures files == Removed(old(files), key, true)
      ensures forall k :: old(Honest(k)) ==> Honest(k)
    {
      hide Distinct, Find, Without;
      WithoutDistinct(entries, key);
      forall k ensures Find(Without(entries, key), k) == if k == key then None else Find(entries, k) {
        FindWithout(entries, key, k);
      }
      entries := Without(entries, key);
      if persistent {
        files := files - {digest(key)};
      }
    }

    method ClearMemory()
      requires Valid()
      modifies this`entries
      ensures Valid() && entries == [] && forall k :: old(Honest(k)) ==> Honest(k)
    {
      entries := [];
    }

    /**
     One lookup, nothing else running: memory, disk, then upstream, which answers `fetched`. The four
     readings are those of the memory lookup, the disk lookup, the insertion and the save. A fetch leaves
     the key honest unless a superseded file of it, still within its TTL, could be neither read nor replaced.
     */
    method GetProfile(key: Key, refresh: bool, fetched: Option<Profile>, disk: Disk, t0: int, t1: int, t2: int, t3: int)
      returns (served: Option<Profile>, cached: bool, stamp: int)
      requires Valid() && clock <= t0 <= t1 <= t2 <= t3
      modifies this
      ensures Valid()
      ensures cached ==> clock <= stamp + 2 * ttl
      ensures cached && old(Honest(key)) ==> key in latest && served == Some(latest[key])
      ensures latest == if !cached && fetched.Some? then old(latest)[key := fetched.value] else old(latest)
      ensures var memory, loaded := MemoryHit(old(entries), key, t0), DiskHit(old(files), key, disk.readable, t1);
              if !refresh && memory.Some? then
                && (cached, served, stamp, clock) == (true, Some(memory.value.profile), memory.value.storedAt, t0)
                && entries == Touch(old(entries), key) && files == old(files)
              else if !refresh && loaded.Some? then
                && (cached, served, stamp, clock) == (true, Some(loaded.value.profile), loaded.value.storedAt, t1)
                && entries == Put(Without(old(entries), key), key, loaded.value, capacity) && files == old(files)
              else
                var missed := Removed(old(files), key, refresh || disk.readable);
                && !cached && served == fetched && clock <= t3
                && entries == (if fetched.None? then Without(old(entries), key)
                               else Put(Without(old(entries), key), key, CachedProfile(fetched.value, t2, t2), capacity))
                && files == (if fetched.None? then missed else Saved(missed, key, fetched.value, t3, disk))
      ensures forall k :: k != key && old(Honest(k)) ==> Honest(k)
      ensures (cached || fetched.None?) && old(Honest(key)) ==> Honest(key)
      ensures !cached && fetched.Some? ==>
                (Honest(key) <==> refresh || disk.readable || disk.Saves() || !Superseded(old(files), key, fetched.value, t3))
    {
      hide Distinct, Put, Touch, Without, Find, Honest, Fresh;
      cached, stamp := false, t0;
      if refresh {
        Tick(t0);
        Invalidate(key);
      } else {
        var hit := Get(key, t0);
        if hit.Some? {
          return Some(hit.value.profile), true, hit.value.storedAt;
        }
        var loaded := LoadDisk(key, disk.readable, t1);
        if loaded.Some? {
          InsertMemory(key, loaded.value);
          return Some(loaded.value.profile), true, loaded.value.storedAt;
        }
      }
      served := fetched;
      if fetched.Some? {
        Remember(key, fetched.value, t2, t3, disk);
      }
    }

    /** Time passes. */
    ghost method Tick(now: int)
      requires Valid() && clock <= now
      modifies this`clock
      ensures Valid() && clock == now && forall k :: old(Honest(k)) ==> Honest(k)
    {
      hide Distinct, Find;
      clock := now;
    }

    /** The leader's part after a successful fetch: insert, then save. */
    method Remember(key: Key, profile: Profile, t2: int, t3: int, disk: Disk)
      requires Valid() && clock <= t2 <= t3
      modifies this
      ensures Valid() && latest == old(latest)[key := profile] && clock == t3
      ensures entries == Put(old(entries), key, CachedProfile(profile, t2, t2), capacity)
      ensures files == Saved(old(files), key, profile, t3, disk)
      ensures forall k :: k != key && old(Honest(k)) ==> Honest(k)
      ensures Honest(key) <==> disk.Saves() || !Superseded(old(files), key, profile, t3)
    {
      hide Distinct, Put, Find;
      PutKeeps(entries, key, CachedProfile(profile, t2, t2), capacity);
      Tick(t2);
      InsertMemory(key, CachedProfile(profile, t2, t2));
      Tick(t3);
      latest := latest[key := profile];
      SaveDisk(key, CachedProfile(profile, t3, t3), disk);
    }
  }

  lemma {:induction false} TouchSame(lru: Lru, key: Key)
    requires Distinct(lru)
    ensures |Touch(lru, key)| == |lru|
    ensures forall s :: s in Touch(lru, key) ==> s in lru
  {
    hide Touch;
    TouchKeeps(lru, key);
    SameLength(Touch(lru, key), lru);
    forall s | s in Touch(lru, key) ensures s in lru {
      assert s in multiset(Touch(lru, key));
    }
  }

  // ------------------------------------------------------------------------------ witnesses

  /** The bound of two TTLs is met: fetched and saved at 0, reloaded at ttl, still served at 2 ttl. */
  method BoundIsTight(ttl: nat, key: Key, digest: Key -> Path) returns (age: int)
    ensures age == 2 * ttl
  {
    var c := new Cache(ttl, 1, true, digest, 0);
    var served, cached, stamp := c.GetProfile(key, true, Some("p"), WORKING, 0, 0, 0, 0);
    c.ClearMemory();
    served, cached, stamp := c.GetProfile(key, false, None, WORKING, ttl, ttl, ttl, ttl);
    assert cached;
    served, cached, stamp := c.GetProfile(key, false, None, WORKING, 2 * ttl, 2 * ttl, 2 * ttl, 2 * ttl);
    assert cached;
    age := 2 * ttl - stamp;
  }

  /**
   And the excluded case does lie: an old file that can be neither read nor replaced while a newer
   profile is fetched is served, once readable again, in place of that newer profile.
   */
  method StaleFileIsServed(ttl: nat, key: Key, digest: Key -> Path) returns (newest: Option<Profile>, reloaded: Option<CachedProfile>)
    ensures newest == Some("new") && reloaded.Some? && reloaded.value.profile == "old"
  {
    var c := new Cache(ttl, 1, true, digest, 0);
    var _, _, _ := c.GetProfile(key, true, Some("old"), WORKING, 0, 0, 0, 0);
    c.ClearMemory();
    var cached, stamp;
    newest, cached, stamp := c.GetProfile(key, false, Some("new"), Disk(false, true, false, false), 0, 0, 0, 0);
    c.ClearMemory();
    reloaded := c.LoadDisk(key, true, 0);
  }
}
