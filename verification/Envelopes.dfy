/**
 The two Dash envelopes mean the same profile: a record flattened into typed entities yields the
 experience list, the section entities and, if it is picked, the member record of the embedded one.
 */
module Envelopes {
  import opened Common
  import opened Json
  import opened EntityIndex
  import opened Dash

  /** An entity without its type name and its own URN, which the embedded envelope need not carry. */
  function Bare(e: Entity): Entity {
    e - {TYPE_KEY, URN_KEY}
  }

  function Bares(es: seq<Entity>): seq<Entity> {
    if es == [] then [] else Bares(es[..|es| - 1]) + [Bare(es[|es| - 1])]
  }

  /** The entities of a section listed in an envelope: those of its types, the last one of a URN that repeats. */
  function Listed(included: seq<Value>, s: Section): seq<Entity> {
    TypedItems(Resolved(included), SuffixesOf(s))
  }

  /** The member records listed in an envelope. */
  function ListedMembers(included: seq<Value>): seq<Entity> {
    Members(TypedItems(Resolved(included), PROFILE_SUFFIXES))
  }

  // ------------------------------------------------------------------------------ positions

  lemma {:induction false} KeepNewNothing(seen: set<Option<string>>, roles: seq<Entity>)
    requires UrnSet(roles) <= seen
    ensures KeepNew(seen, roles) == []
  {
    if roles != [] {
      var n := |roles| - 1;
      assert roles == roles[..n] + [roles[n]];
      assert roles[n] in roles && forall p :: p in roles[..n] ==> p in roles;
      assert UrnSet(roles[..n]) <= UrnSet(roles) && PositionUrn(roles[n]) in UrnSet(roles);
      KeepNewNothing(seen, roles[..n]);
    }
  }

  lemma {:induction false} InheritAllUrns(clean: Clean, group: Entity, ps: seq<Entity>, urns: set<Option<string>>)
    requires forall p :: p in ps ==> PositionUrn(p) in urns
    ensures UrnSet(InheritAll(clean, group, ps)) <= urns
  {
    hide Inherit;
    if ps != [] {
      var n := |ps| - 1;
      assert ps[n] in ps;
      InheritAllUrns(clean, group, ps[..n], urns);
      InheritKeepsUrn(clean, group, ps[n]);
    }
  }

  lemma {:induction false} RolesUrns(clean: Clean, x: Extracted, groups: seq<Entity>, urns: set<Option<string>>)
    requires forall g :: g in groups ==> forall p :: p in GroupPositions(x, g) ==> PositionUrn(p) in urns
    ensures UrnSet(Roles(clean, x, groups)) <= urns
  {
    hide GroupPositions, InheritAll;
    if groups != [] {
      var n := |groups| - 1;
      assert groups[n] in groups;
      RolesUrns(clean, x, groups[..n], urns);
      InheritAllUrns(clean, groups[n], GroupPositions(x, groups[n]), urns);
    }
  }

  // ------------------------------------------------------------------------------ equivalence

  /** The mapper reads everything but the type name and the entity's own URN. */
  ghost predicate IgnoresName(view: View) {
    forall e :: view(Bare(e)) == view(e)
  }

  lemma {:induction false} BaresAt(es: seq<Entity>)
    ensures |Bares(es)| == |es| && forall i :: 0 <= i < |es| ==> Bares(es)[i] == Bare(es[i])
  {
    if es != [] {
      BaresAt(es[..|es| - 1]);
    }
  }

  lemma {:induction false} MapViewBare(view: View, a: seq<Entity>, b: seq<Entity>)
    requires IgnoresName(view) && |a| == |b| && forall i :: 0 <= i < |a| ==> b[i] == Bare(a[i])
    ensures MapView(view, a) == MapView(view, b)
  {
    if a != [] {
      assert view(Bare(a[0])) == view(a[0]);
      MapViewBare(view, a[1..], b[1..]);
    }
  }

  lemma {:induction false} MapViewSplit(view: View, a: seq<Entity>, b: seq<Entity>)
    ensures MapView(view, a + b) == MapView(view, a) + MapView(view, b)
  {
    if a == [] {
      assert a + b == b;
    } else {
      assert (a + b)[1..] == a[1..] + b;
      MapViewSplit(view, a[1..], b);
    }
  }

  /** Taking one position out takes exactly its entry out. */
  lemma {:induction false} MapViewWithout(view: View, b: seq<Entity>, j: nat)
    requires j < |b|
    ensures multiset(MapView(view, b)) == multiset(MapView(view, [b[j]])) + multiset(MapView(view, b[..j] + b[j + 1..]))
  {
    var left, right := b[..j], b[j + 1..];
    assert b == left + ([b[j]] + right);
    MapViewSplit(view, left, right);
    MapViewSplit(view, left, [b[j]] + right);
    MapViewSplit(view, [b[j]], right);
  }

  lemma {:induction false} WithoutOne(b: seq<Entity>, j: nat)
    requires j < |b|
    ensures multiset(b[..j] + b[j + 1..]) == multiset(b) - multiset{b[j]}
  {
    assert b == b[..j] + [b[j]] + b[j + 1..];
  }

  lemma {:induction false} IndexIn(b: seq<Entity>, e: Entity) returns (j: nat)
    requires e in multiset(b)
    ensures j < |b| && b[j] == e
  {
    j :| j < |b| && b[j] == e;
  }

  /** Mapping a permutation gives a permutation of the results. */
  lemma {:induction false} MapViewPermuted(view: View, a: seq<Entity>, b: seq<Entity>)
    requires multiset(a) == multiset(b)
    ensures multiset(MapView(view, a)) == multiset(MapView(view, b))
    decreases |a|
  {
    hide MapView;
    SameLength(a, b);
    if a != [] {
      var j := IndexIn(b, a[0]);
      WithoutOne(a, 0);
      WithoutOne(b, j);
      MapViewWithout(view, a, 0);
      MapViewWithout(view, b, j);
      MapViewPermuted(view, a[..0] + a[1..], b[..j] + b[j + 1..]);
    }
  }

  /**
   A flat envelope that lists the record x: positions already flattened, in any order, every other
   section in its own order, whatever the type names and URNs and whatever else is listed; position
   groups may stay as long as they resolve to positions that are listed; and there is a member record.
   */
  ghost predicate Mirrors(included: seq<Value>, data: Option<Entity>, x: Extracted, clean: Clean) {
    && ListedMembers(included) != []
    && multiset(Bares(Listed(included, Positions))) == multiset(Bares(Flattened(clean, x)))
    && (forall s :: s != Positions && s != PositionGroups ==> Bares(Listed(included, s)) == Bares(EntitiesOf(x, s)))
    && GroupsListed(included, data)
  }

  ghost predicate GroupsListed(included: seq<Value>, data: Option<Entity>) {
    forall g, p :: g in Listed(included, PositionGroups) &&
                   p in ElementsNamed(IndexOf(included, data), g, "profilePositionInPositionGroup") ==>
      PositionUrn(p) in UrnSet(Listed(included, Positions))
  }

  /** What the flat envelope yields for a section is what it lists for it. */
  lemma {:induction false} FlatSections(flat: Extracted, included: seq<Value>, s: Section)
    requires flat.env.Normalized? && IsIndexOf(flat.env.index, included)
    ensures EntitiesOf(flat, s) == Listed(included, s)
  {
    hide Resolved, IsIndexOf;
    OfTypeIsScan(flat.env.index, included, SuffixesOf(s));
  }

  /** The roles of a group in a flat envelope: the entities its collection denotes, however that is written down. */
  lemma {:induction false} FlatGroup(flat: Extracted, included: seq<Value>, group: Entity, v: Value, whole: Value,
                                     items: seq<Value>, es: seq<Entity>)
    requires flat.env.Normalized? && IsIndexOf(flat.env.index, included)
    requires var name := "profilePositionInPositionGroup";
             Field(group, name) == Some(v) || (Field(group, name).None? && Field(group, "*" + name) == Some(v))
    requires StandsFor(included, v, whole) && HoldsList(included, whole, items) && DenoteAll(included, items, es)
    ensures GroupPositions(flat, group) == es
  {
    hide IsIndexOf, StandsFor, HoldsList, DenoteAll, ElementsNamed;
    EncodingsRead(flat.env.index, included, group, "profilePositionInPositionGroup", v, whole, items, es);
  }

  lemma {:induction false} FlatPositions(flat: Extracted, included: seq<Value>, data: Option<Entity>, clean: Clean)
    requires GroupsListed(included, data) && flat.env == Normalized(IndexOf(included, data))
    ensures Flattened(clean, flat) == Listed(included, Positions)
  {
    hide Listed, IndexOf, ElementsNamed;
    FlatSections(flat, included, Positions);
    FlatSections(flat, included, PositionGroups);
    var standalone, groups := Listed(included, Positions), Listed(included, PositionGroups);
    RolesUrns(clean, flat, groups, UrnSet(standalone));
    KeepNewNothing(UrnSet(standalone), Roles(clean, flat, groups));
  }

  lemma {:induction false} SameExperience(view: View, a: seq<Entity>, b: seq<Entity>)
    requires IgnoresName(view) && multiset(Bares(a)) == multiset(Bares(b))
    requires KeyDetermines(MapView(view, a))
    ensures ExperienceOf(view, a) == ExperienceOf(view, b)
  {
    hide MapView, Sort, SameKey;
    BaresAt(a);
    BaresAt(b);
    MapViewBare(view, a, Bares(a));
    MapViewBare(view, b, Bares(b));
    MapViewPermuted(view, Bares(a), Bares(b));
    var m, n := MapView(view, a), MapView(view, b);
    OrderIrrelevant(m, m, n);
  }

  /** The same experience list, entry for entry, and the same entities in every other section. */
  ghost predicate SameProfile(y: Extracted, x: Extracted, clean: Clean, view: View) {
    && ExperienceOf(view, Flattened(clean, y)) == ExperienceOf(view, Flattened(clean, x))
    && forall s :: s != Positions && s != PositionGroups ==> Bares(EntitiesOf(y, s)) == Bares(EntitiesOf(x, s))
  }

  /** What the flat envelope is read as: the listed positions, and every other section as it lists it. */
  lemma {:induction false} FlatReads(x: Extracted, flat: Value, included: seq<Value>, clean: Clean)
    requires IncludedOf(flat) == Some(included) && Mirrors(included, DataOf(flat), x, clean)
    ensures Extract(flat).Some? && Flattened(clean, Extract(flat).value) == Listed(included, Positions)
    ensures forall s :: s != Positions && s != PositionGroups ==>
              Bares(EntitiesOf(Extract(flat).value, s)) == Bares(EntitiesOf(x, s))
  {
    hide Listed, IndexOf, Flattened, Members, GroupsListed;
    FlatExtract(flat, included);
    var y := Extract(flat).value;
    FlatPositions(y, included, DataOf(flat), clean);
    forall s | s != Positions && s != PositionGroups ensures Bares(EntitiesOf(y, s)) == Bares(EntitiesOf(x, s)) {
      FlatSections(y, included, s);
    }
  }

  /**
   A record x and any flat envelope that lists it mean the same profile, provided the start key tells
   the entries of x apart.
   */
  lemma {:induction false} EnvelopesAgree(x: Extracted, flat: Value, included: seq<Value>, clean: Clean, view: View)
    requires IncludedOf(flat) == Some(included) && Mirrors(included, DataOf(flat), x, clean)
    requires IgnoresName(view) && KeyDetermines(MapView(view, Flattened(clean, x)))
    ensures Extract(flat).Some? && SameProfile(Extract(flat).value, x, clean, view)
  {
    hide Listed, Extract, ExperienceOf, Flattened, Members, KeyDetermines, GroupsListed;
    FlatReads(x, flat, included, clean);
    SameExperience(view, Flattened(clean, x), Listed(included, Positions));
  }

  /** So they do, whatever the start keys, when the envelope lists the positions in their order. */
  lemma {:induction false} EnvelopesAgreeInOrder(x: Extracted, flat: Value, included: seq<Value>, clean: Clean, view: View)
    requires IncludedOf(flat) == Some(included) && Mirrors(included, DataOf(flat), x, clean) && IgnoresName(view)
    requires Bares(Listed(included, Positions)) == Bares(Flattened(clean, x))
    ensures Extract(flat).Some? && SameProfile(Extract(flat).value, x, clean, view)
  {
    hide Listed, Extract, ExperienceOf, Flattened, Members, GroupsListed;
    FlatReads(x, flat, included, clean);
    SameBares(view, Flattened(clean, x), Listed(included, Positions));
  }

  lemma {:induction false} SameBares(view: View, a: seq<Entity>, b: seq<Entity>)
    requires IgnoresName(view) && Bares(a) == Bares(b)
    ensures MapView(view, a) == MapView(view, b) && ExperienceOf(view, a) == ExperienceOf(view, b)
  {
    hide MapView, Sort;
    BaresAt(a);
    BaresAt(b);
    MapViewBare(view, a, Bares(a));
    MapViewBare(view, b, Bares(b));
  }

  /** A listed member record is enough for the flat envelope to be read. */
  lemma {:induction false} FlatExtract(flat: Value, included: seq<Value>)
    requires IncludedOf(flat) == Some(included) && ListedMembers(included) != []
    ensures var ix := IndexOf(included, DataOf(flat));
            && NormalisedRoot(ix).Some?
            && Extract(flat) == Some(Extracted(NormalisedRoot(ix).value, map[], Normalized(ix)))
  {
    hide Resolved, IsIndexOf, Largest, FirstNamed;
    OfTypeIsScan(IndexOf(included, DataOf(flat)), included, PROFILE_SUFFIXES);
  }

  /** Exactly: an envelope with a list or a data object is read if it lists a member record. */
  lemma {:induction false} FlatExtractIff(payload: Value)
    requires payload.Obj? && ("included" in payload.fields || "data" in payload.fields)
    ensures Extract(payload).Some? <==>
              payload.Obj? && IncludedOf(payload).Some? && ListedMembers(IncludedOf(payload).value) != []
  {
    hide Resolved, IsIndexOf, Largest, FirstNamed, TypedItems;
    if IncludedOf(payload).Some? {
      OfTypeIsScan(IndexOf(IncludedOf(payload).value, DataOf(payload)), IncludedOf(payload).value, PROFILE_SUFFIXES);
    } else if DataOf(payload).Some? {
      NothingTyped(IndexOf([], DataOf(payload)), PROFILE_SUFFIXES);
    }
  }

  lemma {:induction false} NothingTyped(ix: Index, suffixes: seq<string>)
    requires IsIndexOf(ix, [])
    ensures OfType(ix, suffixes) == []
  {
  }

  // ------------------------------------------------------------------------------ the member record

  /** Of the entities typed as member records, those with a name, identifier or headline are candidates, in order. */
  lemma {:induction false} MembersIdentified(candidates: seq<Entity>, k: nat)
    requires k < |candidates|
    ensures Members(candidates[..k + 1]) ==
              Members(candidates[..k]) + if candidates[k].Keys * MEMBER_KEYS != {} then [candidates[k]] else []
  {
    hide Members, LooksLikeMember;
    assert candidates[..k + 1] == candidates[..k] + [candidates[k]];
    MembersAppend(candidates[..k], [candidates[k]]);
    MembersOne(candidates[k]);
  }

  lemma {:induction false} MembersAppend(a: seq<Entity>, b: seq<Entity>)
    ensures Members(a + b) == Members(a) + Members(b)
  {
    hide LooksLikeMember;
    if a == [] {
      assert a + b == b;
    } else {
      assert (a + b)[0] == a[0] && (a + b)[1..] == a[1..] + b;
      MembersAppend(a[1..], b);
    }
  }

  lemma {:induction false} MembersOne(e: Entity)
    ensures Members([e]) == if e.Keys * MEMBER_KEYS != {} then [e] else []
  {
    assert [e][1..] == [];
    if LooksLikeMember(e) {
      var key := if "firstName" in e then "firstName" else if "lastName" in e then "lastName"
        else if "publicIdentifier" in e then "publicIdentifier" else "headline";
      assert key in e.Keys * MEMBER_KEYS;
    }
  }

  /**
   The k-th member record is the one picked: the first that `data` points at or, when it points at none
   of them, the last of the largest.
   */
  ghost predicate Picked(members: seq<Entity>, data: Option<Entity>, k: nat) {
    k < |members| &&
    if exists j :: 0 <= j < |members| && IsNamed(members[j], data) then
      IsNamed(members[k], data) && forall j :: 0 <= j < k ==> !IsNamed(members[j], data)
    else
      forall j :: 0 <= j < |members| ==> |members[j]| <= |members[k]| && (j > k ==> |members[j]| < |members[k]|)
  }

  /** `data` points at this URN: its member `*elements` or, without that, `*profile` is the URN, or a list led by it. */
  predicate PointsAt(data: Option<Entity>, urn: string) {
    data.Some? &&
    if "*elements" in data.value then Leads(data.value["*elements"], urn)
    else "*profile" in data.value && Leads(data.value["*profile"], urn)
  }

  predicate Leads(v: Value, urn: string) {
    v == Str(urn) || (v.Arr? && v.items != [] && v.items[0] == Str(urn))
  }

  predicate IsNamed(e: Entity, data: Option<Entity>) {
    URN_KEY in e && e[URN_KEY].Str? && PointsAt(data, e[URN_KEY].s)
  }

  lemma {:induction false} PointerIff(data: Option<Entity>, urn: string)
    ensures Pointer(data) == Some(urn) <==> PointsAt(data, urn)
  {
  }

  lemma {:induction false} NamedIff(e: Entity, data: Option<Entity>)
    ensures IsNamed(e, data) <==> Pointer(data).Some? && StrField(e, URN_KEY) == Pointer(data)
  {
    hide Pointer, PointsAt;
    if StrField(e, URN_KEY).Some? {
      PointerIff(data, StrField(e, URN_KEY).value);
    }
  }

  lemma {:induction false} FirstNamedAt(members: seq<Entity>, urn: string) returns (k: nat)
    ensures FirstNamed(members, urn).None? <==> forall j :: 0 <= j < |members| ==> StrField(members[j], URN_KEY) != Some(urn)
    ensures FirstNamed(members, urn).Some? ==>
              && k < |members| && FirstNamed(members, urn) == Some(members[k]) && StrField(members[k], URN_KEY) == Some(urn)
              && forall j :: 0 <= j < k ==> StrField(members[j], URN_KEY) != Some(urn)
  {
    k := 0;
    if members != [] && StrField(members[0], URN_KEY) != Some(urn) {
      var rest := FirstNamedAt(members[1..], urn);
      k := rest + 1;
      assert forall j :: 0 < j < |members| ==> members[j] == members[1..][j - 1];
    }
  }

  lemma {:induction false} LargestAt(members: seq<Entity>) returns (k: nat)
    requires members != []
    ensures k < |members| && Largest(members) == members[k]
    ensures forall j :: 0 <= j < |members| ==> |members[j]| <= |members[k]| && (j > k ==> |members[j]| < |members[k]|)
  {
    var n := |members| - 1;
    k := n;
    if n > 0 {
      var earlier := LargestAt(members[..n]);
      if |members[n]| < |members[earlier]| {
        k := earlier;
      }
    }
  }

  lemma {:induction false} PickedUnique(members: seq<Entity>, data: Option<Entity>, j: nat, k: nat)
    requires Picked(members, data, j) && Picked(members, data, k)
    ensures j == k
  {
  }

  lemma {:induction false} RootPicked(ix: Index, included: seq<Value>) returns (k: nat)
    requires IsIndexOf(ix, included) && ListedMembers(included) != []
    ensures k < |ListedMembers(included)| && Picked(ListedMembers(included), ix.data, k)
    ensures NormalisedRoot(ix) == Some(ListedMembers(included)[k])
  {
    hide Resolved, IsIndexOf, Members, Pointer, IsNamed;
    OfTypeIsScan(ix, included, PROFILE_SUFFIXES);
    var members := ListedMembers(included);
    forall j | 0 <= j < |members|
      ensures IsNamed(members[j], ix.data) <==> Pointer(ix.data).Some? && StrField(members[j], URN_KEY) == Pointer(ix.data)
    {
      NamedIff(members[j], ix.data);
    }
    k := LargestAt(members);
    if Pointer(ix.data).Some? {
      var named := FirstNamedAt(members, Pointer(ix.data).value);
      if FirstNamed(members, Pointer(ix.data).value).Some? {
        k := named;
      }
    }
  }

  /** When one listed member record is that of x, both envelopes agree on the member record if and only if it is the one picked. */
  lemma {:induction false} RootsAgreeIff(x: Extracted, flat: Value, included: seq<Value>, k: nat)
    requires IncludedOf(flat) == Some(included) && k < |ListedMembers(included)|
    requires forall j :: 0 <= j < |ListedMembers(included)| ==> (Bare(ListedMembers(included)[j]) == Bare(x.root) <==> j == k)
    ensures Extract(flat).Some?
    ensures Bare(Extract(flat).value.root) == Bare(x.root) <==> Picked(ListedMembers(included), DataOf(flat), k)
  {
    hide ListedMembers, Picked, IsIndexOf, Bare, Extract, NormalisedRoot;
    var ix, members := IndexOf(included, DataOf(flat)), ListedMembers(included);
    assert members != [] && ix.data == DataOf(flat);
    FlatExtract(flat, included);
    var j := RootPicked(ix, included);
    assert Bare(members[j]) == Bare(x.root) <==> j == k;
    if Picked(members, DataOf(flat), k) {
      PickedUnique(members, DataOf(flat), j, k);
    }
  }
}
