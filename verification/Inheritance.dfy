/**
 What becomes of a group's company details in a flat envelope (`flatten_positions`,
 src/parser/dash.rs). A group's roles are listed there by themselves, so they count as standalone
 positions and inherit nothing; in the embedded envelope they inherit what they lack.
 */
module Inheritance {
  import opened Common
  import opened Json
  import opened EntityIndex
  import opened Dash
  import opened Envelopes
  import opened FlatForm
  import opened PositionMapper

  /** A role of a position group, as written. */
  datatype Role = Role(group: Entity, position: Entity)

  function RolesIn(group: Entity, ps: seq<Entity>): seq<Role> {
    if ps == [] then [] else RolesIn(group, ps[..|ps| - 1]) + [Role(group, ps[|ps| - 1])]
  }

  function Grouped(x: Extracted, groups: seq<Entity>): seq<Role> {
    if groups == [] then []
    else
      var n := |groups| - 1;
      Grouped(x, groups[..n]) + RolesIn(groups[n], GroupPositions(x, groups[n]))
  }

  function Written(roles: seq<Role>): seq<Entity> {
    if roles == [] then [] else Written(roles[..|roles| - 1]) + [roles[|roles| - 1].position]
  }

  function Inherited(clean: Clean, roles: seq<Role>): seq<Entity> {
    if roles == [] then []
    else
      var r := roles[|roles| - 1];
      Inherited(clean, roles[..|roles| - 1]) + [Inherit(clean, r.group, r.position)]
  }

  /** The roles whose optional URN is new. */
  function Kept(seen: set<Option<string>>, roles: seq<Role>): seq<Role> {
    if roles == [] then []
    else
      var n := |roles| - 1;
      var kept := Kept(seen, roles[..n]);
      if PositionUrn(roles[n].position) in seen + UrnSet(Written(kept)) then kept else kept + [roles[n]]
  }

  function KeptRoles(x: Extracted): seq<Role> {
    Kept(UrnSet(EntitiesOf(x, Positions)), Grouped(x, EntitiesOf(x, PositionGroups)))
  }

  /** The positions of a record as they are written, without inheritance. */
  function AsWritten(x: Extracted): seq<Entity> {
    EntitiesOf(x, Positions) + Written(KeptRoles(x))
  }

  // ------------------------------------------------------------------------------ flattening by roles

  lemma {:induction false} InheritedAt(clean: Clean, roles: seq<Role>)
    ensures |Inherited(clean, roles)| == |roles| == |Written(roles)|
    ensures forall i :: 0 <= i < |roles| ==>
              && Inherited(clean, roles)[i] == Inherit(clean, roles[i].group, roles[i].position)
              && Written(roles)[i] == roles[i].position
  {
    hide Inherit;
    if roles != [] {
      InheritedAt(clean, roles[..|roles| - 1]);
    }
  }

  lemma {:induction false} InheritedAppend(clean: Clean, a: seq<Role>, b: seq<Role>)
    ensures Inherited(clean, a + b) == Inherited(clean, a) + Inherited(clean, b)
  {
    hide Inherit;
    if b == [] {
      assert a + b == a;
    } else {
      var n := |b| - 1;
      assert (a + b)[..|a| + n] == a + b[..n];
      InheritedAppend(clean, a, b[..n]);
    }
  }

  lemma {:induction false} InheritAllRoles(clean: Clean, group: Entity, ps: seq<Entity>)
    ensures InheritAll(clean, group, ps) == Inherited(clean, RolesIn(group, ps))
  {
    hide Inherit;
    if ps != [] {
      var n := |ps| - 1;
      InheritAllRoles(clean, group, ps[..n]);
      InheritedSnoc(clean, RolesIn(group, ps[..n]), Role(group, ps[n]));
    }
  }

  lemma {:induction false} InheritedSnoc(clean: Clean, roles: seq<Role>, r: Role)
    ensures Inherited(clean, roles + [r]) == Inherited(clean, roles) + [Inherit(clean, r.group, r.position)]
    ensures Written(roles + [r]) == Written(roles) + [r.position]
  {
    assert (roles + [r])[..|roles|] == roles;
  }

  lemma {:induction false} RolesGrouped(clean: Clean, x: Extracted, groups: seq<Entity>)
    ensures Roles(clean, x, groups) == Inherited(clean, Grouped(x, groups))
  {
    hide Inherit, GroupPositions, InheritAll, RolesIn;
    if groups != [] {
      var n := |groups| - 1;
      RolesGrouped(clean, x, groups[..n]);
      InheritAllRoles(clean, groups[n], GroupPositions(x, groups[n]));
      InheritedAppend(clean, Grouped(x, groups[..n]), RolesIn(groups[n], GroupPositions(x, groups[n])));
    }
  }

  /** Inheriting changes no URN. */
  lemma {:induction false} SameUrns(clean: Clean, roles: seq<Role>)
    ensures UrnSet(Inherited(clean, roles)) == UrnSet(Written(roles))
  {
    hide Inherit;
    if roles != [] {
      var n := |roles| - 1;
      SameUrns(clean, roles[..n]);
      InheritKeepsUrn(clean, roles[n].group, roles[n].position);
      UrnSnoc(Inherited(clean, roles[..n]), Inherit(clean, roles[n].group, roles[n].position));
      UrnSnoc(Written(roles[..n]), roles[n].position);
    }
  }

  lemma {:induction false} UrnSnoc(ps: seq<Entity>, p: Entity)
    ensures UrnSet(ps + [p]) == UrnSet(ps) + {PositionUrn(p)}
  {
  }

  lemma {:induction false} KeepNewKept(clean: Clean, seen: set<Option<string>>, roles: seq<Role>)
    ensures KeepNew(seen, Inherited(clean, roles)) == Inherited(clean, Kept(seen, roles))
  {
    hide Inherit, UrnSet;
    if roles != [] {
      var n := |roles| - 1;
      var r, kept := roles[n], Kept(seen, roles[..n]);
      KeepNewKept(clean, seen, roles[..n]);
      SameUrns(clean, kept);
      InheritKeepsUrn(clean, r.group, r.position);
      InheritedSnoc(clean, kept, r);
      var earlier, merged := Inherited(clean, roles[..n]), Inherit(clean, r.group, r.position);
      assert Inherited(clean, roles) == earlier + [merged] && (earlier + [merged])[..|earlier|] == earlier;
    }
  }

  /** Flattening keeps the standalone positions and lets the kept roles inherit. */
  lemma {:induction false} FlattenedRoles(clean: Clean, x: Extracted)
    ensures Flattened(clean, x) == EntitiesOf(x, Positions) + Inherited(clean, KeptRoles(x))
  {
    hide EntitiesOf, Grouped, UrnSet;
    RolesGrouped(clean, x, EntitiesOf(x, PositionGroups));
    KeepNewKept(clean, UrnSet(EntitiesOf(x, Positions)), Grouped(x, EntitiesOf(x, PositionGroups)));
  }

  // ------------------------------------------------------------------------------ what a role lacks

  /** The group has a company detail that the role has not. */
  predicate Lacks(clean: Clean, r: Role) {
    || ("companyName" !in r.position && TextOf(clean, r.group, "companyName").Some?)
    || ("companyUrn" !in r.position && "companyUrn" in r.group)
    || ("company" !in r.position && "company" in r.group)
  }

  /** The company details an entity has. */
  datatype Details = Details(name: bool, urn: bool, company: bool) {
    function Count(): nat {
      (if name then 1 else 0) + (if urn then 1 else 0) + (if company then 1 else 0)
    }
  }

  function DetailsOf(e: Entity): Details {
    Details("companyName" in e, "companyUrn" in e, "company" in e)
  }

  /** Inheriting changes a role exactly when it lacks something, and then it gains details. */
  lemma {:induction false} InheritChangesIff(clean: Clean, r: Role)
    ensures var m := Inherit(clean, r.group, r.position);
            && (Lacks(clean, r) <==> Bare(m) != Bare(r.position))
            && (Lacks(clean, r) ==> DetailsOf(m).Count() > DetailsOf(r.position).Count())
            && (!Lacks(clean, r) ==> m == r.position)
  {
    CompanyKeys();
    var m := Inherit(clean, r.group, r.position);
    InheritDetails(clean, r);
    if Lacks(clean, r) {
      BareDetails(m);
      BareDetails(r.position);
    }
  }

  lemma {:induction false} InheritDetails(clean: Clean, r: Role)
    ensures var m, p := DetailsOf(Inherit(clean, r.group, r.position)), DetailsOf(r.position);
            && m.name == (p.name || TextOf(clean, r.group, "companyName").Some?)
            && m.urn == (p.urn || "companyUrn" in r.group)
            && m.company == (p.company || "company" in r.group)
    ensures !Lacks(clean, r) ==> Inherit(clean, r.group, r.position) == r.position
  {
    hide TextOf;
    CompanyKeys();
  }

  lemma {:induction false} BareDetails(e: Entity)
    ensures DetailsOf(Bare(e)) == DetailsOf(e)
  {
    CompanyKeys();
  }

  // ------------------------------------------------------------------------------ what the list loses

  /** A flat envelope that lists the record's positions as written; its groups may point at them. */
  ghost predicate ListsAsWritten(included: seq<Value>, data: Option<Entity>, x: Extracted) {
    && ListedMembers(included) != [] && GroupsListed(included, data)
    && Bares(Listed(included, Positions)) == Bares(AsWritten(x))
  }

  /** No kept role's entry is another one for being read as written. */
  ghost predicate SameEntries(clean: Clean, view: View, roles: seq<Role>) {
    forall i :: 0 <= i < |roles| ==> view(Inherit(clean, roles[i].group, roles[i].position)) == view(roles[i].position)
  }

  ghost predicate PairwiseSameKey(a: seq<Experience>, b: seq<Experience>) {
    |a| == |b| && forall i :: 0 <= i < |a| ==> SameKey(a[i], b[i])
  }

  function EntryList(view: View, p: Entity): seq<Experience> {
    match view(p) case Some(e) => [e] case None => []
  }

  lemma {:induction false} MapViewSnoc(view: View, ps: seq<Entity>, p: Entity)
    ensures MapView(view, ps + [p]) == MapView(view, ps) + EntryList(view, p)
  {
    MapViewSplit(view, ps, [p]);
    assert [p][1..] == [];
  }

  lemma {:induction false} SameEntriesSnoc(clean: Clean, view: View, roles: seq<Role>, r: Role)
    ensures SameEntries(clean, view, roles + [r]) <==>
              SameEntries(clean, view, roles) && view(Inherit(clean, r.group, r.position)) == view(r.position)
  {
    hide Inherit;
    var all := roles + [r];
    if SameEntries(clean, view, all) {
      assert all[|roles|] == r;
      assert forall i :: 0 <= i < |roles| ==> all[i] == roles[i];
    }
  }

  /** As many entries or fewer; if as many, of the same keys. */
  ghost predicate NoMore(a: seq<Experience>, b: seq<Experience>) {
    |a| <= |b| && (|a| == |b| ==> PairwiseSameKey(a, b))
  }

  lemma {:induction false} NoMoreAppend(a: seq<Experience>, a': seq<Experience>, b: seq<Experience>, b': seq<Experience>)
    requires NoMore(a, b) && NoMore(a', b')
    ensures NoMore(a + a', b + b')
    ensures a + a' == b + b' <==> a == b && a' == b'
  {
    hide SameKey;
    if a + a' == b + b' {
      assert |a + a'| == |a| + |a'| && |b + b'| == |b| + |b'|;
      assert a == (a + a')[..|a|] && b == (b + b')[..|a|];
      assert a' == (a + a')[|a|..] && b' == (b + b')[|a|..];
    }
  }

  lemma {:induction false} OneEntry(clean: Clean, view: View, r: Role)
    requires KeepsStart(view, clean)
    ensures var m := Inherit(clean, r.group, r.position);
            && NoMore(EntryList(view, r.position), EntryList(view, m))
            && (EntryList(view, r.position) == EntryList(view, m) <==> view(m) == view(r.position))
  {
    hide Inherit;
    var m := Inherit(clean, r.group, r.position);
    if view(r.position).Some? {
      assert SameKey(view(m).value, view(r.position).value);
    }
    if EntryList(view, r.position) == EntryList(view, m) && view(m).Some? {
      assert EntryList(view, m)[0] == view(m).value;
    }
  }

  /**
   Read as written, the roles have no more entries; if as many, these start alike, pairwise; and they are the
   same list only if they are the same role by role.
   */
  lemma {:induction false} EntriesAlike(clean: Clean, view: View, roles: seq<Role>)
    requires KeepsStart(view, clean)
    ensures var plain, merged := MapView(view, Written(roles)), MapView(view, Inherited(clean, roles));
            && NoMore(plain, merged)
            && (plain == merged <==> SameEntries(clean, view, roles))
  {
    if roles != [] {
      hide Inherit, MapView, SameEntries, KeepsStart, NoMore, EntryList;
      var n := |roles| - 1;
      var init, r := roles[..n], roles[n];
      assert roles == init + [r];
      EntriesAlike(clean, view, init);
      InheritedSnoc(clean, init, r);
      MapViewSnoc(view, Written(init), r.position);
      MapViewSnoc(view, Inherited(clean, init), Inherit(clean, r.group, r.position));
      SameEntriesSnoc(clean, view, init, r);
      OneEntry(clean, view, r);
      NoMoreAppend(MapView(view, Written(init)), EntryList(view, r.position),
                   MapView(view, Inherited(clean, init)), EntryList(view, Inherit(clean, r.group, r.position)));
    }
  }

  /** Pairwise of one key, and the same among the entries of each key: the same list. */
  lemma {:induction false} SameByKey(a: seq<Experience>, b: seq<Experience>)
    requires PairwiseSameKey(a, b) && forall k :: WithKeyOf(k, a) == WithKeyOf(k, b)
    ensures a == b
  {
    hide SameKey;
    if a != [] {
      SameKeyReflexive(a[0]);
      assert WithKeyOf(a[0], a) == WithKeyOf(a[0], b);
      assert WithKeyOf(a[0], a)[0] == a[0] && WithKeyOf(a[0], b)[0] == b[0];
      forall k ensures WithKeyOf(k, a[1..]) == WithKeyOf(k, b[1..]) {
        assert WithKeyOf(k, a) == WithKeyOf(k, b);
        var head := if SameKey(k, a[0]) then [a[0]] else [];
        assert WithKeyOf(k, a) == head + WithKeyOf(k, a[1..]) && WithKeyOf(k, b) == head + WithKeyOf(k, b[1..]);
        assert WithKeyOf(k, a[1..]) == WithKeyOf(k, a)[|head|..] && WithKeyOf(k, b[1..]) == WithKeyOf(k, b)[|head|..];
      }
      SameByKey(a[1..], b[1..]);
    }
  }

  /** Lists that start alike, pairwise, are sorted alike only if they are the same. */
  lemma {:induction false} SortInjective(a: seq<Experience>, b: seq<Experience>)
    requires PairwiseSameKey(a, b) && Sort(a) == Sort(b)
    ensures a == b
  {
    hide Sort, PairwiseSameKey;
    forall k ensures WithKeyOf(k, a) == WithKeyOf(k, b) {
      SortStable(a, k);
      SortStable(b, k);
    }
    SameByKey(a, b);
  }

  lemma {:induction false} SortedLength(es: seq<Experience>)
    ensures |Sort(es)| == |es|
  {
    SortSorts(es);
    SameLength(Sort(es), es);
  }

  lemma {:induction false} AllSameKey(es: seq<Experience>)
    ensures NoMore(es, es)
  {
    hide SameKey;
    forall i | 0 <= i < |es| ensures SameKey(es[i], es[i]) {
      SameKeyReflexive(es[i]);
    }
  }

  /** Whatever precedes them: the sorted lists agree if and only if every role's entry is the same. */
  lemma {:induction false} SortedAlikeIff(clean: Clean, view: View, front: seq<Experience>, roles: seq<Role>)
    requires KeepsStart(view, clean)
    ensures Sort(front + MapView(view, Written(roles))) == Sort(front + MapView(view, Inherited(clean, roles))) <==>
              SameEntries(clean, view, roles)
  {
    hide MapView, Sort, SameEntries, KeepsStart, PairwiseSameKey;
    var plain, merged := MapView(view, Written(roles)), MapView(view, Inherited(clean, roles));
    EntriesAlike(clean, view, roles);
    AllSameKey(front);
    NoMoreAppend(front, plain, front, merged);
    SortedLength(front + plain);
    SortedLength(front + merged);
    if Sort(front + plain) == Sort(front + merged) {
      SortInjective(front + plain, front + merged);
    }
  }

  /**
   For every mapper that keeps the start of an entry that inherits: reading the positions of a record as
   written yields its experience list if and only if inheriting changes no kept role's entry.
   */
  lemma {:induction false} AsWrittenIff(x: Extracted, clean: Clean, view: View)
    requires KeepsStart(view, clean)
    ensures ExperienceOf(view, AsWritten(x)) == ExperienceOf(view, Flattened(clean, x)) <==>
              SameEntries(clean, view, KeptRoles(x))
  {
    hide Flattened, EntitiesOf, KeptRoles, MapView, Sort, SameEntries, KeepsStart;
    FlattenedRoles(clean, x);
    MapViewSplit(view, EntitiesOf(x, Positions), Written(KeptRoles(x)));
    MapViewSplit(view, EntitiesOf(x, Positions), Inherited(clean, KeptRoles(x)));
    SortedAlikeIff(clean, view, MapView(view, EntitiesOf(x, Positions)), KeptRoles(x));
  }

  /**
   Exactly: a flat envelope that lists the positions as written yields the experience list of the
   embedded record if and only if what its kept roles inherit shows in no entry.
   */
  lemma {:induction false} InheritanceLostIff(x: Extracted, flat: Value, included: seq<Value>, rd: Readers)
    requires IncludedOf(flat) == Some(included) && ListsAsWritten(included, DataOf(flat), x)
    ensures Extract(flat).Some?
    ensures ExperienceOf(CodeView(rd), Flattened(rd.clean, Extract(flat).value))
              == ExperienceOf(CodeView(rd), Flattened(rd.clean, x))
            <==> forall r :: r in KeptRoles(x) ==> AddsNothing(rd, r.group, r.position)
  {
    hide Extract, Flattened, EntitiesOf, KeptRoles, Listed, ListedMembers, GroupsListed, Bares, IgnoresName, IndexOf,
         KeepsStart, ExperienceOf, AsWritten, SameEntries, CodeView, AddsNothing;
    FlatExtract(flat, included);
    FlatPositions(Extract(flat).value, included, DataOf(flat), rd.clean);
    CodeViewIgnoresName(rd);
    CodeViewKeepsStart(rd);
    SameBares(CodeView(rd), Listed(included, Positions), AsWritten(x));
    AsWrittenIff(x, rd.clean, CodeView(rd));
    SameEntriesIff(rd, KeptRoles(x));
  }

  lemma {:induction false} SameEntriesIff(rd: Readers, roles: seq<Role>)
    ensures SameEntries(rd.clean, CodeView(rd), roles) <==> forall r :: r in roles ==> AddsNothing(rd, r.group, r.position)
  {
    hide Inherit, AddsNothing, Entry;
    forall i | 0 <= i < |roles|
      ensures CodeView(rd)(Inherit(rd.clean, roles[i].group, roles[i].position)) == CodeView(rd)(roles[i].position) <==>
                AddsNothing(rd, roles[i].group, roles[i].position)
    {
      SameEntryIff(rd, roles[i].group, roles[i].position);
    }
    assert forall r :: r in roles <==> exists i :: 0 <= i < |roles| && roles[i] == r;
  }

  /** Every embedded record has such a flat envelope. */
  lemma {:induction false} WrittenForm(package: string, names: Names, embedded: Value, x: Extracted)
    requires Extract(embedded) == Some(x) && x.env.Embedded? && Distinct(names)
    ensures ListsAsWritten(Render(FlatItems(package, names, x, AsWritten(x))), None, x)
  {
    hide Extract, AsWritten, FlatItems, Render, Listed, ListedMembers, Bares, EntitiesOf, Distinct, ElementsNamed,
         IndexOf, LooksLikeMember, Bare;
    EmbeddedRootLooks(embedded, x);
    FlatMember(package, names, x, AsWritten(x));
    FlatSection(package, names, x, AsWritten(x), Positions);
    FlatSection(package, names, x, AsWritten(x), PositionGroups);
  }

  /** A group with one company detail and one role. */
  function LackingGroup(key: string, detail: Value, position: Entity): Entity {
    map[key := detail, "profilePositionInPositionGroup" := Arr([Obj(position)])]
  }

  function GroupRecord(root: Entity, group: Entity): Extracted {
    Extracted(root, map[Positions := [], PositionGroups := [group]], Embedded)
  }

  /** Its role is kept. */
  lemma {:induction false} OneRole(key: string, detail: Value, root: Entity, position: Entity)
    requires key == "companyName" || key == "companyUrn"
    ensures var group := LackingGroup(key, detail, position);
            && KeptRoles(GroupRecord(root, group)) == [Role(group, position)]
            && Field(group, "companyName") == (if key == "companyName" then Some(detail) else None)
            && Field(group, "companyUrn") == (if key == "companyUrn" then Some(detail) else None)
            && "company" !in group
  {
    hide GroupPositions;
    var group := LackingGroup(key, detail, position);
    var x := GroupRecord(root, group);
    GroupKeys(key, detail, position);
    OnePosition(key, detail, x, position);
    assert [position][..0] == [] && RolesIn(group, [position]) == [Role(group, position)];
    assert [group][..0] == [] && Grouped(x, [group]) == [Role(group, position)];
    assert [Role(group, position)][..0] == [];
    assert EntitiesOf(x, Positions) == [] && EntitiesOf(x, PositionGroups) == [group];
    assert UrnSet([]) == {} && Kept({}, [Role(group, position)]) == [] + [Role(group, position)];
  }

  lemma {:induction false} GroupKeys(key: string, detail: Value, position: Entity)
    requires key == "companyName" || key == "companyUrn"
    ensures var group := LackingGroup(key, detail, position);
            && Field(group, "companyName") == (if key == "companyName" then Some(detail) else None)
            && Field(group, "companyUrn") == (if key == "companyUrn" then Some(detail) else None)
            && "company" !in group
  {
    CompanyKeys();
    assert "profilePositionInPositionGroup"[0] != "company"[0];
    assert "profilePositionInPositionGroup"[0] != "companyName"[0];
    assert "profilePositionInPositionGroup"[0] != "companyUrn"[0];
  }

  lemma {:induction false} OnePosition(key: string, detail: Value, x: Extracted, position: Entity)
    requires x.env.Embedded?
    ensures GroupPositions(x, LackingGroup(key, detail, position)) == [position]
  {
    assert [Obj(position)][1..] == [];
    assert Objects([Obj(position)]) == [position];
  }

  /** A group with a company name, and a role with a title but no company: the lists differ. */
  lemma {:induction false} LackingRole(rd: Readers, root: Entity, name: string, position: Entity)
    requires "title" in position && position["title"].Str? && rd.clean(position["title"].s).Some?
    requires "companyName" !in position && "company" !in position
    requires rd.clean(name).Some? && rd.clean(rd.clean(name).value).Some?
    ensures var x := GroupRecord(root, LackingGroup("companyName", Str(name), position));
            ExperienceOf(CodeView(rd), AsWritten(x)) != ExperienceOf(CodeView(rd), Flattened(rd.clean, x))
  {
    hide ExperienceOf, AsWritten, Flattened, KeptRoles, CodeView, KeepsStart, SameEntries, LackingGroup;
    var group := LackingGroup("companyName", Str(name), position);
    var x := GroupRecord(root, group);
    OneRole("companyName", Str(name), root, position);
    CodeViewKeepsStart(rd);
    AsWrittenIff(x, rd.clean, CodeView(rd));
    SameEntriesIff(rd, KeptRoles(x));
    assert Role(group, position) in KeptRoles(x);
    assert !AddsNothing(rd, group, position);
  }

  /** A group with a company URN, and a role that lacks it but has a company object with a URN: the lists agree. */
  lemma {:induction false} LackingButSame(rd: Readers, root: Entity, urn: Value, position: Entity)
    requires "companyUrn" !in position && CompanyField(ObjField(position, "company"), URN_KEY).Some?
    ensures var group := LackingGroup("companyUrn", urn, position);
            var x := GroupRecord(root, group);
            && KeptRoles(x) == [Role(group, position)] && Lacks(rd.clean, Role(group, position))
            && ExperienceOf(CodeView(rd), AsWritten(x)) == ExperienceOf(CodeView(rd), Flattened(rd.clean, x))
  {
    hide ExperienceOf, AsWritten, Flattened, KeptRoles, CodeView, KeepsStart, SameEntries, LackingGroup;
    var group := LackingGroup("companyUrn", urn, position);
    var x := GroupRecord(root, group);
    OneRole("companyUrn", urn, root, position);
    CodeViewKeepsStart(rd);
    AsWrittenIff(x, rd.clean, CodeView(rd));
    SameEntriesIff(rd, KeptRoles(x));
    assert AddsNothing(rd, group, position);
  }
}
