/**
 Extraction of a Dash profile (src/parser/dash.rs): two envelopes reduced to a member
 record and its section lists, position groups flattened, experience sorted.
 Field mapping is left abstract: `clean` is the text normaliser, `view` the mapper.
 */
module Dash {
  import opened Common
  import opened Json
  import opened EntityIndex

  datatype Section =
    | PositionGroups | Positions | Educations | Skills | Certifications | Languages | Projects
    | Publications | Honors | Volunteering | Courses | Patents | TestScores | Organizations

  /** The embedded key and the two type suffixes of each section. */
  function KeyOf(s: Section): string {
    match s
    case PositionGroups => "profilePositionGroups"
    case Positions => "profilePositions"
    case Educations => "profileEducations"
    case Skills => "profileSkills"
    case Certifications => "profileCertifications"
    case Languages => "profileLanguages"
    case Projects => "profileProjects"
    case Publications => "profilePublications"
    case Honors => "profileHonors"
    case Volunteering => "profileVolunteerExperiences"
    case Courses => "profileCourses"
    case Patents => "profilePatents"
    case TestScores => "profileTestScores"
    case Organizations => "profileOrganizations"
  }

  function ShortSuffix(s: Section): string {
    match s
    case PositionGroups => "PositionGroup"
    case Positions => "Position"
    case Educations => "Education"
    case Skills => "Skill"
    case Certifications => "Certification"
    case Languages => "Language"
    case Projects => "Project"
    case Publications => "Publication"
    case Honors => "Honor"
    case Volunteering => "VolunteerExperience"
    case Courses => "Course"
    case Patents => "Patent"
    case TestScores => "TestScore"
    case Organizations => "Organization"
  }

  function SuffixesOf(s: Section): seq<string> {
    ["Profile" + ShortSuffix(s), ShortSuffix(s)]
  }

  const PROFILE_SUFFIXES: seq<string> := ["profile.Profile", "Profile"]

  datatype Env = Embedded | Normalized(index: Index)

  /** The member record plus, for the embedded envelope, its section lists. */
  datatype Extracted = Extracted(root: Entity, collections: map<Section, seq<Entity>>, env: Env)

  // ------------------------------------------------------------------------------ envelopes

  function ElementsFromValue(v: Value): seq<Entity> {
    match v
    case Obj(o) => (match Field(o, "elements") case Some(Arr(items)) => Objects(items) case _ => [])
    case Arr(items) => Objects(items)
    case _ => []
  }

  /** The keys that only a member record has. */
  const MEMBER_KEYS := {"firstName", "lastName", "publicIdentifier", "headline"}

  predicate LooksLikeMember(e: Entity) {
    "firstName" in e || "lastName" in e || "publicIdentifier" in e || "headline" in e
  }

  function FirstMember(candidates: seq<Entity>): Option<Entity> {
    if candidates == [] then None
    else if LooksLikeMember(candidates[0]) then Some(candidates[0])
    else FirstMember(candidates[1..])
  }

  function EmbeddedRoot(payload: Entity): Option<Entity> {
    var listed := match Field(payload, "elements") case Some(Arr(items)) => FirstMember(Objects(items)) case _ => None;
    if listed.Some? then listed
    else if LooksLikeMember(payload) then Some(payload)
    else None
  }

  function Members(candidates: seq<Entity>): seq<Entity> {
    if candidates == [] then []
    else (if LooksLikeMember(candidates[0]) then [candidates[0]] else []) + Members(candidates[1..])
  }

  /** What `data` points at: the first of a list, or a string by itself. */
  function Pointer(data: Option<Entity>): Option<string> {
    match data
    case None => None
    case Some(d) =>
      match (if Field(d, "*elements").Some? then Field(d, "*elements") else Field(d, "*profile"))
      case Some(Arr(items)) => if items != [] && items[0].Str? then Some(items[0].s) else None
      case Some(Str(s)) => Some(s)
      case _ => None
  }

  function FirstNamed(candidates: seq<Entity>, urn: string): Option<Entity> {
    if candidates == [] then None
    else if StrField(candidates[0], URN_KEY) == Some(urn) then Some(candidates[0])
    else FirstNamed(candidates[1..], urn)
  }

  /** The last of the largest records, as `max_by_key` picks it. */
  function Largest(candidates: seq<Entity>): Entity
    requires candidates != []
  {
    var n := |candidates| - 1;
    if n == 0 || |Largest(candidates[..n])| <= |candidates[n]| then candidates[n] else Largest(candidates[..n])
  }

  function NormalisedRoot(ix: Index): Option<Entity> {
    var candidates := Members(OfType(ix, PROFILE_SUFFIXES));
    if candidates == [] then None
    else
      var named := match Pointer(ix.data) case Some(p) => FirstNamed(candidates, p) case None => None;
      if named.Some? then named else Some(Largest(candidates))
  }

  function Collections(root: Entity): map<Section, seq<Entity>> {
    map s: Section :: match Field(root, KeyOf(s)) case Some(v) => ElementsFromValue(v) case None => []
  }

  function Extract(payload: Value): Option<Extracted> {
    if !payload.Obj? then None
    else if "included" in payload.fields || "data" in payload.fields then
      if IncludedOf(payload).None? && DataOf(payload).None? then None
      else
        var ix := IndexOf(ItemsOf(payload), DataOf(payload));
        match NormalisedRoot(ix)
        case None => None
        case Some(root) => Some(Extracted(root, map[], Normalized(ix)))
    else
      match EmbeddedRoot(payload.fields)
      case None => None
      case Some(root) => Some(Extracted(root, Collections(root), Embedded))
  }

  /** The entities of one section: the embedded list, or everything of its types. */
  function EntitiesOf(x: Extracted, s: Section): seq<Entity> {
    match x.env
    case Normalized(ix) => OfType(ix, SuffixesOf(s))
    case Embedded => if s in x.collections then x.collections[s] else []
  }

  // ------------------------------------------------------------------------------ positions

  type Clean = string -> Option<string>

  function TextOf(clean: Clean, e: Entity, key: string): Option<string> {
    match StrField(e, key) case Some(s) => clean(s) case None => None
  }

  function PositionUrn(p: Entity): Option<string> {
    StrField(p, URN_KEY)
  }

  function GroupPositions(x: Extracted, group: Entity): seq<Entity> {
    match x.env
    case Normalized(ix) => ElementsNamed(ix, group, "profilePositionInPositionGroup")
    case Embedded =>
      (match Field(group, "profilePositionInPositionGroup") case Some(v) => ElementsFromValue(v) case None => [])
  }

  function FillAbsent(p: Entity, key: string, value: Option<Value>): Entity {
    if key !in p && value.Some? then p[key := value.value] else p
  }

  /** A role inherits the company details of its group where it has none of its own. */
  function Inherit(clean: Clean, group: Entity, p: Entity): Entity {
    var name := match TextOf(clean, group, "companyName") case Some(s) => Some(Str(s)) case None => None;
    FillAbsent(FillAbsent(FillAbsent(p, "companyName", name),
                          "companyUrn", Field(group, "companyUrn")),
               "company", Field(group, "company"))
  }

  /** The roles of one group, then of all groups, with what they inherit. */
  function InheritAll(clean: Clean, group: Entity, ps: seq<Entity>): seq<Entity> {
    if ps == [] then [] else InheritAll(clean, group, ps[..|ps| - 1]) + [Inherit(clean, group, ps[|ps| - 1])]
  }

  function Roles(clean: Clean, x: Extracted, groups: seq<Entity>): seq<Entity> {
    if groups == [] then []
    else
      var n := |groups| - 1;
      Roles(clean, x, groups[..n]) + InheritAll(clean, groups[n], GroupPositions(x, groups[n]))
  }

  /** Keep each role whose optional URN has not been seen before it. */
  function KeepNew(seen: set<Option<string>>, roles: seq<Entity>): seq<Entity> {
    if roles == [] then []
    else
      var n := |roles| - 1;
      var kept := KeepNew(seen, roles[..n]);
      if PositionUrn(roles[n]) in seen + UrnSet(kept) then kept else kept + [roles[n]]
  }

  function UrnSet(ps: seq<Entity>): set<Option<string>> {
    set p | p in ps :: PositionUrn(p)
  }

  /** Standalone positions, then the new roles of the groups in order. */
  function Flattened(clean: Clean, x: Extracted): seq<Entity> {
    var standalone := EntitiesOf(x, Positions);
    standalone + KeepNew(UrnSet(standalone), Roles(clean, x, EntitiesOf(x, PositionGroups)))
  }

  lemma {:induction false} InheritKeepsUrn(clean: Clean, group: Entity, p: Entity)
    ensures PositionUrn(Inherit(clean, group, p)) == PositionUrn(p)
  {
  }

  /** The vector and the set after the given roles have been offered. */
  ghost predicate Offered(positions: seq<Entity>, seen: set<Option<string>>, standalone: seq<Entity>, roles: seq<Entity>) {
    var kept := KeepNew(UrnSet(standalone), roles);
    positions == standalone + kept && seen == UrnSet(standalone) + UrnSet(kept)
  }

  lemma {:induction false} OfferOne(positions: seq<Entity>, seen: set<Option<string>>, standalone: seq<Entity>,
                                     roles: seq<Entity>, role: Entity)
    requires Offered(positions, seen, standalone, roles)
    ensures if PositionUrn(role) in seen then Offered(positions, seen, standalone, roles + [role])
            else Offered(positions + [role], seen + {PositionUrn(role)}, standalone, roles + [role])
  {
    assert (roles + [role])[..|roles|] == roles;
    var kept := KeepNew(UrnSet(standalone), roles);
    assert UrnSet(kept + [role]) == UrnSet(kept) + {PositionUrn(role)};
    assert standalone + (kept + [role]) == (standalone + kept) + [role];
  }

  lemma {:induction false} InheritAllSnoc(clean: Clean, group: Entity, roles: seq<Entity>, j: nat, earlier: seq<Entity>)
    requires j < |roles|
    ensures earlier + InheritAll(clean, group, roles[..j + 1]) ==
              (earlier + InheritAll(clean, group, roles[..j])) + [Inherit(clean, group, roles[j])]
  {
    assert roles[..j + 1][..j] == roles[..j];
  }

  /** `flatten_positions`: two nested loops over groups and roles, with a set of URNs already seen. */
  method FlattenPositions(clean: Clean, x: Extracted) returns (positions: seq<Entity>)
    ensures positions == Flattened(clean, x)
  {
    hide Offered, KeepNew, UrnSet, EntitiesOf, Roles, InheritAll, Inherit, GroupPositions;
    var standalone := EntitiesOf(x, Positions);
    positions := standalone;
    var seen := UrnSet(standalone);
    var groups := EntitiesOf(x, PositionGroups);
    OfferNone(standalone);
    RolesNext(clean, x, groups, 0);
    for i := 0 to |groups|
      invariant Offered(positions, seen, standalone, Roles(clean, x, groups[..i]))
    {
      positions, seen := AddGroup(clean, x, groups[i], positions, seen, standalone, Roles(clean, x, groups[..i]));
      RolesNext(clean, x, groups, i);
    }
    assert groups[..|groups|] == groups;
    OfferedIs(positions, seen, standalone, Roles(clean, x, groups));
  }

  lemma {:induction false} RolesNext(clean: Clean, x: Extracted, groups: seq<Entity>, i: nat)
    requires i <= |groups|
    ensures Roles(clean, x, groups[..0]) == []
    ensures i < |groups| ==>
              Roles(clean, x, groups[..i + 1]) ==
                Roles(clean, x, groups[..i]) + InheritAll(clean, groups[i], GroupPositions(x, groups[i]))
  {
    assert i < |groups| ==> groups[..i + 1][..i] == groups[..i];
  }

  method AddGroup(clean: Clean, x: Extracted, group: Entity, positions: seq<Entity>, seen: set<Option<string>>,
                  ghost standalone: seq<Entity>, ghost earlier: seq<Entity>)
    returns (positions': seq<Entity>, seen': set<Option<string>>)
    requires Offered(positions, seen, standalone, earlier)
    ensures Offered(positions', seen', standalone, earlier + InheritAll(clean, group, GroupPositions(x, group)))
  {
    hide Offered, Inherit, KeepNew;
    positions', seen' := positions, seen;
    var roles := GroupPositions(x, group);
    assert earlier + InheritAll(clean, group, roles[..0]) == earlier;
    for j := 0 to |roles|
      invariant Offered(positions', seen', standalone, earlier + InheritAll(clean, group, roles[..j]))
    {
      var merged := Inherit(clean, group, roles[j]);
      InheritKeepsUrn(clean, group, roles[j]);
      InheritAllSnoc(clean, group, roles, j, earlier);
      OfferOne(positions', seen', standalone, earlier + InheritAll(clean, group, roles[..j]), merged);
      if PositionUrn(roles[j]) !in seen' {
        seen' := seen' + {PositionUrn(roles[j])};
        positions' := positions' + [merged];
      }
    }
    assert roles[..|roles|] == roles;
  }

  lemma {:induction false} OfferNone(standalone: seq<Entity>)
    ensures Offered(standalone, UrnSet(standalone), standalone, [])
  {
  }

  lemma {:induction false} OfferedIs(positions: seq<Entity>, seen: set<Option<string>>, standalone: seq<Entity>, roles: seq<Entity>)
    requires Offered(positions, seen, standalone, roles)
    ensures positions == standalone + KeepNew(UrnSet(standalone), roles)
  {
  }

  // ------------------------------------------------------------------ what flattening keeps

  lemma {:induction false} KeptUrns(seen: set<Option<string>>, roles: seq<Entity>)
    ensures seen + UrnSet(KeepNew(seen, roles)) == seen + UrnSet(roles)
  {
    if roles != [] {
      var n := |roles| - 1;
      KeptUrns(seen, roles[..n]);
      assert roles == roles[..n] + [roles[n]];
      assert UrnSet(roles) == UrnSet(roles[..n]) + {PositionUrn(roles[n])};
      var kept := KeepNew(seen, roles[..n]);
      assert UrnSet(kept + [roles[n]]) == UrnSet(kept) + {PositionUrn(roles[n])};
    }
  }

  /** A role is kept exactly when neither a standalone position nor an earlier role has its optional URN. */
  lemma {:induction false} KeepsFirstOfEach(seen: set<Option<string>>, roles: seq<Entity>, j: nat)
    requires j < |roles|
    ensures KeepNew(seen, roles[..j + 1]) ==
              KeepNew(seen, roles[..j]) +
              if PositionUrn(roles[j]) in seen + UrnSet(roles[..j]) then [] else [roles[j]]
  {
    KeptUrns(seen, roles[..j]);
    assert roles[..j + 1][..j] == roles[..j];
  }

  /** Standalone positions come first and unchanged, and no role's URN is lost. */
  lemma {:induction false} FlattenedRepresents(clean: Clean, x: Extracted)
    ensures EntitiesOf(x, Positions) <= Flattened(clean, x)
    ensures UrnSet(Flattened(clean, x)) ==
              UrnSet(EntitiesOf(x, Positions)) + UrnSet(Roles(clean, x, EntitiesOf(x, PositionGroups)))
  {
    var standalone, roles := EntitiesOf(x, Positions), Roles(clean, x, EntitiesOf(x, PositionGroups));
    var kept := KeepNew(UrnSet(standalone), roles);
    KeptUrns(UrnSet(standalone), roles);
    assert UrnSet(standalone + kept) == UrnSet(standalone) + UrnSet(kept);
  }

  /** Inheritance never overwrites, adds at most the three company fields, and adds only the group's own values. */
  lemma {:induction false} InheritFillsOnly(clean: Clean, group: Entity, p: Entity, key: string)
    ensures var m := Inherit(clean, group, p);
            && (key in p ==> key in m && m[key] == p[key])
            && (key in m && key !in p ==>
                  || (key == "companyName" && TextOf(clean, group, key).Some? && m[key] == Str(TextOf(clean, group, key).value))
                  || ((key == "companyUrn" || key == "company") && key in group && m[key] == group[key]))
            && (key == "companyUrn" || key == "company" ==> (key in m <==> key in p || key in group))
  {
  }

  // ------------------------------------------------------------------------------ experience

  datatype Organization = Organization(name: Option<string>, urn: Option<string>, universalName: Option<string>,
                                       linkedinUrl: Option<string>, logo: Option<Value>)

  /** An entry of the experience list: its start, its title and company, and what else is told of it. */
  datatype Experience = Experience(year: Option<int>, month: Option<int>, title: Option<string>,
                                   company: Option<Organization>, rest: Value)

  /** The mapper of one position; it drops the ones without title and company name. */
  type View = Entity -> Option<Experience>

  /** Dated before undated, latest start first. */
  predicate Before(a: Experience, b: Experience) {
    match (a.year, b.year)
    case (Some(y), Some(z)) => y > z || (y == z && MonthOf(a) >= MonthOf(b))
    case (Some(_), None) => true
    case (None, Some(_)) => false
    case (None, None) => true
  }

  function MonthOf(e: Experience): int {
    match e.month case Some(m) => m case None => 0
  }

  /** Year and month of the start, month 0 if it is not known; nothing without a year. */
  function StartOf(e: Experience): Option<(int, int)> {
    match e.year
    case Some(year) => Some((year, match e.month case Some(month) => month case None => 0))
    case None => None
  }

  predicate SameKey(a: Experience, b: Experience) {
    StartOf(a) == StartOf(b)
  }

  lemma {:induction false} SameKeyIff(a: Experience, b: Experience)
    ensures SameKey(a, b) <==> Before(a, b) && Before(b, a)
  {
  }

  function MapView(view: View, ps: seq<Entity>): seq<Experience> {
    if ps == [] then []
    else (match view(ps[0]) case Some(e) => [e] case None => []) + MapView(view, ps[1..])
  }

  /** The stable sort by start key. */
  function Insert(e: Experience, sorted: seq<Experience>): seq<Experience> {
    if sorted == [] || Before(e, sorted[0]) then [e] + sorted else [sorted[0]] + Insert(e, sorted[1..])
  }

  function Sort(es: seq<Experience>): seq<Experience> {
    if es == [] then [] else Insert(es[0], Sort(es[1..]))
  }

  function ExperienceOf(view: View, positions: seq<Entity>): seq<Experience> {
    Sort(MapView(view, positions))
  }

  ghost predicate Sorted(es: seq<Experience>) {
    forall i, j :: 0 <= i <= j < |es| ==> Before(es[i], es[j])
  }

  /** The start key tells the entries apart. */
  ghost predicate KeyDetermines(es: seq<Experience>) {
    forall x, y :: x in es && y in es && SameKey(x, y) ==> x == y
  }

  lemma {:induction false} InsertPermutes(e: Experience, sorted: seq<Experience>)
    ensures multiset(Insert(e, sorted)) == multiset([e] + sorted)
    ensures forall x :: x in Insert(e, sorted) ==> x == e || x in sorted
  {
    hide Before;
    if sorted != [] && !Before(e, sorted[0]) {
      InsertPermutes(e, sorted[1..]);
      assert sorted == [sorted[0]] + sorted[1..];
      assert multiset([e] + sorted) == multiset([sorted[0]] + ([e] + sorted[1..]));
    }
  }

  lemma {:induction false} SortedCons(e: Experience, sorted: seq<Experience>)
    requires Sorted(sorted) && forall x :: x in sorted ==> Before(e, x)
    ensures Sorted([e] + sorted)
  {
    hide Before;
    BeforeTransitive(e, e, e);
  }

  lemma {:induction false} SortedTail(sorted: seq<Experience>)
    requires Sorted(sorted) && sorted != []
    ensures Sorted(sorted[1..]) && forall x :: x in sorted ==> Before(sorted[0], x)
  {
    hide Before;
  }

  lemma {:induction false} BeforeTransitive(a: Experience, b: Experience, c: Experience)
    ensures Before(a, b) && Before(b, c) ==> Before(a, c)
    ensures Before(a, b) || Before(b, a)
  {
  }

  lemma {:induction false} InsertSorts(e: Experience, sorted: seq<Experience>)
    requires Sorted(sorted)
    ensures Sorted(Insert(e, sorted))
  {
    hide Before, Sorted;
    if sorted == [] {
      SortedCons(e, sorted);
    } else {
      SortedTail(sorted);
      BeforeTransitive(e, sorted[0], e);
      if Before(e, sorted[0]) {
        forall x | x in sorted ensures Before(e, x) {
          BeforeTransitive(e, sorted[0], x);
        }
        SortedCons(e, sorted);
      } else {
        InsertSorts(e, sorted[1..]);
        InsertPermutes(e, sorted[1..]);
        SortedCons(sorted[0], Insert(e, sorted[1..]));
      }
    }
  }

  /** The result is ordered and a permutation. */
  lemma {:induction false} SortSorts(es: seq<Experience>)
    ensures Sorted(Sort(es)) && multiset(Sort(es)) == multiset(es)
  {
    hide Insert, Before;
    if es != [] {
      SortSorts(es[1..]);
      InsertSorts(es[0], Sort(es[1..]));
      InsertPermutes(es[0], Sort(es[1..]));
      assert es == [es[0]] + es[1..];
    }
  }

  /**
   Newest first: of two dated entries the later one in the list starts no later, by year and then by month,
   and after an undated entry there are only undated ones.
   */
  lemma {:induction false} NewestFirst(view: View, positions: seq<Entity>, i: nat, j: nat)
    requires i < j < |ExperienceOf(view, positions)|
    ensures var a, b := StartOf(ExperienceOf(view, positions)[i]), StartOf(ExperienceOf(view, positions)[j]);
            && (a.None? ==> b.None?)
            && (a.Some? && b.Some? ==> a.value.0 >= b.value.0 && (a.value.0 == b.value.0 ==> a.value.1 >= b.value.1))
  {
    SortSorts(MapView(view, positions));
    var es := ExperienceOf(view, positions);
    assert Before(es[i], es[j]);
  }

  function WithKeyOf(k: Experience, es: seq<Experience>): seq<Experience> {
    if es == [] then [] else (if SameKey(k, es[0]) then [es[0]] else []) + WithKeyOf(k, es[1..])
  }

  /** Entries with equal keys keep their order. */
  lemma {:induction false} SortStable(es: seq<Experience>, k: Experience)
    ensures WithKeyOf(k, Sort(es)) == WithKeyOf(k, es)
  {
    if es != [] {
      SortStable(es[1..], k);
      InsertStable(es[0], Sort(es[1..]), k);
    }
  }

  lemma {:induction false} InsertStable(e: Experience, sorted: seq<Experience>, k: Experience)
    ensures WithKeyOf(k, Insert(e, sorted)) == WithKeyOf(k, [e]) + WithKeyOf(k, sorted)
  {
    assert [e][1..] == [];
    if sorted == [] || Before(e, sorted[0]) {
      assert ([e] + sorted)[1..] == sorted;
    } else {
      InsertStable(e, sorted[1..], k);
      var rest := Insert(e, sorted[1..]);
      assert ([sorted[0]] + rest)[1..] == rest;
    }
  }

  lemma {:induction false} SortedHeads(a: seq<Experience>, b: seq<Experience>)
    requires Sorted(a) && Sorted(b) && multiset(a) == multiset(b) && KeyDetermines(a) && a != [] && b != []
    ensures a[0] == b[0]
  {
    assert a[0] in multiset(b) && b[0] in multiset(a);
    var i :| 0 <= i < |a| && a[i] == b[0];
    var j :| 0 <= j < |b| && b[j] == a[0];
    assert Before(a[0], a[i]) && Before(b[0], b[j]);
    assert SameKey(a[0], a[i]);
  }

  /** When the start key tells entries apart, there is only one ordered arrangement of them. */
  lemma {:induction false} SortedUnique(a: seq<Experience>, b: seq<Experience>)
    requires Sorted(a) && Sorted(b) && multiset(a) == multiset(b) && KeyDetermines(a)
    ensures a == b
  {
    hide Before, SameKey;
    SameLength(a, b);
    if a != [] {
      SortedHeads(a, b);
      TailsPermute(a, b);
      assert forall x :: x in a[1..] ==> x in a;
      SortedUnique(a[1..], b[1..]);
    }
  }

  lemma {:induction false} TailsPermute(a: seq<Experience>, b: seq<Experience>)
    requires a != [] && b != [] && multiset(a) == multiset(b) && a[0] == b[0]
    ensures multiset(a[1..]) == multiset(b[1..])
  {
    assert a == [a[0]] + a[1..] && b == [b[0]] + b[1..];
    assert multiset(a[1..]) == multiset(a) - multiset{a[0]};
    assert multiset(b[1..]) == multiset(b) - multiset{b[0]};
  }

  lemma {:induction false} TakeOut(es: seq<Experience>, x: Experience) returns (rest: seq<Experience>)
    requires x in es
    ensures multiset([x] + rest) == multiset(es)
  {
    var i :| 0 <= i < |es| && es[i] == x;
    rest := es[..i] + es[i + 1..];
    assert es == es[..i] + [es[i]] + es[i + 1..];
  }

  /** Two entries with one key, in either order: the sort keeps whichever came first. */
  lemma {:induction false} TiesKeepOrder(x: Experience, y: Experience, rest: seq<Experience>)
    requires SameKey(x, y) && x != y
    ensures Sort([x, y] + rest) != Sort([y, x] + rest)
  {
    hide Sort, Before;
    var xy, yx := [x, y] + rest, [y, x] + rest;
    SortStable(xy, y);
    SortStable(yx, y);
    SameKeyReflexive(y);
    assert WithKeyOf(y, xy)[0] == x && WithKeyOf(y, yx)[0] == y;
  }

  lemma {:induction false} SameKeyReflexive(x: Experience)
    ensures SameKey(x, x)
  {
  }

  lemma {:induction false} OrderIrrelevant(es: seq<Experience>, fs: seq<Experience>, gs: seq<Experience>)
    requires KeyDetermines(es) && multiset(fs) == multiset(es) == multiset(gs)
    ensures Sort(fs) == Sort(gs)
  {
    hide Sort, SameKey, Before;
    SortSorts(fs);
    SortSorts(gs);
    forall x | x in Sort(fs) ensures x in es {
      assert x in multiset(Sort(fs));
    }
    SortedUnique(Sort(fs), Sort(gs));
  }

  lemma {:induction false} OrderMatters(es: seq<Experience>, x: Experience, y: Experience)
    returns (fs: seq<Experience>, gs: seq<Experience>)
    requires x in es && y in es && SameKey(x, y) && x != y
    ensures multiset(fs) == multiset(es) == multiset(gs) && Sort(fs) != Sort(gs)
  {
    hide Sort, SameKey;
    var others := TakeOut(es, x);
    assert y in multiset([x] + others);
    var rest := TakeOut(others, y);
    fs, gs := [x, y] + rest, [y, x] + rest;
    assert fs == [x] + ([y] + rest) && gs == [y] + ([x] + rest);
    TiesKeepOrder(x, y, rest);
  }

  /** The order in which positions are listed is irrelevant exactly when the start key tells the entries apart. */
  lemma {:induction false} OrderIrrelevantIff(es: seq<Experience>)
    ensures (forall fs, gs :: multiset(fs) == multiset(es) == multiset(gs) ==> Sort(fs) == Sort(gs)) <==> KeyDetermines(es)
  {
    hide Sort, SameKey;
    if KeyDetermines(es) {
      forall fs, gs | multiset(fs) == multiset(es) == multiset(gs) ensures Sort(fs) == Sort(gs) {
        OrderIrrelevant(es, fs, gs);
      }
    } else {
      var x, y :| x in es && y in es && SameKey(x, y) && x != y;
      var fs, gs := OrderMatters(es, x, y);
    }
  }
}
