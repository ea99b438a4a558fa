/**
 What the embedded Dash envelope is read as (`extract`, `embedded_root` and `elements_from_value`,
 src/parser/dash.rs): the member record and the lists it holds, by the keys of the JSON alone.
 */
module EmbeddedForm {
  import opened Common
  import opened Json
  import opened EntityIndex
  import opened Dash
  import opened TypeNames

  // ------------------------------------------------------------------------------ the member record

  /** A record with a name, a public identifier or a headline. */
  ghost predicate Identified(v: Value) {
    v.Obj? && exists key :: key in v.fields && key in MEMBER_KEYS
  }

  lemma {:induction false} IdentifiedIff(v: Value)
    ensures Identified(v) <==> v.Obj? && LooksLikeMember(v.fields)
  {
    if v.Obj? && LooksLikeMember(v.fields) {
      var key := if "firstName" in v.fields then "firstName" else if "lastName" in v.fields then "lastName"
        else if "publicIdentifier" in v.fields then "publicIdentifier" else "headline";
      assert key in v.fields && key in MEMBER_KEYS;
    }
  }

  /** The k-th item is the first identified one. */
  ghost predicate FirstIdentified(items: seq<Value>, k: nat) {
    k < |items| && Identified(items[k]) && forall j :: 0 <= j < k ==> !Identified(items[j])
  }

  lemma {:induction false} FirstMemberCons(items: seq<Value>)
    requires items != []
    ensures FirstMember(Objects(items)) ==
              if items[0].Obj? && LooksLikeMember(items[0].fields) then Some(items[0].fields)
              else FirstMember(Objects(items[1..]))
  {
    hide LooksLikeMember;
    if items[0].Obj? {
      assert Objects(items)[1..] == Objects(items[1..]);
    } else {
      assert Objects(items) == Objects(items[1..]);
    }
  }

  lemma {:induction false} FirstMemberAt(items: seq<Value>) returns (k: nat)
    ensures match FirstMember(Objects(items))
            case None => forall j :: 0 <= j < |items| ==> !Identified(items[j])
            case Some(e) => FirstIdentified(items, k) && items[k] == Obj(e)
  {
    hide LooksLikeMember, Identified;
    k := 0;
    if items != [] {
      IdentifiedIff(items[0]);
      FirstMemberCons(items);
      if !Identified(items[0]) {
        var rest := FirstMemberAt(items[1..]);
        k := rest + 1;
        assert forall j :: 0 < j < |items| ==> items[j] == items[1..][j - 1];
      }
    }
  }

  /** The items of the payload's own `elements`. */
  function ElementsOf(payload: Entity): seq<Value> {
    match Field(payload, "elements") case Some(Arr(items)) => items case _ => []
  }

  /**
   The member record of a payload that is not a flat envelope: the first identified element, or else the
   payload itself; without either there is no profile.
   */
  lemma {:induction false} EmbeddedRootIff(payload: Entity, root: Entity)
    requires "included" !in payload && "data" !in payload
    ensures var items := ElementsOf(payload);
            (Extract(Obj(payload)).Some? && Extract(Obj(payload)).value.root == root) <==>
            if exists k: nat :: FirstIdentified(items, k) then exists k: nat :: FirstIdentified(items, k) && items[k] == Obj(root)
            else Identified(Obj(payload)) && root == payload
    ensures Extract(Obj(payload)).Some? ==> Extract(Obj(payload)).value.env == Embedded
  {
    hide LooksLikeMember, Identified, Collections;
    IdentifiedIff(Obj(payload));
    var items := ElementsOf(payload);
    if "elements" in payload && payload["elements"].Arr? {
      var k := FirstMemberAt(items);
      if FirstMember(Objects(items)).Some? {
        assert FirstIdentified(items, k);
        forall j: nat | FirstIdentified(items, j) ensures j == k {
        }
      }
    }
  }

  // ------------------------------------------------------------------------------ the sections

  /** The list itself, or an object that holds it as its `elements`. */
  ghost predicate Lists(v: Value, items: seq<Value>) {
    v == Arr(items) || (v.Obj? && "elements" in v.fields && v.fields["elements"] == Arr(items))
  }

  /** These are the objects among the items: as many, each in its place. */
  ghost predicate ObjectsOf(items: seq<Value>, es: seq<Entity>) {
    if items == [] then es == []
    else if items[|items| - 1].Obj? then
      es != [] && es[|es| - 1] == items[|items| - 1].fields && ObjectsOf(items[..|items| - 1], es[..|es| - 1])
    else ObjectsOf(items[..|items| - 1], es)
  }

  lemma {:induction false} ObjectsAppend(a: seq<Value>, b: seq<Value>)
    ensures Objects(a + b) == Objects(a) + Objects(b)
  {
    if a == [] {
      assert a + b == b;
    } else {
      assert (a + b)[0] == a[0] && (a + b)[1..] == a[1..] + b;
      ObjectsAppend(a[1..], b);
      ConsAppend(if a[0].Obj? then [a[0].fields] else [], Objects(a[1..]), Objects(b));
    }
  }

  lemma {:induction false} ConsAppend<T>(a: seq<T>, b: seq<T>, c: seq<T>)
    ensures a + (b + c) == (a + b) + c
  {
  }

  lemma {:induction false} ObjectsIff(items: seq<Value>, es: seq<Entity>)
    ensures ObjectsOf(items, es) <==> es == Objects(items)
  {
    if items != [] {
      var n := |items| - 1;
      assert items == items[..n] + [items[n]];
      ObjectsAppend(items[..n], [items[n]]);
      assert [items[n]][1..] == [];
      if items[n].Obj? {
        if es != [] {
          ObjectsIff(items[..n], es[..|es| - 1]);
          assert es == es[..|es| - 1] + [es[|es| - 1]];
        }
      } else {
        ObjectsIff(items[..n], es);
      }
    }
  }

  /** The key of a section in the embedded envelope is made of the short name of its type. */
  lemma {:induction false} KeyNamesType(s: Section)
    ensures KeyOf(s) == "profile" + ShortSuffix(s) + "s"
  {
    hide KeyOf, ShortSuffix;
    if EarlySection(s) {
      EarlyKeys(s);
    } else {
      LateKeys(s);
    }
  }

  predicate EarlySection(s: Section) {
    s.PositionGroups? || s.Positions? || s.Educations? || s.Skills? || s.Certifications? || s.Languages? || s.Projects?
  }

  lemma {:induction false} EarlyKeys(s: Section)
    requires EarlySection(s)
    ensures KeyOf(s) == "profile" + ShortSuffix(s) + "s"
  {
    match s
    case PositionGroups => assert KeyOf(PositionGroups) == "profile" + ShortSuffix(PositionGroups) + "s";
    case Positions => assert KeyOf(Positions) == "profile" + ShortSuffix(Positions) + "s";
    case Educations => assert KeyOf(Educations) == "profile" + ShortSuffix(Educations) + "s";
    case Skills => assert KeyOf(Skills) == "profile" + ShortSuffix(Skills) + "s";
    case Certifications => assert KeyOf(Certifications) == "profile" + ShortSuffix(Certifications) + "s";
    case Languages => assert KeyOf(Languages) == "profile" + ShortSuffix(Languages) + "s";
    case Projects => assert KeyOf(Projects) == "profile" + ShortSuffix(Projects) + "s";
    case _ =>
  }

  lemma {:induction false} LateKeys(s: Section)
    requires !EarlySection(s)
    ensures KeyOf(s) == "profile" + ShortSuffix(s) + "s"
  {
    match s
    case Publications => assert KeyOf(Publications) == "profile" + ShortSuffix(Publications) + "s";
    case Honors => assert KeyOf(Honors) == "profile" + ShortSuffix(Honors) + "s";
    case Volunteering => assert KeyOf(Volunteering) == "profile" + ShortSuffix(Volunteering) + "s";
    case Courses => assert KeyOf(Courses) == "profile" + ShortSuffix(Courses) + "s";
    case Patents => assert KeyOf(Patents) == "profile" + ShortSuffix(Patents) + "s";
    case TestScores => assert KeyOf(TestScores) == "profile" + ShortSuffix(TestScores) + "s";
    case Organizations => assert KeyOf(Organizations) == "profile" + ShortSuffix(Organizations) + "s";
    case _ =>
  }

  /** A section of an embedded profile: the objects listed under its key, and nothing where no list is. */
  lemma {:induction false} EmbeddedSection(payload: Entity, s: Section, items: seq<Value>, es: seq<Entity>)
    requires "included" !in payload && "data" !in payload && Extract(Obj(payload)).Some?
    ensures var x, key := Extract(Obj(payload)).value, "profile" + ShortSuffix(s) + "s";
            && (key in x.root && Lists(x.root[key], items) && ObjectsOf(items, es) ==> EntitiesOf(x, s) == es)
            && ((key in x.root ==> forall list :: !Lists(x.root[key], list)) ==> EntitiesOf(x, s) == [])
  {
    hide KeyOf, ShortSuffix, EmbeddedRoot, Objects, ObjectsOf;
    KeyNamesType(s);
    ObjectsIff(items, es);
    var x := Extract(Obj(payload)).value;
    assert EntitiesOf(x, s) == match Field(x.root, KeyOf(s)) case Some(v) => ElementsFromValue(v) case None => [];
    if Field(x.root, KeyOf(s)).Some? {
      ListsIff(x.root[KeyOf(s)], items);
    }
  }

  lemma {:induction false} ListsIff(v: Value, items: seq<Value>)
    ensures Lists(v, items) ==> ElementsFromValue(v) == Objects(items)
    ensures (forall list :: !Lists(v, list)) ==> ElementsFromValue(v) == []
  {
    hide Objects;
    if v.Arr? {
      assert Lists(v, v.items);
    } else if v.Obj? && "elements" in v.fields && v.fields["elements"].Arr? {
      assert Lists(v, v.fields["elements"].items);
    }
  }

  /** So are the roles of a position group. */
  lemma {:induction false} EmbeddedGroup(x: Extracted, group: Entity, items: seq<Value>, es: seq<Entity>)
    requires x.env.Embedded? && "profilePositionInPositionGroup" in group
    requires Lists(group["profilePositionInPositionGroup"], items) && ObjectsOf(items, es)
    ensures GroupPositions(x, group) == es
  {
    hide Objects, ObjectsOf;
    ObjectsIff(items, es);
    ListsIff(group["profilePositionInPositionGroup"], items);
  }
}
