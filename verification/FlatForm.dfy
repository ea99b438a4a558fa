/**
 Every embedded record has a flat form: its member record, its positions already flattened and its
 other sections, each entity typed and given a URN of its own. Writing a record down that way loses
 nothing.
 */
module FlatForm {
  import opened Common
  import opened Json
  import opened EntityIndex
  import opened Dash
  import opened Envelopes
  import opened TypeNames

  // ------------------------------------------------------------------------------ rendering

  function Render(items: seq<Item>): seq<Value> {
    if items == [] then [] else Render(items[..|items| - 1]) + [Obj(Tag(items[|items| - 1]))]
  }

  /** The items of one section, in the order of the envelope. */
  function Labelled(items: seq<Item>, s: Option<Section>): seq<Item> {
    if items == [] then []
    else
      var n := |items| - 1;
      Labelled(items[..n], s) + if items[n].section == s then [items[n]] else []
  }

  function Tags(items: seq<Item>): seq<Entity> {
    if items == [] then [] else Tags(items[..|items| - 1]) + [Tag(items[|items| - 1])]
  }

  function Entities(items: seq<Item>): seq<Entity> {
    if items == [] then [] else Entities(items[..|items| - 1]) + [items[|items| - 1].entity]
  }

  /** Every entity has a non-empty URN of its own. */
  ghost predicate OwnUrns(items: seq<Item>) {
    && (forall i :: 0 <= i < |items| ==> UrnOf(Obj(items[i].entity)).Some?)
    && (forall i, j :: 0 <= i < j < |items| ==> UrnOf(Obj(items[i].entity)) != UrnOf(Obj(items[j].entity)))
  }

  lemma {:induction false} RenderAt(items: seq<Item>)
    ensures |Render(items)| == |items|
    ensures forall i :: 0 <= i < |items| ==>
              Render(items)[i] == Obj(Tag(items[i])) && UrnOf(Render(items)[i]) == UrnOf(Obj(items[i].entity))
  {
    hide TypeName;
    if items != [] {
      RenderAt(items[..|items| - 1]);
    }
  }

  lemma {:induction false} TagUrn(item: Item)
    ensures UrnOf(Obj(Tag(item))) == UrnOf(Obj(item.entity))
  {
    hide TypeName;
  }

  /** Filtering the rendered items by types gives the items these types recognise. */
  lemma {:induction false} TypedIsLabelled(items: seq<Item>, suffixes: seq<string>, s: Option<Section>)
    requires OwnUrns(items) && Recognises(suffixes, s)
    ensures TypedItems(Render(items), suffixes) == Tags(Labelled(items, s))
  {
    hide IsTyped, UrnOf, Tag;
    if items != [] {
      var n := |items| - 1;
      var item := items[n];
      TypedIsLabelled(items[..n], suffixes, s);
      TagUrn(item);
      TypedAppend(Render(items[..n]), Obj(Tag(item)), suffixes);
      var earlier := Labelled(items[..n], s);
      if item.section == s {
        assert (earlier + [item])[..|earlier|] == earlier;
      } else {
        assert Labelled(items, s) == earlier + [] == earlier;
        assert TypedItems(Render(items), suffixes) == Tags(earlier) + [] == Tags(earlier);
      }
    }
  }

  /** What the index resolves of the rendered items is the same. */
  lemma {:induction false} ResolvedIsLabelled(items: seq<Item>, suffixes: seq<string>, s: Option<Section>)
    requires OwnUrns(items) && Recognises(suffixes, s)
    ensures TypedItems(Resolved(Render(items)), suffixes) == Tags(Labelled(items, s))
  {
    hide TypedItems, UrnOf, Recognises, Tag;
    RenderAt(items);
    assert Render(items)[..|items|] == Render(items);
    TypedOfDistinct(Render(items), |items|, suffixes);
    TypedIsLabelled(items, suffixes, s);
  }

  lemma {:induction false} TagsBare(items: seq<Item>)
    ensures Bares(Tags(items)) == Bares(Entities(items))
  {
    hide Tag, Bare;
    if items != [] {
      var n := |items| - 1;
      TagsBare(items[..n]);
      TagBare(items[n]);
      BareSnoc(Tags(items[..n]), Tag(items[n]));
      BareSnoc(Entities(items[..n]), items[n].entity);
    }
  }

  lemma {:induction false} TagBare(item: Item)
    ensures Bare(Tag(item)) == Bare(item.entity)
  {
    hide TypeName;
  }

  lemma {:induction false} BareSnoc(es: seq<Entity>, e: Entity)
    ensures Bares(es + [e]) == Bares(es) + [Bare(e)]
  {
    assert (es + [e])[..|es|] == es;
  }

  // ------------------------------------------------------------------------------ naming

  /** Names enough for every entity. */
  type Names = nat -> string

  ghost predicate Distinct(names: Names) {
    (forall i :: names(i) != "") && forall i, j :: i != j ==> names(i) != names(j)
  }

  function Named(names: Names, items: seq<Item>): seq<Item> {
    if items == [] then []
    else
      var n := |items| - 1;
      Named(names, items[..n]) + [items[n].(entity := items[n].entity[URN_KEY := Str(names(n))])]
  }

  lemma {:induction false} NamedAt(names: Names, items: seq<Item>)
    ensures |Named(names, items)| == |items|
    ensures forall i :: 0 <= i < |items| ==>
              && Named(names, items)[i] == items[i].(entity := items[i].entity[URN_KEY := Str(names(i))])
              && (names(i) != "" ==> UrnOf(Obj(Named(names, items)[i].entity)) == Some(names(i)))
  {
    if items != [] {
      NamedAt(names, items[..|items| - 1]);
    }
  }

  lemma {:induction false} NamedOwnUrns(names: Names, items: seq<Item>)
    requires Distinct(names)
    ensures OwnUrns(Named(names, items))
  {
    hide UrnOf;
    NamedAt(names, items);
  }

  /** Naming changes neither the sections nor anything but the URNs. */
  lemma {:induction false} NamedBare(names: Names, items: seq<Item>, s: Option<Section>)
    ensures Bares(Entities(Labelled(Named(names, items), s))) == Bares(Entities(Labelled(items, s)))
  {
    hide Bare, Bares, Labelled, Entities;
    if items != [] {
      var n := |items| - 1;
      var item := items[n].(entity := items[n].entity[URN_KEY := Str(names(n))]);
      NamedBare(names, items[..n], s);
      LabelledBare(Named(names, items[..n]), item, s);
      LabelledBare(items[..n], items[n], s);
      assert items == items[..n] + [items[n]];
      NamedItemBare(items[n].entity, names(n));
    }
  }

  lemma {:induction false} NamedItemBare(e: Entity, name: string)
    ensures Bare(e[URN_KEY := Str(name)]) == Bare(e)
  {
  }

  lemma {:induction false} LabelledBare(items: seq<Item>, item: Item, s: Option<Section>)
    ensures Bares(Entities(Labelled(items + [item], s))) ==
              Bares(Entities(Labelled(items, s))) + if item.section == s then [Bare(item.entity)] else []
  {
    hide Bare, Bares, Labelled, Entities;
    LabelledSnoc(items, item, s);
    if item.section == s {
      LabelledSnoc(Labelled(items, s), item, s);
      BareSnoc(Entities(Labelled(items, s)), item.entity);
    } else {
      assert Labelled(items, s) + [] == Labelled(items, s);
    }
  }

  // ------------------------------------------------------------------------------ the flat form

  /** The sections copied as they are. */
  const SECTIONS: seq<Section> := [
    Educations, Skills, Certifications, Languages, Projects, Publications,
    Honors, Volunteering, Courses, Patents, TestScores, Organizations
  ]

  function ItemsFor(package: string, s: Section, es: seq<Entity>): seq<Item> {
    if es == [] then []
    else ItemsFor(package, s, es[..|es| - 1]) + [Item.Item(Some(s), package, true, es[|es| - 1])]
  }

  function Copied(package: string, x: Extracted, ss: seq<Section>): seq<Item> {
    if ss == [] then []
    else Copied(package, x, ss[..|ss| - 1]) + ItemsFor(package, ss[|ss| - 1], EntitiesOf(x, ss[|ss| - 1]))
  }

  function PlainItems(package: string, x: Extracted, positions: seq<Entity>): seq<Item> {
    [Item.Item(None, package, false, x.root)] + (ItemsFor(package, Positions, positions) + Copied(package, x, SECTIONS))
  }

  /** The record written down with these positions. */
  function FlatItems(package: string, names: Names, x: Extracted, positions: seq<Entity>): seq<Item> {
    Named(names, PlainItems(package, x, positions))
  }

  function FlatPayload(package: string, names: Names, x: Extracted, positions: seq<Entity>): Value {
    Obj(map["included" := Arr(Render(FlatItems(package, names, x, positions)))])
  }

  lemma {:induction false} LabelledAppend(a: seq<Item>, b: seq<Item>, s: Option<Section>)
    ensures Labelled(a + b, s) == Labelled(a, s) + Labelled(b, s)
  {
    if b == [] {
      assert a + b == a;
    } else {
      var n := |b| - 1;
      assert (a + b)[..|a| + n] == a + b[..n];
      LabelledAppend(a, b[..n], s);
    }
  }

  lemma {:induction false} LabelledSnoc(items: seq<Item>, item: Item, s: Option<Section>)
    ensures Labelled(items + [item], s) == Labelled(items, s) + if item.section == s then [item] else []
    ensures Entities(items + [item]) == Entities(items) + [item.entity]
  {
    assert (items + [item])[..|items|] == items;
  }

  lemma {:induction false} LabelledItems(package: string, s: Section, es: seq<Entity>, t: Section)
    ensures Labelled(ItemsFor(package, s, es), Some(t)) == if s == t then ItemsFor(package, s, es) else []
    ensures Entities(ItemsFor(package, s, es)) == es
  {
    hide Labelled, Entities;
    LabelledNothing(Some(t));
    if es != [] {
      var n := |es| - 1;
      LabelledItems(package, s, es[..n], t);
      LabelledNext(package, s, ItemsFor(package, s, es[..n]), es[n], t);
      assert es == es[..n] + [es[n]];
    }
  }

  lemma {:induction false} LabelledNext(package: string, s: Section, earlier: seq<Item>, e: Entity, t: Section)
    requires Labelled(earlier, Some(t)) == if s == t then earlier else []
    ensures var items := earlier + [Item.Item(Some(s), package, true, e)];
            && Labelled(items, Some(t)) == (if s == t then items else [])
            && Entities(items) == Entities(earlier) + [e]
  {
    hide Labelled, Entities;
    LabelledSnoc(earlier, Item.Item(Some(s), package, true, e), Some(t));
  }

  /** The copied part holds each of its sections once, with the entities in their order. */
  lemma {:induction false} LabelledCopied(package: string, x: Extracted, ss: seq<Section>, s: Section)
    requires forall i, j :: 0 <= i < j < |ss| ==> ss[i] != ss[j]
    ensures Labelled(Copied(package, x, ss), Some(s)) == if s in ss then ItemsFor(package, s, EntitiesOf(x, s)) else []
  {
    hide ItemsFor, EntitiesOf, Labelled, Entities;
    LabelledNothing(Some(s));
    if ss != [] {
      var n := |ss| - 1;
      LabelledCopied(package, x, ss[..n], s);
      LabelledAppend(Copied(package, x, ss[..n]), ItemsFor(package, ss[n], EntitiesOf(x, ss[n])), Some(s));
      LabelledItems(package, ss[n], EntitiesOf(x, ss[n]), s);
      assert ss == ss[..n] + [ss[n]];
    }
  }

  lemma {:induction false} LabelledNothing(s: Option<Section>)
    ensures Labelled([], s) == [] && Entities([]) == []
  {
  }

  lemma {:induction false} LabelledMember(package: string, root: Entity, s: Section)
    ensures Labelled([Item.Item(None, package, false, root)], Some(s)) == []
  {
    assert [Item.Item(None, package, false, root)][..0] == [];
  }

  lemma {:induction false} SectionsListed(s: Section)
    ensures s in SECTIONS <==> s != Positions && s != PositionGroups
    ensures forall i, j :: 0 <= i < j < |SECTIONS| ==> SECTIONS[i] != SECTIONS[j]
  {
    match s {
      case Educations => assert SECTIONS[0] == s;
      case Skills => assert SECTIONS[1] == s;
      case Certifications => assert SECTIONS[2] == s;
      case Languages => assert SECTIONS[3] == s;
      case Projects => assert SECTIONS[4] == s;
      case Publications => assert SECTIONS[5] == s;
      case Honors => assert SECTIONS[6] == s;
      case Volunteering => assert SECTIONS[7] == s;
      case Courses => assert SECTIONS[8] == s;
      case Patents => assert SECTIONS[9] == s;
      case TestScores => assert SECTIONS[10] == s;
      case Organizations => assert SECTIONS[11] == s;
      case _ =>
    }
  }

  lemma {:induction false} LabelledPlain(package: string, x: Extracted, positions: seq<Entity>, s: Section)
    ensures Labelled(PlainItems(package, x, positions), Some(s)) ==
              if s == Positions then ItemsFor(package, s, positions)
              else if s == PositionGroups then []
              else ItemsFor(package, s, EntitiesOf(x, s))
  {
    hide ItemsFor, EntitiesOf, Labelled, Copied;
    var member, listed, copied :=
      [Item.Item(None, package, false, x.root)], ItemsFor(package, Positions, positions), Copied(package, x, SECTIONS);
    LabelledAppend(member, listed + copied, Some(s));
    LabelledAppend(listed, copied, Some(s));
    LabelledMember(package, x.root, s);
    LabelledItems(package, Positions, positions, s);
    SectionsListed(s);
    LabelledCopied(package, x, SECTIONS, s);
  }

  lemma {:induction false} FirstMemberLooks(candidates: seq<Entity>)
    ensures FirstMember(candidates).Some? ==> LooksLikeMember(FirstMember(candidates).value)
  {
    if candidates != [] {
      FirstMemberLooks(candidates[1..]);
    }
  }

  lemma {:induction false} EmbeddedRootLooks(embedded: Value, x: Extracted)
    requires Extract(embedded) == Some(x) && x.env.Embedded?
    ensures LooksLikeMember(x.root)
  {
    match Field(embedded.fields, "elements") {
      case Some(Arr(items)) => FirstMemberLooks(Objects(items));
      case _ =>
    }
  }

  /** Modulo names and URNs a section of the flat form holds what is written into it. */
  lemma {:induction false} FlatSection(package: string, names: Names, x: Extracted, positions: seq<Entity>, s: Section)
    requires Distinct(names)
    ensures Bares(Listed(Render(FlatItems(package, names, x, positions)), s)) ==
              if s == Positions then Bares(positions)
              else if s == PositionGroups then []
              else Bares(EntitiesOf(x, s))
    ensures s == PositionGroups ==> Listed(Render(FlatItems(package, names, x, positions)), s) == []
  {
    hide Labelled, Tags, Entities, Bares, Named, PlainItems, TypedItems, Resolved, Render, OwnUrns, Recognises, Distinct,
         EntitiesOf, ItemsFor, SuffixesOf;
    var plain := PlainItems(package, x, positions);
    var named := Named(names, plain);
    SectionRecognised(s);
    NamedOwnUrns(names, plain);
    ResolvedIsLabelled(named, SuffixesOf(s), Some(s));
    TagsBare(Labelled(named, Some(s)));
    NamedBare(names, plain, Some(s));
    LabelledPlain(package, x, positions, s);
    LabelledItems(package, s, if s == Positions then positions else EntitiesOf(x, s), s);
    LabelledNothing(Some(s));
    NothingBare();
    BaresEmpty(Tags(Labelled(named, Some(s))));
  }

  lemma {:induction false} NothingBare()
    ensures Bares([]) == []
  {
  }

  lemma {:induction false} BaresEmpty(es: seq<Entity>)
    ensures Bares(es) == [] ==> es == []
  {
    BaresAt(es);
  }

  /** The one member record of the flat form is that of x. */
  lemma {:induction false} FlatMember(package: string, names: Names, x: Extracted, positions: seq<Entity>)
    requires Distinct(names) && LooksLikeMember(x.root)
    ensures var members := ListedMembers(Render(FlatItems(package, names, x, positions)));
            |members| == 1 && Bare(members[0]) == Bare(x.root)
  {
    hide Labelled, Tags, Entities, Bares, Named, PlainItems, TypedItems, Resolved, Render, OwnUrns, Recognises, Distinct,
         Bare, LooksLikeMember, Members;
    var plain := PlainItems(package, x, positions);
    var named := Named(names, plain);
    MembersRecognised();
    NamedOwnUrns(names, plain);
    ResolvedIsLabelled(named, PROFILE_SUFFIXES, None);
    TagsBare(Labelled(named, None));
    NamedBare(names, plain, None);
    PlainMember(package, x, positions);
    OneMember(Tags(Labelled(named, None)), x.root);
  }

  lemma {:induction false} PlainMember(package: string, x: Extracted, positions: seq<Entity>)
    ensures Entities(Labelled(PlainItems(package, x, positions), None)) == [x.root]
  {
    hide ItemsFor, EntitiesOf;
    var member := [Item.Item(None, package, false, x.root)];
    var listed, copied := ItemsFor(package, Positions, positions), Copied(package, x, SECTIONS);
    LabelledAppend(member, listed + copied, None);
    LabelledAppend(listed, copied, None);
    ItemsNoMember(package, Positions, positions);
    CopiedNoMember(package, x, SECTIONS);
    assert member[..0] == [] && Labelled(member, None) == member;
    assert Entities(member) == [x.root];
  }

  lemma {:induction false} ItemsNoMember(package: string, s: Section, es: seq<Entity>)
    ensures Labelled(ItemsFor(package, s, es), None) == []
  {
    hide Labelled;
    LabelledNothing(None);
    if es != [] {
      var n := |es| - 1;
      ItemsNoMember(package, s, es[..n]);
      LabelledSnoc(ItemsFor(package, s, es[..n]), Item.Item(Some(s), package, true, es[n]), None);
    }
  }

  lemma {:induction false} CopiedNoMember(package: string, x: Extracted, ss: seq<Section>)
    ensures Labelled(Copied(package, x, ss), None) == []
  {
    hide Labelled, ItemsFor, EntitiesOf;
    LabelledNothing(None);
    if ss != [] {
      var n := |ss| - 1;
      CopiedNoMember(package, x, ss[..n]);
      ItemsNoMember(package, ss[n], EntitiesOf(x, ss[n]));
      LabelledAppend(Copied(package, x, ss[..n]), ItemsFor(package, ss[n], EntitiesOf(x, ss[n])), None);
    }
  }

  /** A single record that is a member record up to its names is kept. */
  lemma {:induction false} OneMember(es: seq<Entity>, root: Entity)
    requires Bares(es) == Bares([root]) && LooksLikeMember(root)
    ensures |Members(es)| == 1 && Bare(Members(es)[0]) == Bare(root)
  {
    BaresAt(es);
    BaresAt([root]);
    assert |es| == 1 && Bare(es[0]) == Bares(es)[0] == Bares([root])[0] == Bare(root);
    BareLooks(es[0]);
    BareLooks(root);
    assert Members(es[1..]) == [];
  }

  lemma {:induction false} BareLooks(e: Entity)
    ensures LooksLikeMember(Bare(e)) == LooksLikeMember(e)
  {
    forall key | key == "firstName" || key == "lastName" || key == "publicIdentifier" || key == "headline"
      ensures key in Bare(e) <==> key in e
    {
      assert key[0] != TYPE_KEY[0] && key[0] != URN_KEY[0];
    }
  }

  /** The flat form lists the record, its positions even in their order. */
  lemma {:induction false} FlatMirrors(package: string, names: Names, x: Extracted, clean: Clean)
    requires LooksLikeMember(x.root) && Distinct(names)
    ensures Mirrors(Render(FlatItems(package, names, x, Flattened(clean, x))), None, x, clean)
    ensures Bares(Listed(Render(FlatItems(package, names, x, Flattened(clean, x))), Positions)) == Bares(Flattened(clean, x))
  {
    hide LooksLikeMember, EntitiesOf, Flattened, ElementsNamed, IndexOf, Render, FlatItems, Listed, ListedMembers, Bares, Bare, Distinct;
    FlatMember(package, names, x, Flattened(clean, x));
    forall s ensures Bares(Listed(Render(FlatItems(package, names, x, Flattened(clean, x))), s)) ==
                       if s == Positions then Bares(Flattened(clean, x))
                       else if s == PositionGroups then []
                       else Bares(EntitiesOf(x, s))
    {
      FlatSection(package, names, x, Flattened(clean, x), s);
    }
    FlatSection(package, names, x, Flattened(clean, x), PositionGroups);
  }

  /**
   Whatever its entities are called, and whether they have URNs at all, an embedded record can be
   rewritten as a flat envelope that means the same profile and yields the same member record. Start
   keys may coincide, since the positions keep their order.
   */
  lemma {:induction false} FlatFormAgrees(package: string, names: Names, embedded: Value, x: Extracted, clean: Clean, view: View)
    requires Extract(embedded) == Some(x) && x.env.Embedded? && Distinct(names) && IgnoresName(view)
    ensures Extract(FlatPayload(package, names, x, Flattened(clean, x))).Some?
    ensures SameProfile(Extract(FlatPayload(package, names, x, Flattened(clean, x))).value, x, clean, view)
    ensures Bare(Extract(FlatPayload(package, names, x, Flattened(clean, x))).value.root) == Bare(x.root)
  {
    hide Extract, FlatItems, Flattened, EntitiesOf, MapView, Render, Mirrors, LooksLikeMember, SameProfile,
         Distinct, IgnoresName, Bare, Bares, ListedMembers, Listed, Picked;
    EmbeddedRootLooks(embedded, x);
    FlatMirrors(package, names, x, clean);
    FlatMember(package, names, x, Flattened(clean, x));
    var flat, included := FlatPayload(package, names, x, Flattened(clean, x)), Render(FlatItems(package, names, x, Flattened(clean, x)));
    PayloadParts(package, names, x, Flattened(clean, x));
    EnvelopesAgreeInOrder(x, flat, included, clean, view);
    RootsAgreeIff(x, flat, included, 0);
    OnlyMemberPicked(ListedMembers(included), None);
  }

  lemma {:induction false} OnlyMemberPicked(members: seq<Entity>, data: Option<Entity>)
    requires |members| == 1
    ensures Picked(members, data, 0)
  {
    hide IsNamed;
  }

  lemma {:induction false} PayloadParts(package: string, names: Names, x: Extracted, positions: seq<Entity>)
    ensures IncludedOf(FlatPayload(package, names, x, positions)) == Some(Render(FlatItems(package, names, x, positions)))
    ensures DataOf(FlatPayload(package, names, x, positions)) == None
  {
  }
}
