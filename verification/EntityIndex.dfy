/**
 The URN index over a normalised envelope (src/parser/normalized.rs). The map keeps the
 last item of every URN, since insertion overwrites; the order vector keeps the place of
 the first.
 */
module EntityIndex {
  import opened Common
  import opened Json

  const TYPE_KEY := "$type"
  const URN_KEY := "entityUrn"

  datatype Index = Index(included: map<string, Value>, order: seq<string>, data: Option<Entity>)

  /** The non-empty URN of an item. */
  function UrnOf(item: Value): Option<string> {
    match Get(item, URN_KEY)
    case Some(Str(u)) => if u == "" then None else Some(u)
    case _ => None
  }

  lemma {:induction false} UrnIff(item: Value, urn: string)
    ensures UrnOf(item) == Some(urn) <==>
              urn != "" && item.Obj? && "entityUrn" in item.fields && item.fields["entityUrn"] == Str(urn)
  {
  }

  /** A linear scan for the last item with this URN. */
  function LastWith(items: seq<Value>, urn: string): Option<Value> {
    if items == [] then None
    else
      var last := items[|items| - 1];
      if UrnOf(last) == Some(urn) then Some(last) else LastWith(items[..|items| - 1], urn)
  }

  /** The URNs in the order in which they first occur. */
  function FirstSeen(items: seq<Value>): seq<string> {
    if items == [] then []
    else
      var earlier := FirstSeen(items[..|items| - 1]);
      match UrnOf(items[|items| - 1])
      case None => earlier
      case Some(u) => if u in earlier then earlier else earlier + [u]
  }

  /** The index answers like linear scans over the items. */
  ghost predicate IsIndexOf(ix: Index, items: seq<Value>) {
    && ix.order == FirstSeen(items)
    && (forall u :: u in ix.included <==> u in ix.order)
    && (forall u :: ByUrn(ix, u) == LastWith(items, u))
  }

  function ByUrn(ix: Index, urn: string): Option<Value> {
    if urn in ix.included then Some(ix.included[urn]) else None
  }

  /** The items an envelope lists, if it lists any. */
  function IncludedOf(payload: Value): Option<seq<Value>> {
    match Get(payload, "included")
    case Some(Arr(items)) => Some(items)
    case _ => None
  }

  function DataOf(payload: Value): Option<Entity> {
    match Get(payload, "data")
    case Some(Obj(data)) => Some(data)
    case _ => None
  }

  lemma {:induction false} EnvelopeParts(payload: Value)
    ensures forall items :: IncludedOf(payload) == Some(items) <==>
                              payload.Obj? && "included" in payload.fields && payload.fields["included"] == Arr(items)
    ensures forall data :: DataOf(payload) == Some(data) <==>
                             payload.Obj? && "data" in payload.fields && payload.fields["data"] == Obj(data)
  {
  }

  function ItemsOf(payload: Value): seq<Value> {
    match IncludedOf(payload) case Some(items) => items case None => []
  }

  /** `EntityIndex::new`: one pass over the items. */
  method New(payload: Value) returns (r: Option<Index>)
    ensures r.Some? <==> IncludedOf(payload).Some? || DataOf(payload).Some?
    ensures r.Some? ==> r.value.data == DataOf(payload) && IsIndexOf(r.value, ItemsOf(payload))
  {
    if IncludedOf(payload).None? && DataOf(payload).None? {
      return None;
    }
    var items := ItemsOf(payload);
    var included: map<string, Value> := map[];
    var order: seq<string> := [];
    for i := 0 to |items|
      invariant IsIndexOf(Index(included, order, None), items[..i])
    {
      assert items[..i + 1][..i] == items[..i];
      ghost var before := Index(included, order, None);
      match UrnOf(items[i]) {
        case None =>
          assert forall u :: LastWith(items[..i + 1], u) == LastWith(items[..i], u);
        case Some(urn) =>
          if urn !in included {
            order := order + [urn];
          }
          included := included[urn := items[i]];
          forall u ensures ByUrn(Index(included, order, None), u) == LastWith(items[..i + 1], u) {
            assert ByUrn(before, u) == LastWith(items[..i], u);
          }
      }
    }
    assert items[..|items|] == items;
    var index := Index(included, order, DataOf(payload));
    forall u ensures ByUrn(index, u) == LastWith(items, u) {
      assert ByUrn(Index(included, order, None), u) == LastWith(items, u);
    }
    return Some(index);
  }

  /** The same index as a value, for specifications. */
  function IndexOf(items: seq<Value>, data: Option<Entity>): (ix: Index)
    ensures IsIndexOf(ix, items)
  {
    FirstSeenIsLastWith(items);
    Index(map u | u in FirstSeen(items) :: LastWith(items, u).value, FirstSeen(items), data)
  }

  lemma {:induction false} FirstSeenIsLastWith(items: seq<Value>)
    ensures forall u :: u in FirstSeen(items) <==> LastWith(items, u).Some?
  {
    if items != [] {
      FirstSeenIsLastWith(items[..|items| - 1]);
    }
  }

  /** The scans determine the index: there is only one. */
  lemma {:induction false} IndexUnique(a: Index, b: Index, items: seq<Value>)
    requires IsIndexOf(a, items) && IsIndexOf(b, items) && a.data == b.data
    ensures a == b
  {
    forall u | u in a.included ensures u in b.included && a.included[u] == b.included[u] {
      assert ByUrn(a, u) == LastWith(items, u) == ByUrn(b, u);
    }
    assert a.included.Keys == b.included.Keys;
  }

  ghost predicate NoDuplicates(urns: seq<string>) {
    forall i, j :: 0 <= i < j < |urns| ==> urns[i] != urns[j]
  }

  /** The order holds the URNs that occur, and a longer list only adds to its end. */
  lemma {:induction false} OrderOfOccurrence(items: seq<Value>, k: nat, urn: string)
    requires k <= |items|
    ensures FirstSeen(items[..k]) <= FirstSeen(items)
    ensures urn in FirstSeen(items) <==> exists i :: 0 <= i < |items| && UrnOf(items[i]) == Some(urn)
  {
    hide FirstSeen;
    OrderGrows(items, k);
    OrderHolds(items, urn);
  }

  lemma {:induction false} OrderGrows(items: seq<Value>, k: nat)
    requires k <= |items|
    ensures FirstSeen(items[..k]) <= FirstSeen(items)
  {
    hide UrnOf;
    if k == |items| {
      assert items[..k] == items;
    } else {
      var n := |items| - 1;
      assert items[..n][..k] == items[..k];
      OrderGrows(items[..n], k);
    }
  }

  lemma {:induction false} OrderHolds(items: seq<Value>, urn: string)
    ensures urn in FirstSeen(items) <==> exists i :: 0 <= i < |items| && UrnOf(items[i]) == Some(urn)
  {
    hide UrnOf;
    if items != [] {
      var n := |items| - 1;
      OrderHolds(items[..n], urn);
      assert forall i :: 0 <= i < n ==> items[..n][i] == items[i];
      if i :| 0 <= i < |items| && UrnOf(items[i]) == Some(urn) {
        assert i < n ==> UrnOf(items[..n][i]) == Some(urn);
      }
      if urn in FirstSeen(items[..n]) {
        var i :| 0 <= i < n && UrnOf(items[..n][i]) == Some(urn);
        assert UrnOf(items[i]) == Some(urn);
      }
    }
  }

  lemma {:induction false} OrderHasNoDuplicates(items: seq<Value>)
    ensures NoDuplicates(FirstSeen(items))
  {
    if items != [] {
      OrderHasNoDuplicates(items[..|items| - 1]);
    }
  }

  // ------------------------------------------------------------------------------ by type

  function HasTypeSuffix(t: string, suffixes: seq<string>): bool {
    exists i :: 0 <= i < |suffixes| && EndsWith(t, "." + suffixes[i])
  }

  predicate IsTyped(item: Value, suffixes: seq<string>) {
    match Get(item, TYPE_KEY)
    case Some(Str(t)) => HasTypeSuffix(t, suffixes)
    case _ => false
  }

  /** `of_type`: walk the order, resolve, keep what has one of the suffixes. */
  function OfType(ix: Index, suffixes: seq<string>): seq<Entity> {
    Select(ix, ix.order, suffixes)
  }

  function Select(ix: Index, urns: seq<string>, suffixes: seq<string>): seq<Entity> {
    if urns == [] then []
    else
      var n := |urns| - 1;
      Select(ix, urns[..n], suffixes) +
      match ByUrn(ix, urns[n])
      case Some(item) => if IsTyped(item, suffixes) && item.Obj? then [item.fields] else []
      case None => []
  }

  /** The same by a scan of the items: those with a URN and a wanted type. */
  function TypedItems(items: seq<Value>, suffixes: seq<string>): seq<Entity> {
    if items == [] then []
    else
      var n := |items| - 1;
      TypedItems(items[..n], suffixes) +
      if UrnOf(items[n]).Some? && IsTyped(items[n], suffixes) && items[n].Obj? then [items[n].fields] else []
  }

  ghost predicate DistinctUrns(items: seq<Value>) {
    forall i, j :: 0 <= i < j < |items| && UrnOf(items[i]).Some? ==> UrnOf(items[i]) != UrnOf(items[j])
  }

  /** The items of the first occurrences, each replaced by the last item of its URN. */
  function Resolved(items: seq<Value>): seq<Value> {
    ResolveAll(items, FirstSeen(items))
  }

  function ResolveAll(items: seq<Value>, urns: seq<string>): seq<Value> {
    if urns == [] then []
    else
      var n := |urns| - 1;
      ResolveAll(items, urns[..n]) + match LastWith(items, urns[n]) case Some(v) => [v] case None => []
  }

  lemma {:induction false} TypedAppend(items: seq<Value>, item: Value, suffixes: seq<string>)
    ensures TypedItems(items + [item], suffixes) ==
              TypedItems(items, suffixes) +
              if UrnOf(item).Some? && IsTyped(item, suffixes) && item.Obj? then [item.fields] else []
  {
    assert (items + [item])[..|items|] == items;
  }

  lemma {:induction false} SelectResolved(ix: Index, items: seq<Value>, urns: seq<string>, suffixes: seq<string>)
    requires IsIndexOf(ix, items)
    ensures Select(ix, urns, suffixes) == TypedItems(ResolveAll(items, urns), suffixes)
  {
    if urns != [] {
      var n := |urns| - 1;
      SelectResolved(ix, items, urns[..n], suffixes);
      assert ByUrn(ix, urns[n]) == LastWith(items, urns[n]);
      match LastWith(items, urns[n]) {
        case None =>
          assert ResolveAll(items, urns) == ResolveAll(items, urns[..n]);
        case Some(item) =>
          LastWithUrn(items, urns[n]);
          TypedAppend(ResolveAll(items, urns[..n]), item, suffixes);
      }
    }
  }

  lemma {:induction false} LastWithUrn(items: seq<Value>, urn: string)
    ensures LastWith(items, urn).Some? ==> UrnOf(LastWith(items, urn).value) == Some(urn)
    ensures LastWith(items, urn).Some? ==> LastWith(items, urn).value in items
    ensures LastWith(items, urn).None? ==> forall i :: 0 <= i < |items| ==> UrnOf(items[i]) != Some(urn)
  {
    if items != [] {
      LastWithUrn(items[..|items| - 1], urn);
    }
  }

  /** `of_type` filters the resolved items, in first-occurrence order. */
  lemma {:induction false} OfTypeIsScan(ix: Index, items: seq<Value>, suffixes: seq<string>)
    requires IsIndexOf(ix, items)
    ensures OfType(ix, suffixes) == TypedItems(Resolved(items), suffixes)
  {
    SelectResolved(ix, items, ix.order, suffixes);
  }

  /** When no URN repeats, that is a plain filter of the items themselves. */
  lemma {:induction false} OfTypeOfDistinct(ix: Index, items: seq<Value>, suffixes: seq<string>)
    requires IsIndexOf(ix, items) && DistinctUrns(items)
    ensures OfType(ix, suffixes) == TypedItems(items, suffixes)
  {
    OfTypeIsScan(ix, items, suffixes);
    TypedOfDistinct(items, |items|, suffixes);
    assert items[..|items|] == items;
  }

  lemma {:induction false} LastWithAbsent(items: seq<Value>, urn: string)
    requires forall i :: 0 <= i < |items| ==> UrnOf(items[i]) != Some(urn)
    ensures LastWith(items, urn).None?
  {
    if items != [] {
      LastWithAbsent(items[..|items| - 1], urn);
    }
  }

  lemma {:induction false} LastWithOnly(items: seq<Value>, urn: string, k: nat)
    requires k < |items| && UrnOf(items[k]) == Some(urn)
    requires forall i :: k < i < |items| ==> UrnOf(items[i]) != Some(urn)
    ensures LastWith(items, urn) == Some(items[k])
  {
    if k < |items| - 1 {
      LastWithOnly(items[..|items| - 1], urn, k);
    }
  }

  lemma {:induction false} TypedOfDistinct(items: seq<Value>, k: nat, suffixes: seq<string>)
    requires DistinctUrns(items) && k <= |items|
    ensures TypedItems(ResolveAll(items, FirstSeen(items[..k])), suffixes) == TypedItems(items[..k], suffixes)
  {
    if k > 0 {
      var before, item := items[..k - 1], items[k - 1];
      TypedOfDistinct(items, k - 1, suffixes);
      assert items[..k] == before + [item] && items[..k][..k - 1] == before;
      TypedAppend(before, item, suffixes);
      match UrnOf(item) {
        case None =>
        case Some(u) =>
          LastWithAbsent(before, u);
          FirstSeenIsLastWith(before);
          LastWithOnly(items, u, k - 1);
          var earlier := FirstSeen(before);
          assert FirstSeen(items[..k]) == earlier + [u];
          assert (earlier + [u])[..|earlier|] == earlier;
          assert ResolveAll(items, earlier + [u]) == ResolveAll(items, earlier) + [item];
          TypedAppend(ResolveAll(items, earlier), item, suffixes);
      }
    }
  }

  // ------------------------------------------------------------------------------ pointers

  /** A string that names an indexed entity stands for it. */
  function UnwrapUrn(ix: Index, v: Value): Value {
    match v
    case Str(u) => (match ByUrn(ix, u) case Some(item) => item case None => v)
    case _ => v
  }

  /** `field`: the member itself, or what its `*name` pointer names. */
  function FieldOf(ix: Index, e: Entity, name: string): Option<Value> {
    match Field(e, name)
    case Some(v) => Some(UnwrapUrn(ix, v))
    case None =>
      match Field(e, "*" + name)
      case Some(pointer) => Some(UnwrapUrn(ix, pointer))
      case None => None
  }

  /** An item of a list: an object, or the URN of one. */
  function Item(ix: Index, v: Value): Option<Entity> {
    match v
    case Obj(e) => Some(e)
    case Str(u) => (match ByUrn(ix, u) case Some(Obj(e)) => Some(e) case _ => None)
    case _ => None
  }

  function ResolveItems(ix: Index, items: seq<Value>): seq<Entity> {
    if items == [] then []
    else (match Item(ix, items[0]) case Some(e) => [e] case None => []) + ResolveItems(ix, items[1..])
  }

  /** `elements_named`. */
  function ElementsNamed(ix: Index, e: Entity, name: string): seq<Entity> {
    match FieldOf(ix, e, name)
    case Some(Arr(items)) => ResolveItems(ix, items)
    case Some(Obj(o)) =>
      (match Field(o, "elements")
       case Some(v) => (match UnwrapUrn(ix, v) case Arr(items) => ResolveItems(ix, items) case _ => [])
       case None => [])
    case _ => []
  }

  /** This value is the entity, or the URN of the last listed item with it, which is the entity. */
  ghost predicate Denotes(listed: seq<Value>, v: Value, e: Entity) {
    v == Obj(e) || (v.Str? && LastWith(listed, v.s) == Some(Obj(e)))
  }

  /** This value is the other one, unless it is the URN of a listed item: then that item is. */
  ghost predicate StandsFor(listed: seq<Value>, v: Value, whole: Value) {
    if v.Str? && LastWith(listed, v.s).Some? then LastWith(listed, v.s) == Some(whole) else v == whole
  }

  /** The list itself, or a collection object that holds it, directly or by URN. */
  ghost predicate HoldsList(listed: seq<Value>, v: Value, items: seq<Value>) {
    v == Arr(items) || (v.Obj? && "elements" in v.fields && StandsFor(listed, v.fields["elements"], Arr(items)))
  }

  /** The entities these items denote, in their order; items that denote none are passed over. */
  ghost predicate DenoteAll(listed: seq<Value>, items: seq<Value>, es: seq<Entity>)
    decreases |items|
  {
    if items == [] then es == []
    else
      || (es != [] && Denotes(listed, items[0], es[0]) && DenoteAll(listed, items[1..], es[1..]))
      || ((forall e :: !Denotes(listed, items[0], e)) && DenoteAll(listed, items[1..], es))
  }

  /**
   However a collection is written down, embedded or by pointer, as a list or as a paged object, of
   entities or of their URNs, it reads as the same entities in the same order.
   */
  lemma {:induction false} EncodingsRead(ix: Index, listed: seq<Value>, e: Entity, name: string, v: Value, whole: Value,
                                         items: seq<Value>, es: seq<Entity>)
    requires IsIndexOf(ix, listed)
    requires Field(e, name) == Some(v) || (Field(e, name).None? && Field(e, "*" + name) == Some(v))
    requires StandsFor(listed, v, whole) && HoldsList(listed, whole, items) && DenoteAll(listed, items, es)
    ensures ElementsNamed(ix, e, name) == es
  {
    hide Item, DenoteAll, LastWith, IsIndexOf, ResolveItems, UnwrapUrn;
    ItemsResolve(ix, listed, items, es);
    UnwrapIff(ix, listed, v, whole);
    if whole.Obj? && "elements" in whole.fields {
      UnwrapIff(ix, listed, whole.fields["elements"], Arr(items));
    }
  }

  lemma {:induction false} UnwrapIff(ix: Index, listed: seq<Value>, v: Value, whole: Value)
    requires IsIndexOf(ix, listed)
    ensures StandsFor(listed, v, whole) <==> UnwrapUrn(ix, v) == whole
  {
    hide LastWith;
    if v.Str? {
      assert ByUrn(ix, v.s) == LastWith(listed, v.s);
    }
  }

  lemma {:induction false} ItemIff(ix: Index, listed: seq<Value>, v: Value)
    requires IsIndexOf(ix, listed)
    ensures forall e :: Denotes(listed, v, e) <==> Item(ix, v) == Some(e)
    ensures Item(ix, v).None? <==> forall e :: !Denotes(listed, v, e)
  {
    hide LastWith;
    if v.Str? {
      assert ByUrn(ix, v.s) == LastWith(listed, v.s);
    }
    assert Item(ix, v).Some? ==> Denotes(listed, v, Item(ix, v).value);
  }

  lemma {:induction false} ItemsResolve(ix: Index, listed: seq<Value>, items: seq<Value>, es: seq<Entity>)
    requires IsIndexOf(ix, listed) && DenoteAll(listed, items, es)
    ensures ResolveItems(ix, items) == es
    decreases |items|
  {
    hide Item, IsIndexOf, Denotes;
    if items != [] {
      ItemIff(ix, listed, items[0]);
      if es != [] && Denotes(listed, items[0], es[0]) && DenoteAll(listed, items[1..], es[1..]) {
        ItemsResolve(ix, listed, items[1..], es[1..]);
        assert es == [es[0]] + es[1..];
      } else {
        ItemsResolve(ix, listed, items[1..], es);
      }
    }
  }
}
