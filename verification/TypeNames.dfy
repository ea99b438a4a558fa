/**
 Entities of a flat envelope, written with a type name. The name of a section's type may use either
 suffix and any package; it is recognised as that section's and no other's.
 */
module TypeNames {
  import opened Common
  import opened Json
  import opened EntityIndex
  import opened Dash

  /** A section entity, or a member record. */
  datatype Item = Item(section: Option<Section>, package: string, long: bool, entity: Entity)

  function SuffixOf(item: Item): string {
    match item.section
    case None => "Profile"
    case Some(s) => if item.long then "Profile" + ShortSuffix(s) else ShortSuffix(s)
  }

  function TypeName(item: Item): string {
    item.package + "." + SuffixOf(item)
  }

  function Tag(item: Item): Entity {
    item.entity[TYPE_KEY := Str(TypeName(item))]
  }

  lemma {:induction false} ShortSuffixPlain(s: Section)
    ensures '.' !in ShortSuffix(s) && |ShortSuffix(s)| >= 5
    ensures ShortSuffix(s)[0] == 'P' && ShortSuffix(s)[1] == 'r' ==> ShortSuffix(s)[3] == 'j'
  {
  }

  lemma {:induction false} ShortSuffixInjective(s: Section, t: Section)
    requires ShortSuffix(s) == ShortSuffix(t)
    ensures s == t
  {
  }

  lemma {:induction false} SuffixPlain(item: Item)
    ensures '.' !in SuffixOf(item)
  {
    if item.section.Some? {
      ShortSuffixPlain(item.section.value);
    }
  }

  /** Whatever the package, a type name ends in "." + y exactly when its last segment is y. */
  lemma {:induction false} EndsWithSegment(package: string, x: string, y: string)
    requires '.' !in x && '.' !in y
    ensures EndsWith(package + "." + x, "." + y) <==> x == y
  {
    var t := package + "." + x;
    var tail := "." + y;
    if x == y {
      assert t[|package|..] == tail;
    }
    if EndsWith(t, tail) {
      var at := |t| - |tail|;
      assert t[at..] == tail;
      assert t[at] == '.' && t[|package|] == '.';
      assert forall i :: |package| < i < |t| ==> t[i] == x[i - |package| - 1];
      assert forall i :: at < i < |t| ==> t[i] == tail[i - at] == y[i - at - 1];
      assert at == |package|;
      assert x == t[|package| + 1..] == y;
    }
  }

  lemma {:induction false} LongIsNotShort(s: Section, t: Section)
    ensures "Profile" + ShortSuffix(s) != ShortSuffix(t)
    ensures "Profile" != ShortSuffix(t) && "Profile" != "Profile" + ShortSuffix(t)
    ensures "Profile" + ShortSuffix(s) == "Profile" + ShortSuffix(t) ==> s == t
  {
    ShortSuffixPlain(s);
    ShortSuffixPlain(t);
    var long := "Profile" + ShortSuffix(s);
    assert long[0] == 'P' && long[1] == 'r' && long[3] == 'f';
    if long == "Profile" + ShortSuffix(t) {
      assert ShortSuffix(s) == long[7..] == ShortSuffix(t);
      ShortSuffixInjective(s, t);
    }
  }

  /** The type names of one section are recognised as that section's and no other's. */
  lemma {:induction false} TypeRecognised(item: Item, s: Section)
    ensures HasTypeSuffix(TypeName(item), SuffixesOf(s)) <==> item.section == Some(s)
  {
    hide ShortSuffix;
    var x := SuffixOf(item);
    SuffixPlain(item);
    ShortSuffixPlain(s);
    EndsWithSegment(item.package, x, "Profile" + ShortSuffix(s));
    EndsWithSegment(item.package, x, ShortSuffix(s));
    assert SuffixesOf(s)[0] == "Profile" + ShortSuffix(s) && SuffixesOf(s)[1] == ShortSuffix(s);
    match item.section {
      case None => LongIsNotShort(s, s);
      case Some(t) =>
        LongIsNotShort(s, t);
        LongIsNotShort(t, s);
        if ShortSuffix(s) == ShortSuffix(t) {
          ShortSuffixInjective(s, t);
        }
    }
  }

  /** What these suffixes pick out: the items of one section, or the member records. */
  ghost predicate Recognises(suffixes: seq<string>, s: Option<Section>) {
    forall item: Item :: IsTyped(Obj(Tag(item)), suffixes) <==> item.section == s
  }

  lemma {:induction false} SectionRecognised(s: Section)
    ensures Recognises(SuffixesOf(s), Some(s))
  {
    forall item: Item ensures IsTyped(Obj(Tag(item)), SuffixesOf(s)) <==> item.section == Some(s) {
      TypeRecognised(item, s);
    }
  }

  lemma {:induction false} MembersRecognised()
    ensures Recognises(PROFILE_SUFFIXES, None)
  {
    hide SuffixOf;
    forall item: Item ensures IsTyped(Obj(Tag(item)), PROFILE_SUFFIXES) <==> item.section == None {
      var t, x := TypeName(item), SuffixOf(item);
      SuffixPlain(item);
      ProfileSuffix(item);
      EndsWithSegment(item.package, x, "Profile");
      LongerSuffix(t);
      assert PROFILE_SUFFIXES[0] == "profile.Profile" && PROFILE_SUFFIXES[1] == "Profile";
    }
  }

  lemma {:induction false} ProfileSuffix(item: Item)
    ensures SuffixOf(item) == "Profile" <==> item.section == None
  {
    if item.section.Some? {
      LongIsNotShort(item.section.value, item.section.value);
    }
  }

  lemma {:induction false} LongerSuffix(t: string)
    ensures EndsWith(t, "." + "profile.Profile") ==> EndsWith(t, "." + "Profile")
  {
    var long, short := "." + "profile.Profile", "." + "Profile";
    assert long[8..] == short;
    if EndsWith(t, long) {
      assert t[|t| - |short|..] == t[|t| - |long|..][8..];
    }
  }

  /** Every type name with a suffix of a section is the type name of an item of that section. */
  lemma {:induction false} NamedAs(name: string, s: Section, long: bool) returns (item: Item)
    requires var tail := "." + (if long then "Profile" + ShortSuffix(s) else ShortSuffix(s)); EndsWith(name, tail)
    ensures item.section == Some(s) && TypeName(item) == name
  {
    hide ShortSuffix;
    var suffix := if long then "Profile" + ShortSuffix(s) else ShortSuffix(s);
    var tail := "." + suffix;
    var package := name[..|name| - |tail|];
    item := Item(Some(s), package, long, map[]);
    assert package + "." + suffix == package + tail == name;
  }

  /** No entity at all, however it is named, belongs to two sections. */
  lemma {:induction false} SectionsDisjoint(v: Value, s: Section, t: Section)
    requires IsTyped(v, SuffixesOf(s)) && IsTyped(v, SuffixesOf(t))
    ensures s == t
  {
    hide ShortSuffix, EndsWith, TypeName;
    var name := v.fields[TYPE_KEY].s;
    var i :| 0 <= i < |SuffixesOf(s)| && EndsWith(name, "." + SuffixesOf(s)[i]);
    var item := NamedAs(name, s, i == 0);
    TypeRecognised(item, t);
  }
}
