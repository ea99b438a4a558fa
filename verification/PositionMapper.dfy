/**
 The mapper of one position (`experience` and `company`, src/parser/dash.rs): which keys of a position
 its entry is read from, and when what a role inherits from its group changes its entry.
 */
module PositionMapper {
  import opened Common
  import opened Json
  import opened EntityIndex
  import opened Dash
  import opened Envelopes

  /** What is told of a position apart from its title and company. */
  datatype Rest = Rest(year: Option<int>, month: Option<int>, detail: Value)

  /**
   The readers of single values: texts, URNs of organisations, images, the name in a company address, the
   address of such a name, and the dates and other details of a position.
   */
  datatype Readers = Readers(clean: Clean, urn: Value -> Option<string>, image: Value -> Option<Value>,
                             universal: string -> Option<string>, address: string -> string, rest: Entity -> Rest)

  function Read<T, U>(reader: T -> Option<U>, value: Option<T>): Option<U> {
    match value case Some(v) => reader(v) case None => None
  }

  /** A position without its company details, type name and URN, none of which the other details are read from. */
  function Plain(e: Entity): Entity {
    e - {"companyName", "companyUrn", "company", TYPE_KEY, URN_KEY}
  }

  /** A member that is present and an object. */
  function ObjField(e: Entity, key: string): Option<Entity> {
    match Field(e, key)
    case Some(Obj(o)) => Some(o)
    case _ => None
  }

  /** A text of the company object, if there is one. */
  function CompanyText(clean: Clean, company: Option<Entity>, key: string): Option<string> {
    match company case Some(c) => TextOf(clean, c, key) case None => None
  }

  function CompanyField(company: Option<Entity>, key: string): Option<Value> {
    match company case Some(c) => Field(c, key) case None => None
  }

  function CompanyTitle(clean: Clean, company: Option<Entity>): Option<string> {
    CompanyText(clean, company, "name").Or(CompanyText(clean, company, "defaultLocalizedName"))
  }

  function NameOf(rd: Readers, e: Entity): Option<string> {
    TextOf(rd.clean, e, "companyName").Or(CompanyTitle(rd.clean, ObjField(e, "company")))
  }

  /** The URN of the company object hides the other one, even when it cannot be read. */
  function UrnOf(rd: Readers, e: Entity): Option<string> {
    Read(rd.urn, CompanyField(ObjField(e, "company"), URN_KEY).Or(Field(e, "companyUrn")))
  }

  function UrlOf(rd: Readers, e: Entity): Option<string> {
    CompanyText(rd.clean, ObjField(e, "company"), "url")
  }

  function LogoOf(rd: Readers, e: Entity): Option<Value> {
    Read(rd.image, CompanyField(ObjField(e, "company"), "logo").Or(Field(e, "logo")))
  }

  function Assemble(rd: Readers, name: Option<string>, urn: Option<string>, url: Option<string>, logo: Option<Value>)
    : Option<Organization>
  {
    if name.None? && url.None? && logo.None? && urn.None? then None
    else
      var universal := Read(rd.universal, url);
      var address := match universal case Some(u) => Some(rd.address(u)) case None => None;
      Some(Organization(name, urn, universal, url.Or(address), logo))
  }

  function Company(rd: Readers, e: Entity): Option<Organization> {
    Assemble(rd, NameOf(rd, e), UrnOf(rd, e), UrlOf(rd, e), LogoOf(rd, e))
  }

  /** Positions without title and company name are dropped. */
  predicate HasEntry(rd: Readers, e: Entity) {
    TextOf(rd.clean, e, "title").Some? || TextOf(rd.clean, e, "companyName").Some?
  }

  function Entry(rd: Readers, e: Entity): Option<Experience> {
    if !HasEntry(rd, e) then None
    else
      var rest := rd.rest(Plain(e));
      Some(Experience(rest.year, rest.month, TextOf(rd.clean, e, "title"), Company(rd, e), rest.detail))
  }

  function CodeView(rd: Readers): View {
    e => Entry(rd, e)
  }

  /** A member that is present, is a text and is not blank. */
  ghost predicate Says(clean: Clean, e: Entity, key: string, text: string) {
    key in e && e[key].Str? && clean(e[key].s) == Some(text)
  }

  lemma {:induction false} SaysIff(clean: Clean, e: Entity, key: string)
    ensures forall text :: TextOf(clean, e, key) == Some(text) <==> Says(clean, e, key, text)
    ensures TextOf(clean, e, key).None? <==> forall text :: !Says(clean, e, key, text)
  {
    assert TextOf(clean, e, key).Some? ==> Says(clean, e, key, TextOf(clean, e, key).value);
  }

  /**
   What an entry tells: its company is named by the position, else by its company object; has the URN of that
   object if it has one, readable or not, else that of the position; likewise its logo; the address of the
   object; and there is no company when none of the four is known.
   */
  lemma {:induction false} EntryTells(rd: Readers, e: Entity, c: Entity)
    requires if "company" in e && e["company"].Obj? then c == e["company"].fields else c == map[]
    ensures Entry(rd, e).None? <==> forall text :: !Says(rd.clean, e, "title", text) && !Says(rd.clean, e, "companyName", text)
    ensures Entry(rd, e).Some? ==>
              var x := Entry(rd, e).value;
              var name := FirstKnown([TextOf(rd.clean, e, "companyName"), TextOf(rd.clean, c, "name"),
                                      TextOf(rd.clean, c, "defaultLocalizedName")]);
              var urn := Read(rd.urn, FirstKnown([Field(c, "entityUrn"), Field(e, "companyUrn")]));
              var logo := Read(rd.image, FirstKnown([Field(c, "logo"), Field(e, "logo")]));
              var url := TextOf(rd.clean, c, "url");
              && x.title == TextOf(rd.clean, e, "title")
              && Rest(x.year, x.month, x.rest) == rd.rest(e - {"companyName", "companyUrn", "company", "$type", "entityUrn"})
              && (x.company.None? <==> name.None? && urn.None? && logo.None? && url.None?)
              && (x.company.Some? ==> x.company.value == Organization(name, urn, Read(rd.universal, url), url, logo))
  {
    hide TextOf;
    SaysIff(rd.clean, e, "title");
    SaysIff(rd.clean, e, "companyName");
    CompanyRead(rd.clean, e, c);
    FirstOfThree(TextOf(rd.clean, e, "companyName"), TextOf(rd.clean, c, "name"), TextOf(rd.clean, c, "defaultLocalizedName"));
    FirstOfTwo(Field(c, "entityUrn"), Field(e, "companyUrn"));
    FirstOfTwo(Field(c, "logo"), Field(e, "logo"));
  }

  lemma {:induction false} CompanyRead(clean: Clean, e: Entity, c: Entity)
    requires if "company" in e && e["company"].Obj? then c == e["company"].fields else c == map[]
    ensures forall key :: CompanyText(clean, ObjField(e, "company"), key) == TextOf(clean, c, key)
    ensures forall key :: CompanyField(ObjField(e, "company"), key) == Field(c, key)
  {
  }

  lemma {:induction false} FirstOfTwo<T>(a: Option<T>, b: Option<T>)
    ensures FirstKnown([a, b]) == a.Or(b)
  {
    assert [a, b][1..] == [b] && [b][1..] == [];
    assert FirstKnown([b]) == b;
  }

  lemma {:induction false} FirstOfThree<T>(a: Option<T>, b: Option<T>, c: Option<T>)
    ensures FirstKnown([a, b, c]) == a.Or(b.Or(c))
  {
    assert [a, b, c][1..] == [b, c];
    FirstOfTwo(b, c);
  }

  // ------------------------------------------------------------------------------ what a role gains

  /** The name a role gains as it reads, if it has none: the text was cleaned before. */
  function GainedName(clean: Clean, group: Entity, p: Entity): Option<string> {
    if "companyName" in p then None else Read(clean, TextOf(clean, group, "companyName"))
  }

  /** The company object a role gains, if it has no company. */
  function GainedCompany(group: Entity, p: Entity): Option<Entity> {
    if "company" in p then None else ObjField(group, "company")
  }

  /** Its name stays: it has one, or gains none, or gains what its company object is called. */
  predicate NameStays(rd: Readers, group: Entity, p: Entity) {
    || TextOf(rd.clean, p, "companyName").Some?
    || (match GainedName(rd.clean, group, p)
        case Some(name) => CompanyTitle(rd.clean, ObjField(p, "company")) == Some(name)
        case None => CompanyTitle(rd.clean, GainedCompany(group, p)).None?)
  }

  /** Its URN stays: hidden by that of its company object, or the same as the one gained, or none is gained that reads. */
  predicate UrnStays(rd: Readers, group: Entity, p: Entity) {
    || CompanyField(ObjField(p, "company"), URN_KEY).Some?
    || (match CompanyField(GainedCompany(group, p), URN_KEY)
        case Some(urn) => rd.urn(urn) == Read(rd.urn, Field(p, "companyUrn"))
        case None => "companyUrn" in p || Read(rd.urn, Field(group, "companyUrn")).None?)
  }

  /** Its address and its logo stay: no company object is gained that has another. */
  predicate LooksStay(rd: Readers, group: Entity, p: Entity) {
    && CompanyText(rd.clean, GainedCompany(group, p), "url").None?
    && match CompanyField(GainedCompany(group, p), "logo")
       case Some(logo) => rd.image(logo) == Read(rd.image, Field(p, "logo"))
       case None => true
  }

  /** What the role gains from its group does not show in its entry. */
  predicate AddsNothing(rd: Readers, group: Entity, p: Entity) {
    if HasEntry(rd, p) then NameStays(rd, group, p) && UrnStays(rd, group, p) && LooksStay(rd, group, p)
    else GainedName(rd.clean, group, p).None?
  }

  // ------------------------------------------------------------------------------ the keys that are read

  lemma {:induction false} CompanyKeys()
    ensures "companyName" != TYPE_KEY && "companyUrn" != TYPE_KEY && "company" != TYPE_KEY
    ensures "companyName" != URN_KEY && "companyUrn" != URN_KEY && "company" != URN_KEY
    ensures "companyName" != "companyUrn" && "companyName" != "company" && "companyUrn" != "company"
  {
    assert "companyName"[0] != TYPE_KEY[0] && "companyName"[0] != URN_KEY[0];
    assert "companyUrn"[0] != TYPE_KEY[0] && "companyUrn"[0] != URN_KEY[0];
    assert "company"[0] != TYPE_KEY[0] && "company"[0] != URN_KEY[0];
    assert "companyName"[7] != "companyUrn"[7];
    assert |"company"| == 7 < |"companyUrn"| < |"companyName"|;
  }

  lemma {:induction false} OtherKeys(key: string)
    requires key == "title" || key == "logo"
    ensures key != "companyName" && key != "companyUrn" && key != "company" && key != TYPE_KEY && key != URN_KEY
  {
    assert key[0] != "companyName"[0] && key[0] != "companyUrn"[0] && key[0] != "company"[0];
    assert key[0] != TYPE_KEY[0] && key[0] != URN_KEY[0];
  }

  /** The merged map, key by key. */
  lemma {:induction false} MergedFields(clean: Clean, group: Entity, p: Entity)
    ensures var m := Inherit(clean, group, p);
            && Field(m, "title") == Field(p, "title") && Field(m, "logo") == Field(p, "logo")
            && Field(m, "companyUrn") == Field(p, "companyUrn").Or(Field(group, "companyUrn"))
            && Field(m, "company") == Field(p, "company").Or(Field(group, "company"))
            && Plain(m) == Plain(p)
            && ("companyName" in p ==> Field(m, "companyName") == Field(p, "companyName"))
            && ("companyName" !in p ==> TextOf(clean, m, "companyName") == GainedName(clean, group, p))
  {
    hide TextOf;
    CompanyKeys();
    OtherKeys("title");
    OtherKeys("logo");
    MergedName(clean, group, p);
  }

  lemma {:induction false} MergedName(clean: Clean, group: Entity, p: Entity)
    ensures "companyName" !in p ==> TextOf(clean, Inherit(clean, group, p), "companyName") == GainedName(clean, group, p)
  {
    CompanyKeys();
  }

  lemma {:induction false} BareFields(e: Entity)
    ensures var b := Bare(e);
            && Plain(b) == Plain(e) && Field(b, "title") == Field(e, "title") && Field(b, "logo") == Field(e, "logo")
            && Field(b, "companyName") == Field(e, "companyName") && Field(b, "companyUrn") == Field(e, "companyUrn")
            && Field(b, "company") == Field(e, "company")
  {
    CompanyKeys();
    OtherKeys("title");
    OtherKeys("logo");
  }

  /** The entry reads neither the type name nor the position's own URN. */
  lemma {:induction false} CodeViewIgnoresName(rd: Readers)
    ensures IgnoresName(CodeView(rd))
  {
    hide Bare, Plain;
    forall e ensures CodeView(rd)(Bare(e)) == CodeView(rd)(e) {
      BareFields(e);
      SameFields(rd, Bare(e), e);
    }
  }

  lemma {:induction false} SameFields(rd: Readers, a: Entity, b: Entity)
    requires Plain(a) == Plain(b) && Field(a, "title") == Field(b, "title") && Field(a, "logo") == Field(b, "logo")
    requires Field(a, "companyName") == Field(b, "companyName") && Field(a, "companyUrn") == Field(b, "companyUrn")
    requires Field(a, "company") == Field(b, "company")
    ensures Entry(rd, a) == Entry(rd, b)
  {
  }

  /** What a role inherits neither drops its entry nor moves its start. */
  ghost predicate KeepsStart(view: View, clean: Clean) {
    forall group, p :: view(p).Some? ==>
      var merged := view(Inherit(clean, group, p));
      merged.Some? && SameKey(merged.value, view(p).value)
  }

  lemma {:induction false} CodeViewKeepsStart(rd: Readers)
    ensures KeepsStart(CodeView(rd), rd.clean)
  {
    hide Inherit, Plain, Company;
    forall group, p | CodeView(rd)(p).Some?
      ensures var merged := CodeView(rd)(Inherit(rd.clean, group, p));
              merged.Some? && SameKey(merged.value, CodeView(rd)(p).value)
    {
      MergedFields(rd.clean, group, p);
    }
  }

  // ------------------------------------------------------------------------------ when the entry changes

  /** An organisation shows exactly its name, URN, address and logo. */
  lemma {:induction false} AssembleInjective(rd: Readers, name: Option<string>, urn: Option<string>, url: Option<string>,
                                             logo: Option<Value>, name': Option<string>, urn': Option<string>,
                                             url': Option<string>, logo': Option<Value>)
    ensures Assemble(rd, name, urn, url, logo) == Assemble(rd, name', urn', url', logo') <==>
              name == name' && urn == urn' && url == url' && logo == logo'
  {
  }

  lemma {:induction false} CompanyReads(clean: Clean, group: Entity, p: Entity)
    ensures var m := Inherit(clean, group, p);
            ObjField(m, "company") == ObjField(p, "company").Or(GainedCompany(group, p))
            && (ObjField(p, "company").Some? ==> GainedCompany(group, p).None?)
  {
    hide Inherit;
    MergedFields(clean, group, p);
  }

  lemma {:induction false} NameStaysIff(rd: Readers, group: Entity, p: Entity)
    ensures NameOf(rd, Inherit(rd.clean, group, p)) == NameOf(rd, p) <==> NameStays(rd, group, p)
  {
    hide Inherit, Plain, ObjField, GainedName, GainedCompany, CompanyTitle;
    MergedFields(rd.clean, group, p);
    CompanyReads(rd.clean, group, p);
    NoTitle(rd.clean);
    assert "companyName" in p ==>
        TextOf(rd.clean, Inherit(rd.clean, group, p), "companyName") == TextOf(rd.clean, p, "companyName");
    NothingGained(rd.clean, group, p);
  }

  lemma {:induction false} NoTitle(clean: Clean)
    ensures CompanyTitle(clean, None).None?
  {
  }

  lemma {:induction false} NothingGained(clean: Clean, group: Entity, p: Entity)
    ensures "companyName" in p ==> GainedName(clean, group, p).None?
    ensures "companyName" !in p ==> TextOf(clean, p, "companyName").None?
  {
  }

  lemma {:induction false} UrnStaysIff(rd: Readers, group: Entity, p: Entity)
    ensures UrnOf(rd, Inherit(rd.clean, group, p)) == UrnOf(rd, p) <==> UrnStays(rd, group, p)
  {
    hide Inherit, Plain, ObjField, GainedCompany;
    MergedFields(rd.clean, group, p);
    CompanyReads(rd.clean, group, p);
  }

  lemma {:induction false} LooksStayIff(rd: Readers, group: Entity, p: Entity)
    ensures var m := Inherit(rd.clean, group, p);
            UrlOf(rd, m) == UrlOf(rd, p) && LogoOf(rd, m) == LogoOf(rd, p) <==> LooksStay(rd, group, p)
  {
    hide Inherit, Plain, ObjField, GainedCompany;
    MergedFields(rd.clean, group, p);
    CompanyReads(rd.clean, group, p);
  }

  /** Exactly: the entry of a role is the same with what it inherits if and only if nothing gained shows in it. */
  lemma {:induction false} SameEntryIff(rd: Readers, group: Entity, p: Entity)
    ensures Entry(rd, Inherit(rd.clean, group, p)) == Entry(rd, p) <==> AddsNothing(rd, group, p)
  {
    hide Inherit, Plain, ObjField, GainedName, GainedCompany, CompanyTitle, NameOf, UrnOf, UrlOf, LogoOf, Assemble,
         NameStays, UrnStays, LooksStay;
    var m := Inherit(rd.clean, group, p);
    MergedFields(rd.clean, group, p);
    NothingGained(rd.clean, group, p);
    NameStaysIff(rd, group, p);
    UrnStaysIff(rd, group, p);
    LooksStayIff(rd, group, p);
    AssembleInjective(rd, NameOf(rd, m), UrnOf(rd, m), UrlOf(rd, m), LogoOf(rd, m),
                      NameOf(rd, p), UrnOf(rd, p), UrlOf(rd, p), LogoOf(rd, p));
  }
}
