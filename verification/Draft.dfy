/**
 Enrichment of a draft profile (src/parser/draft.rs): a contact card and a network card are
 folded into whatever the profile call already gave. Merging is a left-biased band: it is
 associative, a card merged before never changes anything again, and nothing known is lost.
 */
module Draft {
  import opened Common

  datatype DateParts = DateParts(year: Option<int>, month: Option<int>, day: Option<int>)

  datatype ContactInfo = ContactInfo(
    emails: seq<string>,
    phoneNumbers: seq<string>,
    websites: seq<string>,
    twitterHandles: seq<string>,
    birthday: Option<DateParts>,
    address: Option<string>,
    ims: seq<string>)

  datatype NetworkInfo = NetworkInfo(
    followers: Option<int>,
    connections: Option<int>,
    distance: Option<string>,
    following: Option<bool>)

  /** The known list, then every new item of the incoming one where it first occurs. */
  function Merged(existing: seq<string>, incoming: seq<string>): seq<string> {
    if incoming == [] then existing
    else
      var n := |incoming| - 1;
      var earlier := Merged(existing, incoming[..n]);
      if incoming[n] in earlier then earlier else earlier + [incoming[n]]
  }

  method MergeLists(existing: seq<string>, incoming: seq<string>) returns (merged: seq<string>)
    ensures merged == Merged(existing, incoming)
  {
    merged := existing;
    for i := 0 to |incoming|
      invariant merged == Merged(existing, incoming[..i])
    {
      assert incoming[..i + 1][..i] == incoming[..i];
      if incoming[i] !in merged {
        merged := merged + [incoming[i]];
      }
    }
    assert incoming[..|incoming|] == incoming;
  }

  function MergedCards(x: ContactInfo, y: ContactInfo): ContactInfo {
    ContactInfo(
      Merged(x.emails, y.emails),
      Merged(x.phoneNumbers, y.phoneNumbers),
      Merged(x.websites, y.websites),
      Merged(x.twitterHandles, y.twitterHandles),
      x.birthday.Or(y.birthday),
      x.address.Or(y.address),
      Merged(x.ims, y.ims))
  }

  /** What the draft holds after a contact card, which may be missing. */
  function WithContact(x: Option<ContactInfo>, y: Option<ContactInfo>): Option<ContactInfo> {
    match (x, y)
    case (_, None) => x
    case (None, Some(_)) => y
    case (Some(a), Some(b)) => Some(MergedCards(a, b))
  }

  function WithNetwork(x: Option<NetworkInfo>, y: Option<NetworkInfo>): Option<NetworkInfo> {
    match (x, y)
    case (_, None) => x
    case (None, Some(_)) => y
    case (Some(a), Some(b)) =>
      Some(NetworkInfo(a.followers.Or(b.followers), a.connections.Or(b.connections),
                       a.distance.Or(b.distance), a.following.Or(b.following)))
  }

  class ProfileDraft {
    var network: Option<NetworkInfo>
    var contact: Option<ContactInfo>

    constructor ()
      ensures network.None? && contact.None?
    {
      network := None;
      contact := None;
    }

    method MergeContact(card: Option<ContactInfo>)
      modifies this`contact
      ensures contact == WithContact(old(contact), card)
    {
      hide Merged;
      if card.None? {
        return;
      }
      if contact.None? {
        contact := card;
        return;
      }
      var existing, incoming := contact.value, card.value;
      var emails := MergeLists(existing.emails, incoming.emails);
      var phoneNumbers := MergeLists(existing.phoneNumbers, incoming.phoneNumbers);
      var websites := MergeLists(existing.websites, incoming.websites);
      var twitterHandles := MergeLists(existing.twitterHandles, incoming.twitterHandles);
      var ims := MergeLists(existing.ims, incoming.ims);
      existing := existing.(emails := emails, phoneNumbers := phoneNumbers, websites := websites,
                            twitterHandles := twitterHandles, ims := ims);
      if existing.birthday.None? {
        existing := existing.(birthday := incoming.birthday);
      }
      if existing.address.None? {
        existing := existing.(address := incoming.address);
      }
      contact := Some(existing);
    }

    method FillNetwork(card: Option<NetworkInfo>)
      modifies this`network
      ensures network == WithNetwork(old(network), card)
    {
      if card.None? {
        return;
      }
      if network.None? {
        network := card;
        return;
      }
      var existing, incoming := network.value, card.value;
      if existing.followers.None? {
        existing := existing.(followers := incoming.followers);
      }
      if existing.connections.None? {
        existing := existing.(connections := incoming.connections);
      }
      if existing.distance.None? {
        existing := existing.(distance := incoming.distance);
      }
      if existing.following.None? {
        existing := existing.(following := incoming.following);
      }
      network := Some(existing);
    }
  }

  // ------------------------------------------------------------------------------ lists

  lemma {:induction false} MergedMembers(a: seq<string>, b: seq<string>, x: string)
    ensures x in Merged(a, b) <==> x in a || x in b
  {
    if b != [] {
      var n := |b| - 1;
      assert b == b[..n] + [b[n]];
      MergedMembers(a, b[..n], x);
    }
  }

  /** The known list stays as a prefix; every item after it is new, and there only once. */
  lemma {:induction false} MergedKeepsPrefix(a: seq<string>, b: seq<string>)
    ensures a <= Merged(a, b)
    ensures forall i :: |a| <= i < |Merged(a, b)| ==> Merged(a, b)[i] in b && Merged(a, b)[i] !in Merged(a, b)[..i]
  {
    if b != [] {
      var n := |b| - 1;
      var earlier := Merged(a, b[..n]);
      assert b == b[..n] + [b[n]];
      MergedKeepsPrefix(a, b[..n]);
      forall i | |a| <= i < |Merged(a, b)|
        ensures Merged(a, b)[i] in b && Merged(a, b)[i] !in Merged(a, b)[..i]
      {
        if i < |earlier| {
          assert Merged(a, b)[..i] == earlier[..i];
        } else {
          assert Merged(a, b)[..i] == earlier;
        }
      }
    }
  }

  /** New items keep the order of the incoming list: merging may be cut anywhere. */
  lemma {:induction false} MergedCut(a: seq<string>, b: seq<string>, c: seq<string>)
    ensures Merged(a, b + c) == Merged(Merged(a, b), c)
  {
    if c == [] {
      assert b + c == b;
    } else {
      var n := |c| - 1;
      assert (b + c)[..|b| + n] == b + c[..n];
      MergedCut(a, b, c[..n]);
    }
  }

  lemma {:induction false} MergedKnown(a: seq<string>, b: seq<string>)
    requires forall x :: x in b ==> x in a
    ensures Merged(a, b) == a
  {
    if b != [] {
      var n := |b| - 1;
      assert b[n] in b;
      MergedKnown(a, b[..n]);
    }
  }

  lemma {:induction false} MergedAssociative(a: seq<string>, b: seq<string>, c: seq<string>)
    ensures Merged(Merged(a, b), c) == Merged(a, Merged(b, c))
  {
    if c != [] {
      var n := |c| - 1;
      var bc := Merged(b, c[..n]);
      MergedAssociative(a, b, c[..n]);
      MergedMembers(a, bc, c[n]);
      assert (bc + [c[n]])[..|bc|] == bc;
    }
  }

  /** What has been merged once never adds anything again. */
  lemma {:induction false} MergedAbsorbs(a: seq<string>, b: seq<string>)
    ensures Merged(Merged(a, b), a) == Merged(a, b) == Merged(Merged(a, b), b)
    ensures Merged(a, a) == a
  {
    forall x | x in a || x in b ensures x in Merged(a, b) {
      MergedMembers(a, b, x);
    }
    MergedKnown(Merged(a, b), a);
    MergedKnown(Merged(a, b), b);
    MergedKnown(a, a);
  }

  // ------------------------------------------------------------------------------ cards

  /** Merging contact cards is associative, with the missing card as identity on both sides. */
  lemma {:induction false} ContactMonoid(x: Option<ContactInfo>, y: Option<ContactInfo>, z: Option<ContactInfo>)
    ensures WithContact(WithContact(x, y), z) == WithContact(x, WithContact(y, z))
    ensures WithContact(x, None) == x == WithContact(None, x)
  {
    hide Merged;
    if x.Some? && y.Some? && z.Some? {
      var a, b, c := x.value, y.value, z.value;
      MergedAssociative(a.emails, b.emails, c.emails);
      MergedAssociative(a.phoneNumbers, b.phoneNumbers, c.phoneNumbers);
      MergedAssociative(a.websites, b.websites, c.websites);
      MergedAssociative(a.twitterHandles, b.twitterHandles, c.twitterHandles);
      MergedAssociative(a.ims, b.ims, c.ims);
    }
  }

  /** A card met before changes nothing, whichever side it came in on. */
  lemma {:induction false} ContactAbsorbs(x: Option<ContactInfo>, y: Option<ContactInfo>)
    ensures WithContact(WithContact(x, y), y) == WithContact(x, y) == WithContact(WithContact(x, y), x)
    ensures WithContact(x, x) == x
  {
    hide Merged;
    if x.Some? {
      CardAbsorbs(x.value, x.value);
    }
    if y.Some? {
      CardAbsorbs(y.value, y.value);
    }
    if x.Some? && y.Some? {
      CardAbsorbs(x.value, y.value);
    }
  }

  lemma {:induction false} CardAbsorbs(a: ContactInfo, b: ContactInfo)
    ensures MergedCards(MergedCards(a, b), b) == MergedCards(a, b) == MergedCards(MergedCards(a, b), a)
    ensures MergedCards(a, a) == a
  {
    hide Merged;
    MergedAbsorbs(a.emails, b.emails);
    MergedAbsorbs(a.phoneNumbers, b.phoneNumbers);
    MergedAbsorbs(a.websites, b.websites);
    MergedAbsorbs(a.twitterHandles, b.twitterHandles);
    MergedAbsorbs(a.ims, b.ims);
  }

  /** Known scalars are never overwritten, missing ones are filled, and no listed item is dropped. */
  lemma {:induction false} ContactOnlyGrows(a: ContactInfo, b: ContactInfo)
    ensures var m := MergedCards(a, b);
            && (a.birthday.Some? ==> m.birthday == a.birthday) && (a.birthday.None? ==> m.birthday == b.birthday)
            && (a.address.Some? ==> m.address == a.address) && (a.address.None? ==> m.address == b.address)
            && a.emails <= m.emails && a.phoneNumbers <= m.phoneNumbers && a.websites <= m.websites
            && a.twitterHandles <= m.twitterHandles && a.ims <= m.ims
  {
    hide Merged;
    MergedKeepsPrefix(a.emails, b.emails);
    MergedKeepsPrefix(a.phoneNumbers, b.phoneNumbers);
    MergedKeepsPrefix(a.websites, b.websites);
    MergedKeepsPrefix(a.twitterHandles, b.twitterHandles);
    MergedKeepsPrefix(a.ims, b.ims);
  }

  lemma {:induction false} NetworkMonoid(x: Option<NetworkInfo>, y: Option<NetworkInfo>, z: Option<NetworkInfo>)
    ensures WithNetwork(WithNetwork(x, y), z) == WithNetwork(x, WithNetwork(y, z))
    ensures WithNetwork(x, None) == x == WithNetwork(None, x)
    ensures WithNetwork(WithNetwork(x, y), y) == WithNetwork(x, y) == WithNetwork(WithNetwork(x, y), x)
    ensures WithNetwork(x, x) == x
  {
  }

  // ------------------------------------------------------------------------------ whole runs

  /** The contact after any number of merges. */
  function AfterContacts(x: Option<ContactInfo>, cards: seq<Option<ContactInfo>>): Option<ContactInfo> {
    if cards == [] then x
    else WithContact(AfterContacts(x, cards[..|cards| - 1]), cards[|cards| - 1])
  }

  /** However many cards were merged since, merging one of them again changes nothing. */
  lemma {:induction false} ReplayChangesNothing(x: Option<ContactInfo>, cards: seq<Option<ContactInfo>>, k: nat)
    requires k < |cards|
    ensures WithContact(AfterContacts(x, cards), cards[k]) == AfterContacts(x, cards)
  {
    hide WithContact;
    var n := |cards| - 1;
    var before, last, card := AfterContacts(x, cards[..n]), cards[n], cards[k];
    if k == n {
      ContactAbsorbs(before, last);
    } else {
      ReplayChangesNothing(x, cards[..n], k);
      // before + last + card == before + (card + last) + card == before + (card + last)
      ContactMonoid(before, card, last);
      ContactMonoid(before, WithContact(card, last), card);
      ContactAbsorbs(card, last);
    }
  }

  function AfterNetworks(cards: seq<Option<NetworkInfo>>): Option<NetworkInfo> {
    if cards == [] then None
    else WithNetwork(AfterNetworks(cards[..|cards| - 1]), cards[|cards| - 1])
  }

  lemma {:induction false} FirstKnownSnoc<T>(sources: seq<Option<T>>, last: Option<T>)
    ensures FirstKnown(sources + [last]) == FirstKnown(sources).Or(last)
  {
    if sources != [] {
      assert (sources + [last])[1..] == sources[1..] + [last];
      FirstKnownSnoc(sources[1..], last);
    }
  }

  /** What the sources say of one field. */
  function Told<C, T>(cards: seq<Option<C>>, field: C -> Option<T>): (told: seq<Option<T>>)
    ensures |told| == |cards|
    ensures forall i :: 0 <= i < |cards| ==>
              told[i] == match cards[i] case Some(card) => field(card) case None => None
  {
    if cards == [] then []
    else
      var n := |cards| - 1;
      Told(cards[..n], field) + [match cards[n] case Some(card) => field(card) case None => None]
  }

  /** Each field ends up as the first source that knew it told it, whatever else that source knew. */
  lemma {:induction false} NetworkFirstKnown(cards: seq<Option<NetworkInfo>>)
    ensures match AfterNetworks(cards)
            case None => forall i :: 0 <= i < |cards| ==> cards[i].None?
            case Some(card) =>
              && card.followers == FirstKnown(Told(cards, (c: NetworkInfo) => c.followers))
              && card.connections == FirstKnown(Told(cards, (c: NetworkInfo) => c.connections))
              && card.distance == FirstKnown(Told(cards, (c: NetworkInfo) => c.distance))
              && card.following == FirstKnown(Told(cards, (c: NetworkInfo) => c.following))
  {
    NetworkFieldKnown(cards, (c: NetworkInfo) => c.followers);
    NetworkFieldKnown(cards, (c: NetworkInfo) => c.connections);
    NetworkFieldKnown(cards, (c: NetworkInfo) => c.distance);
    NetworkFieldKnown(cards, (c: NetworkInfo) => c.following);
  }

  ghost predicate FieldWise<T>(field: NetworkInfo -> Option<T>) {
    forall a, b :: field(WithNetwork(Some(a), Some(b)).value) == field(a).Or(field(b))
  }

  lemma {:induction false} FieldWiseAt<T>(field: NetworkInfo -> Option<T>, x: Option<NetworkInfo>, y: Option<NetworkInfo>)
    requires FieldWise(field)
    ensures x.Some? && y.Some? ==> field(WithNetwork(x, y).value) == field(x.value).Or(field(y.value))
  {
  }

  lemma {:induction false} NetworkFieldKnown<T>(cards: seq<Option<NetworkInfo>>, field: NetworkInfo -> Option<T>)
    requires FieldWise(field)
    ensures FirstKnown(Told(cards, field)) == match AfterNetworks(cards) case Some(card) => field(card) case None => None
    ensures AfterNetworks(cards).None? ==> forall i :: 0 <= i < |cards| ==> cards[i].None?
  {
    hide FieldWise;
    if cards != [] {
      var n := |cards| - 1;
      FieldWiseAt(field, AfterNetworks(cards[..n]), cards[n]);
      NetworkFieldKnown(cards[..n], field);
      FirstKnownSnoc(Told(cards[..n], field), Told(cards, field)[n]);
    }
  }

  // ------------------------------------------------------------------------------ what a run of contacts tells

  ghost predicate ListWise(field: ContactInfo -> seq<string>) {
    forall a, b :: field(MergedCards(a, b)) == Merged(field(a), field(b))
  }

  ghost predicate ScalarWise<T>(field: ContactInfo -> Option<T>) {
    forall a, b :: field(MergedCards(a, b)) == field(a).Or(field(b))
  }

  /** Some card has this item in this list. */
  ghost predicate Lists(cards: seq<Option<ContactInfo>>, field: ContactInfo -> seq<string>, item: string) {
    exists k :: 0 <= k < |cards| && cards[k].Some? && item in field(cards[k].value)
  }

  lemma {:induction false} ListsSnoc(cards: seq<Option<ContactInfo>>, field: ContactInfo -> seq<string>, item: string)
    requires cards != []
    ensures var n := |cards| - 1;
            Lists(cards, field, item) <==>
              Lists(cards[..n], field, item) || (cards[n].Some? && item in field(cards[n].value))
  {
    var n := |cards| - 1;
    if Lists(cards[..n], field, item) {
      var k :| 0 <= k < n && cards[..n][k].Some? && item in field(cards[..n][k].value);
      assert cards[k].Some?;
    }
    if Lists(cards, field, item) {
      var k :| 0 <= k < |cards| && cards[k].Some? && item in field(cards[k].value);
      assert k < n ==> cards[..n][k].Some?;
    }
  }

  lemma {:induction false} ContactListTold(cards: seq<Option<ContactInfo>>, field: ContactInfo -> seq<string>, item: string)
    requires ListWise(field)
    ensures Lists(cards, field, item) <==>
              AfterContacts(None, cards).Some? && item in field(AfterContacts(None, cards).value)
  {
    hide Lists, Merged;
    if cards == [] {
      NothingListed(field, item);
    } else {
      var n := |cards| - 1;
      ContactListTold(cards[..n], field, item);
      ListsSnoc(cards, field, item);
      if AfterContacts(None, cards[..n]).Some? && cards[n].Some? {
        MergedMembers(field(AfterContacts(None, cards[..n]).value), field(cards[n].value), item);
      }
    }
  }

  lemma {:induction false} NothingListed(field: ContactInfo -> seq<string>, item: string)
    ensures !Lists([], field, item)
  {
  }

  lemma {:induction false} ScalarAt<T>(field: ContactInfo -> Option<T>, x: Option<ContactInfo>, y: Option<ContactInfo>)
    requires ScalarWise(field)
    ensures x.Some? && y.Some? ==> field(WithContact(x, y).value) == field(x.value).Or(field(y.value))
  {
    hide MergedCards;
  }

  lemma {:induction false} ContactScalarTold<T>(cards: seq<Option<ContactInfo>>, field: ContactInfo -> Option<T>)
    requires ScalarWise(field)
    ensures FirstKnown(Told(cards, field)) == match AfterContacts(None, cards) case Some(card) => field(card) case None => None
  {
    hide ScalarWise, MergedCards;
    if cards != [] {
      var n := |cards| - 1;
      ScalarAt(field, AfterContacts(None, cards[..n]), cards[n]);
      ContactScalarTold(cards[..n], field);
      FirstKnownSnoc(Told(cards[..n], field), Told(cards, field)[n]);
    }
  }

  /** After any run each list has exactly the items that some card had in it, and each scalar is what the first card that knew it told. */
  lemma {:induction false} ContactTold(cards: seq<Option<ContactInfo>>, item: string)
    requires AfterContacts(None, cards).Some?
    ensures var card := AfterContacts(None, cards).value;
            && (item in card.emails <==> Lists(cards, (c: ContactInfo) => c.emails, item))
            && (item in card.phoneNumbers <==> Lists(cards, (c: ContactInfo) => c.phoneNumbers, item))
            && (item in card.websites <==> Lists(cards, (c: ContactInfo) => c.websites, item))
            && (item in card.twitterHandles <==> Lists(cards, (c: ContactInfo) => c.twitterHandles, item))
            && (item in card.ims <==> Lists(cards, (c: ContactInfo) => c.ims, item))
            && card.birthday == FirstKnown(Told(cards, (c: ContactInfo) => c.birthday))
            && card.address == FirstKnown(Told(cards, (c: ContactInfo) => c.address))
  {
    hide Merged, Lists, AfterContacts;
    ContactListTold(cards, (c: ContactInfo) => c.emails, item);
    ContactListTold(cards, (c: ContactInfo) => c.phoneNumbers, item);
    ContactListTold(cards, (c: ContactInfo) => c.websites, item);
    ContactListTold(cards, (c: ContactInfo) => c.twitterHandles, item);
    ContactListTold(cards, (c: ContactInfo) => c.ims, item);
    ContactScalarTold(cards, (c: ContactInfo) => c.birthday);
    ContactScalarTold(cards, (c: ContactInfo) => c.address);
  }
}
