/**
 Prepaid credit: the Redis scripts of src/billing.rs and the reserve / run / settle
 protocol that src/api/middleware.rs runs around every billable request. A script is one
 atomic step; requests, re-seeds and crashes interleave between the steps.
 */
module Billing {
  import opened Common

  type Key = string

  /** One account hash. HSETNX sets a field only while it is absent. */
  datatype Row = Row(email: Option<string>, balance: Option<int>, enabled: Option<int>)

  type Store = map<Key, Row>

  datatype SeedAccount = SeedAccount(email: string, apiKey: string, credit: int)

  datatype Error = ApiKeyInvalid | InsufficientCredit(required: int)
  datatype Result<+T> = Ok(value: T) | Err(error: Error)

  datatype Reservation = Reservation(key: Key, cents: int)

  const MISSING := -1
  const REFUSED := -2

  function RowOf(rows: Store, key: Key): Row {
    if key in rows then rows[key] else Row(None, None, None)
  }

  function SetIfAbsent(row: Row, email: string, credit: int): Row {
    Row(row.email.Or(Some(email)), row.balance.Or(Some(credit)), row.enabled.Or(Some(1)))
  }

  function AddBalance(rows: Store, key: Key, delta: int): Store
    requires RowOf(rows, key).balance.Some?
  {
    var row := RowOf(rows, key);
    rows[key := row.(balance := Some(row.balance.value + delta))]
  }

  /** The reserve script: the store it leaves and the number it answers. */
  function ReserveScript(rows: Store, key: Key, cents: int): (Store, int) {
    match RowOf(rows, key).balance
    case None => (rows, MISSING)
    case Some(b) => if b < cents then (rows, REFUSED) else (AddBalance(rows, key, -cents), b - cents)
  }

  /** The settle script: a top-up the balance cannot cover gives the whole reservation back. */
  function SettleScript(rows: Store, key: Key, delta: int, reserved: int): (Store, int) {
    match RowOf(rows, key).balance
    case None => (rows, MISSING)
    case Some(b) =>
      if delta < 0 && b < -delta then (AddBalance(rows, key, reserved), REFUSED)
      else (AddBalance(rows, key, delta), b + delta)
  }

  const KEY_PREFIX := "tross_sk_"

  predicate ValidSeed(a: SeedAccount) {
    KEY_PREFIX <= a.apiKey && a.credit >= 0
  }

  function SeedOne(rows: Store, digest: string -> Key, a: SeedAccount): Store {
    rows[digest(a.apiKey) := SetIfAbsent(RowOf(rows, digest(a.apiKey)), a.email, a.credit)]
  }

  /** Seeding stops at the first invalid account and keeps what came before it. */
  function SeedAll(rows: Store, digest: string -> Key, accounts: seq<SeedAccount>): Store
    decreases |accounts|
  {
    if accounts == [] || !ValidSeed(accounts[0]) then rows
    else SeedAll(SeedOne(rows, digest, accounts[0]), digest, accounts[1..])
  }

  class BillingStore {
    const digest: string -> Key
    var rows: Store

    constructor (digest: string -> Key, rows: Store)
      ensures this.digest == digest && this.rows == rows
    {
      this.digest := digest;
      this.rows := rows;
    }

    /** The number of accounts seeded, or nothing when the file holds an invalid one. */
    method SeedFromFile(accounts: seq<SeedAccount>) returns (seeded: Option<nat>)
      modifies this
      ensures rows == SeedAll(old(rows), digest, accounts)
      ensures seeded == if forall a :: a in accounts ==> "tross_sk_" <= a.apiKey && 0 <= a.credit then Some(|accounts|) else None
    {
      for i := 0 to |accounts|
        invariant SeedAll(old(rows), digest, accounts) == SeedAll(rows, digest, accounts[i..])
        invariant forall a :: a in accounts[..i] ==> ValidSeed(a)
      {
        assert accounts[i..][0] == accounts[i] && accounts[i..][1..] == accounts[i + 1..];
        if !ValidSeed(accounts[i]) {
          return None;
        }
        rows := SeedOne(rows, digest, accounts[i]);
        assert accounts[..i + 1] == accounts[..i] + [accounts[i]];
      }
      assert accounts[..|accounts|] == accounts;
      seeded := Some(|accounts|);
    }

    /** An API key is accepted while its hash names an email and is enabled. */
    method Authenticate(apiKey: string) returns (r: Result<Key>)
      ensures r.Ok? <==> "tross_sk_" <= apiKey && RowOf(rows, digest(apiKey)).email.Some?
                         && RowOf(rows, digest(apiKey)).enabled == Some(1)
      ensures r.Ok? ==> r.value == digest(apiKey)
    {
      if !(KEY_PREFIX <= apiKey) {
        return Err(ApiKeyInvalid);
      }
      var row := RowOf(rows, digest(apiKey));
      if row.email.Some? && row.enabled == Some(1) {
        return Ok(digest(apiKey));
      }
      return Err(ApiKeyInvalid);
    }

    method Reserve(key: Key, cents: int) returns (r: Result<Reservation>)
      modifies this
      ensures rows == ReserveScript(old(rows), key, cents).0
      ensures var balance := RowOf(old(rows), key).balance;
              r == if balance.None? then Err(ApiKeyInvalid)
                   else if balance.value < cents then Err(InsufficientCredit(cents))
                   else if balance.value - cents == MISSING then Err(ApiKeyInvalid)
                   else if balance.value - cents == REFUSED then Err(InsufficientCredit(cents))
                   else Ok(Reservation(key, cents))
    {
      var (rows', code) := ReserveScript(rows, key, cents);
      rows := rows';
      if code == MISSING {
        return Err(ApiKeyInvalid);
      } else if code == REFUSED {
        return Err(InsufficientCredit(cents));
      }
      return Ok(Reservation(key, cents));
    }

    /**
     The charge is covered if it costs no more than was reserved, or no more than reservation and balance
     together; otherwise the whole reservation goes back. A new balance of -1 or -2 would be read as an error.
     */
    method Settle(reservation: Reservation, actual: int) returns (r: Result<int>)
      modifies this
      ensures var row := RowOf(old(rows), reservation.key);
              match row.balance
              case None => rows == old(rows) && r == Err(ApiKeyInvalid)
              case Some(balance) =>
                var left := balance + reservation.cents - actual;
                if actual > reservation.cents && left < 0 then
                  && rows == old(rows)[reservation.key := row.(balance := Some(balance + reservation.cents))]
                  && r == Err(InsufficientCredit(actual))
                else
                  && rows == old(rows)[reservation.key := row.(balance := Some(left))]
                  && r == (if left == -1 then Err(ApiKeyInvalid)
                           else if left == -2 then Err(InsufficientCredit(actual))
                           else Ok(left))
      ensures rows == SettleScript(old(rows), reservation.key, reservation.cents - actual, reservation.cents).0
    {
      var (rows', code) :=
        SettleScript(rows, reservation.key, reservation.cents - actual, reservation.cents);
      rows := rows';
      if code == MISSING {
        return Err(ApiKeyInvalid);
      } else if code == REFUSED {
        return Err(InsufficientCredit(actual));
      }
      return Ok(code);
    }
  }

  // ------------------------------------------------------------------------------ seeding

  lemma {:induction false} SeedOneIdempotent(rows: Store, digest: string -> Key, a: SeedAccount)
    requires RowOf(rows, digest(a.apiKey)).email.Some?
    requires RowOf(rows, digest(a.apiKey)).balance.Some? && RowOf(rows, digest(a.apiKey)).enabled.Some?
    ensures SeedOne(rows, digest, a) == rows
  {
    assert RowOf(rows, digest(a.apiKey)) == rows[digest(a.apiKey)];
  }

  ghost predicate Complete(row: Row) {
    row.email.Some? && row.balance.Some? && row.enabled.Some?
  }

  lemma {:induction false} SeedKeepsComplete(rows: Store, digest: string -> Key, accounts: seq<SeedAccount>, key: Key)
    requires Complete(RowOf(rows, key))
    ensures RowOf(SeedAll(rows, digest, accounts), key) == RowOf(rows, key)
    decreases |accounts|
  {
    if accounts != [] && ValidSeed(accounts[0]) {
      SeedKeepsComplete(SeedOne(rows, digest, accounts[0]), digest, accounts[1..], key);
    }
  }

  /** A store in which every seeded account is complete is left alone. */
  lemma {:induction false} SeedNothingNew(rows: Store, digest: string -> Key, accounts: seq<SeedAccount>)
    requires forall i :: 0 <= i < |accounts| && (forall j :: 0 <= j <= i ==> ValidSeed(accounts[j])) ==>
               Complete(RowOf(rows, digest(accounts[i].apiKey)))
    ensures SeedAll(rows, digest, accounts) == rows
  {
    if accounts != [] && ValidSeed(accounts[0]) {
      SeedOneIdempotent(rows, digest, accounts[0]);
      var rest := accounts[1..];
      forall i | 0 <= i < |rest| && (forall j :: 0 <= j <= i ==> ValidSeed(rest[j]))
        ensures Complete(RowOf(rows, digest(rest[i].apiKey)))
      {
        forall j | 0 <= j <= i + 1 ensures ValidSeed(accounts[j]) {
          assert j > 0 ==> accounts[j] == rest[j - 1];
        }
        assert rest[i] == accounts[i + 1];
      }
      SeedNothingNew(rows, digest, rest);
    }
  }

  lemma {:induction false} SeedCompletes(rows: Store, digest: string -> Key, accounts: seq<SeedAccount>, i: nat)
    requires i < |accounts| && forall j :: 0 <= j <= i ==> ValidSeed(accounts[j])
    ensures Complete(RowOf(SeedAll(rows, digest, accounts), digest(accounts[i].apiKey)))
    decreases |accounts|
  {
    var rows' := SeedOne(rows, digest, accounts[0]);
    if i == 0 {
      SeedKeepsComplete(rows', digest, accounts[1..], digest(accounts[0].apiKey));
    } else {
      assert forall j :: 0 <= j <= i - 1 ==> accounts[1..][j] == accounts[j + 1];
      SeedCompletes(rows', digest, accounts[1..], i - 1);
    }
  }

  /** Seeding the same file again, whatever the digest and the store, changes nothing. */
  lemma {:induction false} ReseedChangesNothing(rows: Store, digest: string -> Key, accounts: seq<SeedAccount>)
    ensures SeedAll(SeedAll(rows, digest, accounts), digest, accounts) == SeedAll(rows, digest, accounts)
  {
    forall i | 0 <= i < |accounts| && (forall j :: 0 <= j <= i ==> ValidSeed(accounts[j]))
      ensures Complete(RowOf(SeedAll(rows, digest, accounts), digest(accounts[i].apiKey)))
    {
      SeedCompletes(rows, digest, accounts, i);
    }
    SeedNothingNew(SeedAll(rows, digest, accounts), digest, accounts);
  }

  /**
   The row of a new account after its file has been seeded: that of the first entry of the file with its
   digest, enabled. A row that is there already keeps what it has and gets the rest.
   */
  lemma {:induction false} SeededRow(rows: Store, digest: string -> Key, accounts: seq<SeedAccount>, i: nat)
    requires i < |accounts| && (forall j :: 0 <= j <= i ==> ValidSeed(accounts[j]))
    requires forall j :: 0 <= j < i ==> digest(accounts[j].apiKey) != digest(accounts[i].apiKey)
    ensures var key, a := digest(accounts[i].apiKey), accounts[i];
            var was, row := RowOf(rows, key), RowOf(SeedAll(rows, digest, accounts), key);
            && (key !in rows ==> row == Row(Some(a.email), Some(a.credit), Some(1)))
            && (was.email.Some? ==> row.email == was.email) && (was.email.None? ==> row.email == Some(a.email))
            && (was.balance.Some? ==> row.balance == was.balance) && (was.balance.None? ==> row.balance == Some(a.credit))
            && (was.enabled.Some? ==> row.enabled == was.enabled) && (was.enabled.None? ==> row.enabled == Some(1))
    decreases |accounts|
  {
    var rows' := SeedOne(rows, digest, accounts[0]);
    if i == 0 {
      SeedKeepsComplete(rows', digest, accounts[1..], digest(accounts[0].apiKey));
    } else {
      assert forall j :: 0 <= j <= i - 1 ==> accounts[1..][j] == accounts[j + 1];
      SeededRow(rows', digest, accounts[1..], i - 1);
    }
  }

  /** Seeding touches no account that the file does not name. */
  lemma {:induction false} SeedLeavesOthers(rows: Store, digest: string -> Key, accounts: seq<SeedAccount>, key: Key)
    requires forall i :: 0 <= i < |accounts| ==> digest(accounts[i].apiKey) != key
    ensures RowOf(SeedAll(rows, digest, accounts), key) == RowOf(rows, key)
    ensures key in SeedAll(rows, digest, accounts) <==> key in rows
    decreases |accounts|
  {
    if accounts != [] && ValidSeed(accounts[0]) {
      SeedLeavesOthers(SeedOne(rows, digest, accounts[0]), digest, accounts[1..], key);
    }
  }

  /** Into an empty store: every key of a valid file whose digests differ is accepted, and buys what it was given credit for. */
  method SeededKeyWorks(digest: string -> Key, accounts: seq<SeedAccount>, i: nat, cents: int)
    returns (login: Result<Key>, reservation: Result<Reservation>)
    requires i < |accounts|
    requires forall j :: 0 <= j < |accounts| ==> "tross_sk_" <= accounts[j].apiKey && 0 <= accounts[j].credit
    requires forall j :: 0 <= j < i ==> digest(accounts[j].apiKey) != digest(accounts[i].apiKey)
    ensures login == Ok(digest(accounts[i].apiKey))
    ensures 0 <= cents <= accounts[i].credit ==> reservation == Ok(Reservation(digest(accounts[i].apiKey), cents))
    ensures cents > accounts[i].credit ==> reservation == Err(InsufficientCredit(cents))
  {
    assert forall j :: 0 <= j < |accounts| ==> ValidSeed(accounts[j]);
    var store := new BillingStore(digest, map[]);
    var _ := store.SeedFromFile(accounts);
    SeededRow(map[], digest, accounts, i);
    login := store.Authenticate(accounts[i].apiKey);
    reservation := store.Reserve(digest(accounts[i].apiKey), cents);
  }

  // ------------------------------------------------------------------------------ the protocol

  /** Where the money of a request is: held back, charged, given back, or lost with an abandoned request. */
  datatype Phase = Outstanding | Settled | Refunded | Abandoned

  datatype Request = Request(key: Key, phase: Phase, cents: int)

  /** What the handler answered. */
  datatype Answer = Failure | CacheHit | CacheMiss

  datatype Prices = Prices(hit: int, miss: int)

  ghost predicate GoodPrices(p: Prices) {
    0 <= p.hit <= p.miss
  }

  function CostOf(answer: Answer, p: Prices): int {
    match answer
    case Failure => 0
    case CacheHit => p.hit
    case CacheMiss => p.miss
  }

  /** The accounts, every request that ever obtained a reservation, and the credit first seeded per account. */
  datatype Ledger = Ledger(rows: Store, requests: seq<Request>, granted: map<Key, int>)

  datatype Event =
    | Seed(account: SeedAccount)
    | Begin(key: Key)
    | Finish(request: nat, answer: Answer)
    | Abandon(request: nat)

  function Step(l: Ledger, digest: string -> Key, p: Prices, e: Event): Ledger {
    match e
    case Seed(a) =>
      if !ValidSeed(a) then l
      else
        var key := digest(a.apiKey);
        l.(rows := SeedOne(l.rows, digest, a),
           granted := if key in l.granted then l.granted else l.granted[key := a.credit])
    case Begin(key) =>
      var (rows', code) := ReserveScript(l.rows, key, p.hit);
      if code == MISSING || code == REFUSED then l.(rows := rows')
      else l.(rows := rows', requests := l.requests + [Request(key, Outstanding, p.hit)])
    case Finish(i, answer) =>
      if !IsOutstanding(l, i) then l
      else
        var r := l.requests[i];
        var actual := CostOf(answer, p);
        var (rows', code) := SettleScript(l.rows, r.key, r.cents - actual, r.cents);
        if code == MISSING then l.(rows := rows', requests := l.requests[i := r.(phase := Abandoned)])
        else if code == REFUSED then l.(rows := rows', requests := l.requests[i := Request(r.key, Refunded, 0)])
        else l.(rows := rows', requests := l.requests[i := Request(r.key, Settled, actual)])
    case Abandon(i) =>
      if !IsOutstanding(l, i) then l
      else l.(requests := l.requests[i := l.requests[i].(phase := Abandoned)])
  }

  predicate IsOutstanding(l: Ledger, i: nat) {
    i < |l.requests| && l.requests[i].phase == Outstanding
  }

  function Run(digest: string -> Key, p: Prices, events: seq<Event>): Ledger {
    if events == [] then Ledger(map[], [], map[])
    else Step(Run(digest, p, events[..|events| - 1]), digest, p, events[|events| - 1])
  }

  /** The money the requests of one account hold in one phase. */
  function Total(requests: seq<Request>, key: Key, phase: Phase): int {
    if requests == [] then 0
    else Share(requests[0], key, phase) + Total(requests[1..], key, phase)
  }

  function Share(r: Request, key: Key, phase: Phase): int {
    if r.key == key && r.phase == phase then r.cents else 0
  }

  function Balance(l: Ledger, key: Key): int {
    match RowOf(l.rows, key).balance case Some(b) => b case None => 0
  }

  /** Initial credit = balance + outstanding reservations + settled charges + abandoned reservations. */
  ghost predicate Conserved(l: Ledger, key: Key)
    requires key in l.granted
  {
    l.granted[key] == Balance(l, key) + Total(l.requests, key, Outstanding)
                      + Total(l.requests, key, Settled) + Total(l.requests, key, Abandoned)
  }

  ghost predicate Inv(l: Ledger, p: Prices) {
    && l.granted.Keys == l.rows.Keys
    && (forall key :: key in l.rows ==> Complete(l.rows[key]) && Balance(l, key) >= 0)
    && (forall key :: key in l.granted ==> Conserved(l, key))
    && (forall i :: 0 <= i < |l.requests| ==>
          && l.requests[i].key in l.rows
          && l.requests[i].cents >= 0
          && (l.requests[i].phase == Outstanding ==> l.requests[i].cents == p.hit)
          && (l.requests[i].phase == Refunded ==> l.requests[i].cents == 0))
  }

  lemma {:induction false} TotalUpdate(requests: seq<Request>, i: nat, r: Request, key: Key, phase: Phase)
    requires i < |requests|
    ensures Total(requests[i := r], key, phase) ==
              Total(requests, key, phase) - Share(requests[i], key, phase) + Share(r, key, phase)
  {
    if i == 0 {
      assert requests[0 := r][1..] == requests[1..];
    } else {
      assert requests[i := r][1..] == requests[1..][i - 1 := r];
      TotalUpdate(requests[1..], i - 1, r, key, phase);
    }
  }

  lemma {:induction false} TotalAppend(requests: seq<Request>, r: Request, key: Key, phase: Phase)
    ensures Total(requests + [r], key, phase) == Total(requests, key, phase) + Share(r, key, phase)
  {
    if requests == [] {
      assert [r][1..] == [];
    } else {
      assert (requests + [r])[1..] == requests[1..] + [r];
      TotalAppend(requests[1..], r, key, phase);
    }
  }

  lemma {:induction false} TotalAbsent(requests: seq<Request>, key: Key, phase: Phase)
    requires forall i :: 0 <= i < |requests| ==> requests[i].key != key
    ensures Total(requests, key, phase) == 0
  {
    if requests != [] {
      TotalAbsent(requests[1..], key, phase);
    }
  }

  /** The three sums that, with the balance, make up the credit. */
  function Committed(requests: seq<Request>, key: Key): int {
    Total(requests, key, Outstanding) + Total(requests, key, Settled) + Total(requests, key, Abandoned)
  }

  /** What a request commits of one account's credit. */
  function Commits(r: Request, key: Key): int {
    if r.key == key && r.phase != Refunded then r.cents else 0
  }

  lemma {:induction false} CommittedUpdate(requests: seq<Request>, i: nat, r: Request, key: Key)
    requires i < |requests|
    ensures Committed(requests[i := r], key) == Committed(requests, key) - Commits(requests[i], key) + Commits(r, key)
  {
    TotalUpdate(requests, i, r, key, Outstanding);
    TotalUpdate(requests, i, r, key, Settled);
    TotalUpdate(requests, i, r, key, Abandoned);
  }

  lemma {:induction false} CommittedAppend(requests: seq<Request>, r: Request, key: Key)
    ensures Committed(requests + [r], key) == Committed(requests, key) + Commits(r, key)
  {
    TotalAppend(requests, r, key, Outstanding);
    TotalAppend(requests, r, key, Settled);
    TotalAppend(requests, r, key, Abandoned);
  }

  lemma {:induction false} CommittedAbsent(requests: seq<Request>, key: Key)
    requires forall i :: 0 <= i < |requests| ==> requests[i].key != key
    ensures Committed(requests, key) == 0
  {
    TotalAbsent(requests, key, Outstanding);
    TotalAbsent(requests, key, Settled);
    TotalAbsent(requests, key, Abandoned);
  }

  lemma {:induction false} SeedStep(l: Ledger, digest: string -> Key, p: Prices, a: SeedAccount)
    requires Inv(l, p)
    ensures Inv(Step(l, digest, p, Seed(a)), p)
  {
    var key := digest(a.apiKey);
    var l' := Step(l, digest, p, Seed(a));
    if ValidSeed(a) {
      if key in l.rows {
        SeedOneIdempotent(l.rows, digest, a);
      } else {
        CommittedAbsent(l.requests, key);
        forall k | k in l'.granted ensures Conserved(l', k) {
          if k != key { assert Conserved(l, k); }
        }
      }
    }
  }

  /** The ledger after a reservation of `cents` from this account. */
  function Reserved(l: Ledger, key: Key, cents: int): Ledger
    requires RowOf(l.rows, key).balance.Some?
  {
    l.(rows := AddBalance(l.rows, key, -cents), requests := l.requests + [Request(key, Outstanding, cents)])
  }

  lemma {:induction false} ReservedConserves(l: Ledger, key: Key, cents: int, k: Key)
    requires RowOf(l.rows, key).balance.Some? && k in l.granted && Conserved(l, k)
    ensures Conserved(Reserved(l, key, cents), k)
  {
    hide Total;
    CommittedAppend(l.requests, Request(key, Outstanding, cents), k);
  }

  lemma {:induction false} ReservedInv(l: Ledger, p: Prices, key: Key)
    requires Inv(l, p) && GoodPrices(p) && RowOf(l.rows, key).balance.Some? && Balance(l, key) >= p.hit
    ensures Inv(Reserved(l, key, p.hit), p)
  {
    hide Conserved;
    var l' := Reserved(l, key, p.hit);
    forall k | k in l'.granted ensures Conserved(l', k) {
      ReservedConserves(l, key, p.hit, k);
    }
  }

  lemma {:induction false} BeginStep(l: Ledger, digest: string -> Key, p: Prices, key: Key)
    requires Inv(l, p) && GoodPrices(p)
    ensures Inv(Step(l, digest, p, Begin(key)), p)
  {
    hide Inv;
    if RowOf(l.rows, key).balance.Some? && Balance(l, key) >= p.hit {
      ReservedInv(l, p, key);
    }
  }

  /** Request i becomes r and its account's balance moves by `delta`. */
  function Moved(l: Ledger, i: nat, r: Request, delta: int): Ledger
    requires i < |l.requests| && RowOf(l.rows, r.key).balance.Some?
  {
    l.(rows := AddBalance(l.rows, r.key, delta), requests := l.requests[i := r])
  }

  /** Moving what request i commits back to, or out of, its account's balance keeps the ledger in order. */
  lemma {:induction false} MovedInv(l: Ledger, p: Prices, i: nat, r: Request, delta: int)
    requires Inv(l, p) && i < |l.requests| && r.key == l.requests[i].key
    requires r.phase != Outstanding && r.cents >= 0 && (r.phase == Refunded ==> r.cents == 0)
    requires delta == Commits(l.requests[i], r.key) - Commits(r, r.key)
    requires Balance(l, r.key) + delta >= 0
    ensures RowOf(l.rows, r.key).balance.Some? && Inv(Moved(l, i, r, delta), p)
  {
    assert Complete(l.rows[r.key]);
    var l' := Moved(l, i, r, delta);
    forall k | k in l'.granted ensures Conserved(l', k) {
      CommittedUpdate(l.requests, i, r, k);
      assert Conserved(l, k);
    }
  }

  /** What becomes of request i: charged if the balance plus its own reservation covers the price, else refunded. */
  function Charged(l: Ledger, p: Prices, i: nat, answer: Answer): Request
    requires IsOutstanding(l, i)
  {
    var r := l.requests[i];
    if CostOf(answer, p) <= Balance(l, r.key) + r.cents then Request(r.key, Settled, CostOf(answer, p))
    else Request(r.key, Refunded, 0)
  }

  /** What the invariant says of an outstanding request and its account. */
  lemma {:induction false} OutstandingFacts(l: Ledger, p: Prices, i: nat)
    requires Inv(l, p) && IsOutstanding(l, i)
    ensures RowOf(l.rows, l.requests[i].key).balance == Some(Balance(l, l.requests[i].key))
    ensures Balance(l, l.requests[i].key) >= 0 && l.requests[i].cents == p.hit
  {
    hide Conserved;
    assert Complete(l.rows[l.requests[i].key]);
  }

  /** Finishing a request charges it as above and moves the balance by exactly reservation minus charge. */
  lemma {:induction false} FinishCharges(l: Ledger, digest: string -> Key, p: Prices, i: nat, answer: Answer)
    requires Inv(l, p) && GoodPrices(p) && IsOutstanding(l, i)
    ensures var r := Charged(l, p, i, answer);
            && RowOf(l.rows, r.key).balance.Some?
            && Step(l, digest, p, Finish(i, answer)) == Moved(l, i, r, p.hit - r.cents)
            && (answer != CacheMiss ==> r.phase == Settled)
            && l.requests[i].cents == p.hit && 0 <= r.cents <= Balance(l, r.key) + p.hit
  {
    hide Inv, RowOf, Balance;
    OutstandingFacts(l, p, i);
  }

  lemma {:induction false} FinishIdle(l: Ledger, digest: string -> Key, p: Prices, i: nat, answer: Answer)
    requires !IsOutstanding(l, i)
    ensures Step(l, digest, p, Finish(i, answer)) == l
  {
  }

  lemma {:induction false} FinishStep(l: Ledger, digest: string -> Key, p: Prices, i: nat, answer: Answer)
    requires Inv(l, p) && GoodPrices(p)
    ensures Inv(Step(l, digest, p, Finish(i, answer)), p)
  {
    hide Step, Inv, Balance, Moved, RowOf;
    if IsOutstanding(l, i) {
      FinishCharges(l, digest, p, i, answer);
      var r := Charged(l, p, i, answer);
      MovedInv(l, p, i, r, p.hit - r.cents);
    } else {
      FinishIdle(l, digest, p, i, answer);
    }
  }

  lemma {:induction false} AbandonStep(l: Ledger, digest: string -> Key, p: Prices, i: nat)
    requires Inv(l, p)
    ensures Inv(Step(l, digest, p, Abandon(i)), p)
  {
    if IsOutstanding(l, i) {
      var l' := Step(l, digest, p, Abandon(i));
      forall k | k in l'.granted ensures Conserved(l', k) {
        CommittedUpdate(l.requests, i, l'.requests[i], k);
        assert Conserved(l, k);
      }
    }
  }

  /** Every interleaving of seeds, reservations, settlements and abandoned requests conserves every account's credit. */
  lemma {:induction false} LedgerInvariant(digest: string -> Key, p: Prices, events: seq<Event>)
    requires GoodPrices(p)
    ensures Inv(Run(digest, p, events), p)
  {
    if events != [] {
      var l := Run(digest, p, events[..|events| - 1]);
      LedgerInvariant(digest, p, events[..|events| - 1]);
      match events[|events| - 1] {
        case Seed(a) => SeedStep(l, digest, p, a);
        case Begin(key) => BeginStep(l, digest, p, key);
        case Finish(i, answer) => FinishStep(l, digest, p, i, answer);
        case Abandon(i) => AbandonStep(l, digest, p, i);
      }
    }
  }

  lemma {:induction false} RunSnoc(digest: string -> Key, p: Prices, events: seq<Event>, e: Event)
    ensures Run(digest, p, events + [e]) == Step(Run(digest, p, events), digest, p, e)
  {
    assert (events + [e])[..|events|] == events;
  }

  /** Nothing is said of request i. */
  ghost predicate Undisturbed(events: seq<Event>, i: nat) {
    forall e :: e in events ==> !EndsRequest(e, i)
  }

  predicate EndsRequest(e: Event, i: nat) {
    (e.Finish? && e.request == i) || e == Abandon(i)
  }

  lemma {:induction false} OtherStep(l: Ledger, digest: string -> Key, p: Prices, e: Event, i: nat)
    requires i < |l.requests| && !EndsRequest(e, i)
    ensures i < |Step(l, digest, p, e).requests| && Step(l, digest, p, e).requests[i] == l.requests[i]
  {
    hide ReserveScript, SettleScript, SeedOne;
  }

  lemma {:induction false} StaysOutstanding(digest: string -> Key, p: Prices, events: seq<Event>, between: seq<Event>, i: nat)
    requires i < |Run(digest, p, events).requests| && Undisturbed(between, i)
    ensures i < |Run(digest, p, events + between).requests|
    ensures Run(digest, p, events + between).requests[i] == Run(digest, p, events).requests[i]
  {
    hide Run, Step, EndsRequest;
    if between == [] {
      assert events + between == events;
    } else {
      var n := |between| - 1;
      assert between[n] in between && forall e :: e in between[..n] ==> e in between;
      StaysOutstanding(digest, p, events, between[..n], i);
      OtherStep(Run(digest, p, events + between[..n]), digest, p, between[n], i);
      RunSnoc(digest, p, events + between[..n], between[n]);
      assert (events + between[..n]) + [between[n]] == events + between;
    }
  }

  /**
   One request among all others, from its reservation to its settlement: a failure costs nothing, a cached
   profile the price of a hit, a fetched one the price of a miss if the account can pay it and otherwise
   nothing; no other account is touched.
   */
  lemma {:induction false} RequestCosts(digest: string -> Key, p: Prices, before: seq<Event>, key: Key, between: seq<Event>,
                                        answer: Answer)
    requires GoodPrices(p) && key in Run(digest, p, before).rows && p.hit <= Balance(Run(digest, p, before), key)
    requires Undisturbed(between, |Run(digest, p, before).requests|)
    ensures var i := |Run(digest, p, before).requests|;
            var l0, l1 := Run(digest, p, before), Run(digest, p, before + [Begin(key)]);
            var l2 := Run(digest, p, before + [Begin(key)] + between);
            var l3 := Run(digest, p, before + [Begin(key)] + between + [Finish(i, answer)]);
            var cost := match answer
                        case Failure => 0
                        case CacheHit => p.hit
                        case CacheMiss => if p.miss <= Balance(l2, key) + p.hit then p.miss else 0;
            && Balance(l1, key) == Balance(l0, key) - p.hit
            && Balance(l3, key) == Balance(l2, key) + p.hit - cost
            && l3.rows == l2.rows[key := RowOf(l2.rows, key).(balance := Some(Balance(l3, key)))]
            && i < |l3.requests| && l3.requests[i].cents == cost && l3.requests[i].phase != Outstanding
            && (between == [] && answer == Failure ==> l3.rows == l0.rows)
  {
    hide Run, Inv, SettleScript, ReserveScript;
    var l0, i := Run(digest, p, before), |Run(digest, p, before).requests|;
    LedgerInvariant(digest, p, before);
    RunSnoc(digest, p, before, Begin(key));
    BeginReserves(l0, digest, p, key);
    var begun := before + [Begin(key)];
    StaysOutstanding(digest, p, begun, between, i);
    LedgerInvariant(digest, p, begun + between);
    var l2 := Run(digest, p, begun + between);
    RunSnoc(digest, p, begun + between, Finish(i, answer));
    FinishCharges(l2, digest, p, i, answer);
    if between == [] {
      assert begun + between == begun;
      RowBack(l0.rows, key, p.hit);
    }
  }

  lemma {:induction false} EndedStep(l: Ledger, digest: string -> Key, p: Prices, e: Event, i: nat)
    requires i < |l.requests| && l.requests[i].phase != Outstanding
    ensures i < |Step(l, digest, p, e).requests| && Step(l, digest, p, e).requests[i] == l.requests[i]
  {
    hide ReserveScript, SettleScript, SeedOne;
  }

  lemma {:induction false} EndedStays(digest: string -> Key, p: Prices, events: seq<Event>, more: seq<Event>, i: nat)
    requires i < |Run(digest, p, events).requests| && Run(digest, p, events).requests[i].phase != Outstanding
    ensures i < |Run(digest, p, events + more).requests|
    ensures Run(digest, p, events + more).requests[i] == Run(digest, p, events).requests[i]
  {
    hide Run, Step;
    if more == [] {
      assert events + more == events;
    } else {
      var n := |more| - 1;
      EndedStays(digest, p, events, more[..n], i);
      EndedStep(Run(digest, p, events + more[..n]), digest, p, more[n], i);
      RunSnoc(digest, p, events + more[..n], more[n]);
      assert (events + more[..n]) + [more[n]] == events + more;
    }
  }

  /** What an abandoned request had reserved is lost: nothing that happens later gives it back, a late settlement included. */
  lemma {:induction false} AbandonedIsLost(digest: string -> Key, p: Prices, before: seq<Event>, key: Key, between: seq<Event>,
                                           more: seq<Event>)
    requires GoodPrices(p) && key in Run(digest, p, before).rows && p.hit <= Balance(Run(digest, p, before), key)
    requires Undisturbed(between, |Run(digest, p, before).requests|)
    ensures var i := |Run(digest, p, before).requests|;
            var open := before + [Begin(key)] + between;
            var l := Run(digest, p, open + [Abandon(i)] + more);
            && Run(digest, p, open + [Abandon(i)]).rows == Run(digest, p, open).rows
            && i < |l.requests| && l.requests[i] == Request(key, Abandoned, p.hit)
  {
    hide Run, Inv, SettleScript, ReserveScript;
    var l0, i := Run(digest, p, before), |Run(digest, p, before).requests|;
    LedgerInvariant(digest, p, before);
    RunSnoc(digest, p, before, Begin(key));
    BeginReserves(l0, digest, p, key);
    var open := before + [Begin(key)] + between;
    StaysOutstanding(digest, p, before + [Begin(key)], between, i);
    RunSnoc(digest, p, open, Abandon(i));
    EndedStays(digest, p, open + [Abandon(i)], more, i);
  }

  lemma {:induction false} BeginReserves(l: Ledger, digest: string -> Key, p: Prices, key: Key)
    requires Inv(l, p) && GoodPrices(p) && key in l.rows && p.hit <= Balance(l, key)
    ensures RowOf(l.rows, key).balance.Some? && Step(l, digest, p, Begin(key)) == Reserved(l, key, p.hit)
  {
    hide Conserved;
    assert Complete(l.rows[key]);
  }

  lemma {:induction false} RowBack(rows: Store, key: Key, cents: int)
    requires key in rows && rows[key].balance.Some?
    ensures AddBalance(AddBalance(rows, key, -cents), key, cents) == rows
  {
    var taken := AddBalance(rows, key, -cents);
    assert AddBalance(taken, key, cents)[key] == rows[key];
  }

  lemma {:induction false} TotalNonNegative(requests: seq<Request>, key: Key, phase: Phase)
    requires forall i :: 0 <= i < |requests| ==> requests[i].cents >= 0
    ensures Total(requests, key, phase) >= 0
  {
    if requests != [] {
      TotalNonNegative(requests[1..], key, phase);
    }
  }

  /** No account is ever charged, or held back, more than it was granted. */
  lemma {:induction false} NeverOverspent(digest: string -> Key, p: Prices, events: seq<Event>, key: Key)
    requires GoodPrices(p) && key in Run(digest, p, events).granted
    ensures var l := Run(digest, p, events);
            && 0 <= Balance(l, key) <= l.granted[key]
            && Total(l.requests, key, Settled) + Total(l.requests, key, Outstanding) <= l.granted[key]
  {
    var l := Run(digest, p, events);
    LedgerInvariant(digest, p, events);
    assert Conserved(l, key);
    TotalNonNegative(l.requests, key, Outstanding);
    TotalNonNegative(l.requests, key, Settled);
    TotalNonNegative(l.requests, key, Abandoned);
  }

  /** In a ledger in order, each answer of the reserve script means one thing, and any other is the new balance. */
  lemma {:induction false} ReserveCodes(l: Ledger, p: Prices, key: Key)
    requires Inv(l, p) && GoodPrices(p)
    ensures var (rows', code) := ReserveScript(l.rows, key, p.hit);
            && (code == MISSING <==> key !in l.rows)
            && (code == REFUSED <==> key in l.rows && Balance(l, key) < p.hit)
            && (code != MISSING && code != REFUSED ==> 0 <= code == Balance(l.(rows := rows'), key))
  {
    if key in l.rows {
      assert Complete(l.rows[key]) && Balance(l, key) >= 0;
    }
  }

  /** Likewise for the settle script; an outstanding request never finds its account missing. */
  lemma {:induction false} SettleCodes(l: Ledger, p: Prices, i: nat, answer: Answer)
    requires Inv(l, p) && GoodPrices(p) && IsOutstanding(l, i)
    ensures var r := l.requests[i];
            var (rows', code) := SettleScript(l.rows, r.key, r.cents - CostOf(answer, p), r.cents);
            && code != MISSING
            && (code == REFUSED <==> Balance(l, r.key) + r.cents < CostOf(answer, p))
            && (code != REFUSED ==> 0 <= code == Balance(l.(rows := rows'), r.key))
  {
    var key := l.requests[i].key;
    assert Complete(l.rows[key]) && Balance(l, key) >= 0;
  }

  /** Re-seeding a known account, with whatever email or credit, changes nothing in any reachable ledger. */
  lemma {:induction false} ReseedEvent(digest: string -> Key, p: Prices, events: seq<Event>, a: SeedAccount)
    requires GoodPrices(p) && digest(a.apiKey) in Run(digest, p, events).rows
    ensures Step(Run(digest, p, events), digest, p, Seed(a)) == Run(digest, p, events)
  {
    var l := Run(digest, p, events);
    LedgerInvariant(digest, p, events);
    assert Complete(l.rows[digest(a.apiKey)]);
    SeedOneIdempotent(l.rows, digest, a);
  }
}
