/** The requests the server handles, each against the shared tables.

    `process` turns an error into an ERROR response and still commits; no handler here has written
    anything when it fails. */
module Handlers {
  import opened Rows
  import opened Manager
  import L = Lifecycle
  import N = Feeds
  import Ingestion
  import Registry
  import Keys

  datatype Response = Success(description: string) | Failure

  datatype ExpectedRequest = ExpectedRequest(
    uuid: Option<nat>, expectedAddress: Option<string>, expectedAmount: Option<real>,
    expectedCurrency: string, walletAddress: string)

  datatype InputRequest = InputRequest(
    uuid: nat, fromAddress: string, hash: string, currency: string, walletAddress: string, amount: real)

  // ---------- Batch confirmation ----------

  /** The rows a list of hashes confirms. */
  ghost function HitIds(trxs: seq<Trx>, hashes: seq<string>): set<nat> {
    set i | 0 <= i < |trxs| && L.Confirmable(trxs[i]) && trxs[i].hash.value in hashes
  }

  predicate Hit(trxs: seq<Trx>, hash: string) {
    exists i | 0 <= i < |trxs| :: trxs[i].hash == Some(hash) && trxs[i].status != REPORTED
  }

  /** How many elements of the list name a row that is not yet reported. */
  function Hits(trxs: seq<Trx>, hashes: seq<string>): nat {
    if hashes == [] then 0
    else Hits(trxs, hashes[..|hashes| - 1]) + (if Hit(trxs, hashes[|hashes| - 1]) then 1 else 0)
  }

  /** Confirming rows changes neither hashes nor which rows can still be found. */
  lemma ConfirmingKeepsMatches(trxs: seq<Trx>, ids: set<nat>, i: nat, hash: string)
    requires i < |trxs| && forall j | j in ids :: j < |trxs| && L.Confirmable(trxs[j])
    ensures var after := L.ConfirmAll(trxs, ids)[i];
      (after.hash == Some(hash) && after.status != REPORTED)
      <==> (trxs[i].hash == Some(hash) && trxs[i].status != REPORTED)
  {
  }

  lemma OneRowPerHash(trxs: seq<Trx>, i: nat, j: nat)
    requires Unique(trxs) && i < |trxs| && j < |trxs| && trxs[i].hash.Some? && trxs[i].hash == trxs[j].hash
    ensures i == j
  {
  }

  lemma HitIdsGrow(trxs: seq<Trx>, hashes: seq<string>, hash: string)
    requires Unique(trxs)
    ensures !Hit(trxs, hash) ==> HitIds(trxs, hashes + [hash]) == HitIds(trxs, hashes)
    ensures forall i | 0 <= i < |trxs| && trxs[i].hash == Some(hash) && trxs[i].status != REPORTED ::
      HitIds(trxs, hashes + [hash]) == HitIds(trxs, hashes) + {i}
  {
    forall i | 0 <= i < |trxs| && trxs[i].hash == Some(hash) && trxs[i].status != REPORTED
      ensures HitIds(trxs, hashes + [hash]) == HitIds(trxs, hashes) + {i}
    {
      forall j | j in HitIds(trxs, hashes + [hash]) ensures j in HitIds(trxs, hashes) + {i} {
        if trxs[j].hash == Some(hash) {
          OneRowPerHash(trxs, i, j);
        }
      }
    }
  }

  /** On a list without repetitions the reported count is the number of rows confirmed. */
  lemma {:induction false} HitsCountRows(trxs: seq<Trx>, hashes: seq<string>)
    requires Unique(trxs) && forall m, n | 0 <= m < n < |hashes| :: hashes[m] != hashes[n]
    ensures Hits(trxs, hashes) == |HitIds(trxs, hashes)|
  {
    if hashes != [] {
      var before, last := hashes[..|hashes| - 1], hashes[|hashes| - 1];
      assert hashes == before + [last];
      HitsCountRows(trxs, before);
      HitIdsGrow(trxs, before, last);
      if Hit(trxs, last) {
        var i :| 0 <= i < |trxs| && trxs[i].hash == Some(last) && trxs[i].status != REPORTED;
        assert i !in HitIds(trxs, before);
      }
    }
  }

  /** The reported count is the number of places in the list whose hash some row carries that is not REPORTED. */
  lemma {:induction false} HitsCountPlaces(trxs: seq<Trx>, hashes: seq<string>)
    ensures Hits(trxs, hashes) == |set n | 0 <= n < |hashes| &&
      (exists i :: 0 <= i < |trxs| && trxs[i].hash == Some(hashes[n]) && trxs[i].status != REPORTED)|
  {
    var places := set n | 0 <= n < |hashes| && Hit(trxs, hashes[n]);
    HitsCountHits(trxs, hashes);
    assert places == set n | 0 <= n < |hashes| &&
      (exists i :: 0 <= i < |trxs| && trxs[i].hash == Some(hashes[n]) && trxs[i].status != REPORTED);
  }

  lemma {:induction false} HitsCountHits(trxs: seq<Trx>, hashes: seq<string>)
    ensures Hits(trxs, hashes) == |set n | 0 <= n < |hashes| && Hit(trxs, hashes[n])|
  {
    if hashes != [] {
      var last := |hashes| - 1;
      var before := set n | 0 <= n < last && Hit(trxs, hashes[..last][n]);
      HitsCountHits(trxs, hashes[..last]);
      assert (set n | 0 <= n < |hashes| && Hit(trxs, hashes[n]))
          == if Hit(trxs, hashes[last]) then before + {last} else before;
    }
  }

  /** The whole batch is one indivisible step; a second one with the same list counts the same and changes
      nothing. */
  lemma BatchIsOneStep(db: Store, acks: multiset<L.Ack>, hashes: seq<string>)
    requires StoreOk(db)
    ensures var s, step := L.State(db, acks), L.ConfirmRows(HitIds(db.trxs, hashes));
      && L.Enabled(s, step)
      && L.Apply(s, step).db.trxs == L.ConfirmAll(db.trxs, HitIds(db.trxs, hashes))
    ensures var after := L.ConfirmAll(db.trxs, HitIds(db.trxs, hashes));
      && L.ConfirmAll(after, HitIds(after, hashes)) == after
      && Hits(after, hashes) == Hits(db.trxs, hashes)
  {
    var ids := HitIds(db.trxs, hashes);
    var after := L.ConfirmAll(db.trxs, ids);
    assert L.ConfirmAll(after, HitIds(after, hashes)) == after;
    SameHits(db.trxs, ids, hashes);
  }

  lemma {:induction false} SameHits(trxs: seq<Trx>, ids: set<nat>, hashes: seq<string>)
    requires forall j | j in ids :: j < |trxs| && L.Confirmable(trxs[j])
    ensures Hits(L.ConfirmAll(trxs, ids), hashes) == Hits(trxs, hashes)
  {
    if hashes != [] {
      SameHits(trxs, ids, hashes[..|hashes| - 1]);
      forall i | 0 <= i < |trxs|
        ensures var after := L.ConfirmAll(trxs, ids)[i];
          (after.hash == Some(hashes[|hashes| - 1]) && after.status != REPORTED)
          <==> (trxs[i].hash == Some(hashes[|hashes| - 1]) && trxs[i].status != REPORTED)
      {
        ConfirmingKeepsMatches(trxs, ids, i, hashes[|hashes| - 1]);
      }
    }
  }

  lemma ConfirmOneMore(trxs: seq<Trx>, ids: set<nat>, i: nat)
    requires Unique(trxs) && i < |trxs|
    ensures var now := L.ConfirmAll(trxs, ids);
      && Insertable(now[..i] + now[i + 1..], Confirmed(now[i]))
      && (trxs[i].status != REPORTED ==> now[i := Confirmed(now[i])] == L.ConfirmAll(trxs, ids + {i}))
  {
    var now := L.ConfirmAll(trxs, ids);
    L.SameKeysKeepUnique(trxs, now);
    SameKeysReplace(now, i, Confirmed(now[i]));
  }

  /** Some wallet has this address and this currency. */
  predicate HasWallet(wallets: seq<Wallet>, address: string, slug: string) {
    exists i | 0 <= i < |wallets| :: wallets[i].address == address && wallets[i].currencySlug == slug
  }

  // ---------- Rows that requests bring ----------

  /** The row of an expected deposit. */
  function ExpectedRow(wallets: seq<Wallet>, wid: nat, r: ExpectedRequest): Trx
    requires wid < |wallets| && r.expectedAddress.Some? && r.expectedAmount.Some?
  {
    NewTrx(None, r.expectedAddress.value, wallets[wid].address, r.expectedCurrency, r.expectedAmount.value,
           Some(wid), r.uuid)
  }

  /** The row of a chain transaction added by hand: its hash is stored as the request spells it. */
  function InputRow(wallets: seq<Wallet>, wid: nat, r: InputRequest): Trx
    requires wid < |wallets|
  {
    NewTrx(Some(r.hash), r.fromAddress, wallets[wid].address, r.currency, r.amount, Some(wid), Some(r.uuid))
  }

  /** A row may be written by one of the two creating requests exactly when it is the row of such a request for a
      wallet of that address and currency. */
  lemma RequestedIff(wallets: seq<Wallet>, t: Trx)
    ensures L.Requested(wallets, t) <==>
      || (exists wid: nat, r: ExpectedRequest ::
            && wid < |wallets| && r.expectedAddress.Some? && r.expectedAmount.Some?
            && wallets[wid].address == r.walletAddress && wallets[wid].currencySlug == r.expectedCurrency
            && t == ExpectedRow(wallets, wid, r))
      || (exists wid: nat, r: InputRequest ::
            && wid < |wallets|
            && wallets[wid].address == r.walletAddress && wallets[wid].currencySlug == r.currency
            && t == InputRow(wallets, wid, r))
  {
    if L.Requested(wallets, t) {
      var wid := t.walletId.value;
      if t.hash.None? {
        var r := ExpectedRequest(t.uuid, Some(t.addressFrom), Some(t.value), t.currencySlug, t.addressTo);
        assert t == ExpectedRow(wallets, wid, r);
      } else {
        var r := InputRequest(t.uuid.value, t.addressFrom, t.hash.value, t.currencySlug, t.addressTo, t.value);
        assert t == InputRow(wallets, wid, r);
      }
    }
  }

  /** Every row that comes in with a hash, or gets one, is offered to Transactions; and every row of a platform wallet
      that has a uuid is offered to the Exchanger once it is confirmed. */
  lemma NewRowsAreOffered(wallets: seq<Wallet>, wid: nat, e: Entry, r: InputRequest, d: ExpectedRequest,
                          deposit: L.Deposit, t: Trx)
    requires wid < |wallets| && e.addressTo.Some? && d.expectedAddress.Some? && d.expectedAmount.Some?
    ensures L.Due(wallets, L.Transactions, IngestedRow(wid, e))
    ensures L.Due(wallets, L.Transactions, InputRow(wallets, wid, r))
    ensures L.Due(wallets, L.Transactions, Filled(ExpectedRow(wallets, wid, d), deposit.hash, deposit.value))
    ensures !L.Due(wallets, L.Transactions, ExpectedRow(wallets, wid, d))
    ensures (&& t.hash.Some? && t.uuid.Some? && t.walletId.Some? && t.walletId.value < |wallets|
             && wallets[t.walletId.value].isPlatform)
      ==> L.Due(wallets, L.Exchanger, Confirmed(t))
  {
  }

  /** A chain transaction added by hand under a hash with upper-case letters is stored once more, as soon as
      ingestion meets it, unless its lower-cased hash was stored already. */
  lemma AddedByHandIsStoredTwice(wallets: seq<Wallet>, trxs: seq<Trx>, wid: nat, r: InputRequest, event: N.Event)
    requires wid < |wallets| && !Lowered(r.hash)
    requires event.Arrival? && event.wid < |wallets| && event.entry.hash == Lower(r.hash)
    requires Addressed(wallets[event.wid], event.entry) && !HasHash(trxs, Lower(r.hash))
    ensures var added := trxs + [InputRow(wallets, wid, r)];
      var after := Ingestion.Handle(wallets, added, event).trxs;
      && after == added + [IngestedRow(event.wid, event.entry)]
      && Lower(after[|trxs|].hash.value) == Lower(after[|trxs| + 1].hash.value)
      && !Ingestion.CaseDistinct(after)
  {
    var row := InputRow(wallets, wid, r);
    var added := trxs + [row];
    LowerTwice(r.hash);
    Ingestion.HashAfterAppend(trxs, row, Lower(r.hash));
    var after := Ingestion.Handle(wallets, added, event).trxs;
    assert after[|trxs|] == row && after[|trxs| + 1] == IngestedRow(event.wid, event.entry);
  }

  class Server {
    const db: Database

    constructor (db: Database)
      ensures this.db == db
    {
      this.db := db;
    }

    method StartMonitoring(r: Registry.Request) returns (response: Response)
      requires r.Start?
      modifies db`wallets
      ensures response.Success? <==> !Registry.Registered(old(db.wallets), r.externalId)
      ensures db.wallets == old(db.wallets) + (
        if response.Success? then [Wallet(r.currencySlug, r.address, r.externalId, r.isPlatform, true, true)] else [])
      ensures db.wallets == Registry.Serve(old(db.wallets), r)
    {
      var byId := (w: Wallet) => w.externalId == r.externalId;
      var found := Exists(db.wallets, [byId]);
      forall i | 0 <= i < |db.wallets| ensures All([byId], db.wallets[i]) <==> byId(db.wallets[i]) {
        AllOfOne(byId, db.wallets[i]);
      }
      if found {
        return Failure;
      }
      db.CreateWallet(Registry.NewWallet(r));
      return Success("");
    }

    /** Turns off some wallet with the id, the only one where ids are unique; the answer is a success whether or
        not there is one. */
    method StopMonitoring(r: Registry.Request) returns (response: Response)
      requires r.Stop?
      modifies db`wallets
      ensures response.Success? && (response.description == "" <==> Registry.Registered(old(db.wallets), r.externalId))
      ensures if Registry.Registered(old(db.wallets), r.externalId)
        then exists i :: 0 <= i < |old(db.wallets)| && old(db.wallets)[i].externalId == r.externalId
                      && db.wallets == old(db.wallets)[i := old(db.wallets)[i].(onMonitoring := false)]
        else db.wallets == old(db.wallets)
      ensures Registry.UniqueIds(old(db.wallets)) ==> db.wallets == Registry.Serve(old(db.wallets), r)
    {
      var byId := (w: Wallet) => w.externalId == r.externalId;
      var id := Get(db.wallets, [byId]);
      forall i | 0 <= i < |db.wallets| ensures All([byId], db.wallets[i]) <==> byId(db.wallets[i]) {
        AllOfOne(byId, db.wallets[i]);
      }
      match id
      case Some(i) =>
        var wallet := db.wallets[i].(onMonitoring := false);
        Registry.TurnsOffOne(db.wallets, i);
        db.UpdateWallet(i, wallet);
        return Success("");
      case None =>
        assert db.wallets == Registry.TurnedOff(db.wallets, r.externalId);
        return Success("Wallet does not exist in db");
    }

    /** Confirms exactly the rows named by the list that are not reported, one query and one write at a time. */
    method UpdateTrx(hashes: seq<string>) returns (response: Response)
      requires db.Valid()
      modifies db`trxs
      ensures db.Valid()
      ensures |db.trxs| == |old(db.trxs)|
      ensures forall i | 0 <= i < |db.trxs| ::
                var t := old(db.trxs)[i];
                if t.hash.Some? && t.hash.value in hashes && t.status != REPORTED
                then db.trxs[i] == t.(status := CONFIRMED, confirmedAt := true) else db.trxs[i] == t
      ensures db.trxs == L.ConfirmAll(old(db.trxs), HitIds(old(db.trxs), hashes))
      ensures response == Success("Confirmed " + Keys.Print(Hits(old(db.trxs), hashes)) + " Transactions")
    {
      ghost var was := db.trxs;
      var counter := 0;
      assert L.ConfirmAll(was, HitIds(was, [])) == was;
      for n := 0 to |hashes|
        invariant db.trxs == L.ConfirmAll(was, HitIds(was, hashes[..n]))
        invariant counter == Hits(was, hashes[..n])
      {
        ghost var ids := HitIds(was, hashes[..n]);
        assert hashes[..n + 1] == hashes[..n] + [hashes[n]];
        assert hashes[..n + 1][..n] == hashes[..n];
        HitIdsGrow(was, hashes[..n], hashes[n]);
        var id := FindConfirmable(was, ids, hashes[n]);
        match id
        case Some(i) =>
          assert Hit(was, hashes[n]);
          ConfirmOneMore(was, ids, i);
          var done := db.UpdateTrx(i, Confirmed(db.trxs[i]));
          counter := counter + 1;
        case None =>
          assert !Hit(was, hashes[n]);
      }
      assert hashes[..|hashes|] == hashes;
      L.SameKeysKeepUnique(was, db.trxs);
      response := Success("Confirmed " + Keys.Print(counter) + " Transactions");
    }

    /** The row that carries the hash, unless it has been reported. */
    method FindConfirmable(ghost was: seq<Trx>, ghost ids: set<nat>, hash: string) returns (id: Option<nat>)
      requires db.trxs == L.ConfirmAll(was, ids)
      requires forall j | j in ids :: j < |was| && L.Confirmable(was[j])
      ensures match id
        case Some(i) => i < |was| && was[i].hash == Some(hash) && was[i].status != REPORTED
        case None => !Hit(was, hash)
    {
      var byHash := (t: Trx) => t.hash == Some(hash);
      var notReported := (t: Trx) => t.status != REPORTED;
      id := Get(db.trxs, [byHash, notReported]);
      forall i | 0 <= i < |db.trxs|
        ensures All([byHash, notReported], db.trxs[i]) <==> was[i].hash == Some(hash) && was[i].status != REPORTED
      {
        AllOfTwo(byHash, notReported, db.trxs[i]);
        ConfirmingKeepsMatches(was, ids, i, hash);
      }
    }

    method GetExchangerWallet(address: string, slug: string) returns (id: Option<nat>)
      ensures match id
        case Some(i) =>
          i < |db.wallets| && db.wallets[i].address == address && db.wallets[i].currencySlug == slug
        case None => !HasWallet(db.wallets, address, slug)
    {
      var byAddress := (w: Wallet) => w.address == address;
      var bySlug := (w: Wallet) => w.currencySlug == slug;
      id := Get(db.wallets, [byAddress, bySlug]);
      forall i | 0 <= i < |db.wallets|
        ensures All([byAddress, bySlug], db.wallets[i]) <==> byAddress(db.wallets[i]) && bySlug(db.wallets[i])
      {
        AllOfTwo(byAddress, bySlug, db.wallets[i]);
      }
    }

    /** Adds the row, or fails on a unique column; either way the tables stay as required. */
    method Add(t: Trx) returns (response: Response)
      requires db.Valid() && L.Requested(db.wallets, t)
      modifies db`trxs
      ensures db.Valid()
      ensures response.Success? <==> Insertable(old(db.trxs), t)
      ensures db.trxs == if response.Success? then old(db.trxs) + [t] else old(db.trxs)
    {
      InsertKeepsUnique(db.trxs, t);
      var id := db.CreateTrx(t);
      response := if id.Some? then Success("") else Failure;
    }

    /** Registers an expected deposit: a row without hash for a wallet of that address and currency. It fails, and
        adds nothing, exactly when there is no such wallet, a mandatory column is missing or the uuid is taken. */
    method StartMonitoringPlatformWallet(r: ExpectedRequest) returns (response: Response)
      requires db.Valid()
      modifies db`trxs
      ensures db.Valid()
      ensures response.Success? <==>
        && HasWallet(db.wallets, r.walletAddress, r.expectedCurrency)
        && r.expectedAddress.Some? && r.expectedAmount.Some?
        && (r.uuid.Some? ==> !HasUuid(old(db.trxs), r.uuid.value))
      ensures response.Failure? ==> db.trxs == old(db.trxs)
      ensures response.Success? ==>
        && |db.trxs| == |old(db.trxs)| + 1 && db.trxs[..|old(db.trxs)|] == old(db.trxs)
        && exists wid :: 0 <= wid < |db.wallets| && db.wallets[wid].address == r.walletAddress
             && db.wallets[wid].currencySlug == r.expectedCurrency
             && db.trxs[|old(db.trxs)|] == Trx(NEW, None, r.expectedAddress.value, r.walletAddress, r.expectedCurrency,
                                               r.expectedAmount.value, false, false, Some(wid), r.uuid)
    {
      var wid := GetExchangerWallet(r.walletAddress, r.expectedCurrency);
      if wid.None? || r.expectedAddress.None? || r.expectedAmount.None? {
        return Failure;
      }
      response := Add(ExpectedRow(db.wallets, wid.value, r));
    }

    /** Adds a chain transaction by hand. It fails, and adds nothing, exactly when there is no such wallet or the
        hash or the uuid is taken. */
    method AddInputTransaction(r: InputRequest) returns (response: Response)
      requires db.Valid()
      modifies db`trxs
      ensures db.Valid()
      ensures response.Success? <==>
        && HasWallet(db.wallets, r.walletAddress, r.currency)
        && !HasHash(old(db.trxs), r.hash) && !HasUuid(old(db.trxs), r.uuid)
      ensures response.Failure? ==> db.trxs == old(db.trxs)
      ensures response.Success? ==>
        && |db.trxs| == |old(db.trxs)| + 1 && db.trxs[..|old(db.trxs)|] == old(db.trxs)
        && response.description == "added Input transaction hash: " + r.hash
        && exists wid :: 0 <= wid < |db.wallets| && db.wallets[wid].address == r.walletAddress
             && db.wallets[wid].currencySlug == r.currency
             && db.trxs[|old(db.trxs)|] == Trx(NEW, Some(r.hash), r.fromAddress, r.walletAddress, r.currency,
                                               r.amount, false, false, Some(wid), Some(r.uuid))
    {
      var wid := GetExchangerWallet(r.walletAddress, r.currency);
      if wid.None? {
        return Failure;
      }
      var byHash := (t: Trx) => t.hash == Some(r.hash);
      var found := Exists(db.trxs, [byHash]);
      forall i | 0 <= i < |db.trxs| ensures All([byHash], db.trxs[i]) <==> byHash(db.trxs[i]) {
        AllOfOne(byHash, db.trxs[i]);
      }
      if found {
        return Failure;
      }
      response := Add(InputRow(db.wallets, wid.value, r));
      if response.Success? {
        response := Success("added Input transaction hash: " + r.hash);
      }
    }
  }
}
