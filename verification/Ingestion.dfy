/** Ingestion of chain transactions of monitored wallets. */
module Ingestion {
  import opened Rows
  import opened Feeds
  import opened Manager
  import L = Lifecycle

  // ---------- The loop as a function ----------

  datatype Outcome = Outcome(trxs: seq<Trx>, raised: bool)

  function Handle(wallets: seq<Wallet>, trxs: seq<Trx>, event: Event): Outcome
    requires event.Arrival? ==> event.wid < |wallets|
  {
    if event.Error? then Outcome(trxs, true)
    else if HasHash(trxs, event.entry.hash) then Outcome(trxs, false)
    else if event.entry.addressTo.None? then Outcome(trxs, true)
    else if Addressed(wallets[event.wid], event.entry) then
      Outcome(trxs + [IngestedRow(event.wid, event.entry)], false)
    else Outcome(trxs, false)
  }

  function Ingest(wallets: seq<Wallet>, trxs: seq<Trx>, events: seq<Event>): Outcome
    requires Known(wallets, events)
  {
    if events == [] then Outcome(trxs, false)
    else
      var before := Ingest(wallets, trxs, events[..|events| - 1]);
      if before.raised then before else Handle(wallets, before.trxs, events[|events| - 1])
  }

  /** The nested loop: over the wallets, and over the feed of each. */
  function IngestWallets(wallets: seq<Wallet>, trxs: seq<Trx>, visits: Visits, wids: seq<nat>): Outcome
    requires forall i | 0 <= i < |wids| :: wids[i] < |wallets|
  {
    KnownEvents(wallets, visits, wids);
    Ingest(wallets, trxs, Events(visits, wids))
  }

  // ---------- What it means: first occurrences ----------

  /** The element carries a hash to the wallet it was fetched for. */
  predicate Carries(wallets: seq<Wallet>, event: Event, hash: string)
    requires event.Arrival? ==> event.wid < |wallets|
  {
    event.Arrival? && event.entry.hash == hash && Addressed(wallets[event.wid], event.entry)
  }

  /** No earlier element carried the hash, and the table did not have it. */
  predicate New(wallets: seq<Wallet>, trxs: seq<Trx>, events: seq<Event>, k: nat, hash: string)
    requires Known(wallets, events) && k <= |events|
  {
    !HasHash(trxs, hash) && forall j | 0 <= j < k :: !Carries(wallets, events[j], hash)
  }

  /** Element `k` is the first to carry a hash that is not stored. */
  predicate First(wallets: seq<Wallet>, trxs: seq<Trx>, events: seq<Event>, k: nat)
    requires Known(wallets, events) && k < |events|
  {
    && events[k].Arrival?
    && Addressed(wallets[events[k].wid], events[k].entry)
    && New(wallets, trxs, events, k, events[k].entry.hash)
  }

  /** The gateway failed, or the element has no target although its hash is new. */
  predicate Faulty(wallets: seq<Wallet>, trxs: seq<Trx>, events: seq<Event>, k: nat)
    requires Known(wallets, events) && k < |events|
  {
    events[k].Error? || (events[k].entry.addressTo.None? && New(wallets, trxs, events, k, events[k].entry.hash))
  }

  /** The places of the first occurrences among the first `n` elements, in order. */
  function Firsts(wallets: seq<Wallet>, trxs: seq<Trx>, events: seq<Event>, n: nat): (places: seq<nat>)
    requires Known(wallets, events) && n <= |events|
    ensures forall p | 0 <= p < |places| :: places[p] < n && First(wallets, trxs, events, places[p])
    ensures forall p, q | 0 <= p < q < |places| :: places[p] < places[q]
    ensures forall k | 0 <= k < n && First(wallets, trxs, events, k) :: k in places
  {
    if n == 0 then []
    else
      var places := Firsts(wallets, trxs, events, n - 1);
      if First(wallets, trxs, events, n - 1) then places + [n - 1] else places
  }

  function RowsAt(wallets: seq<Wallet>, trxs: seq<Trx>, events: seq<Event>, n: nat): seq<Trx>
    requires Known(wallets, events) && n <= |events|
  {
    var places := Firsts(wallets, trxs, events, n);
    seq(|places|, p requires 0 <= p < |places| => IngestedRow(events[places[p]].wid, events[places[p]].entry))
  }

  lemma HashAfterAppend(trxs: seq<Trx>, t: Trx, hash: string)
    ensures HasHash(trxs + [t], hash) <==> HasHash(trxs, hash) || t.hash == Some(hash)
  {
    if t.hash == Some(hash) {
      assert (trxs + [t])[|trxs|] == t;
    }
    if HasHash(trxs, hash) {
      var i :| 0 <= i < |trxs| && trxs[i].hash == Some(hash);
      assert (trxs + [t])[i] == trxs[i];
    }
  }

  lemma NewAfter(wallets: seq<Wallet>, trxs: seq<Trx>, events: seq<Event>, n: nat, hash: string)
    requires Known(wallets, events) && 0 < n <= |events|
    ensures New(wallets, trxs, events, n, hash) <==>
      New(wallets, trxs, events, n - 1, hash) && !Carries(wallets, events[n - 1], hash)
  {
  }

  /** What the loop has done after `n` elements. */
  ghost predicate Means(wallets: seq<Wallet>, trxs: seq<Trx>, events: seq<Event>, n: nat, r: Outcome)
    requires Known(wallets, events) && n <= |events|
  {
    && (r.raised <==> exists k :: 0 <= k < n && Faulty(wallets, trxs, events, k))
    && (!r.raised ==>
          && r.trxs == trxs + RowsAt(wallets, trxs, events, n)
          && (forall hash :: !HasHash(r.trxs, hash) <==> New(wallets, trxs, events, n, hash)))
  }

  lemma HandleMeans(wallets: seq<Wallet>, trxs: seq<Trx>, events: seq<Event>, n: nat, before: Outcome, r: Outcome)
    requires Known(wallets, events) && 0 < n <= |events|
    requires Means(wallets, trxs, events, n - 1, before) && !before.raised
    requires !Faulty(wallets, trxs, events, n - 1)
    requires r == Handle(wallets, before.trxs, events[n - 1])
    ensures Means(wallets, trxs, events, n, r)
  {
    var e := events[n - 1];
    assert !HasHash(before.trxs, e.entry.hash) <==> New(wallets, trxs, events, n - 1, e.entry.hash);
    if First(wallets, trxs, events, n - 1) {
      var row := IngestedRow(e.wid, e.entry);
      assert RowsAt(wallets, trxs, events, n) == RowsAt(wallets, trxs, events, n - 1) + [row];
      forall hash ensures !HasHash(r.trxs, hash) <==> New(wallets, trxs, events, n, hash) {
        NewAfter(wallets, trxs, events, n, hash);
        HashAfterAppend(before.trxs, row, hash);
      }
    } else {
      forall hash ensures !HasHash(r.trxs, hash) <==> New(wallets, trxs, events, n, hash) {
        NewAfter(wallets, trxs, events, n, hash);
      }
    }
  }

  lemma {:induction false} PrefixMeaning(wallets: seq<Wallet>, trxs: seq<Trx>, events: seq<Event>, n: nat)
    requires Known(wallets, events) && n <= |events|
    ensures Means(wallets, trxs, events, n, Ingest(wallets, trxs, events[..n]))
  {
    if n == 0 {
      assert RowsAt(wallets, trxs, events, 0) == [];
    } else {
      assert events[..n][..n - 1] == events[..n - 1];
      PrefixMeaning(wallets, trxs, events, n - 1);
      var before := Ingest(wallets, trxs, events[..n - 1]);
      if !before.raised {
        if Faulty(wallets, trxs, events, n - 1) {
          FaultRaises(wallets, trxs, events, n, before);
        } else {
          HandleMeans(wallets, trxs, events, n, before, Ingest(wallets, trxs, events[..n]));
        }
      }
    }
  }

  lemma FaultRaises(wallets: seq<Wallet>, trxs: seq<Trx>, events: seq<Event>, n: nat, before: Outcome)
    requires Known(wallets, events) && 0 < n <= |events|
    requires Means(wallets, trxs, events, n - 1, before) && !before.raised
    requires Faulty(wallets, trxs, events, n - 1)
    ensures Handle(wallets, before.trxs, events[n - 1]).raised
  {
    var e := events[n - 1];
    if e.Arrival? {
      assert !HasHash(before.trxs, e.entry.hash) <==> New(wallets, trxs, events, n - 1, e.entry.hash);
    }
  }

  /** A run adds exactly the first occurrence, in wallet-then-feed order, of each hash that is not stored and is
      addressed to the wallet whose feed brought it; each is a NEW row of that wallet. It fails exactly when the
      gateway does, or an element without target has a hash that is not yet stored. */
  lemma IngestsFirstOccurrences(wallets: seq<Wallet>, trxs: seq<Trx>, events: seq<Event>)
    requires Known(wallets, events)
    ensures var r := Ingest(wallets, trxs, events);
      && (r.raised <==> exists k :: 0 <= k < |events| && Faulty(wallets, trxs, events, k))
      && (!r.raised ==> r.trxs == trxs + RowsAt(wallets, trxs, events, |events|))
  {
    PrefixMeaning(wallets, trxs, events, |events|);
    assert events[..|events|] == events;
  }

  /** Rows that were there are untouched, failed or not, and the unique columns stay unique. */
  lemma {:induction false} IngestKeepsStore(wallets: seq<Wallet>, trxs: seq<Trx>, events: seq<Event>)
    requires Known(wallets, events) && FromGateway(events) && StoreOk(Store(wallets, trxs))
    ensures trxs <= Ingest(wallets, trxs, events).trxs
    ensures StoreOk(Store(wallets, Ingest(wallets, trxs, events).trxs))
  {
    if events != [] {
      var before := Ingest(wallets, trxs, events[..|events| - 1]);
      IngestKeepsStore(wallets, trxs, events[..|events| - 1]);
      var e := events[|events| - 1];
      if e.Arrival? && e.entry.addressTo.Some? {
        InsertKeepsUnique(before.trxs, IngestedRow(e.wid, e.entry));
      }
    }
  }

  /** A finished run is one indivisible step of the life of the rows. */
  lemma IngestIsOneStep(wallets: seq<Wallet>, trxs: seq<Trx>, events: seq<Event>, acks: multiset<L.Ack>)
    requires Known(wallets, events) && FromGateway(events)
    requires StoreOk(Store(wallets, trxs)) && !Ingest(wallets, trxs, events).raised
    ensures
      var s := L.State(Store(wallets, trxs), acks);
      var step := L.IngestRows(RowsAt(wallets, trxs, events, |events|));
      L.Enabled(s, step) && L.Apply(s, step).db.trxs == Ingest(wallets, trxs, events).trxs
  {
    IngestsFirstOccurrences(wallets, trxs, events);
    IngestKeepsStore(wallets, trxs, events);
  }

  // ---------- Replay ----------

  lemma {:induction false} IngestInParts(wallets: seq<Wallet>, trxs: seq<Trx>, a: seq<Event>, b: seq<Event>)
    requires Known(wallets, a) && Known(wallets, b) && Known(wallets, a + b)
    requires !Ingest(wallets, trxs, a).raised
    ensures Ingest(wallets, trxs, a + b) == Ingest(wallets, Ingest(wallets, trxs, a).trxs, b)
    decreases |b|
  {
    if b == [] {
      assert a + b == a;
    } else {
      var n := |b| - 1;
      assert (a + b)[..|a| + n] == a + b[..n];
      IngestInParts(wallets, trxs, a, b[..n]);
    }
  }

  /** Nothing happens on an element that a finished run has already met. */
  lemma MetBefore(wallets: seq<Wallet>, trxs: seq<Trx>, events: seq<Event>, k: nat)
    requires Known(wallets, events) && k < |events| && !Ingest(wallets, trxs, events).raised
    ensures var done := Ingest(wallets, trxs, events).trxs;
      Handle(wallets, done, events[k]) == Outcome(done, false)
  {
    PrefixMeaning(wallets, trxs, events, |events|);
    assert events[..|events|] == events;
    var e := events[k];
    assert !Faulty(wallets, trxs, events, k);
    if Addressed(wallets[e.wid], e.entry) {
      assert Carries(wallets, events[k], e.entry.hash);
    }
  }

  /** Running again on elements already met -- the same feeds, or any part of them, in any order, with any
      repetition -- adds nothing and fails nowhere. */
  lemma {:induction false} ReplayAddsNothing(wallets: seq<Wallet>, trxs: seq<Trx>, events: seq<Event>,
                                             again: seq<Event>)
    requires Known(wallets, events) && Known(wallets, again) && !Ingest(wallets, trxs, events).raised
    requires forall n | 0 <= n < |again| :: again[n] in events
    ensures var done := Ingest(wallets, trxs, events).trxs;
      Ingest(wallets, done, again) == Outcome(done, false)
    decreases |again|
  {
    if again != [] {
      var n := |again| - 1;
      ReplayAddsNothing(wallets, trxs, events, again[..n]);
      var k :| 0 <= k < |events| && events[k] == again[n];
      MetBefore(wallets, trxs, events, k);
    }
  }

  /** Repeating elements inside a feed changes nothing about the outcome. */
  lemma RepetitionIsHarmless(wallets: seq<Wallet>, trxs: seq<Trx>, a: seq<Event>, repeated: seq<Event>, b: seq<Event>)
    requires Known(wallets, a) && Known(wallets, repeated) && Known(wallets, b)
    requires forall n | 0 <= n < |repeated| :: repeated[n] in a
    requires !Ingest(wallets, trxs, a).raised
    ensures Known(wallets, a + repeated + b) && Known(wallets, a + b)
    ensures Ingest(wallets, trxs, a + repeated + b) == Ingest(wallets, trxs, a + b)
  {
    ReplayAddsNothing(wallets, trxs, a, repeated);
    IngestInParts(wallets, trxs, a, repeated);
    IngestInParts(wallets, trxs, a + repeated, b);
    IngestInParts(wallets, trxs, a, b);
  }

  // ---------- Letter case ----------

  /** No two stored hashes are the same but for letter case: one row for each chain transaction. */
  ghost predicate CaseDistinct(trxs: seq<Trx>) {
    forall i, j | 0 <= i < j < |trxs| && trxs[i].hash.Some? && trxs[j].hash.Some? ::
      Lower(trxs[i].hash.value) != Lower(trxs[j].hash.value)
  }

  /** The table has this hash in other letters only. */
  predicate StoredInOtherCase(trxs: seq<Trx>, hash: string) {
    && !HasHash(trxs, hash)
    && exists i | 0 <= i < |trxs| && trxs[i].hash.Some? :: Lower(trxs[i].hash.value) == Lower(hash)
  }

  lemma OneElementIsStoredTwiceIff(wallets: seq<Wallet>, trxs: seq<Trx>, event: Event)
    requires event.Arrival? && event.wid < |wallets| && CaseDistinct(trxs)
    ensures CaseDistinct(Handle(wallets, trxs, event).trxs)
      <==> !(Addressed(wallets[event.wid], event.entry) && StoredInOtherCase(trxs, event.entry.hash))
  {
    var after := Handle(wallets, trxs, event).trxs;
    if Addressed(wallets[event.wid], event.entry) && StoredInOtherCase(trxs, event.entry.hash) {
      var i :| 0 <= i < |trxs| && trxs[i].hash.Some? && Lower(trxs[i].hash.value) == Lower(event.entry.hash);
      assert after[i].hash.Some? && after[|trxs|].hash == Some(event.entry.hash);
    }
  }

  /** Some element brings, to the wallet it is addressed to, a hash that is stored in other letters only. */
  ghost predicate BringsStored(wallets: seq<Wallet>, trxs: seq<Trx>, events: seq<Event>)
    requires Known(wallets, events)
  {
    exists k :: 0 <= k < |events| && events[k].Arrival?
      && Addressed(wallets[events[k].wid], events[k].entry) && StoredInOtherCase(trxs, events[k].entry.hash)
  }

  /** A row that the run added: its hash is in lower case, was not stored, and no later row has it. */
  lemma AddedHash(wallets: seq<Wallet>, trxs: seq<Trx>, events: seq<Event>, p: nat)
    requires Known(wallets, events) && FromGateway(events)
    requires p < |RowsAt(wallets, trxs, events, |events|)|
    ensures var places := Firsts(wallets, trxs, events, |events|); var rows := RowsAt(wallets, trxs, events, |events|);
      && p < |places| == |rows| && First(wallets, trxs, events, places[p])
      && rows[p].hash == Some(events[places[p]].entry.hash) && Lowered(events[places[p]].entry.hash)
      && !HasHash(trxs, events[places[p]].entry.hash)
      && (forall q | p < q < |rows| :: rows[q].hash != rows[p].hash)
  {
    var places := Firsts(wallets, trxs, events, |events|);
    assert Loaded(events[places[p]].entry);
    forall q | p < q < |places| ensures events[places[q]].entry.hash != events[places[p]].entry.hash {
      assert First(wallets, trxs, events, places[q]);
      assert !Carries(wallets, events[places[p]], events[places[q]].entry.hash);
    }
  }

  lemma StoredTwiceIfBrought(wallets: seq<Wallet>, trxs: seq<Trx>, events: seq<Event>)
    requires Known(wallets, events) && !Ingest(wallets, trxs, events).raised
    requires BringsStored(wallets, trxs, events)
    ensures !CaseDistinct(Ingest(wallets, trxs, events).trxs)
  {
    PrefixMeaning(wallets, trxs, events, |events|);
    assert events[..|events|] == events;
    var after := Ingest(wallets, trxs, events).trxs;
    var k :| 0 <= k < |events| && events[k].Arrival?
      && Addressed(wallets[events[k].wid], events[k].entry) && StoredInOtherCase(trxs, events[k].entry.hash);
    var hash := events[k].entry.hash;
    var i :| 0 <= i < |trxs| && trxs[i].hash.Some? && Lower(trxs[i].hash.value) == Lower(hash);
    assert Carries(wallets, events[k], hash);
    assert HasHash(after, hash);
    var j :| 0 <= j < |after| && after[j].hash == Some(hash);
    assert after[i] == trxs[i];
    assert j >= |trxs|;
  }

  lemma NotInOtherCase(trxs: seq<Trx>, hash: string, i: nat)
    requires !HasHash(trxs, hash) && !StoredInOtherCase(trxs, hash) && i < |trxs| && trxs[i].hash.Some?
    ensures Lower(trxs[i].hash.value) != Lower(hash)
  {
  }

  lemma AddedOnce(wallets: seq<Wallet>, trxs: seq<Trx>, events: seq<Event>, i: nat, p: nat)
    requires Known(wallets, events) && FromGateway(events) && !BringsStored(wallets, trxs, events)
    requires p < |RowsAt(wallets, trxs, events, |events|)| && i < |trxs| + p
    ensures var after := trxs + RowsAt(wallets, trxs, events, |events|);
      && after[|trxs| + p].hash.Some?
      && (after[i].hash.Some? ==> Lower(after[i].hash.value) != Lower(after[|trxs| + p].hash.value))
  {
    AddedHash(wallets, trxs, events, p);
    var place := Firsts(wallets, trxs, events, |events|)[p];
    if i >= |trxs| {
      AddedHash(wallets, trxs, events, i - |trxs|);
    } else if trxs[i].hash.Some? {
      NotInOtherCase(trxs, events[place].entry.hash, i);
    }
  }

  lemma OnceIfNotBrought(wallets: seq<Wallet>, trxs: seq<Trx>, events: seq<Event>)
    requires Known(wallets, events) && FromGateway(events) && CaseDistinct(trxs)
    requires !BringsStored(wallets, trxs, events)
    ensures CaseDistinct(trxs + RowsAt(wallets, trxs, events, |events|))
  {
    var after := trxs + RowsAt(wallets, trxs, events, |events|);
    forall i, j | 0 <= i < j < |after| && after[i].hash.Some? && after[j].hash.Some?
      ensures Lower(after[i].hash.value) != Lower(after[j].hash.value)
    {
      if j >= |trxs| {
        AddedOnce(wallets, trxs, events, i, j - |trxs|);
      }
    }
  }

  /** A finished run keeps one row for each chain transaction, letter case aside, exactly when no element brings a
      hash that the table has in other letters only. */
  lemma StoredTwiceIff(wallets: seq<Wallet>, trxs: seq<Trx>, events: seq<Event>)
    requires Known(wallets, events) && FromGateway(events) && CaseDistinct(trxs)
    requires !Ingest(wallets, trxs, events).raised
    ensures CaseDistinct(Ingest(wallets, trxs, events).trxs) <==> !BringsStored(wallets, trxs, events)
  {
    if BringsStored(wallets, trxs, events) {
      StoredTwiceIfBrought(wallets, trxs, events);
    } else {
      IngestsFirstOccurrences(wallets, trxs, events);
      OnceIfNotBrought(wallets, trxs, events);
    }
  }

  // ---------- A run in plain terms ----------

  /** The row is that of element `m` of the feed of wallet `n`, which was sent to that wallet's address. */
  ghost predicate RowOf(wallets: seq<Wallet>, visits: Visits, wids: seq<nat>, n: nat, m: nat, t: Trx) {
    && Delivered(visits, wids, n, m) && wids[n] < |wallets|
    && var raw := visits[wids[n]].elements[m];
    && raw.addressTo.Some? && Lower(wallets[wids[n]].address) == Lower(raw.addressTo.value)
    && t.status == NEW && t.hash == Some(Lower(raw.hash)) && t.addressFrom == Lower(raw.addressFrom)
    && t.addressTo == Lower(raw.addressTo.value) && t.currencySlug == Lower(raw.currencySlug)
    && t.value == raw.value && !t.isFeeTrx && !t.confirmedAt && t.walletId == Some(wids[n]) && t.uuid == None
  }

  ghost predicate Delivers(wallets: seq<Wallet>, visits: Visits, wids: seq<nat>, t: Trx) {
    exists n: nat, m: nat :: RowOf(wallets, visits, wids, n, m, t)
  }

  /** Some element without target has a hash that the table does not have. */
  ghost predicate LacksTarget(trxs: seq<Trx>, visits: Visits, wids: seq<nat>) {
    exists n: nat, m: nat :: Targetless(trxs, visits, wids, n, m)
  }

  ghost predicate Targetless(trxs: seq<Trx>, visits: Visits, wids: seq<nat>, n: nat, m: nat) {
    && Delivered(visits, wids, n, m) && visits[wids[n]].elements[m].addressTo.None?
    && !HasHash(trxs, Lower(visits[wids[n]].elements[m].hash))
  }

  lemma TakenIsRowOf(wallets: seq<Wallet>, visits: Visits, wids: seq<nat>, event: Event)
    requires IsDelivered(visits, wids, event) && event.wid < |wallets| && Addressed(wallets[event.wid], event.entry)
    ensures Delivers(wallets, visits, wids, IngestedRow(event.wid, event.entry))
  {
    var n: nat, m: nat :| IsElement(visits, wids, n, m, event);
    LowerTwice(visits[wids[n]].elements[m].addressTo.value);
    assert RowOf(wallets, visits, wids, n, m, IngestedRow(event.wid, event.entry));
  }

  lemma AddedIsDelivered(wallets: seq<Wallet>, trxs: seq<Trx>, visits: Visits, wids: seq<nat>, p: nat)
    requires Known(wallets, Events(visits, wids))
    requires p < |RowsAt(wallets, trxs, Events(visits, wids), |Events(visits, wids)|)|
    ensures var events := Events(visits, wids); var rows := RowsAt(wallets, trxs, events, |events|);
      && Delivers(wallets, visits, wids, rows[p])
      && rows[p].hash.Some? && !HasHash(trxs, rows[p].hash.value)
      && (forall q | p < q < |rows| :: rows[q].hash != rows[p].hash)
  {
    var events := Events(visits, wids);
    EventsAreLoaded(visits, wids);
    AddedHash(wallets, trxs, events, p);
    var place := Firsts(wallets, trxs, events, |events|)[p];
    NothingElseIsMet(visits, wids, place);
    TakenIsRowOf(wallets, visits, wids, events[place]);
  }

  lemma CarriedIsStored(wallets: seq<Wallet>, trxs: seq<Trx>, events: seq<Event>, place: nat, hash: string)
    requires Known(wallets, events) && !Ingest(wallets, trxs, events).raised
    requires place < |events| && Carries(wallets, events[place], hash)
    ensures HasHash(Ingest(wallets, trxs, events).trxs, hash)
  {
    PrefixMeaning(wallets, trxs, events, |events|);
    assert events[..|events|] == events;
  }

  lemma ElementCarries(wallets: seq<Wallet>, visits: Visits, wids: seq<nat>, n: nat, m: nat, t: Trx, event: Event)
    requires RowOf(wallets, visits, wids, n, m, t) && IsElement(visits, wids, n, m, event)
    ensures Carries(wallets, event, t.hash.value)
  {
    LowerTwice(visits[wids[n]].elements[m].addressTo.value);
  }

  lemma DeliveredIsStored(wallets: seq<Wallet>, trxs: seq<Trx>, visits: Visits, wids: seq<nat>, n: nat, m: nat, t: Trx)
    requires Known(wallets, Events(visits, wids)) && !Ingest(wallets, trxs, Events(visits, wids)).raised
    requires RowOf(wallets, visits, wids, n, m, t)
    ensures HasHash(Ingest(wallets, trxs, Events(visits, wids)).trxs, t.hash.value)
  {
    var place := |Events(visits, wids[..n])| + m;
    EventAt(visits, wids, n, m);
    ElementCarries(wallets, visits, wids, n, m, t, Events(visits, wids)[place]);
    CarriedIsStored(wallets, trxs, Events(visits, wids), place, t.hash.value);
  }

  lemma FailsOnlyFor(wallets: seq<Wallet>, trxs: seq<Trx>, visits: Visits, wids: seq<nat>)
    requires Known(wallets, Events(visits, wids)) && Ingest(wallets, trxs, Events(visits, wids)).raised
    ensures SomeRaises(visits, wids) || LacksTarget(trxs, visits, wids)
  {
    var events := Events(visits, wids);
    IngestsFirstOccurrences(wallets, trxs, events);
    var k :| 0 <= k < |events| && Faulty(wallets, trxs, events, k);
    NothingElseIsMet(visits, wids, k);
    if events[k].Arrival? {
      var n: nat, m: nat :| IsElement(visits, wids, n, m, events[k]);
      assert Targetless(trxs, visits, wids, n, m);
    }
  }

  /** In a run that does not fail, an element without target has a hash that is in the table. */
  lemma TargetlessIsStored(wallets: seq<Wallet>, trxs: seq<Trx>, events: seq<Event>, k: nat)
    requires Known(wallets, events) && !Ingest(wallets, trxs, events).raised && k < |events|
    requires events[k].Arrival? && events[k].entry.addressTo.None?
    ensures HasHash(Ingest(wallets, trxs, events).trxs, events[k].entry.hash)
  {
    var hash := events[k].entry.hash;
    IngestsFirstOccurrences(wallets, trxs, events);
    assert !Faulty(wallets, trxs, events, k);
    if HasHash(trxs, hash) {
      StoredStays(trxs, RowsAt(wallets, trxs, events, |events|), hash);
    } else {
      var j :| 0 <= j < k && Carries(wallets, events[j], hash);
      CarriedIsStored(wallets, trxs, events, j, hash);
    }
  }

  lemma StoredStays(trxs: seq<Trx>, more: seq<Trx>, hash: string)
    requires HasHash(trxs, hash)
    ensures HasHash(trxs + more, hash)
  {
    var i :| 0 <= i < |trxs| && trxs[i].hash == Some(hash);
    assert (trxs + more)[i].hash == Some(hash);
  }

  lemma RaiseFails(wallets: seq<Wallet>, trxs: seq<Trx>, visits: Visits, wids: seq<nat>)
    requires Known(wallets, Events(visits, wids)) && SomeRaises(visits, wids)
    ensures Ingest(wallets, trxs, Events(visits, wids)).raised
  {
    var events := Events(visits, wids);
    RaiseIsMet(visits, wids);
    var k :| 0 <= k < |events| && events[k].Error?;
    assert Faulty(wallets, trxs, events, k);
    IngestsFirstOccurrences(wallets, trxs, events);
  }

  /** A run over wallets, said in terms of what the gateway delivered. It fails if some wallet raises; it fails only if
      one does, or an element without target has a hash that is not stored. If it does not fail, the old rows stay
      in front, every row added is that of a delivered element sent to the address of its wallet, no hash is added that
      was there or twice, and the hash of every such element, and of every element without target, is in the table. */
  lemma RunInPlainTerms(wallets: seq<Wallet>, trxs: seq<Trx>, visits: Visits, wids: seq<nat>)
    requires forall i | 0 <= i < |wids| :: wids[i] < |wallets|
    ensures var r := IngestWallets(wallets, trxs, visits, wids);
      && (SomeRaises(visits, wids) ==> r.raised)
      && (r.raised ==> SomeRaises(visits, wids) || LacksTarget(trxs, visits, wids))
      && (!r.raised ==>
            && trxs <= r.trxs
            && (forall i | |trxs| <= i < |r.trxs| ::
                  && Delivers(wallets, visits, wids, r.trxs[i]) && !HasHash(trxs, r.trxs[i].hash.value)
                  && (forall j | i < j < |r.trxs| :: r.trxs[j].hash != r.trxs[i].hash))
            && (forall n: nat, m: nat, t | RowOf(wallets, visits, wids, n, m, t) :: HasHash(r.trxs, t.hash.value))
            && TargetlessStored(visits, wids, r.trxs))
  {
    KnownEvents(wallets, visits, wids);
    if SomeRaises(visits, wids) {
      RaiseFails(wallets, trxs, visits, wids);
    }
    if Ingest(wallets, trxs, Events(visits, wids)).raised {
      FailsOnlyFor(wallets, trxs, visits, wids);
    } else {
      FinishedInPlainTerms(wallets, trxs, visits, wids);
    }
  }

  lemma AllAddedDelivered(wallets: seq<Wallet>, trxs: seq<Trx>, visits: Visits, wids: seq<nat>)
    requires Known(wallets, Events(visits, wids)) && !Ingest(wallets, trxs, Events(visits, wids)).raised
    ensures var after := Ingest(wallets, trxs, Events(visits, wids)).trxs;
      && trxs <= after
      && (forall i | |trxs| <= i < |after| ::
            && Delivers(wallets, visits, wids, after[i]) && !HasHash(trxs, after[i].hash.value)
            && (forall j | i < j < |after| :: after[j].hash != after[i].hash))
  {
    var after := Ingest(wallets, trxs, Events(visits, wids)).trxs;
    IngestsFirstOccurrences(wallets, trxs, Events(visits, wids));
    forall i | |trxs| <= i < |after|
      ensures Delivers(wallets, visits, wids, after[i]) && !HasHash(trxs, after[i].hash.value)
      ensures forall j | i < j < |after| :: after[j].hash != after[i].hash
    {
      AddedIsDelivered(wallets, trxs, visits, wids, i - |trxs|);
    }
  }

  lemma AllTargetlessStored(wallets: seq<Wallet>, trxs: seq<Trx>, visits: Visits, wids: seq<nat>)
    requires Known(wallets, Events(visits, wids)) && !Ingest(wallets, trxs, Events(visits, wids)).raised
    ensures TargetlessStored(visits, wids, Ingest(wallets, trxs, Events(visits, wids)).trxs)
  {
    var events := Events(visits, wids);
    var after := Ingest(wallets, trxs, events).trxs;
    forall k | 0 <= k < |events| && events[k].Arrival? && events[k].entry.addressTo.None?
      ensures HasHash(after, events[k].entry.hash)
    {
      TargetlessIsStored(wallets, trxs, events, k);
    }
    TargetlessStoredIfMet(visits, wids, after);
  }

  lemma FinishedInPlainTerms(wallets: seq<Wallet>, trxs: seq<Trx>, visits: Visits, wids: seq<nat>)
    requires Known(wallets, Events(visits, wids)) && !Ingest(wallets, trxs, Events(visits, wids)).raised
    ensures var after := Ingest(wallets, trxs, Events(visits, wids)).trxs;
      && trxs <= after
      && (forall i | |trxs| <= i < |after| ::
            && Delivers(wallets, visits, wids, after[i]) && !HasHash(trxs, after[i].hash.value)
            && (forall j | i < j < |after| :: after[j].hash != after[i].hash))
      && (forall n: nat, m: nat, t | RowOf(wallets, visits, wids, n, m, t) :: HasHash(after, t.hash.value))
      && TargetlessStored(visits, wids, after)
  {
    AllAddedDelivered(wallets, trxs, visits, wids);
    AllTargetlessStored(wallets, trxs, visits, wids);
    forall n: nat, m: nat, t | RowOf(wallets, visits, wids, n, m, t)
      ensures HasHash(Ingest(wallets, trxs, Events(visits, wids)).trxs, t.hash.value)
    {
      DeliveredIsStored(wallets, trxs, visits, wids, n, m, t);
    }
  }

  // ---------- The monitor ----------

  /** Whether the element is new and addressed to the wallet; nothing when its target is missing. */
  method IsValid(trxs: seq<Trx>, wallet: Wallet, e: Entry) returns (valid: Option<bool>)
    ensures valid ==
      if HasHash(trxs, e.hash) then Some(false)
      else if e.addressTo.None? then None
      else Some(Lower(wallet.address) == Lower(e.addressTo.value))
  {
    var byHash := (t: Trx) => t.hash == Some(e.hash);
    var stored := Exists(trxs, [byHash]);
    assert stored <==> HasHash(trxs, e.hash) by {
      forall i | 0 <= i < |trxs| ensures All([byHash], trxs[i]) <==> trxs[i].hash == Some(e.hash) {
        AllOfOne(byHash, trxs[i]);
      }
    }
    if stored {
      return Some(false);
    }
    if e.addressTo.None? {
      return None;
    }
    return Some(Lower(wallet.address) == Lower(e.addressTo.value));
  }

  class CheckTransactionsMonitor {
    const db: Database
    var counter: nat

    constructor (db: Database)
      ensures this.db == db && counter == 0
    {
      this.db := db;
      counter := 0;
    }

    /** Two writes: the row, then the row with its wallet. */
    method SaveTrx(wid: nat, e: Entry) returns (raised: bool)
      requires e.addressTo.Some? && Unique(db.trxs)
      modifies db`trxs
      ensures raised <==> HasHash(old(db.trxs), e.hash)
      ensures db.trxs == if raised then old(db.trxs) else old(db.trxs) + [IngestedRow(wid, e)]
      ensures !raised ==>
        && |db.trxs| == |old(db.trxs)| + 1
        && db.trxs[|old(db.trxs)|] == Trx(NEW, Some(e.hash), e.addressFrom, e.addressTo.value, e.currencySlug,
                                          e.value, false, false, Some(wid), None)
    {
      var row := IngestedRow(wid, e).(walletId := None);
      var id := db.CreateTrx(row);
      if id.None? {
        return true;
      }
      InsertKeepsUnique(old(db.trxs), row);
      SameKeysReplace(db.trxs, id.value, row.(walletId := Some(wid)));
      var done := db.UpdateTrx(id.value, row.(walletId := Some(wid)));
      assert old(db.trxs) + [row][0 := IngestedRow(wid, e)] == old(db.trxs) + [IngestedRow(wid, e)];
      return !done;
    }

    method HandleEntry(wid: nat, e: Entry) returns (raised: bool)
      requires wid < |db.wallets| && Unique(db.trxs)
      modifies this`counter, db`trxs
      ensures var r := Handle(db.wallets, old(db.trxs), Arrival(wid, e));
        raised == r.raised && db.trxs == r.trxs
      ensures counter == old(counter) + (|db.trxs| - |old(db.trxs)|)
      ensures Unique(db.trxs)
    {
      var valid := IsValid(db.trxs, db.wallets[wid], e);
      if valid.None? {
        return true;
      }
      if valid.value {
        InsertKeepsUnique(db.trxs, IngestedRow(wid, e));
        raised := SaveTrx(wid, e);
        if !raised {
          counter := counter + 1;
        }
      } else {
        raised := false;
      }
    }

    /** The inner loop, over the feed of one wallet. */
    method HandleFeed(wid: nat, entries: seq<Entry>) returns (raised: bool)
      requires wid < |db.wallets| && Unique(db.trxs)
      modifies this`counter, db`trxs
      ensures Ingest(db.wallets, old(db.trxs), Arrivals(wid, entries)) == Outcome(db.trxs, raised)
      ensures counter == old(counter) + (|db.trxs| - |old(db.trxs)|)
      ensures Unique(db.trxs)
    {
      ghost var arrivals := Arrivals(wid, entries);
      for j := 0 to |entries|
        invariant Unique(db.trxs)
        invariant Ingest(db.wallets, old(db.trxs), arrivals[..j]) == Outcome(db.trxs, false)
        invariant counter == old(counter) + (|db.trxs| - |old(db.trxs)|)
      {
        assert arrivals[..j + 1][..j] == arrivals[..j];
        raised := HandleEntry(wid, entries[j]);
        if raised {
          RaiseStays(db.wallets, old(db.trxs), arrivals, j + 1);
          return;
        }
      }
      assert arrivals[..|entries|] == arrivals;
      raised := false;
    }

    /** One turn of the outer loop. */
    method HandleWallet(wid: nat, visit: Visit) returns (raised: bool)
      requires wid < |db.wallets| && Unique(db.trxs)
      modifies this`counter, db`trxs
      ensures Ingest(db.wallets, old(db.trxs), EventsOf(wid, visit)) == Outcome(db.trxs, raised)
      ensures counter == old(counter) + (|db.trxs| - |old(db.trxs)|)
      ensures Unique(db.trxs)
    {
      match visit
      case SeenLocked => raised := false;
      case Raises => raised := true;
      case Feed(elements) => raised := HandleFeed(wid, LoadAll(elements));
    }

    /** The answer to the wallet query, in the order the database gives it. */
    method GetData() returns (wids: seq<nat>)
      ensures Answers(wids, db.wallets, Watched(false))
    {
      var onMonitoring := (w: Wallet) => w.onMonitoring == true;
      var isPlatform := (w: Wallet) => w.isPlatform == false;
      var isActive := (w: Wallet) => w.isActive == true;
      var conditions := [onMonitoring, isPlatform, isActive];
      wids := GetAll(db.wallets, conditions);
      forall i | 0 <= i < |db.wallets| ensures All(conditions, db.wallets[i]) == Watched(false)(db.wallets[i]) {
        AllOfThree(onMonitoring, isPlatform, isActive, db.wallets[i]);
      }
      AnswersBySameCondition(wids, db.wallets, w => All(conditions, w), Watched(false));
    }

    /** The body of the run. `wids` is the answer to the wallet query, `saved` the counter as logged. */
    method Execute(visits: Visits) returns (wids: seq<nat>, raised: bool, saved: nat)
      requires Unique(db.trxs)
      modifies this`counter, db`trxs
      ensures Answers(wids, db.wallets, Watched(false))
      ensures IngestWallets(db.wallets, old(db.trxs), visits, wids) == Outcome(db.trxs, raised)
      ensures !raised ==> saved == old(counter) + (|db.trxs| - |old(db.trxs)|)
    {
      wids := GetData();
      for i := 0 to |wids|
        invariant Unique(db.trxs)
        invariant IngestWallets(db.wallets, old(db.trxs), visits, wids[..i]) == Outcome(db.trxs, false)
        invariant counter == old(counter) + (|db.trxs| - |old(db.trxs)|)
      {
        NextWallet(db.wallets, old(db.trxs), visits, wids, i, db.trxs);
        raised := HandleWallet(wids[i], VisitTo(visits, wids[i]));
        if raised {
          RaiseEnds(db.wallets, old(db.trxs), visits, wids, i + 1);
          return wids, true, 0;
        }
      }
      assert wids[..|wids|] == wids;
      raised, saved := false, counter;
    }

    /** A run: all its writes are kept, or none; the counter is zero before and after. */
    method Process(visits: Visits) returns (wids: seq<nat>, raised: bool, saved: nat)
      requires db.Valid() && counter == 0
      modifies this`counter, db`trxs
      ensures db.Valid() && counter == 0
      ensures Answers(wids, db.wallets, Watched(false))
      ensures raised == IngestWallets(db.wallets, old(db.trxs), visits, wids).raised
      ensures db.trxs ==
        if raised then old(db.trxs) else IngestWallets(db.wallets, old(db.trxs), visits, wids).trxs
      ensures !raised ==> old(db.trxs) <= db.trxs && saved == |db.trxs| - |old(db.trxs)|
      ensures SomeRaises(visits, wids) ==> raised
      ensures forall i | |old(db.trxs)| <= i < |db.trxs| :: Delivers(db.wallets, visits, wids, db.trxs[i])
      ensures !raised ==> forall n: nat, m: nat, t | RowOf(db.wallets, visits, wids, n, m, t) ::
        HasHash(db.trxs, t.hash.value)
      ensures !raised ==> TargetlessStored(visits, wids, db.trxs)
    {
      var before := db.trxs;
      wids, raised, saved := Execute(visits);
      KnownEvents(db.wallets, visits, wids);
      EventsAreLoaded(visits, wids);
      RunInPlainTerms(db.wallets, before, visits, wids);
      IngestKeepsStore(db.wallets, before, Events(visits, wids));
      if raised {
        db.trxs := before;
      }
      counter := 0;
    }
  }

  /** Once the loop has failed, what follows does not matter. */
  lemma {:induction false} RaiseStays(wallets: seq<Wallet>, trxs: seq<Trx>, events: seq<Event>, n: nat)
    requires Known(wallets, events) && n <= |events|
    requires Ingest(wallets, trxs, events[..n]).raised
    ensures Ingest(wallets, trxs, events) == Ingest(wallets, trxs, events[..n])
    decreases |events|
  {
    if n == |events| {
      assert events[..n] == events;
    } else {
      assert events[..|events| - 1][..n] == events[..n];
      RaiseStays(wallets, trxs, events[..|events| - 1], n);
    }
  }

  lemma NextWallet(wallets: seq<Wallet>, trxs: seq<Trx>, visits: Visits, wids: seq<nat>, i: nat, now: seq<Trx>)
    requires i < |wids| && forall j | 0 <= j < |wids| :: wids[j] < |wallets|
    requires IngestWallets(wallets, trxs, visits, wids[..i]) == Outcome(now, false)
    ensures Known(wallets, EventsOf(wids[i], VisitTo(visits, wids[i])))
    ensures IngestWallets(wallets, trxs, visits, wids[..i + 1])
         == Ingest(wallets, now, EventsOf(wids[i], VisitTo(visits, wids[i])))
  {
    assert wids[..i + 1][..i] == wids[..i];
    KnownEvents(wallets, visits, wids[..i]);
    KnownEvents(wallets, visits, wids[..i + 1]);
    IngestInParts(wallets, trxs, Events(visits, wids[..i]), EventsOf(wids[i], VisitTo(visits, wids[i])));
  }

  lemma RaiseEnds(wallets: seq<Wallet>, trxs: seq<Trx>, visits: Visits, wids: seq<nat>, i: nat)
    requires i <= |wids| && forall j | 0 <= j < |wids| :: wids[j] < |wallets|
    requires IngestWallets(wallets, trxs, visits, wids[..i]).raised
    ensures IngestWallets(wallets, trxs, visits, wids) == IngestWallets(wallets, trxs, visits, wids[..i])
  {
    KnownEvents(wallets, visits, wids);
    KnownEvents(wallets, visits, wids[..i]);
    EventsPrefix(visits, wids, i);
    var n := |Events(visits, wids[..i])|;
    assert Events(visits, wids)[..n] == Events(visits, wids[..i]);
    RaiseStays(wallets, trxs, Events(visits, wids), n);
  }
}
