/** What the workers have done since they began, and that it still accounts for what they will write. */
module History {
  import opened Rows
  import opened Feeds
  import opened Lifecycle
  import opened World
  import Ingestion
  import F = Filling
  import I = Interleaving
  import O = Operations

  // ---------- The way of a run through its wallets ----------

  function Done(tour: Tour, wids: seq<nat>): seq<nat>
    requires |wids| <= |tour.wids|
  {
    tour.wids[..|tour.wids| - |wids|]
  }

  /** The current feed is what was handled of it and what is left, and nothing else was met since. */
  ghost predicate InFeed(tour: Tour, behind: seq<Event>, visit: Visit, wid: nat, feed: seq<Entry>) {
    && visit.Feed? && LoadAll(visit.elements) == tour.handled + feed
    && tour.met == behind + Arrivals(wid, tour.handled)
  }

  ghost predicate Unvisited(visits: Visits, wids: seq<nat>) {
    forall n | 0 <= n < |wids| :: wids[n] !in visits
  }

  /** `wids` are the wallets still ahead, the current one included; the elements met are those that the wallets
      behind brought, and in a body those of the current feed that were handled. */
  ghost predicate OnTour(tour: Tour, wids: seq<nat>, phase: Phase, feed: seq<Entry>) {
    && (forall i, j | 0 <= i < j < |tour.wids| :: tour.wids[i] != tour.wids[j])
    && |wids| <= |tour.wids| && Done(tour, wids) + wids == tour.wids
    && var behind := Events(tour.visits, Done(tour, wids));
       if wids != [] && phase == Answered then
         InFeed(tour, behind, VisitTo(tour.visits, wids[0]), wids[0], feed) && Unvisited(tour.visits, wids[1..])
       else
         tour.met == behind && Unvisited(tour.visits, wids)
  }

  lemma TourBegins(wids: seq<nat>, known: nat)
    requires forall i, j | 0 <= i < j < |wids| :: wids[i] != wids[j]
    ensures OnTour(Tour(wids, known, map[], [], []), wids, Looking, [])
  {
    assert Done(Tour(wids, known, map[], [], []), wids) == [];
  }

  lemma DoneNext(tour: Tour, wids: seq<nat>)
    requires wids != [] && |wids| <= |tour.wids| && Done(tour, wids) + wids == tour.wids
    ensures Done(tour, wids[1..]) + wids[1..] == tour.wids
    ensures Events(tour.visits, Done(tour, wids[1..]))
         == Events(tour.visits, Done(tour, wids)) + EventsOf(wids[0], VisitTo(tour.visits, wids[0]))
  {
    assert wids == [wids[0]] + wids[1..];
    var done := Done(tour, wids[1..]);
    assert done == Done(tour, wids) + [wids[0]];
    assert done[..|done| - 1] == Done(tour, wids);
  }

  lemma UnvisitedRest(visits: Visits, wids: seq<nat>)
    requires wids != [] && Unvisited(visits, wids)
    ensures wids[0] !in visits && Unvisited(visits, wids[1..])
  {
  }

  /** The lock is seen taken. */
  lemma TourSkips(tour: Tour, wids: seq<nat>, feed: seq<Entry>)
    requires wids != [] && OnTour(tour, wids, Looking, feed)
    ensures OnTour(tour, wids[1..], Looking, [])
  {
    DoneNext(tour, wids);
    UnvisitedRest(tour.visits, wids);
    assert EventsOf(wids[0], VisitTo(tour.visits, wids[0])) == [];
  }

  lemma TourFetches(tour: Tour, wids: seq<nat>, feed: seq<Entry>, elements: seq<Entry>)
    requires wids != [] && OnTour(tour, wids, Holding, feed)
    ensures OnTour(Fetched(tour, wids[0], elements), wids, Answered, LoadAll(elements))
  {
    var after, done := Fetched(tour, wids[0], elements), Done(tour, wids);
    assert tour.wids[|done|] == wids[0];
    EventsAgree(tour.visits, after.visits, done);
    forall n | 0 <= n < |wids[1..]| ensures wids[1..][n] !in after.visits {
      assert tour.wids[|done| + n + 1] == wids[n + 1];
    }
    assert [] + LoadAll(elements) == LoadAll(elements);
    assert Arrivals(wids[0], []) == [] && after.met == Events(after.visits, done) + [];
  }

  lemma FeedHandles(tour: Tour, behind: seq<Event>, visit: Visit, wid: nat, feed: seq<Entry>)
    requires InFeed(tour, behind, visit, wid, feed) && feed != []
    ensures InFeed(Seen(tour, wid, feed[0]), behind, visit, wid, feed[1..])
  {
    assert tour.handled + feed == tour.handled + [feed[0]] + feed[1..];
    assert Arrivals(wid, tour.handled + [feed[0]]) == Arrivals(wid, tour.handled) + [Arrival(wid, feed[0])];
  }

  lemma TourHandles(tour: Tour, wids: seq<nat>, feed: seq<Entry>)
    requires wids != [] && feed != [] && OnTour(tour, wids, Answered, feed)
    ensures OnTour(Seen(tour, wids[0], feed[0]), wids, Answered, feed[1..])
  {
    var visit := VisitTo(tour.visits, wids[0]);
    FeedHandles(tour, Events(tour.visits, Done(tour, wids)), visit, wids[0], feed);
    assert Done(Seen(tour, wids[0], feed[0]), wids) == Done(tour, wids);
  }

  lemma FeedEnds(tour: Tour, behind: seq<Event>, visit: Visit, wid: nat)
    requires InFeed(tour, behind, visit, wid, [])
    ensures tour.met == behind + EventsOf(wid, visit)
  {
    assert tour.handled + [] == tour.handled;
  }

  /** The feed is exhausted. */
  lemma TourLeaves(tour: Tour, wids: seq<nat>)
    requires wids != [] && OnTour(tour, wids, Answered, [])
    ensures OnTour(tour, wids[1..], Looking, [])
  {
    DoneNext(tour, wids);
    FeedEnds(tour, Events(tour.visits, Done(tour, wids)), VisitTo(tour.visits, wids[0]), wids[0]);
  }

  lemma TourEnds(tour: Tour, phase: Phase, feed: seq<Entry>)
    requires OnTour(tour, [], phase, feed)
    ensures tour.met == Events(tour.visits, tour.wids)
  {
    assert Done(tour, []) == tour.wids;
  }

  // ---------- What others do to the store meanwhile ----------

  /** Wallets keep all columns, except that monitoring may be stopped; hashes stay. */
  ghost predicate Covers(db: Store, db': Store) {
    && |db.wallets| <= |db'.wallets| && |db.trxs| <= |db'.trxs|
    && (forall i | 0 <= i < |db.wallets| ::
          && Fixed(db'.wallets[i]) == Fixed(db.wallets[i])
          && (db'.wallets[i].onMonitoring ==> db.wallets[i].onMonitoring))
    && (forall i | 0 <= i < |db.trxs| && db.trxs[i].hash.Some? :: db'.trxs[i].hash == db.trxs[i].hash)
  }

  /** And expected deposits stay as they are. */
  ghost predicate CoversExpected(db: Store, db': Store) {
    Covers(db, db') && forall i | 0 <= i < |db.trxs| && db.trxs[i].hash.None? :: db'.trxs[i] == db.trxs[i]
  }

  lemma GrowsCovers(w: World, w': World)
    requires I.Grows(w, w')
    ensures Covers(w.db, w'.db)
    ensures I.KeepsExpected(w, w') ==> CoversExpected(w.db, w'.db)
  {
    forall i | 0 <= i < |w.db.trxs| && w.db.trxs[i].hash.Some? ensures w'.db.trxs[i].hash == w.db.trxs[i].hash {
      assert Payload(w'.db.trxs[i]).hash == Payload(w.db.trxs[i]).hash;
    }
  }

  lemma SameAddress(db: Store, db': Store, wid: nat, e: Entry)
    requires Covers(db, db') && wid < |db.wallets|
    ensures Addressed(db'.wallets[wid], e) == Addressed(db.wallets[wid], e)
  {
    assert Fixed(db'.wallets[wid]).address == Fixed(db.wallets[wid]).address;
  }

  lemma StillTourable(db: Store, db': Store, wids: seq<nat>, known: nat, platform: bool)
    requires Covers(db, db') && O.Tourable(db.wallets, wids, known, platform)
    ensures O.Tourable(db'.wallets, wids, known, platform)
  {
    forall i | 0 <= i < known
      ensures db'.wallets[i].isPlatform == db.wallets[i].isPlatform
      ensures db'.wallets[i].isActive == db.wallets[i].isActive
      ensures Watched(platform)(db'.wallets[i]) ==> Watched(platform)(db.wallets[i])
    {
      assert Fixed(db'.wallets[i]).isPlatform == Fixed(db.wallets[i]).isPlatform;
      assert Fixed(db'.wallets[i]).isActive == Fixed(db.wallets[i]).isActive;
    }
  }

  // ---------- Ingestion ----------

  /** The last element handled was passed over: its hash was there, or it was for somebody else. */
  predicate PassedOver(wallets: seq<Wallet>, rows: seq<Trx>, e: Event) {
    && e.Arrival? && e.wid < |wallets|
    && (HasHash(rows, e.entry.hash) || (e.entry.addressTo.Some? && !Addressed(wallets[e.wid], e.entry)))
  }

  /** The last element handled was taken as `row`. */
  predicate Taken(wallets: seq<Wallet>, e: Event, row: Trx) {
    && e.Arrival? && e.wid < |wallets|
    && e.entry.addressTo.Some? && Addressed(wallets[e.wid], e.entry) && row == IngestedRow(e.wid, e.entry)
  }

  /** The buffer has come about by handling these elements one by one, others writing meanwhile. */
  ghost predicate Explains(wallets: seq<Wallet>, trxs: seq<Trx>, met: seq<Event>, buffer: seq<Trx>)
    decreases |met|
  {
    if met == [] then buffer == []
    else
      var n := |met| - 1;
      || (PassedOver(wallets, trxs + buffer, met[n]) && Explains(wallets, trxs, met[..n], buffer))
      || (buffer != [] && Taken(wallets, met[n], buffer[|buffer| - 1])
          && Explains(wallets, trxs, met[..n], buffer[..|buffer| - 1]))
  }

  lemma HashInEither(trxs: seq<Trx>, buffer: seq<Trx>, hash: string)
    ensures HasHash(trxs + buffer, hash) <==> HasHash(trxs, hash) || HasHash(buffer, hash)
  {
    var all := trxs + buffer;
    if HasHash(trxs, hash) {
      var i :| 0 <= i < |trxs| && trxs[i].hash == Some(hash);
      assert all[i].hash == Some(hash);
    }
    if HasHash(buffer, hash) {
      var i :| 0 <= i < |buffer| && buffer[i].hash == Some(hash);
      assert all[|trxs| + i].hash == Some(hash);
    }
    if HasHash(all, hash) {
      var i :| 0 <= i < |all| && all[i].hash == Some(hash);
      if i < |trxs| {
        assert trxs[i].hash == Some(hash);
      } else {
        assert buffer[i - |trxs|].hash == Some(hash);
      }
    }
  }

  lemma HashStays(db: Store, db': Store, hash: string)
    requires Covers(db, db') && HasHash(db.trxs, hash)
    ensures HasHash(db'.trxs, hash)
  {
    var i :| 0 <= i < |db.trxs| && db.trxs[i].hash == Some(hash);
    assert db'.trxs[i].hash == Some(hash);
  }

  lemma PassedOverStays(db: Store, db': Store, buffer: seq<Trx>, e: Event)
    requires Covers(db, db') && PassedOver(db.wallets, db.trxs + buffer, e)
    ensures PassedOver(db'.wallets, db'.trxs + buffer, e)
  {
    SameAddress(db, db', e.wid, e.entry);
    HashInEither(db.trxs, buffer, e.entry.hash);
    HashInEither(db'.trxs, buffer, e.entry.hash);
    if HasHash(db.trxs, e.entry.hash) {
      HashStays(db, db', e.entry.hash);
    }
  }

  lemma {:induction false} ExplainsStays(db: Store, db': Store, met: seq<Event>, buffer: seq<Trx>)
    requires Covers(db, db') && Explains(db.wallets, db.trxs, met, buffer)
    ensures Explains(db'.wallets, db'.trxs, met, buffer)
    decreases |met|
  {
    if met != [] {
      var n := |met| - 1;
      if PassedOver(db.wallets, db.trxs + buffer, met[n]) && Explains(db.wallets, db.trxs, met[..n], buffer) {
        PassedOverStays(db, db', buffer, met[n]);
        ExplainsStays(db, db', met[..n], buffer);
      } else {
        SameAddress(db, db', met[n].wid, met[n].entry);
        ExplainsStays(db, db', met[..n], buffer[..|buffer| - 1]);
      }
    }
  }

  lemma PassesOver(wallets: seq<Wallet>, trxs: seq<Trx>, met: seq<Event>, buffer: seq<Trx>, e: Event)
    requires Explains(wallets, trxs, met, buffer) && PassedOver(wallets, trxs + buffer, e)
    ensures Explains(wallets, trxs, met + [e], buffer)
  {
    var after := met + [e];
    assert after[..|met|] == met && after[|met|] == e;
  }

  lemma Takes(wallets: seq<Wallet>, trxs: seq<Trx>, met: seq<Event>, buffer: seq<Trx>, e: Event, row: Trx)
    requires Explains(wallets, trxs, met, buffer) && Taken(wallets, e, row)
    ensures Explains(wallets, trxs, met + [e], buffer + [row])
  {
    var after, rows := met + [e], buffer + [row];
    assert after[..|met|] == met && after[|met|] == e && rows[..|buffer|] == buffer && rows[|buffer|] == row;
  }

  lemma UniqueShorter(trxs: seq<Trx>, buffer: seq<Trx>)
    requires buffer != [] && Unique(trxs + buffer)
    ensures var shorter := trxs + buffer[..|buffer| - 1]; var last := buffer[|buffer| - 1];
      && Unique(shorter) && shorter + [last] == trxs + buffer
      && (last.hash.Some? ==> !HasHash(shorter, last.hash.value))
  {
    var all, shorter := trxs + buffer, trxs + buffer[..|buffer| - 1];
    assert shorter + [buffer[|buffer| - 1]] == all;
    forall i, j | 0 <= i < j < |shorter| ensures !SameKey(shorter[i], shorter[j]) {
      assert all[i] == shorter[i] && all[j] == shorter[j];
    }
    InsertKeepsUnique(shorter, buffer[|buffer| - 1]);
  }

  /** When the unique columns let the buffer in, ingesting the elements in one go, on the table as it is then, adds
      exactly the buffer. */
  lemma {:induction false} ExplainedIsIngested(wallets: seq<Wallet>, trxs: seq<Trx>, met: seq<Event>, buffer: seq<Trx>)
    requires Explains(wallets, trxs, met, buffer) && Unique(trxs + buffer)
    ensures Known(wallets, met)
    ensures Ingestion.Ingest(wallets, trxs, met) == Ingestion.Outcome(trxs + buffer, false)
    decreases |met|
  {
    if met == [] {
      assert trxs + buffer == trxs;
    } else {
      var n := |met| - 1;
      if PassedOver(wallets, trxs + buffer, met[n]) && Explains(wallets, trxs, met[..n], buffer) {
        ExplainedIsIngested(wallets, trxs, met[..n], buffer);
      } else {
        UniqueShorter(trxs, buffer);
        ExplainedIsIngested(wallets, trxs, met[..n], buffer[..|buffer| - 1]);
      }
    }
  }

  // ---------- The fill ----------

  function Picks(looks: seq<Look>): seq<Option<nat>> {
    seq(|looks|, n requires 0 <= n < |looks| => looks[n].pick)
  }

  lemma PicksPrefix(looks: seq<Look>, n: nat)
    requires n <= |looks|
    ensures Picks(looks[..n]) == Picks(looks)[..n]
  {
  }

  /** The table as the run sees it when it comes to element `n`: its own assignments so far included. */
  function ViewAt(trxs: seq<Trx>, met: seq<Event>, looks: seq<Look>, n: nat): seq<Trx>
    requires n <= |met| == |looks|
  {
    FillAll(trxs, F.DepositsOf(met[..n], Picks(looks[..n])))
  }

  /** What the query for the element answered fits the table, as far as the rows of that time are concerned. */
  ghost predicate LookFits(wallets: seq<Wallet>, view: seq<Trx>, e: Event, look: Look) {
    && e.Arrival? && e.wid < |wallets| && look.rows <= |view|
    && match look.pick
       case Some(i) =>
         && e.entry.addressTo.Some? && Addressed(wallets[e.wid], e.entry)
         && i < |view| && Awaits(view[i], e.wid, e.entry)
       case None =>
         || HasHash(view, e.entry.hash)
         || (e.entry.addressTo.Some? && !Addressed(wallets[e.wid], e.entry))
         || (e.entry.addressTo.Some? && forall i | 0 <= i < look.rows :: !Awaits(view[i], e.wid, e.entry))
  }

  /** The deposits have come about by handling these elements one by one, others writing meanwhile. */
  ghost predicate Accounts(wallets: seq<Wallet>, trxs: seq<Trx>, met: seq<Event>, looks: seq<Look>) {
    && |met| == |looks|
    && forall n | 0 <= n < |met| :: LookFits(wallets, ViewAt(trxs, met, looks, n), met[n], looks[n])
  }

  /** The run passed over an element for want of a deposit, and a deposit that awaits it has come in since. */
  ghost predicate Overlooked(wallets: seq<Wallet>, trxs: seq<Trx>, met: seq<Event>, looks: seq<Look>, n: nat)
    requires n < |met| == |looks| && (met[n].Arrival? ==> met[n].wid < |wallets|)
  {
    var view := ViewAt(trxs, met, looks, n);
    && looks[n].pick.None? && F.Valid(wallets, view, met[n])
    && exists i :: looks[n].rows <= i < |view| && Awaits(view[i], met[n].wid, met[n].entry)
  }

  /** No element that the run passed over has been overlooked in this sense. */
  ghost predicate NoneOverlooked(wallets: seq<Wallet>, trxs: seq<Trx>, met: seq<Event>, looks: seq<Look>)
    requires Known(wallets, met) && |met| == |looks|
  {
    forall n | 0 <= n < |met| :: !Overlooked(wallets, trxs, met, looks, n)
  }

  lemma ViewHashStays(db: Store, db': Store, deposits: map<nat, Deposit>, hash: string)
    requires CoversExpected(db, db') && HasHash(FillAll(db.trxs, deposits), hash)
    ensures HasHash(FillAll(db'.trxs, deposits), hash)
  {
    var i :| 0 <= i < |db.trxs| && FillAll(db.trxs, deposits)[i].hash == Some(hash);
    assert FillAll(db'.trxs, deposits)[i].hash == Some(hash);
  }

  lemma LookFitsStays(db: Store, db': Store, deposits: map<nat, Deposit>, e: Event, look: Look)
    requires CoversExpected(db, db') && LookFits(db.wallets, FillAll(db.trxs, deposits), e, look)
    ensures LookFits(db'.wallets, FillAll(db'.trxs, deposits), e, look)
  {
    var view, view' := FillAll(db.trxs, deposits), FillAll(db'.trxs, deposits);
    SameAddress(db, db', e.wid, e.entry);
    if look.pick.Some? {
      assert view'[look.pick.value] == view[look.pick.value];
    } else if HasHash(view, e.entry.hash) {
      ViewHashStays(db, db', deposits, e.entry.hash);
    } else {
      forall i | 0 <= i < look.rows && Awaits(view'[i], e.wid, e.entry) ensures Awaits(view[i], e.wid, e.entry) {
        assert i !in deposits && db'.trxs[i].hash.None?;
      }
    }
  }

  lemma AccountsStays(db: Store, db': Store, met: seq<Event>, looks: seq<Look>)
    requires CoversExpected(db, db') && Accounts(db.wallets, db.trxs, met, looks)
    ensures Accounts(db'.wallets, db'.trxs, met, looks)
  {
    forall n | 0 <= n < |met| ensures LookFits(db'.wallets, ViewAt(db'.trxs, met, looks, n), met[n], looks[n]) {
      LookFitsStays(db, db', F.DepositsOf(met[..n], Picks(looks[..n])), met[n], looks[n]);
    }
  }

  lemma ViewAtPrefix(trxs: seq<Trx>, met: seq<Event>, looks: seq<Look>, n: nat, m: nat)
    requires n <= m <= |met| == |looks|
    ensures ViewAt(trxs, met[..m], looks[..m], n) == ViewAt(trxs, met, looks, n)
  {
    assert met[..m][..n] == met[..n] && looks[..m][..n] == looks[..n];
  }

  lemma AccountsPrefix(wallets: seq<Wallet>, trxs: seq<Trx>, met: seq<Event>, looks: seq<Look>, m: nat)
    requires Accounts(wallets, trxs, met, looks) && m <= |met|
    ensures Accounts(wallets, trxs, met[..m], looks[..m])
  {
    forall n | 0 <= n < m
      ensures LookFits(wallets, ViewAt(trxs, met[..m], looks[..m], n), met[..m][n], looks[..m][n])
    {
      ViewAtPrefix(trxs, met, looks, n, m);
    }
  }

  lemma AccountsMore(wallets: seq<Wallet>, trxs: seq<Trx>, met: seq<Event>, looks: seq<Look>, e: Event, look: Look)
    requires Accounts(wallets, trxs, met, looks)
    requires LookFits(wallets, FillAll(trxs, F.DepositsOf(met, Picks(looks))), e, look)
    ensures Accounts(wallets, trxs, met + [e], looks + [look])
    ensures F.DepositsOf(met + [e], Picks(looks + [look])) ==
      match look.pick
      case Some(i) => F.DepositsOf(met, Picks(looks))[i := Deposit(e.entry.hash, e.entry.value)]
      case None => F.DepositsOf(met, Picks(looks))
  {
    var met', looks' := met + [e], looks + [look];
    assert met'[..|met|] == met && looks'[..|met|] == looks;
    assert Picks(looks')[..|met|] == Picks(looks);
    forall n | 0 <= n < |met'| ensures LookFits(wallets, ViewAt(trxs, met', looks', n), met'[n], looks'[n]) {
      if n < |met| {
        ViewAtPrefix(trxs, met', looks', n, |met|);
      }
    }
  }

  /** Taking the last deposit back leaves the columns unique, and its hash unused. */
  lemma UniqueWithout(trxs: seq<Trx>, deposits: map<nat, Deposit>, i: nat, deposit: Deposit)
    requires i < |trxs| && i !in deposits && Expected(trxs[i])
    requires Unique(FillAll(trxs, deposits[i := deposit]))
    ensures Unique(FillAll(trxs, deposits)) && !HasHash(FillAll(trxs, deposits), deposit.hash)
  {
    var now, after := FillAll(trxs, deposits), FillAll(trxs, deposits[i := deposit]);
    assert after == now[i := Filled(now[i], deposit.hash, deposit.value)];
    forall j | 0 <= j < |now| ensures now[j].hash != Some(deposit.hash) {
      if j != i {
        assert !SameKey(after[if j < i then j else i], after[if j < i then i else j]);
      }
    }
    forall j, k | 0 <= j < k < |now| ensures !SameKey(now[j], now[k]) {
      assert !SameKey(after[j], after[k]);
    }
  }

  lemma AccountsKnown(wallets: seq<Wallet>, trxs: seq<Trx>, met: seq<Event>, looks: seq<Look>)
    requires Accounts(wallets, trxs, met, looks)
    ensures Known(wallets, met)
  {
    forall n | 0 <= n < |met| ensures met[n].Arrival? && met[n].wid < |wallets| {
      assert LookFits(wallets, ViewAt(trxs, met, looks, n), met[n], looks[n]);
    }
  }

  lemma PickIsGoodIff(wallets: seq<Wallet>, trxs: seq<Trx>, met: seq<Event>, looks: seq<Look>, n: nat)
    requires Known(wallets, met) && Accounts(wallets, trxs, met, looks) && n < |met|
    requires looks[n].pick.Some? ==> !HasHash(ViewAt(trxs, met, looks, n), met[n].entry.hash)
    ensures F.GoodPick(wallets, ViewAt(trxs, met, looks, n), met[n], looks[n].pick)
      <==> !Overlooked(wallets, trxs, met, looks, n)
  {
    var view := ViewAt(trxs, met, looks, n);
    assert LookFits(wallets, view, met[n], looks[n]);
  }

  lemma OverlookedInPrefix(wallets: seq<Wallet>, trxs: seq<Trx>, met: seq<Event>, looks: seq<Look>, m: nat, n: nat)
    requires Known(wallets, met) && n < m <= |met| == |looks|
    ensures Overlooked(wallets, trxs, met[..m], looks[..m], n) <==> Overlooked(wallets, trxs, met, looks, n)
  {
    ViewAtPrefix(trxs, met, looks, n, m);
  }

  lemma NoneOverlookedMore(wallets: seq<Wallet>, trxs: seq<Trx>, met: seq<Event>, looks: seq<Look>)
    requires Known(wallets, met) && 0 < |met| == |looks|
    ensures var n := |met| - 1;
      NoneOverlooked(wallets, trxs, met, looks) <==>
        NoneOverlooked(wallets, trxs, met[..n], looks[..n]) && !Overlooked(wallets, trxs, met, looks, n)
  {
    var n := |met| - 1;
    if NoneOverlooked(wallets, trxs, met, looks) {
      forall m | 0 <= m < n ensures !Overlooked(wallets, trxs, met[..n], looks[..n], m) {
        OverlookedInPrefix(wallets, trxs, met, looks, n, m);
      }
    }
    if NoneOverlooked(wallets, trxs, met[..n], looks[..n]) && !Overlooked(wallets, trxs, met, looks, n) {
      forall m | 0 <= m < |met| ensures !Overlooked(wallets, trxs, met, looks, m) {
        if m < n {
          OverlookedInPrefix(wallets, trxs, met, looks, n, m);
        }
      }
    }
  }

  /** The last element: what it does to the table in one go is what the run has recorded. */
  lemma LastIsMet(reading: Reading, wallets: seq<Wallet>, trxs: seq<Trx>, met: seq<Event>, looks: seq<Look>)
    requires Known(wallets, met) && Accounts(wallets, trxs, met, looks) && met != []
    requires Unique(FillAll(trxs, F.DepositsOf(met, Picks(looks))))
    requires reading.Rebound? ==> looks[|met| - 1].pick.None?
    ensures var n := |met| - 1; var view := ViewAt(trxs, met, looks, n);
      && Unique(view)
      && (looks[n].pick.Some? ==> !HasHash(view, met[n].entry.hash))
      && F.Meet(reading, wallets, view, met[n], looks[n].pick)
         == Ingestion.Outcome(FillAll(trxs, F.DepositsOf(met, Picks(looks))), false)
  {
    var n := |met| - 1;
    var view, before := ViewAt(trxs, met, looks, n), F.DepositsOf(met[..n], Picks(looks[..n]));
    PicksPrefix(looks, n);
    assert LookFits(wallets, view, met[n], looks[n]);
    if looks[n].pick.Some? {
      var i, deposit := looks[n].pick.value, Deposit(met[n].entry.hash, met[n].entry.value);
      F.FillOneMore(trxs, before, i, deposit);
      UniqueWithout(trxs, before, i, deposit);
    }
  }

  /** When the unique columns let the deposits in, filling with the same answers in one go, on the table as it is
      then, settles exactly those deposits. */
  lemma {:induction false} AccountedIsRun(reading: Reading, wallets: seq<Wallet>, trxs: seq<Trx>,
                                          met: seq<Event>, looks: seq<Look>)
    requires Known(wallets, met) && Accounts(wallets, trxs, met, looks)
    requires Unique(FillAll(trxs, F.DepositsOf(met, Picks(looks))))
    requires reading.Rebound? ==> forall n | 0 <= n < |looks| :: looks[n].pick.None?
    ensures F.Run(reading, wallets, trxs, met, Picks(looks))
         == Ingestion.Outcome(FillAll(trxs, F.DepositsOf(met, Picks(looks))), false)
    decreases |met|
  {
    if met == [] {
      assert FillAll(trxs, map[]) == trxs;
    } else {
      var n := |met| - 1;
      PicksPrefix(looks, n);
      AccountsPrefix(wallets, trxs, met, looks, n);
      LastIsMet(reading, wallets, trxs, met, looks);
      AccountedIsRun(reading, wallets, trxs, met[..n], looks[..n]);
    }
  }

  /** And the answers are those its queries give then exactly when no element has been overlooked. */
  lemma {:induction false} AnswersFitIff(reading: Reading, wallets: seq<Wallet>, trxs: seq<Trx>,
                                         met: seq<Event>, looks: seq<Look>)
    requires Known(wallets, met) && Accounts(wallets, trxs, met, looks)
    requires Unique(FillAll(trxs, F.DepositsOf(met, Picks(looks))))
    requires reading.Rebound? ==> forall n | 0 <= n < |looks| :: looks[n].pick.None?
    ensures F.GoodPicks(reading, wallets, trxs, met, Picks(looks)) <==> NoneOverlooked(wallets, trxs, met, looks)
    decreases |met|
  {
    if met != [] {
      var n := |met| - 1;
      PicksPrefix(looks, n);
      AccountsPrefix(wallets, trxs, met, looks, n);
      LastIsMet(reading, wallets, trxs, met, looks);
      AccountedIsRun(reading, wallets, trxs, met[..n], looks[..n]);
      AnswersFitIff(reading, wallets, trxs, met[..n], looks[..n]);
      NoneOverlookedMore(wallets, trxs, met, looks);
      PickIsGoodIff(wallets, trxs, met, looks, n);
    }
  }
}
