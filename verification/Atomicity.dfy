/** Interleaved runs in which nobody was disturbed are runs of the operations of the service done in one go. */
module Atomicity {
  import opened Rows
  import opened Feeds
  import opened World
  import L = Lifecycle
  import F = Filling
  import H = History
  import I = Interleaving
  import O = Operations
  import R = Refinement
  import C = Concurrency
  import Handlers
  import Ingestion
  import Registry

  // ---------- The records of the workers ----------

  /** A handler has read the rows of the hashes it has hit, and no others. */
  ghost predicate HitsMatch(read: map<nat, Held>, hits: seq<string>) {
    && (forall i | i in read :: read[i].row.hash.Some? && read[i].row.hash.value in hits)
    && (forall hash | hash in hits :: exists i :: i in read && read[i].row.hash == Some(hash))
  }

  /** Behind and ahead of a sender are together the rows it took, and what it counts as saved is settled. */
  ghost predicate PassOk(w: World, service: L.Service, rows: seq<Held>, phase: Phase, pass: Pass) {
    && |pass.behind| + |rows| == |pass.taken| && rows == pass.taken[|pass.behind|..]
    && (forall n | 0 <= n < |pass.behind| && pass.behind[n] == WasSaved ::
          L.AckOf(service, pass.taken[n].id, pass.taken[n].row) in w.settled)
    && (rows != [] && phase == Saved ==> L.AckOf(service, rows[0].id, rows[0].row) in w.settled)
  }

  /** What a worker has recorded accounts for what it holds. */
  ghost predicate RecordOk(w: World, x: Worker) {
    match x
    case Confirming(hashes, read, hits, misses, asked) =>
      && HitsMatch(read, hits)
      && multiset(asked) == multiset(hits) + multiset(misses) + multiset(hashes)
    case Sending(service, rows, phase, pass) => PassOk(w, service, rows, phase, pass)
    case Ingesting(wids, phase, feed, buffer, tour) =>
      && H.OnTour(tour, wids, phase, feed) && O.Tourable(w.db.wallets, tour.wids, tour.known, false)
      && H.Explains(w.db.wallets, w.db.trxs, tour.met, buffer)
    case Filling(wids, phase, feed, _, deposits, looks, tour) =>
      && H.OnTour(tour, wids, phase, feed) && O.Tourable(w.db.wallets, tour.wids, tour.known, true)
      && H.Accounts(w.db.wallets, w.db.trxs, tour.met, looks)
      && deposits == F.DepositsOf(tour.met, H.Picks(looks))
      && (w.reading.Rebound? ==> forall n | 0 <= n < |looks| :: looks[n].pick.None?)
    case _ => true
  }

  ghost predicate RecordsOk(w: World) {
    forall j | 0 <= j < |w.workers| :: RecordOk(w, w.workers[j])
  }

  lemma RecordStays(w: World, w': World, x: Worker)
    requires RecordOk(w, x) && I.Grows(w, w') && w'.reading == w.reading && w.settled <= w'.settled
    requires x.Filling? ==> I.KeepsExpected(w, w')
    ensures RecordOk(w', x)
  {
    H.GrowsCovers(w, w');
    match x
    case Ingesting(_, _, _, buffer, tour) =>
      H.StillTourable(w.db, w'.db, tour.wids, tour.known, false);
      H.ExplainsStays(w.db, w'.db, tour.met, buffer);
    case Filling(_, _, _, _, _, looks, tour) =>
      H.StillTourable(w.db, w'.db, tour.wids, tour.known, true);
      H.AccountsStays(w.db, w'.db, tour.met, looks);
    case _ =>
  }

  lemma WatchedIsTourable(wallets: seq<Wallet>, wids: seq<nat>, platform: bool)
    requires Answers(wids, wallets, Watched(platform))
    ensures O.Tourable(wallets, wids, |wallets|, platform)
  {
    forall n | 0 <= n < |wids| ensures wallets[wids[n]].isPlatform == platform && wallets[wids[n]].isActive {
      assert Watched(platform)(wallets[wids[n]]);
    }
  }

  lemma BeginRecord(w: World, k: nat, m: Move)
    requires Can(w, k, m) && (m.IngestBegin? || m.FillBegin?)
    ensures |Do(w, k, m).workers| == |w.workers| && RecordOk(w, Do(w, k, m).workers[k])
  {
    WatchedIsTourable(w.db.wallets, m.wids, m.FillBegin?);
    H.TourBegins(m.wids, |w.db.wallets|);
  }

  /** The head of the queue goes behind. */
  lemma PassGoesOn(w: World, x: Worker, fate: Fate)
    requires x.Sending? && x.rows != [] && RecordOk(w, x)
    requires fate == WasSaved ==> x.phase == Saved
    ensures RecordOk(w, Popped(x, fate))
  {
    assert x.pass.taken[|x.pass.behind|] == x.rows[0];
  }

  lemma SenderRecord(w: World, k: nat, m: Move)
    requires Can(w, k, m) && RecordOk(w, w.workers[k])
    requires m.Snapshot? || m.Acknowledge? || m.Reject?
    ensures |Do(w, k, m).workers| == |w.workers| && RecordOk(w, Do(w, k, m).workers[k])
  {
    if m.Reject? {
      PassGoesOn(w, w.workers[k], WasRejected);
    }
  }

  lemma SaveRecord(w: World, k: nat)
    requires Can(w, k, Save) && RecordOk(w, w.workers[k])
    ensures |Do(w, k, Save).workers| == |w.workers|
    ensures RecordOk(Do(w, k, Save), Do(w, k, Save).workers[k])
  {
  }

  lemma QueueRecord(w: World, k: nat, m: Move)
    requires Can(w, k, m) && RecordOk(w, w.workers[k])
    requires m.SeeLocked? || m.SeeFree? || m.Acquire?
    ensures |Do(w, k, m).workers| == |w.workers| && RecordOk(w, Do(w, k, m).workers[k])
  {
    var x := w.workers[k];
    if m.SeeLocked? {
      if x.Sending? {
        PassGoesOn(w, x, WasLocked);
      } else {
        H.TourSkips(x.tour, x.wids, x.feed);
      }
    }
  }

  lemma FetchRecord(w: World, k: nat, elements: seq<Entry>)
    requires Can(w, k, Fetch(elements)) && RecordOk(w, w.workers[k])
    ensures RecordOk(w, Do(w, k, Fetch(elements)).workers[k])
  {
    var x := w.workers[k];
    H.TourFetches(x.tour, x.wids, x.feed, elements);
  }

  lemma ReleaseRecord(w: World, k: nat)
    requires Can(w, k, Release) && RecordOk(w, w.workers[k])
    ensures RecordOk(w, Do(w, k, Release).workers[k])
  {
    var x := w.workers[k];
    if x.Sending? {
      PassGoesOn(w, x, WasSaved);
    } else {
      H.TourLeaves(x.tour, x.wids);
    }
  }

  lemma IngestRecord(w: World, k: nat)
    requires Can(w, k, IngestEntry) && RecordOk(w, w.workers[k])
    ensures RecordOk(w, Do(w, k, IngestEntry).workers[k])
  {
    var x := w.workers[k];
    var e := Arrival(x.wids[0], x.feed[0]);
    H.TourHandles(x.tour, x.wids, x.feed);
    if H.PassedOver(w.db.wallets, w.db.trxs + x.buffer, e) {
      H.PassesOver(w.db.wallets, w.db.trxs, x.tour.met, x.buffer, e);
    } else {
      H.Takes(w.db.wallets, w.db.trxs, x.tour.met, x.buffer, e, IngestedRow(e.wid, e.entry));
    }
  }

  lemma LookFits(w: World, k: nat, pick: Option<nat>)
    requires Can(w, k, FillEntry(pick))
    ensures var x := w.workers[k];
      H.LookFits(w.db.wallets, L.FillAll(w.db.trxs, x.deposits), Arrival(x.wids[0], x.feed[0]), Look(pick, |w.db.trxs|))
  {
  }

  /** What handling the head of the feed does to an open fill run. */
  ghost predicate FillStep(w: World, x: Worker, pick: Option<nat>, y: Worker)
    requires x.Filling? && x.wids != [] && x.feed != []
  {
    && y.Filling? && y.wids == x.wids && y.phase == x.phase == Answered && y.feed == x.feed[1..]
    && y.looks == x.looks + [Look(pick, |w.db.trxs|)] && y.tour == Seen(x.tour, x.wids[0], x.feed[0])
    && y.deposits == (if pick.None? then x.deposits
                      else x.deposits[pick.value := L.Deposit(x.feed[0].hash, x.feed[0].value)])
    && (w.reading.Rebound? ==> pick.None?)
  }

  lemma FillEffect(w: World, k: nat, pick: Option<nat>)
    requires Can(w, k, FillEntry(pick))
    ensures FillStep(w, w.workers[k], pick, Do(w, k, FillEntry(pick)).workers[k])
  {
  }

  lemma FillStepRecord(w: World, x: Worker, pick: Option<nat>, y: Worker)
    requires RecordOk(w, x) && x.Filling? && x.wids != [] && x.feed != [] && FillStep(w, x, pick, y)
    requires H.LookFits(w.db.wallets, L.FillAll(w.db.trxs, x.deposits), Arrival(x.wids[0], x.feed[0]),
                        Look(pick, |w.db.trxs|))
    ensures RecordOk(w, y)
  {
    H.TourHandles(x.tour, x.wids, x.feed);
    H.AccountsMore(w.db.wallets, w.db.trxs, x.tour.met, x.looks, Arrival(x.wids[0], x.feed[0]),
                   Look(pick, |w.db.trxs|));
  }

  lemma FillRecord(w: World, k: nat, pick: Option<nat>, y: Worker)
    requires Can(w, k, FillEntry(pick)) && RecordOk(w, w.workers[k]) && y == Do(w, k, FillEntry(pick)).workers[k]
    ensures RecordOk(w, y)
  {
    LookFits(w, k, pick);
    FillEffect(w, k, pick);
    FillStepRecord(w, w.workers[k], pick, y);
  }

  lemma HitMore(read: map<nat, Held>, hits: seq<string>, i: nat, h: Held, hash: string)
    requires HitsMatch(read, hits)
    requires if i in read then read[i].row.hash == Some(hash) else h.row.hash == Some(hash)
    ensures HitsMatch(if i in read then read else read[i := h], hits + [hash])
  {
    var read' := if i in read then read else read[i := h];
    forall other | other in hits + [hash] ensures exists j :: j in read' && read'[j].row.hash == Some(other) {
      if other == hash {
        assert i in read' && read'[i].row.hash == Some(hash);
      } else {
        var j :| j in read && read[j].row.hash == Some(other);
        assert j in read' && read'[j] == read[j];
      }
    }
  }

  lemma ReadRecord(w: World, k: nat, found: Option<nat>)
    requires Can(w, k, ConfirmRead(found)) && RecordOk(w, w.workers[k])
    ensures RecordOk(w, Do(w, k, ConfirmRead(found)).workers[k])
  {
    var x := w.workers[k];
    if found.Some? {
      var i := found.value;
      HitMore(x.read, x.hits, i, Held(i, w.db.trxs[i], w.versions[i]), x.hashes[0]);
    }
    assert x.hashes == [x.hashes[0]] + x.hashes[1..];
  }

  /** The moves after which the worker that moved has something on record. */
  predicate Records(m: Move) {
    || m.ConfirmRead? || m.IngestBegin? || m.FillBegin? || m.SeeLocked? || m.SeeFree? || m.Acquire?
    || m.Fetch? || m.IngestEntry? || m.FillEntry? || m.Release?
    || m.Snapshot? || m.Acknowledge? || m.Reject? || m.Save?
  }

  lemma NothingRecorded(w: World, k: nat, m: Move)
    requires Can(w, k, m) && !Records(m)
    ensures |Do(w, k, m).workers| == |w.workers| && RecordOk(w, Do(w, k, m).workers[k])
  {
  }

  lemma FeedRecord(w: World, k: nat, m: Move, y: Worker)
    requires Can(w, k, m) && RecordOk(w, w.workers[k]) && (m.Fetch? || m.IngestEntry? || m.FillEntry? || m.Release?)
    requires |Do(w, k, m).workers| == |w.workers| && y == Do(w, k, m).workers[k]
    ensures RecordOk(w, y)
  {
    if m.Fetch? {
      FetchRecord(w, k, m.elements);
    } else if m.IngestEntry? {
      IngestRecord(w, k);
    } else if m.FillEntry? {
      FillRecord(w, k, m.pick, y);
    } else {
      ReleaseRecord(w, k);
    }
  }

  lemma MoverRecord(w: World, k: nat, m: Move, y: Worker)
    requires Can(w, k, m) && RecordOk(w, w.workers[k]) && !m.Save?
    requires |Do(w, k, m).workers| == |w.workers| && y == Do(w, k, m).workers[k]
    ensures RecordOk(w, y)
  {
    if m.Snapshot? || m.Acknowledge? || m.Reject? {
      SenderRecord(w, k, m);
    } else if m.ConfirmRead? {
      ReadRecord(w, k, m.found);
    } else if m.IngestBegin? || m.FillBegin? {
      BeginRecord(w, k, m);
    } else if m.SeeLocked? || m.SeeFree? || m.Acquire? {
      QueueRecord(w, k, m);
    } else if Records(m) {
      FeedRecord(w, k, m, y);
    } else {
      NothingRecorded(w, k, m);
    }
  }

  /** Whatever others do in between, every worker's record keeps accounting for what it holds. */
  lemma MoveKeepsRecords(w: World, k: nat, m: Move, w': World)
    requires I.WorkersOk(w) && RecordsOk(w) && Can(w, k, m) && w' == Do(w, k, m)
    ensures RecordsOk(w')
  {
    I.MoveGrows(w, k, m);
    I.OneWorkerMoves(w, k, m);
    I.OneFillWorker(w, k, m);
    I.SettledGrows(w, k, m);
    if m.Save? {
      SaveRecord(w, k);
    } else {
      MoverRecord(w, k, m, w'.workers[k]);
    }
    forall j | 0 <= j < |w'.workers| && (j != k || !m.Save?) ensures RecordOk(w', w'.workers[j]) {
      RecordStays(w, w', w'.workers[j]);
    }
  }

  // ---------- The operation a move amounts to ----------

  /** The store and every acknowledgement that was acted on or lost. */
  ghost function Logged(w: World): L.State {
    L.State(w.db, w.settled + w.lost)
  }

  /** No deposit has come in for an element that an open fill run passed over. */
  ghost predicate NothingOverlooked(w: World, x: Worker)
    requires x.Filling?
  {
    Known(w.db.wallets, x.tour.met) && |x.looks| == |x.tour.met| ==>
      H.NoneOverlooked(w.db.wallets, w.db.trxs, x.tour.met, x.looks)
  }

  /** What the worker read before the suspension still holds as it writes: no other write of the row in between, no
      other wallet of that id, no deposit for an element passed over. */
  ghost predicate Undisturbed(w: World, k: nat, m: Move)
    requires Can(w, k, m)
  {
    var x := w.workers[k];
    && R.Fresh(w, k, m)
    && (m.StartCreate? ==> !Registry.Registered(w.db.wallets, x.wallet.externalId))
    && (m.Abort? && x.Sending? && AtPhase(x, Answered) ==>
          x.rows[0].id < |w.versions| && x.rows[0].version == w.versions[x.rows[0].id])
    && (m.Finish? && x.Filling? ==> NothingOverlooked(w, x))
  }

  /** A list of hashes is done hash by hash: those without a row when they are looked for, the others at the commit.
      Everything else is done as a whole at its write. */
  ghost function OpsOf(w: World, k: nat, m: Move): seq<O.Operation>
    requires Can(w, k, m)
  {
    var x := w.workers[k];
    match m
    case StartCreate =>
      [O.Monitoring(Registry.Start(x.wallet.currencySlug, x.wallet.address, x.wallet.externalId, x.wallet.isPlatform))]
    case StopWrite => [O.Monitoring(Registry.Stop(w.db.wallets[x.wid].externalId))]
    case Create(row) => [O.AddRow(row)]
    case ConfirmRead(found) => if found.None? then [O.UpdateTrx([x.hashes[0]])] else []
    case ConfirmCommit => [O.UpdateTrx(x.hits)]
    case Save => [O.Send(x.service, x.rows[0].id)]
    case Finish =>
      if x.Ingesting? then [O.IngestRun(x.tour.wids, x.tour.known, x.tour.visits)]
      else if x.Filling? then [FillOp(x)]
      else []
    case Abort => if x.Sending? && AtPhase(x, Answered) then [O.SendUnsaved(x.service, x.rows[0].id)] else []
    case _ => []
  }

  ghost predicate Carries(reading: L.Reading, s: L.State, ops: seq<O.Operation>, s': L.State) {
    match |ops|
    case 0 => s' == s
    case 1 => O.Possible(reading, s, ops[0]) && O.Perform(reading, s, ops[0]) == s'
    case _ => false
  }

  lemma StartPerforms(w: World, k: nat)
    requires I.WorkersOk(w) && Can(w, k, StartCreate) && Undisturbed(w, k, StartCreate)
    ensures Carries(w.reading, Logged(w), OpsOf(w, k, StartCreate), Logged(Do(w, k, StartCreate)))
  {
    assert I.WorkerOk(w, w.workers[k]);
  }

  lemma StopPerforms(w: World, k: nat)
    requires I.WorkersOk(w) && Can(w, k, StopWrite) && Registry.UniqueIds(w.db.wallets)
    ensures Carries(w.reading, Logged(w), OpsOf(w, k, StopWrite), Logged(Do(w, k, StopWrite)))
  {
    var x := w.workers[k];
    assert I.WorkerOk(w, x);
    assert Fixed(x.base) == Fixed(w.db.wallets[x.wid]);
    assert x.base.(onMonitoring := false) == w.db.wallets[x.wid].(onMonitoring := false);
    Registry.TurnsOffOne(w.db.wallets, x.wid);
  }

  lemma MissPerforms(w: World, k: nat)
    requires I.WorkersOk(w) && Can(w, k, ConfirmRead(None))
    ensures Carries(w.reading, Logged(w), OpsOf(w, k, ConfirmRead(None)), Logged(Do(w, k, ConfirmRead(None))))
  {
    var x := w.workers[k];
    assert I.WorkerOk(w, x);
    var trxs, hits := w.db.trxs, Handlers.HitIds(w.db.trxs, [x.hashes[0]]);
    forall i | 0 <= i < |trxs| && i in x.read ensures x.read[i].row.hash == trxs[i].hash {
      assert Payload(x.read[i].row).hash == Payload(trxs[i]).hash;
    }
    forall i | 0 <= i < |trxs| ensures i !in hits {
      assert !ReadMatches(w, x, i, x.hashes[0]);
    }
    assert L.ConfirmAll(trxs, hits) == trxs;
  }

  /** The rows that a handler has read are, while they are current, those that its hits name. */
  lemma ReadIsHits(w: World, read: map<nat, Held>, hits: seq<string>)
    requires Unique(w.db.trxs) && HitsMatch(read, hits)
    requires forall i | i in read ::
      i < |w.db.trxs| && read[i].row == w.db.trxs[i] && w.db.trxs[i].status != REPORTED
    ensures Handlers.HitIds(w.db.trxs, hits) == read.Keys
    ensures forall hash | hash in hits :: Handlers.Hit(w.db.trxs, hash)
  {
    var ids := Handlers.HitIds(w.db.trxs, hits);
    forall i | i in ids ensures i in read {
      var j :| j in read && read[j].row.hash == Some(w.db.trxs[i].hash.value);
      Handlers.OneRowPerHash(w.db.trxs, i, j);
    }
    forall hash | hash in hits ensures Handlers.Hit(w.db.trxs, hash) {
      var i :| i in read && read[i].row.hash == Some(hash);
      assert w.db.trxs[i].hash == Some(hash);
    }
  }

  lemma {:induction false} AllCount(trxs: seq<Trx>, hits: seq<string>)
    requires forall hash | hash in hits :: Handlers.Hit(trxs, hash)
    ensures Handlers.Hits(trxs, hits) == |hits|
  {
    if hits != [] {
      AllCount(trxs, hits[..|hits| - 1]);
    }
  }

  lemma CurrentRead(w: World, k: nat)
    requires I.WorkersOk(w) && Can(w, k, ConfirmCommit) && R.Fresh(w, k, ConfirmCommit)
    ensures forall i | i in w.workers[k].read ::
      && i < |w.db.trxs| && w.workers[k].read[i].row == w.db.trxs[i] && w.db.trxs[i].status != REPORTED
    ensures WriteRead(w.db.trxs, w.workers[k].read) == L.ConfirmAll(w.db.trxs, w.workers[k].read.Keys)
  {
    var x := w.workers[k];
    assert I.WorkerOk(w, x);
    forall i | i in x.read ensures x.read[i].row == w.db.trxs[i] && w.db.trxs[i].status != REPORTED {
      assert I.HeldOk(w, x.read[i]);
    }
  }

  /** The commit confirms what the batch of all hits confirms, and the handler's count is the count of that batch. */
  lemma CommitPerforms(w: World, k: nat)
    requires StoreOk(w.db) && I.WorkersOk(w) && RecordsOk(w)
    requires Can(w, k, ConfirmCommit) && R.Fresh(w, k, ConfirmCommit)
    ensures Carries(w.reading, Logged(w), OpsOf(w, k, ConfirmCommit), Logged(Do(w, k, ConfirmCommit)))
    ensures Handlers.Hits(w.db.trxs, w.workers[k].hits) == |w.workers[k].hits|
  {
    var x := w.workers[k];
    assert RecordOk(w, x);
    CurrentRead(w, k);
    ReadIsHits(w, x.read, x.hits);
    AllCount(w.db.trxs, x.hits);
  }

  lemma SavePerforms(w: World, k: nat)
    requires I.WorkersOk(w) && Can(w, k, Save) && R.Fresh(w, k, Save)
    ensures Carries(w.reading, Logged(w), OpsOf(w, k, Save), Logged(Do(w, k, Save)))
  {
    assert I.WorkerOk(w, w.workers[k]);
    var ack := multiset{L.AckOf(w.workers[k].service, w.workers[k].rows[0].id, w.workers[k].rows[0].row)};
    LostIsLogged(w.settled, w.lost, ack);
  }

  lemma LostIsLogged(settled: multiset<L.Ack>, lost: multiset<L.Ack>, hand: multiset<L.Ack>)
    ensures settled + (lost + hand) == (settled + lost) + hand
    ensures (settled + hand) + lost == (settled + lost) + hand
  {
  }

  lemma AbortPerforms(w: World, k: nat)
    requires I.WorkersOk(w) && Can(w, k, Abort) && Undisturbed(w, k, Abort)
    ensures Carries(w.reading, Logged(w), OpsOf(w, k, Abort), Logged(Do(w, k, Abort)))
  {
    var x := w.workers[k];
    if x.Sending? && AtPhase(x, Answered) {
      assert I.WorkerOk(w, x);
      assert I.HeldOk(w, x.rows[0]);
    }
    LostIsLogged(w.settled, w.lost, InHand(x));
  }

  /** At its commit an ingestion run, whatever came in between, is the run over the same wallets and feeds done in
      one go. */
  lemma IngestPerforms(w: World, k: nat)
    requires RecordsOk(w) && Can(w, k, Finish) && w.workers[k].Ingesting?
    ensures Carries(w.reading, Logged(w), OpsOf(w, k, Finish), Logged(Do(w, k, Finish)))
    ensures var x := w.workers[k];
      && O.Tourable(w.db.wallets, x.tour.wids, x.tour.known, false)
      && Ingestion.IngestWallets(w.db.wallets, w.db.trxs, x.tour.visits, x.tour.wids)
         == Ingestion.Outcome(w.db.trxs + x.buffer, false)
  {
    var x := w.workers[k];
    assert RecordOk(w, x);
    H.TourEnds(x.tour, x.phase, x.feed);
    H.ExplainedIsIngested(w.db.wallets, w.db.trxs, x.tour.met, x.buffer);
  }

  lemma FillCommits(w: World, k: nat)
    requires I.WorkersOk(w) && Can(w, k, Finish) && w.workers[k].Filling?
    ensures var x := w.workers[k];
      && WriteFills(w.db.trxs, x.bases, x.deposits) == L.FillAll(w.db.trxs, x.deposits)
      && Unique(L.FillAll(w.db.trxs, x.deposits))
      && Logged(Do(w, k, Finish)) == O.WithTrxs(Logged(w), L.FillAll(w.db.trxs, x.deposits))
  {
    var x := w.workers[k];
    assert I.WorkerOk(w, x);
    assert WriteFills(w.db.trxs, x.bases, x.deposits) == L.FillAll(w.db.trxs, x.deposits);
  }

  /** What the record of an open fill run says once its queue is empty. */
  lemma FillRecorded(w: World, k: nat)
    requires RecordsOk(w) && Can(w, k, Finish) && w.workers[k].Filling?
    ensures var x := w.workers[k];
      && x.tour.met == Events(x.tour.visits, x.tour.wids)
      && Known(w.db.wallets, x.tour.met) && O.Tourable(w.db.wallets, x.tour.wids, x.tour.known, true)
      && H.Accounts(w.db.wallets, w.db.trxs, x.tour.met, x.looks)
      && x.deposits == F.DepositsOf(x.tour.met, H.Picks(x.looks))
      && (w.reading.Rebound? ==> forall n | 0 <= n < |x.looks| :: x.looks[n].pick.None?)
  {
    var x := w.workers[k];
    assert RecordOk(w, x);
    H.TourEnds(x.tour, x.phase, x.feed);
    H.AccountsKnown(w.db.wallets, w.db.trxs, x.tour.met, x.looks);
  }

  /** At its commit a fill run writes what the run over the same wallets and feeds, with the same answers to its
      queries, writes in one go; and such a run gets those answers exactly when nothing has been overlooked. */
  lemma FillPerforms(w: World, k: nat)
    requires I.WorkersOk(w) && RecordsOk(w) && Can(w, k, Finish) && w.workers[k].Filling?
    ensures var x := w.workers[k]; var events := Events(x.tour.visits, x.tour.wids);
      && Known(w.db.wallets, events) && |H.Picks(x.looks)| == |events|
      && F.Run(w.reading, w.db.wallets, w.db.trxs, events, H.Picks(x.looks))
         == Ingestion.Outcome(L.FillAll(w.db.trxs, x.deposits), false)
      && (F.GoodPicks(w.reading, w.db.wallets, w.db.trxs, events, H.Picks(x.looks)) <==> NothingOverlooked(w, x))
      && O.Tourable(w.db.wallets, x.tour.wids, x.tour.known, true)
  {
    var x := w.workers[k];
    FillCommits(w, k);
    FillRecorded(w, k);
    H.AccountedIsRun(w.reading, w.db.wallets, w.db.trxs, x.tour.met, x.looks);
    H.AnswersFitIff(w.reading, w.db.wallets, w.db.trxs, x.tour.met, x.looks);
  }

  ghost function FillOp(x: Worker): O.Operation
    requires x.Filling?
  {
    O.FillRun(x.tour.wids, x.tour.known, x.tour.visits, H.Picks(x.looks))
  }

  lemma FillPossibleIff(w: World, k: nat)
    requires I.WorkersOk(w) && RecordsOk(w) && Can(w, k, Finish) && w.workers[k].Filling?
    ensures O.Possible(w.reading, Logged(w), FillOp(w.workers[k])) <==> NothingOverlooked(w, w.workers[k])
  {
    FillPerforms(w, k);
  }

  lemma FillResult(w: World, k: nat)
    requires I.WorkersOk(w) && RecordsOk(w) && Can(w, k, Finish) && w.workers[k].Filling?
    requires O.Possible(w.reading, Logged(w), FillOp(w.workers[k]))
    ensures O.Perform(w.reading, Logged(w), FillOp(w.workers[k])) == Logged(Do(w, k, Finish))
  {
    FillCommits(w, k);
    FillPerforms(w, k);
  }

  lemma OthersPerformNothing(w: World, k: nat, m: Move)
    requires Can(w, k, m) && !I.Writes(m) && !m.Abort?
    requires m.ConfirmRead? ==> m.found.Some?
    ensures Carries(w.reading, Logged(w), OpsOf(w, k, m), Logged(Do(w, k, m)))
  {
    I.OtherMovesKeepStore(w, k, m);
  }

  lemma FinishPerforms(w: World, k: nat)
    requires I.WorkersOk(w) && RecordsOk(w) && Can(w, k, Finish) && Undisturbed(w, k, Finish)
    ensures Carries(w.reading, Logged(w), OpsOf(w, k, Finish), Logged(Do(w, k, Finish)))
  {
    if w.workers[k].Ingesting? {
      IngestPerforms(w, k);
    } else if w.workers[k].Filling? {
      FillPossibleIff(w, k);
      FillResult(w, k);
    }
  }

  lemma MovePerforms(w: World, k: nat, m: Move)
    requires StoreOk(w.db) && I.WorkersOk(w) && RecordsOk(w) && Registry.UniqueIds(w.db.wallets)
    requires Can(w, k, m) && Undisturbed(w, k, m)
    ensures Carries(w.reading, Logged(w), OpsOf(w, k, m), Logged(Do(w, k, m)))
  {
    if m.StartCreate? {
      StartPerforms(w, k);
    } else if m.StopWrite? {
      StopPerforms(w, k);
    } else if m.ConfirmRead? && m.found.None? {
      MissPerforms(w, k);
    } else if m.ConfirmCommit? {
      CommitPerforms(w, k);
    } else if m.Save? {
      SavePerforms(w, k);
    } else if m.Finish? {
      FinishPerforms(w, k);
    } else if m.Abort? {
      AbortPerforms(w, k);
    } else if !m.Create? {
      OthersPerformNothing(w, k, m);
    }
  }

  // ---------- Whole runs ----------

  ghost predicate NobodyDisturbed(w: World, turns: seq<Turn>)
    requires Plays(w, turns)
    decreases |turns|
  {
    turns == [] ||
    (Undisturbed(w, turns[0].worker, turns[0].move)
     && NobodyDisturbed(Do(w, turns[0].worker, turns[0].move), turns[1..]))
  }

  ghost function AllOps(w: World, turns: seq<Turn>): seq<O.Operation>
    requires Plays(w, turns)
    decreases |turns|
  {
    if turns == [] then []
    else OpsOf(w, turns[0].worker, turns[0].move) + AllOps(Do(w, turns[0].worker, turns[0].move), turns[1..])
  }

  lemma MoveKeepsIds(w: World, k: nat, m: Move)
    requires I.WorkersOk(w) && Registry.UniqueIds(w.db.wallets) && Can(w, k, m) && Undisturbed(w, k, m)
    ensures Registry.UniqueIds(Do(w, k, m).db.wallets)
  {
    if m.StartCreate? {
      C.CreateKeepsIdsIff(w, k);
    } else {
      C.OtherMovesKeepIds(w, k, m);
    }
  }

  lemma SameReading(w: World, k: nat, m: Move)
    requires Can(w, k, m)
    ensures Do(w, k, m).reading == w.reading
  {
    I.OneWorkerMoves(w, k, m);
  }

  lemma CarriesOn(reading: L.Reading, s: L.State, ops: seq<O.Operation>, s': L.State, rest: seq<O.Operation>)
    requires Carries(reading, s, ops, s') && O.Performs(reading, s', rest)
    ensures O.Performs(reading, s, ops + rest)
    ensures O.Result(reading, s, ops + rest) == O.Result(reading, s', rest)
  {
    if ops == [] {
      assert ops + rest == rest;
    } else {
      assert (ops + rest)[0] == ops[0] && (ops + rest)[1..] == rest;
    }
  }

  /** An interleaved run in which nobody was disturbed reaches the store and the acknowledgements of the run of the
      same operations done in one go: batches of confirmations, ingestion runs over the same wallets and feeds, fills
      with the same answers, and single sends, each at its write. */
  lemma {:induction false} RunPerforms(w: World, turns: seq<Turn>)
    requires I.Inv(w) && RecordsOk(w) && Registry.UniqueIds(w.db.wallets)
    requires Plays(w, turns) && NobodyDisturbed(w, turns)
    ensures O.Performs(w.reading, Logged(w), AllOps(w, turns))
    ensures O.Result(w.reading, Logged(w), AllOps(w, turns)) == Logged(After(w, turns))
    decreases |turns|
  {
    if turns != [] {
      var k, m := turns[0].worker, turns[0].move;
      var w' := Do(w, k, m);
      MovePerforms(w, k, m);
      I.MoveKeepsInv(w, k, m);
      MoveKeepsRecords(w, k, m, w');
      MoveKeepsIds(w, k, m);
      SameReading(w, k, m);
      RunPerforms(w', turns[1..]);
      CarriesOn(w.reading, Logged(w), OpsOf(w, k, m), Logged(w'), AllOps(w', turns[1..]));
    }
  }

  lemma {:induction false} RunKeepsRecords(w: World, turns: seq<Turn>)
    requires I.Inv(w) && RecordsOk(w) && Plays(w, turns)
    ensures RecordsOk(After(w, turns))
    decreases |turns|
  {
    if turns != [] {
      I.MoveKeepsInv(w, turns[0].worker, turns[0].move);
      MoveKeepsRecords(w, turns[0].worker, turns[0].move, Do(w, turns[0].worker, turns[0].move));
      RunKeepsRecords(Do(w, turns[0].worker, turns[0].move), turns[1..]);
    }
  }

  lemma ReachableRecords(w: World)
    requires Reachable(w)
    ensures RecordsOk(w)
  {
    var n: nat, turns :| Leads(n, w.reading, turns, w);
    I.StartOk(n, w.reading);
    RunKeepsRecords(Start(n, w.reading), turns);
  }

  /** From the empty store, for any number of workers; and the acknowledgements received are those of the operations
      and those still in hand. */
  lemma InterleavedIsOneAfterTheOther(n: nat, reading: L.Reading, turns: seq<Turn>)
    requires Plays(Start(n, reading), turns) && NobodyDisturbed(Start(n, reading), turns)
    ensures var w, ops := After(Start(n, reading), turns), AllOps(Start(n, reading), turns);
      && O.Performs(reading, L.Empty, ops)
      && O.Result(reading, L.Empty, ops).db == w.db
      && w.acked == O.Result(reading, L.Empty, ops).acks + I.InHandOfAll(w.workers)
  {
    I.StartOk(n, reading);
    I.RunKeepsInv(Start(n, reading), turns);
    assert Logged(Start(n, reading)) == L.Empty;
    RunPerforms(Start(n, reading), turns);
  }

  /** In every interleaving, disturbed or not: a finishing ingestion run is the run over its wallets and feeds done in
      one go on the table as it is at the commit. */
  lemma EveryIngestionIsOneRun(w: World, k: nat)
    requires Reachable(w) && Can(w, k, Finish) && w.workers[k].Ingesting?
    ensures var x := w.workers[k];
      && O.Possible(w.reading, Logged(w), O.IngestRun(x.tour.wids, x.tour.known, x.tour.visits))
      && O.Perform(w.reading, Logged(w), O.IngestRun(x.tour.wids, x.tour.known, x.tour.visits))
         == Logged(Do(w, k, Finish))
  {
    ReachableRecords(w);
    IngestPerforms(w, k);
  }

  /** In every interleaving: a finishing fill run is the run over its wallets and feeds done in one go, with the same
      answers to its queries, exactly when no deposit has come in for an element it passed over. */
  lemma FillIsOneRunIff(w: World, k: nat)
    requires Reachable(w) && Can(w, k, Finish) && w.workers[k].Filling?
    ensures O.Possible(w.reading, Logged(w), FillOp(w.workers[k])) <==> NothingOverlooked(w, w.workers[k])
    ensures NothingOverlooked(w, w.workers[k]) ==>
      O.Perform(w.reading, Logged(w), FillOp(w.workers[k])) == Logged(Do(w, k, Finish))
  {
    I.ReachableOk(w);
    ReachableRecords(w);
    FillPossibleIff(w, k);
    if NothingOverlooked(w, w.workers[k]) {
      FillResult(w, k);
    }
  }

  /** In every interleaving a sender that finishes is done with every row it took: each was saved, its acknowledgement
      being settled, or its lock was taken, or the service refused it. */
  lemma SenderSkipsNothing(w: World, k: nat)
    requires Reachable(w) && Can(w, k, Finish) && w.workers[k].Sending?
    ensures var pass := w.workers[k].pass;
      && |pass.behind| == |pass.taken|
      && (forall n | 0 <= n < |pass.taken| ::
            || pass.behind[n] == WasLocked || pass.behind[n] == WasRejected
            || L.AckOf(w.workers[k].service, pass.taken[n].id, pass.taken[n].row) in w.settled)
  {
    ReachableRecords(w);
    assert RecordOk(w, w.workers[k]);
  }

  /** In every interleaving a handler that commits has looked for every hash of its list, as often as it occurs. */
  lemma HandlerSkipsNothing(w: World, k: nat)
    requires Reachable(w) && Can(w, k, ConfirmCommit)
    ensures var x := w.workers[k]; multiset(x.asked) == multiset(x.hits) + multiset(x.misses)
  {
    ReachableRecords(w);
    assert RecordOk(w, w.workers[k]);
  }

  // ---------- The whole list at once ----------

  lemma {:induction false} CountsInParts(trxs: seq<Trx>, a: seq<string>, b: seq<string>)
    ensures Handlers.Hits(trxs, a + b) == Handlers.Hits(trxs, a) + Handlers.Hits(trxs, b)
    decreases |b|
  {
    if b == [] {
      assert a + b == a;
    } else {
      assert (a + b)[..|a + b| - 1] == a + b[..|b| - 1];
      CountsInParts(trxs, a, b[..|b| - 1]);
    }
  }

  lemma WithoutOne(s: seq<string>, i: nat)
    requires i < |s|
    ensures multiset(s) == multiset(s[..i] + s[i + 1..]) + multiset{s[i]}
  {
    assert s == s[..i] + [s[i]] + s[i + 1..];
  }

  lemma CountsWithoutOne(trxs: seq<Trx>, s: seq<string>, i: nat)
    requires i < |s|
    ensures Handlers.Hits(trxs, s) ==
      Handlers.Hits(trxs, s[..i] + s[i + 1..]) + if Handlers.Hit(trxs, s[i]) then 1 else 0
  {
    CountsInParts(trxs, s[..i], s[i + 1..]);
    CountsInParts(trxs, s[..i], [s[i]]);
    CountsInParts(trxs, s[..i] + [s[i]], s[i + 1..]);
    assert s == s[..i] + [s[i]] + s[i + 1..] && [s[i]][..0] == [];
  }

  lemma FindIn(s: seq<string>, hash: string) returns (i: nat)
    requires hash in multiset(s)
    ensures i < |s| && s[i] == hash
  {
    i :| 0 <= i < |s| && s[i] == hash;
  }

  lemma Cancels(a: multiset<string>, b: multiset<string>, hash: string)
    requires a + multiset{hash} == b + multiset{hash}
    ensures a == b
  {
    assert a == (a + multiset{hash}) - multiset{hash};
    assert b == (b + multiset{hash}) - multiset{hash};
  }

  /** The count depends on how often each hash occurs, not on the order. */
  lemma {:induction false} CountsByMultiset(trxs: seq<Trx>, a: seq<string>, b: seq<string>)
    requires multiset(a) == multiset(b)
    ensures Handlers.Hits(trxs, a) == Handlers.Hits(trxs, b)
    decreases |a|
  {
    if a == [] {
      assert |multiset(b)| == |b| == 0;
    } else {
      var last := |a| - 1;
      WithoutOne(a, last);
      var i := FindIn(b, a[last]);
      WithoutOne(b, i);
      CountsWithoutOne(trxs, b, i);
      assert a[..last] + a[last + 1..] == a[..last];
      Cancels(multiset(a[..last]), multiset(b[..i] + b[i + 1..]), a[last]);
      CountsByMultiset(trxs, a[..last], b[..i] + b[i + 1..]);
    }
  }

  lemma {:induction false} CountsNothingIff(trxs: seq<Trx>, hashes: seq<string>)
    ensures Handlers.Hits(trxs, hashes) == 0 <==> forall hash | hash in hashes :: !Handlers.Hit(trxs, hash)
  {
    if hashes != [] {
      CountsNothingIff(trxs, hashes[..|hashes| - 1]);
      assert hashes == hashes[..|hashes| - 1] + [hashes[|hashes| - 1]];
    }
  }

  lemma SameRows(trxs: seq<Trx>, asked: seq<string>, hits: seq<string>, misses: seq<string>)
    requires multiset(asked) == multiset(hits) + multiset(misses)
    requires forall hash | hash in misses :: !Handlers.Hit(trxs, hash)
    ensures Handlers.HitIds(trxs, asked) == Handlers.HitIds(trxs, hits)
  {
    forall hash ensures hash in asked <==> hash in hits || hash in misses {
      assert hash in asked <==> hash in multiset(asked);
      assert hash in hits <==> hash in multiset(hits);
      assert hash in misses <==> hash in multiset(misses);
    }
    forall i | i in Handlers.HitIds(trxs, asked) ensures i in Handlers.HitIds(trxs, hits) {
      assert Handlers.Hit(trxs, trxs[i].hash.value);
    }
  }

  /** A handler whose reads are current answers the count of its whole list, as at the commit, exactly when no hash it
      missed has found a row since; and then the commit is the whole list done in one go. */
  lemma WholeListAtOnceIff(w: World, k: nat)
    requires Reachable(w) && Can(w, k, ConfirmCommit) && R.Fresh(w, k, ConfirmCommit)
    ensures var x, trxs := w.workers[k], w.db.trxs;
      && (|x.hits| == Handlers.Hits(trxs, x.asked) <==> forall hash | hash in x.misses :: !Handlers.Hit(trxs, hash))
      && (|x.hits| == Handlers.Hits(trxs, x.asked) ==>
            Do(w, k, ConfirmCommit).db ==
            Store(w.db.wallets, L.ConfirmAll(trxs, Handlers.HitIds(trxs, x.asked))))
  {
    I.ReachableOk(w);
    ReachableRecords(w);
    var x := w.workers[k];
    assert RecordOk(w, x);
    CommitPerforms(w, k);
    assert multiset(x.hits + x.misses) == multiset(x.asked);
    CountsByMultiset(w.db.trxs, x.asked, x.hits + x.misses);
    CountsInParts(w.db.trxs, x.hits, x.misses);
    CountsNothingIff(w.db.trxs, x.misses);
    if |x.hits| == Handlers.Hits(w.db.trxs, x.asked) {
      SameRows(w.db.trxs, x.asked, x.hits, x.misses);
    }
  }
}
