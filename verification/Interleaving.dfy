/** What holds in every interleaving, stale whole-row saves included. */
module Interleaving {
  import opened Rows
  import opened Feeds
  import opened Keys
  import opened Lifecycle
  import opened World

  // ---------- How the store evolves ----------

  /** Wallets are only added, and change by losing their monitoring flag at most; rows are only added; a row that
      has a hash keeps its payload; and a row whose version is unchanged is unchanged. */
  ghost predicate Grows(w: World, w': World) {
    && |w.versions| == |w.db.trxs| <= |w'.db.trxs| == |w'.versions|
    && |w.db.wallets| <= |w'.db.wallets|
    && (forall i | 0 <= i < |w.db.wallets| ::
          && Fixed(w'.db.wallets[i]) == Fixed(w.db.wallets[i])
          && (w'.db.wallets[i].onMonitoring ==> w.db.wallets[i].onMonitoring))
    && (forall i | 0 <= i < |w.db.trxs| ::
          && (w.db.trxs[i].hash.Some? ==> Payload(w'.db.trxs[i]) == Payload(w.db.trxs[i]))
          && w.versions[i] <= w'.versions[i]
          && (w.versions[i] == w'.versions[i] ==> w'.db.trxs[i] == w.db.trxs[i]))
  }

  /** No expected deposit is touched. */
  ghost predicate KeepsExpected(w: World, w': World) {
    && |w.versions| == |w.db.trxs| <= |w'.db.trxs| == |w'.versions|
    && forall i | 0 <= i < |w.db.trxs| && w.db.trxs[i].hash.None? ::
         w'.db.trxs[i] == w.db.trxs[i] && w'.versions[i] == w.versions[i]
  }

  // ---------- What a worker holds ----------

  /** A snapshot differs from the stored row in status and confirmation at most, and not at all while the
      version it read is current. */
  ghost predicate HeldOk(w: World, h: Held) {
    && |w.versions| == |w.db.trxs|
    && h.id < |w.db.trxs|
    && RowOk(w.db.wallets, h.row)
    && h.row.hash.Some?
    && Payload(h.row) == Payload(w.db.trxs[h.id])
    && h.version <= w.versions[h.id]
    && (h.version == w.versions[h.id] ==> h.row == w.db.trxs[h.id])
  }

  ghost predicate BaseOk(w: World, h: Held) {
    && |w.versions| == |w.db.trxs|
    && h.id < |w.db.trxs|
    && h.row == w.db.trxs[h.id] && h.version == w.versions[h.id]
    && Expected(h.row)
  }

  ghost predicate WorkerOk(w: World, x: Worker) {
    match x
    case Idle => true
    case Starting(wallet) => wallet.onMonitoring && wallet.isActive
    case Stopping(wid, base) => wid < |w.db.wallets| && Fixed(base) == Fixed(w.db.wallets[wid])
    case Confirming(_, read, _, _, _) =>
      forall i | i in read :: read[i].id == i && HeldOk(w, read[i]) && read[i].row.status != REPORTED
    case Sending(service, rows, _, _) =>
      forall n | 0 <= n < |rows| :: HeldOk(w, rows[n]) && Due(w.db.wallets, service, rows[n].row)
    case Ingesting(_, _, feed, buffer, _) =>
      && (forall n | 0 <= n < |buffer| :: Ingested(w.db.wallets, buffer[n]))
      && (forall n | 0 <= n < |feed| :: Lowered(feed[n].hash))
    case Filling(_, _, feed, bases, deposits, _, _) =>
      && bases.Keys == deposits.Keys
      && (forall i | i in bases :: bases[i].id == i && BaseOk(w, bases[i]) && Lowered(deposits[i].hash))
      && (forall n | 0 <= n < |feed| :: Lowered(feed[n].hash))
      && (w.reading.Rebound? ==> bases == map[])
  }

  ghost predicate WorkersOk(w: World) {
    && (forall j | 0 <= j < |w.workers| :: WorkerOk(w, w.workers[j]))
    && (forall i, j | 0 <= i < j < |w.workers| :: !(w.workers[i].Filling? && w.workers[j].Filling?))
  }

  // ---------- Locks ----------

  /** A lock is held exactly by the worker inside the body it protects. */
  ghost predicate LocksMatch(locks: map<Key, nat>, workers: seq<Worker>) {
    && (forall key | key in locks ::
          locks[key] < |workers| && InBody(workers[locks[key]]) && KeyOf(workers[locks[key]]) == key)
    && (forall j | 0 <= j < |workers| && InBody(workers[j]) ::
          KeyOf(workers[j]) in locks && locks[KeyOf(workers[j])] == j)
  }

  ghost predicate LocksOk(w: World) {
    LocksMatch(w.locks, w.workers)
  }

  // ---------- Acknowledgements ----------

  /** An acknowledged message still says what is stored. */
  ghost predicate StillTrue(w: World, a: Ack) {
    && a.id < |w.db.trxs|
    && w.db.trxs[a.id].hash.Some?
    && a.message == MessageOf(a.service, w.db.trxs[a.id])
  }

  ghost predicate Settled(w: World, service: Service, i: nat)
    requires i < |w.db.trxs|
  {
    AckOf(service, i, w.db.trxs[i]) in w.settled
  }

  ghost predicate AcksTrue(w: World) {
    && (forall a | a in w.settled :: StillTrue(w, a))
    && (forall a | a in w.lost :: StillTrue(w, a))
    && (forall i | 0 <= i < |w.db.trxs| && w.db.trxs[i].status == SENT :: Settled(w, Transactions, i))
    && (forall i | 0 <= i < |w.db.trxs| && w.db.trxs[i].status == REPORTED :: Settled(w, Exchanger, i))
  }

  function Sum(hands: seq<multiset<Ack>>): multiset<Ack> {
    if hands == [] then multiset{} else Sum(hands[..|hands| - 1]) + hands[|hands| - 1]
  }

  function Hands(workers: seq<Worker>): seq<multiset<Ack>> {
    seq(|workers|, i requires 0 <= i < |workers| => InHand(workers[i]))
  }

  function InHandOfAll(workers: seq<Worker>): multiset<Ack> {
    Sum(Hands(workers))
  }

  /** Every acknowledgement received was settled by a save, lost by an error, or is still in hand. */
  ghost predicate Conserved(w: World) {
    w.acked == w.settled + w.lost + InHandOfAll(w.workers)
  }

  ghost predicate Inv(w: World) {
    StoreOk(w.db) && WorkersOk(w) && LocksOk(w) && AcksTrue(w) && Conserved(w) && |w.versions| == |w.db.trxs|
  }

  // ---------- Each move ----------

  /** The moves that write to the store; every other move changes workers, locks and records only. */
  predicate Writes(m: Move) {
    m.StartCreate? || m.StopWrite? || m.Create? || m.ConfirmCommit? || m.Save? || m.Finish?
  }

  /** Moves of handlers, and the moves by which a worker becomes a monitor. */
  predicate HandlerMove(m: Move) {
    || m.StartCheck? || m.StartCreate? || m.StopRead? || m.StopWrite? || m.Create?
    || m.ConfirmBegin? || m.ConfirmRead? || m.ConfirmCommit?
    || m.Snapshot? || m.IngestBegin? || m.FillBegin?
  }

  lemma OtherMovesKeepStore(w: World, k: nat, m: Move)
    requires Can(w, k, m) && !Writes(m)
    ensures Do(w, k, m).db == w.db && Do(w, k, m).versions == w.versions && Do(w, k, m).settled == w.settled
  {
  }

  lemma WalletGrows(w: World, k: nat, m: Move)
    requires WorkersOk(w) && Can(w, k, m) && (m.StartCreate? || m.StopWrite? || m.Create?)
    ensures Grows(w, Do(w, k, m)) && KeepsExpected(w, Do(w, k, m))
  {
    assert WorkerOk(w, w.workers[k]);
  }

  lemma RowGrows(w: World, k: nat, m: Move)
    requires WorkersOk(w) && Can(w, k, m) && (m.ConfirmCommit? || m.Save?)
    ensures Grows(w, Do(w, k, m)) && KeepsExpected(w, Do(w, k, m))
  {
    assert WorkerOk(w, w.workers[k]);
  }

  lemma FinishGrows(w: World, k: nat)
    requires WorkersOk(w) && Can(w, k, Finish)
    ensures Grows(w, Do(w, k, Finish))
    ensures !w.workers[k].Filling? ==> KeepsExpected(w, Do(w, k, Finish))
  {
    assert WorkerOk(w, w.workers[k]);
  }

  lemma MoveGrows(w: World, k: nat, m: Move)
    requires WorkersOk(w) && Can(w, k, m)
    ensures Grows(w, Do(w, k, m))
    ensures !(m.Finish? && w.workers[k].Filling?) ==> KeepsExpected(w, Do(w, k, m))
  {
    if m.Finish? {
      FinishGrows(w, k);
    } else if m.ConfirmCommit? || m.Save? {
      RowGrows(w, k, m);
    } else if Writes(m) {
      WalletGrows(w, k, m);
    } else {
      OtherMovesKeepStore(w, k, m);
    }
  }

  lemma HeldStaysOk(w: World, w': World, h: Held)
    requires HeldOk(w, h) && Grows(w, w')
    ensures HeldOk(w', h)
  {
  }

  lemma WorkerStaysOk(w: World, w': World, x: Worker)
    requires WorkerOk(w, x) && Grows(w, w') && w'.reading == w.reading
    requires x.Filling? ==> KeepsExpected(w, w')
    ensures WorkerOk(w', x)
  {
    match x
    case Confirming(_, read, _, _, _) =>
      forall i | i in read ensures HeldOk(w', read[i]) { HeldStaysOk(w, w', read[i]); }
    case Sending(service, rows, _, _) =>
      forall n | 0 <= n < |rows| ensures HeldOk(w', rows[n]) { HeldStaysOk(w, w', rows[n]); }
    case _ =>
  }

  // What the worker that moves holds afterwards, first against the store it read.

  lemma ReadIsOk(w: World, k: nat, found: Option<nat>)
    requires StoreOk(w.db) && WorkersOk(w) && Can(w, k, ConfirmRead(found))
    ensures WorkerOk(w, Do(w, k, ConfirmRead(found)).workers[k])
  {
    assert WorkerOk(w, w.workers[k]);
  }

  lemma SnapshotIsOk(w: World, k: nat, service: Service, ids: seq<nat>)
    requires StoreOk(w.db) && Can(w, k, Snapshot(service, ids))
    ensures WorkerOk(w, Do(w, k, Snapshot(service, ids)).workers[k])
  {
    var x := Do(w, k, Snapshot(service, ids)).workers[k];
    forall n | 0 <= n < |x.rows| ensures HeldOk(w, x.rows[n]) && Due(w.db.wallets, service, x.rows[n].row) {
      assert RowOk(w.db.wallets, w.db.trxs[ids[n]]) && DueFor(w.db.wallets, service)(w.db.trxs[ids[n]]);
    }
  }

  lemma IngestEntryIsOk(w: World, k: nat)
    requires WorkersOk(w) && Can(w, k, IngestEntry)
    ensures WorkerOk(w, Do(w, k, IngestEntry).workers[k])
  {
    assert WorkerOk(w, w.workers[k]);
  }

  lemma FillEntryIsOk(w: World, k: nat, pick: Option<nat>)
    requires WorkersOk(w) && Can(w, k, FillEntry(pick))
    ensures WorkerOk(w, Do(w, k, FillEntry(pick)).workers[k])
  {
    assert WorkerOk(w, w.workers[k]);
  }

  lemma HandlerIsOk(w: World, k: nat, m: Move)
    requires WorkersOk(w) && Can(w, k, m) && HandlerMove(m) && !m.ConfirmRead? && !m.Snapshot?
    ensures |Do(w, k, m).workers| == |w.workers| && WorkerOk(w, Do(w, k, m).workers[k])
  {
    assert WorkerOk(w, w.workers[k]);
  }

  lemma FetchIsOk(w: World, k: nat, elements: seq<Entry>)
    requires WorkersOk(w) && Can(w, k, Fetch(elements))
    ensures WorkerOk(w, Do(w, k, Fetch(elements)).workers[k])
  {
    assert WorkerOk(w, w.workers[k]);
    forall n | 0 <= n < |elements| ensures Lowered(LoadAll(elements)[n].hash) {
      LoadIsLoaded(elements[n]);
    }
  }

  lemma MonitorIsOk(w: World, k: nat, m: Move)
    requires WorkersOk(w) && Can(w, k, m) && !HandlerMove(m) && !m.IngestEntry? && !m.FillEntry? && !m.Fetch?
    ensures |Do(w, k, m).workers| == |w.workers| && WorkerOk(w, Do(w, k, m).workers[k])
  {
    assert WorkerOk(w, w.workers[k]);
  }

  /** The worker that moved holds what it should. */
  lemma MoverOk(w: World, k: nat, m: Move, y: Worker)
    requires StoreOk(w.db) && WorkersOk(w) && Can(w, k, m)
    requires |Do(w, k, m).workers| == |w.workers| && y == Do(w, k, m).workers[k]
    ensures WorkerOk(w, y)
  {
    if m.ConfirmRead? {
      ReadIsOk(w, k, m.found);
    } else if m.Snapshot? {
      SnapshotIsOk(w, k, m.service, m.ids);
    } else if m.IngestEntry? {
      IngestEntryIsOk(w, k);
    } else if m.FillEntry? {
      FillEntryIsOk(w, k, m.pick);
    } else if m.Fetch? {
      FetchIsOk(w, k, m.elements);
    } else if HandlerMove(m) {
      HandlerIsOk(w, k, m);
    } else {
      MonitorIsOk(w, k, m);
    }
  }

  /** Only the worker that moves changes. */
  lemma OneWorkerMoves(w: World, k: nat, m: Move)
    requires Can(w, k, m)
    ensures |Do(w, k, m).workers| == |w.workers| && Do(w, k, m).reading == w.reading
    ensures Do(w, k, m).workers == w.workers[k := Do(w, k, m).workers[k]]
  {
  }

  /** A fill run starts only when no other is open. */
  lemma OneFillWorker(w: World, k: nat, m: Move)
    requires Can(w, k, m)
    ensures |Do(w, k, m).workers| == |w.workers|
    ensures Do(w, k, m).workers[k].Filling? ==>
      !m.Finish? && (w.workers[k].Filling? || forall j | 0 <= j < |w.workers| :: !w.workers[j].Filling?)
  {
  }

  lemma MoveKeepsWorkers(w: World, k: nat, m: Move, w': World)
    requires StoreOk(w.db) && WorkersOk(w) && Can(w, k, m) && w' == Do(w, k, m)
    ensures WorkersOk(w')
  {
    MoveGrows(w, k, m);
    OneWorkerMoves(w, k, m);
    MoverOk(w, k, m, w'.workers[k]);
    OneFillWorker(w, k, m);
    forall j | 0 <= j < |w'.workers| ensures WorkerOk(w', w'.workers[j]) {
      WorkerStaysOk(w, w', w'.workers[j]);
    }
  }

  lemma CommitKeepsUnique(w: World, read: map<nat, Held>)
    requires StoreOk(w.db)
    requires forall i | i in read :: read[i].id == i && HeldOk(w, read[i])
    ensures Unique(WriteRead(w.db.trxs, read))
  {
    forall i | 0 <= i < |w.db.trxs|
      ensures WriteRead(w.db.trxs, read)[i].hash == w.db.trxs[i].hash
      ensures WriteRead(w.db.trxs, read)[i].uuid == w.db.trxs[i].uuid
    {
      if i in read {
        assert Payload(read[i].row) == Payload(w.db.trxs[i]);
      }
    }
    SameKeysKeepUnique(w.db.trxs, WriteRead(w.db.trxs, read));
  }

  lemma SaveKeepsUnique(w: World, h: Held, status: Status)
    requires StoreOk(w.db) && HeldOk(w, h)
    ensures Unique(w.db.trxs[h.id := h.row.(status := status)])
  {
    assert Payload(h.row) == Payload(w.db.trxs[h.id]);
    SameKeysKeepUnique(w.db.trxs, w.db.trxs[h.id := h.row.(status := status)]);
  }

  lemma FinishKeepsStore(w: World, k: nat)
    requires StoreOk(w.db) && WorkersOk(w) && Can(w, k, Finish)
    ensures StoreOk(Do(w, k, Finish).db)
  {
    assert WorkerOk(w, w.workers[k]);
  }

  lemma CommitKeepsStore(w: World, k: nat)
    requires StoreOk(w.db) && WorkersOk(w) && Can(w, k, ConfirmCommit)
    ensures StoreOk(Do(w, k, ConfirmCommit).db)
  {
    assert WorkerOk(w, w.workers[k]);
    CommitKeepsUnique(w, w.workers[k].read);
  }

  lemma SaveKeepsStore(w: World, k: nat)
    requires StoreOk(w.db) && WorkersOk(w) && Can(w, k, Save)
    ensures StoreOk(Do(w, k, Save).db)
  {
    var x := w.workers[k];
    assert WorkerOk(w, x);
    SaveKeepsUnique(w, x.rows[0], Target(x.service));
  }

  lemma AddKeepsStore(w: World, k: nat, m: Move)
    requires StoreOk(w.db) && WorkersOk(w) && Can(w, k, m) && (m.StartCreate? || m.StopWrite? || m.Create?)
    ensures StoreOk(Do(w, k, m).db)
  {
    assert WorkerOk(w, w.workers[k]);
    if m.Create? {
      InsertKeepsUnique(w.db.trxs, m.row);
    }
  }

  /** Hashes and uuids stay unique and every stored row keeps its conditions, whatever was stale. */
  lemma MoveKeepsStore(w: World, k: nat, m: Move)
    requires StoreOk(w.db) && WorkersOk(w) && Can(w, k, m)
    ensures StoreOk(Do(w, k, m).db)
  {
    if m.Finish? {
      FinishKeepsStore(w, k);
    } else if m.ConfirmCommit? {
      CommitKeepsStore(w, k);
    } else if m.Save? {
      SaveKeepsStore(w, k);
    } else if Writes(m) {
      AddKeepsStore(w, k, m);
    } else {
      OtherMovesKeepStore(w, k, m);
    }
  }

  /** A worker may stay where it is, leave its body giving back the lock, or enter a body whose lock is free. */
  ghost predicate LockChange(locks: map<Key, nat>, k: nat, x: Worker, y: Worker, locks': map<Key, nat>) {
    || (locks' == locks && InBody(x) == InBody(y) && (InBody(x) ==> KeyOf(x) == KeyOf(y)))
    || (locks' == Unlocked(locks, x) && !InBody(y))
    || (!InBody(x) && InBody(y) && KeyOf(y) !in locks && locks' == locks[KeyOf(y) := k])
  }

  lemma LocksAfterPut(locks: map<Key, nat>, workers: seq<Worker>, k: nat, y: Worker, locks': map<Key, nat>)
    requires LocksMatch(locks, workers) && k < |workers|
    requires LockChange(locks, k, workers[k], y, locks')
    ensures LocksMatch(locks', workers[k := y])
  {
    var workers' := workers[k := y];
    forall j | 0 <= j < |workers'| && InBody(workers'[j])
      ensures KeyOf(workers'[j]) in locks' && locks'[KeyOf(workers'[j])] == j
    {
      if j != k {
        assert InBody(workers[j]);
      }
    }
  }

  lemma LeavingUnlocks(w: World, k: nat, m: Move)
    requires Can(w, k, m) && (m.Release? || m.Reject? || m.Abort?)
    ensures |Do(w, k, m).workers| == |w.workers|
    ensures Do(w, k, m).locks == Unlocked(w.locks, w.workers[k]) && !InBody(Do(w, k, m).workers[k])
  {
  }

  lemma HandlersTakeNoLocks(w: World, k: nat, m: Move)
    requires Can(w, k, m) && HandlerMove(m)
    ensures |Do(w, k, m).workers| == |w.workers| && Do(w, k, m).locks == w.locks
    ensures !InBody(w.workers[k]) && !InBody(Do(w, k, m).workers[k])
  {
  }

  /** Moves inside the body that a lock protects. */
  predicate BodyMove(m: Move) {
    m.Acknowledge? || m.Save? || m.Fetch? || m.IngestEntry? || m.FillEntry?
  }

  lemma BodyKeepsLock(w: World, k: nat, m: Move)
    requires Can(w, k, m) && BodyMove(m)
    ensures |Do(w, k, m).workers| == |w.workers| && Do(w, k, m).locks == w.locks
    ensures InBody(w.workers[k]) && InBody(Do(w, k, m).workers[k])
    ensures KeyOf(w.workers[k]) == KeyOf(Do(w, k, m).workers[k])
  {
  }

  lemma OutsideTakesNoLocks(w: World, k: nat, m: Move)
    requires Can(w, k, m) && (m.SeeLocked? || m.SeeFree? || m.Finish?)
    ensures |Do(w, k, m).workers| == |w.workers| && Do(w, k, m).locks == w.locks
    ensures !InBody(w.workers[k]) && !InBody(Do(w, k, m).workers[k])
  {
  }

  lemma MoveChangesLocks(w: World, k: nat, m: Move)
    requires Can(w, k, m)
    ensures |Do(w, k, m).workers| == |w.workers|
    ensures LockChange(w.locks, k, w.workers[k], Do(w, k, m).workers[k], Do(w, k, m).locks)
  {
    if m.Release? || m.Reject? || m.Abort? {
      LeavingUnlocks(w, k, m);
    } else if HandlerMove(m) {
      HandlersTakeNoLocks(w, k, m);
    } else if BodyMove(m) {
      BodyKeepsLock(w, k, m);
    } else if !m.Acquire? {
      OutsideTakesNoLocks(w, k, m);
    }
  }

  lemma MoveKeepsLocks(w: World, k: nat, m: Move)
    requires LocksOk(w) && Can(w, k, m)
    ensures LocksOk(Do(w, k, m))
  {
    OneWorkerMoves(w, k, m);
    MoveChangesLocks(w, k, m);
    LocksAfterPut(w.locks, w.workers, k, Do(w, k, m).workers[k], Do(w, k, m).locks);
  }

  /** Stored acknowledgements stay true while payloads do. */
  lemma AcksStayTrue(w: World, w': World, a: Ack)
    requires StillTrue(w, a) && Grows(w, w')
    ensures StillTrue(w', a)
  {
    assert Payload(w'.db.trxs[a.id]) == Payload(w.db.trxs[a.id]);
  }

  lemma SettledStays(w: World, w': World, service: Service, i: nat)
    requires i < |w.db.trxs| && Settled(w, service, i) && w.db.trxs[i].hash.Some?
    requires Grows(w, w') && w.settled <= w'.settled
    ensures Settled(w', service, i)
  {
    assert Payload(w'.db.trxs[i]) == Payload(w.db.trxs[i]);
  }

  /** A status that a move leaves in a row was there before, or was written by the save that settles it. */
  lemma StatusHasSource(w: World, k: nat, m: Move, i: nat, service: Service)
    requires StoreOk(w.db) && WorkersOk(w) && Can(w, k, m)
    requires i < |Do(w, k, m).db.trxs| && Do(w, k, m).db.trxs[i].status == Target(service)
    ensures
      || (i < |w.db.trxs| && w.db.trxs[i].status == Target(service))
      || (m.Save? && w.workers[k].rows[0].id == i && w.workers[k].service == service)
  {
    if Writes(m) {
      assert WorkerOk(w, w.workers[k]);
    } else {
      OtherMovesKeepStore(w, k, m);
    }
  }

  /** Acknowledgements newly on record come from a row in a sender's hand. */
  lemma RecordHasSource(w: World, k: nat, m: Move, a: Ack)
    requires Can(w, k, m) && (a in Do(w, k, m).settled || a in Do(w, k, m).lost)
    ensures a in w.settled || a in w.lost || a in InHand(w.workers[k])
  {
  }

  lemma InHandIsTrue(w: World, k: nat, a: Ack)
    requires WorkersOk(w) && k < |w.workers| && a in InHand(w.workers[k])
    ensures StillTrue(w, a)
  {
    assert WorkerOk(w, w.workers[k]);
    var h := w.workers[k].rows[0];
    assert Payload(h.row) == Payload(w.db.trxs[h.id]);
  }

  lemma MoveKeepsRecorded(w: World, k: nat, m: Move, w': World, a: Ack)
    requires Inv(w) && Can(w, k, m) && w' == Do(w, k, m)
    requires a in w'.settled || a in w'.lost
    ensures StillTrue(w', a)
  {
    RecordHasSource(w, k, m, a);
    if a in InHand(w.workers[k]) {
      InHandIsTrue(w, k, a);
    }
    MoveGrows(w, k, m);
    AcksStayTrue(w, w', a);
  }

  lemma SaveSettles(w: World, k: nat)
    requires WorkersOk(w) && Can(w, k, Save)
    ensures Settled(Do(w, k, Save), w.workers[k].service, w.workers[k].rows[0].id)
  {
    assert WorkerOk(w, w.workers[k]);
  }

  lemma SettledGrows(w: World, k: nat, m: Move)
    requires Can(w, k, m)
    ensures w.settled <= Do(w, k, m).settled
  {
  }

  lemma StatusIsSettled(w: World, i: nat, service: Service)
    requires StoreOk(w.db) && AcksTrue(w)
    requires i < |w.db.trxs| && w.db.trxs[i].status == Target(service)
    ensures Settled(w, service, i) && w.db.trxs[i].hash.Some?
  {
    assert RowOk(w.db.wallets, w.db.trxs[i]);
  }

  lemma MoveKeepsSettled(w: World, k: nat, m: Move, w': World, i: nat, service: Service)
    requires Inv(w) && Can(w, k, m) && w' == Do(w, k, m)
    requires i < |w'.db.trxs| && w'.db.trxs[i].status == Target(service)
    ensures Settled(w', service, i)
  {
    StatusHasSource(w, k, m, i, service);
    if i < |w.db.trxs| && w.db.trxs[i].status == Target(service) {
      MoveGrows(w, k, m);
      SettledGrows(w, k, m);
      StatusIsSettled(w, i, service);
      SettledStays(w, w', service, i);
    } else {
      SaveSettles(w, k);
    }
  }

  lemma MoveKeepsAcks(w: World, k: nat, m: Move)
    requires Inv(w) && Can(w, k, m)
    ensures AcksTrue(Do(w, k, m))
  {
    var w' := Do(w, k, m);
    forall a | a in w'.settled || a in w'.lost ensures StillTrue(w', a) {
      MoveKeepsRecorded(w, k, m, w', a);
    }
    forall i | 0 <= i < |w'.db.trxs| && w'.db.trxs[i].status == SENT ensures Settled(w', Transactions, i) {
      MoveKeepsSettled(w, k, m, w', i, Transactions);
    }
    forall i | 0 <= i < |w'.db.trxs| && w'.db.trxs[i].status == REPORTED ensures Settled(w', Exchanger, i) {
      MoveKeepsSettled(w, k, m, w', i, Exchanger);
    }
  }

  lemma SwapAddend(a: multiset<Ack>, b: multiset<Ack>, p: multiset<Ack>, q: multiset<Ack>, r: multiset<Ack>)
    requires a + p == b + q
    ensures (a + r) + p == (b + r) + q
  {
    calc {
      (a + r) + p;
      (a + p) + r;
      (b + q) + r;
      (b + r) + q;
    }
  }

  lemma {:induction false} SumAfterPut(hands: seq<multiset<Ack>>, k: nat, h: multiset<Ack>)
    requires k < |hands|
    ensures Sum(hands[k := h]) + hands[k] == Sum(hands) + h
  {
    var n := |hands| - 1;
    if k == n {
      assert hands[k := h][..n] == hands[..n];
      SwapAddend(h, hands[n], hands[n], h, Sum(hands[..n]));
    } else {
      assert hands[k := h][..n] == hands[..n][k := h];
      SumAfterPut(hands[..n], k, h);
      SwapAddend(Sum(hands[..n][k := h]), Sum(hands[..n]), hands[k], h, hands[n]);
    }
  }

  lemma InHandAfterPut(workers: seq<Worker>, k: nat, x: Worker)
    requires k < |workers|
    ensures InHandOfAll(workers[k := x]) + InHand(workers[k]) == InHandOfAll(workers) + InHand(x)
  {
    assert Hands(workers[k := x]) == Hands(workers)[k := InHand(x)];
    SumAfterPut(Hands(workers), k, InHand(x));
  }

  /** What a move does to the acknowledgement in the worker's hand. */
  ghost predicate HandChange(w: World, k: nat, m: Move, w': World)
    requires k < |w.workers| == |w'.workers|
  {
    var h, h' := InHand(w.workers[k]), InHand(w'.workers[k]);
    match m
    case Acknowledge => h == multiset{} && w'.acked == w.acked + h' && w'.settled == w.settled && w'.lost == w.lost
    case Save => h' == multiset{} && w'.acked == w.acked && w'.settled == w.settled + h && w'.lost == w.lost
    case Abort => h' == multiset{} && w'.acked == w.acked && w'.settled == w.settled && w'.lost == w.lost + h
    case _ => h' == h && w'.acked == w.acked && w'.settled == w.settled && w'.lost == w.lost
  }

  lemma SenderHand(w: World, k: nat, m: Move)
    requires Can(w, k, m) && (m.Acknowledge? || m.Save? || m.Abort?)
    ensures |Do(w, k, m).workers| == |w.workers| && HandChange(w, k, m, Do(w, k, m))
  {
  }

  lemma HandlerHands(w: World, k: nat, m: Move)
    requires Can(w, k, m) && HandlerMove(m)
    ensures |Do(w, k, m).workers| == |w.workers| && HandChange(w, k, m, Do(w, k, m))
  {
  }

  lemma FeedHands(w: World, k: nat, m: Move)
    requires Can(w, k, m) && (m.Fetch? || m.IngestEntry? || m.FillEntry?)
    ensures |Do(w, k, m).workers| == |w.workers| && HandChange(w, k, m, Do(w, k, m))
  {
  }

  lemma QueueHands(w: World, k: nat, m: Move)
    requires Can(w, k, m) && !BodyMove(m) && !HandlerMove(m) && !m.Abort?
    ensures |Do(w, k, m).workers| == |w.workers| && HandChange(w, k, m, Do(w, k, m))
  {
  }

  lemma Balance(acked: multiset<Ack>, settled: multiset<Ack>, lost: multiset<Ack>,
                all: multiset<Ack>, all': multiset<Ack>, h: multiset<Ack>, h': multiset<Ack>)
    requires acked == settled + lost + all && all' + h == all + h'
    ensures h == multiset{} ==> acked + h' == settled + lost + all'
    ensures h' == multiset{} ==> acked == (settled + h) + lost + all'
    ensures h' == multiset{} ==> acked == settled + (lost + h) + all'
    ensures h' == h ==> acked == settled + lost + all'
  {
    if h == multiset{} {
      assert all' == all + h';
    }
    if h' == multiset{} {
      assert all == all' + h;
    }
    if h' == h {
      assert all' == (all' + h) - h == (all + h) - h == all;
    }
  }

  /** No move drops or invents an acknowledgement. */
  lemma MoveConserves(w: World, k: nat, m: Move)
    requires Conserved(w) && Can(w, k, m)
    ensures Conserved(Do(w, k, m))
  {
    var w' := Do(w, k, m);
    OneWorkerMoves(w, k, m);
    if m.Acknowledge? || m.Save? || m.Abort? {
      SenderHand(w, k, m);
    } else if HandlerMove(m) {
      HandlerHands(w, k, m);
    } else if BodyMove(m) {
      FeedHands(w, k, m);
    } else {
      QueueHands(w, k, m);
    }
    InHandAfterPut(w.workers, k, w'.workers[k]);
    Balance(w.acked, w.settled, w.lost, InHandOfAll(w.workers), InHandOfAll(w'.workers),
            InHand(w.workers[k]), InHand(w'.workers[k]));
  }

  lemma MoveKeepsInv(w: World, k: nat, m: Move)
    requires Inv(w) && Can(w, k, m)
    ensures Inv(Do(w, k, m))
  {
    MoveKeepsStore(w, k, m);
    MoveKeepsWorkers(w, k, m, Do(w, k, m));
    MoveKeepsLocks(w, k, m);
    MoveKeepsAcks(w, k, m);
    MoveConserves(w, k, m);
    MoveGrows(w, k, m);
  }

  // ---------- Whole runs ----------

  lemma {:induction false} NobodyHolds(hands: seq<multiset<Ack>>)
    requires forall i | 0 <= i < |hands| :: hands[i] == multiset{}
    ensures Sum(hands) == multiset{}
  {
    if hands != [] {
      NobodyHolds(hands[..|hands| - 1]);
    }
  }

  lemma StartOk(n: nat, reading: Reading)
    ensures Inv(Start(n, reading))
  {
    NobodyHolds(Hands(Start(n, reading).workers));
  }

  lemma {:induction false} RunKeepsInv(w: World, turns: seq<Turn>)
    requires Inv(w) && Plays(w, turns)
    ensures Inv(After(w, turns))
    decreases |turns|
  {
    if turns != [] {
      MoveKeepsInv(w, turns[0].worker, turns[0].move);
      RunKeepsInv(Do(w, turns[0].worker, turns[0].move), turns[1..]);
    }
  }

  /** Every reachable world, for any number of workers and any interleaving, satisfies the invariant. */
  lemma ReachableOk(w: World)
    requires Reachable(w)
    ensures Inv(w)
  {
    var n: nat, turns :| Leads(n, w.reading, turns, w);
    StartOk(n, w.reading);
    RunKeepsInv(Start(n, w.reading), turns);
  }

  /** Payload stability: over any interleaved run a row that has a hash keeps hash, value, addresses,
      currency, uuid and wallet, and rows are never lost. */
  lemma {:induction false} RunGrows(w: World, turns: seq<Turn>)
    requires Inv(w) && Plays(w, turns)
    ensures Grows(w, After(w, turns))
    decreases |turns|
  {
    if turns != [] {
      var w' := Do(w, turns[0].worker, turns[0].move);
      MoveGrows(w, turns[0].worker, turns[0].move);
      MoveKeepsInv(w, turns[0].worker, turns[0].move);
      RunGrows(w', turns[1..]);
      var w'' := After(w, turns);
      forall i | 0 <= i < |w.db.trxs|
        ensures w.db.trxs[i].hash.Some? ==> Payload(w''.db.trxs[i]) == Payload(w.db.trxs[i])
        ensures w.versions[i] <= w''.versions[i]
        ensures w.versions[i] == w''.versions[i] ==> w''.db.trxs[i] == w.db.trxs[i]
      {
        assert w.db.trxs[i].hash.Some? ==> w'.db.trxs[i].hash == Payload(w.db.trxs[i]).hash by {
          assert w'.db.trxs[i].hash == Payload(w'.db.trxs[i]).hash;
        }
        assert w.versions[i] <= w'.versions[i] <= w''.versions[i];
      }
    }
  }

  /** In every interleaving a REPORTED row was acknowledged by the Exchanger and a SENT row by Transactions,
      with exactly the data stored in the row now; and a row is confirmed iff it has a confirmation time. */
  lemma ReportedMeansAcknowledged(w: World, i: nat)
    requires Reachable(w) && i < |w.db.trxs|
    ensures w.db.trxs[i].status == REPORTED ==>
      && Ack(Exchanger, i, UpdateInput(w.db.trxs[i].uuid, w.db.trxs[i].value, w.db.trxs[i].hash)) in w.acked
      && w.db.trxs[i].uuid.Some? && OnPlatform(w.db.wallets, w.db.trxs[i])
    ensures w.db.trxs[i].status == SENT ==> var t := w.db.trxs[i];
      Ack(Transactions, i, PutOnMonitoring(t.addressFrom, t.addressTo, t.currencySlug, t.walletId, t.value, t.hash))
        in w.acked
    ensures w.db.trxs[i].status in {CONFIRMED, REPORTED} <==> w.db.trxs[i].confirmedAt
    ensures w.db.trxs[i].status != NEW ==> w.db.trxs[i].hash.Some?
  {
    ReachableOk(w);
    assert RowOk(w.db.wallets, w.db.trxs[i]);
  }

  lemma {:induction false} InSomeHand(hands: seq<multiset<Ack>>, a: Ack)
    requires a in Sum(hands)
    ensures exists j :: 0 <= j < |hands| && a in hands[j]
  {
    if a in Sum(hands[..|hands| - 1]) {
      InSomeHand(hands[..|hands| - 1], a);
      var j :| 0 <= j < |hands| - 1 && a in hands[..|hands| - 1][j];
      assert a in hands[j];
    }
  }

  /** An acknowledgement received is settled, lost, or in the hand of some worker. */
  lemma AckedHasSource(w: World, a: Ack)
    requires Conserved(w) && a in w.acked && a !in w.settled && a !in w.lost
    ensures exists j :: 0 <= j < |w.workers| && a in InHand(w.workers[j])
  {
    InSomeHand(Hands(w.workers), a);
  }

  lemma AckedIsTrue(w: World, a: Ack)
    requires WorkersOk(w) && AcksTrue(w) && Conserved(w) && a in w.acked
    ensures StillTrue(w, a)
  {
    if a !in w.settled && a !in w.lost {
      AckedHasSource(w, a);
      var j :| 0 <= j < |w.workers| && a in InHand(w.workers[j]);
      InHandIsTrue(w, j, a);
    }
  }

  /** Every acknowledged message -- settled, lost, or still in the hand of a worker -- says what is stored. */
  lemma AcknowledgedStaysTrue(w: World, a: Ack)
    requires Reachable(w) && a in w.acked
    ensures a.id < |w.db.trxs| && w.db.trxs[a.id].hash.Some?
    ensures var t := w.db.trxs[a.id];
      a.message == match a.service
        case Transactions =>
          PutOnMonitoring(t.addressFrom, t.addressTo, t.currencySlug, t.walletId, t.value, t.hash)
        case Exchanger => UpdateInput(t.uuid, t.value, t.hash)
  {
    ReachableOk(w);
    AckedIsTrue(w, a);
  }

  // ---------- Lock discipline ----------

  /** Two workers are never inside bodies for the same row of the same table. */
  lemma BodiesExclude(w: World, i: nat, j: nat)
    requires Reachable(w) && i < |w.workers| && j < |w.workers|
    requires InBody(w.workers[i]) && InBody(w.workers[j])
    requires LockName(KeyOf(w.workers[i])) == LockName(KeyOf(w.workers[j]))
    ensures i == j
  {
    ReachableOk(w);
    LockNameInjective(KeyOf(w.workers[i]), KeyOf(w.workers[j]));
  }

  /** Inside its body a sender holds the lock named after its transaction, a run over wallets that after its wallet; so
      no two senders are ever at one row, and no two runs at one wallet. */
  lemma LocksByName(w: World, j: nat)
    requires Reachable(w) && j < |w.workers| && InBody(w.workers[j])
    ensures var x := w.workers[j];
      var key := if x.Sending? then Key(TransactionModel, x.rows[0].id) else Key(WalletModel, x.wids[0]);
      && key in w.locks && w.locks[key] == j
      && (if x.Sending? then "Transaction_id_" else "Wallet_id_") <= LockName(key)
      && (forall i | 0 <= i < |w.workers| && i != j && InBody(w.workers[i]) && w.workers[i].Sending? == x.Sending? ::
            if x.Sending? then w.workers[i].rows[0].id != x.rows[0].id else w.workers[i].wids[0] != x.wids[0])
  {
    ReachableOk(w);
    LockNameReadsBack(KeyOf(w.workers[j]));
  }

  /** A worker holds at most one lock, and holds none while it waits for one: no circular wait. */
  lemma OneLockEach(w: World, a: Key, b: Key)
    requires Reachable(w) && a in w.locks && b in w.locks && w.locks[a] == w.locks[b]
    ensures a == b && w.locks[a] < |w.workers|
    ensures !AtPhase(w.workers[w.locks[a]], Looking) && !AtPhase(w.workers[w.locks[a]], SawFree)
  {
    ReachableOk(w);
  }

  lemma UnlockedFrees(locks: map<Key, nat>, workers: seq<Worker>, k: nat)
    requires LocksMatch(locks, workers) && k < |workers|
    ensures forall key | key in Unlocked(locks, workers[k]) :: Unlocked(locks, workers[k])[key] != k
    ensures forall key | key in locks && locks[key] != k ::
      key in Unlocked(locks, workers[k]) && Unlocked(locks, workers[k])[key] == locks[key]
  {
  }

  /** However a worker leaves a body -- done, rejected, or by an error -- its lock is free again,
      and nobody else's is. */
  lemma EveryPathReleases(w: World, k: nat, m: Move)
    requires Reachable(w) && Can(w, k, m)
    requires m.Release? || m.Reject? || m.Abort? || m.Finish?
    ensures var w' := Do(w, k, m);
      && (forall key | key in w'.locks :: w'.locks[key] != k)
      && (forall key | key in w.locks && w.locks[key] != k :: key in w'.locks && w'.locks[key] == w.locks[key])
  {
    ReachableOk(w);
    if m.Finish? {
      OutsideTakesNoLocks(w, k, m);
      assert Do(w, k, m).locks == Unlocked(w.locks, w.workers[k]);
    } else {
      LeavingUnlocks(w, k, m);
    }
    UnlockedFrees(w.locks, w.workers, k);
  }

  /** `is_locked` asks by name, yet a worker is turned away only by another worker on the very same row. */
  lemma TurnedAwayBySameRow(w: World, k: nat)
    requires Reachable(w) && k < |w.workers| && AtPhase(w.workers[k], Looking)
    ensures NameTaken(w.locks, LockName(KeyOf(w.workers[k]))) <==>
      exists j :: 0 <= j < |w.workers| && InBody(w.workers[j]) && KeyOf(w.workers[j]) == KeyOf(w.workers[k])
  {
    ReachableOk(w);
    NameTakenMeansRowLocked(w.locks, KeyOf(w.workers[k]));
    if KeyOf(w.workers[k]) in w.locks {
      var j := w.locks[KeyOf(w.workers[k])];
      assert InBody(w.workers[j]) && KeyOf(w.workers[j]) == KeyOf(w.workers[k]);
    }
  }

  /** It passes its row by exactly when the name is taken, and goes on to lock it exactly when it is not. */
  lemma AsksByName(w: World, k: nat)
    requires |w.versions| == |w.db.trxs| && k < |w.workers| && AtPhase(w.workers[k], Looking)
    ensures Can(w, k, SeeLocked) <==> NameTaken(w.locks, LockName(KeyOf(w.workers[k])))
    ensures Can(w, k, SeeFree) <==> !NameTaken(w.locks, LockName(KeyOf(w.workers[k])))
  {
    NameTakenMeansRowLocked(w.locks, KeyOf(w.workers[k]));
  }

  // ---------- The fill monitor ----------

  /** An open fill run always holds the expected deposits exactly as they are stored: its commit is never stale. */
  lemma FillNeverStale(w: World, k: nat)
    requires Reachable(w) && k < |w.workers| && w.workers[k].Filling?
    ensures var x := w.workers[k];
      && x.bases.Keys == x.deposits.Keys
      && (forall i | i in x.bases :: i < |w.db.trxs| && x.bases[i].row == w.db.trxs[i] && Expected(w.db.trxs[i]))
      && WriteFills(w.db.trxs, x.bases, x.deposits) == FillAll(w.db.trxs, x.deposits)
  {
    ReachableOk(w);
    assert WorkerOk(w, w.workers[k]);
  }

  /** As written, the fill monitor never changes a row in any interleaving. */
  lemma FillAsWrittenWritesNothing(w: World, k: nat)
    requires Reachable(w) && w.reading.Rebound? && Can(w, k, Finish) && w.workers[k].Filling?
    ensures Do(w, k, Finish).db == w.db
  {
    ReachableOk(w);
    assert WorkerOk(w, w.workers[k]);
    assert WriteFills(w.db.trxs, map[], map[]) == w.db.trxs;
  }
}
