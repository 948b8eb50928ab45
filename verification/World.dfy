/** The monitors and handlers as workers over one store, interleaved at every suspension point.

    Workers hold snapshots that may be out of date by the time they are written back, and a write replaces
    the whole row. Each row carries a version that counts its writes; a snapshot remembers the version it read. */
module World {
  import opened Rows
  import opened Feeds
  import opened Keys
  import opened Lifecycle

  // ---------- State ----------

  /** A row as some worker read it. */
  datatype Held = Held(id: nat, row: Trx, version: nat)

  /** Where a monitor stands with the head of its queue: about to ask whether the lock is taken; told that
      it is free; holding it; holding it with the remote answer in hand; holding it with the row saved. */
  datatype Phase = Looking | SawFree | Holding | Answered | Saved

  /** What a run over wallets has gone through: the answer to its wallet query, how many wallets there were then, the
      visits made, the elements met, and those of the latest feed that have been handled. */
  datatype Tour = Tour(wids: seq<nat>, known: nat, visits: Visits, met: seq<Event>, handled: seq<Entry>)

  /** One query of a fill run: the row it found, if any, and how many rows there were. */
  datatype Look = Look(pick: Option<nat>, rows: nat)

  /** What became of a row that a sender is done with. */
  datatype Fate = WasLocked | WasRejected | WasSaved

  /** What a sender has gone through: the rows its query answered, and what became of those it is done with. */
  datatype Pass = Pass(taken: seq<Held>, behind: seq<Fate>)

  /** A handler has `asked` for the rows of a list of hashes: `hits` have found theirs, `misses` have not, and `hashes`
      are still ahead. */
  datatype Worker =
    | Idle
    | Starting(wallet: Wallet)
    | Stopping(wid: nat, base: Wallet)
    | Confirming(hashes: seq<string>, read: map<nat, Held>, hits: seq<string>, misses: seq<string>,
                 asked: seq<string>)
    | Sending(service: Service, rows: seq<Held>, phase: Phase, pass: Pass)
    | Ingesting(wids: seq<nat>, phase: Phase, feed: seq<Entry>, buffer: seq<Trx>, tour: Tour)
    | Filling(wids: seq<nat>, phase: Phase, feed: seq<Entry>, bases: map<nat, Held>, deposits: map<nat, Deposit>,
              looks: seq<Look>, tour: Tour)

  /** `acked`: every acknowledgement received. `settled`: those whose row was saved. `lost`: those whose
      worker was stopped by an error before the save. */
  datatype World = World(
    db: Store, versions: seq<nat>, locks: map<Key, nat>, workers: seq<Worker>,
    acked: multiset<Ack>, settled: multiset<Ack>, lost: multiset<Ack>, reading: Reading)

  function Start(workers: nat, reading: Reading): World {
    World(Store([], []), [], map[], seq(workers, _ => Idle), multiset{}, multiset{}, multiset{}, reading)
  }

  datatype Move =
    | StartCheck(wallet: Wallet) | StartCreate
    | StopRead(wid: nat) | StopWrite
    | Create(row: Trx)
    | ConfirmBegin(hashes: seq<string>) | ConfirmRead(found: Option<nat>) | ConfirmCommit
    | Snapshot(service: Service, ids: seq<nat>) | IngestBegin(wids: seq<nat>) | FillBegin(wids: seq<nat>)
    | SeeLocked | SeeFree | Acquire
    | Acknowledge | Reject | Save
    | Fetch(elements: seq<Entry>) | IngestEntry | FillEntry(pick: Option<nat>)
    | Release | Finish
    | Abort

  // ---------- Monitors ----------

  predicate Monitor(x: Worker) {
    x.Sending? || x.Ingesting? || x.Filling?
  }

  function QueueLength(x: Worker): nat
    requires Monitor(x)
  {
    if x.Sending? then |x.rows| else |x.wids|
  }

  /** The lock of the head of the queue. */
  function KeyOf(x: Worker): Key
    requires Monitor(x) && QueueLength(x) > 0
  {
    if x.Sending? then Key(TransactionModel, x.rows[0].id) else Key(WalletModel, x.wids[0])
  }

  predicate AtPhase(x: Worker, phase: Phase) {
    Monitor(x) && QueueLength(x) > 0 && x.phase == phase
  }

  predicate InBody(x: Worker) {
    AtPhase(x, Holding) || AtPhase(x, Answered) || AtPhase(x, Saved)
  }

  /** The monitor turns to the next of its queue. */
  function Popped(x: Worker, fate: Fate): Worker
    requires Monitor(x) && QueueLength(x) > 0
  {
    match x
    case Sending(service, rows, _, pass) =>
      Sending(service, rows[1..], Looking, pass.(behind := pass.behind + [fate]))
    case Ingesting(wids, _, _, buffer, tour) => Ingesting(wids[1..], Looking, [], buffer, tour)
    case Filling(wids, _, _, bases, deposits, looks, tour) =>
      Filling(wids[1..], Looking, [], bases, deposits, looks, tour)
  }

  function InPhase(x: Worker, phase: Phase): Worker
    requires Monitor(x)
  {
    x.(phase := phase)
  }

  /** The acknowledgement a sender has received but not yet acted on. */
  function InHand(x: Worker): multiset<Ack> {
    if x.Sending? && AtPhase(x, Answered) then multiset{AckOf(x.service, x.rows[0].id, x.rows[0].row)}
    else multiset{}
  }

  // ---------- Queries ----------

  /** The row as a confirming handler sees it inside its own database transaction. */
  function ConfirmView(w: World, x: Worker, i: nat): Trx
    requires x.Confirming? && i < |w.db.trxs|
  {
    if i in x.read then Confirmed(x.read[i].row) else w.db.trxs[i]
  }

  predicate ReadMatches(w: World, x: Worker, i: nat, hash: string)
    requires x.Confirming? && i < |w.db.trxs|
  {
    ConfirmView(w, x, i).hash == Some(hash) && ConfirmView(w, x, i).status != REPORTED
  }

  /** The rows an open fill run sees: its own assignments included. */
  function FillView(w: World, x: Worker): seq<Trx>
    requires x.Filling?
  {
    FillAll(w.db.trxs, x.deposits)
  }

  // ---------- Moves ----------

  function SaveRow(w: World, h: Held, row: Trx): World
    requires h.id < |w.db.trxs| == |w.versions|
  {
    w.(db := w.db.(trxs := w.db.trxs[h.id := row]),
       versions := w.versions[h.id := w.versions[h.id] + 1])
  }

  /** The rows as they are now. */
  function HeldRows(w: World, ids: seq<nat>): seq<Held>
    requires |w.versions| == |w.db.trxs| && forall n | 0 <= n < |ids| :: ids[n] < |w.db.trxs|
  {
    seq(|ids|, n requires 0 <= n < |ids| => Held(ids[n], w.db.trxs[ids[n]], w.versions[ids[n]]))
  }

  function Bump(versions: seq<nat>, ids: set<nat>): seq<nat> {
    seq(|versions|, i requires 0 <= i < |versions| => if i in ids then versions[i] + 1 else versions[i])
  }

  function WriteRead(trxs: seq<Trx>, read: map<nat, Held>): seq<Trx> {
    seq(|trxs|, i requires 0 <= i < |trxs| => if i in read then Confirmed(read[i].row) else trxs[i])
  }

  function WriteFills(trxs: seq<Trx>, bases: map<nat, Held>, deposits: map<nat, Deposit>): seq<Trx> {
    seq(|trxs|, i requires 0 <= i < |trxs| =>
      if i in bases && i in deposits then Filled(bases[i].row, deposits[i].hash, deposits[i].value) else trxs[i])
  }

  ghost predicate Can(w: World, k: nat, m: Move) {
    k < |w.workers| && |w.versions| == |w.db.trxs| &&
    var x := w.workers[k];
    match m
    case StartCheck(wallet) =>
      && x.Idle? && wallet.onMonitoring && wallet.isActive
      && (forall i | 0 <= i < |w.db.wallets| :: w.db.wallets[i].externalId != wallet.externalId)
    case StartCreate => x.Starting?
    case StopRead(wid) => x.Idle? && wid < |w.db.wallets|
    case StopWrite => x.Stopping? && x.wid < |w.db.wallets|
    case Create(row) => x.Idle? && Requested(w.db.wallets, row) && Insertable(w.db.trxs, row)
    case ConfirmBegin(_) => x.Idle?
    case ConfirmRead(found) =>
      && x.Confirming? && x.hashes != []
      && (match found
          case Some(i) => i < |w.db.trxs| && ReadMatches(w, x, i, x.hashes[0])
          case None => forall i | 0 <= i < |w.db.trxs| :: !ReadMatches(w, x, i, x.hashes[0]))
    case ConfirmCommit => x.Confirming? && x.hashes == []
    case Snapshot(service, ids) => x.Idle? && Answers(ids, w.db.trxs, DueFor(w.db.wallets, service))
    case IngestBegin(wids) => x.Idle? && Answers(wids, w.db.wallets, Watched(false))
    case FillBegin(wids) =>
      && x.Idle? && Answers(wids, w.db.wallets, Watched(true))
      && (forall j | 0 <= j < |w.workers| :: !w.workers[j].Filling?)
    case SeeLocked => AtPhase(x, Looking) && KeyOf(x) in w.locks
    case SeeFree => AtPhase(x, Looking) && KeyOf(x) !in w.locks
    case Acquire => AtPhase(x, SawFree) && KeyOf(x) !in w.locks
    case Acknowledge => x.Sending? && AtPhase(x, Holding)
    case Reject => x.Sending? && AtPhase(x, Holding)
    case Save => x.Sending? && AtPhase(x, Answered) && x.rows[0].id < |w.db.trxs|
    case Fetch(_) => !x.Sending? && AtPhase(x, Holding)
    case IngestEntry =>
      && x.Ingesting? && AtPhase(x, Answered) && x.feed != [] && x.wids[0] < |w.db.wallets|
      && (HasHash(w.db.trxs + x.buffer, x.feed[0].hash) || x.feed[0].addressTo.Some?)
    case FillEntry(pick) =>
      && x.Filling? && AtPhase(x, Answered) && x.feed != [] && x.wids[0] < |w.db.wallets|
      && (HasHash(FillView(w, x), x.feed[0].hash) || x.feed[0].addressTo.Some?)
      && (match pick
          case Some(i) =>
            && w.reading.EntryKept?
            && !HasHash(FillView(w, x), x.feed[0].hash) && Addressed(w.db.wallets[x.wids[0]], x.feed[0])
            && i < |w.db.trxs| && i !in x.bases && Awaits(FillView(w, x)[i], x.wids[0], x.feed[0])
          case None =>
            || HasHash(FillView(w, x), x.feed[0].hash)
            || !Addressed(w.db.wallets[x.wids[0]], x.feed[0])
            || forall i | 0 <= i < |w.db.trxs| :: !Awaits(FillView(w, x)[i], x.wids[0], x.feed[0]))
    case Release =>
      if x.Sending? then AtPhase(x, Saved) else AtPhase(x, Answered) && x.feed == []
    case Finish =>
      && Monitor(x) && QueueLength(x) == 0
      && (x.Ingesting? ==> Unique(w.db.trxs + x.buffer))
      && (x.Filling? ==> Unique(WriteFills(w.db.trxs, x.bases, x.deposits)))
    case Abort => !x.Idle?
  }

  function Put(w: World, k: nat, x: Worker): World
    requires k < |w.workers|
  {
    w.(workers := w.workers[k := x])
  }

  function Begun(w: World, wids: seq<nat>): Tour {
    Tour(wids, |w.db.wallets|, map[], [], [])
  }

  /** One more element of the feed is handled. */
  function Seen(tour: Tour, wid: nat, e: Entry): Tour {
    tour.(met := tour.met + [Arrival(wid, e)], handled := tour.handled + [e])
  }

  function Fetched(tour: Tour, wid: nat, elements: seq<Entry>): Tour {
    tour.(visits := tour.visits[wid := Feed(elements)], handled := [])
  }

  /** The lock, if any, that a worker gives back when it leaves the body of its `async with`. */
  function Unlocked(locks: map<Key, nat>, x: Worker): map<Key, nat> {
    if InBody(x) then locks - {KeyOf(x)} else locks
  }

  ghost function Do(w: World, k: nat, m: Move): World
    requires Can(w, k, m)
  {
    var x := w.workers[k];
    match m
    case StartCheck(wallet) => Put(w, k, Starting(wallet))
    case StartCreate => Put(w.(db := w.db.(wallets := w.db.wallets + [x.wallet])), k, Idle)
    case StopRead(wid) => Put(w, k, Stopping(wid, w.db.wallets[wid]))
    case StopWrite =>
      Put(w.(db := w.db.(wallets := w.db.wallets[x.wid := x.base.(onMonitoring := false)])), k, Idle)
    case Create(row) => w.(db := w.db.(trxs := w.db.trxs + [row]), versions := w.versions + [0])
    case ConfirmBegin(hashes) => Put(w, k, Confirming(hashes, map[], [], [], hashes))
    case ConfirmRead(found) =>
      match found {
        case Some(i) =>
          var read := if i in x.read then x.read else x.read[i := Held(i, w.db.trxs[i], w.versions[i])];
          Put(w, k, x.(hashes := x.hashes[1..], read := read, hits := x.hits + [x.hashes[0]]))
        case None => Put(w, k, x.(hashes := x.hashes[1..], misses := x.misses + [x.hashes[0]]))
      }
    case ConfirmCommit =>
      Put(w.(db := w.db.(trxs := WriteRead(w.db.trxs, x.read)), versions := Bump(w.versions, x.read.Keys)), k, Idle)
    case Snapshot(service, ids) =>
      var rows := HeldRows(w, ids);
      Put(w, k, Sending(service, rows, Looking, Pass(rows, [])))
    case IngestBegin(wids) => Put(w, k, Ingesting(wids, Looking, [], [], Begun(w, wids)))
    case FillBegin(wids) => Put(w, k, Filling(wids, Looking, [], map[], map[], [], Begun(w, wids)))
    case SeeLocked => Put(w, k, Popped(x, WasLocked))
    case SeeFree => Put(w, k, InPhase(x, SawFree))
    case Acquire => Put(w.(locks := w.locks[KeyOf(x) := k]), k, InPhase(x, Holding))
    case Acknowledge =>
      Put(w.(acked := w.acked + multiset{AckOf(x.service, x.rows[0].id, x.rows[0].row)}), k, InPhase(x, Answered))
    case Reject => Put(w.(locks := Unlocked(w.locks, x)), k, Popped(x, WasRejected))
    case Save =>
      Put(SaveRow(w, x.rows[0], x.rows[0].row.(status := Target(x.service)))
            .(settled := w.settled + multiset{AckOf(x.service, x.rows[0].id, x.rows[0].row)}),
          k, InPhase(x, Saved))
    case Fetch(elements) =>
      Put(w, k, InPhase(x, Answered).(feed := LoadAll(elements),
                                      tour := Fetched(x.tour, x.wids[0], elements)))
    case IngestEntry =>
      var e := x.feed[0];
      var buffer :=
        if !HasHash(w.db.trxs + x.buffer, e.hash) && Addressed(w.db.wallets[x.wids[0]], e)
        then x.buffer + [IngestedRow(x.wids[0], e)] else x.buffer;
      Put(w, k, x.(feed := x.feed[1..], buffer := buffer, tour := Seen(x.tour, x.wids[0], e)))
    case FillEntry(pick) =>
      var y := x.(feed := x.feed[1..], looks := x.looks + [Look(pick, |w.db.trxs|)],
                  tour := Seen(x.tour, x.wids[0], x.feed[0]));
      match pick {
        case Some(i) =>
          Put(w, k, y.(bases := x.bases[i := Held(i, w.db.trxs[i], w.versions[i])],
                       deposits := x.deposits[i := Deposit(x.feed[0].hash, x.feed[0].value)]))
        case None => Put(w, k, y)
      }
    case Release => Put(w.(locks := Unlocked(w.locks, x)), k, Popped(x, WasSaved))
    case Finish =>
      match x {
        case Ingesting(_, _, _, buffer, _) =>
          Put(w.(db := w.db.(trxs := w.db.trxs + buffer), versions := w.versions + seq(|buffer|, _ => 0)), k, Idle)
        case Filling(_, _, _, bases, deposits, _, _) =>
          Put(w.(db := w.db.(trxs := WriteFills(w.db.trxs, bases, deposits)),
                 versions := Bump(w.versions, deposits.Keys)), k, Idle)
        case _ => Put(w, k, Idle)
      }
    case Abort => Put(w.(locks := Unlocked(w.locks, x), lost := w.lost + InHand(x)), k, Idle)
  }

  // ---------- Runs ----------

  datatype Turn = Turn(worker: nat, move: Move)

  ghost predicate Plays(w: World, turns: seq<Turn>)
    decreases |turns|
  {
    turns == [] || (Can(w, turns[0].worker, turns[0].move) && Plays(Do(w, turns[0].worker, turns[0].move), turns[1..]))
  }

  ghost function After(w: World, turns: seq<Turn>): World
    requires Plays(w, turns)
    decreases |turns|
  {
    if turns == [] then w else After(Do(w, turns[0].worker, turns[0].move), turns[1..])
  }

  lemma {:induction false} PlaysThen(w: World, turns: seq<Turn>, k: nat, m: Move)
    requires Plays(w, turns) && Can(After(w, turns), k, m)
    ensures Plays(w, turns + [Turn(k, m)])
    ensures After(w, turns + [Turn(k, m)]) == Do(After(w, turns), k, m)
    decreases |turns|
  {
    var all := turns + [Turn(k, m)];
    if turns == [] {
      assert all[1..] == [];
    } else {
      assert all[0] == turns[0] && all[1..] == turns[1..] + [Turn(k, m)];
      PlaysThen(Do(w, turns[0].worker, turns[0].move), turns[1..], k, m);
    }
  }

  /** Some run of some number of workers leads to the world. */
  ghost predicate Reachable(w: World) {
    exists n: nat, turns :: Leads(n, w.reading, turns, w)
  }

  ghost predicate Leads(n: nat, reading: Reading, turns: seq<Turn>, w: World) {
    Plays(Start(n, reading), turns) && After(Start(n, reading), turns) == w
  }
}
