/** The service as a machine of indivisible steps, and the life of a transaction row over whole runs. */
module Lifecycle {
  import opened Rows

  // ---------- The two external services ----------

  datatype Service = Transactions | Exchanger

  /** What a sender puts on the wire for one row. */
  datatype Message =
    | PutOnMonitoring(addressFrom: string, addressTo: string, currencySlug: string,
                      walletId: Option<nat>, amount: real, trxHash: Option<string>)
    | UpdateInput(uuid: Option<nat>, amount: real, trxHash: Option<string>)

  /** The service acknowledged the message sent for row `id`. */
  datatype Ack = Ack(service: Service, id: nat, message: Message)

  function MessageOf(service: Service, t: Trx): Message {
    match service
    case Transactions => PutOnMonitoring(t.addressFrom, t.addressTo, t.currencySlug, t.walletId, t.value, t.hash)
    case Exchanger => UpdateInput(t.uuid, t.value, t.hash)
  }

  function AckOf(service: Service, id: nat, t: Trx): Ack {
    Ack(service, id, MessageOf(service, t))
  }

  /** The status a sender gives to an acknowledged row. */
  function Target(service: Service): Status {
    match service case Transactions => SENT case Exchanger => REPORTED
  }

  /** The query that selects the rows of one sender. */
  predicate Due(wallets: seq<Wallet>, service: Service, t: Trx) {
    match service
    case Transactions => t.hash.Some? && t.status == NEW
    case Exchanger => t.hash.Some? && t.uuid.Some? && OnPlatform(wallets, t) && t.status == CONFIRMED
  }

  function DueFor(wallets: seq<Wallet>, service: Service): Trx -> bool {
    (t: Trx) => Due(wallets, service, t)
  }

  // ---------- Steps ----------

  /** The hash and value a chain transaction brings to an expected deposit. */
  datatype Deposit = Deposit(hash: string, value: real)

  datatype State = State(db: Store, acks: multiset<Ack>)

  datatype Step =
    | AddWallet(wallet: Wallet)
    | StopWallet(wid: nat)
    | InsertRow(row: Trx)
    | IngestRows(rows: seq<Trx>)
    | FillRows(deposits: map<nat, Deposit>)
    | ConfirmRows(ids: set<nat>)
    | SendRow(service: Service, id: nat)

  /** A row that one of the two creating requests writes. */
  predicate Requested(wallets: seq<Wallet>, t: Trx) {
    && Linked(wallets, t)
    && t.status == NEW && !t.confirmedAt && !t.isFeeTrx
    && t.addressTo == wallets[t.walletId.value].address
    && t.currencySlug == wallets[t.walletId.value].currencySlug
    && (t.hash.Some? ==> t.uuid.Some?)
  }

  /** A row that ingestion writes for a feed element addressed to the wallet. */
  predicate Ingested(wallets: seq<Wallet>, t: Trx) {
    && Linked(wallets, t)
    && t.status == NEW && !t.confirmedAt && !t.isFeeTrx
    && t.hash.Some? && Lowered(t.hash.value) && t.uuid.None?
    && Lower(t.addressTo) == Lower(wallets[t.walletId.value].address)
  }

  predicate Confirmable(t: Trx) {
    t.hash.Some? && t.status != REPORTED
  }

  /** An expected deposit that has not been seen on the chain yet. */
  predicate Expected(t: Trx) {
    t.status == NEW && t.hash.None?
  }

  /** An expected deposit of the wallet that the feed element can settle. */
  predicate Awaits(t: Trx, wid: nat, e: Entry) {
    && Expected(t)
    && t.walletId == Some(wid)
    && t.addressFrom == Lower(e.addressFrom)
    && t.currencySlug == Lower(e.currencySlug)
  }

  /** What `trx['hash']` means once `UpdateTrx.update` has bound the name to the stored row: an error, as
      written, or the feed element, as the tests of the monitor expect. */
  datatype Reading = Rebound | EntryKept

  function FillAll(trxs: seq<Trx>, deposits: map<nat, Deposit>): seq<Trx> {
    seq(|trxs|, i requires 0 <= i < |trxs| =>
      if i in deposits then Filled(trxs[i], deposits[i].hash, deposits[i].value) else trxs[i])
  }

  function ConfirmAll(trxs: seq<Trx>, ids: set<nat>): seq<Trx> {
    seq(|trxs|, i requires 0 <= i < |trxs| => if i in ids then Confirmed(trxs[i]) else trxs[i])
  }

  ghost predicate Enabled(s: State, step: Step) {
    match step
    case AddWallet(w) => w.onMonitoring && w.isActive
    case StopWallet(wid) => wid < |s.db.wallets|
    case InsertRow(t) => Requested(s.db.wallets, t) && Insertable(s.db.trxs, t)
    case IngestRows(rows) =>
      && (forall i | 0 <= i < |rows| :: Ingested(s.db.wallets, rows[i]))
      && Unique(s.db.trxs + rows)
    case FillRows(deposits) =>
      && (forall i | i in deposits :: i < |s.db.trxs| && Expected(s.db.trxs[i]) && Lowered(deposits[i].hash))
      && Unique(FillAll(s.db.trxs, deposits))
    case ConfirmRows(ids) => forall i | i in ids :: i < |s.db.trxs| && Confirmable(s.db.trxs[i])
    case SendRow(service, id) => id < |s.db.trxs| && Due(s.db.wallets, service, s.db.trxs[id])
  }

  function StopAt(wallets: seq<Wallet>, wid: nat): seq<Wallet>
    requires wid < |wallets|
  {
    wallets[wid := wallets[wid].(onMonitoring := false)]
  }

  ghost function Apply(s: State, step: Step): State
    requires Enabled(s, step)
  {
    match step
    case AddWallet(w) => s.(db := s.db.(wallets := s.db.wallets + [w]))
    case StopWallet(wid) => s.(db := s.db.(wallets := StopAt(s.db.wallets, wid)))
    case InsertRow(t) => s.(db := s.db.(trxs := s.db.trxs + [t]))
    case IngestRows(rows) => s.(db := s.db.(trxs := s.db.trxs + rows))
    case FillRows(deposits) => s.(db := s.db.(trxs := FillAll(s.db.trxs, deposits)))
    case ConfirmRows(ids) => s.(db := s.db.(trxs := ConfirmAll(s.db.trxs, ids)))
    case SendRow(service, id) =>
      State(s.db.(trxs := s.db.trxs[id := s.db.trxs[id].(status := Target(service))]),
            s.acks + multiset{AckOf(service, id, s.db.trxs[id])})
  }

  ghost predicate Runs(s: State, steps: seq<Step>)
    decreases |steps|
  {
    steps == [] || (Enabled(s, steps[0]) && Runs(Apply(s, steps[0]), steps[1..]))
  }

  ghost function Final(s: State, steps: seq<Step>): State
    requires Runs(s, steps)
    decreases |steps|
  {
    if steps == [] then s else Final(Apply(s, steps[0]), steps[1..])
  }

  const Empty := State(Store([], []), multiset{})

  // ---------- The invariant ----------

  function Rank(status: Status): nat {
    match status
    case SENT => 1
    case CONFIRMED => 2
    case REPORTED => 3
    case _ => 0
  }

  /** An acknowledgement on record is for the row as it is now, and the row has moved on since. */
  ghost predicate AckOk(s: State, a: Ack) {
    && a.id < |s.db.trxs|
    && a.message == MessageOf(a.service, s.db.trxs[a.id])
    && s.db.trxs[a.id].hash.Some?
    && Rank(s.db.trxs[a.id].status) >= Rank(Target(a.service))
  }

  ghost predicate Acknowledged(s: State, service: Service, i: nat)
    requires i < |s.db.trxs|
  {
    AckOf(service, i, s.db.trxs[i]) in s.acks
  }

  /** The part of the invariant that speaks of acknowledgements. */
  ghost predicate AcksOk(s: State) {
    && (forall a | a in s.acks :: AckOk(s, a) && s.acks[a] == 1)
    && (forall i | 0 <= i < |s.db.trxs| :: s.db.trxs[i].status == SENT ==> Acknowledged(s, Transactions, i))
    && (forall i | 0 <= i < |s.db.trxs| :: s.db.trxs[i].status == REPORTED ==> Acknowledged(s, Exchanger, i))
  }

  ghost predicate Inv(s: State) {
    StoreOk(s.db) && AcksOk(s)
  }

  /** What a step may do to the rows that were there before it. */
  ghost predicate Advances(before: seq<Trx>, after: seq<Trx>) {
    && |before| <= |after|
    && forall i | 0 <= i < |before| ::
         && Rank(before[i].status) <= Rank(after[i].status)
         && (before[i].status == REPORTED ==> after[i] == before[i])
         && (before[i].hash.Some? ==> Payload(after[i]) == Payload(before[i]))
         && after[i].uuid == before[i].uuid && after[i].walletId == before[i].walletId
         && after[i].addressFrom == before[i].addressFrom && after[i].addressTo == before[i].addressTo
         && after[i].currencySlug == before[i].currencySlug
  }

  lemma SameKeysKeepUnique(before: seq<Trx>, after: seq<Trx>)
    requires Unique(before) && |before| == |after|
    requires forall i | 0 <= i < |before| :: after[i].hash == before[i].hash && after[i].uuid == before[i].uuid
    ensures Unique(after)
  {
    forall i, j | 0 <= i < j < |after| ensures !SameKey(after[i], after[j]) {
      assert !SameKey(before[i], before[j]);
    }
  }

  lemma StepKeepsStore(s: State, step: Step)
    requires StoreOk(s.db) && Enabled(s, step)
    ensures StoreOk(Apply(s, step).db)
  {
    match step
    case AddWallet(w) =>
    case StopWallet(wid) =>
    case InsertRow(t) => InsertKeepsUnique(s.db.trxs, t);
    case IngestRows(rows) =>
    case FillRows(deposits) =>
    case ConfirmRows(ids) => SameKeysKeepUnique(s.db.trxs, Apply(s, step).db.trxs);
    case SendRow(service, id) => SameKeysKeepUnique(s.db.trxs, Apply(s, step).db.trxs);
  }

  lemma StepAdvances(s: State, step: Step)
    requires StoreOk(s.db) && Enabled(s, step)
    ensures Advances(s.db.trxs, Apply(s, step).db.trxs)
  {
  }

  /** Steps that send nothing only confirm rows or add NEW ones. */
  ghost predicate Quiet(before: seq<Trx>, after: seq<Trx>) {
    && |before| <= |after|
    && (forall i | 0 <= i < |before| ::
          after[i].status == before[i].status || after[i].status == CONFIRMED)
    && (forall i | |before| <= i < |after| :: after[i].status == NEW)
  }

  lemma QuietKeepsAcks(s: State, s': State)
    requires AcksOk(s) && s'.acks == s.acks
    requires forall i | 0 <= i < |s.db.trxs| :: s.db.trxs[i].status == SENT ==> s.db.trxs[i].hash.Some?
    requires Quiet(s.db.trxs, s'.db.trxs) && Advances(s.db.trxs, s'.db.trxs)
    ensures AcksOk(s')
  {
    forall a | a in s'.acks ensures AckOk(s', a) {
      assert AckOk(s, a);
      assert Payload(s'.db.trxs[a.id]) == Payload(s.db.trxs[a.id]);
    }
    forall i | 0 <= i < |s'.db.trxs| && s'.db.trxs[i].status == SENT ensures Acknowledged(s', Transactions, i) {
      assert Acknowledged(s, Transactions, i);
      assert Payload(s'.db.trxs[i]) == Payload(s.db.trxs[i]);
    }
  }

  lemma SendKeepsAcks(s: State, service: Service, id: nat)
    requires Inv(s) && Enabled(s, SendRow(service, id))
    ensures AcksOk(Apply(s, SendRow(service, id)))
  {
    var s' := Apply(s, SendRow(service, id));
    var sent := AckOf(service, id, s.db.trxs[id]);
    assert sent !in s.acks by {
      assert !AckOk(s, sent);
    }
    forall a | a in s'.acks ensures AckOk(s', a) && s'.acks[a] == 1 {
      if a != sent {
        assert a in s.acks && AckOk(s, a);
      }
    }
    forall i | 0 <= i < |s'.db.trxs|
      ensures s'.db.trxs[i].status == SENT ==> Acknowledged(s', Transactions, i)
      ensures s'.db.trxs[i].status == REPORTED ==> Acknowledged(s', Exchanger, i)
    {
      if i != id {
        assert s'.db.trxs[i] == s.db.trxs[i];
      }
    }
  }

  /** Every step keeps: the two unique columns, the row conditions, one acknowledgement at most per row
      and service, and an acknowledgement of exactly what is stored for each SENT and REPORTED row. */
  lemma StepKeepsInv(s: State, step: Step)
    requires Inv(s) && Enabled(s, step)
    ensures Inv(Apply(s, step))
  {
    StepKeepsStore(s, step);
    if step.SendRow? {
      SendKeepsAcks(s, step.service, step.id);
    } else {
      StepAdvances(s, step);
      QuietKeepsAcks(s, Apply(s, step));
    }
  }

  // ---------- Whole runs ----------

  lemma {:induction false} RunKeepsInv(s: State, steps: seq<Step>)
    requires Inv(s) && Runs(s, steps)
    ensures Inv(Final(s, steps))
    decreases |steps|
  {
    if steps != [] {
      StepKeepsInv(s, steps[0]);
      RunKeepsInv(Apply(s, steps[0]), steps[1..]);
    }
  }

  /** Over any run the rank NEW < SENT < CONFIRMED < REPORTED of a row never drops, a REPORTED row never
      changes again, and a row that has a hash keeps its payload. */
  lemma {:induction false} RunAdvances(s: State, steps: seq<Step>)
    requires Inv(s) && Runs(s, steps)
    ensures Advances(s.db.trxs, Final(s, steps).db.trxs)
    decreases |steps|
  {
    if steps != [] {
      StepAdvances(s, steps[0]);
      StepKeepsInv(s, steps[0]);
      RunAdvances(Apply(s, steps[0]), steps[1..]);
    }
  }

  /** From the empty store no run reaches one of the five statuses beside NEW, SENT, CONFIRMED and REPORTED;
      every row is linked to a wallet; and a row carries a confirmation time exactly when it is CONFIRMED or
      REPORTED. */
  lemma ReachableRows(steps: seq<Step>)
    requires Runs(Empty, steps)
    ensures StoreOk(Final(Empty, steps).db)
    ensures var db := Final(Empty, steps).db;
      && (forall i | 0 <= i < |db.trxs| :: var t := db.trxs[i];
            && (t.status == NEW || t.status == SENT || t.status == CONFIRMED || t.status == REPORTED)
            && (t.confirmedAt <==> t.status == CONFIRMED || t.status == REPORTED)
            && (t.status != NEW ==> t.hash.Some?)
            && t.walletId.Some? && t.walletId.value < |db.wallets|
            && (t.status == REPORTED ==> t.uuid.Some? && db.wallets[t.walletId.value].isPlatform)
            && (t.hash.Some? && Lower(t.hash.value) != t.hash.value ==> t.uuid.Some?))
      && (forall i, j | 0 <= i < j < |db.trxs| ::
            && (db.trxs[i].hash.Some? ==> db.trxs[i].hash != db.trxs[j].hash)
            && (db.trxs[i].uuid.Some? ==> db.trxs[i].uuid != db.trxs[j].uuid))
  {
    RunKeepsInv(Empty, steps);
    var db := Final(Empty, steps).db;
    forall i | 0 <= i < |db.trxs| ensures RowOk(db.wallets, db.trxs[i]) {
    }
    forall i, j | 0 <= i < j < |db.trxs| ensures !SameKey(db.trxs[i], db.trxs[j]) {
    }
  }

  /** Over any run from the empty store a row is acknowledged at most once by each service, a REPORTED row
      has been acknowledged by the Exchanger and a SENT row by Transactions, with what is stored now. */
  lemma AcknowledgedAtMostOnce(steps: seq<Step>)
    requires Runs(Empty, steps)
    ensures var s := Final(Empty, steps);
      && (forall a, b | a in s.acks && b in s.acks :: a.service == b.service && a.id == b.id ==> a == b)
      && (forall a | a in s.acks :: s.acks[a] == 1)
      && (forall i | 0 <= i < |s.db.trxs| ::
            && (s.db.trxs[i].status == REPORTED ==> Acknowledged(s, Exchanger, i))
            && (s.db.trxs[i].status == SENT ==> Acknowledged(s, Transactions, i)))
  {
    RunKeepsInv(Empty, steps);
    var s := Final(Empty, steps);
    forall a, b | a in s.acks && b in s.acks && a.service == b.service && a.id == b.id ensures a == b {
      assert AckOk(s, a) && AckOk(s, b);
    }
  }

  // ---------- The number of status changes ----------

  function TotalRank(trxs: seq<Trx>): nat {
    if trxs == [] then 0 else TotalRank(trxs[..|trxs| - 1]) + Rank(trxs[|trxs| - 1].status)
  }

  ghost predicate ChangesStatus(before: seq<Trx>, after: seq<Trx>) {
    exists i :: 0 <= i < |before| && i < |after| && before[i].status != after[i].status
  }

  /** How many steps of a run change the status of some row. */
  ghost function StatusChanges(s: State, steps: seq<Step>): nat
    requires Runs(s, steps)
    decreases |steps|
  {
    if steps == [] then 0
    else
      (if ChangesStatus(s.db.trxs, Apply(s, steps[0]).db.trxs) then 1 else 0)
      + StatusChanges(Apply(s, steps[0]), steps[1..])
  }

  lemma {:induction false} TotalRankBound(trxs: seq<Trx>)
    ensures TotalRank(trxs) <= 3 * |trxs|
  {
    if trxs != [] {
      TotalRankBound(trxs[..|trxs| - 1]);
    }
  }

  lemma {:induction false} TotalRankGrows(before: seq<Trx>, after: seq<Trx>)
    requires |before| <= |after|
    requires forall i | 0 <= i < |before| :: Rank(before[i].status) <= Rank(after[i].status)
    ensures TotalRank(before) <= TotalRank(after)
    ensures (exists i :: 0 <= i < |before| && Rank(before[i].status) < Rank(after[i].status))
            ==> TotalRank(before) < TotalRank(after)
    decreases |after|
  {
    if |before| < |after| {
      TotalRankGrows(before, after[..|after| - 1]);
    } else if before != [] {
      TotalRankGrows(before[..|before| - 1], after[..|after| - 1]);
    }
  }

  lemma {:induction false} StatusChangesBounded(s: State, steps: seq<Step>)
    requires Inv(s) && Runs(s, steps)
    ensures StatusChanges(s, steps) + TotalRank(s.db.trxs) <= TotalRank(Final(s, steps).db.trxs)
    decreases |steps|
  {
    if steps != [] {
      var s' := Apply(s, steps[0]);
      StepKeepsInv(s, steps[0]);
      StepAdvances(s, steps[0]);
      TotalRankGrows(s.db.trxs, s'.db.trxs);
      if ChangesStatus(s.db.trxs, s'.db.trxs) {
        ChangeRaisesRank(s.db, s'.db);
      }
      StatusChangesBounded(s', steps[1..]);
    }
  }

  lemma ChangeRaisesRank(db: Store, db': Store)
    requires StoreOk(db) && StoreOk(db') && Advances(db.trxs, db'.trxs) && ChangesStatus(db.trxs, db'.trxs)
    ensures exists i :: 0 <= i < |db.trxs| && Rank(db.trxs[i].status) < Rank(db'.trxs[i].status)
  {
    var i :| 0 <= i < |db.trxs| && db.trxs[i].status != db'.trxs[i].status;
    assert RowOk(db.wallets, db.trxs[i]) && RowOk(db'.wallets, db'.trxs[i]);
    assert Rank(db.trxs[i].status) < Rank(db'.trxs[i].status);
  }

  /** Over any run from the empty store at most three steps per row change a status. */
  lemma AtMostThreeChangesPerRow(steps: seq<Step>)
    requires Runs(Empty, steps)
    ensures StatusChanges(Empty, steps) <= 3 * |Final(Empty, steps).db.trxs|
  {
    StatusChangesBounded(Empty, steps);
    TotalRankBound(Final(Empty, steps).db.trxs);
  }
}
