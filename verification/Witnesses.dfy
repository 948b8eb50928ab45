/** Runs that show what stale write-backs and unguarded checks can do. */
module Witnesses {
  import opened Rows
  import opened Keys
  import opened Lifecycle
  import opened World

  // ---------- Building runs ----------

  lemma Extend(w: World, k: nat, m: Move, w': World)
    requires Reachable(w) && Can(w, k, m) && w' == Do(w, k, m)
    requires w'.reading == w.reading
    ensures Reachable(w')
  {
    var n: nat, turns :| Leads(n, w.reading, turns, w);
    PlaysThen(Start(n, w.reading), turns, k, m);
    assert Leads(n, w'.reading, turns + [Turn(k, m)], w');
  }

  // ---------- Single moves of worker `k` ----------

  lemma Check(w: World, k: nat, wallet: Wallet)
    requires Reachable(w) && k < |w.workers| && |w.versions| == |w.db.trxs| && w.workers[k].Idle?
    requires wallet.onMonitoring && wallet.isActive
    requires forall i | 0 <= i < |w.db.wallets| :: w.db.wallets[i].externalId != wallet.externalId
    ensures Reachable(w.(workers := w.workers[k := Starting(wallet)]))
  {
    Extend(w, k, StartCheck(wallet), w.(workers := w.workers[k := Starting(wallet)]));
  }

  lemma CreateWallet(w: World, k: nat, wallet: Wallet)
    requires Reachable(w) && k < |w.workers| && |w.versions| == |w.db.trxs| && w.workers[k] == Starting(wallet)
    ensures Reachable(w.(db := w.db.(wallets := w.db.wallets + [wallet]), workers := w.workers[k := Idle]))
  {
    Extend(w, k, StartCreate, w.(db := w.db.(wallets := w.db.wallets + [wallet]), workers := w.workers[k := Idle]));
  }

  lemma Insert(w: World, k: nat, row: Trx)
    requires Reachable(w) && k < |w.workers| && |w.versions| == |w.db.trxs| && w.workers[k].Idle?
    requires Requested(w.db.wallets, row) && Insertable(w.db.trxs, row)
    ensures Reachable(w.(db := w.db.(trxs := w.db.trxs + [row]), versions := w.versions + [0]))
  {
    Extend(w, k, Create(row), w.(db := w.db.(trxs := w.db.trxs + [row]), versions := w.versions + [0]));
  }

  lemma Begin(w: World, k: nat, hashes: seq<string>)
    requires Reachable(w) && k < |w.workers| && |w.versions| == |w.db.trxs| && w.workers[k].Idle?
    ensures Reachable(w.(workers := w.workers[k := Confirming(hashes, map[], [], [], hashes)]))
  {
    Extend(w, k, ConfirmBegin(hashes), w.(workers := w.workers[k := Confirming(hashes, map[], [], [], hashes)]));
  }

  /** A handler that has found row 0 under its only hash and has not written it back yet. */
  function HasRead(hash: string, h: Held): Worker {
    Confirming([], map[0 := h], [hash], [], [hash])
  }

  lemma Read(w: World, k: nat, hash: string)
    requires Reachable(w) && k < |w.workers| && w.workers[k] == Confirming([hash], map[], [], [], [hash])
    requires |w.versions| == |w.db.trxs| > 0 && w.db.trxs[0].hash == Some(hash) && w.db.trxs[0].status != REPORTED
    ensures Reachable(w.(workers := w.workers[k := HasRead(hash, Held(0, w.db.trxs[0], w.versions[0]))]))
  {
    var x, h := w.workers[k], Held(0, w.db.trxs[0], w.versions[0]);
    assert ReadMatches(w, x, 0, hash) && x.hashes[1..] == [];
    assert x.read[0 := h] == map[0 := h] && x.hits + [hash] == [hash];
    Extend(w, k, ConfirmRead(Some(0)), w.(workers := w.workers[k := HasRead(hash, h)]));
  }

  /** What the commit of a handler that read row 0 writes when there is no other row. */
  lemma Commit(w: World, k: nat, hash: string, h: Held)
    requires Reachable(w) && k < |w.workers| && w.workers[k] == HasRead(hash, h)
    requires |w.versions| == |w.db.trxs| == 1
    ensures Can(w, k, ConfirmCommit)
    ensures Do(w, k, ConfirmCommit) == w.(
      db := w.db.(trxs := [Confirmed(h.row)]), versions := [w.versions[0] + 1], workers := w.workers[k := Idle])
    ensures Reachable(Do(w, k, ConfirmCommit))
  {
    assert WriteRead(w.db.trxs, map[0 := h]) == [Confirmed(h.row)];
    assert Bump(w.versions, map[0 := h].Keys) == [w.versions[0] + 1];
    Extend(w, k, ConfirmCommit, Do(w, k, ConfirmCommit));
  }

  /** A sender that took one row. */
  function On(service: Service, h: Held, phase: Phase): Worker {
    Sending(service, [h], phase, Pass([h], []))
  }

  /** A sender that took one row and saved it. */
  function DoneWith(service: Service, h: Held): Worker {
    Sending(service, [], Looking, Pass([h], [WasSaved]))
  }

  /** A sender takes row 0, the only one. */
  lemma Take(w: World, k: nat, service: Service)
    requires Reachable(w) && k < |w.workers| && w.workers[k].Idle?
    requires |w.versions| == |w.db.trxs| == 1 && Due(w.db.wallets, service, w.db.trxs[0])
    ensures Reachable(w.(
      workers := w.workers[k := On(service, Held(0, w.db.trxs[0], w.versions[0]), Looking)]))
  {
    assert Answers([0], w.db.trxs, DueFor(w.db.wallets, service));
    assert Do(w, k, Snapshot(service, [0])).workers[k].rows == [Held(0, w.db.trxs[0], w.versions[0])];
    Extend(w, k, Snapshot(service, [0]),
           w.(workers := w.workers[k := On(service, Held(0, w.db.trxs[0], w.versions[0]), Looking)]));
  }

  lemma See(w: World, k: nat, service: Service, h: Held)
    requires Reachable(w) && k < |w.workers| && w.workers[k] == On(service, h, Looking)
    requires |w.versions| == |w.db.trxs| && w.locks == map[]
    ensures Reachable(w.(workers := w.workers[k := On(service, h, SawFree)]))
  {
    Extend(w, k, SeeFree, w.(workers := w.workers[k := On(service, h, SawFree)]));
  }

  lemma Lock(w: World, k: nat, service: Service, h: Held)
    requires Reachable(w) && k < |w.workers| && w.workers[k] == On(service, h, SawFree)
    requires |w.versions| == |w.db.trxs| && w.locks == map[]
    ensures Reachable(w.(locks := map[Key(TransactionModel, h.id) := k],
                         workers := w.workers[k := On(service, h, Holding)]))
  {
    Extend(w, k, Acquire, w.(locks := map[Key(TransactionModel, h.id) := k],
                             workers := w.workers[k := On(service, h, Holding)]));
  }

  lemma Answer(w: World, k: nat, service: Service, h: Held)
    requires Reachable(w) && k < |w.workers| && w.workers[k] == On(service, h, Holding)
    requires |w.versions| == |w.db.trxs|
    ensures Reachable(w.(acked := w.acked + multiset{AckOf(service, h.id, h.row)},
                         workers := w.workers[k := On(service, h, Answered)]))
  {
    Extend(w, k, Acknowledge, w.(acked := w.acked + multiset{AckOf(service, h.id, h.row)},
                                 workers := w.workers[k := On(service, h, Answered)]));
  }

  /** What the save of row 0, the only one, writes. */
  lemma Saves(w: World, k: nat, service: Service, h: Held)
    requires Reachable(w) && k < |w.workers| && w.workers[k] == On(service, h, Answered) && h.id == 0
    requires |w.versions| == |w.db.trxs| == 1
    ensures Can(w, k, Save)
    ensures Do(w, k, Save) == w.(
      db := w.db.(trxs := [h.row.(status := Target(service))]), versions := [w.versions[0] + 1],
      settled := w.settled + multiset{AckOf(service, h.id, h.row)},
      workers := w.workers[k := On(service, h, Saved)])
    ensures Reachable(Do(w, k, Save))
  {
    assert w.db.trxs[0 := h.row.(status := Target(service))] == [h.row.(status := Target(service))];
    assert w.versions[0 := w.versions[0] + 1] == [w.versions[0] + 1];
    Extend(w, k, Save, Do(w, k, Save));
  }

  lemma Releases(w: World, k: nat, service: Service, h: Held)
    requires Reachable(w) && k < |w.workers| && w.workers[k] == On(service, h, Saved)
    requires |w.versions| == |w.db.trxs| && w.locks == map[Key(TransactionModel, h.id) := k]
    ensures Reachable(w.(locks := map[], workers := w.workers[k := DoneWith(service, h)]))
  {
    assert [h][1..] == [] && w.locks - {Key(TransactionModel, h.id)} == map[];
    assert [] + [WasSaved] == [WasSaved];
    Extend(w, k, Release, w.(locks := map[], workers := w.workers[k := DoneWith(service, h)]));
  }

  lemma Finishes(w: World, k: nat, service: Service, h: Held)
    requires Reachable(w) && k < |w.workers| && w.workers[k] == DoneWith(service, h)
    requires |w.versions| == |w.db.trxs|
    ensures Reachable(w.(workers := w.workers[k := Idle]))
  {
    Extend(w, k, Finish, w.(workers := w.workers[k := Idle]));
  }

  /** An error between the answer and the save. */
  lemma Fails(w: World, k: nat, service: Service, h: Held)
    requires Reachable(w) && k < |w.workers| && w.workers[k] == On(service, h, Answered)
    requires |w.versions| == |w.db.trxs| && w.locks == map[Key(TransactionModel, h.id) := k]
    ensures Reachable(w.(locks := map[], lost := w.lost + multiset{AckOf(service, h.id, h.row)},
                         workers := w.workers[k := Idle]))
  {
    assert w.locks - {Key(TransactionModel, h.id)} == map[];
    Extend(w, k, Abort, w.(locks := map[], lost := w.lost + multiset{AckOf(service, h.id, h.row)},
                           workers := w.workers[k := Idle]));
  }

  // ---------- One platform wallet with one seen deposit ----------

  const W := Wallet("bitcoin", "w", 1, true, true, true)
  const T := NewTrx(Some("h"), "a", "w", "bitcoin", 1.0, Some(0), Some(7))

  /** Two workers over one wallet and one row. */
  function OneRow(row: Trx, version: nat, x: Worker, y: Worker): World {
    World(Store([W], [row]), [version], map[], [x, y], multiset{}, multiset{}, multiset{}, Rebound)
  }

  lemma TwoIdleWorkers()
    ensures Reachable(Start(2, Rebound)) && Start(2, Rebound).workers == [Idle, Idle]
  {
    assert Leads(2, Rebound, [], Start(2, Rebound));
  }

  lemma SeenDeposit()
    ensures Reachable(OneRow(T, 0, Idle, Idle))
  {
    TwoIdleWorkers();
    var w0 := Start(2, Rebound);
    Check(w0, 0, W);
    var w1 := w0.(workers := w0.workers[0 := Starting(W)]);
    CreateWallet(w1, 0, W);
    assert w1.workers[0 := Idle] == [Idle, Idle] && [] + [W] == [W];
    var w2 := w0.(db := Store([W], []), workers := [Idle, Idle]);
    Insert(w2, 0, T);
    assert [] + [T] == [T] && [] + [0] == [0];
  }

  /** Worker 1, a handler, reads the row while worker 0 may be anywhere. */
  lemma HandlerReads(w: World)
    requires Reachable(w) && |w.workers| == 2 && w.workers[1] == Idle
    requires |w.db.trxs| == |w.versions| == 1 && w.db.trxs[0].hash == Some("h") && w.db.trxs[0].status != REPORTED
    ensures Reachable(w.(workers := [w.workers[0], HasRead("h", Held(0, w.db.trxs[0], w.versions[0]))]))
  {
    var h := Held(0, w.db.trxs[0], w.versions[0]);
    Begin(w, 1, ["h"]);
    var w1 := w.(workers := w.workers[1 := Confirming(["h"], map[], [], [], ["h"])]);
    Read(w1, 1, "h");
    assert w1.workers[1 := HasRead("h", h)] == [w.workers[0], HasRead("h", h)];
  }

  /** Worker 1 reads the row and writes it back at once. */
  lemma HandlerConfirms(w: World)
    requires Reachable(w) && |w.workers| == 2 && w.workers[1] == Idle
    requires |w.db.trxs| == |w.versions| == 1 && w.db.trxs[0].hash == Some("h") && w.db.trxs[0].status != REPORTED
    ensures Reachable(w.(db := w.db.(trxs := [Confirmed(w.db.trxs[0])]), versions := [w.versions[0] + 1]))
  {
    var h := Held(0, w.db.trxs[0], w.versions[0]);
    HandlerReads(w);
    var w1 := w.(workers := [w.workers[0], HasRead("h", h)]);
    Commit(w1, 1, "h", h);
    assert w1.workers[1 := Idle] == w.workers;
  }

  /** Worker 0 takes the row, sees its lock free and waits for it. */
  lemma SenderWaits(w: World, service: Service)
    requires Reachable(w) && w.locks == map[] && |w.workers| == 2 && w.workers[0] == Idle
    requires |w.db.trxs| == |w.versions| == 1 && Due(w.db.wallets, service, w.db.trxs[0])
    ensures Reachable(w.(
      workers := [On(service, Held(0, w.db.trxs[0], w.versions[0]), SawFree), w.workers[1]]))
  {
    var h := Held(0, w.db.trxs[0], w.versions[0]);
    Take(w, 0, service);
    var w1 := w.(workers := [On(service, h, Looking), w.workers[1]]);
    assert w.workers[0 := On(service, h, Looking)] == w1.workers;
    See(w1, 0, service, h);
    assert w1.workers[0 := On(service, h, SawFree)] == [On(service, h, SawFree), w.workers[1]];
  }

  /** Worker 0 gets the lock, and its message is acknowledged. */
  lemma SenderIsAnswered(w: World, service: Service, h: Held)
    requires Reachable(w) && w.locks == map[] && |w.workers| == 2 && w.workers[0] == On(service, h, SawFree)
    requires |w.versions| == |w.db.trxs|
    ensures Reachable(w.(
      locks := map[Key(TransactionModel, h.id) := 0],
      workers := [On(service, h, Answered), w.workers[1]],
      acked := w.acked + multiset{AckOf(service, h.id, h.row)}))
  {
    Lock(w, 0, service, h);
    var w1 := w.(locks := map[Key(TransactionModel, h.id) := 0],
                 workers := [On(service, h, Holding), w.workers[1]]);
    assert w.workers[0 := On(service, h, Holding)] == w1.workers;
    Answer(w1, 0, service, h);
    assert w1.workers[0 := On(service, h, Answered)] == [On(service, h, Answered), w.workers[1]];
  }

  /** Worker 0 takes the row, locks it and gets its message acknowledged. */
  lemma SenderGetsAnswer(w: World, service: Service)
    requires Reachable(w) && w.locks == map[] && |w.workers| == 2 && w.workers[0] == Idle
    requires |w.db.trxs| == |w.versions| == 1 && Due(w.db.wallets, service, w.db.trxs[0])
    ensures Reachable(w.(
      locks := map[Key(TransactionModel, 0) := 0],
      workers := [On(service, Held(0, w.db.trxs[0], w.versions[0]), Answered), w.workers[1]],
      acked := w.acked + multiset{AckOf(service, 0, w.db.trxs[0])}))
  {
    var h := Held(0, w.db.trxs[0], w.versions[0]);
    SenderWaits(w, service);
    SenderIsAnswered(w.(workers := [On(service, h, SawFree), w.workers[1]]), service, h);
  }

  // ---------- The runs ----------

  /** A sender to Transactions that read the row before a handler confirmed it puts it back from CONFIRMED to
      SENT, and wipes out the confirmation time. The handler acts while the answer is under way. */
  lemma StaleSaveUndoesConfirmation()
    ensures exists w, k ::
      && Reachable(w) && Can(w, k, Save) && w.db.trxs == [Confirmed(T)]
      && Do(w, k, Save).db.trxs == [T.(status := SENT)]
  {
    SeenDeposit();
    var w := OneRow(T, 0, Idle, Idle);
    SenderGetsAnswer(w, Transactions);
    var w1 := w.(locks := map[Key(TransactionModel, 0) := 0],
                 workers := [On(Transactions, Held(0, T, 0), Answered), Idle],
                 acked := w.acked + multiset{AckOf(Transactions, 0, T)});
    HandlerConfirms(w1);
    var w2 := w1.(db := w1.db.(trxs := [Confirmed(T)]), versions := [1]);
    Saves(w2, 0, Transactions, Held(0, T, 0));
  }

  const C := Confirmed(T)
  const H := Held(0, C, 1)
  const REPORT := AckOf(Exchanger, 0, C)

  /** The report is acknowledged and saved by worker 0; worker 1 read the row before, while worker 0 was waiting
      for its lock. */
  function ReportedBehind(): World {
    World(Store([W], [C.(status := REPORTED)]), [2], map[Key(TransactionModel, 0) := 0],
          [On(Exchanger, H, Saved), HasRead("h", H)], multiset{REPORT}, multiset{REPORT}, multiset{}, Rebound)
  }

  lemma BothHaveRead()
    ensures Reachable(OneRow(C, 1, On(Exchanger, H, SawFree), HasRead("h", H)))
  {
    SeenDeposit();
    HandlerConfirms(OneRow(T, 0, Idle, Idle));
    SenderWaits(OneRow(C, 1, Idle, Idle), Exchanger);
    HandlerReads(OneRow(C, 1, On(Exchanger, H, SawFree), Idle));
  }

  lemma ReportedBehindHandler()
    ensures Reachable(ReportedBehind())
  {
    var w := OneRow(C, 1, On(Exchanger, H, SawFree), HasRead("h", H));
    BothHaveRead();
    SenderIsAnswered(w, Exchanger, H);
    var w1 := w.(locks := map[Key(TransactionModel, 0) := 0],
                 workers := [On(Exchanger, H, Answered), HasRead("h", H)], acked := multiset{REPORT});
    assert w.acked + multiset{REPORT} == w1.acked;
    Saves(w1, 0, Exchanger, H);
    assert w1.workers[0 := On(Exchanger, H, Saved)] == ReportedBehind().workers;
    assert w1.settled + multiset{REPORT} == multiset{REPORT};
  }

  /** A handler that read the row before the Exchanger sender saved it puts it back from REPORTED to CONFIRMED,
      although the report is acknowledged; the row is due for the Exchanger a second time. */
  lemma StaleCommitUndoesReport()
    ensures exists w, k ::
      && Reachable(w) && Can(w, k, ConfirmCommit) && w.db.trxs == [C.(status := REPORTED)]
      && AckOf(Exchanger, 0, w.db.trxs[0]) in w.settled
      && Do(w, k, ConfirmCommit).db == Store([W], [C])
      && Due([W], Exchanger, C)
  {
    ReportedBehindHandler();
    Commit(ReportedBehind(), 1, "h", H);
  }

  /** The run goes on: the same report is acknowledged a second time, the first one being settled. */
  lemma UndoneReportIsSentTwice()
    ensures exists w :: Reachable(w) && w.acked[REPORT] == 2 && w.settled[REPORT] == 1 && w.lost == multiset{}
  {
    ReportedBehindHandler();
    var w := ReportedBehind();
    Commit(w, 1, "h", H);
    var w1 := w.(db := Store([W], [C]), versions := [3], workers := [On(Exchanger, H, Saved), Idle]);
    assert w.workers[1 := Idle] == w1.workers;
    Releases(w1, 0, Exchanger, H);
    var w2 := w1.(locks := map[], workers := [DoneWith(Exchanger, H), Idle]);
    assert w1.workers[0 := DoneWith(Exchanger, H)] == w2.workers;
    Finishes(w2, 0, Exchanger, H);
    var w3 := w2.(workers := [Idle, Idle]);
    assert w2.workers[0 := Idle] == w3.workers;
    SenderGetsAnswer(w3, Exchanger);
    assert (multiset{REPORT} + multiset{REPORT})[REPORT] == 2;
  }

  /** An error after the Exchanger's acknowledgement: the row stays due, and the report is sent again. */
  lemma LostReportIsSentTwice()
    ensures exists w :: Reachable(w) && w.acked[REPORT] == 2 && w.settled == multiset{} && w.lost[REPORT] == 1
  {
    SeenDeposit();
    HandlerConfirms(OneRow(T, 0, Idle, Idle));
    var w := OneRow(C, 1, Idle, Idle);
    SenderGetsAnswer(w, Exchanger);
    var w1 := w.(locks := map[Key(TransactionModel, 0) := 0],
                 workers := [On(Exchanger, H, Answered), Idle], acked := w.acked + multiset{REPORT});
    Fails(w1, 0, Exchanger, H);
    var w2 := w.(lost := w.lost + multiset{REPORT}, acked := w.acked + multiset{REPORT});
    assert w1.workers[0 := Idle] == w2.workers;
    SenderGetsAnswer(w2, Exchanger);
    assert (w2.acked + multiset{REPORT})[REPORT] == 2;
  }

  /** Two requests to start monitoring that check before either creates leave two wallets with one external id. */
  lemma ConcurrentStartsCollide()
    ensures exists w ::
      && Reachable(w) && |w.db.wallets| == 2 && w.db.wallets[0].externalId == w.db.wallets[1].externalId
  {
    TwoIdleWorkers();
    var w0 := Start(2, Rebound);
    Check(w0, 0, W);
    var w1 := w0.(workers := [Starting(W), Idle]);
    assert w0.workers[0 := Starting(W)] == w1.workers;
    Check(w1, 1, W);
    var w2 := w0.(workers := [Starting(W), Starting(W)]);
    assert w1.workers[1 := Starting(W)] == w2.workers;
    CreateWallet(w2, 0, W);
    var w3 := w0.(db := Store([W], []), workers := [Idle, Starting(W)]);
    assert w2.workers[0 := Idle] == w3.workers && [] + [W] == [W];
    CreateWallet(w3, 1, W);
    assert Reachable(w3.(db := Store([W] + [W], []), workers := w3.workers[1 := Idle]));
  }
}
