/** The service with every request and every monitor run done in one go, each by the function its sequential code is
    proved against. */
module Operations {
  import opened Rows
  import opened Feeds
  import opened Ingestion
  import L = Lifecycle
  import F = Filling
  import Handlers
  import Registry

  /** `Send` is one row of a sender, acknowledged and saved; `SendUnsaved` one whose sender was stopped by an error
      between the two. A request that is refused, and a run that fails, changes nothing and is not listed. */
  datatype Operation =
    | Monitoring(request: Registry.Request)
    | AddRow(row: Trx)
    | UpdateTrx(hashes: seq<string>)
    | IngestRun(wids: seq<nat>, known: nat, visits: Visits)
    | FillRun(wids: seq<nat>, known: nat, visits: Visits, picks: seq<Option<nat>>)
    | Send(service: L.Service, id: nat)
    | SendUnsaved(service: L.Service, id: nat)

  /** The wallets of a run that began when there were `known` wallets: each once, active ones of its kind, and all of
      those that are on monitoring. A wallet stopped since the run began may still be among them. */
  ghost predicate Tourable(wallets: seq<Wallet>, wids: seq<nat>, known: nat, platform: bool) {
    && known <= |wallets|
    && (forall i, j | 0 <= i < j < |wids| :: wids[i] != wids[j])
    && (forall n | 0 <= n < |wids| ::
          wids[n] < known && wallets[wids[n]].isPlatform == platform && wallets[wids[n]].isActive)
    && (forall i | 0 <= i < known && Watched(platform)(wallets[i]) :: i in wids)
  }

  ghost predicate Possible(reading: L.Reading, s: L.State, op: Operation) {
    match op
    case Monitoring(_) => true
    case AddRow(row) => L.Requested(s.db.wallets, row) && Insertable(s.db.trxs, row)
    case UpdateTrx(_) => true
    case IngestRun(wids, known, visits) =>
      Tourable(s.db.wallets, wids, known, false) && !IngestWallets(s.db.wallets, s.db.trxs, visits, wids).raised
    case FillRun(wids, known, visits, picks) =>
      && Tourable(s.db.wallets, wids, known, true)
      && Known(s.db.wallets, Events(visits, wids)) && |picks| == |Events(visits, wids)|
      && F.GoodPicks(reading, s.db.wallets, s.db.trxs, Events(visits, wids), picks)
      && !F.Run(reading, s.db.wallets, s.db.trxs, Events(visits, wids), picks).raised
    case Send(service, id) => id < |s.db.trxs| && L.Due(s.db.wallets, service, s.db.trxs[id])
    case SendUnsaved(service, id) => id < |s.db.trxs| && L.Due(s.db.wallets, service, s.db.trxs[id])
  }

  function WithTrxs(s: L.State, trxs: seq<Trx>): L.State {
    s.(db := s.db.(trxs := trxs))
  }

  ghost function Perform(reading: L.Reading, s: L.State, op: Operation): L.State
    requires Possible(reading, s, op)
  {
    match op
    case Monitoring(request) => s.(db := s.db.(wallets := Registry.Serve(s.db.wallets, request)))
    case AddRow(row) => WithTrxs(s, s.db.trxs + [row])
    case UpdateTrx(hashes) => WithTrxs(s, L.ConfirmAll(s.db.trxs, Handlers.HitIds(s.db.trxs, hashes)))
    case IngestRun(wids, _, visits) => WithTrxs(s, IngestWallets(s.db.wallets, s.db.trxs, visits, wids).trxs)
    case FillRun(wids, _, visits, picks) =>
      WithTrxs(s, F.Run(reading, s.db.wallets, s.db.trxs, Events(visits, wids), picks).trxs)
    case Send(service, id) =>
      L.State(s.db.(trxs := s.db.trxs[id := s.db.trxs[id].(status := L.Target(service))]),
              s.acks + multiset{L.AckOf(service, id, s.db.trxs[id])})
    case SendUnsaved(service, id) => s.(acks := s.acks + multiset{L.AckOf(service, id, s.db.trxs[id])})
  }

  ghost predicate Performs(reading: L.Reading, s: L.State, ops: seq<Operation>)
    decreases |ops|
  {
    ops == [] || (Possible(reading, s, ops[0]) && Performs(reading, Perform(reading, s, ops[0]), ops[1..]))
  }

  ghost function Result(reading: L.Reading, s: L.State, ops: seq<Operation>): L.State
    requires Performs(reading, s, ops)
    decreases |ops|
  {
    if ops == [] then s else Result(reading, Perform(reading, s, ops[0]), ops[1..])
  }

  // ---------- Every operation is a step of the life of the rows ----------

  /** A run of at most one step leads from one state to the other. */
  ghost predicate IsStep(s: L.State, s': L.State) {
    s' == s || exists step :: L.Enabled(s, step) && L.Apply(s, step) == s'
  }

  lemma StepLeads(s: L.State, step: L.Step, s': L.State)
    requires L.Enabled(s, step) && L.Apply(s, step) == s'
    ensures IsStep(s, s')
  {
  }

  lemma RequestIsStep(s: L.State, request: Registry.Request)
    requires Registry.UniqueIds(s.db.wallets)
    ensures IsStep(s, s.(db := s.db.(wallets := Registry.Serve(s.db.wallets, request))))
  {
    var s' := s.(db := s.db.(wallets := Registry.Serve(s.db.wallets, request)));
    var wallets, id := s.db.wallets, request.externalId;
    if request.Start? && !Registry.Registered(wallets, id) {
      StepLeads(s, L.AddWallet(Registry.NewWallet(request)), s');
    } else if request.Stop? && Registry.Registered(wallets, id) {
      var i :| 0 <= i < |wallets| && wallets[i].externalId == id;
      Registry.TurnsOffOne(wallets, i);
      StepLeads(s, L.StopWallet(i), s');
    } else if request.Stop? {
      assert Registry.TurnedOff(wallets, id) == wallets;
    }
  }

  lemma RunIsStep(reading: L.Reading, s: L.State, op: Operation)
    requires StoreOk(s.db) && Possible(reading, s, op) && (op.IngestRun? || op.FillRun?)
    ensures IsStep(s, Perform(reading, s, op))
  {
    var wallets, trxs, events := s.db.wallets, s.db.trxs, Events(op.visits, op.wids);
    KnownEvents(wallets, op.visits, op.wids);
    EventsAreLoaded(op.visits, op.wids);
    if op.IngestRun? {
      IngestIsOneStep(wallets, trxs, events, s.acks);
      StepLeads(s, L.IngestRows(RowsAt(wallets, trxs, events, |events|)), Perform(reading, s, op));
    } else {
      F.FillIsOneStep(reading, wallets, trxs, events, op.picks, s.acks);
      StepLeads(s, L.FillRows(F.DepositsOf(events, op.picks)), Perform(reading, s, op));
    }
  }

  lemma OperationIsStep(reading: L.Reading, s: L.State, op: Operation)
    requires StoreOk(s.db) && Registry.UniqueIds(s.db.wallets) && Possible(reading, s, op) && !op.SendUnsaved?
    ensures IsStep(s, Perform(reading, s, op))
  {
    match op
    case Monitoring(request) => RequestIsStep(s, request);
    case AddRow(row) => StepLeads(s, L.InsertRow(row), Perform(reading, s, op));
    case UpdateTrx(hashes) =>
      StepLeads(s, L.ConfirmRows(Handlers.HitIds(s.db.trxs, hashes)), Perform(reading, s, op));
    case Send(service, id) => StepLeads(s, L.SendRow(service, id), Perform(reading, s, op));
    case _ => RunIsStep(reading, s, op);
  }

  lemma OperationKeepsIds(reading: L.Reading, s: L.State, op: Operation)
    requires Registry.UniqueIds(s.db.wallets) && Possible(reading, s, op)
    ensures Registry.UniqueIds(Perform(reading, s, op).db.wallets)
  {
  }

  /** A run of operations, each sent row being saved, is a run of the machine of steps, with all its guarantees. */
  lemma {:induction false} OperationsAreSteps(reading: L.Reading, s: L.State, ops: seq<Operation>)
    returns (steps: seq<L.Step>)
    requires L.Inv(s) && Registry.UniqueIds(s.db.wallets) && Performs(reading, s, ops)
    requires forall n | 0 <= n < |ops| :: !ops[n].SendUnsaved?
    ensures L.Runs(s, steps) && L.Final(s, steps) == Result(reading, s, ops)
    decreases |ops|
  {
    if ops == [] {
      return [];
    }
    var s' := Perform(reading, s, ops[0]);
    OperationIsStep(reading, s, ops[0]);
    OperationKeepsIds(reading, s, ops[0]);
    if s' == s {
      steps := OperationsAreSteps(reading, s', ops[1..]);
    } else {
      var step :| L.Enabled(s, step) && L.Apply(s, step) == s';
      L.StepKeepsInv(s, step);
      var rest := OperationsAreSteps(reading, s', ops[1..]);
      steps := [step] + rest;
      assert steps[1..] == rest;
    }
  }
}
