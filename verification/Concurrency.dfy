/** What checks made before a suspension point are worth: external ids, stopped wallets, repeated sends. */
module Concurrency {
  import opened Rows
  import opened Keys
  import opened Lifecycle
  import opened World
  import Registry
  import I = Interleaving

  // ---------- External ids ----------

  lemma CreateKeepsIdsIff(w: World, k: nat)
    requires Registry.UniqueIds(w.db.wallets) && Can(w, k, StartCreate)
    ensures Registry.UniqueIds(Do(w, k, StartCreate).db.wallets)
      <==> !Registry.Registered(w.db.wallets, w.workers[k].wallet.externalId)
  {
    var before, wallet := w.db.wallets, w.workers[k].wallet;
    var after := Do(w, k, StartCreate).db.wallets;
    assert after == before + [wallet];
    if Registry.Registered(before, wallet.externalId) {
      var i :| 0 <= i < |before| && before[i].externalId == wallet.externalId;
      assert after[i].externalId == after[|before|].externalId;
    }
  }

  lemma OtherMovesKeepWallets(w: World, k: nat, m: Move)
    requires Can(w, k, m) && !m.StartCreate?
    ensures |Do(w, k, m).db.wallets| == |w.db.wallets|
  {
  }

  /** A wallet keeps its external id. */
  lemma SameIds(w: World, w': World, i: nat)
    requires I.Grows(w, w') && i < |w.db.wallets|
    ensures w'.db.wallets[i].externalId == w.db.wallets[i].externalId
  {
    assert Fixed(w'.db.wallets[i]).externalId == Fixed(w.db.wallets[i]).externalId;
  }

  lemma OtherMovesKeepIds(w: World, k: nat, m: Move)
    requires I.WorkersOk(w) && Registry.UniqueIds(w.db.wallets) && Can(w, k, m) && !m.StartCreate?
    ensures Registry.UniqueIds(Do(w, k, m).db.wallets)
  {
    var w' := Do(w, k, m);
    I.MoveGrows(w, k, m);
    OtherMovesKeepWallets(w, k, m);
    forall i | 0 <= i < |w.db.wallets| ensures w'.db.wallets[i].externalId == w.db.wallets[i].externalId {
      SameIds(w, w', i);
    }
  }

  /** Whenever a request creates its wallet, the id is still free -- as it was when the request checked. */
  ghost predicate ChecksHold(w: World, turns: seq<Turn>)
    requires Plays(w, turns)
    decreases |turns|
  {
    turns == [] ||
    var k, m := turns[0].worker, turns[0].move;
    && (m.StartCreate? ==> !Registry.Registered(w.db.wallets, w.workers[k].wallet.externalId))
    && ChecksHold(Do(w, k, m), turns[1..])
  }

  lemma CollisionStays(w: World, turns: seq<Turn>)
    requires I.Inv(w) && Plays(w, turns) && !Registry.UniqueIds(w.db.wallets)
    ensures !Registry.UniqueIds(After(w, turns).db.wallets)
  {
    var i, j :| 0 <= i < j < |w.db.wallets| && w.db.wallets[i].externalId == w.db.wallets[j].externalId;
    I.RunGrows(w, turns);
    SameIds(w, After(w, turns), i);
    SameIds(w, After(w, turns), j);
  }

  /** Over any interleaved run external ids stay unique exactly when every check still holds when its wallet is
      created. */
  lemma {:induction false} IdsStayUniqueIff(w: World, turns: seq<Turn>)
    requires I.Inv(w) && Registry.UniqueIds(w.db.wallets) && Plays(w, turns)
    ensures Registry.UniqueIds(After(w, turns).db.wallets) <==> ChecksHold(w, turns)
    decreases |turns|
  {
    if turns != [] {
      var k, m := turns[0].worker, turns[0].move;
      I.MoveKeepsInv(w, k, m);
      if m.StartCreate? {
        CreateKeepsIdsIff(w, k);
      } else {
        OtherMovesKeepIds(w, k, m);
      }
      if Registry.UniqueIds(Do(w, k, m).db.wallets) {
        IdsStayUniqueIff(Do(w, k, m), turns[1..]);
      } else {
        CollisionStays(Do(w, k, m), turns[1..]);
      }
    }
  }

  /** No two requests to start monitoring are under way at once. */
  ghost predicate OneStarting(w: World) {
    forall i, j | 0 <= i < j < |w.workers| :: !(w.workers[i].Starting? && w.workers[j].Starting?)
  }

  ghost predicate OneAfterAnother(w: World, turns: seq<Turn>)
    requires Plays(w, turns)
    decreases |turns|
  {
    OneStarting(w) && (turns == [] || OneAfterAnother(Do(w, turns[0].worker, turns[0].move), turns[1..]))
  }

  /** A request that has checked and not yet created has an id that is free. */
  ghost predicate StillFree(w: World) {
    forall j | 0 <= j < |w.workers| && w.workers[j].Starting? ::
      !Registry.Registered(w.db.wallets, w.workers[j].wallet.externalId)
  }

  lemma WalletsOfMove(w: World, k: nat, m: Move, i: nat)
    requires I.WorkersOk(w) && Can(w, k, m) && i < |Do(w, k, m).db.wallets|
    ensures i < |w.db.wallets| ==> Do(w, k, m).db.wallets[i].externalId == w.db.wallets[i].externalId
    ensures i >= |w.db.wallets| ==> m.StartCreate?
  {
    I.MoveGrows(w, k, m);
    if i < |w.db.wallets| {
      SameIds(w, Do(w, k, m), i);
    } else if !m.StartCreate? {
      OtherMovesKeepWallets(w, k, m);
    }
  }

  lemma StartedHere(w: World, k: nat, m: Move)
    requires Can(w, k, m)
    ensures |Do(w, k, m).workers| == |w.workers|
    ensures Do(w, k, m).workers[k].Starting? ==>
      m.StartCheck? && !Registry.Registered(w.db.wallets, Do(w, k, m).workers[k].wallet.externalId)
    ensures m.StartCreate? ==> w.workers[k].Starting?
  {
  }

  lemma FreeStays(w: World, k: nat, m: Move)
    requires I.WorkersOk(w) && Can(w, k, m) && StillFree(w) && OneStarting(w)
    ensures StillFree(Do(w, k, m))
  {
    var w' := Do(w, k, m);
    I.OneWorkerMoves(w, k, m);
    StartedHere(w, k, m);
    forall j | 0 <= j < |w'.workers| && w'.workers[j].Starting?
      ensures !Registry.Registered(w'.db.wallets, w'.workers[j].wallet.externalId)
    {
      forall i | 0 <= i < |w'.db.wallets| ensures w'.db.wallets[i].externalId != w'.workers[j].wallet.externalId {
        WalletsOfMove(w, k, m, i);
      }
    }
  }

  /** While requests to start monitoring come one after another, whatever else goes on, every check holds and external
      ids stay unique. */
  lemma {:induction false} OneAfterAnotherIsUnique(w: World, turns: seq<Turn>)
    requires I.Inv(w) && Registry.UniqueIds(w.db.wallets) && StillFree(w)
    requires Plays(w, turns) && OneAfterAnother(w, turns)
    ensures ChecksHold(w, turns) && Registry.UniqueIds(After(w, turns).db.wallets)
    decreases |turns|
  {
    if turns != [] {
      var k, m := turns[0].worker, turns[0].move;
      I.MoveKeepsInv(w, k, m);
      FreeStays(w, k, m);
      StartedHere(w, k, m);
      if m.StartCreate? {
        CreateKeepsIdsIff(w, k);
      } else {
        OtherMovesKeepIds(w, k, m);
      }
      OneAfterAnotherIsUnique(Do(w, k, m), turns[1..]);
    }
  }

  // ---------- Stopped wallets ----------

  lemma OffIsNotTakenUp(wids: seq<nat>, wallets: seq<Wallet>, platform: bool, wid: nat)
    requires Answers(wids, wallets, Watched(platform)) && wid < |wallets| && !wallets[wid].onMonitoring
    ensures wid !in wids
  {
    forall n | 0 <= n < |wids| ensures wids[n] != wid {
      assert Watched(platform)(wallets[wids[n]]);
    }
  }

  /** In any interleaving a wallet row that is off monitoring stays so, and no run that begins later takes it up. */
  lemma StoppedStaysStopped(w: World, turns: seq<Turn>, wid: nat)
    requires Reachable(w) && Plays(w, turns) && wid < |w.db.wallets| && !w.db.wallets[wid].onMonitoring
    ensures wid < |After(w, turns).db.wallets| && !After(w, turns).db.wallets[wid].onMonitoring
    ensures forall wids, platform | Answers(wids, After(w, turns).db.wallets, Watched(platform)) :: wid !in wids
  {
    I.ReachableOk(w);
    I.RunGrows(w, turns);
    var wallets := After(w, turns).db.wallets;
    forall wids, platform | Answers(wids, wallets, Watched(platform)) ensures wid !in wids {
      OffIsNotTakenUp(wids, wallets, platform, wid);
    }
  }

  // ---------- Repeated sends ----------

  /** A row whose acknowledgement has been acted on is never NEW again. */
  ghost predicate MovedOn(w: World) {
    forall a | a in w.settled :: a.id < |w.db.trxs| && w.db.trxs[a.id].status != NEW
  }

  lemma NeverBackToNew(w: World, k: nat, m: Move, i: nat)
    requires I.WorkersOk(w) && Can(w, k, m) && i < |w.db.trxs| && w.db.trxs[i].status != NEW
    ensures i < |Do(w, k, m).db.trxs| && Do(w, k, m).db.trxs[i].status != NEW
  {
    if I.Writes(m) {
      assert I.WorkerOk(w, w.workers[k]);
    } else {
      I.OtherMovesKeepStore(w, k, m);
    }
  }

  lemma SettledHasSource(w: World, k: nat, m: Move, a: Ack)
    requires I.WorkersOk(w) && Can(w, k, m) && a in Do(w, k, m).settled && a !in w.settled
    ensures m.Save? && a.id == w.workers[k].rows[0].id < |w.db.trxs|
    ensures Do(w, k, m).db.trxs == w.db.trxs[a.id := Do(w, k, m).db.trxs[a.id]]
    ensures Do(w, k, m).db.trxs[a.id].status != NEW
  {
    assert I.WorkerOk(w, w.workers[k]);
  }

  lemma MoveKeepsMovedOn(w: World, k: nat, m: Move)
    requires I.WorkersOk(w) && MovedOn(w) && Can(w, k, m)
    ensures MovedOn(Do(w, k, m))
  {
    var w' := Do(w, k, m);
    forall a | a in w'.settled ensures a.id < |w'.db.trxs| && w'.db.trxs[a.id].status != NEW {
      if a in w.settled {
        NeverBackToNew(w, k, m, a.id);
      } else {
        SettledHasSource(w, k, m, a);
      }
    }
  }

  lemma {:induction false} RunKeepsMovedOn(w: World, turns: seq<Turn>)
    requires I.Inv(w) && MovedOn(w) && Plays(w, turns)
    ensures MovedOn(After(w, turns))
    decreases |turns|
  {
    if turns != [] {
      I.MoveKeepsInv(w, turns[0].worker, turns[0].move);
      MoveKeepsMovedOn(w, turns[0].worker, turns[0].move);
      RunKeepsMovedOn(Do(w, turns[0].worker, turns[0].move), turns[1..]);
    }
  }

  lemma ReachableMovedOn(w: World)
    requires Reachable(w)
    ensures MovedOn(w)
  {
    var n: nat, turns :| Leads(n, w.reading, turns, w);
    I.StartOk(n, w.reading);
    RunKeepsMovedOn(Start(n, w.reading), turns);
  }

  /** The acknowledgement that the message now sent by worker `k` would bring. */
  function Expects(w: World, k: nat): Ack
    requires k < |w.workers| && w.workers[k].Sending? && w.workers[k].rows != []
  {
    AckOf(w.workers[k].service, w.workers[k].rows[0].id, w.workers[k].rows[0].row)
  }

  /** Nobody else has an answer for the row in hand: the lock sees to that. */
  lemma NotInHand(w: World, k: nat, j: nat)
    requires I.LocksOk(w) && Can(w, k, Acknowledge) && j < |w.workers|
    ensures Expects(w, k) !in InHand(w.workers[j])
  {
  }

  /** Whatever was acknowledged for this row by this service was this very message. */
  lemma SameMessage(w: World, k: nat, b: Ack)
    requires I.WorkersOk(w) && Can(w, k, Acknowledge) && I.StillTrue(w, b)
    requires b.service == Expects(w, k).service && b.id == Expects(w, k).id
    ensures b == Expects(w, k)
  {
    assert I.WorkerOk(w, w.workers[k]);
    var h := w.workers[k].rows[0];
    assert Payload(h.row) == Payload(w.db.trxs[h.id]);
  }

  /** A SENT, CONFIRMED or REPORTED row was not read as NEW since its last write. */
  lemma SettledMeansStale(w: World, k: nat)
    requires I.WorkersOk(w) && MovedOn(w) && Can(w, k, Acknowledge) && w.workers[k].service.Transactions?
    requires Expects(w, k) in w.settled
    ensures w.workers[k].rows[0].id < |w.versions|
    ensures w.workers[k].rows[0].version != w.versions[w.workers[k].rows[0].id]
  {
    assert I.WorkerOk(w, w.workers[k]);
  }

  /** An earlier acknowledgement of the row is this very message, and is settled or lost. */
  lemma EarlierIsRecorded(w: World, k: nat, b: Ack)
    requires I.Inv(w) && Can(w, k, Acknowledge) && b in w.acked
    requires b.service == Expects(w, k).service && b.id == Expects(w, k).id
    ensures b == Expects(w, k) && (b in w.settled || b in w.lost)
  {
    I.AckedIsTrue(w, b);
    SameMessage(w, k, b);
    if b !in w.settled && b !in w.lost {
      I.AckedHasSource(w, b);
      var j :| 0 <= j < |w.workers| && b in InHand(w.workers[j]);
      NotInHand(w, k, j);
    }
  }

  ghost predicate AcknowledgedBefore(w: World, service: Service, id: nat) {
    exists b :: b in w.acked && b.service == service && b.id == id
  }

  lemma AcknowledgedBeforeIff(w: World, k: nat)
    requires I.Inv(w) && Can(w, k, Acknowledge)
    ensures AcknowledgedBefore(w, Expects(w, k).service, Expects(w, k).id)
      <==> Expects(w, k) in w.settled || Expects(w, k) in w.lost
  {
    forall b | b in w.acked && b.service == Expects(w, k).service && b.id == Expects(w, k).id
      ensures b == Expects(w, k) && (b in w.settled || b in w.lost)
    {
      EarlierIsRecorded(w, k, b);
    }
  }

  /** In any interleaving a service acknowledges a row that it has acknowledged before exactly when the earlier
      acknowledgement was acted on or lost; and Transactions, asked from a snapshot that is current, exactly when
      it was lost. */
  lemma AcknowledgedAgainIff(w: World, k: nat)
    requires Reachable(w) && Can(w, k, Acknowledge)
    ensures var x := w.workers[k]; var h := x.rows[0];
      && (AcknowledgedBefore(w, x.service, h.id) <==> Expects(w, k) in w.settled || Expects(w, k) in w.lost)
      && h.id < |w.versions|
      && (x.service.Transactions? && h.version == w.versions[h.id] ==>
            (AcknowledgedBefore(w, x.service, h.id) <==> Expects(w, k) in w.lost))
  {
    I.ReachableOk(w);
    ReachableMovedOn(w);
    assert I.WorkerOk(w, w.workers[k]);
    AcknowledgedBeforeIff(w, k);
    if w.workers[k].service.Transactions? && Expects(w, k) in w.settled {
      SettledMeansStale(w, k);
    }
  }
}
