/** Interleaved runs whose row writes are not stale are runs of the machine of indivisible steps, which says what may
    happen to rows at all; and exactly when a row is put back. That undisturbed runs compute what the operations of
    the service compute, on the same requests and feeds, is shown in `Atomicity`. */
module Refinement {
  import opened Rows
  import L = Lifecycle
  import opened World
  import I = Interleaving

  /** What the machine of indivisible steps sees of a world: the store and the acknowledgements acted on. */
  ghost function Seen(w: World): L.State {
    L.State(w.db, w.settled)
  }

  /** No other write fell between the read of a row and its write-back. */
  ghost predicate Fresh(w: World, k: nat, m: Move)
    requires Can(w, k, m)
  {
    var x := w.workers[k];
    && (m.Save? ==> x.rows[0].version == w.versions[x.rows[0].id])
    && (m.ConfirmCommit? ==> forall i | i in x.read && i < |w.versions| :: x.read[i].version == w.versions[i])
  }

  /** The indivisible step, if any, that a move amounts to: a row's read is moved to its write, and a batch
      to its commit. */
  ghost function StepOf(w: World, k: nat, m: Move): seq<L.Step>
    requires Can(w, k, m)
  {
    var x := w.workers[k];
    match m
    case StartCreate => [L.AddWallet(x.wallet)]
    case StopWrite => [L.StopWallet(x.wid)]
    case Create(row) => [L.InsertRow(row)]
    case ConfirmCommit => [L.ConfirmRows(x.read.Keys)]
    case Save => [L.SendRow(x.service, x.rows[0].id)]
    case Finish =>
      if x.Ingesting? then [L.IngestRows(x.buffer)]
      else if x.Filling? then [L.FillRows(x.deposits)]
      else []
    case _ => []
  }

  ghost predicate Simulates(s: L.State, steps: seq<L.Step>, s': L.State) {
    match |steps|
    case 0 => s' == s
    case 1 => L.Enabled(s, steps[0]) && L.Apply(s, steps[0]) == s'
    case _ => false
  }

  // ---------- One move ----------

  lemma WalletMove(w: World, k: nat, m: Move)
    requires I.WorkersOk(w) && Can(w, k, m) && (m.StartCreate? || m.StopWrite? || m.Create?)
    ensures Simulates(Seen(w), StepOf(w, k, m), Seen(Do(w, k, m)))
  {
    assert I.WorkerOk(w, w.workers[k]);
  }

  lemma CommitMove(w: World, k: nat)
    requires I.WorkersOk(w) && Can(w, k, ConfirmCommit) && Fresh(w, k, ConfirmCommit)
    ensures Simulates(Seen(w), StepOf(w, k, ConfirmCommit), Seen(Do(w, k, ConfirmCommit)))
  {
    var x := w.workers[k];
    assert I.WorkerOk(w, x);
    assert WriteRead(w.db.trxs, x.read) == L.ConfirmAll(w.db.trxs, x.read.Keys);
  }

  lemma SaveMove(w: World, k: nat)
    requires I.WorkersOk(w) && Can(w, k, Save) && Fresh(w, k, Save)
    ensures Simulates(Seen(w), StepOf(w, k, Save), Seen(Do(w, k, Save)))
  {
    assert I.WorkerOk(w, w.workers[k]);
  }

  lemma FinishMove(w: World, k: nat)
    requires I.WorkersOk(w) && Can(w, k, Finish)
    ensures Simulates(Seen(w), StepOf(w, k, Finish), Seen(Do(w, k, Finish)))
  {
    var x := w.workers[k];
    assert I.WorkerOk(w, x);
    if x.Filling? {
      assert WriteFills(w.db.trxs, x.bases, x.deposits) == L.FillAll(w.db.trxs, x.deposits);
    }
  }

  lemma MoveRefines(w: World, k: nat, m: Move)
    requires I.WorkersOk(w) && Can(w, k, m) && Fresh(w, k, m)
    ensures Simulates(Seen(w), StepOf(w, k, m), Seen(Do(w, k, m)))
  {
    if m.ConfirmCommit? {
      CommitMove(w, k);
    } else if m.Save? {
      SaveMove(w, k);
    } else if m.Finish? {
      FinishMove(w, k);
    } else if I.Writes(m) {
      WalletMove(w, k, m);
    } else {
      I.OtherMovesKeepStore(w, k, m);
    }
  }

  // ---------- Whole runs ----------

  ghost predicate AllFresh(w: World, turns: seq<Turn>)
    requires Plays(w, turns)
    decreases |turns|
  {
    turns == [] ||
    (Fresh(w, turns[0].worker, turns[0].move) && AllFresh(Do(w, turns[0].worker, turns[0].move), turns[1..]))
  }

  ghost function StepsOf(w: World, turns: seq<Turn>): seq<L.Step>
    requires Plays(w, turns)
    decreases |turns|
  {
    if turns == [] then []
    else StepOf(w, turns[0].worker, turns[0].move) + StepsOf(Do(w, turns[0].worker, turns[0].move), turns[1..])
  }

  /** An interleaved run in which no write-back of a row is stale reaches the store, and acts on the acknowledgements,
      of a run of indivisible steps, each at the write of the operation it stands for. */
  lemma {:induction false} RunRefines(w: World, turns: seq<Turn>)
    requires I.Inv(w) && Plays(w, turns) && AllFresh(w, turns)
    ensures L.Runs(Seen(w), StepsOf(w, turns))
    ensures L.Final(Seen(w), StepsOf(w, turns)) == Seen(After(w, turns))
    decreases |turns|
  {
    if turns != [] {
      var k, m := turns[0].worker, turns[0].move;
      var w' := Do(w, k, m);
      MoveRefines(w, k, m);
      I.MoveKeepsInv(w, k, m);
      RunRefines(w', turns[1..]);
      var steps, rest := StepsOf(w, turns), StepsOf(w', turns[1..]);
      if StepOf(w, k, m) == [] {
        assert steps == rest;
      } else {
        assert steps[0] == StepOf(w, k, m)[0] && steps[1..] == rest;
      }
    }
  }

  /** Without stale write-backs every interleaving, for any number of workers, has the guarantees of the
      indivisible machine: ranks never drop, a REPORTED row never changes, each service's acknowledgement of a
      row is acted on at most once, and an acknowledgement on record names a row that has moved on. */
  lemma FreshRunsAreSafe(n: nat, reading: L.Reading, turns: seq<Turn>, more: seq<Turn>)
    requires Plays(Start(n, reading), turns) && AllFresh(Start(n, reading), turns)
    requires Plays(After(Start(n, reading), turns), more) && AllFresh(After(Start(n, reading), turns), more)
    ensures var w := After(Start(n, reading), turns); var w' := After(w, more);
      && L.Advances(w.db.trxs, w'.db.trxs)
      && L.AcksOk(Seen(w'))
  {
    var w := After(Start(n, reading), turns);
    I.StartOk(n, reading);
    I.RunKeepsInv(Start(n, reading), turns);
    RunRefines(Start(n, reading), turns);
    L.RunKeepsInv(L.Empty, StepsOf(Start(n, reading), turns));
    RunRefines(w, more);
    L.RunKeepsInv(Seen(w), StepsOf(w, more));
    L.RunAdvances(Seen(w), StepsOf(w, more));
  }

  /** If moreover nothing was lost to an error and nobody is holding an answer, the two logs agree: every
      acknowledgement received was acted on, so each service acknowledged each row at most once. */
  lemma FreshLogsAgree(n: nat, reading: L.Reading, turns: seq<Turn>)
    requires Plays(Start(n, reading), turns) && AllFresh(Start(n, reading), turns)
    ensures L.Runs(L.Empty, StepsOf(Start(n, reading), turns))
    ensures var w := After(Start(n, reading), turns);
      w.lost == multiset{} && I.InHandOfAll(w.workers) == multiset{} ==>
        && w.acked == L.Final(L.Empty, StepsOf(Start(n, reading), turns)).acks
        && (forall a, b | a in w.acked && b in w.acked :: a.service == b.service && a.id == b.id ==> a == b)
        && (forall a | a in w.acked :: w.acked[a] == 1)
  {
    I.StartOk(n, reading);
    I.RunKeepsInv(Start(n, reading), turns);
    RunRefines(Start(n, reading), turns);
    L.AcknowledgedAtMostOnce(StepsOf(Start(n, reading), turns));
  }

  // ---------- When a write-back does harm ----------

  ghost predicate DropsRank(w: World, w': World) {
    exists i :: 0 <= i < |w.db.trxs| && i < |w'.db.trxs|
             && L.Rank(w'.db.trxs[i].status) < L.Rank(w.db.trxs[i].status)
  }

  /** What to look at in the stored rows before a write-back. */
  ghost predicate Overtaken(w: World, k: nat, m: Move)
    requires Can(w, k, m)
  {
    var x := w.workers[k];
    || (m.Save? && L.Rank(w.db.trxs[x.rows[0].id].status) > L.Rank(L.Target(x.service)))
    || (m.ConfirmCommit? && ReportedMeanwhile(w, x))
  }

  ghost predicate ReportedMeanwhile(w: World, x: Worker)
    requires x.Confirming?
  {
    exists i :: i in x.read && i < |w.db.trxs| && w.db.trxs[i].status == REPORTED
  }

  lemma Dropped(w: World, w': World, i: nat)
    requires i < |w.db.trxs| && i < |w'.db.trxs|
    requires L.Rank(w'.db.trxs[i].status) < L.Rank(w.db.trxs[i].status)
    ensures DropsRank(w, w')
  {
  }

  lemma SaveWrites(w: World, k: nat, i: nat)
    requires I.WorkersOk(w) && Can(w, k, Save) && i < |w.db.trxs|
    ensures var x, w' := w.workers[k], Do(w, k, Save);
      && |w'.db.trxs| == |w.db.trxs|
      && w'.db.trxs[i].status == (if i == x.rows[0].id then L.Target(x.service) else w.db.trxs[i].status)
    ensures Overtaken(w, k, Save) ==> !Fresh(w, k, Save)
  {
    assert I.WorkerOk(w, w.workers[k]);
  }

  lemma SaveDrops(w: World, k: nat)
    requires I.WorkersOk(w) && Can(w, k, Save) && Overtaken(w, k, Save)
    ensures DropsRank(w, Do(w, k, Save)) && !Fresh(w, k, Save)
  {
    var id := w.workers[k].rows[0].id;
    SaveWrites(w, k, id);
    Dropped(w, Do(w, k, Save), id);
  }

  lemma SaveDropsOnlyOvertaken(w: World, k: nat)
    requires I.WorkersOk(w) && Can(w, k, Save) && DropsRank(w, Do(w, k, Save))
    ensures Overtaken(w, k, Save)
  {
    var w' := Do(w, k, Save);
    var i :| 0 <= i < |w.db.trxs| && i < |w'.db.trxs|
          && L.Rank(w'.db.trxs[i].status) < L.Rank(w.db.trxs[i].status);
    SaveWrites(w, k, i);
  }

  lemma CommitWrites(w: World, k: nat, i: nat)
    requires I.WorkersOk(w) && Can(w, k, ConfirmCommit) && i < |w.db.trxs|
    ensures var x, w' := w.workers[k], Do(w, k, ConfirmCommit);
      && |w'.db.trxs| == |w.db.trxs|
      && w'.db.trxs[i].status == (if i in x.read then CONFIRMED else w.db.trxs[i].status)
  {
    assert I.WorkerOk(w, w.workers[k]);
  }

  lemma ReportedIsStale(w: World, k: nat)
    requires I.WorkersOk(w) && Can(w, k, ConfirmCommit) && ReportedMeanwhile(w, w.workers[k])
    ensures !Fresh(w, k, ConfirmCommit)
  {
    var x := w.workers[k];
    assert I.WorkerOk(w, x);
    var i :| i in x.read && i < |w.db.trxs| && w.db.trxs[i].status == REPORTED;
    assert x.read[i].version != w.versions[i];
  }

  lemma CommitDrops(w: World, k: nat, i: nat)
    requires I.WorkersOk(w) && Can(w, k, ConfirmCommit)
    requires i in w.workers[k].read && i < |w.db.trxs| && w.db.trxs[i].status == REPORTED
    ensures DropsRank(w, Do(w, k, ConfirmCommit))
  {
    CommitWrites(w, k, i);
    Dropped(w, Do(w, k, ConfirmCommit), i);
  }

  lemma CommitDropsOnlyReported(w: World, k: nat)
    requires I.WorkersOk(w) && StoreOk(w.db) && Can(w, k, ConfirmCommit) && DropsRank(w, Do(w, k, ConfirmCommit))
    ensures ReportedMeanwhile(w, w.workers[k])
  {
    var w' := Do(w, k, ConfirmCommit);
    var i :| 0 <= i < |w.db.trxs| && i < |w'.db.trxs|
          && L.Rank(w'.db.trxs[i].status) < L.Rank(w.db.trxs[i].status);
    CommitWrites(w, k, i);
  }

  lemma OtherMovesDropNothing(w: World, k: nat, m: Move)
    requires I.WorkersOk(w) && StoreOk(w.db) && Can(w, k, m) && !m.Save? && !m.ConfirmCommit?
    ensures !DropsRank(w, Do(w, k, m))
  {
    MoveRefines(w, k, m);
    if |StepOf(w, k, m)| == 1 {
      L.StepAdvances(Seen(w), StepOf(w, k, m)[0]);
    }
  }

  /** In any interleaving a move lowers the rank of a row exactly when it is a sender's save of a row that has
      overtaken the sender, or a handler's commit of a row that has been reported meanwhile; then its snapshot
      is stale. */
  lemma RankDropsIffOvertaken(w: World, k: nat, m: Move)
    requires Reachable(w) && Can(w, k, m)
    ensures DropsRank(w, Do(w, k, m)) <==> Overtaken(w, k, m)
    ensures Overtaken(w, k, m) ==> !Fresh(w, k, m)
  {
    I.ReachableOk(w);
    if m.Save? {
      if Overtaken(w, k, m) {
        SaveDrops(w, k);
      } else if DropsRank(w, Do(w, k, m)) {
        SaveDropsOnlyOvertaken(w, k);
      }
    } else if m.ConfirmCommit? {
      if ReportedMeanwhile(w, w.workers[k]) {
        var i :| i in w.workers[k].read && i < |w.db.trxs| && w.db.trxs[i].status == REPORTED;
        CommitDrops(w, k, i);
        ReportedIsStale(w, k);
      } else if DropsRank(w, Do(w, k, m)) {
        CommitDropsOnlyReported(w, k);
      }
    } else {
      OtherMovesDropNothing(w, k, m);
    }
  }
}
