/** One run of a sender with nobody else writing: each due row is offered to its external service once. */
module Sending {
  import opened Rows
  import opened Manager
  import opened Lifecycle

  /** What becomes of one row: its lock is seen taken; the service acknowledges it; the gateway refuses the
      answer (its own error class, and the loop goes on); or another error ends the run. */
  datatype Reply = Busy | Accepted | Refused | Breaks

  type Replies = map<nat, Reply>

  function ReplyTo(replies: Replies, id: nat): Reply {
    if id in replies then replies[id] else Busy
  }

  /** The rows acknowledged among the first ones of the queue. */
  ghost function SentIds(ids: seq<nat>, replies: Replies): set<nat> {
    set id | id in ids && ReplyTo(replies, id).Accepted?
  }

  /** Whether the run gets past the whole queue. */
  predicate Completes(ids: seq<nat>, replies: Replies) {
    forall n | 0 <= n < |ids| :: !ReplyTo(replies, ids[n]).Breaks?
  }

  /** The run reaches exactly the first `reached` rows: the next one, if any, raises. */
  ghost predicate Reaches(ids: seq<nat>, replies: Replies, reached: nat) {
    && reached <= |ids|
    && Completes(ids[..reached], replies)
    && (reached < |ids| ==> ReplyTo(replies, ids[reached]).Breaks?)
  }

  function MarkAll(trxs: seq<Trx>, ids: set<nat>, status: Status): seq<Trx> {
    seq(|trxs|, i requires 0 <= i < |trxs| => if i in ids then trxs[i].(status := status) else trxs[i])
  }

  class SendTrxToExternalService {
    const db: Database
    const service: Service
    var counter: nat

    constructor (db: Database, service: Service)
      ensures this.db == db && this.service == service && counter == 0
    {
      this.db, this.service := db, service;
      counter := 0;
    }

    /** The answer to the sender's query: rows with a hash that are NEW; or rows with hash and uuid, of a platform
        wallet, that are CONFIRMED. */
    method GetData() returns (ids: seq<nat>)
      ensures forall j, k | 0 <= j < k < |ids| :: ids[j] != ids[k]
      ensures forall n | 0 <= n < |ids| :: ids[n] < |db.trxs|
      ensures service == Transactions ==> forall i | 0 <= i < |db.trxs| ::
        i in ids <==> db.trxs[i].hash != None && db.trxs[i].status == NEW
      ensures service == Exchanger ==> forall i | 0 <= i < |db.trxs| ::
        i in ids <==>
          && db.trxs[i].hash != None && db.trxs[i].uuid != None && db.trxs[i].status == CONFIRMED
          && db.trxs[i].walletId.Some? && db.trxs[i].walletId.value < |db.wallets|
          && db.wallets[db.trxs[i].walletId.value].isPlatform
      ensures Answers(ids, db.trxs, DueFor(db.wallets, service))
    {
      var wallets := db.wallets;
      var seen := (t: Trx) => t.hash != None;
      match service
      case Transactions =>
        var isNew := (t: Trx) => t.status == NEW;
        ids := GetAll(db.trxs, [seen, isNew]);
        forall i | 0 <= i < |db.trxs|
          ensures All([seen, isNew], db.trxs[i]) == DueFor(db.wallets, service)(db.trxs[i])
        {
          AllOfTwo(seen, isNew, db.trxs[i]);
        }
        AnswersBySameCondition(ids, db.trxs, t => All([seen, isNew], t), DueFor(db.wallets, service));
      case Exchanger =>
        var requested := (t: Trx) =>
          t.uuid != None && t.walletId.Some? && t.walletId.value < |wallets| && wallets[t.walletId.value].isPlatform;
        var isConfirmed := (t: Trx) => t.status == CONFIRMED;
        ids := GetAll(db.trxs, [seen, requested, isConfirmed]);
        forall i | 0 <= i < |db.trxs|
          ensures All([seen, requested, isConfirmed], db.trxs[i]) == DueFor(db.wallets, service)(db.trxs[i])
        {
          AllOfThree(seen, requested, isConfirmed, db.trxs[i]);
        }
        AnswersBySameCondition(ids, db.trxs, t => All([seen, requested, isConfirmed], t), DueFor(db.wallets, service));
      AnswersIff(ids, db.trxs, DueFor(db.wallets, service));
    }

    /** Writes the whole snapshot back with the new status, however old the snapshot is; the write is committed at
        once. It fails exactly when a unique column of the snapshot is taken by another row. */
    method SetStatus(id: nat, snapshot: Trx) returns (raised: bool)
      requires id < |db.trxs|
      modifies this`counter, db`trxs
      ensures raised <==> !Insertable(old(db.trxs)[..id] + old(db.trxs)[id + 1..], snapshot)
      ensures db.trxs == if raised then old(db.trxs) else old(db.trxs)[id := snapshot.(status := Target(service))]
      ensures counter == old(counter) + if raised then 0 else 1
    {
      var done := db.UpdateTrx(id, snapshot.(status := Target(service)));
      if done {
        counter := counter + 1;
      }
      raised := !done;
    }

    /** One turn of the loop. */
    method SendOne(id: nat, snapshot: Trx, reply: Reply) returns (raised: bool)
      requires Unique(db.trxs) && id < |db.trxs| && snapshot == db.trxs[id]
      modifies this`counter, db`trxs
      ensures raised <==> reply.Breaks?
      ensures db.trxs ==
        if reply.Accepted? then old(db.trxs)[id := old(db.trxs)[id].(status := Target(service))] else old(db.trxs)
      ensures counter == old(counter) + if reply.Accepted? then 1 else 0
    {
      raised := false;
      match reply
      case Busy =>
      case Refused =>
      case Breaks => raised := true;
      case Accepted =>
        SameKeysReplace(db.trxs, id, snapshot);
        raised := SetStatus(id, snapshot);
    }

    /** The loop over the snapshots. */
    method SendEach(ids: seq<nat>, snapshots: seq<Trx>, replies: Replies) returns (reached: nat)
      requires Unique(db.trxs) && |snapshots| == |ids|
      requires forall j, k | 0 <= j < k < |ids| :: ids[j] != ids[k]
      requires forall n | 0 <= n < |ids| :: ids[n] < |db.trxs| && snapshots[n] == db.trxs[ids[n]]
      modifies this`counter, db`trxs
      ensures Reaches(ids, replies, reached)
      ensures db.trxs == MarkAll(old(db.trxs), SentIds(ids[..reached], replies), Target(service))
      ensures counter == old(counter) + |SentIds(ids[..reached], replies)|
    {
      ghost var was := db.trxs;
      ghost var sent: set<nat> := {};
      assert MarkAll(was, sent, Target(service)) == was;
      reached := 0;
      while reached < |ids|
        invariant reached <= |ids| && Completes(ids[..reached], replies)
        invariant sent == SentIds(ids[..reached], replies)
        invariant db.trxs == MarkAll(was, sent, Target(service))
        invariant counter == old(counter) + |sent|
      {
        SentIdsGrow(ids, replies, reached);
        MarkOneMore(was, sent, ids[reached], Target(service));
        var raised := SendOne(ids[reached], snapshots[reached], ReplyTo(replies, ids[reached]));
        if raised {
          return;
        }
        reached := reached + 1;
        sent := SentIds(ids[..reached], replies);
      }
    }

    /** The body of the run. It marks exactly the acknowledged rows before the first error, which stays so even
        when the run then fails, because these saves are not part of the run's database transaction. */
    method Execute(replies: Replies) returns (ids: seq<nat>, reached: nat, saved: nat)
      requires Unique(db.trxs)
      modifies this`counter, db`trxs
      ensures Answers(ids, old(db.trxs), DueFor(db.wallets, service)) && Reaches(ids, replies, reached)
      ensures db.trxs == MarkAll(old(db.trxs), SentIds(ids[..reached], replies), Target(service))
      ensures saved == old(counter) + |SentIds(ids[..reached], replies)|
      ensures |db.trxs| == |old(db.trxs)|
      ensures forall i | 0 <= i < |db.trxs| :: var t := old(db.trxs)[i];
        db.trxs[i] ==
          if !(i in ids[..reached] && i in replies && replies[i] == Accepted) then t
          else if service == Transactions then t.(status := SENT) else t.(status := REPORTED)
      ensures forall n | 0 <= n < reached :: !(ids[n] in replies && replies[ids[n]] == Breaks)
      ensures reached < |ids| ==> ids[reached] in replies && replies[ids[reached]] == Breaks
    {
      ids := GetData();
      var table := db.trxs;
      var snapshots := seq(|ids|, n requires 0 <= n < |ids| && ids[n] < |table| => table[ids[n]]);
      reached := SendEach(ids, snapshots, replies);
      saved := counter;
      forall n | 0 <= n < reached ensures !(ids[n] in replies && replies[ids[n]] == Breaks) {
        assert ids[..reached][n] == ids[n];
      }
    }

    /** A run; the counter is zero before and after. */
    method Process(replies: Replies) returns (ids: seq<nat>, reached: nat, saved: nat)
      requires db.Valid() && counter == 0
      modifies this`counter, db`trxs
      ensures db.Valid() && counter == 0
      ensures Answers(ids, old(db.trxs), DueFor(db.wallets, service)) && Reaches(ids, replies, reached)
      ensures db.trxs == MarkAll(old(db.trxs), SentIds(ids[..reached], replies), Target(service))
      ensures saved == |SentIds(ids[..reached], replies)|
      ensures |db.trxs| == |old(db.trxs)|
      ensures forall i | 0 <= i < |db.trxs| :: var t := old(db.trxs)[i];
        db.trxs[i] ==
          if !(i in ids[..reached] && i in replies && replies[i] == Accepted) then t
          else if service == Transactions then t.(status := SENT) else t.(status := REPORTED)
    {
      ghost var was := Store(db.wallets, db.trxs);
      ids, reached, saved := Execute(replies);
      MarkKeepsStore(was, service, ids, reached, replies);
      counter := 0;
    }
  }

  // ---------- About the loop ----------

  lemma AnswersIff(ids: seq<nat>, table: seq<Trx>, condition: Trx -> bool)
    requires Answers(ids, table, condition)
    ensures forall i | 0 <= i < |table| :: i in ids <==> condition(table[i])
  {
  }

  lemma SentIdsGrow(ids: seq<nat>, replies: Replies, n: nat)
    requires n < |ids| && forall j, k | 0 <= j < k < |ids| :: ids[j] != ids[k]
    ensures ids[n] !in SentIds(ids[..n], replies)
    ensures SentIds(ids[..n + 1], replies) ==
      if ReplyTo(replies, ids[n]).Accepted? then SentIds(ids[..n], replies) + {ids[n]}
      else SentIds(ids[..n], replies)
    ensures |SentIds(ids[..n + 1], replies)| ==
      |SentIds(ids[..n], replies)| + if ReplyTo(replies, ids[n]).Accepted? then 1 else 0
    ensures Completes(ids[..n], replies) && !ReplyTo(replies, ids[n]).Breaks? ==> Completes(ids[..n + 1], replies)
  {
    assert ids[..n + 1] == ids[..n] + [ids[n]];
  }

  lemma MarkOneMore(trxs: seq<Trx>, ids: set<nat>, id: nat, status: Status)
    requires id < |trxs| && id !in ids && Unique(trxs)
    ensures var now := MarkAll(trxs, ids, status);
      now[id] == trxs[id] && Unique(now) && now[id := now[id].(status := status)] == MarkAll(trxs, ids + {id}, status)
  {
    SameKeysKeepUnique(trxs, MarkAll(trxs, ids, status));
  }

  lemma MarkKeepsStore(db: Store, service: Service, ids: seq<nat>, reached: nat, replies: Replies)
    requires StoreOk(db) && Answers(ids, db.trxs, DueFor(db.wallets, service)) && reached <= |ids|
    ensures StoreOk(Store(db.wallets, MarkAll(db.trxs, SentIds(ids[..reached], replies), Target(service))))
  {
    var marked := MarkAll(db.trxs, SentIds(ids[..reached], replies), Target(service));
    SameKeysKeepUnique(db.trxs, marked);
    forall i | 0 <= i < |marked| ensures RowOk(db.wallets, marked[i]) {
      assert RowOk(db.wallets, db.trxs[i]);
      if i in SentIds(ids[..reached], replies) {
        assert DueFor(db.wallets, service)(db.trxs[i]);
      }
    }
  }

  // ---------- What a run achieves ----------

  /** A run in which every row is acknowledged reaches them all and leaves no row due; a row refused, locked or
      not reached is exactly as it was, and due again. */
  lemma FullPassLeavesNothingDue(db: Store, service: Service, ids: seq<nat>, replies: Replies, reached: nat, i: nat)
    requires Answers(ids, db.trxs, DueFor(db.wallets, service)) && Reaches(ids, replies, reached) && i < |db.trxs|
    ensures
      var sent := SentIds(ids[..reached], replies);
      var after := MarkAll(db.trxs, sent, Target(service));
      && (Due(db.wallets, service, after[i]) <==> Due(db.wallets, service, db.trxs[i]) && i !in sent)
      && (i !in sent ==> after[i] == db.trxs[i])
      && ((forall n | 0 <= n < |ids| :: ReplyTo(replies, ids[n]).Accepted?) ==>
            reached == |ids| && !Due(db.wallets, service, after[i]))
  {
    if (forall n | 0 <= n < |ids| :: ReplyTo(replies, ids[n]).Accepted?) && Due(db.wallets, service, db.trxs[i]) {
      assert ids[..reached] == ids;
      assert DueFor(db.wallets, service)(db.trxs[i]);
      assert i in ids;
    }
  }

  function StepsFor(service: Service, ids: seq<nat>, replies: Replies): seq<Step> {
    if ids == [] then []
    else if ReplyTo(replies, ids[0]).Accepted? then [SendRow(service, ids[0])] + StepsFor(service, ids[1..], replies)
    else StepsFor(service, ids[1..], replies)
  }

  /** Each row of the queue once, and each of them due. */
  ghost predicate Queued(s: State, service: Service, ids: seq<nat>) {
    && (forall j, k | 0 <= j < k < |ids| :: ids[j] != ids[k])
    && (forall n | 0 <= n < |ids| :: ids[n] < |s.db.trxs| && Due(s.db.wallets, service, s.db.trxs[ids[n]]))
  }

  lemma QueuedAfterSend(s: State, service: Service, ids: seq<nat>)
    requires Queued(s, service, ids) && ids != []
    ensures Queued(Apply(s, SendRow(service, ids[0])), service, ids[1..])
  {
    var s' := Apply(s, SendRow(service, ids[0]));
    forall n | 0 <= n < |ids[1..]|
      ensures ids[1..][n] < |s'.db.trxs| && Due(s'.db.wallets, service, s'.db.trxs[ids[1..][n]]) {
      assert s'.db.trxs[ids[n + 1]] == s.db.trxs[ids[n + 1]];
    }
  }

  lemma MarkHeadAndRest(trxs: seq<Trx>, id: nat, ids: set<nat>, status: Status)
    requires id < |trxs|
    ensures MarkAll(trxs[id := trxs[id].(status := status)], ids, status) == MarkAll(trxs, {id} + ids, status)
  {
  }

  /** The run is the run of indivisible sends of its acknowledged rows. */
  lemma {:induction false} PassIsARun(s: State, service: Service, ids: seq<nat>, replies: Replies)
    requires Queued(s, service, ids)
    ensures Runs(s, StepsFor(service, ids, replies))
    ensures Final(s, StepsFor(service, ids, replies)).db
         == Store(s.db.wallets, MarkAll(s.db.trxs, SentIds(ids, replies), Target(service)))
    decreases |ids|
  {
    if ids == [] {
      assert MarkAll(s.db.trxs, SentIds(ids, replies), Target(service)) == s.db.trxs;
    } else {
      SplitSent(ids, replies);
      if ReplyTo(replies, ids[0]).Accepted? {
        var steps, rest := StepsFor(service, ids, replies), StepsFor(service, ids[1..], replies);
        assert steps[0] == SendRow(service, ids[0]) && steps[1..] == rest;
        QueuedAfterSend(s, service, ids);
        PassIsARun(Apply(s, steps[0]), service, ids[1..], replies);
        MarkHeadAndRest(s.db.trxs, ids[0], SentIds(ids[1..], replies), Target(service));
      } else {
        PassIsARun(s, service, ids[1..], replies);
        assert {} + SentIds(ids[1..], replies) == SentIds(ids[1..], replies);
      }
    }
  }

  lemma SplitSent(ids: seq<nat>, replies: Replies)
    requires ids != []
    ensures SentIds(ids, replies) ==
      (if ReplyTo(replies, ids[0]).Accepted? then {ids[0]} else {}) + SentIds(ids[1..], replies)
  {
    assert ids == [ids[0]] + ids[1..];
  }
}
