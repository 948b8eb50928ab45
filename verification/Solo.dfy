/** Done by one worker while the others rest, every operation of the sequential code is a run of the interleaved world
    that takes nothing out: every row, hash, wallet and element gets its turn. */
module Solo {
  import opened Rows
  import opened Feeds
  import opened Keys
  import opened Lifecycle
  import opened World
  import F = Filling
  import Handlers
  import Ingestion
  import Registry
  import S = Sending

  /** Worker `k` alone leads from one world to the other by these turns. */
  ghost predicate Gets(w: World, k: nat, turns: seq<Turn>, v: World) {
    && (forall n | 0 <= n < |turns| :: turns[n].worker == k)
    && Plays(w, turns) && After(w, turns) == v
  }

  ghost predicate GetsTo(w: World, k: nat, v: World) {
    exists turns :: Gets(w, k, turns, v)
  }

  lemma Stays(w: World, k: nat)
    ensures GetsTo(w, k, w)
  {
    assert Gets(w, k, [], w);
  }

  /** One more move. */
  lemma Then(w: World, k: nat, u: World, m: Move, v: World)
    requires GetsTo(w, k, u) && Can(u, k, m) && Do(u, k, m) == v
    ensures GetsTo(w, k, v)
  {
    var turns :| Gets(w, k, turns, u);
    PlaysThen(w, turns, k, m);
    assert Gets(w, k, turns + [Turn(k, m)], v);
  }

  // ---------- A sender ----------

  /** A world in which worker `k` stands like this and some rows have been written. */
  predicate Like(w: World, v: World, k: nat, x: Worker, trxs: seq<Trx>) {
    && k < |w.workers| && v.workers == w.workers[k := x]
    && v.db == Store(w.db.wallets, trxs) && |v.versions| == |trxs| && v.reading == w.reading
  }

  /** The head of the queue is locked by somebody else. */
  lemma PassesLocked(w: World, k: nat, u: World, v: World, x: Worker)
    requires GetsTo(w, k, u) && Like(w, u, k, x, u.db.trxs) && AtPhase(x, Looking) && KeyOf(x) in u.locks
    requires v == Put(u, k, Popped(x, WasLocked))
    ensures GetsTo(w, k, v)
  {
    Then(w, k, u, SeeLocked, v);
  }

  function Locked(u: World, k: nat, x: Worker): World
    requires k < |u.workers| && Monitor(x) && QueueLength(x) > 0
  {
    Put(u.(locks := u.locks[KeyOf(x) := k]), k, InPhase(x, Holding))
  }

  /** The head of the queue is free and is locked. */
  lemma Locks(w: World, k: nat, u: World, x: Worker)
    requires GetsTo(w, k, u) && Like(w, u, k, x, u.db.trxs) && AtPhase(x, Looking) && KeyOf(x) !in u.locks
    ensures GetsTo(w, k, Locked(u, k, x))
  {
    var seen := Put(u, k, InPhase(x, SawFree));
    Then(w, k, u, SeeFree, seen);
    Then(w, k, seen, Acquire, Locked(u, k, x));
  }

  lemma UnlockedAgain(locks: map<Key, nat>, key: Key, k: nat)
    requires key !in locks
    ensures locks[key := k] - {key} == locks
  {
  }

  lemma IsRefused(w: World, k: nat, u: World, x: Worker)
    requires GetsTo(w, k, u) && Like(w, u, k, x, u.db.trxs) && x.Sending?
    requires AtPhase(x, Looking) && KeyOf(x) !in u.locks
    ensures GetsTo(w, k, Put(u, k, Popped(x, WasRejected)))
  {
    Locks(w, k, u, x);
    UnlockedAgain(u.locks, KeyOf(x), k);
    Then(w, k, Locked(u, k, x), Reject, Put(u, k, Popped(x, WasRejected)));
  }

  function AckFor(x: Worker): multiset<Ack>
    requires x.Sending? && x.rows != []
  {
    multiset{AckOf(x.service, x.rows[0].id, x.rows[0].row)}
  }

  function AnsweredAt(u: World, k: nat, x: Worker): World
    requires k < |u.workers| && x.Sending? && x.rows != []
  {
    var held := Locked(u, k, x);
    Put(held.(acked := u.acked + AckFor(x)), k, InPhase(x, Answered))
  }

  lemma IsAnswered(w: World, k: nat, u: World, x: Worker)
    requires GetsTo(w, k, u) && Like(w, u, k, x, u.db.trxs) && x.Sending? && AtPhase(x, Looking)
    requires KeyOf(x) !in u.locks
    ensures GetsTo(w, k, AnsweredAt(u, k, x))
  {
    Locks(w, k, u, x);
    Then(w, k, Locked(u, k, x), Acknowledge, AnsweredAt(u, k, x));
  }

  function SavedAt(u: World, k: nat, x: Worker): World
    requires k < |u.workers| && x.Sending? && x.rows != [] && x.rows[0].id < |u.db.trxs| == |u.versions|
  {
    var answered := AnsweredAt(u, k, x);
    var row := x.rows[0].row.(status := Target(x.service));
    Put(SaveRow(answered, x.rows[0], row).(settled := u.settled + AckFor(x)), k, InPhase(x, Saved))
  }

  lemma IsWritten(w: World, k: nat, u: World, x: Worker)
    requires GetsTo(w, k, u) && Like(w, u, k, x, u.db.trxs) && x.Sending? && AtPhase(x, Looking)
    requires KeyOf(x) !in u.locks && x.rows[0].id < |u.db.trxs|
    ensures GetsTo(w, k, SavedAt(u, k, x))
  {
    IsAnswered(w, k, u, x);
    Then(w, k, AnsweredAt(u, k, x), Save, SavedAt(u, k, x));
  }

  /** What a sender leaves behind when the head of its queue is acknowledged and saved. */
  function SavedRow(u: World, k: nat, x: Worker): World
    requires k < |u.workers| && x.Sending? && x.rows != [] && x.rows[0].id < |u.db.trxs| == |u.versions|
  {
    var row := x.rows[0].row.(status := Target(x.service));
    Put(SaveRow(u, x.rows[0], row).(acked := u.acked + AckFor(x), settled := u.settled + AckFor(x)),
        k, Popped(x, WasSaved))
  }

  lemma ReleasesLast(u: World, k: nat, x: Worker)
    requires k < |u.workers| && x.Sending? && x.rows != [] && x.rows[0].id < |u.db.trxs| == |u.versions|
    requires KeyOf(x) !in u.locks
    ensures Can(SavedAt(u, k, x), k, Release) && Do(SavedAt(u, k, x), k, Release) == SavedRow(u, k, x)
  {
    UnlockedAgain(u.locks, KeyOf(x), k);
  }

  lemma IsSaved(w: World, k: nat, u: World, x: Worker)
    requires GetsTo(w, k, u) && Like(w, u, k, x, u.db.trxs) && x.Sending? && AtPhase(x, Looking)
    requires KeyOf(x) !in u.locks && x.rows[0].id < |u.db.trxs|
    ensures GetsTo(w, k, SavedRow(u, k, x))
  {
    IsWritten(w, k, u, x);
    ReleasesLast(u, k, x);
    Then(w, k, SavedAt(u, k, x), Release, SavedRow(u, k, x));
  }

  /** What others hold fits the replies: exactly the rows seen locked are locked. */
  predicate LocksFit(locks: map<Key, nat>, ids: seq<nat>, replies: S.Replies) {
    forall n | 0 <= n < |ids| :: Key(TransactionModel, ids[n]) in locks <==> S.ReplyTo(replies, ids[n]).Busy?
  }

  /** The sender has dealt with the first `n` rows as the sequential pass does. */
  ghost predicate PassAt(w: World, k: nat, service: Service, ids: seq<nat>, replies: S.Replies, n: nat, v: World)
    requires |w.versions| == |w.db.trxs| && n <= |ids| && forall j | 0 <= j < |ids| :: ids[j] < |w.db.trxs|
  {
    && k < |v.workers| && v.workers[k].Sending?
    && v.workers[k].service == service && v.workers[k].phase == Looking && v.workers[k].rows == HeldRows(w, ids)[n..]
    && Like(w, v, k, v.workers[k], S.MarkAll(w.db.trxs, S.SentIds(ids[..n], replies), Target(service)))
    && v.locks == w.locks
  }

  /** The world once the head of the queue is dealt with. */
  function RowDone(u: World, k: nat, x: Worker, reply: S.Reply): World
    requires k < |u.workers| && x.Sending? && x.rows != [] && x.rows[0].id < |u.db.trxs| == |u.versions|
  {
    match reply
    case Accepted => SavedRow(u, k, x)
    case Refused => Put(u, k, Popped(x, WasRejected))
    case _ => Put(u, k, Popped(x, WasLocked))
  }

  lemma RowRuns(w: World, k: nat, u: World, x: Worker, reply: S.Reply)
    requires GetsTo(w, k, u) && Like(w, u, k, x, u.db.trxs) && x.Sending? && AtPhase(x, Looking)
    requires x.rows[0].id < |u.db.trxs| && !reply.Breaks? && (KeyOf(x) in u.locks <==> reply.Busy?)
    ensures GetsTo(w, k, RowDone(u, k, x, reply))
  {
    match reply
    case Busy => PassesLocked(w, k, u, RowDone(u, k, x, reply), x);
    case Refused => IsRefused(w, k, u, x);
    case Accepted => IsSaved(w, k, u, x);
  }

  lemma HeadOfPass(w: World, k: nat, service: Service, ids: seq<nat>, replies: S.Replies, n: nat, u: World)
    requires |w.versions| == |w.db.trxs| && n < |ids| && forall j | 0 <= j < |ids| :: ids[j] < |w.db.trxs|
    requires PassAt(w, k, service, ids, replies, n, u)
    ensures var x := u.workers[k];
      && x.rows != [] && x.rows[0] == Held(ids[n], w.db.trxs[ids[n]], w.versions[ids[n]])
      && x.rows[1..] == HeldRows(w, ids)[n + 1..] && |u.db.trxs| == |w.db.trxs|
  {
    assert u.workers[k].rows[0] == HeldRows(w, ids)[n];
  }

  lemma PassGoesOn(w: World, k: nat, service: Service, ids: seq<nat>, replies: S.Replies, n: nat, u: World, v: World)
    requires Unique(w.db.trxs) && |w.versions| == |w.db.trxs| && n < |ids|
    requires forall i, j | 0 <= i < j < |ids| :: ids[i] != ids[j]
    requires forall j | 0 <= j < |ids| :: ids[j] < |w.db.trxs|
    requires PassAt(w, k, service, ids, replies, n, u)
    requires u.workers[k].rows != [] && u.workers[k].rows[0].id < |u.db.trxs|
    requires v == RowDone(u, k, u.workers[k], S.ReplyTo(replies, ids[n]))
    ensures PassAt(w, k, service, ids, replies, n + 1, v)
  {
    HeadOfPass(w, k, service, ids, replies, n, u);
    S.SentIdsGrow(ids, replies, n);
    S.MarkOneMore(w.db.trxs, S.SentIds(ids[..n], replies), ids[n], Target(service));
  }

  lemma PassNext(w: World, k: nat, service: Service, ids: seq<nat>, replies: S.Replies, n: nat, u: World)
    returns (v: World)
    requires Unique(w.db.trxs) && |w.versions| == |w.db.trxs| && n < |ids|
    requires forall i, j | 0 <= i < j < |ids| :: ids[i] != ids[j]
    requires forall j | 0 <= j < |ids| :: ids[j] < |w.db.trxs|
    requires Key(TransactionModel, ids[n]) in w.locks <==> S.ReplyTo(replies, ids[n]).Busy?
    requires !S.ReplyTo(replies, ids[n]).Breaks?
    requires PassAt(w, k, service, ids, replies, n, u) && GetsTo(w, k, u)
    ensures PassAt(w, k, service, ids, replies, n + 1, v) && GetsTo(w, k, v)
  {
    HeadOfPass(w, k, service, ids, replies, n, u);
    v := RowDone(u, k, u.workers[k], S.ReplyTo(replies, ids[n]));
    RowRuns(w, k, u, u.workers[k], S.ReplyTo(replies, ids[n]));
    PassGoesOn(w, k, service, ids, replies, n, u, v);
  }

  lemma PassBegins(w: World, k: nat, service: Service, ids: seq<nat>, replies: S.Replies)
    returns (v: World)
    requires |w.versions| == |w.db.trxs| && k < |w.workers| && w.workers[k].Idle?
    requires Answers(ids, w.db.trxs, DueFor(w.db.wallets, service))
    ensures PassAt(w, k, service, ids, replies, 0, v) && GetsTo(w, k, v)
  {
    var rows := HeldRows(w, ids);
    v := Put(w, k, Sending(service, rows, Looking, Pass(rows, [])));
    Stays(w, k);
    Then(w, k, w, Snapshot(service, ids), v);
    assert S.MarkAll(w.db.trxs, {}, Target(service)) == w.db.trxs;
  }

  lemma FitsPrefix(locks: map<Key, nat>, ids: seq<nat>, replies: S.Replies, n: nat)
    requires n < |ids| && LocksFit(locks, ids[..n + 1], replies) && S.Completes(ids[..n + 1], replies)
    ensures LocksFit(locks, ids[..n], replies) && S.Completes(ids[..n], replies)
    ensures Key(TransactionModel, ids[n]) in locks <==> S.ReplyTo(replies, ids[n]).Busy?
    ensures !S.ReplyTo(replies, ids[n]).Breaks?
  {
    assert ids[..n + 1] == ids[..n] + [ids[n]];
    assert ids[..n + 1][n] == ids[n];
  }

  lemma {:induction false} PassUpTo(w: World, k: nat, service: Service, ids: seq<nat>, replies: S.Replies, n: nat)
    returns (v: World)
    requires Unique(w.db.trxs) && |w.versions| == |w.db.trxs| && k < |w.workers| && w.workers[k].Idle?
    requires Answers(ids, w.db.trxs, DueFor(w.db.wallets, service)) && n <= |ids|
    requires LocksFit(w.locks, ids[..n], replies) && S.Completes(ids[..n], replies)
    ensures PassAt(w, k, service, ids, replies, n, v) && GetsTo(w, k, v)
  {
    if n == 0 {
      v := PassBegins(w, k, service, ids, replies);
    } else {
      FitsPrefix(w.locks, ids, replies, n - 1);
      var u := PassUpTo(w, k, service, ids, replies, n - 1);
      v := PassNext(w, k, service, ids, replies, n - 1, u);
    }
  }

  /** A pass of the sequential sender -- up to the first error, rows refused and rows locked by others included -- is a
      run of the world: worker `k` alone gets from idle to idle, and the table is what the pass leaves. */
  lemma SenderRuns(w: World, k: nat, service: Service, ids: seq<nat>, replies: S.Replies, reached: nat)
    returns (v: World)
    requires Unique(w.db.trxs) && |w.versions| == |w.db.trxs| && k < |w.workers| && w.workers[k].Idle?
    requires Answers(ids, w.db.trxs, DueFor(w.db.wallets, service))
    requires S.Reaches(ids, replies, reached) && LocksFit(w.locks, ids[..reached], replies)
    ensures GetsTo(w, k, v) && v.workers == w.workers
    ensures v.db == Store(w.db.wallets, S.MarkAll(w.db.trxs, S.SentIds(ids[..reached], replies), Target(service)))
  {
    var u := PassUpTo(w, k, service, ids, replies, reached);
    v := Put(u, k, Idle);
    assert w.workers[k := Idle] == w.workers;
    Then(w, k, u, if reached == |ids| then Finish else Abort, v);
  }

  /** A sender that nobody disturbs and that is always acknowledged saves every row it took. */
  lemma SenderSavesAll(w: World, k: nat, service: Service, ids: seq<nat>)
    returns (v: World)
    requires Unique(w.db.trxs) && |w.versions| == |w.db.trxs| && k < |w.workers| && w.workers[k].Idle?
    requires Answers(ids, w.db.trxs, DueFor(w.db.wallets, service))
    requires forall n | 0 <= n < |ids| :: Key(TransactionModel, ids[n]) !in w.locks
    ensures GetsTo(w, k, v) && v.workers == w.workers && |v.db.trxs| == |w.db.trxs|
    ensures forall i | 0 <= i < |w.db.trxs| && Due(w.db.wallets, service, w.db.trxs[i]) ::
      v.db.trxs[i] == w.db.trxs[i].(status := if service == Transactions then SENT else REPORTED)
    ensures forall i | 0 <= i < |w.db.trxs| && !Due(w.db.wallets, service, w.db.trxs[i]) ::
      v.db.trxs[i] == w.db.trxs[i]
  {
    var replies: S.Replies := map id | id in ids :: S.Accepted;
    assert ids[..|ids|] == ids;
    v := SenderRuns(w, k, service, ids, replies, |ids|);
    forall i | 0 <= i < |w.db.trxs| ensures i in ids <==> Due(w.db.wallets, service, w.db.trxs[i]) {
      S.AnswersIff(ids, w.db.trxs, DueFor(w.db.wallets, service));
    }
  }

  // ---------- A confirming handler ----------

  /** The handler has looked for the first `n` hashes. */
  ghost predicate BatchAt(w: World, k: nat, hashes: seq<string>, n: nat, v: World)
    requires |w.versions| == |w.db.trxs| && n <= |hashes| && k < |w.workers|
  {
    && |v.workers| == |w.workers| && v == Put(w, k, v.workers[k])
    && v.workers[k].Confirming? && v.workers[k].hashes == hashes[n..]
    && v.workers[k].read.Keys == Handlers.HitIds(w.db.trxs, hashes[..n])
    && forall i | i in v.workers[k].read :: v.workers[k].read[i] == Held(i, w.db.trxs[i], w.versions[i])
  }

  lemma NothingFound(w: World, k: nat, hashes: seq<string>, n: nat, u: World)
    requires Unique(w.db.trxs) && |w.versions| == |w.db.trxs| && n < |hashes| && k < |w.workers|
    requires BatchAt(w, k, hashes, n, u) && !Handlers.Hit(w.db.trxs, hashes[n])
    ensures Can(u, k, ConfirmRead(None)) && |Do(u, k, ConfirmRead(None)).workers| == |w.workers|
    ensures BatchAt(w, k, hashes, n + 1, Do(u, k, ConfirmRead(None)))
  {
    assert hashes[..n + 1] == hashes[..n] + [hashes[n]] && hashes[n..][1..] == hashes[n + 1..];
    Handlers.HitIdsGrow(w.db.trxs, hashes[..n], hashes[n]);
  }

  lemma CanFind(w: World, k: nat, hashes: seq<string>, n: nat, u: World, i: nat)
    requires |w.versions| == |w.db.trxs| && n < |hashes| && k < |w.workers| && BatchAt(w, k, hashes, n, u)
    requires i < |w.db.trxs| && w.db.trxs[i].hash == Some(hashes[n]) && w.db.trxs[i].status != REPORTED
    ensures Can(u, k, ConfirmRead(Some(i)))
  {
  }

  lemma RowFound(w: World, k: nat, hashes: seq<string>, n: nat, u: World, i: nat)
    requires Unique(w.db.trxs) && |w.versions| == |w.db.trxs| && n < |hashes| && k < |w.workers|
    requires BatchAt(w, k, hashes, n, u) && Can(u, k, ConfirmRead(Some(i)))
    requires i < |w.db.trxs| && w.db.trxs[i].hash == Some(hashes[n]) && w.db.trxs[i].status != REPORTED
    ensures |Do(u, k, ConfirmRead(Some(i))).workers| == |w.workers|
    ensures BatchAt(w, k, hashes, n + 1, Do(u, k, ConfirmRead(Some(i))))
  {
    assert hashes[..n + 1] == hashes[..n] + [hashes[n]] && hashes[n..][1..] == hashes[n + 1..];
    Handlers.HitIdsGrow(w.db.trxs, hashes[..n], hashes[n]);
  }

  lemma {:induction false} BatchUpTo(w: World, k: nat, hashes: seq<string>, n: nat) returns (v: World)
    requires Unique(w.db.trxs) && |w.versions| == |w.db.trxs| && k < |w.workers| && w.workers[k].Idle?
    requires n <= |hashes|
    ensures BatchAt(w, k, hashes, n, v) && GetsTo(w, k, v)
  {
    if n == 0 {
      v := Put(w, k, Confirming(hashes, map[], [], [], hashes));
      Stays(w, k);
      Then(w, k, w, ConfirmBegin(hashes), v);
      assert Handlers.HitIds(w.db.trxs, []) == {};
    } else {
      var u := BatchUpTo(w, k, hashes, n - 1);
      var found: Option<nat> := None;
      if Handlers.Hit(w.db.trxs, hashes[n - 1]) {
        var i :| 0 <= i < |w.db.trxs| && w.db.trxs[i].hash == Some(hashes[n - 1]) && w.db.trxs[i].status != REPORTED;
        found := Some(i);
        CanFind(w, k, hashes, n - 1, u, i);
        RowFound(w, k, hashes, n - 1, u, i);
      } else {
        NothingFound(w, k, hashes, n - 1, u);
      }
      v := Do(u, k, ConfirmRead(found));
      Then(w, k, u, ConfirmRead(found), v);
    }
  }

  /** The sequential batch is a run of the world. */
  lemma BatchRuns(w: World, k: nat, hashes: seq<string>) returns (v: World)
    requires Unique(w.db.trxs) && |w.versions| == |w.db.trxs| && k < |w.workers| && w.workers[k].Idle?
    ensures GetsTo(w, k, v) && v.workers == w.workers && v.locks == w.locks && v.acked == w.acked
    ensures v.db == Store(w.db.wallets, ConfirmAll(w.db.trxs, Handlers.HitIds(w.db.trxs, hashes)))
  {
    var u := BatchUpTo(w, k, hashes, |hashes|);
    assert hashes[..|hashes|] == hashes;
    v := Do(u, k, ConfirmCommit);
    Then(w, k, u, ConfirmCommit, v);
    assert WriteRead(w.db.trxs, u.workers[k].read)
        == ConfirmAll(w.db.trxs, Handlers.HitIds(w.db.trxs, hashes));
    assert w.workers[k := Idle] == w.workers;
  }

  // ---------- Starting and stopping ----------

  lemma StartRuns(w: World, k: nat, r: Registry.Request) returns (v: World)
    requires |w.versions| == |w.db.trxs| && k < |w.workers| && w.workers[k].Idle? && r.Start?
    ensures GetsTo(w, k, v) && v.workers == w.workers
    ensures v.db == Store(Registry.Serve(w.db.wallets, r), w.db.trxs)
  {
    Stays(w, k);
    if Registry.Registered(w.db.wallets, r.externalId) {
      return w;
    }
    var wallet := Registry.NewWallet(r);
    var u := Put(w, k, Starting(wallet));
    Then(w, k, w, StartCheck(wallet), u);
    v := Put(u.(db := u.db.(wallets := u.db.wallets + [wallet])), k, Idle);
    Then(w, k, u, StartCreate, v);
    assert w.workers[k := Idle] == w.workers;
  }

  lemma StopRuns(w: World, k: nat, r: Registry.Request) returns (v: World)
    requires |w.versions| == |w.db.trxs| && k < |w.workers| && w.workers[k].Idle? && r.Stop?
    requires Registry.UniqueIds(w.db.wallets)
    ensures GetsTo(w, k, v) && v.workers == w.workers
    ensures v.db == Store(Registry.Serve(w.db.wallets, r), w.db.trxs)
  {
    Stays(w, k);
    if !Registry.Registered(w.db.wallets, r.externalId) {
      assert Registry.TurnedOff(w.db.wallets, r.externalId) == w.db.wallets;
      return w;
    }
    var i :| 0 <= i < |w.db.wallets| && w.db.wallets[i].externalId == r.externalId;
    Registry.TurnsOffOne(w.db.wallets, i);
    var u := Put(w, k, Stopping(i, w.db.wallets[i]));
    Then(w, k, w, StopRead(i), u);
    v := Put(u.(db := u.db.(wallets := StopAt(u.db.wallets, i))), k, Idle);
    Then(w, k, u, StopWrite, v);
    assert w.workers[k := Idle] == w.workers;
  }

  // ---------- A run over wallets ----------

  /** What others hold fits the visits: exactly the wallets seen locked are locked. */
  predicate VisitsFit(locks: map<Key, nat>, wids: seq<nat>, visits: Visits) {
    forall n | 0 <= n < |wids| :: Key(WalletModel, wids[n]) in locks <==> VisitTo(visits, wids[n]).SeenLocked?
  }

  /** The worker is on its way to wallet `n`, and holds nothing of the world but itself. */
  ghost predicate AheadAt(w: World, k: nat, wids: seq<nat>, n: nat, v: World)
    requires k < |w.workers| && n <= |wids|
  {
    && |v.workers| == |w.workers| && v == Put(w, k, v.workers[k])
    && (v.workers[k].Ingesting? || v.workers[k].Filling?)
    && v.workers[k].wids == wids[n..] && v.workers[k].phase == Looking
  }

  /** The worker is inside the body for wallet `n` and has handled `m` elements of its feed. */
  ghost predicate InFeedAt(w: World, k: nat, wids: seq<nat>, n: nat, entries: seq<Entry>, m: nat, v: World)
    requires k < |w.workers| && n < |wids| && m <= |entries|
  {
    && |v.workers| == |w.workers|
    && v == Put(w.(locks := w.locks[Key(WalletModel, wids[n]) := k]), k, v.workers[k])
    && (v.workers[k].Ingesting? || v.workers[k].Filling?)
    && v.workers[k].wids == wids[n..] && v.workers[k].phase == Answered && v.workers[k].feed == entries[m..]
  }

  /** The part of a run's state that its results depend on. */
  predicate SameGains(x: Worker, y: Worker) {
    || (x.Ingesting? && y.Ingesting? && x.buffer == y.buffer)
    || (x.Filling? && y.Filling? && x.bases == y.bases && x.deposits == y.deposits && x.looks == y.looks)
  }

  lemma SkipsLocked(w: World, k: nat, wids: seq<nat>, n: nat, u: World) returns (v: World)
    requires |w.versions| == |w.db.trxs| && k < |w.workers| && n < |wids|
    requires AheadAt(w, k, wids, n, u) && GetsTo(w, k, u) && Key(WalletModel, wids[n]) in w.locks
    ensures AheadAt(w, k, wids, n + 1, v) && GetsTo(w, k, v) && SameGains(u.workers[k], v.workers[k])
  {
    v := Put(u, k, Popped(u.workers[k], WasLocked));
    assert wids[n..][1..] == wids[n + 1..];
    Then(w, k, u, SeeLocked, v);
  }

  lemma Enters(w: World, k: nat, wids: seq<nat>, n: nat, u: World, elements: seq<Entry>) returns (v: World)
    requires |w.versions| == |w.db.trxs| && k < |w.workers| && n < |wids|
    requires AheadAt(w, k, wids, n, u) && GetsTo(w, k, u) && Key(WalletModel, wids[n]) !in w.locks
    ensures InFeedAt(w, k, wids, n, LoadAll(elements), 0, v) && GetsTo(w, k, v)
    ensures SameGains(u.workers[k], v.workers[k])
  {
    var x := u.workers[k];
    Locks(w, k, u, x);
    var held := Locked(u, k, x);
    v := Do(held, k, Fetch(elements));
    Then(w, k, held, Fetch(elements), v);
  }

  lemma Leaves(w: World, k: nat, wids: seq<nat>, n: nat, entries: seq<Entry>, u: World) returns (v: World)
    requires |w.versions| == |w.db.trxs| && k < |w.workers| && n < |wids|
    requires InFeedAt(w, k, wids, n, entries, |entries|, u) && GetsTo(w, k, u)
    requires Key(WalletModel, wids[n]) !in w.locks
    ensures AheadAt(w, k, wids, n + 1, v) && GetsTo(w, k, v) && SameGains(u.workers[k], v.workers[k])
  {
    v := Put(w, k, Popped(u.workers[k], WasSaved));
    assert wids[n..][1..] == wids[n + 1..];
    UnlockedAgain(w.locks, Key(WalletModel, wids[n]), k);
    Then(w, k, u, Release, v);
  }

  // ---------- Ingestion ----------

  /** The buffer is what the sequential loop has added after these elements. */
  ghost predicate HasIngested(w: World, events: seq<Event>, x: Worker)
    requires Known(w.db.wallets, events)
  {
    x.Ingesting? && Ingestion.Ingest(w.db.wallets, w.db.trxs, events) == Ingestion.Outcome(w.db.trxs + x.buffer, false)
  }

  lemma IngestsNext(w: World, k: nat, wids: seq<nat>, n: nat, entries: seq<Entry>, m: nat, events: seq<Event>, u: World)
    returns (v: World)
    requires |w.versions| == |w.db.trxs| && k < |w.workers| && n < |wids| && m < |entries|
    requires InFeedAt(w, k, wids, n, entries, m, u) && GetsTo(w, k, u) && wids[n] < |w.db.wallets|
    requires Known(w.db.wallets, events) && Known(w.db.wallets, events + [Arrival(wids[n], entries[m])])
    requires HasIngested(w, events, u.workers[k])
    requires !Ingestion.Ingest(w.db.wallets, w.db.trxs, events + [Arrival(wids[n], entries[m])]).raised
    ensures InFeedAt(w, k, wids, n, entries, m + 1, v) && GetsTo(w, k, v)
    ensures HasIngested(w, events + [Arrival(wids[n], entries[m])], v.workers[k])
  {
    var after := events + [Arrival(wids[n], entries[m])];
    assert after[..|events|] == events && after[|events|] == Arrival(wids[n], entries[m]);
    assert entries[m..][1..] == entries[m + 1..];
    v := Do(u, k, IngestEntry);
    Then(w, k, u, IngestEntry, v);
    if entries[m].addressTo.Some? {
      var buffer, row := u.workers[k].buffer, IngestedRow(wids[n], entries[m]);
      assert w.db.trxs + buffer + [row] == w.db.trxs + (buffer + [row]);
    }
  }

  lemma PrefixFinishes(wallets: seq<Wallet>, trxs: seq<Trx>, prefix: seq<Event>, events: seq<Event>)
    requires Known(wallets, events) && prefix <= events && !Ingestion.Ingest(wallets, trxs, events).raised
    ensures Known(wallets, prefix) && !Ingestion.Ingest(wallets, trxs, prefix).raised
  {
    assert events[..|prefix|] == prefix;
    if Ingestion.Ingest(wallets, trxs, prefix).raised {
      Ingestion.RaiseStays(wallets, trxs, events, |prefix|);
    }
  }

  /** Everything met before element `m` of the feed of wallet `n`. */
  function MetBefore(visits: Visits, wids: seq<nat>, n: nat, m: nat): seq<Event>
    requires n < |wids| && VisitTo(visits, wids[n]).Feed? && m <= |VisitTo(visits, wids[n]).elements|
  {
    Events(visits, wids[..n]) + Arrivals(wids[n], LoadAll(VisitTo(visits, wids[n]).elements)[..m])
  }

  lemma MetBeforeIsPrefix(visits: Visits, wids: seq<nat>, n: nat, m: nat)
    requires n < |wids| && VisitTo(visits, wids[n]).Feed? && m <= |VisitTo(visits, wids[n]).elements|
    ensures MetBefore(visits, wids, n, m) <= Events(visits, wids)
    ensures m == 0 ==> MetBefore(visits, wids, n, m) == Events(visits, wids[..n])
    ensures m == |VisitTo(visits, wids[n]).elements| ==> MetBefore(visits, wids, n, m) == Events(visits, wids[..n + 1])
    ensures m > 0 ==> (var last := Arrival(wids[n], LoadAll(VisitTo(visits, wids[n]).elements)[m - 1]);
      MetBefore(visits, wids, n, m) == MetBefore(visits, wids, n, m - 1) + [last])
  {
    var entries := LoadAll(VisitTo(visits, wids[n]).elements);
    MetSoFar(visits, wids, n, Events(visits, wids[..n]), Arrivals(wids[n], entries[..m]));
    EventsNext(visits, wids, n);
    if m > 0 {
      assert Arrivals(wids[n], entries[..m])
          == Arrivals(wids[n], entries[..m - 1]) + [Arrival(wids[n], entries[m - 1])];
    }
    if m == |entries| {
      assert entries[..m] == entries;
    }
  }

  /** What a run of the sequential ingestion needs of the world to go through undisturbed. */
  ghost predicate CanIngest(w: World, k: nat, wids: seq<nat>, visits: Visits) {
    && |w.versions| == |w.db.trxs| && k < |w.workers| && w.workers[k].Idle?
    && Answers(wids, w.db.wallets, Watched(false)) && VisitsFit(w.locks, wids, visits)
    && Known(w.db.wallets, Events(visits, wids))
    && !Ingestion.Ingest(w.db.wallets, w.db.trxs, Events(visits, wids)).raised
  }

  lemma NoRaise(w: World, k: nat, wids: seq<nat>, visits: Visits, n: nat)
    requires CanIngest(w, k, wids, visits) && n < |wids|
    ensures !VisitTo(visits, wids[n]).Raises?
  {
    if VisitTo(visits, wids[n]).Raises? {
      Ingestion.RaiseFails(w.db.wallets, w.db.trxs, visits, wids);
    }
  }

  /** On the way to wallet `n`, with everything before it ingested. */
  ghost predicate IngestsAt(w: World, k: nat, wids: seq<nat>, visits: Visits, n: nat, v: World) {
    && k < |w.workers| && n <= |wids| && AheadAt(w, k, wids, n, v) && GetsTo(w, k, v)
    && Known(w.db.wallets, Events(visits, wids[..n])) && HasIngested(w, Events(visits, wids[..n]), v.workers[k])
  }

  /** Inside the body for wallet `n`, with everything before element `m` of its feed ingested. */
  ghost predicate IngestsIn(w: World, k: nat, wids: seq<nat>, visits: Visits, n: nat, m: nat, v: World) {
    && k < |w.workers| && n < |wids|
    && VisitTo(visits, wids[n]).Feed? && m <= |VisitTo(visits, wids[n]).elements|
    && InFeedAt(w, k, wids, n, LoadAll(VisitTo(visits, wids[n]).elements), m, v) && GetsTo(w, k, v)
    && Known(w.db.wallets, MetBefore(visits, wids, n, m))
    && HasIngested(w, MetBefore(visits, wids, n, m), v.workers[k])
  }

  lemma IngestBegins(w: World, k: nat, wids: seq<nat>, visits: Visits) returns (v: World)
    requires CanIngest(w, k, wids, visits)
    ensures IngestsAt(w, k, wids, visits, 0, v)
  {
    v := Put(w, k, Ingesting(wids, Looking, [], [], Begun(w, wids)));
    Stays(w, k);
    Then(w, k, w, IngestBegin(wids), v);
    assert w.db.trxs + [] == w.db.trxs;
  }

  lemma IngestSkips(w: World, k: nat, wids: seq<nat>, visits: Visits, n: nat, u: World) returns (v: World)
    requires |w.versions| == |w.db.trxs| && n < |wids| && IngestsAt(w, k, wids, visits, n, u)
    requires VisitTo(visits, wids[n]).SeenLocked? && Key(WalletModel, wids[n]) in w.locks
    ensures IngestsAt(w, k, wids, visits, n + 1, v)
  {
    v := SkipsLocked(w, k, wids, n, u);
    EventsNext(visits, wids, n);
    assert Events(visits, wids[..n]) + [] == Events(visits, wids[..n]);
  }

  lemma IngestEnters(w: World, k: nat, wids: seq<nat>, visits: Visits, n: nat, u: World) returns (v: World)
    requires |w.versions| == |w.db.trxs| && n < |wids| && IngestsAt(w, k, wids, visits, n, u)
    requires VisitTo(visits, wids[n]).Feed? && Key(WalletModel, wids[n]) !in w.locks
    ensures IngestsIn(w, k, wids, visits, n, 0, v)
  {
    v := Enters(w, k, wids, n, u, VisitTo(visits, wids[n]).elements);
    MetBeforeIsPrefix(visits, wids, n, 0);
  }

  lemma IngestLeaves(w: World, k: nat, wids: seq<nat>, visits: Visits, n: nat, u: World) returns (v: World)
    requires |w.versions| == |w.db.trxs| && n < |wids| && VisitTo(visits, wids[n]).Feed?
    requires IngestsIn(w, k, wids, visits, n, |VisitTo(visits, wids[n]).elements|, u)
    requires Key(WalletModel, wids[n]) !in w.locks
    ensures IngestsAt(w, k, wids, visits, n + 1, v)
  {
    v := Leaves(w, k, wids, n, LoadAll(VisitTo(visits, wids[n]).elements), u);
    MetBeforeIsPrefix(visits, wids, n, |VisitTo(visits, wids[n]).elements|);
  }

  lemma IngestHandles(w: World, k: nat, wids: seq<nat>, visits: Visits, n: nat, m: nat, u: World) returns (v: World)
    requires CanIngest(w, k, wids, visits) && IngestsIn(w, k, wids, visits, n, m, u)
    requires m < |VisitTo(visits, wids[n]).elements|
    ensures IngestsIn(w, k, wids, visits, n, m + 1, v)
  {
    MetBeforeIsPrefix(visits, wids, n, m + 1);
    var met := MetBefore(visits, wids, n, m);
    PrefixFinishes(w.db.wallets, w.db.trxs, MetBefore(visits, wids, n, m + 1), Events(visits, wids));
    assert wids[n] < |w.db.wallets| by {
      assert MetBefore(visits, wids, n, m + 1)[|met|].wid == wids[n];
    }
    v := IngestsNext(w, k, wids, n, LoadAll(VisitTo(visits, wids[n]).elements), m, met, u);
  }

  lemma WalletFits(locks: map<Key, nat>, wids: seq<nat>, visits: Visits, n: nat)
    requires VisitsFit(locks, wids, visits) && n < |wids|
    ensures Key(WalletModel, wids[n]) in locks <==> VisitTo(visits, wids[n]).SeenLocked?
  {
  }

  lemma {:induction false} IngestsFeed(w: World, k: nat, wids: seq<nat>, visits: Visits, n: nat, m: nat, u: World)
    returns (v: World)
    requires CanIngest(w, k, wids, visits) && n < |wids| && IngestsIn(w, k, wids, visits, n, m, u)
    ensures VisitTo(visits, wids[n]).Feed?
    ensures IngestsIn(w, k, wids, visits, n, |VisitTo(visits, wids[n]).elements|, v)
    decreases |VisitTo(visits, wids[n]).elements| - m
  {
    if m == |VisitTo(visits, wids[n]).elements| {
      v := u;
    } else {
      var next := IngestHandles(w, k, wids, visits, n, m, u);
      v := IngestsFeed(w, k, wids, visits, n, m + 1, next);
    }
  }

  lemma IngestsWallet(w: World, k: nat, wids: seq<nat>, visits: Visits, n: nat, u: World) returns (v: World)
    requires CanIngest(w, k, wids, visits) && n < |wids| && IngestsAt(w, k, wids, visits, n, u)
    ensures IngestsAt(w, k, wids, visits, n + 1, v)
  {
    NoRaise(w, k, wids, visits, n);
    WalletFits(w.locks, wids, visits, n);
    if VisitTo(visits, wids[n]).SeenLocked? {
      v := IngestSkips(w, k, wids, visits, n, u);
    } else {
      var inside := IngestEnters(w, k, wids, visits, n, u);
      var done := IngestsFeed(w, k, wids, visits, n, 0, inside);
      v := IngestLeaves(w, k, wids, visits, n, done);
    }
  }

  lemma {:induction false} IngestsUpTo(w: World, k: nat, wids: seq<nat>, visits: Visits, n: nat) returns (v: World)
    requires CanIngest(w, k, wids, visits) && n <= |wids|
    ensures IngestsAt(w, k, wids, visits, n, v)
  {
    if n == 0 {
      v := IngestBegins(w, k, wids, visits);
    } else {
      var u := IngestsUpTo(w, k, wids, visits, n - 1);
      v := IngestsWallet(w, k, wids, visits, n - 1, u);
    }
  }

  /** A finished run of the sequential ingestion is a run of the world. */
  lemma IngestionRuns(w: World, k: nat, wids: seq<nat>, visits: Visits) returns (v: World)
    requires CanIngest(w, k, wids, visits) && StoreOk(w.db)
    ensures GetsTo(w, k, v) && v.workers == w.workers && v.locks == w.locks
    ensures v.db == Store(w.db.wallets, Ingestion.Ingest(w.db.wallets, w.db.trxs, Events(visits, wids)).trxs)
  {
    var u := IngestsUpTo(w, k, wids, visits, |wids|);
    assert wids[..|wids|] == wids;
    IngestCanFinish(w, u, k, wids, visits);
    v := Do(u, k, Finish);
    Then(w, k, u, Finish, v);
  }

  lemma IngestCanFinish(w: World, u: World, k: nat, wids: seq<nat>, visits: Visits)
    requires k < |w.workers| && w.workers[k].Idle? && |w.versions| == |w.db.trxs| && StoreOk(w.db)
    requires AheadAt(w, k, wids, |wids|, u) && Known(w.db.wallets, Events(visits, wids))
    requires HasIngested(w, Events(visits, wids), u.workers[k])
    ensures Can(u, k, Finish) && |Do(u, k, Finish).workers| == |w.workers|
    ensures Do(u, k, Finish).workers == w.workers && Do(u, k, Finish).locks == w.locks
    ensures Do(u, k, Finish).db == Store(w.db.wallets, w.db.trxs + u.workers[k].buffer)
  {
    EventsAreLoaded(visits, wids);
    Ingestion.IngestKeepsStore(w.db.wallets, w.db.trxs, Events(visits, wids));
    assert w.workers[k := Idle] == w.workers;
  }

  // ---------- The fill ----------

  /** The deposits are what the sequential loop has settled after these elements. */
  ghost predicate HasFilled(w: World, events: seq<Event>, picks: seq<Option<nat>>, x: Worker)
    requires Known(w.db.wallets, events) && |w.versions| == |w.db.trxs|
  {
    && x.Filling? && |picks| == |events|
    && F.Run(w.reading, w.db.wallets, w.db.trxs, events, picks)
       == Ingestion.Outcome(FillAll(w.db.trxs, x.deposits), false)
    && x.bases.Keys == x.deposits.Keys
    && (forall i | i in x.bases :: i < |w.db.trxs| && x.bases[i] == Held(i, w.db.trxs[i], w.versions[i]))
  }

  lemma FillsNext(w: World, k: nat, wids: seq<nat>, n: nat, entries: seq<Entry>, m: nat, events: seq<Event>,
                  picks: seq<Option<nat>>, pick: Option<nat>, u: World)
    returns (v: World)
    requires |w.versions| == |w.db.trxs| && k < |w.workers| && n < |wids| && m < |entries|
    requires InFeedAt(w, k, wids, n, entries, m, u) && GetsTo(w, k, u) && wids[n] < |w.db.wallets|
    requires Known(w.db.wallets, events) && HasFilled(w, events, picks, u.workers[k])
    requires var view := FillAll(w.db.trxs, u.workers[k].deposits); var e := Arrival(wids[n], entries[m]);
      && F.GoodPick(w.db.wallets, view, e, pick) && !F.Meet(w.reading, w.db.wallets, view, e, pick).raised
    ensures InFeedAt(w, k, wids, n, entries, m + 1, v) && GetsTo(w, k, v)
    ensures Known(w.db.wallets, events + [Arrival(wids[n], entries[m])])
    ensures HasFilled(w, events + [Arrival(wids[n], entries[m])], picks + [pick], v.workers[k])
  {
    if pick.Some? {
      F.FillOneMore(w.db.trxs, u.workers[k].deposits, pick.value, Deposit(entries[m].hash, entries[m].value));
    }
    assert entries[m..][1..] == entries[m + 1..];
    v := Do(u, k, FillEntry(pick));
    Then(w, k, u, FillEntry(pick), v);
    HasFilledMore(w, events, picks, Arrival(wids[n], entries[m]), pick, u.workers[k], v.workers[k]);
  }

  lemma HasFilledMore(w: World, events: seq<Event>, picks: seq<Option<nat>>, e: Event, pick: Option<nat>,
                      x: Worker, y: Worker)
    requires |w.versions| == |w.db.trxs| && Known(w.db.wallets, events) && Known(w.db.wallets, events + [e])
    requires HasFilled(w, events, picks, x) && y.Filling? && e.Arrival? && e.wid < |w.db.wallets|
    requires var view := FillAll(w.db.trxs, x.deposits);
      && F.GoodPick(w.db.wallets, view, e, pick) && !F.Meet(w.reading, w.db.wallets, view, e, pick).raised
    requires if pick.None? then y.bases == x.bases && y.deposits == x.deposits else
      && pick.value < |w.db.trxs|
      && y.bases == x.bases[pick.value := Held(pick.value, w.db.trxs[pick.value], w.versions[pick.value])]
      && y.deposits == x.deposits[pick.value := Deposit(e.entry.hash, e.entry.value)]
    ensures HasFilled(w, events + [e], picks + [pick], y)
  {
    var after, all := events + [e], picks + [pick];
    assert after[..|events|] == events && after[|events|] == e && all[..|events|] == picks && all[|events|] == pick;
    if pick.Some? {
      F.FillOneMore(w.db.trxs, x.deposits, pick.value, Deposit(e.entry.hash, e.entry.value));
    }
  }

  lemma {:induction false} PicksPrefix(reading: Reading, wallets: seq<Wallet>, trxs: seq<Trx>, events: seq<Event>,
                                       picks: seq<Option<nat>>, n: nat)
    requires Known(wallets, events) && |picks| == |events| && n < |events|
    requires F.GoodPicks(reading, wallets, trxs, events, picks) && !F.Run(reading, wallets, trxs, events, picks).raised
    ensures var before := F.Run(reading, wallets, trxs, events[..n], picks[..n]);
      && !before.raised && F.GoodPick(wallets, before.trxs, events[n], picks[n])
      && !F.Meet(reading, wallets, before.trxs, events[n], picks[n]).raised
    decreases |events|
  {
    var last := |events| - 1;
    if n < last {
      assert events[..last][..n] == events[..n] && picks[..last][..n] == picks[..n];
      PicksPrefix(reading, wallets, trxs, events[..last], picks[..last], n);
    }
  }

  /** What a run of the sequential fill needs of the world to go through undisturbed. */
  ghost predicate CanFill(w: World, k: nat, wids: seq<nat>, visits: Visits, picks: seq<Option<nat>>) {
    && |w.versions| == |w.db.trxs| && k < |w.workers| && w.workers[k].Idle?
    && (forall j | 0 <= j < |w.workers| :: !w.workers[j].Filling?)
    && Answers(wids, w.db.wallets, Watched(true)) && VisitsFit(w.locks, wids, visits)
    && Known(w.db.wallets, Events(visits, wids)) && |picks| == |Events(visits, wids)|
    && F.GoodPicks(w.reading, w.db.wallets, w.db.trxs, Events(visits, wids), picks)
    && !F.Run(w.reading, w.db.wallets, w.db.trxs, Events(visits, wids), picks).raised
  }

  lemma NoRaiseInFill(w: World, k: nat, wids: seq<nat>, visits: Visits, picks: seq<Option<nat>>, n: nat)
    requires CanFill(w, k, wids, visits, picks) && n < |wids|
    ensures !VisitTo(visits, wids[n]).Raises?
  {
    if VisitTo(visits, wids[n]).Raises? {
      RaiseIsMet(visits, wids);
      var e :| 0 <= e < |Events(visits, wids)| && Events(visits, wids)[e].Error?;
      F.ErrorEnds(w.reading, w.db.wallets, w.db.trxs, Events(visits, wids), picks, e);
    }
  }

  /** The answers to the queries for the first elements. */
  function PicksFor(picks: seq<Option<nat>>, events: seq<Event>): seq<Option<nat>> {
    if |events| <= |picks| then picks[..|events|] else picks
  }

  /** On the way to wallet `n`, with everything before it filled. */
  ghost predicate FillsAt(w: World, k: nat, wids: seq<nat>, visits: Visits, picks: seq<Option<nat>>, n: nat, v: World) {
    && k < |w.workers| && n <= |wids| && AheadAt(w, k, wids, n, v) && GetsTo(w, k, v)
    && |w.versions| == |w.db.trxs| && Known(w.db.wallets, Events(visits, wids[..n]))
    && HasFilled(w, Events(visits, wids[..n]), PicksFor(picks, Events(visits, wids[..n])), v.workers[k])
  }

  /** Inside the body for wallet `n`, with everything before element `m` of its feed filled. */
  ghost predicate FillsIn(w: World, k: nat, wids: seq<nat>, visits: Visits, picks: seq<Option<nat>>, n: nat, m: nat,
                          v: World)
  {
    && k < |w.workers| && n < |wids|
    && VisitTo(visits, wids[n]).Feed? && m <= |VisitTo(visits, wids[n]).elements|
    && InFeedAt(w, k, wids, n, LoadAll(VisitTo(visits, wids[n]).elements), m, v) && GetsTo(w, k, v)
    && |w.versions| == |w.db.trxs| && Known(w.db.wallets, MetBefore(visits, wids, n, m))
    && HasFilled(w, MetBefore(visits, wids, n, m), PicksFor(picks, MetBefore(visits, wids, n, m)), v.workers[k])
  }

  lemma FillBegins(w: World, k: nat, wids: seq<nat>, visits: Visits, picks: seq<Option<nat>>) returns (v: World)
    requires CanFill(w, k, wids, visits, picks)
    ensures FillsAt(w, k, wids, visits, picks, 0, v)
  {
    v := Put(w, k, Filling(wids, Looking, [], map[], map[], [], Begun(w, wids)));
    Stays(w, k);
    Then(w, k, w, FillBegin(wids), v);
    assert FillAll(w.db.trxs, map[]) == w.db.trxs;
  }

  lemma FillSkips(w: World, k: nat, wids: seq<nat>, visits: Visits, picks: seq<Option<nat>>, n: nat, u: World)
    returns (v: World)
    requires n < |wids| && FillsAt(w, k, wids, visits, picks, n, u)
    requires VisitTo(visits, wids[n]).SeenLocked? && Key(WalletModel, wids[n]) in w.locks
    ensures FillsAt(w, k, wids, visits, picks, n + 1, v)
  {
    v := SkipsLocked(w, k, wids, n, u);
    EventsNext(visits, wids, n);
    assert Events(visits, wids[..n]) + [] == Events(visits, wids[..n]);
  }

  lemma FillEnters(w: World, k: nat, wids: seq<nat>, visits: Visits, picks: seq<Option<nat>>, n: nat, u: World)
    returns (v: World)
    requires n < |wids| && FillsAt(w, k, wids, visits, picks, n, u)
    requires VisitTo(visits, wids[n]).Feed? && Key(WalletModel, wids[n]) !in w.locks
    ensures FillsIn(w, k, wids, visits, picks, n, 0, v)
  {
    v := Enters(w, k, wids, n, u, VisitTo(visits, wids[n]).elements);
    MetBeforeIsPrefix(visits, wids, n, 0);
  }

  lemma FillLeaves(w: World, k: nat, wids: seq<nat>, visits: Visits, picks: seq<Option<nat>>, n: nat, u: World)
    returns (v: World)
    requires n < |wids| && VisitTo(visits, wids[n]).Feed?
    requires FillsIn(w, k, wids, visits, picks, n, |VisitTo(visits, wids[n]).elements|, u)
    requires Key(WalletModel, wids[n]) !in w.locks
    ensures FillsAt(w, k, wids, visits, picks, n + 1, v)
  {
    v := Leaves(w, k, wids, n, LoadAll(VisitTo(visits, wids[n]).elements), u);
    MetBeforeIsPrefix(visits, wids, n, |VisitTo(visits, wids[n]).elements|);
  }

  lemma NextOf(met: seq<Event>, e: Event, all: seq<Event>)
    requires met + [e] <= all
    ensures |met| < |all| && all[..|met|] == met && all[|met|] == e
  {
    assert all[|met|] == (met + [e])[|met|];
  }

  lemma NextAnswer(picks: seq<Option<nat>>, n: nat)
    requires n < |picks|
    ensures picks[..n] + [picks[n]] == picks[..n + 1]
  {
  }

  /** The next of all elements is element `m`, and its answer the next of all answers. */
  lemma NextOfAll(visits: Visits, wids: seq<nat>, picks: seq<Option<nat>>, n: nat, m: nat)
    requires n < |wids| && VisitTo(visits, wids[n]).Feed? && m < |VisitTo(visits, wids[n]).elements|
    requires |picks| == |Events(visits, wids)|
    ensures var met := MetBefore(visits, wids, n, m);
      && |met| < |Events(visits, wids)| && Events(visits, wids)[..|met|] == met
      && Events(visits, wids)[|met|] == Arrival(wids[n], LoadAll(VisitTo(visits, wids[n]).elements)[m])
      && PicksFor(picks, met) == picks[..|met|]
      && PicksFor(picks, met) + [picks[|met|]] == PicksFor(picks, MetBefore(visits, wids, n, m + 1))
  {
    MetBeforeIsPrefix(visits, wids, n, m + 1);
    NextOf(MetBefore(visits, wids, n, m), Arrival(wids[n], LoadAll(VisitTo(visits, wids[n]).elements)[m]),
           Events(visits, wids));
    NextAnswer(picks, |MetBefore(visits, wids, n, m)|);
  }

  lemma FillHandles(w: World, k: nat, wids: seq<nat>, visits: Visits, picks: seq<Option<nat>>, n: nat, m: nat, u: World)
    returns (v: World)
    requires CanFill(w, k, wids, visits, picks) && FillsIn(w, k, wids, visits, picks, n, m, u)
    requires m < |VisitTo(visits, wids[n]).elements|
    ensures FillsIn(w, k, wids, visits, picks, n, m + 1, v)
  {
    var met := MetBefore(visits, wids, n, m);
    NextOfAll(visits, wids, picks, n, m);
    PicksPrefix(w.reading, w.db.wallets, w.db.trxs, Events(visits, wids), picks, |met|);
    MetBeforeIsPrefix(visits, wids, n, m + 1);
    v := FillsNext(w, k, wids, n, LoadAll(VisitTo(visits, wids[n]).elements), m, met, PicksFor(picks, met),
                   picks[|met|], u);
  }

  lemma {:induction false} FillsFeed(w: World, k: nat, wids: seq<nat>, visits: Visits, picks: seq<Option<nat>>,
                                     n: nat, m: nat, u: World)
    returns (v: World)
    requires CanFill(w, k, wids, visits, picks) && n < |wids| && FillsIn(w, k, wids, visits, picks, n, m, u)
    ensures VisitTo(visits, wids[n]).Feed?
    ensures FillsIn(w, k, wids, visits, picks, n, |VisitTo(visits, wids[n]).elements|, v)
    decreases |VisitTo(visits, wids[n]).elements| - m
  {
    if m == |VisitTo(visits, wids[n]).elements| {
      v := u;
    } else {
      var next := FillHandles(w, k, wids, visits, picks, n, m, u);
      v := FillsFeed(w, k, wids, visits, picks, n, m + 1, next);
    }
  }

  lemma FillsWallet(w: World, k: nat, wids: seq<nat>, visits: Visits, picks: seq<Option<nat>>, n: nat, u: World)
    returns (v: World)
    requires CanFill(w, k, wids, visits, picks) && n < |wids| && FillsAt(w, k, wids, visits, picks, n, u)
    ensures FillsAt(w, k, wids, visits, picks, n + 1, v)
  {
    NoRaiseInFill(w, k, wids, visits, picks, n);
    WalletFits(w.locks, wids, visits, n);
    if VisitTo(visits, wids[n]).SeenLocked? {
      v := FillSkips(w, k, wids, visits, picks, n, u);
    } else {
      var inside := FillEnters(w, k, wids, visits, picks, n, u);
      var done := FillsFeed(w, k, wids, visits, picks, n, 0, inside);
      v := FillLeaves(w, k, wids, visits, picks, n, done);
    }
  }

  lemma {:induction false} FillsUpTo(w: World, k: nat, wids: seq<nat>, visits: Visits, picks: seq<Option<nat>>, n: nat)
    returns (v: World)
    requires CanFill(w, k, wids, visits, picks) && n <= |wids|
    ensures FillsAt(w, k, wids, visits, picks, n, v)
  {
    if n == 0 {
      v := FillBegins(w, k, wids, visits, picks);
    } else {
      var u := FillsUpTo(w, k, wids, visits, picks, n - 1);
      v := FillsWallet(w, k, wids, visits, picks, n - 1, u);
    }
  }

  lemma FillCanFinish(w: World, u: World, k: nat, wids: seq<nat>, visits: Visits, picks: seq<Option<nat>>)
    requires CanFill(w, k, wids, visits, picks) && Unique(w.db.trxs) && AheadAt(w, k, wids, |wids|, u)
    requires HasFilled(w, Events(visits, wids), picks, u.workers[k])
    ensures Can(u, k, Finish) && |Do(u, k, Finish).workers| == |w.workers|
    ensures Do(u, k, Finish).workers == w.workers && Do(u, k, Finish).locks == w.locks
    ensures Do(u, k, Finish).db == Store(w.db.wallets, FillAll(w.db.trxs, u.workers[k].deposits))
  {
    var x := u.workers[k];
    assert WriteFills(w.db.trxs, x.bases, x.deposits) == FillAll(w.db.trxs, x.deposits);
    F.RunKeepsUnique(w.reading, w.db.wallets, w.db.trxs, Events(visits, wids), picks);
    assert w.workers[k := Idle] == w.workers;
  }

  /** A finished run of the sequential fill is a run of the world. */
  lemma FillRuns(w: World, k: nat, wids: seq<nat>, visits: Visits, picks: seq<Option<nat>>) returns (v: World)
    requires CanFill(w, k, wids, visits, picks) && Unique(w.db.trxs)
    ensures GetsTo(w, k, v) && v.workers == w.workers && v.locks == w.locks
    ensures v.db ==
      Store(w.db.wallets, F.Run(w.reading, w.db.wallets, w.db.trxs, Events(visits, wids), picks).trxs)
  {
    var u := FillsUpTo(w, k, wids, visits, picks, |wids|);
    assert wids[..|wids|] == wids && picks[..|picks|] == picks;
    FillCanFinish(w, u, k, wids, visits, picks);
    v := Do(u, k, Finish);
    Then(w, k, u, Finish, v);
  }
}
