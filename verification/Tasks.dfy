/** The task that repeats a monitor for ever. */
module Tasks {
  import opened Rows
  import opened Feeds
  import opened Manager
  import opened Ingestion

  /** What the next round brings: a run with these visits, or the cancellation of the task. */
  datatype Round = Tick(visits: Visits) | Cancelled

  /** What one run was given and did. */
  datatype RunLog = RunLog(
    visits: Visits, wids: seq<nat>, before: seq<Trx>, after: seq<Trx>, raised: bool, saved: nat)

  /** The rounds that run before the task is cancelled. */
  function Rounds(rounds: seq<Round>): nat {
    if rounds == [] || rounds[0].Cancelled? then 0 else 1 + Rounds(rounds[1..])
  }

  /** The entry is a run of the monitor: over the wallets its query answered, with these visits, it kept everything
      the loop writes, or nothing if the loop fails. */
  ghost predicate IsRun(wallets: seq<Wallet>, e: RunLog) {
    && Answers(e.wids, wallets, Watched(false))
    && var r := IngestWallets(wallets, e.before, e.visits, e.wids);
    && e.raised == r.raised
    && e.after == (if e.raised then e.before else r.trxs)
    && (!e.raised ==> e.saved == |e.after| - |e.before|)
  }

  /** Each entry is a run, and starts from what the one before it left. */
  ghost predicate Chained(wallets: seq<Wallet>, start: seq<Trx>, log: seq<RunLog>, end: seq<Trx>) {
    if log == [] then end == start
    else
      var last := log[|log| - 1];
      IsRun(wallets, last) && end == last.after && Chained(wallets, start, log[..|log| - 1], last.before)
  }

  function Counted(log: seq<RunLog>): nat {
    if log == [] then 0 else Counted(log[..|log| - 1]) + (if log[|log| - 1].raised then 0 else log[|log| - 1].saved)
  }

  /** Over any number of runs, failed ones among them, no row is lost or changed, the rows added are as many as the
      finished runs counted, and the table keeps its conditions. */
  lemma {:induction false} ChainAddsWhatItCounts(wallets: seq<Wallet>, start: seq<Trx>, log: seq<RunLog>, end: seq<Trx>)
    requires StoreOk(Store(wallets, start)) && Chained(wallets, start, log, end)
    ensures start <= end && |end| == |start| + Counted(log) && StoreOk(Store(wallets, end))
  {
    if log != [] {
      var last := log[|log| - 1];
      ChainAddsWhatItCounts(wallets, start, log[..|log| - 1], last.before);
      KnownEvents(wallets, last.visits, last.wids);
      EventsAreLoaded(last.visits, last.wids);
      IngestKeepsStore(wallets, last.before, Events(last.visits, last.wids));
    }
  }

  lemma {:induction false} RoundsMeans(rounds: seq<Round>, n: nat)
    requires n < |rounds| && forall m | 0 <= m < n :: rounds[m].Tick?
    ensures rounds[n].Cancelled? ==> Rounds(rounds) == n
    ensures n == |rounds| - 1 && rounds[n].Tick? ==> Rounds(rounds) == |rounds|
  {
    if n > 0 {
      RoundsMeans(rounds[1..], n - 1);
    }
  }

  /** Runs the monitor round after round until the task is cancelled. A failed run stops nothing: there is a run for
      every round before the cancellation, each on what that round brings. */
  method RunMonitoring(monitor: CheckTransactionsMonitor, rounds: seq<Round>) returns (log: seq<RunLog>)
    requires monitor.db.Valid() && monitor.counter == 0
    modifies monitor`counter, monitor.db`trxs
    ensures monitor.db.Valid() && monitor.counter == 0
    ensures |log| == Rounds(rounds) <= |rounds|
    ensures |log| < |rounds| ==> rounds[|log|].Cancelled?
    ensures forall n | 0 <= n < |log| :: n < |rounds| && rounds[n] == Tick(log[n].visits)
    ensures Chained(monitor.db.wallets, old(monitor.db.trxs), log, monitor.db.trxs)
  {
    log := [];
    while |log| < |rounds| && rounds[|log|].Tick?
      invariant |log| <= |rounds| && forall n | 0 <= n < |log| :: rounds[n] == Tick(log[n].visits)
      invariant monitor.db.Valid() && monitor.counter == 0
      invariant Chained(monitor.db.wallets, old(monitor.db.trxs), log, monitor.db.trxs)
      decreases |rounds| - |log|
    {
      var before := monitor.db.trxs;
      var wids, raised, saved := monitor.Process(rounds[|log|].visits);
      ghost var earlier := log;
      log := log + [RunLog(rounds[|log|].visits, wids, before, monitor.db.trxs, raised, saved)];
      assert log[..|log| - 1] == earlier;
    }
    if |log| < |rounds| {
      RoundsMeans(rounds, |log|);
    } else if rounds != [] {
      RoundsMeans(rounds, |rounds| - 1);
    }
  }
}
