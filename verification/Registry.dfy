/** Starting and stopping the monitoring of wallets, one request after another. */
module Registry {
  import opened Rows
  import opened Feeds
  import opened Ingestion

  datatype Request =
    | Start(currencySlug: string, address: string, externalId: int, isPlatform: bool)
    | Stop(externalId: int)

  predicate Registered(wallets: seq<Wallet>, externalId: int) {
    exists i | 0 <= i < |wallets| :: wallets[i].externalId == externalId
  }

  function NewWallet(r: Request): Wallet
    requires r.Start?
  {
    Wallet(r.currencySlug, r.address, r.externalId, r.isPlatform, true, true)
  }

  function TurnedOff(wallets: seq<Wallet>, externalId: int): seq<Wallet> {
    seq(|wallets|, i requires 0 <= i < |wallets| =>
      if wallets[i].externalId == externalId then wallets[i].(onMonitoring := false) else wallets[i])
  }

  function Serve(wallets: seq<Wallet>, r: Request): seq<Wallet> {
    match r
    case Start(_, _, externalId, _) => if Registered(wallets, externalId) then wallets else wallets + [NewWallet(r)]
    case Stop(externalId) => TurnedOff(wallets, externalId)
  }

  function ServeAll(wallets: seq<Wallet>, requests: seq<Request>): seq<Wallet> {
    if requests == [] then wallets
    else Serve(ServeAll(wallets, requests[..|requests| - 1]), requests[|requests| - 1])
  }

  ghost predicate UniqueIds(wallets: seq<Wallet>) {
    forall i, j | 0 <= i < j < |wallets| :: wallets[i].externalId != wallets[j].externalId
  }

  lemma TurnsOffOne(wallets: seq<Wallet>, i: nat)
    requires i < |wallets|
    ensures UniqueIds(wallets) ==>
      wallets[i := wallets[i].(onMonitoring := false)] == TurnedOff(wallets, wallets[i].externalId)
  {
  }

  predicate Monitored(wallets: seq<Wallet>, externalId: int) {
    exists i | 0 <= i < |wallets| :: wallets[i].externalId == externalId && wallets[i].onMonitoring
  }

  lemma {:induction false} IdsStayUnique(requests: seq<Request>)
    ensures UniqueIds(ServeAll([], requests))
  {
    if requests != [] {
      IdsStayUnique(requests[..|requests| - 1]);
    }
  }

  predicate Starts(r: Request, externalId: int) {
    r.Start? && r.externalId == externalId
  }

  predicate Stops(r: Request, externalId: int) {
    r.Stop? && r.externalId == externalId
  }

  /** The id was started. */
  predicate Started(requests: seq<Request>, externalId: int) {
    exists i | 0 <= i < |requests| :: Starts(requests[i], externalId)
  }

  /** The id was stopped at some time after it had been started. */
  predicate StoppedAfterStart(requests: seq<Request>, externalId: int) {
    exists i, j | 0 <= i < j < |requests| :: Starts(requests[i], externalId) && Stops(requests[j], externalId)
  }

  lemma ServeEffect(wallets: seq<Wallet>, r: Request, id: int)
    ensures Registered(Serve(wallets, r), id) <==> Registered(wallets, id) || Starts(r, id)
    ensures Monitored(Serve(wallets, r), id) <==>
      !Stops(r, id) && (Monitored(wallets, id) || (Starts(r, id) && !Registered(wallets, id)))
  {
    var after := Serve(wallets, r);
    if Registered(wallets, id) {
      var i :| 0 <= i < |wallets| && wallets[i].externalId == id;
      assert after[i].externalId == id;
    }
    if Monitored(wallets, id) && !Stops(r, id) {
      var i :| 0 <= i < |wallets| && wallets[i].externalId == id && wallets[i].onMonitoring;
      assert after[i].externalId == id && after[i].onMonitoring;
    }
    if Starts(r, id) && !Registered(wallets, id) {
      assert after[|wallets|] == NewWallet(r);
    }
  }

  lemma StartedAfter(requests: seq<Request>, id: int)
    requires requests != []
    ensures var before, last := requests[..|requests| - 1], requests[|requests| - 1];
      && (Started(requests, id) <==> Started(before, id) || Starts(last, id))
      && (StoppedAfterStart(requests, id)
          <==> StoppedAfterStart(before, id) || (Started(before, id) && Stops(last, id)))
  {
    var n := |requests| - 1;
    var before := requests[..n];
    if Started(before, id) {
      var i :| 0 <= i < |before| && Starts(before[i], id);
      assert Starts(requests[i], id);
    }
    if StoppedAfterStart(before, id) {
      var i, j :| 0 <= i < j < |before| && Starts(before[i], id) && Stops(before[j], id);
      assert Starts(requests[i], id) && Stops(requests[j], id);
    }
    if StoppedAfterStart(requests, id) {
      var i, j :| 0 <= i < j < |requests| && Starts(requests[i], id) && Stops(requests[j], id);
      assert Starts(before[i], id);
      if j < n {
        assert Stops(before[j], id);
      }
    }
  }

  /** After any sequence of requests from an empty table, an external id is on monitoring exactly when it was
      started and never stopped after that: a stopped id is never on monitoring again. */
  lemma {:induction false} StoppedStaysStopped(requests: seq<Request>, id: int)
    ensures var wallets := ServeAll([], requests);
      && (Registered(wallets, id) <==> Started(requests, id))
      && (Monitored(wallets, id) <==> Started(requests, id) && !StoppedAfterStart(requests, id))
  {
    if requests != [] {
      var before := requests[..|requests| - 1];
      StoppedStaysStopped(before, id);
      ServeEffect(ServeAll([], before), requests[|requests| - 1], id);
      StartedAfter(requests, id);
    }
  }

  // ---------- Ingestion after a stop ----------

  lemma NoRowsForUnmonitored(wallets: seq<Wallet>, id: int, trxs: seq<Trx>, visits: Visits, wids: seq<nat>)
    requires !Monitored(wallets, id)
    requires Answers(wids, wallets, Watched(false)) && Known(wallets, Events(visits, wids))
    ensures var r := Ingest(wallets, trxs, Events(visits, wids));
      !r.raised ==> forall i | |trxs| <= i < |r.trxs| ::
        Linked(wallets, r.trxs[i]) && wallets[r.trxs[i].walletId.value].externalId != id
  {
    var events := Events(visits, wids);
    var r := Ingest(wallets, trxs, events);
    IngestsFirstOccurrences(wallets, trxs, events);
    if !r.raised {
      forall i | |trxs| <= i < |r.trxs|
        ensures Linked(wallets, r.trxs[i]) && wallets[r.trxs[i].walletId.value].externalId != id
      {
        var place := Firsts(wallets, trxs, events, |events|)[i - |trxs|];
        EventsComeFromWids(visits, wids, place);
        assert Watched(false)(wallets[events[place].wid]);
      }
    }
  }

  /** A run over the monitored wallets never stores a row for an external id that has been stopped, whatever
      the feeds bring. */
  lemma NoRowsForStopped(requests: seq<Request>, id: int, trxs: seq<Trx>, visits: Visits, wids: seq<nat>)
    requires StoppedAfterStart(requests, id)
    requires Answers(wids, ServeAll([], requests), Watched(false))
    requires Known(ServeAll([], requests), Events(visits, wids))
    ensures var wallets := ServeAll([], requests); var r := Ingest(wallets, trxs, Events(visits, wids));
      !r.raised ==> forall i | |trxs| <= i < |r.trxs| ::
        Linked(wallets, r.trxs[i]) && wallets[r.trxs[i].walletId.value].externalId != id
  {
    StoppedStaysStopped(requests, id);
    NoRowsForUnmonitored(ServeAll([], requests), id, trxs, visits, wids);
  }
}
