/** Matching chain transactions with expected deposits of platform wallets. */
module Filling {
  import opened Rows
  import opened Feeds
  import opened Manager
  import opened Lifecycle
  import opened Ingestion

  // ---------- The loop as a function ----------

  /** The element passes validation for the wallet whose feed brought it. */
  predicate Valid(wallets: seq<Wallet>, trxs: seq<Trx>, event: Event)
    requires event.Arrival? ==> event.wid < |wallets|
  {
    event.Arrival? && !HasHash(trxs, event.entry.hash) && Addressed(wallets[event.wid], event.entry)
  }

  /** The pick is what the query for an expected deposit may answer. */
  ghost predicate GoodPick(wallets: seq<Wallet>, trxs: seq<Trx>, event: Event, pick: Option<nat>)
    requires event.Arrival? ==> event.wid < |wallets|
  {
    match pick
    case Some(i) => Valid(wallets, trxs, event) && i < |trxs| && Awaits(trxs[i], event.wid, event.entry)
    case None => Valid(wallets, trxs, event) ==>
      forall i | 0 <= i < |trxs| :: !Awaits(trxs[i], event.wid, event.entry)
  }

  /** One element: `pick` is the row the query finds, if the query is made. */
  function Meet(reading: Reading, wallets: seq<Wallet>, trxs: seq<Trx>, event: Event, pick: Option<nat>): Outcome
    requires event.Arrival? ==> event.wid < |wallets|
  {
    if event.Error? then Outcome(trxs, true)
    else if HasHash(trxs, event.entry.hash) then Outcome(trxs, false)
    else if event.entry.addressTo.None? then Outcome(trxs, true)
    else if pick.None? || pick.value >= |trxs| then Outcome(trxs, false)
    else if reading.Rebound? then Outcome(trxs, true)
    else Outcome(trxs[pick.value := Filled(trxs[pick.value], event.entry.hash, event.entry.value)], false)
  }

  function Run(reading: Reading, wallets: seq<Wallet>, trxs: seq<Trx>, events: seq<Event>,
               picks: seq<Option<nat>>): Outcome
    requires Known(wallets, events) && |picks| == |events|
  {
    if events == [] then Outcome(trxs, false)
    else
      var n := |events| - 1;
      var before := Run(reading, wallets, trxs, events[..n], picks[..n]);
      if before.raised then before else Meet(reading, wallets, before.trxs, events[n], picks[n])
  }

  /** Every pick is an answer to the query at its time. */
  ghost predicate GoodPicks(reading: Reading, wallets: seq<Wallet>, trxs: seq<Trx>, events: seq<Event>,
                            picks: seq<Option<nat>>)
    requires Known(wallets, events) && |picks| == |events|
    decreases |events|
  {
    events == [] ||
    var n := |events| - 1;
    var before := Run(reading, wallets, trxs, events[..n], picks[..n]);
    && GoodPicks(reading, wallets, trxs, events[..n], picks[..n])
    && !before.raised
    && GoodPick(wallets, before.trxs, events[n], picks[n])
  }

  /** The run over these elements, with these answers to its queries, ends like this. */
  ghost predicate Ran(reading: Reading, wallets: seq<Wallet>, trxs: seq<Trx>, events: seq<Event>,
                      picks: seq<Option<nat>>, r: Outcome)
  {
    && Known(wallets, events) && |picks| == |events|
    && GoodPicks(reading, wallets, trxs, events, picks)
    && Run(reading, wallets, trxs, events, picks) == r
  }

  function Picked(picks: seq<Option<nat>>): nat {
    if picks == [] then 0 else Picked(picks[..|picks| - 1]) + (if picks[|picks| - 1].Some? then 1 else 0)
  }

  // ---------- As written ----------

  /** An element that ends the run as written: an error of the gateway, a missing target, or a valid element that
      some expected deposit awaits. */
  ghost predicate Fatal(wallets: seq<Wallet>, trxs: seq<Trx>, event: Event)
    requires event.Arrival? ==> event.wid < |wallets|
  {
    || event.Error?
    || (event.entry.addressTo.None? && !HasHash(trxs, event.entry.hash))
    || (Valid(wallets, trxs, event) && exists i :: 0 <= i < |trxs| && Awaits(trxs[i], event.wid, event.entry))
  }

  ghost predicate MeetsFatal(wallets: seq<Wallet>, trxs: seq<Trx>, events: seq<Event>)
    requires Known(wallets, events)
  {
    exists n :: 0 <= n < |events| && Fatal(wallets, trxs, events[n])
  }

  lemma FatalInPrefix(wallets: seq<Wallet>, trxs: seq<Trx>, met: seq<Event>, events: seq<Event>)
    requires Known(wallets, met) && Known(wallets, events) && met <= events && MeetsFatal(wallets, trxs, met)
    ensures MeetsFatal(wallets, trxs, events)
  {
    var n :| 0 <= n < |met| && Fatal(wallets, trxs, met[n]);
    assert events[n] == met[n];
  }

  /** As written, a run never changes a row, whatever the feeds; and it fails exactly on an error, on a missing
      target, or on the first valid element for which there is an expected deposit. */
  lemma {:induction false} AsWrittenFillsNothing(wallets: seq<Wallet>, trxs: seq<Trx>, events: seq<Event>,
                                                 picks: seq<Option<nat>>)
    requires Known(wallets, events) && |picks| == |events|
    requires GoodPicks(Rebound, wallets, trxs, events, picks)
    ensures var r := Run(Rebound, wallets, trxs, events, picks);
      && r.trxs == trxs
      && (r.raised <==> MeetsFatal(wallets, trxs, events))
      && (!r.raised ==> Picked(picks) == 0)
    decreases |events|
  {
    if events != [] {
      var n := |events| - 1;
      AsWrittenFillsNothing(wallets, trxs, events[..n], picks[..n]);
      if Fatal(wallets, trxs, events[n]) {
        assert events[n].Arrival? ==> GoodPick(wallets, trxs, events[n], picks[n]);
      }
      assert forall m | 0 <= m < n :: events[..n][m] == events[m];
    }
  }

  // ---------- What the fill is for ----------

  /** A lane: a wallet, a sender and a currency, under which expected deposits and chain transactions meet. */
  datatype Lane = Lane(wid: nat, sender: string, currency: string)

  function LaneOf(event: Event): Lane
    requires event.Arrival?
  {
    Lane(event.wid, Lower(event.entry.addressFrom), Lower(event.entry.currencySlug))
  }

  predicate Under(t: Trx, lane: Lane) {
    t.walletId == Some(lane.wid) && t.addressFrom == lane.sender && t.currencySlug == lane.currency
  }

  ghost function Pending(trxs: seq<Trx>, lane: Lane): set<nat> {
    set i | 0 <= i < |trxs| && Expected(trxs[i]) && Under(trxs[i], lane)
  }

  /** The hashes, not stored yet, that the feeds bring for the lane to the wallet's own address. */
  ghost function Offered(wallets: seq<Wallet>, trxs: seq<Trx>, events: seq<Event>, lane: Lane): set<string>
    requires Known(wallets, events)
  {
    set event | event in events && Valid(wallets, trxs, event) && LaneOf(event) == lane :: event.entry.hash
  }

  /** The rows of the lane that got a hash. */
  ghost function SettledIn(before: seq<Trx>, after: seq<Trx>, lane: Lane): set<nat> {
    Pending(before, lane) - Pending(after, lane)
  }

  function Min(a: nat, b: nat): nat {
    if a <= b then a else b
  }

  /** The number of rows settled under each lane is as large as both sides allow. */
  ghost predicate Exact(wallets: seq<Wallet>, before: seq<Trx>, events: seq<Event>, after: seq<Trx>)
    requires Known(wallets, events)
  {
    forall lane ::
      |SettledIn(before, after, lane)| == Min(|Pending(before, lane)|, |Offered(wallets, before, events, lane)|)
  }

  /** No two lanes with expected deposits are offered the same hash. */
  ghost predicate Uncontested(wallets: seq<Wallet>, trxs: seq<Trx>, events: seq<Event>)
    requires Known(wallets, events)
  {
    forall a, b | a in events && b in events && Valid(wallets, trxs, a) && Valid(wallets, trxs, b) ::
      a.entry.hash == b.entry.hash && Pending(trxs, LaneOf(a)) != {} && Pending(trxs, LaneOf(b)) != {} ==>
        LaneOf(a) == LaneOf(b)
  }

  // ---------- What the loop keeps ----------

  /** Row `i` was settled by a valid element met so far. */
  ghost predicate SettledBy(wallets: seq<Wallet>, trxs: seq<Trx>, events: seq<Event>, now: seq<Trx>, i: nat)
    requires Known(wallets, events) && i < |trxs| && i < |now|
  {
    exists event :: event in events && Valid(wallets, trxs, event)
      && now[i] == trxs[i].(hash := Some(event.entry.hash), value := event.entry.value)
      && Awaits(trxs[i], event.wid, event.entry)
  }

  /** All expected deposits. */
  ghost function Unsettled(trxs: seq<Trx>): set<nat> {
    set i | 0 <= i < |trxs| && Expected(trxs[i])
  }

  /** After some elements: each row is as it was or settled; every valid element has found its hash stored or its
      lane without expected deposits; and the rows that got a hash are as many as the picks. */
  ghost predicate Keeps(wallets: seq<Wallet>, trxs: seq<Trx>, events: seq<Event>, picks: seq<Option<nat>>,
                        now: seq<Trx>)
    requires Known(wallets, events)
  {
    && |now| == |trxs|
    && (forall i | 0 <= i < |trxs| :: now[i] == trxs[i] || SettledBy(wallets, trxs, events, now, i))
    && (forall event | event in events && Valid(wallets, trxs, event) ::
          HasHash(now, event.entry.hash) || Pending(now, LaneOf(event)) == {})
    && (forall hash | HasHash(trxs, hash) :: HasHash(now, hash))
    && |Unsettled(trxs)| == |Unsettled(now)| + Picked(picks)
  }

  lemma HashesAfterFill(trxs: seq<Trx>, i: nat, hash: string, value: real, other: string)
    requires i < |trxs| && trxs[i].hash.None?
    ensures HasHash(trxs[i := Filled(trxs[i], hash, value)], other) <==> HasHash(trxs, other) || other == hash
  {
    var after := trxs[i := Filled(trxs[i], hash, value)];
    assert after[i].hash == Some(hash);
    if HasHash(trxs, other) {
      var j :| 0 <= j < |trxs| && trxs[j].hash == Some(other);
      assert after[j] == trxs[j];
    }
  }

  lemma PickedMore(picks: seq<Option<nat>>, pick: Option<nat>)
    ensures Picked(picks + [pick]) == Picked(picks) + (if pick.Some? then 1 else 0)
  {
    assert (picks + [pick])[..|picks|] == picks;
  }

  /** An element that settles nothing. */
  lemma PassingKeeps(wallets: seq<Wallet>, trxs: seq<Trx>, events: seq<Event>, picks: seq<Option<nat>>,
                     now: seq<Trx>, event: Event)
    requires Known(wallets, events + [event]) && Known(wallets, events)
    requires event.Arrival? && event.wid < |wallets|
    requires Keeps(wallets, trxs, events, picks, now) && GoodPick(wallets, now, event, None)
    ensures Keeps(wallets, trxs, events + [event], picks + [None], now)
  {
    PickedMore(picks, None);
    if Valid(wallets, trxs, event) && !HasHash(now, event.entry.hash) {
      forall i | i in Pending(now, LaneOf(event)) ensures false {
        assert Awaits(now[i], event.wid, event.entry);
      }
    }
    forall i | 0 <= i < |trxs| && now[i] != trxs[i] ensures SettledBy(wallets, trxs, events + [event], now, i) {
      assert SettledBy(wallets, trxs, events, now, i);
    }
  }

  /** A settled row is no longer expected, so a row that is picked is still as it was. */
  lemma PickedIsUntouched(wallets: seq<Wallet>, trxs: seq<Trx>, events: seq<Event>, picks: seq<Option<nat>>,
                          now: seq<Trx>, i: nat)
    requires Known(wallets, events) && Keeps(wallets, trxs, events, picks, now)
    requires i < |now| && Expected(now[i])
    ensures now[i] == trxs[i]
  {
  }

  /** An element that settles row `i`. */
  lemma SettlingKeeps(wallets: seq<Wallet>, trxs: seq<Trx>, events: seq<Event>, picks: seq<Option<nat>>,
                      now: seq<Trx>, event: Event, i: nat)
    requires Known(wallets, events + [event]) && Known(wallets, events)
    requires event.Arrival? && event.wid < |wallets|
    requires Keeps(wallets, trxs, events, picks, now) && GoodPick(wallets, now, event, Some(i))
    ensures Keeps(wallets, trxs, events + [event], picks + [Some(i)],
                  now[i := Filled(now[i], event.entry.hash, event.entry.value)])
  {
    var e := event.entry;
    var after := now[i := Filled(now[i], e.hash, e.value)];
    PickedMore(picks, Some(i));
    PickedIsUntouched(wallets, trxs, events, picks, now, i);
    forall hash ensures HasHash(after, hash) <==> HasHash(now, hash) || hash == e.hash {
      HashesAfterFill(now, i, e.hash, e.value, hash);
    }
    assert Valid(wallets, trxs, event);
    forall j | 0 <= j < |trxs| && after[j] != trxs[j] ensures SettledBy(wallets, trxs, events + [event], after, j) {
      if j != i {
        assert SettledBy(wallets, trxs, events, now, j);
      }
    }
    forall x | x in events + [event] && Valid(wallets, trxs, x)
      ensures HasHash(after, x.entry.hash) || Pending(after, LaneOf(x)) == {}
    {
      if x in events {
        assert Pending(after, LaneOf(x)) <= Pending(now, LaneOf(x));
      }
    }
    assert Unsettled(after) == Unsettled(now) - {i};
  }

  lemma {:induction false} RunKeeps(wallets: seq<Wallet>, trxs: seq<Trx>, events: seq<Event>, picks: seq<Option<nat>>)
    requires Known(wallets, events) && |picks| == |events|
    requires GoodPicks(EntryKept, wallets, trxs, events, picks)
    requires !Run(EntryKept, wallets, trxs, events, picks).raised
    ensures Keeps(wallets, trxs, events, picks, Run(EntryKept, wallets, trxs, events, picks).trxs)
    decreases |events|
  {
    if events != [] {
      var n := |events| - 1;
      RunKeeps(wallets, trxs, events[..n], picks[..n]);
      var now := Run(EntryKept, wallets, trxs, events[..n], picks[..n]).trxs;
      assert events == events[..n] + [events[n]] && picks == picks[..n] + [picks[n]];
      match picks[n]
      case Some(i) => SettlingKeeps(wallets, trxs, events[..n], picks[..n], now, events[n], i);
      case None => PassingKeeps(wallets, trxs, events[..n], picks[..n], now, events[n]);
    }
  }

  /** No two rows ever get one hash: the unique columns survive the run. */
  lemma {:induction false} RunKeepsUnique(reading: Reading, wallets: seq<Wallet>, trxs: seq<Trx>,
                                          events: seq<Event>, picks: seq<Option<nat>>)
    requires Known(wallets, events) && |picks| == |events| && Unique(trxs)
    requires GoodPicks(reading, wallets, trxs, events, picks)
    ensures Unique(Run(reading, wallets, trxs, events, picks).trxs)
    decreases |events|
  {
    if events != [] {
      var n := |events| - 1;
      RunKeepsUnique(reading, wallets, trxs, events[..n], picks[..n]);
      var now := Run(reading, wallets, trxs, events[..n], picks[..n]).trxs;
      if picks[n].Some? {
        FillKeepsUnique(now, picks[n].value, events[n].entry.hash, events[n].entry.value);
      }
    }
  }

  lemma FillKeepsUnique(trxs: seq<Trx>, i: nat, hash: string, value: real)
    requires Unique(trxs) && i < |trxs| && !HasHash(trxs, hash)
    ensures Unique(trxs[i := Filled(trxs[i], hash, value)])
    ensures Insertable(trxs[..i] + trxs[i + 1..], Filled(trxs[i], hash, value))
  {
    var after := trxs[i := Filled(trxs[i], hash, value)];
    forall j, k | 0 <= j < k < |after| ensures !SameKey(after[j], after[k]) {
      assert !SameKey(trxs[j], trxs[k]);
    }
    SameKeysReplace(after, i, after[i]);
    assert after[..i] == trxs[..i] && after[i + 1..] == trxs[i + 1..];
  }

  // ---------- Greedy is exact ----------

  lemma {:induction false} InjectiveImage(ids: set<nat>, trxs: seq<Trx>, hashes: set<string>)
    requires forall i | i in ids :: i < |trxs| && trxs[i].hash.Some? && trxs[i].hash.value in hashes
    requires forall i, j | i in ids && j in ids && i != j :: trxs[i].hash != trxs[j].hash
    ensures |ids| <= |hashes|
    ensures (forall hash | hash in hashes :: exists i :: i in ids && trxs[i].hash == Some(hash)) ==> |ids| == |hashes|
    decreases |ids|
  {
    if ids != {} {
      var i :| i in ids;
      InjectiveImage(ids - {i}, trxs, hashes - {trxs[i].hash.value});
      if forall hash | hash in hashes :: exists j :: j in ids && trxs[j].hash == Some(hash) {
        forall hash | hash in hashes - {trxs[i].hash.value}
          ensures exists j :: j in ids - {i} && trxs[j].hash == Some(hash)
        {
          var j :| j in ids && trxs[j].hash == Some(hash);
          assert j in ids - {i};
        }
      }
    }
  }

  /** A row settled under a lane carries a hash offered for the lane. */
  lemma SettledIsOffered(wallets: seq<Wallet>, trxs: seq<Trx>, events: seq<Event>, picks: seq<Option<nat>>,
                         after: seq<Trx>, lane: Lane, i: nat)
    requires Known(wallets, events) && Keeps(wallets, trxs, events, picks, after) && i in SettledIn(trxs, after, lane)
    ensures i < |after| && after[i].hash.Some? && after[i].hash.value in Offered(wallets, trxs, events, lane)
  {
    assert SettledBy(wallets, trxs, events, after, i);
    var event :| event in events && Valid(wallets, trxs, event)
      && after[i] == trxs[i].(hash := Some(event.entry.hash), value := event.entry.value)
      && Awaits(trxs[i], event.wid, event.entry);
    assert LaneOf(event) == lane;
  }

  /** The hash settled a row of another lane. */
  ghost predicate WentElsewhere(trxs: seq<Trx>, after: seq<Trx>, lane: Lane, hash: string) {
    exists i :: 0 <= i < |trxs| && i < |after|
      && Expected(trxs[i]) && !Under(trxs[i], lane) && after[i].hash == Some(hash)
  }

  /** The lane still has expected deposits, and a hash offered for it settled a row of another lane. */
  ghost predicate Outbid(wallets: seq<Wallet>, trxs: seq<Trx>, events: seq<Event>, after: seq<Trx>, lane: Lane)
    requires Known(wallets, events)
  {
    && Pending(after, lane) != {}
    && exists hash :: hash in Offered(wallets, trxs, events, lane) && WentElsewhere(trxs, after, lane, hash)
  }

  /** While the lane still has expected deposits, every hash offered for it has settled some row. */
  lemma OfferedIsUsed(wallets: seq<Wallet>, trxs: seq<Trx>, events: seq<Event>, picks: seq<Option<nat>>,
                      after: seq<Trx>, lane: Lane, hash: string) returns (i: nat)
    requires Known(wallets, events) && Keeps(wallets, trxs, events, picks, after)
    requires Pending(after, lane) != {} && hash in Offered(wallets, trxs, events, lane)
    ensures i < |trxs| == |after| && after[i].hash == Some(hash) && Expected(trxs[i])
    ensures SettledBy(wallets, trxs, events, after, i)
  {
    var offer :| offer in events && Valid(wallets, trxs, offer) && LaneOf(offer) == lane && offer.entry.hash == hash;
    i :| 0 <= i < |after| && after[i].hash == Some(hash);
    assert after[i] != trxs[i];
  }

  lemma OfferedIsSettled(wallets: seq<Wallet>, trxs: seq<Trx>, events: seq<Event>, picks: seq<Option<nat>>,
                         after: seq<Trx>, lane: Lane, hash: string)
    requires Known(wallets, events) && Keeps(wallets, trxs, events, picks, after)
    requires Pending(after, lane) != {} && hash in Offered(wallets, trxs, events, lane)
    requires !WentElsewhere(trxs, after, lane, hash)
    ensures exists i :: i in SettledIn(trxs, after, lane) && after[i].hash == Some(hash)
  {
    var i := OfferedIsUsed(wallets, trxs, events, picks, after, lane, hash);
    assert i in SettledIn(trxs, after, lane);
  }

  /** Without contested hashes no lane is outbid. */
  lemma UncontestedIsNotOutbid(wallets: seq<Wallet>, trxs: seq<Trx>, events: seq<Event>, picks: seq<Option<nat>>,
                               after: seq<Trx>, lane: Lane)
    requires Known(wallets, events) && Keeps(wallets, trxs, events, picks, after)
    requires Uncontested(wallets, trxs, events)
    ensures !Outbid(wallets, trxs, events, after, lane)
  {
    if Outbid(wallets, trxs, events, after, lane) {
      var hash, i := Winner(wallets, trxs, events, after, lane);
      StillPending(wallets, trxs, events, picks, after, lane);
      WinnerContests(wallets, trxs, events, after, lane, hash, i);
    }
  }

  lemma WinnerContests(wallets: seq<Wallet>, trxs: seq<Trx>, events: seq<Event>, after: seq<Trx>, lane: Lane,
                       hash: string, i: nat)
    requires Known(wallets, events) && hash in Offered(wallets, trxs, events, lane) && Pending(trxs, lane) != {}
    requires i < |trxs| && i < |after| && Expected(trxs[i]) && !Under(trxs[i], lane) && after[i].hash == Some(hash)
    requires SettledBy(wallets, trxs, events, after, i)
    ensures !Uncontested(wallets, trxs, events)
  {
    var offer :| offer in events && Valid(wallets, trxs, offer) && LaneOf(offer) == lane && offer.entry.hash == hash;
    var event :| event in events && Valid(wallets, trxs, event)
      && after[i] == trxs[i].(hash := Some(event.entry.hash), value := event.entry.value)
      && Awaits(trxs[i], event.wid, event.entry);
    assert i in Pending(trxs, LaneOf(event));
  }

  lemma StillPending(wallets: seq<Wallet>, trxs: seq<Trx>, events: seq<Event>, picks: seq<Option<nat>>,
                     after: seq<Trx>, lane: Lane)
    requires Known(wallets, events) && Keeps(wallets, trxs, events, picks, after)
    ensures Pending(after, lane) <= Pending(trxs, lane)
  {
    forall i | i in Pending(after, lane) ensures i in Pending(trxs, lane) {
      PickedIsUntouched(wallets, trxs, events, picks, after, i);
    }
  }

  lemma SettledHashesDiffer(trxs: seq<Trx>, after: seq<Trx>, ids: set<nat>)
    requires Unique(after) && forall i | i in ids :: i < |after| && after[i].hash.Some?
    ensures forall i, j | i in ids && j in ids && i != j :: after[i].hash != after[j].hash
  {
    forall i, j | i in ids && j in ids && i != j ensures after[i].hash != after[j].hash {
      assert !SameKey(after[if i < j then i else j], after[if i < j then j else i]);
    }
  }

  /** Never more rows are settled under a lane than it has expected deposits or offered hashes. */
  lemma AtMostUnder(wallets: seq<Wallet>, trxs: seq<Trx>, events: seq<Event>, picks: seq<Option<nat>>,
                    after: seq<Trx>, lane: Lane)
    requires Known(wallets, events) && Keeps(wallets, trxs, events, picks, after) && Unique(after)
    ensures |SettledIn(trxs, after, lane)| <= |Pending(trxs, lane)|
    ensures |SettledIn(trxs, after, lane)| <= |Offered(wallets, trxs, events, lane)|
  {
    var settled, offered := SettledIn(trxs, after, lane), Offered(wallets, trxs, events, lane);
    forall i | i in settled ensures i < |after| && after[i].hash.Some? && after[i].hash.value in offered {
      SettledIsOffered(wallets, trxs, events, picks, after, lane, i);
    }
    SettledHashesDiffer(trxs, after, settled);
    InjectiveImage(settled, after, offered);
    SubsetSize(settled, Pending(trxs, lane));
  }

  /** While a lane still has expected deposits and was not outbid, its hashes have all been used. */
  lemma AllUsedUnder(wallets: seq<Wallet>, trxs: seq<Trx>, events: seq<Event>, picks: seq<Option<nat>>,
                     after: seq<Trx>, lane: Lane)
    requires Known(wallets, events) && Keeps(wallets, trxs, events, picks, after) && Unique(after)
    requires !Outbid(wallets, trxs, events, after, lane) && Pending(after, lane) != {}
    ensures |SettledIn(trxs, after, lane)| == |Offered(wallets, trxs, events, lane)|
  {
    var settled, offered := SettledIn(trxs, after, lane), Offered(wallets, trxs, events, lane);
    forall i | i in settled ensures i < |after| && after[i].hash.Some? && after[i].hash.value in offered {
      SettledIsOffered(wallets, trxs, events, picks, after, lane, i);
    }
    forall hash | hash in offered ensures exists i :: i in settled && after[i].hash == Some(hash) {
      OfferedIsSettled(wallets, trxs, events, picks, after, lane, hash);
    }
    SettledHashesDiffer(trxs, after, settled);
    InjectiveImage(settled, after, offered);
  }

  /** The settled rows of a lane share the offered hashes that did not go to row `other`. */
  lemma OneHashLess(wallets: seq<Wallet>, trxs: seq<Trx>, events: seq<Event>, picks: seq<Option<nat>>,
                    after: seq<Trx>, lane: Lane, hash: string, other: nat)
    requires Known(wallets, events) && Keeps(wallets, trxs, events, picks, after) && Unique(after)
    requires hash in Offered(wallets, trxs, events, lane)
    requires other < |trxs| && !Under(trxs[other], lane) && after[other].hash == Some(hash)
    ensures |SettledIn(trxs, after, lane)| < |Offered(wallets, trxs, events, lane)|
  {
    var settled, offered := SettledIn(trxs, after, lane), Offered(wallets, trxs, events, lane);
    forall i | i in settled ensures i < |after| && after[i].hash.Some? && after[i].hash.value in offered - {hash} {
      SettledIsOffered(wallets, trxs, events, picks, after, lane, i);
      assert i != other;
      HashesDiffer(after, i, other);
    }
    SettledHashesDiffer(trxs, after, settled);
    InjectiveImage(settled, after, offered - {hash});
  }

  lemma HashesDiffer(trxs: seq<Trx>, i: nat, j: nat)
    requires Unique(trxs) && i < |trxs| && j < |trxs| && i != j && trxs[i].hash.Some?
    ensures trxs[i].hash != trxs[j].hash
  {
    assert !SameKey(trxs[if i < j then i else j], trxs[if i < j then j else i]);
  }

  lemma OneDepositLeft(wallets: seq<Wallet>, trxs: seq<Trx>, events: seq<Event>, picks: seq<Option<nat>>,
                       after: seq<Trx>, lane: Lane)
    requires Known(wallets, events) && Keeps(wallets, trxs, events, picks, after) && Pending(after, lane) != {}
    ensures |SettledIn(trxs, after, lane)| < |Pending(trxs, lane)|
  {
    StillPending(wallets, trxs, events, picks, after, lane);
    var i :| i in Pending(after, lane);
    SubsetSize(SettledIn(trxs, after, lane) + {i}, Pending(trxs, lane));
  }

  /** A lane that was outbid could have settled one row more. */
  lemma OutbidFallsShort(wallets: seq<Wallet>, trxs: seq<Trx>, events: seq<Event>, picks: seq<Option<nat>>,
                         after: seq<Trx>, lane: Lane)
    requires Known(wallets, events) && Keeps(wallets, trxs, events, picks, after) && Unique(after)
    requires Outbid(wallets, trxs, events, after, lane)
    ensures |SettledIn(trxs, after, lane)| < Min(|Pending(trxs, lane)|, |Offered(wallets, trxs, events, lane)|)
  {
    var hash, other := Winner(wallets, trxs, events, after, lane);
    OneHashLess(wallets, trxs, events, picks, after, lane, hash, other);
    OneDepositLeft(wallets, trxs, events, picks, after, lane);
  }

  /** The hash that went elsewhere, and the row it went to. */
  lemma Winner(wallets: seq<Wallet>, trxs: seq<Trx>, events: seq<Event>, after: seq<Trx>, lane: Lane)
    returns (hash: string, other: nat)
    requires Known(wallets, events) && Outbid(wallets, trxs, events, after, lane)
    ensures hash in Offered(wallets, trxs, events, lane) && other < |trxs| && other < |after|
    ensures Expected(trxs[other]) && !Under(trxs[other], lane) && after[other].hash == Some(hash)
  {
    hash :| hash in Offered(wallets, trxs, events, lane) && WentElsewhere(trxs, after, lane, hash);
    other :| 0 <= other < |trxs| && other < |after|
      && Expected(trxs[other]) && !Under(trxs[other], lane) && after[other].hash == Some(hash);
  }

  /** One lane: exactly the smaller number if and only if it was not outbid by another lane. */
  lemma ExactUnderIff(wallets: seq<Wallet>, trxs: seq<Trx>, events: seq<Event>, picks: seq<Option<nat>>,
                      after: seq<Trx>, lane: Lane)
    requires Known(wallets, events) && Keeps(wallets, trxs, events, picks, after) && Unique(after)
    ensures |SettledIn(trxs, after, lane)| == Min(|Pending(trxs, lane)|, |Offered(wallets, trxs, events, lane)|)
      <==> !Outbid(wallets, trxs, events, after, lane)
  {
    AtMostUnder(wallets, trxs, events, picks, after, lane);
    if Outbid(wallets, trxs, events, after, lane) {
      OutbidFallsShort(wallets, trxs, events, picks, after, lane);
    } else if Pending(after, lane) == {} {
      assert SettledIn(trxs, after, lane) == Pending(trxs, lane);
    } else {
      AllUsedUnder(wallets, trxs, events, picks, after, lane);
    }
  }

  lemma SubsetSize(a: set<nat>, b: set<nat>)
    requires a <= b
    ensures |a| <= |b|
  {
    assert b == a + (b - a);
  }

  /** The fill as its tests expect it: a finished run settles, under every lane, at most as many expected deposits
      as both sides allow, and exactly so many if and only if the lane was not outbid: it has no deposits left, or no
      hash offered for it went to another lane. Where no two lanes with expected deposits are offered one hash, none
      is outbid. */
  lemma GreedyFillIsExact(wallets: seq<Wallet>, trxs: seq<Trx>, events: seq<Event>, picks: seq<Option<nat>>, lane: Lane)
    requires Known(wallets, events) && |picks| == |events| && Unique(trxs)
    requires GoodPicks(EntryKept, wallets, trxs, events, picks)
    requires !Run(EntryKept, wallets, trxs, events, picks).raised
    ensures var after := Run(EntryKept, wallets, trxs, events, picks).trxs;
      var most := Min(|Pending(trxs, lane)|, |Offered(wallets, trxs, events, lane)|);
      && |SettledIn(trxs, after, lane)| <= most
      && (|SettledIn(trxs, after, lane)| == most <==> !Outbid(wallets, trxs, events, after, lane))
      && (Uncontested(wallets, trxs, events) ==> |SettledIn(trxs, after, lane)| == most)
  {
    var after := Run(EntryKept, wallets, trxs, events, picks).trxs;
    RunKeeps(wallets, trxs, events, picks);
    RunKeepsUnique(EntryKept, wallets, trxs, events, picks);
    AtMostUnder(wallets, trxs, events, picks, after, lane);
    ExactUnderIff(wallets, trxs, events, picks, after, lane);
    if Uncontested(wallets, trxs, events) {
      UncontestedIsNotOutbid(wallets, trxs, events, picks, after, lane);
    }
  }

  /** Each row of a finished run is as it was, or was an expected deposit and has hash and value -- nothing else --
      of a valid element for its own wallet, sender and currency; no two rows got one hash; and the number of
      expected deposits drops by exactly the counter. */
  lemma FillTouchesOnlyExpected(wallets: seq<Wallet>, trxs: seq<Trx>, events: seq<Event>, picks: seq<Option<nat>>)
    requires Known(wallets, events) && |picks| == |events| && Unique(trxs)
    requires GoodPicks(EntryKept, wallets, trxs, events, picks)
    requires !Run(EntryKept, wallets, trxs, events, picks).raised
    ensures var after := Run(EntryKept, wallets, trxs, events, picks).trxs;
      && |after| == |trxs| && Unique(after)
      && (forall i | 0 <= i < |trxs| :: after[i] == trxs[i] || SettledBy(wallets, trxs, events, after, i))
      && |Unsettled(trxs)| == |Unsettled(after)| + Picked(picks)
  {
    RunKeeps(wallets, trxs, events, picks);
    RunKeepsUnique(EntryKept, wallets, trxs, events, picks);
  }

  /** Some valid element meets an expected deposit. */
  ghost predicate Wanted(wallets: seq<Wallet>, trxs: seq<Trx>, events: seq<Event>)
    requires Known(wallets, events)
  {
    exists event :: event in events && Valid(wallets, trxs, event) && Pending(trxs, LaneOf(event)) != {}
  }

  /** As written, the run leaves the table as it is; that is exact if and only if no valid element meets an
      expected deposit, which is when there is nothing to fill. */
  lemma AsWrittenIsExactIff(wallets: seq<Wallet>, trxs: seq<Trx>, events: seq<Event>)
    requires Known(wallets, events)
    ensures Exact(wallets, trxs, events, trxs) <==> !Wanted(wallets, trxs, events)
  {
    if Wanted(wallets, trxs, events) {
      var event :| event in events && Valid(wallets, trxs, event) && Pending(trxs, LaneOf(event)) != {};
      var lane := LaneOf(event);
      assert event.entry.hash in Offered(wallets, trxs, events, lane);
      assert SettledIn(trxs, trxs, lane) == {};
      assert |SettledIn(trxs, trxs, lane)| != Min(|Pending(trxs, lane)|, |Offered(wallets, trxs, events, lane)|);
    } else {
      forall lane
        ensures |SettledIn(trxs, trxs, lane)| == Min(|Pending(trxs, lane)|, |Offered(wallets, trxs, events, lane)|)
      {
        assert SettledIn(trxs, trxs, lane) == {};
        if Pending(trxs, lane) != {} {
          assert Offered(wallets, trxs, events, lane) == {};
        }
      }
    }
  }

  // ---------- A run in plain terms ----------

  /** Row `t` was an expected deposit of wallet `n`, and became `t'` by the hash and the amount of element `m` of the
      feed of that wallet, which was sent to its address from the expected sender in the expected currency. */
  ghost predicate FilledFrom(wallets: seq<Wallet>, visits: Visits, wids: seq<nat>, n: nat, m: nat, t: Trx, t': Trx) {
    && Delivered(visits, wids, n, m) && wids[n] < |wallets|
    && var raw := visits[wids[n]].elements[m];
    && raw.addressTo.Some? && Lower(wallets[wids[n]].address) == Lower(raw.addressTo.value)
    && t.status == NEW && t.hash == None && t.walletId == Some(wids[n])
    && t.addressFrom == Lower(raw.addressFrom) && t.currencySlug == Lower(raw.currencySlug)
    && t' == t.(hash := Some(Lower(raw.hash)), value := raw.value)
  }

  ghost predicate FilledByRun(wallets: seq<Wallet>, visits: Visits, wids: seq<nat>, t: Trx, t': Trx) {
    exists n: nat, m: nat :: FilledFrom(wallets, visits, wids, n, m, t, t')
  }

  lemma SettledIsFilled(wallets: seq<Wallet>, trxs: seq<Trx>, visits: Visits, wids: seq<nat>, after: seq<Trx>, i: nat)
    requires Known(wallets, Events(visits, wids)) && i < |trxs| && i < |after|
    requires SettledBy(wallets, trxs, Events(visits, wids), after, i)
    ensures FilledByRun(wallets, visits, wids, trxs[i], after[i])
  {
    var events := Events(visits, wids);
    var event :| event in events && Valid(wallets, trxs, event)
      && after[i] == trxs[i].(hash := Some(event.entry.hash), value := event.entry.value)
      && Awaits(trxs[i], event.wid, event.entry);
    var k :| 0 <= k < |events| && events[k] == event;
    NothingElseIsMet(visits, wids, k);
    var n: nat, m: nat :| IsElement(visits, wids, n, m, event);
    var raw := visits[wids[n]].elements[m];
    LowerTwice(raw.addressFrom);
    LowerTwice(raw.currencySlug);
    LowerTwice(raw.addressTo.value);
    assert FilledFrom(wallets, visits, wids, n, m, trxs[i], after[i]);
  }

  /** A finished run has passed an element without target only when its hash was stored, as it is afterwards. */
  lemma {:induction false} WithoutTargetIsStored(reading: Reading, wallets: seq<Wallet>, trxs: seq<Trx>,
                                              events: seq<Event>, picks: seq<Option<nat>>, k: nat)
    requires Known(wallets, events) && |picks| == |events| && k < |events|
    requires GoodPicks(reading, wallets, trxs, events, picks) && !Run(reading, wallets, trxs, events, picks).raised
    requires events[k].Arrival? && events[k].entry.addressTo.None?
    ensures HasHash(Run(reading, wallets, trxs, events, picks).trxs, events[k].entry.hash)
    decreases |events|
  {
    var n := |events| - 1;
    if k < n {
      WithoutTargetIsStored(reading, wallets, trxs, events[..n], picks[..n], k);
      var now := Run(reading, wallets, trxs, events[..n], picks[..n]).trxs;
      if picks[n].Some? {
        HashesAfterFill(now, picks[n].value, events[n].entry.hash, events[n].entry.value, events[k].entry.hash);
      }
    }
  }

  // ---------- A run is one step ----------

  /** The hash and value that the picks of a run give to each row. */
  function DepositsOf(events: seq<Event>, picks: seq<Option<nat>>): map<nat, Deposit>
    requires |picks| == |events|
  {
    if events == [] then map[]
    else
      var n := |events| - 1;
      var before := DepositsOf(events[..n], picks[..n]);
      if picks[n].Some? && events[n].Arrival?
      then before[picks[n].value := Deposit(events[n].entry.hash, events[n].entry.value)]
      else before
  }

  lemma FillOneMore(trxs: seq<Trx>, deposits: map<nat, Deposit>, i: nat, deposit: Deposit)
    requires i < |trxs| && Expected(FillAll(trxs, deposits)[i])
    ensures i !in deposits && Expected(trxs[i])
    ensures FillAll(trxs, deposits)[i := Filled(FillAll(trxs, deposits)[i], deposit.hash, deposit.value)]
         == FillAll(trxs, deposits[i := deposit])
  {
  }

  /** A finished run gives each picked row the hash and value of its element, and the picked rows were expected
      deposits. */
  lemma {:induction false} RunFillsPicked(reading: Reading, wallets: seq<Wallet>, trxs: seq<Trx>,
                                          events: seq<Event>, picks: seq<Option<nat>>)
    requires Known(wallets, events) && FromGateway(events) && |picks| == |events|
    requires GoodPicks(reading, wallets, trxs, events, picks) && !Run(reading, wallets, trxs, events, picks).raised
    ensures var deposits := DepositsOf(events, picks);
      && Run(reading, wallets, trxs, events, picks).trxs == FillAll(trxs, deposits)
      && (forall i | i in deposits :: i < |trxs| && Expected(trxs[i]) && Lowered(deposits[i].hash))
    decreases |events|
  {
    if events == [] {
      assert FillAll(trxs, map[]) == trxs;
    } else {
      var n := |events| - 1;
      RunFillsPicked(reading, wallets, trxs, events[..n], picks[..n]);
      if picks[n].Some? {
        var e := events[n].entry;
        assert Loaded(e);
        FillOneMore(trxs, DepositsOf(events[..n], picks[..n]), picks[n].value, Deposit(e.hash, e.value));
      }
    }
  }

  /** A finished fill is one indivisible step of the life of the rows. */
  lemma FillIsOneStep(reading: Reading, wallets: seq<Wallet>, trxs: seq<Trx>, events: seq<Event>,
                      picks: seq<Option<nat>>, acks: multiset<Ack>)
    requires Known(wallets, events) && FromGateway(events) && |picks| == |events| && Unique(trxs)
    requires GoodPicks(reading, wallets, trxs, events, picks) && !Run(reading, wallets, trxs, events, picks).raised
    ensures var s, step := State(Store(wallets, trxs), acks), FillRows(DepositsOf(events, picks));
      Enabled(s, step) && Apply(s, step).db.trxs == Run(reading, wallets, trxs, events, picks).trxs
  {
    RunFillsPicked(reading, wallets, trxs, events, picks);
    RunKeepsUnique(reading, wallets, trxs, events, picks);
  }

  // ---------- Which deposits can be settled ----------

  /** Sender and currency were registered in lower case, and the wallet is one whose feed is fetched. */
  predicate Settleable(wallets: seq<Wallet>, t: Trx) {
    && Lowered(t.addressFrom) && Lowered(t.currencySlug)
    && Linked(wallets, t) && Watched(true)(wallets[t.walletId.value])
  }

  /** In a finished run with these visits and answers to its queries, row `i` gets a hash. */
  ghost predicate Settles(wallets: seq<Wallet>, trxs: seq<Trx>, i: nat,
                          visits: Visits, wids: seq<nat>, picks: seq<Option<nat>>)
  {
    && Answers(wids, wallets, Watched(true))
    && exists after: seq<Trx> :: Ran(EntryKept, wallets, trxs, Events(visits, wids), picks, Outcome(after, false))
                    && i < |after| && after[i].hash.Some?
  }

  function Longest(trxs: seq<Trx>): (n: nat)
    ensures forall i | 0 <= i < |trxs| && trxs[i].hash.Some? :: |trxs[i].hash.value| <= n
  {
    if trxs == [] then 0
    else
      var n, last := Longest(trxs[..|trxs| - 1]), trxs[|trxs| - 1];
      if last.hash.Some? && |last.hash.value| > n then |last.hash.value| else n
  }

  /** A hash in lower case that no row has. */
  lemma UnusedHash(trxs: seq<Trx>) returns (hash: string)
    ensures Lowered(hash) && !HasHash(trxs, hash)
  {
    hash := seq(Longest(trxs) + 1, _ => 'a');
  }

  lemma SettledIsSettleable(wallets: seq<Wallet>, trxs: seq<Trx>, i: nat,
                            visits: Visits, wids: seq<nat>, picks: seq<Option<nat>>)
    requires i < |trxs| && Expected(trxs[i]) && Settles(wallets, trxs, i, visits, wids, picks)
    ensures Settleable(wallets, trxs[i])
  {
    var events := Events(visits, wids);
    var after: seq<Trx> :| Ran(EntryKept, wallets, trxs, events, picks, Outcome(after, false))
      && i < |after| && after[i].hash.Some?;
    RunKeeps(wallets, trxs, events, picks);
    assert SettledBy(wallets, trxs, events, after, i);
    var event :| event in events && Valid(wallets, trxs, event)
      && after[i] == trxs[i].(hash := Some(event.entry.hash), value := event.entry.value)
      && Awaits(trxs[i], event.wid, event.entry);
    var n :| 0 <= n < |events| && events[n] == event;
    EventsComeFromWids(visits, wids, n);
    assert Watched(true)(wallets[event.wid]);
    LowerTwice(event.entry.addressFrom);
    LowerTwice(event.entry.currencySlug);
  }

  lemma OneElementRun(wallets: seq<Wallet>, trxs: seq<Trx>, event: Event, i: nat)
    requires event.Arrival? && event.wid < |wallets| && GoodPick(wallets, trxs, event, Some(i))
    ensures Ran(EntryKept, wallets, trxs, [event], [Some(i)],
                Outcome(trxs[i := Filled(trxs[i], event.entry.hash, event.entry.value)], false))
  {
    var events, picks := [event], [Some(i)];
    assert events[..0] == [] && picks[..0] == [];
  }

  lemma SettleableIsSettled(wallets: seq<Wallet>, trxs: seq<Trx>, i: nat)
    requires i < |trxs| && Expected(trxs[i]) && Settleable(wallets, trxs[i])
    ensures exists visits, wids, picks :: Settles(wallets, trxs, i, visits, wids, picks)
  {
    var wid, t := trxs[i].walletId.value, trxs[i];
    var hash := UnusedHash(trxs);
    var e := Entry(hash, t.addressFrom, Some(Lower(wallets[wid].address)), t.currencySlug, t.value);
    LowerTwice(wallets[wid].address);
    var wids := WatchedIds(wallets, true, |wallets|);
    var visits := map[wid := Feed([e])];
    OnlyFeed(wid, [e], wids);
    assert LoadAll([e]) == [e];
    assert Events(visits, wids) == [Arrival(wid, e)];
    OneElementRun(wallets, trxs, Arrival(wid, e), i);
    var after := trxs[i := Filled(t, hash, t.value)];
    assert Ran(EntryKept, wallets, trxs, Events(visits, wids), [Some(i)], Outcome(after, false));
    assert Settles(wallets, trxs, i, visits, wids, [Some(i)]);
  }

  /** The fill as its tests expect it: some feeds settle an expected deposit exactly when its sender and currency
      were registered in lower case and its wallet is an active platform wallet on monitoring. */
  lemma CanBeSettledIff(wallets: seq<Wallet>, trxs: seq<Trx>, i: nat)
    requires i < |trxs| && Expected(trxs[i])
    ensures (exists visits, wids, picks :: Settles(wallets, trxs, i, visits, wids, picks))
      <==> Settleable(wallets, trxs[i])
  {
    if exists visits, wids, picks :: Settles(wallets, trxs, i, visits, wids, picks) {
      var visits, wids, picks :| Settles(wallets, trxs, i, visits, wids, picks);
      SettledIsSettleable(wallets, trxs, i, visits, wids, picks);
    }
    if Settleable(wallets, trxs[i]) {
      SettleableIsSettled(wallets, trxs, i);
    }
  }

  // ---------- Concrete feeds ----------

  const W := Wallet("bitcoin", "w", 223, true, true, true)

  const FIRST: seq<Option<nat>> := [Some(0)]
  const FIRST_ONLY: seq<Option<nat>> := [Some(0), None]

  function Waiting(sender: string, uuid: nat): Trx {
    NewTrx(None, sender, "w", "bitcoin", 123.0, Some(0), Some(uuid))
  }

  function Brought(hash: string, sender: string): Event {
    Arrival(0, Entry(hash, sender, Some("w"), "bitcoin", 123.0))
  }

  /** One expected deposit and its chain transaction: as written the run fails and the deposit stays expected; with
      the element kept it gets the hash. */
  lemma ExpectedDepositArrives()
    ensures
      var trxs, events, picks := [Waiting("a", 7)], [Brought("h", "a")], FIRST;
      && Known([W], events)
      && GoodPicks(Rebound, [W], trxs, events, picks) && GoodPicks(EntryKept, [W], trxs, events, picks)
      && Run(Rebound, [W], trxs, events, picks) == Outcome(trxs, true)
      && Run(EntryKept, [W], trxs, events, picks) == Outcome([Filled(trxs[0], "h", 123.0)], false)
  {
    var trxs, events, picks := [Waiting("a", 7)], [Brought("h", "a")], FIRST;
    assert events[..0] == [] && picks[..0] == [];
    assert "a" == Lower("a") && "bitcoin" == Lower("bitcoin");
    assert Valid([W], trxs, events[0]);
    assert Awaits(trxs[0], 0, events[0].entry);
  }

  /** The first of two elements with one hash settles row 0; the second finds its hash stored. */
  lemma FirstTakesHash(trxs: seq<Trx>, events: seq<Event>)
    requires trxs == [Waiting("a", 7), Waiting("b", 8)] && events == [Brought("h", "a"), Brought("h", "b")]
    ensures Known([W], events)
    ensures Ran(EntryKept, [W], trxs, events, FIRST_ONLY, Outcome([Filled(trxs[0], "h", 123.0), trxs[1]], false))
  {
    assert "a" == Lower("a") && "b" == Lower("b") && "bitcoin" == Lower("bitcoin");
    assert Valid([W], trxs, events[0]) && Awaits(trxs[0], 0, events[0].entry);
    OneElementRun([W], trxs, events[0], 0);
    assert events[..1] == [events[0]] && FIRST_ONLY[..1] == [Some(0)];
    var after := trxs[0 := Filled(trxs[0], "h", 123.0)];
    assert after == [Filled(trxs[0], "h", 123.0), trxs[1]];
    assert after[0].hash == Some("h") && HasHash(after, "h");
  }

  /** When two lanes are offered one hash the greedy order can leave a deposit unfilled that had a hash on offer. */
  lemma ContestedHashIsNotExact()
    ensures
      var trxs, events, picks :=
        [Waiting("a", 7), Waiting("b", 8)], [Brought("h", "a"), Brought("h", "b")], FIRST_ONLY;
      && Known([W], events) && GoodPicks(EntryKept, [W], trxs, events, picks)
      && !Run(EntryKept, [W], trxs, events, picks).raised
      && !Exact([W], trxs, events, Run(EntryKept, [W], trxs, events, picks).trxs)
  {
    var trxs, events := [Waiting("a", 7), Waiting("b", 8)], [Brought("h", "a"), Brought("h", "b")];
    var after := [Filled(trxs[0], "h", 123.0), trxs[1]];
    FirstTakesHash(trxs, events);
    assert "b" == Lower("b") && "bitcoin" == Lower("bitcoin");
    var lane := Lane(0, "b", "bitcoin");
    assert 1 in Pending(trxs, lane) && LaneOf(events[1]) == lane;
    assert Valid([W], trxs, events[1]) && events[1] in events && "h" in Offered([W], trxs, events, lane);
    assert SettledIn(trxs, after, lane) == {};
  }

  // ---------- The monitor ----------

  class CheckPlatformWalletsMonitor {
    const db: Database
    const reading: Reading
    var counter: nat

    constructor (db: Database, reading: Reading)
      ensures this.db == db && this.reading == reading && counter == 0
    {
      this.db, this.reading := db, reading;
      counter := 0;
    }

    /** Some expected deposit that awaits the element. */
    method FindExpected(wid: nat, e: Entry) returns (pick: Option<nat>)
      ensures match pick
        case Some(i) => i < |db.trxs| && Awaits(db.trxs[i], wid, e)
        case None => forall i | 0 <= i < |db.trxs| :: !Awaits(db.trxs[i], wid, e)
      ensures pick.None? <==> forall i | 0 <= i < |db.trxs| ::
        !(db.trxs[i].walletId == Some(wid) && db.trxs[i].status == NEW && db.trxs[i].hash == None
          && db.trxs[i].addressFrom == Lower(e.addressFrom) && db.trxs[i].currencySlug == Lower(e.currencySlug))
    {
      var ofWallet := (t: Trx) => t.walletId == Some(wid) && t.status == NEW && t.hash.None?;
      var fromSender := (t: Trx) => t.addressFrom == Lower(e.addressFrom);
      var inCurrency := (t: Trx) => t.currencySlug == Lower(e.currencySlug);
      pick := Get(db.trxs, [ofWallet, fromSender, inCurrency]);
      forall i | 0 <= i < |db.trxs|
        ensures All([ofWallet, fromSender, inCurrency], db.trxs[i]) <==> Awaits(db.trxs[i], wid, e)
      {
        AllOfThree(ofWallet, fromSender, inCurrency, db.trxs[i]);
      }
    }

    /** One element of the feed; `pick` is the row it is given to. */
    method HandleEntry(wid: nat, e: Entry) returns (pick: Option<nat>, raised: bool)
      requires wid < |db.wallets| && Unique(db.trxs)
      modifies this`counter, db`trxs
      ensures Meet(reading, db.wallets, old(db.trxs), Arrival(wid, e), pick) == Outcome(db.trxs, raised)
      ensures GoodPick(db.wallets, old(db.trxs), Arrival(wid, e), pick)
      ensures Unique(db.trxs)
      ensures !raised ==> counter == old(counter) + if pick.Some? then 1 else 0
    {
      var valid := IsValid(db.trxs, db.wallets[wid], e);
      if valid.None? {
        return None, true;
      }
      if !valid.value {
        return None, false;
      }
      pick := FindExpected(wid, e);
      if pick.None? {
        return None, false;
      }
      if reading.Rebound? {
        return pick, true;
      }
      FillKeepsUnique(db.trxs, pick.value, e.hash, e.value);
      var done := db.UpdateTrx(pick.value, Filled(db.trxs[pick.value], e.hash, e.value));
      counter := counter + 1;
      raised := false;
    }

    /** One feed: what was met of it, and the row each element was given to. */
    method HandleFeed(wid: nat, entries: seq<Entry>) returns (met: seq<Event>, picks: seq<Option<nat>>, raised: bool)
      requires wid < |db.wallets| && Unique(db.trxs)
      modifies this`counter, db`trxs
      ensures met <= Arrivals(wid, entries) && (!raised ==> met == Arrivals(wid, entries))
      ensures Ran(reading, db.wallets, old(db.trxs), met, picks, Outcome(db.trxs, raised))
      ensures Unique(db.trxs) && (!raised ==> counter == old(counter) + Picked(picks))
    {
      met, picks, raised := [], [], false;
      while !raised && |met| < |entries|
        invariant met <= Arrivals(wid, entries)
        invariant Ran(reading, db.wallets, old(db.trxs), met, picks, Outcome(db.trxs, raised))
        invariant Unique(db.trxs) && (!raised ==> counter == old(counter) + Picked(picks))
        decreases |entries| - |met|
      {
        var e := entries[|met|];
        ghost var now := db.trxs;
        var pick;
        pick, raised := HandleEntry(wid, e);
        RanOneMore(reading, db.wallets, old(db.trxs), met, picks, now, Arrival(wid, e), pick, Outcome(db.trxs, raised));
        met, picks := met + [Arrival(wid, e)], picks + [pick];
      }
    }

    /** One turn of the outer loop. */
    method HandleWallet(wid: nat, visit: Visit) returns (met: seq<Event>, picks: seq<Option<nat>>, raised: bool)
      requires wid < |db.wallets| && Unique(db.trxs)
      modifies this`counter, db`trxs
      ensures met <= EventsOf(wid, visit) && (!raised ==> met == EventsOf(wid, visit))
      ensures Ran(reading, db.wallets, old(db.trxs), met, picks, Outcome(db.trxs, raised))
      ensures Unique(db.trxs) && (!raised ==> counter == old(counter) + Picked(picks))
    {
      match visit
      case SeenLocked => met, picks, raised := [], [], false;
      case Raises =>
        met, picks, raised := [Error], [None], true;
        assert met[..0] == [] && picks[..0] == [];
      case Feed(elements) => met, picks, raised := HandleFeed(wid, LoadAll(elements));
    }

    method GetData() returns (wids: seq<nat>)
      ensures Answers(wids, db.wallets, Watched(true))
    {
      var onMonitoring := (w: Wallet) => w.onMonitoring == true;
      var isPlatform := (w: Wallet) => w.isPlatform == true;
      var isActive := (w: Wallet) => w.isActive == true;
      var conditions := [onMonitoring, isPlatform, isActive];
      wids := GetAll(db.wallets, conditions);
      forall i | 0 <= i < |db.wallets| ensures All(conditions, db.wallets[i]) == Watched(true)(db.wallets[i]) {
        AllOfThree(onMonitoring, isPlatform, isActive, db.wallets[i]);
      }
      AnswersBySameCondition(wids, db.wallets, w => All(conditions, w), Watched(true));
    }

    /** The body of the run: everything it met, in wallet-then-feed order, up to the first error. */
    method Execute(visits: Visits)
      returns (wids: seq<nat>, met: seq<Event>, picks: seq<Option<nat>>, raised: bool, updated: nat)
      requires Unique(db.trxs)
      modifies this`counter, db`trxs
      ensures Answers(wids, db.wallets, Watched(true))
      ensures met <= Events(visits, wids) && (!raised ==> met == Events(visits, wids))
      ensures Ran(reading, db.wallets, old(db.trxs), met, picks, Outcome(db.trxs, raised))
      ensures !raised ==> updated == old(counter) + Picked(picks)
    {
      wids := GetData();
      met, picks, raised := [], [], false;
      var i := 0;
      while i < |wids|
        invariant i <= |wids| && met == Events(visits, wids[..i])
        invariant Ran(reading, db.wallets, old(db.trxs), met, picks, Outcome(db.trxs, false))
        invariant Unique(db.trxs) && counter == old(counter) + Picked(picks)
      {
        ghost var now := db.trxs;
        var more, morePicks;
        more, morePicks, raised := HandleWallet(wids[i], VisitTo(visits, wids[i]));
        RunInParts(reading, db.wallets, old(db.trxs), met, picks, now, more, morePicks, Outcome(db.trxs, raised));
        PickedInParts(picks, morePicks);
        MetSoFar(visits, wids, i, met, more);
        met, picks := met + more, picks + morePicks;
        if raised {
          return wids, met, picks, true, 0;
        }
        i := i + 1;
      }
      assert wids[..|wids|] == wids;
      raised, updated := false, counter;
    }

    /** A run: all its writes are kept, or none; the counter is zero before and after. */
    method Process(visits: Visits)
      returns (wids: seq<nat>, met: seq<Event>, picks: seq<Option<nat>>, raised: bool, updated: nat)
      requires db.Valid() && counter == 0
      modifies this`counter, db`trxs
      ensures db.Valid() && counter == 0
      ensures Answers(wids, db.wallets, Watched(true))
      ensures raised ==> db.trxs == old(db.trxs)
      ensures raised ==> exists lost :: Ran(reading, db.wallets, old(db.trxs), met, picks, Outcome(lost, true))
      ensures met <= Events(visits, wids) && (!raised ==> met == Events(visits, wids))
      ensures !raised ==> Ran(reading, db.wallets, old(db.trxs), met, picks, Outcome(db.trxs, false))
      ensures !raised ==> updated == |Unsettled(old(db.trxs))| - |Unsettled(db.trxs)|
      ensures reading.Rebound? ==> db.trxs == old(db.trxs)
      ensures !raised ==> !SomeRaises(visits, wids) && |db.trxs| == |old(db.trxs)|
      ensures !raised ==> forall i | 0 <= i < |db.trxs| ::
        db.trxs[i] == old(db.trxs)[i] || FilledByRun(db.wallets, visits, wids, old(db.trxs)[i], db.trxs[i])
      ensures !raised ==> TargetlessStored(visits, wids, db.trxs)
      ensures reading.Rebound? ==> Known(db.wallets, Events(visits, wids))
      ensures reading.Rebound? ==> (raised <==> MeetsFatal(db.wallets, db.trxs, Events(visits, wids)))
    {
      var before := db.trxs;
      wids, met, picks, raised, updated := Execute(visits);
      KnownEvents(db.wallets, visits, wids);
      if reading.Rebound? {
        AsWrittenFillsNothing(db.wallets, before, met, picks);
        if raised {
          FatalInPrefix(db.wallets, before, met, Events(visits, wids));
        }
      }
      if raised {
        assert Ran(reading, db.wallets, before, met, picks, Outcome(db.trxs, true));
        db.trxs := before;
      } else if reading.EntryKept? {
        FillTouchesOnlyExpected(db.wallets, before, met, picks);
        EventsAreLoaded(visits, wids);
        FillKeepsRows(db.wallets, before, met, db.trxs);
      }
      if !raised {
        FillInPlainTerms(reading, db.wallets, before, visits, wids, picks, db.trxs);
      }
      counter := 0;
    }
  }

  lemma RanOneMore(reading: Reading, wallets: seq<Wallet>, trxs: seq<Trx>, events: seq<Event>, picks: seq<Option<nat>>,
                   now: seq<Trx>, event: Event, pick: Option<nat>, r: Outcome)
    requires Ran(reading, wallets, trxs, events, picks, Outcome(now, false))
    requires event.Arrival? ==> event.wid < |wallets|
    requires GoodPick(wallets, now, event, pick) && Meet(reading, wallets, now, event, pick) == r
    ensures Ran(reading, wallets, trxs, events + [event], picks + [pick], r)
    ensures Picked(picks + [pick]) == Picked(picks) + if pick.Some? then 1 else 0
  {
    var e, p := events + [event], picks + [pick];
    assert e[..|events|] == events && p[..|events|] == picks;
  }

  lemma {:induction false} ErrorEnds(reading: Reading, wallets: seq<Wallet>, trxs: seq<Trx>, events: seq<Event>,
                                     picks: seq<Option<nat>>, k: nat)
    requires Known(wallets, events) && |picks| == |events| && k < |events| && events[k].Error?
    ensures Run(reading, wallets, trxs, events, picks).raised
    decreases |events|
  {
    if k < |events| - 1 {
      ErrorEnds(reading, wallets, trxs, events[..|events| - 1], picks[..|events| - 1], k);
    }
  }

  /** A run over wallets that does not fail, said in terms of what the gateway delivered: no wallet raises; each row is
      as it was, or an expected deposit with the hash and the amount of a delivered element; and the hash of every
      element without target is in the table. */
  lemma FillInPlainTerms(reading: Reading, wallets: seq<Wallet>, trxs: seq<Trx>, visits: Visits, wids: seq<nat>,
                        picks: seq<Option<nat>>, after: seq<Trx>)
    requires Unique(trxs) && Ran(reading, wallets, trxs, Events(visits, wids), picks, Outcome(after, false))
    ensures !SomeRaises(visits, wids) && |after| == |trxs| && TargetlessStored(visits, wids, after)
    ensures forall i | 0 <= i < |trxs| :: after[i] == trxs[i] || FilledByRun(wallets, visits, wids, trxs[i], after[i])
  {
    var events := Events(visits, wids);
    if SomeRaises(visits, wids) {
      RaiseIsMet(visits, wids);
      var k :| 0 <= k < |events| && events[k].Error?;
      ErrorEnds(reading, wallets, trxs, events, picks, k);
    }
    forall k | 0 <= k < |events| && events[k].Arrival? && events[k].entry.addressTo.None?
      ensures HasHash(after, events[k].entry.hash)
    {
      WithoutTargetIsStored(reading, wallets, trxs, events, picks, k);
    }
    TargetlessStoredIfMet(visits, wids, after);
    if reading.Rebound? {
      AsWrittenFillsNothing(wallets, trxs, events, picks);
    } else {
      FillTouchesOnlyExpected(wallets, trxs, events, picks);
      forall i | 0 <= i < |trxs| && after[i] != trxs[i] ensures FilledByRun(wallets, visits, wids, trxs[i], after[i]) {
        SettledIsFilled(wallets, trxs, visits, wids, after, i);
      }
    }
  }

  lemma FillKeepsRows(wallets: seq<Wallet>, before: seq<Trx>, events: seq<Event>, after: seq<Trx>)
    requires StoreOk(Store(wallets, before)) && Unique(after) && |after| == |before|
    requires Known(wallets, events) && FromGateway(events)
    requires forall i | 0 <= i < |before| :: after[i] == before[i] || SettledBy(wallets, before, events, after, i)
    ensures StoreOk(Store(wallets, after))
  {
    forall i | 0 <= i < |after| ensures RowOk(wallets, after[i]) {
      assert RowOk(wallets, before[i]);
    }
  }

  lemma {:induction false} PickedInParts(p: seq<Option<nat>>, q: seq<Option<nat>>)
    ensures Picked(p + q) == Picked(p) + Picked(q)
  {
    if q == [] {
      assert p + q == p;
    } else {
      assert (p + q)[..|p + q| - 1] == p + q[..|q| - 1];
      PickedInParts(p, q[..|q| - 1]);
    }
  }

  /** Two stretches of elements, one after the other. */
  lemma {:induction false} RunInParts(reading: Reading, wallets: seq<Wallet>, trxs: seq<Trx>,
                                      a: seq<Event>, p: seq<Option<nat>>, now: seq<Trx>,
                                      b: seq<Event>, q: seq<Option<nat>>, r: Outcome)
    requires Ran(reading, wallets, trxs, a, p, Outcome(now, false)) && Ran(reading, wallets, now, b, q, r)
    ensures Ran(reading, wallets, trxs, a + b, p + q, r)
    decreases |b|
  {
    if b == [] {
      assert a + b == a && p + q == p;
    } else {
      var n := |b| - 1;
      var before := Run(reading, wallets, now, b[..n], q[..n]);
      RunInParts(reading, wallets, trxs, a, p, now, b[..n], q[..n], before);
      RanOneMore(reading, wallets, trxs, a + b[..n], p + q[..n], before.trxs, b[n], q[n], r);
      assert a + b == a + b[..n] + [b[n]] && p + q == p + q[..n] + [q[n]];
    }
  }
}
