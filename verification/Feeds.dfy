/** What a run over monitored wallets meets: locks, feeds, errors, and the elements of the feeds in order. */
module Feeds {
  import opened Rows

  /** What happens when the run comes to a wallet: the lock is seen taken, the gateway delivers a feed, or an
      error is raised (by the lock manager or by the gateway). */
  datatype Visit = SeenLocked | Feed(elements: seq<Entry>) | Raises

  type Visits = map<nat, Visit>

  datatype Event = Arrival(wid: nat, entry: Entry) | Error

  function VisitTo(visits: Visits, wid: nat): Visit {
    if wid in visits then visits[wid] else SeenLocked
  }

  /** The gateway loads every element with the schema that lower-cases its texts. */
  function LoadAll(elements: seq<Entry>): seq<Entry> {
    seq(|elements|, n requires 0 <= n < |elements| => Load(elements[n]))
  }

  function Arrivals(wid: nat, entries: seq<Entry>): seq<Event> {
    seq(|entries|, n requires 0 <= n < |entries| => Arrival(wid, entries[n]))
  }

  function EventsOf(wid: nat, visit: Visit): seq<Event> {
    match visit
    case SeenLocked => []
    case Feed(elements) => Arrivals(wid, LoadAll(elements))
    case Raises => [Error]
  }

  /** Everything a run over the wallets meets, in wallet-then-feed order. */
  function Events(visits: Visits, wids: seq<nat>): seq<Event> {
    if wids == [] then []
    else Events(visits, wids[..|wids| - 1]) + EventsOf(wids[|wids| - 1], VisitTo(visits, wids[|wids| - 1]))
  }

  predicate Known(wallets: seq<Wallet>, events: seq<Event>) {
    forall n | 0 <= n < |events| && events[n].Arrival? :: events[n].wid < |wallets|
  }

  /** Every text of an element is in lower case, as the gateway hands elements over. */
  ghost predicate FromGateway(events: seq<Event>) {
    forall n | 0 <= n < |events| && events[n].Arrival? :: Loaded(events[n].entry)
  }

  predicate Loaded(e: Entry) {
    Load(e) == e
  }

  lemma LoadIsLoaded(raw: Entry)
    ensures Loaded(Load(raw)) && Lowered(Load(raw).hash)
  {
    LowerTwice(raw.hash);
    LowerTwice(raw.addressFrom);
    LowerTwice(raw.currencySlug);
    if raw.addressTo.Some? {
      LowerTwice(raw.addressTo.value);
    }
  }

  lemma {:induction false} EventsAreLoaded(visits: Visits, wids: seq<nat>)
    ensures FromGateway(Events(visits, wids))
  {
    if wids != [] {
      EventsAreLoaded(visits, wids[..|wids| - 1]);
      match VisitTo(visits, wids[|wids| - 1])
      case Feed(elements) =>
        forall n | 0 <= n < |elements| ensures Loaded(LoadAll(elements)[n]) {
          LoadIsLoaded(elements[n]);
        }
      case _ =>
    }
  }

  lemma {:induction false} KnownEvents(wallets: seq<Wallet>, visits: Visits, wids: seq<nat>)
    requires forall i | 0 <= i < |wids| :: wids[i] < |wallets|
    ensures Known(wallets, Events(visits, wids))
  {
    if wids != [] {
      KnownEvents(wallets, visits, wids[..|wids| - 1]);
    }
  }

  lemma {:induction false} EventsPrefix(visits: Visits, wids: seq<nat>, i: nat)
    requires i <= |wids|
    ensures Events(visits, wids[..i]) <= Events(visits, wids)
    decreases |wids|
  {
    if i == |wids| {
      assert wids[..i] == wids;
    } else {
      assert wids[..|wids| - 1][..i] == wids[..i];
      EventsPrefix(visits, wids[..|wids| - 1], i);
    }
  }

  lemma EventsNext(visits: Visits, wids: seq<nat>, i: nat)
    requires i < |wids|
    ensures Events(visits, wids[..i + 1]) == Events(visits, wids[..i]) + EventsOf(wids[i], VisitTo(visits, wids[i]))
  {
    assert wids[..i + 1][..i] == wids[..i];
  }

  /** Having met everything up to wallet `i`, and a part of what that wallet brings. */
  lemma MetSoFar(visits: Visits, wids: seq<nat>, i: nat, met: seq<Event>, more: seq<Event>)
    requires i < |wids| && met == Events(visits, wids[..i])
    requires more <= EventsOf(wids[i], VisitTo(visits, wids[i]))
    ensures met + more <= Events(visits, wids)
    ensures more == EventsOf(wids[i], VisitTo(visits, wids[i])) ==> met + more == Events(visits, wids[..i + 1])
  {
    EventsNext(visits, wids, i);
    EventsPrefix(visits, wids, i + 1);
  }

  /** Only the visits to the wallets of the run matter. */
  lemma {:induction false} EventsAgree(visits: Visits, visits': Visits, wids: seq<nat>)
    requires forall i | 0 <= i < |wids| :: VisitTo(visits, wids[i]) == VisitTo(visits', wids[i])
    ensures Events(visits, wids) == Events(visits', wids)
  {
    if wids != [] {
      EventsAgree(visits, visits', wids[..|wids| - 1]);
    }
  }

  lemma {:induction false} EventsComeFromWids(visits: Visits, wids: seq<nat>, n: nat)
    requires n < |Events(visits, wids)| && Events(visits, wids)[n].Arrival?
    ensures Events(visits, wids)[n].wid in wids
  {
    if wids != [] {
      var before := Events(visits, wids[..|wids| - 1]);
      if n < |before| {
        EventsComeFromWids(visits, wids[..|wids| - 1], n);
      } else {
        assert Events(visits, wids)[n].wid == wids[|wids| - 1];
      }
    }
  }

  /** When all other wallets are seen locked, the run meets one feed. */
  lemma {:induction false} OnlyFeed(wid: nat, elements: seq<Entry>, wids: seq<nat>)
    requires forall i, j | 0 <= i < j < |wids| :: wids[i] != wids[j]
    ensures Events(map[wid := Feed(elements)], wids) == if wid in wids then Arrivals(wid, LoadAll(elements)) else []
  {
    if wids != [] {
      OnlyFeed(wid, elements, wids[..|wids| - 1]);
    }
  }

  // ---------- In plain terms ----------

  /** Wallet `n` of the run delivered a feed with an element `m`. */
  predicate Delivered(visits: Visits, wids: seq<nat>, n: nat, m: nat) {
    n < |wids| && wids[n] in visits && visits[wids[n]].Feed? && m < |visits[wids[n]].elements|
  }

  /** Some wallet of the run raised an error. */
  predicate SomeRaises(visits: Visits, wids: seq<nat>) {
    exists n | 0 <= n < |wids| :: wids[n] in visits && visits[wids[n]].Raises?
  }

  /** The element is what the gateway makes of a received one: four texts in lower case, the amount as it was. */
  predicate LoadedFrom(e: Entry, raw: Entry) {
    && e.hash == Lower(raw.hash) && e.addressFrom == Lower(raw.addressFrom)
    && e.currencySlug == Lower(raw.currencySlug) && e.value == raw.value
    && (raw.addressTo.None? ==> e.addressTo.None?)
    && (raw.addressTo.Some? ==> e.addressTo == Some(Lower(raw.addressTo.value)))
  }

  /** The event is the arrival of element `m` of wallet `n`. */
  ghost predicate IsElement(visits: Visits, wids: seq<nat>, n: nat, m: nat, event: Event) {
    && Delivered(visits, wids, n, m)
    && event.Arrival? && event.wid == wids[n] && LoadedFrom(event.entry, visits[wids[n]].elements[m])
  }

  ghost predicate IsDelivered(visits: Visits, wids: seq<nat>, event: Event) {
    exists n: nat, m: nat :: IsElement(visits, wids, n, m, event)
  }

  /** Feed after feed in the order of the wallets, element after element in the order of the feed: before element `m`
      of wallet `n` come the elements of the wallets before and `m` elements of its own feed. */
  lemma EventAt(visits: Visits, wids: seq<nat>, n: nat, m: nat)
    requires Delivered(visits, wids, n, m)
    ensures var place := |Events(visits, wids[..n])| + m;
      place < |Events(visits, wids)| && IsElement(visits, wids, n, m, Events(visits, wids)[place])
  {
    EventsNext(visits, wids, n);
    EventsPrefix(visits, wids, n + 1);
  }

  lemma RaiseIsMet(visits: Visits, wids: seq<nat>)
    requires SomeRaises(visits, wids)
    ensures exists k :: 0 <= k < |Events(visits, wids)| && Events(visits, wids)[k].Error?
  {
    var n :| 0 <= n < |wids| && wids[n] in visits && visits[wids[n]].Raises?;
    EventsNext(visits, wids, n);
    EventsPrefix(visits, wids, n + 1);
    assert Events(visits, wids)[|Events(visits, wids[..n])|].Error?;
  }

  lemma IsElementOfMore(visits: Visits, wids: seq<nat>, n: nat, m: nat, event: Event)
    requires wids != [] && IsElement(visits, wids[..|wids| - 1], n, m, event)
    ensures IsElement(visits, wids, n, m, event)
  {
    assert wids[..|wids| - 1][n] == wids[n];
  }

  lemma LastIsElement(visits: Visits, wids: seq<nat>, m: nat)
    requires wids != [] && VisitTo(visits, wids[|wids| - 1]).Feed?
    requires m < |VisitTo(visits, wids[|wids| - 1]).elements|
    ensures IsElement(visits, wids, |wids| - 1, m, EventsOf(wids[|wids| - 1], VisitTo(visits, wids[|wids| - 1]))[m])
  {
  }

  /** Nothing else is met: an error is raised by a wallet, and an element was delivered by its wallet. */
  lemma {:induction false} NothingElseIsMet(visits: Visits, wids: seq<nat>, k: nat)
    requires k < |Events(visits, wids)|
    ensures Events(visits, wids)[k].Error? ==> SomeRaises(visits, wids)
    ensures Events(visits, wids)[k].Arrival? ==> IsDelivered(visits, wids, Events(visits, wids)[k])
  {
    var last := |wids| - 1;
    var before := Events(visits, wids[..last]);
    if k < |before| {
      NothingElseIsMet(visits, wids[..last], k);
      if before[k].Error? {
        var n :| 0 <= n < last && wids[..last][n] in visits && visits[wids[..last][n]].Raises?;
        assert wids[n] in visits && visits[wids[n]].Raises?;
      } else {
        var n: nat, m: nat :| IsElement(visits, wids[..last], n, m, before[k]);
        IsElementOfMore(visits, wids, n, m, before[k]);
      }
    } else if Events(visits, wids)[k].Arrival? {
      LastIsElement(visits, wids, k - |before|);
    }
  }

  /** The hash of every delivered element without target is in the table. */
  ghost predicate TargetlessStored(visits: Visits, wids: seq<nat>, trxs: seq<Trx>) {
    forall n: nat, m: nat | Delivered(visits, wids, n, m) && visits[wids[n]].elements[m].addressTo.None? ::
      HasHash(trxs, Lower(visits[wids[n]].elements[m].hash))
  }

  lemma TargetlessStoredIfMet(visits: Visits, wids: seq<nat>, trxs: seq<Trx>)
    requires forall k | 0 <= k < |Events(visits, wids)| ::
      var e := Events(visits, wids)[k];
      e.Arrival? && e.entry.addressTo.None? ==> HasHash(trxs, e.entry.hash)
    ensures TargetlessStored(visits, wids, trxs)
  {
    forall n: nat, m: nat | Delivered(visits, wids, n, m) && visits[wids[n]].elements[m].addressTo.None?
      ensures HasHash(trxs, Lower(visits[wids[n]].elements[m].hash))
    {
      EventAt(visits, wids, n, m);
    }
  }
}
