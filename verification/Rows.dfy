/** The two tables of the service and the queries every step rests on.

    A table is a sequence: a row's id is its position in the order of creation.
    Rows are never deleted. */
module Rows {

  datatype Option<+T> = None | Some(value: T)

  /** The nine statuses of `TransactionStatus`; only four of them are ever reached. */
  datatype Status =
    | UNDEFINED | NEW | NOT_FOUND | SUCCESSFUL | FAILED | PENDING | CONFIRMED | REPORTED | SENT

  datatype Wallet = Wallet(
    currencySlug: string, address: string, externalId: int,
    isPlatform: bool, onMonitoring: bool, isActive: bool)

  /** `confirmedAt` records only whether a confirmation time is present. */
  datatype Trx = Trx(
    status: Status, hash: Option<string>, addressFrom: string, addressTo: string, currencySlug: string,
    value: real, isFeeTrx: bool, confirmedAt: bool, walletId: Option<nat>, uuid: Option<nat>)

  datatype Store = Store(wallets: seq<Wallet>, trxs: seq<Trx>)

  /** One element of a chain feed. A blank target is absent from the decoded message. */
  datatype Entry = Entry(
    hash: string, addressFrom: string, addressTo: Option<string>, currencySlug: string, value: real)

  // ---------- Lower-casing ----------

  function LowerChar(c: char): char {
    if 'A' <= c <= 'Z' then c - 'A' + 'a' else c
  }

  function Lower(s: string): string {
    seq(|s|, i requires 0 <= i < |s| => LowerChar(s[i]))
  }

  const CAPITALS := "ABCDEFGHIJKLMNOPQRSTUVWXYZ"
  const SMALL_LETTERS := "abcdefghijklmnopqrstuvwxyz"

  lemma WholeAlphabet()
    ensures Lower(CAPITALS) == SMALL_LETTERS && Lower(SMALL_LETTERS) == SMALL_LETTERS
  {
  }

  lemma CapitalIsListed(c: char)
    requires 'A' <= c <= 'Z'
    ensures c in CAPITALS
  {
    if c <= 'M' {
      assert c in "ABCDEFGHIJKLM";
      assert CAPITALS == "ABCDEFGHIJKLM" + "NOPQRSTUVWXYZ";
    } else {
      assert c in "NOPQRSTUVWXYZ";
      assert CAPITALS == "ABCDEFGHIJKLM" + "NOPQRSTUVWXYZ";
    }
  }

  /** Place by place: the capital at some place of the alphabet becomes the small letter at that place, and any other
      character stays. */
  lemma LowerIsByAlphabet(s: string, i: nat)
    requires i < |s|
    ensures |Lower(s)| == |s|
    ensures forall k | 0 <= k < |CAPITALS| == |SMALL_LETTERS| && s[i] == CAPITALS[k] :: Lower(s)[i] == SMALL_LETTERS[k]
    ensures s[i] !in CAPITALS ==> Lower(s)[i] == s[i]
  {
    WholeAlphabet();
    forall k | 0 <= k < |CAPITALS| == |SMALL_LETTERS| && s[i] == CAPITALS[k] ensures Lower(s)[i] == SMALL_LETTERS[k] {
      assert Lower(s)[i] == Lower(CAPITALS)[k];
    }
    if 'A' <= s[i] <= 'Z' {
      CapitalIsListed(s[i]);
    }
  }

  predicate Lowered(s: string) {
    Lower(s) == s
  }

  /** What `TransactionSchema` does to the text fields of a feed element. */
  function Load(raw: Entry): Entry {
    Entry(Lower(raw.hash), Lower(raw.addressFrom),
          if raw.addressTo.Some? then Some(Lower(raw.addressTo.value)) else None,
          Lower(raw.currencySlug), raw.value)
  }

  /** The fill lower-cases sender and currency a second time; that changes nothing. */
  lemma LowerTwice(s: string)
    ensures Lowered(Lower(s))
  {
    assert forall i | 0 <= i < |s| :: LowerChar(LowerChar(s[i])) == LowerChar(s[i]);
  }

  // ---------- Constructors ----------

  /** A row as `create` writes it: every column not given takes its default. */
  function NewTrx(hash: Option<string>, addressFrom: string, addressTo: string, currencySlug: string,
                  value: real, walletId: Option<nat>, uuid: Option<nat>): Trx
  {
    Trx(NEW, hash, addressFrom, addressTo, currencySlug, value, false, false, walletId, uuid)
  }

  // ---------- Unique columns ----------

  ghost predicate SameKey(a: Trx, b: Trx) {
    || (a.hash.Some? && a.hash == b.hash)
    || (a.uuid.Some? && a.uuid == b.uuid)
  }

  /** The unique-but-nullable columns `hash` and `uuid`. */
  ghost predicate Unique(trxs: seq<Trx>) {
    forall i, j | 0 <= i < j < |trxs| :: !SameKey(trxs[i], trxs[j])
  }

  predicate HasHash(trxs: seq<Trx>, hash: string) {
    exists i | 0 <= i < |trxs| :: trxs[i].hash == Some(hash)
  }

  predicate HasUuid(trxs: seq<Trx>, uuid: nat) {
    exists i | 0 <= i < |trxs| :: trxs[i].uuid == Some(uuid)
  }

  /** Whether the unique columns let a row in. */
  predicate Insertable(trxs: seq<Trx>, t: Trx) {
    && (t.hash.Some? ==> !HasHash(trxs, t.hash.value))
    && (t.uuid.Some? ==> !HasUuid(trxs, t.uuid.value))
  }

  lemma InsertKeepsUnique(trxs: seq<Trx>, t: Trx)
    requires Unique(trxs)
    ensures Unique(trxs + [t]) <==> Insertable(trxs, t)
  {
    if Unique(trxs + [t]) {
      forall i | 0 <= i < |trxs| ensures !SameKey(trxs[i], t) {
        assert !SameKey((trxs + [t])[i], (trxs + [t])[|trxs|]);
      }
    }
  }

  // ---------- Row conditions ----------

  predicate OnPlatform(wallets: seq<Wallet>, t: Trx) {
    t.walletId.Some? && t.walletId.value < |wallets| && wallets[t.walletId.value].isPlatform
  }

  predicate Linked(wallets: seq<Wallet>, t: Trx) {
    t.walletId.Some? && t.walletId.value < |wallets|
  }

  /** Every column that no status change touches. */
  function Payload(t: Trx): Trx {
    t.(status := NEW, confirmedAt := false)
  }

  lemma SamePayloadIff(a: Trx, b: Trx)
    ensures Payload(a) == Payload(b) <==>
      && a.hash == b.hash && a.addressFrom == b.addressFrom && a.addressTo == b.addressTo
      && a.currencySlug == b.currencySlug && a.value == b.value && a.isFeeTrx == b.isFeeTrx
      && a.walletId == b.walletId && a.uuid == b.uuid
  {
  }

  /** What every stored row and every snapshot of one satisfies. A hash with upper-case letters can only have come
      with a request, and requests bring hashes together with a uuid. */
  ghost predicate RowOk(wallets: seq<Wallet>, t: Trx) {
    && t.status in {NEW, SENT, CONFIRMED, REPORTED}
    && (t.status != NEW ==> t.hash.Some?)
    && (t.confirmedAt <==> t.status in {CONFIRMED, REPORTED})
    && (t.status == REPORTED ==> t.uuid.Some? && OnPlatform(wallets, t))
    && Linked(wallets, t)
    && (t.hash.Some? && !Lowered(t.hash.value) ==> t.uuid.Some?)
  }

  ghost predicate StoreOk(db: Store) {
    && Unique(db.trxs)
    && forall i | 0 <= i < |db.trxs| :: RowOk(db.wallets, db.trxs[i])
  }

  // ---------- Row changes ----------

  function Confirmed(t: Trx): Trx {
    t.(status := CONFIRMED, confirmedAt := true)
  }

  function Filled(t: Trx, hash: string, value: real): Trx {
    t.(hash := Some(hash), value := value)
  }

  /** Wallet columns other than the monitoring flag. */
  function Fixed(w: Wallet): Wallet {
    w.(onMonitoring := false)
  }

  lemma SameFixedIff(a: Wallet, b: Wallet)
    ensures Fixed(a) == Fixed(b) <==>
      && a.currencySlug == b.currencySlug && a.address == b.address && a.externalId == b.externalId
      && a.isPlatform == b.isPlatform && a.isActive == b.isActive
  {
  }

  // ---------- Queries and feed elements ----------

  /** `ids` answers a query over a table: each row that meets the condition once, in any order. */
  ghost predicate Answers<T>(ids: seq<nat>, table: seq<T>, condition: T -> bool) {
    && (forall i, j | 0 <= i < j < |ids| :: ids[i] != ids[j])
    && (forall k | 0 <= k < |ids| :: ids[k] < |table| && condition(table[ids[k]]))
    && (forall i | 0 <= i < |table| && condition(table[i]) :: i in ids)
  }

  function Watched(platform: bool): Wallet -> bool {
    (w: Wallet) => w.onMonitoring && w.isPlatform == platform && w.isActive
  }

  /** One answer to the wallet query: the ids in order. */
  function WatchedIds(wallets: seq<Wallet>, platform: bool, n: nat): (ids: seq<nat>)
    requires n <= |wallets|
    ensures forall j, k | 0 <= j < k < |ids| :: ids[j] != ids[k]
    ensures forall k | 0 <= k < |ids| :: ids[k] < n && Watched(platform)(wallets[ids[k]])
    ensures forall i | 0 <= i < n && Watched(platform)(wallets[i]) :: i in ids
  {
    if n == 0 then []
    else
      var ids := WatchedIds(wallets, platform, n - 1);
      if Watched(platform)(wallets[n - 1]) then ids + [n - 1] else ids
  }

  /** The chain address of the element is the wallet's, letter case aside. */
  predicate Addressed(wallet: Wallet, e: Entry) {
    e.addressTo.Some? && Lower(wallet.address) == Lower(e.addressTo.value)
  }

  function IngestedRow(wid: nat, e: Entry): Trx
    requires e.addressTo.Some?
  {
    NewTrx(Some(e.hash), e.addressFrom, e.addressTo.value, e.currencySlug, e.value, Some(wid), None)
  }
}
