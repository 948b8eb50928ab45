/** The object manager: both tables, and the queries and writes the service makes through it. */
module Manager {
  import opened Rows

  predicate All<T>(conditions: seq<T -> bool>, t: T) {
    forall c | 0 <= c < |conditions| :: conditions[c](t)
  }

  lemma AllOfOne<T>(c: T -> bool, t: T)
    ensures All([c], t) <==> c(t)
  {
    assert [c][0] == c;
  }

  lemma AllOfTwo<T>(a: T -> bool, b: T -> bool, t: T)
    ensures All([a, b], t) <==> a(t) && b(t)
  {
    var all := [a, b];
    assert all[0] == a && all[1] == b;
  }

  lemma AllOfThree<T>(a: T -> bool, b: T -> bool, c: T -> bool, t: T)
    ensures All([a, b, c], t) <==> a(t) && b(t) && c(t)
  {
    var all := [a, b, c];
    assert all[0] == a && all[1] == b && all[2] == c;
  }

  lemma AnswersBySameCondition<T>(ids: seq<nat>, table: seq<T>, p: T -> bool, q: T -> bool)
    requires Answers(ids, table, p)
    requires forall i | 0 <= i < |table| :: p(table[i]) == q(table[i])
    ensures Answers(ids, table, q)
  {
  }

  /** The rows that meet every one of the given conditions; with no condition, all rows. */
  method GetAll<T>(table: seq<T>, conditions: seq<T -> bool>) returns (ids: seq<nat>)
    ensures Answers(ids, table, t => All(conditions, t))
  {
    ids := [];
    for i := 0 to |table|
      invariant forall k | 0 <= k < |ids| :: ids[k] < i && All(conditions, table[ids[k]])
      invariant forall j, k | 0 <= j < k < |ids| :: ids[j] != ids[k]
      invariant forall j | 0 <= j < i && All(conditions, table[j]) :: j in ids
    {
      var meets := true;
      for c := 0 to |conditions|
        invariant meets <==> forall d | 0 <= d < c :: conditions[d](table[i])
      {
        meets := meets && conditions[c](table[i]);
      }
      if meets {
        ids := ids + [i];
      }
    }
  }

  method Exists<T>(table: seq<T>, conditions: seq<T -> bool>) returns (found: bool)
    ensures found <==> exists i :: 0 <= i < |table| && All(conditions, table[i])
  {
    var ids := GetAll(table, conditions);
    found := |ids| > 0;
    if found {
      assert All(conditions, table[ids[0]]);
    }
  }

  /** Some row that meets every condition, or the `DoesNotExist` error. */
  method Get<T>(table: seq<T>, conditions: seq<T -> bool>) returns (id: Option<nat>)
    ensures match id
      case Some(i) => i < |table| && All(conditions, table[i])
      case None => forall i | 0 <= i < |table| :: !All(conditions, table[i])
  {
    var ids := GetAll(table, conditions);
    if |ids| > 0 {
      return Some(ids[0]);
    }
    return None;
  }

  class Database {
    var wallets: seq<Wallet>
    var trxs: seq<Trx>

    ghost predicate Valid()
      reads this
    {
      StoreOk(Store(wallets, trxs))
    }

    constructor ()
      ensures Valid() && wallets == [] && trxs == []
    {
      wallets, trxs := [], [];
    }

    /** The wallet table has no unique column. */
    method CreateWallet(w: Wallet)
      modifies this`wallets
      ensures wallets == old(wallets) + [w]
    {
      wallets := wallets + [w];
    }

    method UpdateWallet(id: nat, w: Wallet)
      requires id < |wallets|
      modifies this`wallets
      ensures wallets == old(wallets)[id := w]
    {
      wallets := wallets[id := w];
    }

    /** Adds a row, or fails on a unique column and adds nothing. */
    method CreateTrx(t: Trx) returns (id: Option<nat>)
      modifies this`trxs
      ensures if Insertable(old(trxs), t)
        then id == Some(|old(trxs)|) && trxs == old(trxs) + [t]
        else id == None && trxs == old(trxs)
    {
      if Insertable(trxs, t) {
        id := Some(|trxs|);
        trxs := trxs + [t];
      } else {
        id := None;
      }
    }

    /** Replaces a whole row, or fails on a unique column and replaces nothing. */
    method UpdateTrx(id: nat, t: Trx) returns (done: bool)
      requires id < |trxs|
      modifies this`trxs
      ensures done <==> Insertable(old(trxs)[..id] + old(trxs)[id + 1..], t)
      ensures trxs == if done then old(trxs)[id := t] else old(trxs)
    {
      done := Insertable(trxs[..id] + trxs[id + 1..], t);
      if done {
        trxs := trxs[id := t];
      }
    }
  }

  /** A replacement that keeps both unique columns never fails. */
  lemma SameKeysReplace(trxs: seq<Trx>, id: nat, t: Trx)
    requires Unique(trxs) && id < |trxs| && t.hash == trxs[id].hash && t.uuid == trxs[id].uuid
    ensures Insertable(trxs[..id] + trxs[id + 1..], t)
  {
    var others := trxs[..id] + trxs[id + 1..];
    forall j | 0 <= j < |others| ensures !SameKey(others[j], t) {
      var i := if j < id then j else j + 1;
      assert others[j] == trxs[i];
      if i < id {
        assert !SameKey(trxs[i], trxs[id]);
      } else {
        assert !SameKey(trxs[id], trxs[i]);
      }
    }
  }
}
