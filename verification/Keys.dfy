/** Names of the redis locks. */
module Keys {

  datatype Model = WalletModel | TransactionModel

  function ModelName(m: Model): string {
    match m
    case WalletModel => "Wallet"
    case TransactionModel => "Transaction"
  }

  function Digit(d: nat): char
    requires d < 10
  {
    "0123456789"[d]
  }

  /** An integer as an f-string prints it. */
  function Print(n: nat): (s: string)
    ensures |s| > 0
  {
    if n < 10 then [Digit(n)] else Print(n / 10) + [Digit(n % 10)]
  }

  /** The row a lock protects. */
  datatype Key = Key(model: Model, id: nat)

  function LockName(key: Key): string {
    ModelName(key.model) + "_id_" + Print(key.id)
  }

  /** The number that a row of digits stands for in base ten. */
  function Read(s: string): int {
    if s == "" then 0 else 10 * Read(s[..|s| - 1]) + (s[|s| - 1] as int - '0' as int)
  }

  /** What is printed is made of digits, and reading it gives the number back. */
  lemma {:induction false} ReadsBack(n: nat)
    ensures Read(Print(n)) == n
    ensures forall i | 0 <= i < |Print(n)| :: '0' <= Print(n)[i] <= '9'
  {
    var s := Print(n);
    if n >= 10 {
      ReadsBack(n / 10);
      assert s[..|s| - 1] == Print(n / 10);
    } else {
      assert s[..|s| - 1] == "";
    }
  }

  lemma PrintInjective(a: nat, b: nat)
    requires Print(a) == Print(b)
    ensures a == b
  {
    ReadsBack(a);
    ReadsBack(b);
  }

  /** Two locks share a name only when they lock the same row of the same table. */
  lemma LockNameInjective(a: Key, b: Key)
    ensures LockName(a) == LockName(b) <==> a == b
  {
    if LockName(a) == LockName(b) {
      var s, t := LockName(a), LockName(b);
      assert s[0] == ModelName(a.model)[0] && t[0] == ModelName(b.model)[0];
      var k := |ModelName(a.model)| + 4;
      assert s[k..] == Print(a.id) && t[k..] == Print(b.id);
      PrintInjective(a.id, b.id);
    }
  }

  /** A lock name is the name of the model, `_id_` and the id in digits. */
  lemma LockNameReadsBack(key: Key)
    ensures var prefix := if key.model.WalletModel? then "Wallet_id_" else "Transaction_id_";
      prefix <= LockName(key) && Read(LockName(key)[|prefix|..]) == key.id
  {
    ReadsBack(key.id);
    var k := |ModelName(key.model)| + 4;
    assert LockName(key)[k..] == Print(key.id);
  }

  /** What `is_locked` answers from the names alone. */
  predicate NameTaken(locks: map<Key, nat>, name: string) {
    exists key | key in locks.Keys :: LockName(key) == name
  }

  /** Asking redis by name is asking about that very row, so a table of locks may be keyed by rows. */
  lemma NameTakenMeansRowLocked(locks: map<Key, nat>, key: Key)
    ensures NameTaken(locks, LockName(key)) <==> key in locks
  {
    forall other | other in locks ensures LockName(other) == LockName(key) ==> other == key {
      LockNameInjective(other, key);
    }
  }
}
