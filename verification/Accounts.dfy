/** How an account is written to disk and read back. */
module Accounts {
  import opened Bytes

  type Hash = int
  type Word = nat

  datatype Account = Account(
    nonce: nat, balance: int, codeHash: Hash, code: Bytestring, storage: map<Word, Word>,
    contractClass: nat, doxDevLevel: nat, stateRentPaid: int, lastRentPayment: nat)

  datatype SerializedAccount = SerializedAccount(
    nonce: nat, balance: Bytestring, codeHash: Hash, code: Bytestring, storageKeys: seq<Word>, storageVals: seq<Word>,
    contractClass: nat, doxDevLevel: nat, stateRentPaid: Bytestring, lastRentPayment: nat)

  predicate Distinct(keys: seq<Word>) {
    forall i, j | 0 <= i < j < |keys| :: keys[i] != keys[j]
  }

  /** Two columns that list a storage map, in any order. */
  ghost predicate Lists(keys: seq<Word>, vals: seq<Word>, storage: map<Word, Word>) {
    && Distinct(keys)
    && (forall k :: k in keys <==> k in storage)
    && |vals| == |keys|
    && forall i | 0 <= i < |keys| :: keys[i] in storage && vals[i] == storage[keys[i]]
  }

  /** A row that an account may be saved as. */
  ghost predicate SavedAs(acc: Account, row: SerializedAccount) {
    && Lists(row.storageKeys, row.storageVals, acc.storage)
    && row == SerializedAccount(acc.nonce, Magnitude(Abs(acc.balance)), acc.codeHash, acc.code,
                                row.storageKeys, row.storageVals, acc.contractClass, acc.doxDevLevel,
                                Magnitude(Abs(acc.stateRentPaid)), acc.lastRentPayment)
  }

  /** The map is iterated in an order of nobody's choosing. */
  method SerializeAccount(acc: Account) returns (row: SerializedAccount)
    ensures SavedAs(acc, row)
  {
    var keys: seq<Word>, vals: seq<Word> := [], [];
    var left: set<Word> := acc.storage.Keys;
    while left != {}
      invariant left <= acc.storage.Keys && Distinct(keys) && |vals| == |keys|
      invariant forall k :: k in keys <==> k in acc.storage && k !in left
      invariant forall i | 0 <= i < |keys| :: keys[i] in acc.storage && vals[i] == acc.storage[keys[i]]
      decreases |left|
    {
      var k :| k in left;
      assert k !in keys;
      keys, vals := keys + [k], vals + [acc.storage[k]];
      left := left - {k};
    }
    row := SerializedAccount(acc.nonce, Magnitude(Abs(acc.balance)), acc.codeHash, acc.code, keys, vals,
                             acc.contractClass, acc.doxDevLevel,
                             Magnitude(Abs(acc.stateRentPaid)), acc.lastRentPayment);
  }

  function Filled(keys: seq<Word>, vals: seq<Word>): map<Word, Word> {
    if keys == [] then map[]
    else
      var n := |keys| - 1;
      if n < |vals| then Filled(keys[..n], vals)[keys[n] := vals[n]] else Filled(keys[..n], vals)
  }

  function Restored(row: SerializedAccount): Account {
    Account(row.nonce, Number(row.balance), row.codeHash, row.code, Filled(row.storageKeys, row.storageVals),
            row.contractClass, row.doxDevLevel, Number(row.stateRentPaid), row.lastRentPayment)
  }

  method DeserializeAccount(row: SerializedAccount) returns (acc: Account)
    ensures acc == Restored(row)
  {
    var storage: map<Word, Word> := map[];
    for i := 0 to |row.storageKeys|
      invariant storage == Filled(row.storageKeys[..i], row.storageVals)
    {
      assert row.storageKeys[..i + 1][..i] == row.storageKeys[..i];
      if i < |row.storageVals| {
        storage := storage[row.storageKeys[i] := row.storageVals[i]];
      }
    }
    assert row.storageKeys[..|row.storageKeys|] == row.storageKeys;
    acc := Account(row.nonce, Number(row.balance), row.codeHash, row.code, storage,
                   row.contractClass, row.doxDevLevel, Number(row.stateRentPaid), row.lastRentPayment);
  }

  /** A map that holds just these keys, each with its value in the storage. */
  ghost predicate IsPart(m: map<Word, Word>, keys: seq<Word>, storage: map<Word, Word>) {
    (forall k :: k in m <==> k in keys) && forall k | k in m :: k in storage && m[k] == storage[k]
  }

  lemma PartGrows(m: map<Word, Word>, keys: seq<Word>, storage: map<Word, Word>, k: Word)
    requires IsPart(m, keys, storage) && k in storage
    ensures IsPart(m[k := storage[k]], keys + [k], storage)
  {
  }

  lemma {:induction false} FilledPrefix(keys: seq<Word>, vals: seq<Word>, storage: map<Word, Word>, n: nat)
    requires Lists(keys, vals, storage) && n <= |keys|
    ensures IsPart(Filled(keys[..n], vals), keys[..n], storage)
  {
    if n > 0 {
      hide IsPart;
      assert keys[..n][..n - 1] == keys[..n - 1];
      assert keys[..n] == keys[..n - 1] + [keys[n - 1]];
      FilledPrefix(keys, vals, storage, n - 1);
      PartGrows(Filled(keys[..n - 1], vals), keys[..n - 1], storage, keys[n - 1]);
    }
  }

  /** In whatever order its storage was written, an account comes back from disk as it was exactly
      when neither its balance nor its paid rent is negative: the sign is not stored. */
  lemma SaveLoad(acc: Account, row: SerializedAccount)
    requires SavedAs(acc, row)
    ensures Restored(row) == acc.(balance := Abs(acc.balance), stateRentPaid := Abs(acc.stateRentPaid))
    ensures Restored(row) == acc <==> acc.balance >= 0 && acc.stateRentPaid >= 0
  {
    NumberOfMagnitude(Abs(acc.balance));
    NumberOfMagnitude(Abs(acc.stateRentPaid));
    var keys := row.storageKeys;
    FilledPrefix(keys, row.storageVals, acc.storage, |keys|);
    assert keys[..|keys|] == keys;
    var storage := Filled(keys, row.storageVals);
    assert forall k :: k in storage <==> k in acc.storage;
    assert storage.Keys == acc.storage.Keys;
  }

  // ----- all accounts

  type Address = nat

  /** Whatever the bucket held before, afterwards it holds a row for each account of the state, and
      still the old rows of all others. */
  ghost predicate Saved(state: map<Address, Account>, before: map<Address, SerializedAccount>,
                        rows: map<Address, SerializedAccount>) {
    && (forall a :: a in rows <==> a in before || a in state)
    && (forall a | a in state :: SavedAs(state[a], rows[a]))
    && (forall a | a in before && a !in state :: rows[a] == before[a])
  }

  function LoadedAll(rows: map<Address, SerializedAccount>): map<Address, Account> {
    map a | a in rows :: Restored(rows[a])
  }

  class AccountStore {
    var Rows: map<Address, SerializedAccount>

    method SaveAllAccounts(state: map<Address, Account>)
      modifies this
      ensures Saved(state, old(Rows), Rows)
    {
      hide SavedAs;
      ghost var before := Rows;
      var left: set<Address> := state.Keys;
      while left != {}
        invariant left <= state.Keys
        invariant forall a :: a in Rows <==> a in before || (a in state && a !in left)
        invariant forall a | a in state && a !in left :: SavedAs(state[a], Rows[a])
        invariant forall a | a in before && a !in state :: Rows[a] == before[a]
        decreases |left|
      {
        var a :| a in left;
        var row := SerializeAccount(state[a]);
        Rows := Rows[a := row];
        left := left - {a};
      }
    }

    method LoadAllAccounts() returns (state: map<Address, Account>)
      ensures state == LoadedAll(Rows)
    {
      hide Restored;
      state := map[];
      var left: set<Address> := Rows.Keys;
      while left != {}
        invariant left <= Rows.Keys && state.Keys == Rows.Keys - left
        invariant forall a | a in state :: state[a] == Restored(Rows[a])
        decreases |left|
      {
        var a :| a in left;
        var acc := DeserializeAccount(Rows[a]);
        state := state[a := acc];
        left := left - {a};
      }
    }
  }

  /** A restart finds the saved state again exactly when it still has every account that was ever
      saved, and none of its accounts has a negative balance or a negative paid rent: rows of removed
      accounts come back. */
  lemma RestartRestores(state: map<Address, Account>, before: map<Address, SerializedAccount>,
                        rows: map<Address, SerializedAccount>)
    requires Saved(state, before, rows)
    ensures LoadedAll(rows) == state <==>
              && (forall a | a in before :: a in state)
              && (forall a | a in state :: state[a].balance >= 0 && state[a].stateRentPaid >= 0)
  {
    hide SavedAs, Restored;
    forall a | a in state
      ensures LoadedAll(rows)[a] == state[a] <==> state[a].balance >= 0 && state[a].stateRentPaid >= 0
    {
      SaveLoad(state[a], rows[a]);
    }
    assert forall a :: a in LoadedAll(rows) <==> a in before || a in state;
    if forall a | a in before :: a in state {
      assert LoadedAll(rows).Keys == state.Keys;
    }
  }

  /** What a restart finds, account by account: those of the state without their signs, and every account that
      the state has dropped as it was last saved. */
  lemma RestartFinds(state: map<Address, Account>, before: map<Address, SerializedAccount>,
                     rows: map<Address, SerializedAccount>, a: Address)
    requires Saved(state, before, rows)
    ensures a in LoadedAll(rows) <==> a in state || a in before
    ensures a in state ==>
              LoadedAll(rows)[a] == state[a].(balance := Abs(state[a].balance),
                                              stateRentPaid := Abs(state[a].stateRentPaid))
    ensures a in before && a !in state ==> LoadedAll(rows)[a] == LoadedAll(before)[a]
  {
    hide SavedAs, Restored;
    if a in state {
      SaveLoad(state[a], rows[a]);
    }
  }

  /** The columns of a row have one entry for each word of the storage. */
  lemma ColumnsAreExact(acc: Account, row: SerializedAccount)
    requires SavedAs(acc, row)
    ensures |row.storageKeys| == |row.storageVals| == |acc.storage|
  {
    KeySetSize(row.storageKeys);
    assert KeySet(row.storageKeys) == acc.storage.Keys;
    assert |acc.storage| == |acc.storage.Keys|;
  }

  function KeySet(keys: seq<Word>): set<Word> {
    set k | k in keys
  }

  lemma {:induction false} KeySetSize(keys: seq<Word>)
    requires Distinct(keys)
    ensures |KeySet(keys)| == |keys|
  {
    if keys != [] {
      var n := |keys| - 1;
      KeySetSize(keys[..n]);
      assert keys == keys[..n] + [keys[n]];
      assert keys[n] !in keys[..n];
      assert KeySet(keys) == KeySet(keys[..n]) + {keys[n]};
    }
  }
}
