/** Transactions and the store that keeps them (transaction/transaction.go). */
module TxModel {
  import opened Prelude
  import opened Names

  datatype Status = Unknown | Open | Waiting | Checking | Ingest | Finished | Error

  predicate Terminal(s: Status) {
    s == Finished || s == Error
  }

  type Command = seq<string>

  /** WellFormed. */
  predicate WellFormed(c: Command) {
    c != [] &&
    match |c|
    case 1 => c[0] == "sleep"
    case 2 => c[0] == "note" || c[0] == "add" || (c[0] == "delete" && ParseInt(c[1]) != None)
    case 3 => c[0] == "slot" || c[0] == "mimetype"
    case _ => false
  }

  datatype Tx = Tx(item: string, status: Status, errs: seq<string>, commands: seq<Command>)

  // ---- the transaction store

  /** The transactions in memory, the number the next id is tried from, and the records on disk. */
  datatype Store = Store(txs: map<string, Tx>, seqno: nat, disk: map<string, Tx>)

  function Numeric(id: string): int {
    if AllDigits(id) then DigitsValue(id) else -1
  }

  function UsedFrom(used: set<string>, n: nat): set<string> {
    set id | id in used && Numeric(id) >= n
  }

  /** makenewid: the first number from n on whose id is free. */
  function NewNumber(used: set<string>, n: nat): (k: nat)
    ensures k >= n && Padded(k) !in used
    ensures forall j :: n <= j < k ==> Padded(j) in used
    decreases |UsedFrom(used, n)|
  {
    if Padded(n) !in used then n
    else
      UsedShrinks(used, n);
      NewNumber(used, n + 1)
  }

  lemma UsedShrinks(used: set<string>, n: nat)
    requires Padded(n) in used
    ensures |UsedFrom(used, n + 1)| < |UsedFrom(used, n)|
  {
    PaddedParses(n);
    assert UsedFrom(used, n + 1) <= UsedFrom(used, n) - {Padded(n)};
    Smaller(UsedFrom(used, n + 1), UsedFrom(used, n) - {Padded(n)});
  }

  lemma {:induction false} Smaller<T>(a: set<T>, b: set<T>)
    requires a <= b
    ensures |a| <= |b|
  {
    assert b == a + (b - a);
  }

  predicate Pending(txs: map<string, Tx>, item: string) {
    exists id :: id in txs && txs[id].item == item && !Terminal(txs[id].status)
  }

  function Fresh(item: string): Tx {
    Tx(item, Open, [], [])
  }

  /** The id the next transaction gets. */
  function NewID(s: Store): (id: string)
    ensures id !in s.txs
  {
    Padded(NewNumber(s.txs.Keys, s.seqno))
  }

  /** Create: refused while a transaction on the item is pending. */
  function Create(s: Store, item: string): Option<(Store, string)> {
    if Pending(s.txs, item) then None
    else
      var id := NewID(s);
      Some((Store(s.txs[id := Fresh(item)], NewNumber(s.txs.Keys, s.seqno) + 1, s.disk[id := Fresh(item)]), id))
  }

  /** Delete: from memory and, if it was there, from disk; false when that fails, with an error. */
  function Delete(s: Store, id: string, unlinks: bool): (Store, bool) {
    if id !in s.txs then (s, true)
    else (s.(txs := s.txs - {id}, disk := if unlinks then s.disk - {id} else s.disk), unlinks)
  }

  /** Change a transaction in memory only. */
  function Put(s: Store, id: string, tx: Tx): Store {
    s.(txs := s.txs[id := tx])
  }

  /** Change a transaction and save it. */
  function Save(s: Store, id: string, tx: Tx): Store {
    s.(txs := s.txs[id := tx], disk := s.disk[id := tx])
  }

  function SetStatus(s: Store, id: string, status: Status): Store
    requires id in s.txs
  {
    Save(s, id, s.txs[id].(status := status))
  }

  /** AddCommandList: all the commands or, when one is not well formed, none. */
  function AddCommands(tx: Tx, cmds: seq<Command>): Option<Tx> {
    if forall c :: c in cmds ==> WellFormed(c) then Some(tx.(commands := tx.commands + cmds)) else None
  }
}
