/** Transactions as objects: a store of transactions kept in memory and on disk, the request handler that
    creates them and one round of a worker. */
module TxObjects {
  import opened Prelude
  import opened Names
  import M = TxModel
  import opened TxModel

  /** The JSON records, by id. */
  class Records {
    var saved: map<string, Tx>

    constructor ()
      ensures saved == map[]
    {
      saved := map[];
    }
  }

  class Transaction {
    const id: string
    const item: string
    const records: Records
    var status: Status
    var errs: seq<string>
    var commands: seq<Command>

    function View(): Tx
      reads this
    {
      Tx(item, status, errs, commands)
    }

    constructor (id: string, tx: Tx, records: Records)
      ensures this.id == id && View() == tx && this.records == records
    {
      this.id, this.item, this.records := id, tx.item, records;
      status, errs, commands := tx.status, tx.errs, tx.commands;
    }

    method Save()
      modifies records
      ensures records.saved == old(records.saved)[id := View()]
    {
      records.saved := records.saved[id := View()];
    }

    method SetStatus(s: Status)
      modifies this`status, records
      ensures View() == old(View()).(status := s)
      ensures records.saved == old(records.saved)[id := View()]
    {
      status := s;
      Save();
    }

    method AddCommandList(cmds: seq<Command>) returns (ok: bool)
      modifies this`commands, records
      ensures ok <==> AddCommands(old(View()), cmds) != None
      ensures ok ==> Some(View()) == AddCommands(old(View()), cmds)
                     && records.saved == old(records.saved)[id := View()]
      ensures !ok ==> View() == old(View()) && records.saved == old(records.saved)
    {
      for i := 0 to |cmds|
        invariant forall j :: 0 <= j < i ==> WellFormed(cmds[j])
      {
        if !WellFormed(cmds[i]) {
          return false;
        }
      }
      commands := commands + cmds;
      Save();
      return true;
    }

    method AppendError(e: string)
      modifies this`errs
      ensures View() == old(View()).(errs := old(errs) + [e])
    {
      errs := errs + [e];
    }
  }

  class TxStore {
    const records: Records
    var txs: map<string, Transaction>
    var seqno: nat

    ghost predicate Valid()
      reads this, txs.Values
    {
      forall id :: id in txs ==> txs[id].id == id && txs[id].records == records
    }

    ghost function Views(): map<string, Tx>
      reads this, txs.Values
    {
      map id | id in txs :: txs[id].View()
    }

    ghost function State(): Store
      reads this, txs.Values, records
    {
      Store(Views(), seqno, records.saved)
    }

    constructor (records: Records)
      ensures Valid() && this.records == records && State() == Store(map[], 1, records.saved)
    {
      this.records := records;
      txs, seqno := map[], 1;
    }

    /** A new object for transaction `id`. */
    method Keep(id: string, tx: Tx) returns (t: Transaction)
      requires Valid()
      modifies this`txs
      ensures Valid() && fresh(t) && txs == old(txs)[id := t] && t.id == id && t.records == records && t.View() == tx
      ensures Views() == old(Views())[id := tx]
    {
      t := new Transaction(id, tx, records);
      txs := txs[id := t];
    }

    /** Every saved transaction is brought into memory, except those whose record cannot be read. */
    method Load(unread: set<string>)
      requires Valid()
      modifies this`txs
      ensures Valid() && records.saved == old(records.saved)
      ensures State() == old(State()).(txs := old(Views()) + (records.saved - unread))
    {
      ghost var before := Views();
      var rest, done := records.saved.Keys, {};
      while rest != {}
        invariant rest !! done && rest + done == records.saved.Keys && records.saved == old(records.saved)
        invariant Valid() && seqno == old(seqno) && txs.Keys == before.Keys + (done - unread)
        invariant forall id :: id in txs ==>
          Views()[id] == if id in done - unread then records.saved[id] else before[id]
      {
        var id :| id in rest;
        if id !in unread {
          var _ := Keep(id, records.saved[id]);
        }
        rest, done := rest - {id}, done + {id};
      }
      assert Views() == before + (records.saved - unread);
    }

    method MakeNewID() returns (id: string)
      requires Valid()
      modifies this`seqno
      ensures id == NewID(old(State())) && seqno == NewNumber(Views().Keys, old(seqno)) + 1
    {
      ghost var start := seqno;
      assert Views().Keys == txs.Keys;
      while true
        invariant seqno >= start && NewNumber(txs.Keys, seqno) == NewNumber(txs.Keys, start)
        decreases NewNumber(txs.Keys, start) - seqno
      {
        id := Padded(seqno);
        seqno := seqno + 1;
        if id !in txs {
          return;
        }
      }
    }

    method InProcess(item: string) returns (found: bool)
      requires Valid()
      ensures found <==> Pending(Views(), item)
    {
      var rest := txs.Keys;
      while rest != {}
        invariant rest <= txs.Keys
        invariant forall id :: id in txs && id !in rest ==> txs[id].item != item || Terminal(txs[id].status)
      {
        var id :| id in rest;
        if txs[id].item == item && txs[id].status != Finished && txs[id].status != Error {
          assert Views()[id] == txs[id].View();
          return true;
        }
        rest := rest - {id};
      }
      return false;
    }

    method Create(item: string) returns (tx: Option<Transaction>)
      requires Valid()
      modifies this, records
      ensures Valid()
      ensures tx == None ==> M.Create(old(State()), item) == None && State() == old(State())
      ensures tx != None ==> M.Create(old(State()), item) == Some((State(), tx.value.id))
      ensures tx != None ==> fresh(tx.value) && txs == old(txs)[tx.value.id := tx.value]
    {
      var busy := InProcess(item);
      if busy {
        return None;
      }
      var id := MakeNewID();
      var t := Keep(id, Fresh(item));
      t.Save();
      assert Views() == old(Views())[id := Fresh(item)];
      return Some(t);
    }

    method Delete(id: string, unlinks: bool) returns (ok: bool)
      requires Valid()
      modifies this`txs, records
      ensures Valid() && txs == old(txs) - {id}
      ensures (State(), ok) == M.Delete(old(State()), id, unlinks)
    {
      var known := id in txs;
      txs := txs - {id};
      ok := true;
      if known {
        if unlinks {
          records.saved := records.saved - {id};
        }
        ok := unlinks;
      } else {
        assert old(Views()) - {id} == old(Views());
      }
      assert Views() == old(Views()) - {id};
    }
  }
}
