/** The request handler and one round of a worker, run without interruption. */
module TxServer {
  import opened Prelude
  import M = TxModel
  import opened TxModel
  import opened TxObjects
  import P = TxProtocol

  /** What a request whose body does (Some) or does not (None) parse makes of its new transaction. */
  function Submitted(s: Store, queue: seq<string>, id: string, body: Option<seq<Command>>): (Store, seq<string>, int)
    requires id in s.txs
  {
    if body == None || AddCommands(s.txs[id], body.value) == None then (M.SetStatus(s, id, Error), queue, 400)
    else (M.SetStatus(Save(s, id, AddCommands(s.txs[id], body.value).value), id, Waiting), queue + [id], 202)
  }

  function Handled(s: Store, queue: seq<string>, item: string, body: Option<seq<Command>>): (Store, seq<string>, int) {
    match M.Create(s, item)
    case None => (s, queue, 409)
    case Some((t, id)) => Submitted(t, queue, id, body)
  }

  /** What a worker meets on its way: what verifying the files finds, whether the tape comes up before the
      server stops, whether the item opens, what the commands report. */
  datatype Way = Way(found: seq<string>, tape: bool, openError: Option<string>, reported: seq<string>)

  /** Waiting for the tape, then Commit. */
  function Ingested(s: Store, id: string, way: Way): (Store, P.Worker)
    requires id in s.txs
  {
    if !way.tape then (s, P.Stopped)
    else
      var t := Put(s, id, s.txs[id].(status := Ingest));
      match way.openError
      case Some(e) => (Put(t, id, P.Append(t.txs[id], [e])), P.Idle)
      case None => (P.Closed(t, id, way.reported), P.Idle)
  }

  /** Round from VerifyFiles on. */
  function Checked(s: Store, id: string, way: Way): (Store, P.Worker)
    requires id in s.txs
  {
    var (u, next) := P.Decided(Put(s, id, P.Append(s.txs[id], way.found)), id);
    if next.Idle? then (u, P.Idle) else Ingested(u, id, way)
  }

  /** Round from the first SetStatus on. */
  function FromStart(s: Store, id: string, status: Status, way: Way): (Store, P.Worker)
    requires id in s.txs
  {
    var (t, next) := P.Started(s, id, status);
    if next.AtTape? then Ingested(t, id, way) else Checked(t, id, way)
  }

  /** One round of transactionWorker. */
  function Round(s: Store, id: string, way: Way): (Store, P.Worker) {
    match P.Looked(s.txs, id)
    case Seen(_, status) => FromStart(s, id, status, way)
    case _ => (s, P.Idle)
  }

  /** What is sent: the status, if any was written before a panic, and whether the handler panics. */
  datatype Answer = Answer(code: Option<int>, panics: bool)

  class RESTServer {
    const store: TxStore
    var queue: seq<string>

    ghost predicate Valid()
      reads this, store, store.txs.Values
    {
      store.Valid()
    }

    constructor (store: TxStore)
      requires store.Valid()
      ensures Valid() && this.store == store && queue == []
    {
      this.store, queue := store, [];
    }

    /** What tx.SetStatus means for the store as a whole. */
    method SetStatus(tx: Transaction, status: Status)
      requires Valid() && tx in store.txs.Values
      modifies tx`status, store.records
      ensures Valid() && store.State() == M.SetStatus(old(store.State()), tx.id, status)
    {
      tx.SetStatus(status);
      assert store.Views() == old(store.Views())[tx.id := tx.View()];
    }

    /** What tx.AddCommandList means for the store as a whole. */
    method AddCommandList(tx: Transaction, cmds: seq<Command>) returns (ok: bool)
      requires Valid() && tx in store.txs.Values
      modifies tx`commands, store.records
      ensures Valid() && (ok <==> AddCommands(old(tx.View()), cmds) != None)
      ensures store.State() == if ok then Save(old(store.State()), tx.id, AddCommands(old(tx.View()), cmds).value)
                               else old(store.State())
    {
      ok := tx.AddCommandList(cmds);
      assert store.Views() == old(store.Views())[tx.id := tx.View()];
    }

    method Submit(tx: Transaction, body: Option<seq<Command>>) returns (code: int)
      requires Valid() && tx in store.txs.Values
      modifies this, tx, store.records
      ensures Valid() && (store.State(), queue, code) == Submitted(old(store.State()), old(queue), tx.id, body)
    {
      assert store.State().txs[tx.id] == tx.View();
      if body == None {
        SetStatus(tx, Error);
        return 400;
      }
      var ok := AddCommandList(tx, body.value);
      if !ok {
        SetStatus(tx, Error);
        return 400;
      }
      SetStatus(tx, Waiting);
      queue := queue + [tx.id];
      return 202;
    }

    method NewTxHandler(item: string, body: Option<seq<Command>>) returns (code: int)
      requires Valid()
      modifies this, store, store.records
      ensures Valid() && (store.State(), queue, code) == Handled(old(store.State()), old(queue), item, body)
    {
      var tx := store.Create(item);
      if tx == None {
        return 409;
      }
      assert store.txs[tx.value.id] == tx.value;
      code := Submit(tx.value, body);
    }

    /** CancelTxHandler: a pending transaction is answered with a 400 and deleted all the same. Deleting well ends in
        a panic, as the handler asks the nil error for its text. */
    method CancelTxHandler(id: string, unlinks: bool) returns (answer: Answer)
      requires Valid()
      modifies store, store.records
      ensures Valid() && queue == old(queue)
      ensures store.State() == M.Delete(old(store.State()), id, unlinks).0
      ensures id !in old(store.Views()) ==> answer == Answer(Some(404), false)
      ensures id in old(store.Views()) ==>
        && answer.panics == unlinks
        && answer.code == (if !Terminal(old(store.Views())[id].status) then Some(400)
                           else if unlinks then None else Some(200))
    {
      if id !in store.txs {
        assert id !in store.Views() && store.Views() - {id} == store.Views();
        return Answer(Some(404), false);
      }
      var tx := store.txs[id];
      assert store.Views()[id] == tx.View();
      var code: Option<int> := None;
      if !(tx.status == Finished || tx.status == Error) {
        code := Some(400);
      }
      var ok := store.Delete(id, unlinks);
      if ok {
        return Answer(code, true);
      }
      return Answer(if code == None then Some(200) else code, false);
    }

    /** A change of status or errors that is not saved. */
    method Note(tx: Transaction, status: Status, errs: seq<string>)
      requires Valid() && tx in store.txs.Values
      modifies tx`status, tx`errs
      ensures Valid()
        && store.State() == Put(old(store.State()), tx.id, old(tx.View()).(status := status, errs := errs))
    {
      tx.status, tx.errs := status, errs;
      assert store.Views() == old(store.Views())[tx.id := tx.View()];
    }

    /** Commit; the writer's own work is ItemWriter's. */
    method Commit(tx: Transaction, openError: Option<string>, reported: seq<string>)
      requires Valid() && tx in store.txs.Values
      modifies tx, store.records
      ensures Valid()
      ensures store.State() == Ingested(old(store.State()), tx.id, Way([], true, openError, reported)).0
    {
      assert store.State().txs[tx.id] == tx.View();
      tx.status := Ingest;
      if openError != None {
        tx.AppendError(openError.value);
        assert store.Views() == old(store.Views())[tx.id := tx.View()];
        return;
      }
      Conclude(tx, reported);
    }

    /** The end of Commit: the errors reported decide the status. */
    method Conclude(tx: Transaction, reported: seq<string>)
      requires Valid() && tx in store.txs.Values
      modifies tx, store.records
      ensures Valid() && store.State() == P.Closed(Put(old(store.State()), tx.id, old(tx.View())), tx.id, reported)
    {
      tx.errs := tx.errs + reported;
      tx.status := Finished;
      if tx.errs != [] {
        tx.status := Error;
      }
      tx.Save();
      assert store.Views() == old(store.Views())[tx.id := tx.View()];
    }

    /** The worker's checks of the uploaded files; false when the transaction has failed. */
    method Check(tx: Transaction, found: seq<string>) returns (ok: bool)
      requires Valid() && tx in store.txs.Values
      modifies tx, store.records
      ensures Valid()
      ensures (store.State(), if ok then P.AtTape(tx.id) else P.Idle)
        == P.Decided(Put(old(store.State()), tx.id, P.Append(old(tx.View()), found)), tx.id)
    {
      Note(tx, tx.status, tx.errs + found);
      assert store.State().txs[tx.id] == tx.View();
      if tx.errs != [] {
        SetStatus(tx, Error);
        return false;
      }
      SetStatus(tx, Ingest);
      return true;
    }

    method WaitAndCommit(tx: Transaction, way: Way) returns (goesOn: bool)
      requires Valid() && tx in store.txs.Values
      modifies tx, store.records
      ensures Valid()
      ensures (store.State(), if goesOn then P.Idle else P.Stopped) == Ingested(old(store.State()), tx.id, way)
    {
      assert store.State().txs[tx.id] == tx.View();
      if !way.tape {
        return false;
      }
      Commit(tx, way.openError, way.reported);
      return true;
    }

    method CheckAndCommit(tx: Transaction, way: Way) returns (goesOn: bool)
      requires Valid() && tx in store.txs.Values
      modifies tx, store.records
      ensures Valid()
      ensures (store.State(), if goesOn then P.Idle else P.Stopped) == Checked(old(store.State()), tx.id, way)
    {
      assert store.State().txs[tx.id] == tx.View();
      var ok := Check(tx, way.found);
      if !ok {
        return true;
      }
      goesOn := WaitAndCommit(tx, way);
    }

    /** One round of transactionWorker for the id it took; false when the server stopped meanwhile. */
    method Work(id: string, way: Way) returns (goesOn: bool)
      requires Valid()
      modifies store.txs.Values, store.records
      ensures Valid()
      ensures (store.State(), if goesOn then P.Idle else P.Stopped) == Round(old(store.State()), id, way)
    {
      if id !in store.txs {
        return true;
      }
      var tx := store.txs[id];
      assert store.State().txs[id] == tx.View();
      match tx.status
      case Waiting =>
        SetStatus(tx, Checking);
        goesOn := CheckAndCommit(tx, way);
      case Checking =>
        goesOn := CheckAndCommit(tx, way);
      case Ingest =>
        goesOn := WaitAndCommit(tx, way);
      case _ =>
        return true;
    }
  }
}
