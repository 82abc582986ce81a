/** The steps of those who move transactions: request handlers, workers, the cleaner and a restart
    (server/transaction.go, server/routes.go). */
module TxProtocol {
  import opened Prelude
  import M = TxModel
  import opened TxModel

  // ---- everyone who holds a transaction id

  /** A worker: waiting for an id, or how far it is with the one it took. `Writing` is the time between
      items.Open and the writer's Close of an item; `unlocked` while a file is being added. */
  datatype Worker =
    | Idle | Stopped
    | Took(id: string) | Seen(id: string, status: Status)
    | Verifying(id: string) | Verified(id: string) | AtTape(id: string)
    | Writing(id: string, item: string, unlocked: bool)

  /** A request handler: it has created the transaction, stored its commands, or submitted it without
      having queued it yet. */
  datatype Phase = Created | Filled | Submitted

  /** Who can have a pointer to a transaction. */
  datatype Holder = OfWorker(w: nat) | OfHandler(id: string)

  /** `adrift` says who still has a transaction that has been removed from the store, and where it is in `loose`;
      everyone else finds the one he works on in the store. */
  datatype State = State(s: Store, queue: seq<string>, workers: seq<Worker>, handlers: map<string, Phase>,
                         removed: set<string>, adrift: map<Holder, nat>, loose: seq<Tx>)

  predicate Holds(w: Worker, id: string) {
    !w.Idle? && !w.Stopped? && w.id == id
  }

  /** The worker has looked its transaction up: from now on it works through a pointer. */
  predicate HasTx(w: Worker) {
    !w.Idle? && !w.Stopped? && !w.Took?
  }

  /** The worker has its transaction's mutex: it is committing it, and not in the middle of an add. */
  predicate Locks(w: Worker) {
    w.Writing? && !w.unlocked
  }

  /** The mutex of the transaction in the store is free. */
  predicate Unlocked(st: State, id: string) {
    forall w :: 0 <= w < |st.workers| && Locks(st.workers[w]) && st.workers[w].id == id ==> OfWorker(w) in st.adrift
  }

  /** The mutex of h's transaction is free. */
  predicate Free(st: State, h: Holder, id: string) {
    if h in st.adrift then
      forall w :: 0 <= w < |st.workers| && Locks(st.workers[w]) && OfWorker(w) in st.adrift ==>
        st.adrift[OfWorker(w)] != st.adrift[h]
    else Unlocked(st, id)
  }

  predicate Adrift(st: State, h: Holder) {
    h in st.adrift && st.adrift[h] < |st.loose|
  }

  predicate Has(st: State, h: Holder, id: string) {
    Adrift(st, h) || (h !in st.adrift && id in st.s.txs)
  }

  /** The store as it looks through h's pointer. */
  function View(st: State, h: Holder, id: string): Store {
    if Adrift(st, h) then st.s.(txs := map[id := st.loose[st.adrift[h]]]) else st.s
  }

  /** h has made t of that: a removed transaction changes where it is, and what is saved goes to disk all the same. */
  function Back(st: State, h: Holder, id: string, t: Store): State {
    if Adrift(st, h) && id in t.txs
    then st.(loose := st.loose[st.adrift[h] := t.txs[id]], s := st.s.(disk := t.disk))
    else st.(s := t)
  }

  function LetGo(adrift: map<Holder, nat>, h: Holder): map<Holder, nat> {
    if h in adrift then adrift - {h} else adrift
  }

  /** Those who have the store's transaction at hand. */
  function Holders(st: State, id: string): set<Holder> {
    (set w | 0 <= w < |st.workers| && HasTx(st.workers[w]) && st.workers[w].id == id && OfWorker(w) !in st.adrift
       :: OfWorker(w))
    + if id in st.handlers && st.handlers[id] != Submitted && OfHandler(id) !in st.adrift then {OfHandler(id)} else {}
  }

  /** Removing a transaction from memory: whoever has it at hand keeps it. */
  function Detach(st: State, id: string): State
    requires id in st.s.txs
  {
    var to := st.(s := st.s.(txs := st.s.txs - {id}), removed := st.removed + {id});
    var hs := Holders(st, id);
    if hs == {} then to
    else to.(adrift := st.adrift + map h | h in hs :: |st.loose|, loose := st.loose + [st.s.txs[id]])
  }

  datatype Event =
    | Create(item: string)                       // NewTxHandler
    | Reject(id: string)                         // the commands do not parse or are not well formed
    | Fill(id: string, cmds: seq<Command>)
    | Submit(id: string)
    | Enqueue(id: string)
    | Take(w: nat)                               // transactionWorker
    | Look(w: nat)
    | Start(w: nat)
    | Verify(w: nat, problems: seq<string>)
    | Decide(w: nat)
    | OpenFails(w: nat, problem: string)         // Commit
    | Begin(w: nat)
    | AddBegins(w: nat)
    | AddEnds(w: nat, problems: seq<string>)
    | Finish(w: nat, problems: seq<string>)
    | Cancel(w: nat)
    | Remove(id: string)                         // cleaner: from memory, then from disk
    | Unlink(id: string)
    | CancelTx(id: string)                       // a request to cancel, whatever the status; Unlink follows
    | Restart(lost: set<string>, unread: set<string>, order: seq<string>)

  predicate Handling(st: State, id: string, phase: Phase) {
    id in st.handlers && st.handlers[id] == phase && Has(st, OfHandler(id), id) && Free(st, OfHandler(id), id)
  }

  /** Worker w is in the middle of a transaction. */
  predicate At(st: State, w: nat) {
    w < |st.workers| && HasTx(st.workers[w]) && Has(st, OfWorker(w), st.workers[w].id)
  }

  /** Worker w has its transaction at hand, and the mutex is free. */
  predicate Ready(st: State, w: nat) {
    At(st, w) && Free(st, OfWorker(w), st.workers[w].id)
  }

  /** Worker w is writing its item. */
  predicate Commits(st: State, w: nat, unlocked: bool) {
    At(st, w) && st.workers[w].Writing? && st.workers[w].unlocked == unlocked
  }

  predicate Enabled(st: State, e: Event) {
    match e
    case Create(item) => !Pending(st.s.txs, item) && forall id :: id in st.s.txs ==> Unlocked(st, id)
    case Reject(id) => Handling(st, id, Created)
    case Fill(id, cmds) => Handling(st, id, Created) && AddCommands(OfRequest(st, id).txs[id], cmds) != None
    case Submit(id) => Handling(st, id, Filled)
    case Enqueue(id) => id in st.handlers && st.handlers[id] == Submitted
    case Take(w) => w < |st.workers| && st.workers[w] == Idle && st.queue != []
    case Look(w) => w < |st.workers| && st.workers[w].Took?
    case Start(w) => Ready(st, w) && st.workers[w].Seen?
    case Verify(w, _) => Ready(st, w) && st.workers[w].Verifying?
    case Decide(w) => Ready(st, w) && st.workers[w].Verified?
    case OpenFails(w, _) => Ready(st, w) && st.workers[w].AtTape?
    case Begin(w) => Ready(st, w) && st.workers[w].AtTape?
    case AddBegins(w) => Commits(st, w, false)
    case AddEnds(w, _) => Commits(st, w, true) && Ready(st, w)
    case Finish(w, _) => Commits(st, w, false)
    case Cancel(w) => w < |st.workers| && (st.workers[w].Idle? || st.workers[w].AtTape?)
    case Remove(id) => id in st.s.txs && Terminal(st.s.txs[id].status)
    case Unlink(id) => id in st.removed
    case CancelTx(id) => id in st.s.txs
    case Restart(lost, unread, order) =>
      Distinct(order) && forall id :: id in order ==> id in st.s.disk && id !in lost && id !in unread
  }

  /** Worker w makes s of the store it sees, and goes on as `next`. */
  function Work(st: State, w: nat, s: Store, next: Worker): State
    requires w < |st.workers|
  {
    var to := if HasTx(st.workers[w]) then Back(st, OfWorker(w), st.workers[w].id, s) else st.(s := s);
    to.(workers := st.workers[w := next], adrift := if HasTx(next) then st.adrift else LetGo(st.adrift, OfWorker(w)))
  }

  /** The store as worker w sees it. */
  function ByPointer(st: State, w: nat): (s: Store)
    requires At(st, w)
    ensures st.workers[w].id in s.txs
  {
    View(st, OfWorker(w), st.workers[w].id)
  }

  /** The store as the handler of a request sees it. */
  function OfRequest(st: State, id: string): (s: Store)
    requires Has(st, OfHandler(id), id)
    ensures id in s.txs
  {
    View(st, OfHandler(id), id)
  }

  /** A handler makes s of that, and goes on or, with None, is through. */
  function Handle(st: State, id: string, s: Store, phase: Option<Phase>): State {
    Back(st, OfHandler(id), id, s).(
      handlers := if phase == None then st.handlers - {id} else st.handlers[id := phase.value],
      adrift := if phase == None || phase == Some(Submitted) then LetGo(st.adrift, OfHandler(id)) else st.adrift)
  }

  /** Which transactions a worker takes up, after looking one up. */
  function Looked(txs: map<string, Tx>, id: string): Worker {
    if id in txs && (txs[id].status == Waiting || txs[id].status == Checking || txs[id].status == Ingest)
    then Seen(id, txs[id].status) else Idle
  }

  function Append(tx: Tx, problems: seq<string>): Tx {
    tx.(errs := tx.errs + problems)
  }

  function Started(s: Store, id: string, status: Status): (Store, Worker)
    requires id in s.txs
  {
    match status
    case Waiting => (SetStatus(s, id, Checking), Verifying(id))
    case Checking => (s, Verifying(id))
    case _ => (s, AtTape(id))
  }

  function Decided(s: Store, id: string): (Store, Worker)
    requires id in s.txs
  {
    if s.txs[id].errs != [] then (SetStatus(s, id, Error), Idle) else (SetStatus(s, id, Ingest), AtTape(id))
  }

  function Closed(s: Store, id: string, problems: seq<string>): Store
    requires id in s.txs
  {
    var tx := Append(s.txs[id], problems);
    Save(s, id, tx.(status := if tx.errs != [] then Error else Finished))
  }

  predicate ByWorker(e: Event) {
    e.Look? || e.Start? || e.Verify? || e.Decide? || e.OpenFails? || e.Begin? || e.AddBegins? || e.AddEnds? || e.Finish?
    || e.Cancel?
  }

  /** What a worker that has an id makes of the store it sees, and where it goes on. */
  function Worked(st: State, e: Event): (Store, Worker)
    requires Enabled(st, e) && ByWorker(e)
  {
    match e
    case Look(w) => (st.s, Looked(st.s.txs, st.workers[w].id))
    case Start(w) => Started(ByPointer(st, w), st.workers[w].id, st.workers[w].status)
    case Verify(w, problems) =>
      var id, s := st.workers[w].id, ByPointer(st, w); (Put(s, id, Append(s.txs[id], problems)), Verified(id))
    case Decide(w) => Decided(ByPointer(st, w), st.workers[w].id)
    case OpenFails(w, problem) =>
      var id, s := st.workers[w].id, ByPointer(st, w);
      (Put(s, id, Append(s.txs[id].(status := Ingest), [problem])), Idle)
    case Begin(w) =>
      var id, s := st.workers[w].id, ByPointer(st, w);
      (Put(s, id, s.txs[id].(status := Ingest)), Writing(id, s.txs[id].item, false))
    case AddBegins(w) => (ByPointer(st, w), st.workers[w].(unlocked := true))
    case AddEnds(w, problems) =>
      var id, s := st.workers[w].id, ByPointer(st, w);
      (Put(s, id, Append(s.txs[id], problems)), st.workers[w].(unlocked := false))
    case Finish(w, problems) => (Closed(ByPointer(st, w), st.workers[w].id, problems), Idle)
    case Cancel(w) => (if HasTx(st.workers[w]) then View(st, OfWorker(w), st.workers[w].id) else st.s, Stopped)
  }

  function Step(st: State, e: Event): State
    requires Enabled(st, e)
  {
    match e
    case Create(item) =>
      var (s, id) := M.Create(st.s, item).value; st.(s := s, handlers := st.handlers[id := Created])
    case Reject(id) => Handle(st, id, SetStatus(OfRequest(st, id), id, Error), None)
    case Fill(id, cmds) =>
      var s := OfRequest(st, id); Handle(st, id, Save(s, id, AddCommands(s.txs[id], cmds).value), Some(Filled))
    case Submit(id) => Handle(st, id, SetStatus(OfRequest(st, id), id, Waiting), Some(Submitted))
    case Enqueue(id) => st.(queue := st.queue + [id], handlers := st.handlers - {id})
    case Take(w) => Work(st.(queue := st.queue[1..]), w, st.s, Took(st.queue[0]))
    case Remove(id) => Detach(st, id)
    case Unlink(id) => st.(s := st.s.(disk := st.s.disk - {id}), removed := st.removed - {id})
    case CancelTx(id) => Detach(st, id)
    case Restart(lost, unread, order) =>
      var disk := st.s.disk - lost;
      Booted(disk, order, |st.workers|).(s := Store(disk - unread, 1, disk))
    case _ => var (s, next) := Worked(st, e); Work(st, e.w, s, next)
  }

  /** A server that has just loaded its transactions and queued `order`. A restart has lost the records that
      were being saved when the server stopped, and leaves on disk those it cannot read. */
  function Booted(disk: map<string, Tx>, order: seq<string>, workers: nat): State {
    State(Store(disk, 1, disk), order, seq(workers, i => Idle), map[], {}, map[], [])
  }

  // ---- the invariant

  predicate PendingIn(txs: map<string, Tx>, id: string) {
    id in txs && !Terminal(txs[id].status)
  }

  /** An item has at most one pending transaction. */
  ghost predicate OnePerItem(txs: map<string, Tx>) {
    forall a, b :: PendingIn(txs, a) && PendingIn(txs, b) && txs[a].item == txs[b].item ==> a == b
  }

  /** What is pending on disk is pending in memory, on the same item. */
  ghost predicate DiskFollows(s: Store) {
    forall id :: PendingIn(s.disk, id) ==> PendingIn(s.txs, id) && s.txs[id].item == s.disk[id].item
  }

  /** Queued, or taken by a worker. */
  ghost predicate Claimed(st: State, id: string) {
    id in st.queue || exists w :: 0 <= w < |st.workers| && Holds(st.workers[w], id)
  }

  /** Each id is queued or held at most once. */
  ghost predicate HeldOnce(st: State) {
    && Distinct(st.queue)
    && (forall id, w :: id in st.queue && 0 <= w < |st.workers| ==> !Holds(st.workers[w], id))
    && (forall id, v, w :: 0 <= v < w < |st.workers| && Holds(st.workers[v], id) ==> !Holds(st.workers[w], id))
  }

  predicate WorkerOK(txs: map<string, Tx>, w: Worker) {
    match w
    case Idle => true
    case Stopped => true
    case Took(id) => true
    case Seen(id, status) => id in txs && txs[id].status == status
                             && (status == Waiting || status == Checking || status == Ingest)
    case Verifying(id) => id in txs && txs[id].status == Checking
    case Verified(id) => id in txs && txs[id].status == Checking
    case AtTape(id) => id in txs && txs[id].status == Ingest
    case Writing(id, item, _) => id in txs && txs[id].status == Ingest && txs[id].item == item
  }

  predicate HandlerOK(txs: map<string, Tx>, id: string, phase: Phase) {
    phase == Submitted || (id in txs && txs[id].status == Open)
  }

  /** Workers and handlers have the transactions they work on in the store, in the state they left them in. */
  ghost predicate Known(st: State) {
    && st.adrift == map[]
    && (forall w :: 0 <= w < |st.workers| ==> WorkerOK(st.s.txs, st.workers[w]))
    && (forall id :: id in st.handlers ==> HandlerOK(st.s.txs, id, st.handlers[id]))
  }

  /** What one life of the server relies on. */
  ghost predicate Live(st: State) {
    OnePerItem(st.s.txs) && HeldOnce(st) && Known(st)
  }

  /** That, and what the next life will rely on. */
  ghost predicate Inv(st: State) {
    Live(st) && DiskFollows(st.s)
  }

  /** No two workers write the same item. */
  ghost predicate WritersExclude(st: State) {
    forall v, w :: 0 <= v < w < |st.workers| ==> !BothWrite(st.workers[v], st.workers[w])
  }

  predicate BothWrite(v: Worker, w: Worker) {
    v.Writing? && w.Writing? && v.item == w.item
  }

  lemma InvExcludes(st: State)
    requires Live(st)
    ensures WritersExclude(st)
  {
    forall v, w | 0 <= v < w < |st.workers| && st.workers[v].Writing? && st.workers[w].Writing?
      ensures !BothWrite(st.workers[v], st.workers[w])
    {
      assert WorkerOK(st.s.txs, st.workers[v]) && WorkerOK(st.s.txs, st.workers[w]);
      assert Holds(st.workers[v], st.workers[v].id);
      assert PendingIn(st.s.txs, st.workers[v].id) && PendingIn(st.s.txs, st.workers[w].id);
    }
  }
}
