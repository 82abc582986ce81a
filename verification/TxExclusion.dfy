/** At most one writer per item, over every interleaving of handlers, workers, cleaner and restarts. */
module TxExclusion {
  import opened Prelude
  import M = TxModel
  import opened TxModel
  import opened TxProtocol

  /** The transaction is changed in memory, and on disk unless it stays pending. */
  ghost predicate Changed(s: Store, t: Store, id: string) {
    && PendingIn(s.txs, id) && id in t.txs && t.txs == s.txs[id := t.txs[id]]
    && t.txs[id].item == s.txs[id].item
    && (t.disk == s.disk[id := t.txs[id]] || (t.disk == s.disk && PendingIn(t.txs, id)))
  }

  lemma ChangeKeeps(s: Store, t: Store, id: string)
    requires Changed(s, t, id) && OnePerItem(s.txs)
    ensures OnePerItem(t.txs) && (DiskFollows(s) ==> DiskFollows(t))
  {
    forall a, b | PendingIn(t.txs, a) && PendingIn(t.txs, b) && t.txs[a].item == t.txs[b].item
      ensures a == b
    {
      assert PendingIn(s.txs, a) && PendingIn(s.txs, b);
    }
    forall a | DiskFollows(s) && PendingIn(t.disk, a)
      ensures PendingIn(t.txs, a) && t.txs[a].item == t.disk[a].item
    {
      if a != id { assert PendingIn(s.disk, a); } else if t.disk == s.disk { assert PendingIn(s.disk, a); }
    }
  }

  /** A worker goes on with the id it holds, or lets go of it. */
  lemma WorkKeeps(st: State, w: nat, s: Store, next: Worker)
    requires Live(st) && w < |st.workers|
    requires s == st.s || (!st.workers[w].Took? && exists id :: Holds(st.workers[w], id) && Changed(st.s, s, id))
    requires forall id :: Holds(next, id) ==> Holds(st.workers[w], id)
    requires WorkerOK(s.txs, next)
    ensures Live(Work(st, w, s, next)) && Work(st, w, s, next).s == s && (DiskFollows(st.s) ==> DiskFollows(s))
  {
    var to := Work(st, w, s, next);
    if s != st.s {
      var id :| Holds(st.workers[w], id) && Changed(st.s, s, id);
      ChangeKeeps(st.s, s, id);
      assert WorkerOK(st.s.txs, st.workers[w]);
      assert forall v :: 0 <= v < |st.workers| && v != w ==> !Holds(st.workers[v], id);
    }
    assert forall v :: 0 <= v < |to.workers| ==> v == w || to.workers[v] == st.workers[v];
  }

  lemma CreateKeeps(st: State, item: string)
    requires Live(st) && Enabled(st, Event.Create(item))
    ensures var to := Step(st, Event.Create(item)); Live(to) && (DiskFollows(st.s) ==> DiskFollows(to.s))
  {
    var to := Step(st, Event.Create(item));
    assert OnePerItem(to.s.txs);
    forall w | 0 <= w < |to.workers|
      ensures WorkerOK(to.s.txs, to.workers[w])
    {
      assert WorkerOK(st.s.txs, st.workers[w]);
    }
    forall a | a in to.handlers
      ensures HandlerOK(to.s.txs, a, to.handlers[a])
    {
      if a != NewID(st.s) { assert HandlerOK(st.s.txs, a, st.handlers[a]); }
    }
  }

  /** A request handler changes its transaction, which no worker has taken up yet. */
  lemma HandlerKeeps(st: State, id: string, s: Store, phase: Option<Phase>)
    requires Live(st) && id in st.s.txs && st.s.txs[id].status == Open && Changed(st.s, s, id)
    requires phase != None ==> HandlerOK(s.txs, id, phase.value)
    ensures Live(Handle(st, id, s, phase)) && Handle(st, id, s, phase).s == s && (DiskFollows(st.s) ==> DiskFollows(s))
  {
    var to := Handle(st, id, s, phase);
    ChangeKeeps(st.s, s, id);
    forall w | 0 <= w < |to.workers|
      ensures WorkerOK(to.s.txs, to.workers[w])
    {
      assert WorkerOK(st.s.txs, st.workers[w]);
    }
  }

  /** Queueing keeps each id queued or held at most once if and only if the id is not queued or held already. */
  lemma EnqueueKeeps(st: State, id: string)
    requires Live(st) && Enabled(st, Enqueue(id))
    ensures HeldOnce(Step(st, Enqueue(id))) <==> !Claimed(st, id)
    ensures Live(Step(st, Enqueue(id))) <==> !Claimed(st, id)
  {
    var to := Step(st, Enqueue(id));
    assert to.queue[|st.queue|] == id && forall i :: 0 <= i < |st.queue| ==> to.queue[i] == st.queue[i];
    if id in st.queue {
      var i :| 0 <= i < |st.queue| && st.queue[i] == id;
      assert to.queue[i] == to.queue[|st.queue|];
    }
    if exists w :: 0 <= w < |st.workers| && Holds(st.workers[w], id) {
      var w :| 0 <= w < |st.workers| && Holds(st.workers[w], id);
      assert id in to.queue && Holds(to.workers[w], id);
    }
  }

  lemma TakeKeeps(st: State, w: nat)
    requires Live(st) && Enabled(st, Take(w))
    ensures Live(Step(st, Take(w)))
  {
    var to := Step(st, Take(w));
    var id := st.queue[0];
    assert id !in to.queue && forall a :: a in to.queue ==> a in st.queue;
    assert forall v :: 0 <= v < |to.workers| ==> to.workers[v] == if v == w then Took(id) else st.workers[v];
    assert id in st.queue && forall v :: 0 <= v < |st.workers| ==> !Holds(st.workers[v], id);
    assert forall a :: Holds(to.workers[w], a) ==> a == id;
  }

  /** A worker's step changes at most the transaction it has at hand, in memory and on disk. */
  ghost predicate Framed(st: State, to: State, w: nat) {
    && w < |st.workers| == |to.workers|
    && to.handlers == st.handlers && to.queue == st.queue && to.removed == st.removed
    && (forall v :: 0 <= v < |st.workers| && v != w ==> to.workers[v] == st.workers[v])
    && (forall id :: !(HasTx(st.workers[w]) && st.workers[w].id == id) ==>
          && (id in to.s.txs <==> id in st.s.txs) && (id in to.s.disk <==> id in st.s.disk)
          && (id in st.s.txs ==> to.s.txs[id] == st.s.txs[id]) && (id in st.s.disk ==> to.s.disk[id] == st.s.disk[id]))
  }

  /** t is s with transaction id changed, in memory and perhaps on disk. */
  ghost predicate OnlyOwn(s: Store, t: Store, id: string) {
    && id in s.txs && id in t.txs && t.txs == s.txs[id := t.txs[id]]
    && (t.disk == s.disk || (id in t.disk && t.disk == s.disk[id := t.disk[id]]))
  }

  lemma WorkedOwn(st: State, e: Event)
    requires Enabled(st, e) && ByWorker(e)
    ensures var worker, (t, next) := st.workers[e.w], Worked(st, e);
      && (HasTx(worker) && At(st, e.w) ==> OnlyOwn(ByPointer(st, e.w), t, worker.id))
      && (!HasTx(worker) ==> t == st.s)
      && (forall id :: Holds(next, id) ==> Holds(worker, id))
      && (HasTx(worker) && !At(st, e.w) ==> t == st.s)
  {
  }

  lemma WorkFrames(st: State, w: nat, t: Store, next: Worker)
    requires w < |st.workers|
    requires HasTx(st.workers[w]) && At(st, w) ==> OnlyOwn(ByPointer(st, w), t, st.workers[w].id)
    requires !HasTx(st.workers[w]) || !At(st, w) ==> t == st.s
    ensures Framed(st, Work(st, w, t, next), w)
  {
  }

  lemma WorkerFrame(st: State, e: Event)
    requires Enabled(st, e) && ByWorker(e)
    ensures Framed(st, Step(st, e), e.w)
    ensures forall id :: Holds(Step(st, e).workers[e.w], id) ==> Holds(st.workers[e.w], id)
    ensures e.Look? ==> Step(st, e).workers[e.w] == Looked(st.s.txs, st.workers[e.w].id)
  {
    WorkedOwn(st, e);
    var (t, next) := Worked(st, e);
    WorkFrames(st, e.w, t, next);
  }

  lemma WorkedKeeps(st: State, e: Event)
    requires Live(st) && Enabled(st, e) && ByWorker(e)
    ensures var worker, (t, next) := st.workers[e.w], Worked(st, e);
      && (t == st.s || (HasTx(worker) && Changed(st.s, t, worker.id))) && WorkerOK(t.txs, next)
      && (forall id :: Holds(next, id) ==> Holds(worker, id))
  {
    assert WorkerOK(st.s.txs, st.workers[e.w]);
  }

  lemma WorkerStepKeeps(st: State, e: Event)
    requires Live(st) && Enabled(st, e) && ByWorker(e)
    ensures Live(Step(st, e)) && (DiskFollows(st.s) ==> DiskFollows(Step(st, e).s))
  {
    WorkedKeeps(st, e);
    var (t, next) := Worked(st, e);
    if t != st.s { assert Holds(st.workers[e.w], st.workers[e.w].id); }
    WorkKeeps(st, e.w, t, next);
  }

  /** A worker is in the middle of the store's transaction, or its handler is not through with it. */
  ghost predicate AtHand(st: State, id: string) {
    || (exists w :: 0 <= w < |st.workers| && HasTx(st.workers[w]) && st.workers[w].id == id
                    && OfWorker(w) !in st.adrift)
    || (id in st.handlers && st.handlers[id] != Submitted && OfHandler(id) !in st.adrift)
  }

  lemma AtHandIsHeld(st: State, id: string)
    ensures AtHand(st, id) <==> Holders(st, id) != {}
  {
    if AtHand(st, id) {
      if w :| 0 <= w < |st.workers| && HasTx(st.workers[w]) && st.workers[w].id == id && OfWorker(w) !in st.adrift {
        assert OfWorker(w) in Holders(st, id);
      } else {
        assert OfHandler(id) in Holders(st, id);
      }
    }
  }

  /** A transaction that is over is at nobody's hand. */
  lemma OverIsAlone(st: State, id: string)
    requires Live(st) && id in st.s.txs && Terminal(st.s.txs[id].status)
    ensures !AtHand(st, id)
  {
    forall w | 0 <= w < |st.workers|
      ensures !(HasTx(st.workers[w]) && st.workers[w].id == id)
    {
      assert WorkerOK(st.s.txs, st.workers[w]);
    }
    if id in st.handlers { assert HandlerOK(st.s.txs, id, st.handlers[id]); }
  }

  /** Removing a transaction from memory, whatever its status, leaves this life of the server in order exactly when
      nobody has it at hand; the record it leaves on disk is in order exactly when it is not pending. */
  lemma DetachKeeps(st: State, id: string)
    requires Live(st) && id in st.s.txs
    ensures Live(Detach(st, id)) <==> !AtHand(st, id)
    ensures DiskFollows(st.s) ==> (DiskFollows(Detach(st, id).s) <==> !PendingIn(st.s.disk, id))
  {
    AtHandIsHeld(st, id);
    var to := Detach(st, id);
    if AtHand(st, id) {
      var h :| h in Holders(st, id);
      assert h in to.adrift;
    } else {
      DetachedKnown(st, id);
    }
    assert PendingIn(st.s.disk, id) ==> !PendingIn(to.s.txs, id) && PendingIn(to.s.disk, id);
  }

  lemma DetachedKnown(st: State, id: string)
    requires Live(st) && id in st.s.txs && !AtHand(st, id) && Holders(st, id) == {}
    ensures Known(Detach(st, id))
  {
    var to := Detach(st, id);
    forall w | 0 <= w < |to.workers|
      ensures WorkerOK(to.s.txs, to.workers[w])
    {
      assert WorkerOK(st.s.txs, st.workers[w]);
    }
    forall a | a in to.handlers
      ensures HandlerOK(to.s.txs, a, to.handlers[a])
    {
      assert HandlerOK(st.s.txs, a, st.handlers[a]);
    }
  }

  lemma UnlinkKeeps(st: State, id: string)
    requires Live(st) && Enabled(st, Unlink(id))
    ensures var to := Step(st, Unlink(id)); Live(to) && (DiskFollows(st.s) ==> DiskFollows(to.s))
  {
    var to := Step(st, Unlink(id));
    assert forall a :: PendingIn(to.s.disk, a) ==> PendingIn(st.s.disk, a);
  }

  /** The restart leaves no pending transaction out of memory that is still on disk. */
  ghost predicate LoadsPending(st: State, lost: set<string>, unread: set<string>) {
    forall id :: PendingIn(st.s.disk, id) && id in unread ==> id in lost
  }

  lemma RestartLives(st: State, lost: set<string>, unread: set<string>, order: seq<string>)
    requires Enabled(st, Restart(lost, unread, order))
    ensures Live(Step(st, Restart(lost, unread, order))) <==> OnePerItem(st.s.disk - lost - unread)
  {
  }

  lemma RestartKeeps(st: State, lost: set<string>, unread: set<string>, order: seq<string>)
    requires Inv(st) && Enabled(st, Restart(lost, unread, order))
    ensures Inv(Step(st, Restart(lost, unread, order))) <==> LoadsPending(st, lost, unread)
  {
    var to := Step(st, Restart(lost, unread, order));
    assert forall a :: PendingIn(to.s.txs, a) ==> PendingIn(st.s.disk, a) && to.s.txs[a] == st.s.disk[a];
    forall id | PendingIn(st.s.disk, id) && id in unread && id !in lost
      ensures PendingIn(to.s.disk, id) && id !in to.s.txs
    {
    }
  }

  // ---- one step

  lemma HandlerStepKeeps(st: State, e: Event)
    requires Live(st) && Enabled(st, e) && (e.Reject? || e.Fill? || e.Submit?)
    ensures Live(Step(st, e)) && (DiskFollows(st.s) ==> DiskFollows(Step(st, e).s))
  {
    var id := e.id;
    assert HandlerOK(st.s.txs, id, st.handlers[id]);
    match e
    case Reject(_) => HandlerKeeps(st, id, SetStatus(st.s, id, Error), None);
    case Fill(_, cmds) => HandlerKeeps(st, id, Save(st.s, id, AddCommands(st.s.txs[id], cmds).value), Some(Filled));
    case Submit(_) => HandlerKeeps(st, id, SetStatus(st.s, id, Waiting), Some(Submitted));
  }

  /** What a step must not do: queue an id still queued or held, cancel a transaction that somebody has at hand, load
      two pending ones of one item. */
  ghost predicate Sound(st: State, e: Event) {
    match e
    case Enqueue(id) => !Claimed(st, id)
    case CancelTx(id) => !AtHand(st, id)
    case Restart(lost, unread, _) => OnePerItem(st.s.disk - lost - unread)
    case _ => true
  }

  /** Within one life of the server every step keeps the invariant of that life, except exactly those. */
  lemma StepLives(st: State, e: Event)
    requires Live(st) && Enabled(st, e)
    ensures Live(Step(st, e)) <==> Sound(st, e)
  {
    match e
    case Create(item) => CreateKeeps(st, item);
    case Reject(id) => HandlerStepKeeps(st, e);
    case Fill(id, _) => HandlerStepKeeps(st, e);
    case Submit(id) => HandlerStepKeeps(st, e);
    case Enqueue(id) => EnqueueKeeps(st, id);
    case Take(w) => TakeKeeps(st, w);
    case Remove(id) =>
      DetachKeeps(st, id);
      OverIsAlone(st, id);
    case CancelTx(id) => DetachKeeps(st, id);
    case Unlink(id) => UnlinkKeeps(st, id);
    case Restart(lost, unread, order) => RestartLives(st, lost, unread, order);
    case _ => WorkerStepKeeps(st, e);
  }

  lemma StepFollows(st: State, e: Event)
    requires Inv(st) && Enabled(st, e) && !e.Restart?
    ensures DiskFollows(Step(st, e).s) <==> e.CancelTx? ==> !PendingIn(st.s.disk, e.id)
  {
    match e
    case Create(item) => CreateKeeps(st, item);
    case Reject(id) => HandlerStepKeeps(st, e);
    case Fill(id, _) => HandlerStepKeeps(st, e);
    case Submit(id) => HandlerStepKeeps(st, e);
    case Enqueue(id) =>
    case Take(w) =>
    case Remove(id) =>
      DetachKeeps(st, id);
      assert !PendingIn(st.s.txs, id);
    case CancelTx(id) => DetachKeeps(st, id);
    case Unlink(id) => UnlinkKeeps(st, id);
    case _ => WorkerStepKeeps(st, e);
  }

  /** What a step must not do if the next life is to find the records in order as well. */
  ghost predicate Harmless(st: State, e: Event) {
    match e
    case Enqueue(id) => !Claimed(st, id)
    case CancelTx(id) => !AtHand(st, id) && !PendingIn(st.s.disk, id)
    case Restart(lost, unread, _) => LoadsPending(st, lost, unread)
    case _ => true
  }

  lemma StepKeeps(st: State, e: Event)
    requires Inv(st) && Enabled(st, e)
    ensures Inv(Step(st, e)) <==> Harmless(st, e)
  {
    if e.Restart? {
      RestartKeeps(st, e.lost, e.unread, e.order);
    } else {
      StepLives(st, e);
      StepFollows(st, e);
    }
  }

  /** A request cancels only what is over, and a restart loads all that is pending. */
  ghost predicate Orderly(st: State, e: Event) {
    && (e.CancelTx? && e.id in st.s.txs ==> Terminal(st.s.txs[e.id].status))
    && (e.Restart? ==> LoadsPending(st, e.lost, e.unread))
  }

  lemma OrderlyIsHarmless(st: State, e: Event)
    requires Inv(st) && Enabled(st, e) && Orderly(st, e)
    ensures Harmless(st, e) <==> e.Enqueue? ==> !Claimed(st, e.id)
  {
    if e.CancelTx? {
      OverIsAlone(st, e.id);
      assert !PendingIn(st.s.txs, e.id);
    }
  }

  // ---- runs

  /** The server from its first start: after each event the next state. */
  ghost predicate IsRun(sts: seq<State>, evs: seq<Event>) {
    && |sts| == |evs| + 1
    && sts[0] == Booted(map[], [], |sts[0].workers|)
    && (forall i :: 0 <= i < |evs| ==> Enabled(sts[i], evs[i]))
    && (forall i :: 0 <= i < |evs| ==> sts[i + 1] == Step(sts[i], evs[i]))
  }

  ghost predicate OrderlyRun(sts: seq<State>, evs: seq<Event>) {
    IsRun(sts, evs) && forall i :: 0 <= i < |evs| ==> Orderly(sts[i], evs[i])
  }

  /** No handler queues an id that is still queued or held. */
  ghost predicate NoneQueuedTwice(sts: seq<State>, evs: seq<Event>) {
    forall i :: 0 <= i < |evs| && i < |sts| && evs[i].Enqueue? ==> !Claimed(sts[i], evs[i].id)
  }

  lemma {:induction false} RunKeeps(sts: seq<State>, evs: seq<Event>, k: nat)
    requires OrderlyRun(sts, evs) && k <= |evs| && NoneQueuedTwice(sts, evs)
    ensures Inv(sts[k])
  {
    if k > 0 {
      RunKeeps(sts, evs, k - 1);
      assert Enabled(sts[k - 1], evs[k - 1]) && Orderly(sts[k - 1], evs[k - 1])
        && sts[k] == Step(sts[k - 1], evs[k - 1]);
      StepKeeps(sts[k - 1], evs[k - 1]);
      OrderlyIsHarmless(sts[k - 1], evs[k - 1]);
    }
  }

  /** Every run, whatever is cancelled: each life's invariant holds all along, and with it each item has one writer at
      a time, if and only if no step queues an id twice, cancels a transaction somebody has at hand, or loads two
      pending ones of one item. */
  lemma LiveIffSound(sts: seq<State>, evs: seq<Event>)
    requires IsRun(sts, evs)
    ensures (forall k :: 0 <= k < |sts| ==> Live(sts[k])) <==> AllSound(sts, evs)
    ensures AllSound(sts, evs) ==> forall k :: 0 <= k < |sts| ==> WritersExclude(sts[k])
  {
    if AllSound(sts, evs) {
      forall k | 0 <= k < |sts|
        ensures Live(sts[k]) && WritersExclude(sts[k])
      {
        SoundRunLives(sts, evs, k);
        InvExcludes(sts[k]);
      }
    }
    if forall k :: 0 <= k < |sts| ==> Live(sts[k]) {
      forall i | 0 <= i < |evs|
        ensures Sound(sts[i], evs[i])
      {
        assert Live(sts[i]) && Live(sts[i + 1]) && Enabled(sts[i], evs[i]) && sts[i + 1] == Step(sts[i], evs[i]);
        StepLives(sts[i], evs[i]);
      }
    }
  }

  ghost predicate AllSound(sts: seq<State>, evs: seq<Event>) {
    forall i :: 0 <= i < |evs| && i < |sts| ==> Sound(sts[i], evs[i])
  }

  lemma {:induction false} SoundRunLives(sts: seq<State>, evs: seq<Event>, k: nat)
    requires IsRun(sts, evs) && k <= |evs| && AllSound(sts, evs)
    ensures Live(sts[k])
  {
    if k > 0 {
      SoundRunLives(sts, evs, k - 1);
      assert Enabled(sts[k - 1], evs[k - 1]) && sts[k] == Step(sts[k - 1], evs[k - 1]);
      StepLives(sts[k - 1], evs[k - 1]);
    }
  }

  /** An orderly run keeps the invariant all along, each id queued or held at most once and each item with one
      pending transaction, if and only if no handler queues an id that is still queued or held. */
  lemma KeptIffNoneQueuedTwice(sts: seq<State>, evs: seq<Event>)
    requires OrderlyRun(sts, evs)
    ensures (forall k :: 0 <= k < |sts| ==> Inv(sts[k])) <==> NoneQueuedTwice(sts, evs)
  {
    if NoneQueuedTwice(sts, evs) {
      forall k | 0 <= k < |sts|
        ensures Inv(sts[k])
      {
        RunKeeps(sts, evs, k);
      }
    }
    if forall k :: 0 <= k < |sts| ==> Inv(sts[k]) {
      forall i | 0 <= i < |evs| && evs[i].Enqueue?
        ensures !Claimed(sts[i], evs[i].id)
      {
        assert Inv(sts[i]) && Inv(sts[i + 1]) && Enabled(sts[i], evs[i]) && Orderly(sts[i], evs[i]);
        assert sts[i + 1] == Step(sts[i], evs[i]);
        StepKeeps(sts[i], evs[i]);
        OrderlyIsHarmless(sts[i], evs[i]);
      }
    }
  }

  // ---- two ways of keeping handlers' ids to themselves

  /** A transaction that a handler has is neither queued nor held, and is as the handler left it. */
  ghost predicate HandlersApart(st: State) {
    forall id :: id in st.handlers ==>
      !Claimed(st, id) && id in st.s.txs
      && st.s.txs[id].status == if st.handlers[id] == Submitted then Waiting else Open
  }

  lemma StepClaims(st: State, e: Event, id: string)
    requires Inv(st) && Enabled(st, e) && Claimed(Step(st, e), id)
    ensures Claimed(st, id) || (e.Enqueue? && e.id == id) || (e.Restart? && id in e.order)
  {
    var to := Step(st, e);
    if id !in to.queue {
      var w :| 0 <= w < |to.workers| && Holds(to.workers[w], id);
      if e.Take? && w == e.w {
        assert id == st.queue[0];
      } else if !e.Restart? {
        assert Holds(st.workers[w], id);
      }
    }
  }

  /** Nobody but its handler changes a transaction that is neither queued nor held. */
  lemma UnclaimedKept(st: State, e: Event, id: string)
    requires Inv(st) && Enabled(st, e) && Orderly(st, e) && !e.Restart?
    requires id in st.s.txs && !Terminal(st.s.txs[id].status) && !Claimed(st, id)
    requires !(e.Reject? || e.Fill? || e.Submit?) || e.id != id
    ensures id in Step(st, e).s.txs && Step(st, e).s.txs[id] == st.s.txs[id]
  {
    if ByWorker(e) {
      WorkerFrame(st, e);
      if HasTx(st.workers[e.w]) { assert Holds(st.workers[e.w], st.workers[e.w].id); }
    }
  }

  lemma StepApart(st: State, e: Event)
    requires Inv(st) && HandlersApart(st) && Enabled(st, e) && Orderly(st, e)
    requires e.Create? ==> !Claimed(st, NewID(st.s))
    ensures HandlersApart(Step(st, e))
  {
    var to := Step(st, e);
    forall id | id in to.handlers
      ensures !Claimed(to, id) && id in to.s.txs
      ensures to.s.txs[id].status == if to.handlers[id] == Submitted then Waiting else Open
    {
      if Claimed(to, id) { StepClaims(st, e, id); }
      if id in st.handlers && !((e.Reject? || e.Fill? || e.Submit?) && e.id == id) { UnclaimedKept(st, e, id); }
    }
  }

  /** Nobody removes a transaction whose id is still queued or held. */
  ghost predicate CleanerWaits(sts: seq<State>, evs: seq<Event>) {
    forall i :: 0 <= i < |evs| && i < |sts| && (evs[i].Remove? || evs[i].CancelTx?) ==> !Claimed(sts[i], evs[i].id)
  }

  /** Every queued or held id is that of a transaction in memory. */
  ghost predicate ClaimsKnown(st: State) {
    forall id :: Claimed(st, id) ==> id in st.s.txs
  }

  lemma StepClaimsKnown(st: State, e: Event)
    requires Inv(st) && HandlersApart(st) && ClaimsKnown(st) && Enabled(st, e)
    requires e.Remove? || e.CancelTx? ==> !Claimed(st, e.id)
    ensures ClaimsKnown(Step(st, e))
  {
    forall id | Claimed(Step(st, e), id)
      ensures id in Step(st, e).s.txs
    {
      StepClaims(st, e, id);
    }
  }

  lemma {:induction false} CleanRunKeeps(sts: seq<State>, evs: seq<Event>, k: nat)
    requires OrderlyRun(sts, evs) && k <= |evs| && CleanerWaits(sts, evs)
    ensures Inv(sts[k]) && HandlersApart(sts[k]) && ClaimsKnown(sts[k])
  {
    if k > 0 {
      CleanRunKeeps(sts, evs, k - 1);
      var st, e := sts[k - 1], evs[k - 1];
      assert Enabled(st, e) && Orderly(st, e) && sts[k] == Step(st, e);
      StepKeeps(st, e);
      OrderlyIsHarmless(st, e);
      StepApart(st, e);
      StepClaimsKnown(st, e);
    }
  }

  /** Writer exclusion, whatever an orderly restart queues, as long as nobody removes a transaction whose id is
      still queued or held: at most one pending transaction per item, each id queued or held at most once, one
      writer per item. */
  lemma Exclusion(sts: seq<State>, evs: seq<Event>, k: nat)
    requires OrderlyRun(sts, evs) && k <= |evs| && CleanerWaits(sts, evs)
    ensures OnePerItem(sts[k].s.txs) && HeldOnce(sts[k]) && WritersExclude(sts[k])
  {
    CleanRunKeeps(sts, evs, k);
    InvExcludes(sts[k]);
  }

  /** Every restart queues only transactions that are pending. */
  ghost predicate QueuesPending(sts: seq<State>, evs: seq<Event>) {
    forall i, id :: 0 <= i < |evs| && i < |sts| && evs[i].Restart? && id in evs[i].order ==>
      PendingIn(sts[i].s.disk, id)
  }

  /** Every queued or held id is that of a pending transaction. */
  ghost predicate ClaimsPending(st: State) {
    forall id :: Claimed(st, id) ==> PendingIn(st.s.txs, id)
  }

  lemma StepClaimsPending(st: State, e: Event)
    requires Inv(st) && HandlersApart(st) && ClaimsPending(st) && Enabled(st, e) && Orderly(st, e)
    requires e.Restart? ==> forall id :: id in e.order ==> PendingIn(st.s.disk, id)
    ensures ClaimsPending(Step(st, e))
  {
    var to := Step(st, e);
    forall id | Claimed(to, id)
      ensures PendingIn(to.s.txs, id)
    {
      StepClaims(st, e, id);
      if !(e.Enqueue? && e.id == id) && !e.Restart? && !PendingIn(to.s.txs, id) {
        assert PendingIn(st.s.txs, id);
        StepEnds(st, e, id);
      }
    }
  }

  lemma LetsGo(st: State, w: nat, s: Store, id: string)
    requires HeldOnce(st) && w < |st.workers| && Holds(st.workers[w], id)
    ensures !Claimed(Work(st, w, s, Idle), id)
  {
  }

  /** A transaction ends only in the hands of its handler, or of a worker who then lets go of it. */
  lemma StepEnds(st: State, e: Event, id: string)
    requires Inv(st) && HandlersApart(st) && Enabled(st, e) && Orderly(st, e) && !e.Restart?
    requires PendingIn(st.s.txs, id) && !PendingIn(Step(st, e).s.txs, id)
    ensures !Claimed(Step(st, e), id)
  {
    if ByWorker(e) {
      WorkerFrame(st, e);
      var (t, next) := Worked(st, e);
      assert HasTx(st.workers[e.w]) && st.workers[e.w].id == id;
      WorkedEnds(st, e);
      LetsGo(st, e.w, t, id);
    } else {
      assert e.Reject? && id == e.id && !Claimed(st, id);
    }
  }

  lemma WorkedEnds(st: State, e: Event)
    requires Inv(st) && Enabled(st, e) && ByWorker(e) && HasTx(st.workers[e.w])
    requires var id := st.workers[e.w].id; PendingIn(st.s.txs, id) && !PendingIn(Step(st, e).s.txs, id)
    ensures Worked(st, e).1 == Idle
  {
  }

  lemma {:induction false} PendingRunKeeps(sts: seq<State>, evs: seq<Event>, k: nat)
    requires OrderlyRun(sts, evs) && k <= |evs| && QueuesPending(sts, evs)
    ensures Inv(sts[k]) && HandlersApart(sts[k]) && ClaimsPending(sts[k])
  {
    if k > 0 {
      PendingRunKeeps(sts, evs, k - 1);
      var st, e := sts[k - 1], evs[k - 1];
      assert Enabled(st, e) && Orderly(st, e) && sts[k] == Step(st, e);
      StepKeeps(st, e);
      OrderlyIsHarmless(st, e);
      StepApart(st, e);
      StepClaimsPending(st, e);
    }
  }

  /** Writer exclusion, whatever the cleaner does, as long as an orderly restart queues only what is pending. */
  lemma ExclusionQueuingPending(sts: seq<State>, evs: seq<Event>, k: nat)
    requires OrderlyRun(sts, evs) && k <= |evs| && QueuesPending(sts, evs)
    ensures OnePerItem(sts[k].s.txs) && HeldOnce(sts[k]) && WritersExclude(sts[k])
  {
    PendingRunKeeps(sts, evs, k);
    InvExcludes(sts[k]);
  }

  // ---- what a restart leaves behind

  /** Open, in memory and on disk, and no request handler will ever submit it. Workers only get as far as
      looking it up. */
  ghost predicate Abandoned(st: State, id: string, item: string) {
    && id in st.s.txs && st.s.txs[id].status == Open && st.s.txs[id].item == item
    && id in st.s.disk && st.s.disk[id].status == Open && st.s.disk[id].item == item
    && id !in st.handlers && id !in st.removed
    && forall w :: 0 <= w < |st.workers| && Holds(st.workers[w], id) ==> st.workers[w].Took?
  }

  /** The transaction is cancelled, or a restart does not have it. */
  predicate Frees(e: Event, id: string) {
    e == CancelTx(id) || (e.Restart? && (id in e.lost || id in e.unread))
  }

  lemma StaysAbandoned(st: State, e: Event, id: string, item: string)
    requires Enabled(st, e) && Abandoned(st, id, item) && !Frees(e, id)
    ensures Abandoned(Step(st, e), id, item)
  {
    if ByWorker(e) {
      assert Holds(st.workers[e.w], id) ==> st.workers[e.w].Took?;
      WorkerFrame(st, e);
    }
  }

  /** Create on the item is refused after a step if and only if the step does not free it. */
  lemma RefusedUnlessFreed(st: State, e: Event, id: string, item: string)
    requires Inv(st) && Enabled(st, e) && Abandoned(st, id, item)
    ensures M.Create(Step(st, e).s, item) == None <==> !Frees(e, id)
  {
    if Frees(e, id) {
      var to := Step(st, e);
      assert PendingIn(st.s.txs, id);
      forall a
        ensures !(PendingIn(to.s.txs, a) && to.s.txs[a].item == item)
      {
        if e.Restart? && PendingIn(to.s.txs, a) { assert PendingIn(st.s.disk, a) && to.s.txs[a] == st.s.disk[a]; }
      }
    } else {
      StaysAbandoned(st, e, id, item);
      AbandonedBlocks(Step(st, e), id, item);
    }
  }

  lemma RestartAbandons(st: State, e: Event, id: string)
    requires Enabled(st, e) && e.Restart? && id in st.s.disk && id !in e.lost && id !in e.unread
    requires st.s.disk[id].status == Open
    ensures Abandoned(Step(st, e), id, st.s.disk[id].item)
  {
    assert id in Step(st, e).s.txs;
  }

  lemma {:induction false} AbandonedSince(sts: seq<State>, evs: seq<Event>, i: nat, k: nat, id: string)
    requires IsRun(sts, evs) && i < k <= |evs|
    requires evs[i].Restart? && id in sts[i].s.disk && sts[i].s.disk[id].status == Open
    requires forall j :: i <= j < k ==> !Frees(evs[j], id)
    ensures Abandoned(sts[k], id, sts[i].s.disk[id].item)
  {
    if k == i + 1 {
      assert Enabled(sts[i], evs[i]) && sts[i + 1] == Step(sts[i], evs[i]);
      RestartAbandons(sts[i], evs[i], id);
    } else {
      AbandonedSince(sts, evs, i, k - 1, id);
      StaysInRun(sts, evs, k - 1, id, sts[i].s.disk[id].item);
    }
  }

  lemma StaysInRun(sts: seq<State>, evs: seq<Event>, k: nat, id: string, item: string)
    requires IsRun(sts, evs) && k < |evs| && Abandoned(sts[k], id, item) && !Frees(evs[k], id)
    ensures Abandoned(sts[k + 1], id, item)
  {
    StaysAbandoned(sts[k], evs[k], id, item);
  }

  /** A transaction still open when the server stopped blocks its item: in every run, until it is cancelled or a
      restart does not have it, no worker takes it up, the cleaner leaves it, and every Create on the item is
      refused. */
  lemma BlockedUntilFreed(sts: seq<State>, evs: seq<Event>, i: nat, k: nat, id: string)
    requires IsRun(sts, evs) && i < k <= |evs|
    requires evs[i].Restart? && id in sts[i].s.disk && sts[i].s.disk[id].status == Open
    requires forall j :: i <= j < k ==> !Frees(evs[j], id)
    ensures M.Create(sts[k].s, sts[i].s.disk[id].item) == None
  {
    AbandonedSince(sts, evs, i, k, id);
    AbandonedBlocks(sts[k], id, sts[i].s.disk[id].item);
  }

  lemma AbandonedBlocks(st: State, id: string, item: string)
    requires Abandoned(st, id, item)
    ensures M.Create(st.s, item) == None
  {
    assert id in st.s.txs && st.s.txs[id].item == item && !Terminal(st.s.txs[id].status);
  }
}
