/** What a request to cancel a transaction does while a worker is writing its item: the worker goes on, and a new
    transaction on the item is let in beside it. */
module TxCancel {
  import opened TxModel
  import opened TxProtocol
  import opened TxExclusion
  import R = TxReuse

  /** The transaction of a request that adds one file. */
  function Asked(item: string, status: Status): Tx {
    Tx(item, status, [], [R.ADD])
  }

  /** Transaction id is now tx, in memory and on disk. */
  ghost predicate Becomes(s: Store, t: Store, id: string, tx: Tx) {
    t.txs == s.txs[id := tx] && t.disk == s.disk[id := tx]
  }

  /** Nothing is restarted or cleaned up. */
  ghost predicate Reached(sts: seq<State>, evs: seq<Event>, st: State) {
    IsRun(sts, evs) && sts[|evs|] == st && forall e :: e in evs ==> !e.Restart? && !e.Remove?
  }

  lemma Extend(sts: seq<State>, evs: seq<Event>, st: State, e: Event)
    returns (sts': seq<State>, evs': seq<Event>, st': State)
    requires Reached(sts, evs, st) && Enabled(st, e) && !e.Restart? && !e.Remove?
    ensures st' == Step(st, e) && Reached(sts', evs', st') && evs' == evs + [e]
  {
    st' := Step(st, e);
    sts', evs' := sts + [st'], evs + [e];
    assert forall i :: 0 <= i < |sts| ==> sts'[i] == sts[i];
  }

  lemma Creates(sts: seq<State>, evs: seq<Event>, st: State, item: string)
    returns (sts': seq<State>, evs': seq<Event>, st': State, id: string)
    requires Reached(sts, evs, st) && !Pending(st.s.txs, item) && st.handlers == map[]
    requires forall a :: a in st.s.txs ==> Unlocked(st, a)
    ensures Reached(sts', evs', st') && id == NewID(st.s)
    ensures st' == st.(s := st'.s, handlers := map[id := Created]) && Becomes(st.s, st'.s, id, Fresh(item))
  {
    id := NewID(st.s);
    sts', evs', st' := Extend(sts, evs, st, Event.Create(item));
  }

  lemma Fills(sts: seq<State>, evs: seq<Event>, st: State, id: string, item: string)
    returns (sts': seq<State>, evs': seq<Event>, st': State)
    requires Reached(sts, evs, st) && st.handlers == map[id := Created]
    requires id in st.s.txs && st.s.txs[id] == Fresh(item) && Unlocked(st, id) && OfHandler(id) !in st.adrift
    ensures Reached(sts', evs', st')
    ensures st' == st.(s := st'.s, handlers := map[id := Filled]) && Becomes(st.s, st'.s, id, Asked(item, Open))
  {
    assert WellFormed(R.ADD) && [] + [R.ADD] == [R.ADD];
    sts', evs', st' := Extend(sts, evs, st, Fill(id, [R.ADD]));
  }

  lemma Submits(sts: seq<State>, evs: seq<Event>, st: State, id: string, item: string)
    returns (sts': seq<State>, evs': seq<Event>, st': State)
    requires Reached(sts, evs, st) && st.handlers == map[id := Filled] && st.queue == []
    requires id in st.s.txs && st.s.txs[id] == Asked(item, Open) && Unlocked(st, id) && OfHandler(id) !in st.adrift
    ensures Reached(sts', evs', st')
    ensures st' == st.(s := st'.s, queue := [id], handlers := map[]) && Becomes(st.s, st'.s, id, Asked(item, Waiting))
  {
    sts', evs', st' := Extend(sts, evs, st, Submit(id));
    assert st' == st.(s := st'.s, handlers := map[id := Submitted]) && Becomes(st.s, st'.s, id, Asked(item, Waiting));
    sts', evs', st' := Extend(sts', evs', st', Enqueue(id));
    assert st'.handlers == map[];
  }

  /** A request, handled without interruption. */
  lemma Request(sts: seq<State>, evs: seq<Event>, st: State, item: string)
    returns (sts': seq<State>, evs': seq<Event>, st': State, id: string)
    requires Reached(sts, evs, st) && !Pending(st.s.txs, item) && st.queue == [] && st.handlers == map[]
    requires forall a :: a in st.s.txs ==> Unlocked(st, a)
    requires Unlocked(st, NewID(st.s)) && OfHandler(NewID(st.s)) !in st.adrift
    ensures Reached(sts', evs', st') && id == NewID(st.s)
    ensures st' == st.(s := st'.s, queue := [id]) && Becomes(st.s, st'.s, id, Asked(item, Waiting))
  {
    sts', evs', st', id := Creates(sts, evs, st, item);
    sts', evs', st' := Fills(sts', evs', st', id, item);
    sts', evs', st' := Submits(sts', evs', st', id, item);
  }

  lemma Verifies(sts: seq<State>, evs: seq<Event>, st: State, w: nat, id: string, item: string)
    returns (sts': seq<State>, evs': seq<Event>, st': State)
    requires Reached(sts, evs, st) && st.queue == [id] && w < |st.workers| && st.workers[w] == Idle
    requires id in st.s.txs && st.s.txs[id] == Asked(item, Waiting)
    requires Unlocked(st, id) && OfWorker(w) !in st.adrift
    ensures Reached(sts', evs', st') && Becomes(st.s, st'.s, id, Asked(item, Checking))
    ensures st' == st.(s := st'.s, queue := [], workers := st.workers[w := Verifying(id)])
  {
    sts', evs', st' := Extend(sts, evs, st, Take(w));
    sts', evs', st' := Extend(sts', evs', st', Look(w));
    assert st'.workers == st.workers[w := Seen(id, Waiting)];
    sts', evs', st' := Extend(sts', evs', st', Start(w));
    assert st'.workers == st.workers[w := Verifying(id)];
  }

  lemma Passes(sts: seq<State>, evs: seq<Event>, st: State, w: nat, id: string, item: string)
    returns (sts': seq<State>, evs': seq<Event>, st': State)
    requires Reached(sts, evs, st) && w < |st.workers| && st.workers[w] == Verifying(id)
    requires id in st.s.txs && st.s.txs[id] == Asked(item, Checking)
    requires Unlocked(st, id) && OfWorker(w) !in st.adrift
    ensures Reached(sts', evs', st') && Becomes(st.s, st'.s, id, Asked(item, Ingest))
    ensures st' == st.(s := st'.s, workers := st.workers[w := AtTape(id)])
  {
    var none: seq<string> := [];
    assert none + none == none;
    sts', evs', st' := Extend(sts, evs, st, Verify(w, none));
    assert st'.workers == st.workers[w := Verified(id)] && st'.s.txs == st.s.txs;
    sts', evs', st' := Extend(sts', evs', st', Decide(w));
    assert st'.workers == st.workers[w := AtTape(id)];
  }

  lemma Begins(sts: seq<State>, evs: seq<Event>, st: State, w: nat, id: string, item: string)
    returns (sts': seq<State>, evs': seq<Event>, st': State)
    requires Reached(sts, evs, st) && w < |st.workers| && st.workers[w] == AtTape(id)
    requires id in st.s.txs && st.s.txs[id] == Asked(item, Ingest)
    requires Unlocked(st, id) && OfWorker(w) !in st.adrift
    ensures Reached(sts', evs', st')
    ensures st' == st.(workers := st.workers[w := Writing(id, item, false)])
  {
    sts', evs', st' := Extend(sts, evs, st, Begin(w));
    assert st'.s.txs == st.s.txs;
  }

  lemma Writes(sts: seq<State>, evs: seq<Event>, st: State, w: nat, id: string, item: string)
    returns (sts': seq<State>, evs': seq<Event>, st': State)
    requires Reached(sts, evs, st) && st.queue == [id] && w < |st.workers| && st.workers[w] == Idle
    requires id in st.s.txs && st.s.txs[id] == Asked(item, Waiting)
    requires Unlocked(st, id) && OfWorker(w) !in st.adrift
    ensures Reached(sts', evs', st') && Becomes(st.s, st'.s, id, Asked(item, Ingest))
    ensures st' == st.(s := st'.s, queue := [], workers := st.workers[w := Writing(id, item, false)])
  {
    sts', evs', st' := Verifies(sts, evs, st, w, id, item);
    sts', evs', st' := Passes(sts', evs', st', w, id, item);
    assert st'.workers == st.workers[w := AtTape(id)];
    sts', evs', st' := Begins(sts', evs', st', w, id, item);
    assert st'.workers == st.workers[w := Writing(id, item, false)];
  }

  lemma FirstWrites(item: string) returns (sts: seq<State>, evs: seq<Event>, st: State, one: string)
    ensures Reached(sts, evs, st) && st.queue == [] && st.handlers == map[] && st.adrift == map[] && st.loose == []
    ensures st.s.txs == map[one := Asked(item, Ingest)] && st.workers == [Writing(one, item, false), Idle]
  {
    st := Booted(map[], [], 2);
    sts, evs := [st], [];
    assert st.workers == [Idle, Idle];
    sts, evs, st, one := Request(sts, evs, st, item);
    sts, evs, st := Writes(sts, evs, st, 0, one, item);
  }

  /** The first worker's transaction is cancelled while it writes. */
  lemma Cancelled(item: string) returns (sts: seq<State>, evs: seq<Event>, st: State, one: string)
    ensures Reached(sts, evs, st) && st.queue == [] && st.handlers == map[] && st.s.txs == map[]
    ensures st.workers == [Writing(one, item, false), Idle]
    ensures st.adrift == map[OfWorker(0) := 0] && st.loose == [Asked(item, Ingest)]
    ensures CancelTx(one) in evs && one in st.removed
  {
    sts, evs, st, one := FirstWrites(item);
    DetachedWriter(st, one, item);
    sts, evs, st := Extend(sts, evs, st, CancelTx(one));
  }

  lemma DetachedWriter(st: State, one: string, item: string)
    requires st.handlers == map[] && st.adrift == map[] && st.loose == []
    requires st.s.txs == map[one := Asked(item, Ingest)] && st.workers == [Writing(one, item, false), Idle]
    ensures var to := Detach(st, one);
      && to == st.(s := st.s.(txs := map[]), removed := st.removed + {one}, adrift := to.adrift, loose := to.loose)
      && to.adrift == map[OfWorker(0) := 0] && to.loose == [Asked(item, Ingest)]
  {
    var hs := Holders(st, one);
    assert OfWorker(0) in hs;
    assert hs == {OfWorker(0)};
  }

  /** Cancelling a transaction while its item is being written lets a second writer in; nobody restarts the server or
      cleans up. */
  lemma TwoWritersByCancelling(item: string) returns (sts: seq<State>, evs: seq<Event>, st: State, one: string)
    ensures Reached(sts, evs, st) && !WritersExclude(st)
    ensures |st.workers| == 2 && st.workers[0] == Writing(one, item, false) && Adrift(st, OfWorker(0))
  {
    sts, evs, st, one := Cancelled(item);
    var two;
    sts, evs, st, two := Request(sts, evs, st, item);
    sts, evs, st := Writes(sts, evs, st, 1, two, item);
    assert BothWrite(st.workers[0], st.workers[1]);
  }

  /** When the first worker is done it saves the cancelled transaction, which is on disk again and not in memory. */
  lemma CancelledRecordReturns(item: string) returns (sts: seq<State>, evs: seq<Event>, st: State, one: string)
    ensures Reached(sts, evs, st) && CancelTx(one) in evs && Unlink(one) in evs
    ensures one !in st.s.txs && one in st.s.disk && st.s.disk[one] == Asked(item, Finished)
  {
    sts, evs, st, one := Cancelled(item);
    sts, evs, st := Extend(sts, evs, st, Unlink(one));
    sts, evs, st := Extend(sts, evs, st, Finish(0, []));
    var none: seq<string> := [];
    assert none + none == none;
  }
}
