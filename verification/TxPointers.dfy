/** Workers and handlers go through pointers: what is cancelled or removed under them goes on existing. */
module TxPointers {
  import opened Prelude
  import opened TxModel
  import opened TxProtocol
  import opened TxExclusion

  /** Whoever has looked a transaction up or created it still has it, in the store or removed from it. */
  ghost predicate Attached(st: State) {
    && (forall h :: h in st.adrift ==> st.adrift[h] < |st.loose|)
    && (forall w :: 0 <= w < |st.workers| && HasTx(st.workers[w]) ==> Has(st, OfWorker(w), st.workers[w].id))
    && (forall id :: id in st.handlers && st.handlers[id] != Submitted ==> Has(st, OfHandler(id), id))
  }

  lemma DetachAttached(st: State, id: string)
    requires Attached(st) && id in st.s.txs
    ensures Attached(Detach(st, id))
  {
    var to := Detach(st, id);
    forall w | 0 <= w < |to.workers| && HasTx(to.workers[w])
      ensures Has(to, OfWorker(w), to.workers[w].id)
    {
      assert Has(st, OfWorker(w), st.workers[w].id);
      if st.workers[w].id == id && OfWorker(w) !in st.adrift { assert OfWorker(w) in Holders(st, id); }
    }
    forall a | a in to.handlers && to.handlers[a] != Submitted
      ensures Has(to, OfHandler(a), a)
    {
      assert Has(st, OfHandler(a), a);
      if a == id && OfHandler(a) !in st.adrift { assert OfHandler(a) in Holders(st, id); }
    }
  }

  lemma WorkAttached(st: State, w: nat, t: Store, next: Worker)
    requires Attached(st) && w < |st.workers|
    requires HasTx(st.workers[w]) ==> OnlyOwn(ByPointer(st, w), t, st.workers[w].id)
    requires !HasTx(st.workers[w]) ==> t == st.s
    requires HasTx(next) ==> next.id in t.txs && Holds(st.workers[w], next.id)
    requires HasTx(next) && !HasTx(st.workers[w]) ==> OfWorker(w) !in st.adrift
    ensures Attached(Work(st, w, t, next))
  {
    var to := Work(st, w, t, next);
    forall v | 0 <= v < |to.workers| && HasTx(to.workers[v])
      ensures Has(to, OfWorker(v), to.workers[v].id)
    {
      if v != w { assert Has(st, OfWorker(v), st.workers[v].id); }
    }
    forall a | a in to.handlers && to.handlers[a] != Submitted
      ensures Has(to, OfHandler(a), a)
    {
      assert Has(st, OfHandler(a), a);
    }
  }

  lemma HandleAttached(st: State, id: string, t: Store, phase: Option<Phase>)
    requires Attached(st) && Has(st, OfHandler(id), id) && OnlyOwn(OfRequest(st, id), t, id)
    ensures Attached(Handle(st, id, t, phase))
  {
    var to := Handle(st, id, t, phase);
    forall v | 0 <= v < |to.workers| && HasTx(to.workers[v])
      ensures Has(to, OfWorker(v), to.workers[v].id)
    {
      assert Has(st, OfWorker(v), st.workers[v].id);
    }
    forall a | a in to.handlers && to.handlers[a] != Submitted
      ensures Has(to, OfHandler(a), a)
    {
      if a != id { assert Has(st, OfHandler(a), a); }
    }
  }

  /** Nobody is waiting or idle with a transaction that was removed. */
  ghost predicate NoneLetGo(st: State) {
    forall w :: 0 <= w < |st.workers| && !HasTx(st.workers[w]) ==> OfWorker(w) !in st.adrift
  }

  lemma StepAttached(st: State, e: Event)
    requires Attached(st) && NoneLetGo(st) && Enabled(st, e)
    ensures Attached(Step(st, e))
  {
    if ByWorker(e) {
      WorkedOwn(st, e);
      var (t, next) := Worked(st, e);
      if HasTx(st.workers[e.w]) { assert Has(st, OfWorker(e.w), st.workers[e.w].id); }
      WorkAttached(st, e.w, t, next);
    } else if e.Remove? || e.CancelTx? {
      DetachAttached(st, e.id);
    } else if e.Reject? || e.Fill? || e.Submit? {
      var s := OfRequest(st, e.id);
      var t := if e.Reject? then SetStatus(s, e.id, Error)
               else if e.Submit? then SetStatus(s, e.id, Waiting)
               else Save(s, e.id, AddCommands(s.txs[e.id], e.cmds).value);
      HandleAttached(st, e.id, t, if e.Reject? then None else if e.Submit? then Some(Submitted) else Some(Filled));
    }
  }

  lemma StepLetsGo(st: State, e: Event)
    requires NoneLetGo(st) && Enabled(st, e)
    ensures NoneLetGo(Step(st, e))
  {
  }

  /** In every state of every run, whatever is cancelled or removed, whoever has a transaction keeps it: no worker or
      handler is stopped by a missing transaction. */
  lemma {:induction false} RunAttached(sts: seq<State>, evs: seq<Event>, k: nat)
    requires IsRun(sts, evs) && k <= |evs|
    ensures Attached(sts[k]) && NoneLetGo(sts[k])
  {
    if k > 0 {
      RunAttached(sts, evs, k - 1);
      assert Enabled(sts[k - 1], evs[k - 1]) && sts[k] == Step(sts[k - 1], evs[k - 1]);
      StepAttached(sts[k - 1], evs[k - 1]);
      StepLetsGo(sts[k - 1], evs[k - 1]);
    }
  }
}
