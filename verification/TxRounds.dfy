/** The handler and the worker, run without interruption, are runs of the protocol. */
module TxRounds {
  import opened Prelude
  import opened TxModel
  import P = TxProtocol
  import opened TxServer

  /** The events lead from s to t, step by step. */
  ghost predicate Path<S, E>(next: (S, E) -> Option<S>, s: S, evs: seq<E>, t: S)
    decreases |evs|
  {
    if evs == [] then s == t else next(s, evs[0]).Some? && Path(next, next(s, evs[0]).value, evs[1..], t)
  }

  lemma {:induction false} JoinPaths<S, E>(next: (S, E) -> Option<S>, s: S, evs: seq<E>, mid: S, more: seq<E>, t: S)
    requires Path(next, s, evs, mid) && Path(next, mid, more, t)
    ensures Path(next, s, evs + more, t)
    decreases |evs|
  {
    if evs == [] {
      assert evs + more == more;
    } else {
      JoinPaths(next, next(s, evs[0]).value, evs[1..], mid, more, t);
      assert (evs + more)[0] == evs[0] && (evs + more)[1..] == evs[1..] + more;
    }
  }

  function Next(st: P.State, e: P.Event): Option<P.State> {
    if P.Enabled(st, e) then Some(P.Step(st, e)) else None
  }

  ghost predicate Leads(st: P.State, evs: seq<P.Event>, to: P.State) {
    Path(Next, st, evs, to)
  }

  lemma Join(st: P.State, evs: seq<P.Event>, mid: P.State, more: seq<P.Event>, to: P.State)
    requires Leads(st, evs, mid) && Leads(mid, more, to)
    ensures Leads(st, evs + more, to)
  {
    JoinPaths(Next, st, evs, mid, more, to);
  }

  lemma One(st: P.State, e: P.Event)
    requires P.Enabled(st, e)
    ensures Leads(st, [e], P.Step(st, e))
  {
    assert Path(Next, P.Step(st, e), [], P.Step(st, e)) && [e][1..] == [];
  }

  /** Worker w, the transaction's mutex being free, is at `worker` and the store is `s`. */
  ghost predicate On(st: P.State, w: nat, s: Store, id: string, worker: P.Worker) {
    && w < |st.workers| && st.workers[w] == worker && st.s == s && id in s.txs && P.Holds(worker, id)
    && P.HasTx(worker) && P.OfWorker(w) !in st.adrift && P.Unlocked(st, id)
  }

  lemma Ingesting(st: P.State, w: nat, s: Store, id: string, way: Way) returns (evs: seq<P.Event>)
    requires On(st, w, s, id, P.AtTape(id))
    ensures var (t, worker) := Ingested(s, id, way); Leads(st, evs, P.Work(st, w, t, worker))
  {
    if !way.tape {
      evs := [P.Cancel(w)];
      One(st, P.Cancel(w));
    } else if way.openError != None {
      var e := P.OpenFails(w, way.openError.value);
      evs := [e];
      One(st, e);
      assert P.Step(st, e) == P.Work(st, w, Ingested(s, id, way).0, P.Idle);
    } else {
      var b, f := P.Begin(w), P.Finish(w, way.reported);
      var mid := P.Step(st, b);
      assert P.Commits(mid, w, false);
      One(st, b);
      One(mid, f);
      Join(st, [b], mid, [f], P.Step(mid, f));
      evs := [b] + [f];
      assert P.Step(mid, f) == P.Work(st, w, Ingested(s, id, way).0, P.Idle);
    }
  }

  lemma VerifyAndDecide(st: P.State, w: nat, s: Store, id: string, way: Way) returns (evs: seq<P.Event>)
    requires On(st, w, s, id, P.Verifying(id))
    ensures var (t, next) := P.Decided(Put(s, id, P.Append(s.txs[id], way.found)), id);
      Leads(st, evs, P.Work(st, w, t, next))
  {
    var v, d := P.Verify(w, way.found), P.Decide(w);
    var mid := P.Step(st, v);
    assert P.Ready(st, w) && P.Ready(mid, w);
    One(st, v);
    One(mid, d);
    Join(st, [v], mid, [d], P.Step(mid, d));
    evs := [v] + [d];
    var (t, next) := P.Decided(Put(s, id, P.Append(s.txs[id], way.found)), id);
    assert P.Step(mid, d) == P.Work(st, w, t, next);
  }

  lemma Again(st: P.State, w: nat, s: Store, worker: P.Worker, t: Store, next: P.Worker)
    requires w < |st.workers| && P.OfWorker(w) !in st.adrift
    ensures P.Work(P.Work(st, w, s, worker), w, t, next) == P.Work(st, w, t, next)
  {
  }

  lemma CheckAndIngest(st: P.State, w: nat, s: Store, id: string, way: Way) returns (evs: seq<P.Event>)
    requires On(st, w, s, id, P.Verifying(id))
    ensures var (t, last) := Checked(s, id, way); Leads(st, evs, P.Work(st, w, t, last))
  {
    evs := VerifyAndDecide(st, w, s, id, way);
    var (u, next) := P.Decided(Put(s, id, P.Append(s.txs[id], way.found)), id);
    if !next.Idle? {
      var mid := P.Work(st, w, u, next);
      var rest := Ingesting(mid, w, u, id, way);
      var (t, last) := Ingested(u, id, way);
      Again(st, w, u, next, t, last);
      Join(st, evs, mid, rest, P.Work(st, w, t, last));
      evs := evs + rest;
    }
  }

  lemma StartAndGo(st: P.State, w: nat, s: Store, id: string, status: Status, way: Way) returns (evs: seq<P.Event>)
    requires On(st, w, s, id, P.Seen(id, status))
    ensures var (t, last) := FromStart(s, id, status, way); Leads(st, evs, P.Work(st, w, t, last))
  {
    var (u, next) := P.Started(s, id, status);
    assert P.Ready(st, w);
    One(st, P.Start(w));
    var mid := P.Work(st, w, u, next);
    assert P.Step(st, P.Start(w)) == mid;
    var (t, last) := FromStart(s, id, status, way);
    var rest: seq<P.Event>;
    if next.AtTape? {
      rest := Ingesting(mid, w, u, id, way);
    } else {
      rest := CheckAndIngest(mid, w, u, id, way);
    }
    Again(st, w, u, next, t, last);
    Join(st, [P.Start(w)], mid, rest, P.Work(st, w, t, last));
    evs := [P.Start(w)] + rest;
  }

  /** From the id it took to the end of its round, nobody interfering, a worker does what the protocol
      allows it: each round of Work is a run of the protocol's steps. */
  lemma RoundIsSteps(st: P.State, w: nat, id: string, way: Way) returns (evs: seq<P.Event>)
    requires w < |st.workers| && st.workers[w] == P.Took(id) && P.Unlocked(st, id) && P.OfWorker(w) !in st.adrift
    ensures var (t, last) := Round(st.s, id, way); Leads(st, evs, P.Work(st, w, t, last))
  {
    evs := [P.Look(w)];
    One(st, P.Look(w));
    var seen := P.Looked(st.s.txs, id);
    if seen.Seen? {
      var mid := P.Work(st, w, st.s, seen);
      var rest := StartAndGo(mid, w, st.s, id, seen.status, way);
      var (t, last) := Round(st.s, id, way);
      Again(st, w, st.s, seen, t, last);
      Join(st, evs, mid, rest, P.Work(st, w, t, last));
      evs := evs + rest;
    }
  }

  /** A request, from the new transaction on. */
  lemma SubmitIsSteps(st: P.State, id: string, body: Option<seq<Command>>) returns (evs: seq<P.Event>)
    requires id in st.handlers && P.Handling(st, id, P.Created) && P.OfHandler(id) !in st.adrift
    ensures var (s, queue, _) := Submitted(st.s, st.queue, id, body);
      Leads(st, evs, st.(s := s, queue := queue, handlers := st.handlers - {id}))
  {
    if body == None || AddCommands(st.s.txs[id], body.value) == None {
      evs := [P.Reject(id)];
      One(st, P.Reject(id));
    } else {
      var fill, submit, enqueue := P.Fill(id, body.value), P.Submit(id), P.Enqueue(id);
      var st1 := P.Step(st, fill);
      var st2 := P.Step(st1, submit);
      var st3 := P.Step(st2, enqueue);
      One(st, fill);
      One(st1, submit);
      One(st2, enqueue);
      Join(st1, [submit], st2, [enqueue], st3);
      Join(st, [fill], st1, [submit] + [enqueue], st3);
      evs := [fill] + ([submit] + [enqueue]);
      var (s, queue, _) := Submitted(st.s, st.queue, id, body);
      assert st3.handlers == st.handlers - {id};
      assert st3 == st.(s := s, queue := queue, handlers := st.handlers - {id});
    }
  }

  /** A request that is not refused, handled without interruption, is a run of the protocol's steps. */
  lemma HandledIsSteps(st: P.State, item: string, body: Option<seq<Command>>) returns (evs: seq<P.Event>)
    requires NewID(st.s) !in st.handlers && P.OfHandler(NewID(st.s)) !in st.adrift
    requires forall id :: P.Unlocked(st, id)
    ensures var (s, queue, _) := Handled(st.s, st.queue, item, body); Leads(st, evs, st.(s := s, queue := queue))
  {
    if Pending(st.s.txs, item) {
      evs := [];
    } else {
      var create := P.Event.Create(item);
      var mid := P.Step(st, create);
      One(st, create);
      var id := NewID(st.s);
      assert P.Unlocked(st, id) && mid.workers == st.workers;
      var rest := SubmitIsSteps(mid, id, body);
      assert mid.handlers - {id} == st.handlers;
      var (s, queue, _) := Submitted(mid.s, mid.queue, id, body);
      Join(st, [create], mid, rest, st.(s := s, queue := queue));
      evs := [create] + rest;
    }
  }

  /** A request to cancel, handled without interruption, is two steps of the protocol: what they leave of the store is
      what the handler leaves, and whoever has the transaction at hand keeps it. */
  lemma CancelIsSteps(st: P.State, id: string) returns (evs: seq<P.Event>, to: P.State)
    requires id in st.s.txs
    ensures Leads(st, evs, to) && to.s == Delete(st.s, id, true).0
    ensures to.queue == st.queue && to.workers == st.workers && to.handlers == st.handlers
    ensures forall h :: h in P.Holders(st, id) ==> P.Adrift(to, h) && to.loose[to.adrift[h]] == st.s.txs[id]
  {
    var mid := P.Step(st, P.CancelTx(id));
    to := P.Step(mid, P.Unlink(id));
    One(st, P.CancelTx(id));
    One(mid, P.Unlink(id));
    Join(st, [P.CancelTx(id)], mid, [P.Unlink(id)], to);
    evs := [P.CancelTx(id)] + [P.Unlink(id)];
  }
}
