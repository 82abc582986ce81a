/** What happens when a restart queues every transaction, finished ones included, and numbering starts
    again at 1: two workers can come to write the same item. */
module TxReuse {
  import opened Names
  import opened TxModel
  import opened TxProtocol
  import opened TxExclusion

  /** What initCommitQueue does: a restart queues every transaction it has loaded. */
  ghost predicate QueuesAll(sts: seq<State>, evs: seq<Event>) {
    forall i :: 0 <= i < |evs| && i < |sts| && evs[i].Restart? ==>
      forall id :: id in sts[i].s.disk && id !in evs[i].lost && id !in evs[i].unread ==> id in evs[i].order
  }

  ghost predicate Reached(sts: seq<State>, evs: seq<Event>, st: State) {
    IsRun(sts, evs) && QueuesAll(sts, evs) && sts[|evs|] == st
  }

  lemma Extend(sts: seq<State>, evs: seq<Event>, st: State, e: Event) returns (sts': seq<State>, evs': seq<Event>,
               st': State)
    requires Reached(sts, evs, st) && Enabled(st, e)
    requires e.Restart? ==> forall id :: id in st.s.disk && id !in e.lost && id !in e.unread ==> id in e.order
    ensures st' == Step(st, e) && Reached(sts', evs', st')
  {
    st' := Step(st, e);
    sts', evs' := sts + [st'], evs + [e];
    assert forall i :: 0 <= i < |sts| ==> sts'[i] == sts[i];
  }

  function OneTx(id: string, status: Status, cmds: seq<Command>): map<string, Tx> {
    map[id := Tx("item", status, [], cmds)]
  }

  function Two(v: Worker, w: Worker): seq<Worker> {
    [v, w]
  }

  const ADD: Command := ["add", "file"]

  lemma FirstNumber()
    ensures NewNumber({}, 1) == 1
  {
  }

  function AtRest(txs: map<string, Tx>, seqno: nat, queue: seq<string>): State {
    State(Store(txs, seqno, txs), queue, Two(Idle, Idle), map[], {}, map[], [])
  }

  function InHandler(id: string, status: Status, cmds: seq<Command>, queue: seq<string>, phase: Phase): State {
    AtRest(OneTx(id, status, cmds), 2, queue).(handlers := map[id := phase])
  }

  lemma Rejected(id: string) returns (sts: seq<State>, evs: seq<Event>, st: State)
    requires id == Padded(1)
    ensures Reached(sts, evs, st) && st == AtRest(OneTx(id, Error, []), 2, [])
  {
    st := Booted(map[], [], 2);
    sts, evs := [st], [];
    FirstNumber();
    assert st.s.txs.Keys == {};
    sts, evs, st := Extend(sts, evs, st, Event.Create("item"));
    assert st == InHandler(id, Open, [], [], Created);
    sts, evs, st := Extend(sts, evs, st, Reject(id));
    assert st.s == Store(OneTx(id, Error, []), 2, OneTx(id, Error, []));
  }

  lemma Restarted(id: string) returns (sts: seq<State>, evs: seq<Event>, st: State)
    requires id == Padded(1)
    ensures Reached(sts, evs, st) && st == AtRest(OneTx(id, Error, []), 1, [id])
  {
    sts, evs, st := Rejected(id);
    sts, evs, st := Extend(sts, evs, st, Restart({}, {}, [id]));
  }

  /** A rejected transaction, a restart that queues it, and the cleaner removing it. */
  lemma Removed(id: string) returns (sts: seq<State>, evs: seq<Event>, st: State)
    requires id == Padded(1)
    ensures Reached(sts, evs, st) && st == AtRest(map[], 1, [id])
  {
    sts, evs, st := Restarted(id);
    assert Holders(st, id) == {};
    sts, evs, st := Extend(sts, evs, st, Remove(id));
    sts, evs, st := Extend(sts, evs, st, Unlink(id));
    assert st.s == Store(map[], 1, map[]);
  }

  lemma Recreated(id: string) returns (sts: seq<State>, evs: seq<Event>, st: State)
    requires id == Padded(1)
    ensures Reached(sts, evs, st) && st == InHandler(id, Open, [], [id], Created)
  {
    sts, evs, st := Removed(id);
    FirstNumber();
    assert st.s.txs.Keys == {};
    sts, evs, st := Extend(sts, evs, st, Event.Create("item"));
    assert st == InHandler(id, Open, [], [id], Created);
  }

  lemma Refilled(id: string) returns (sts: seq<State>, evs: seq<Event>, st: State)
    requires id == Padded(1)
    ensures Reached(sts, evs, st) && st == InHandler(id, Open, [ADD], [id], Filled)
  {
    sts, evs, st := Recreated(id);
    assert WellFormed(ADD) && [] + [ADD] == [ADD];
    sts, evs, st := Extend(sts, evs, st, Fill(id, [ADD]));
  }

  /** The next transaction gets the same id and is queued a second time. */
  lemma QueuedTwice(id: string) returns (sts: seq<State>, evs: seq<Event>, st: State)
    requires id == Padded(1)
    ensures Reached(sts, evs, st) && st == AtRest(OneTx(id, Waiting, [ADD]), 2, [id, id])
  {
    sts, evs, st := Refilled(id);
    sts, evs, st := Extend(sts, evs, st, Submit(id));
    assert st == InHandler(id, Waiting, [ADD], [id], Submitted);
    sts, evs, st := Extend(sts, evs, st, Enqueue(id));
    assert st.handlers == map[];
  }

  function Working(id: string, status: Status, v: Worker, w: Worker): State {
    AtRest(OneTx(id, status, [ADD]), 2, []).(workers := Two(v, w))
  }

  lemma BothTook(id: string) returns (sts: seq<State>, evs: seq<Event>, st: State)
    requires id == Padded(1)
    ensures Reached(sts, evs, st) && st == Working(id, Waiting, Seen(id, Waiting), Seen(id, Waiting))
  {
    sts, evs, st := QueuedTwice(id);
    sts, evs, st := Extend(sts, evs, st, Take(0));
    sts, evs, st := Extend(sts, evs, st, Look(0));
    assert st.workers == Two(Seen(id, Waiting), Idle);
    sts, evs, st := Extend(sts, evs, st, Take(1));
    sts, evs, st := Extend(sts, evs, st, Look(1));
    assert st.workers == Two(Seen(id, Waiting), Seen(id, Waiting));
  }

  lemma BothChecking(id: string) returns (sts: seq<State>, evs: seq<Event>, st: State)
    requires id == Padded(1)
    ensures Reached(sts, evs, st) && st == Working(id, Checking, Verifying(id), Verifying(id))
  {
    sts, evs, st := BothTook(id);
    sts, evs, st := Extend(sts, evs, st, Start(0));
    assert st == Working(id, Checking, Verifying(id), Seen(id, Waiting));
    sts, evs, st := Extend(sts, evs, st, Start(1));
    assert st == Working(id, Checking, Verifying(id), Verifying(id));
  }

  lemma BothVerified(id: string) returns (sts: seq<State>, evs: seq<Event>, st: State)
    requires id == Padded(1)
    ensures Reached(sts, evs, st) && st == Working(id, Checking, Verified(id), Verified(id))
  {
    sts, evs, st := BothChecking(id);
    var none: seq<string> := [];
    assert none + none == none;
    sts, evs, st := Extend(sts, evs, st, Verify(0, none));
    assert st == Working(id, Checking, Verified(id), Verifying(id));
    sts, evs, st := Extend(sts, evs, st, Verify(1, none));
    assert st == Working(id, Checking, Verified(id), Verified(id));
  }

  lemma BothAtTape(id: string) returns (sts: seq<State>, evs: seq<Event>, st: State)
    requires id == Padded(1)
    ensures Reached(sts, evs, st) && st == Working(id, Ingest, AtTape(id), AtTape(id))
  {
    sts, evs, st := BothVerified(id);
    sts, evs, st := Extend(sts, evs, st, Decide(0));
    assert st == Working(id, Ingest, AtTape(id), Verified(id));
    sts, evs, st := Extend(sts, evs, st, Decide(1));
    assert st == Working(id, Ingest, AtTape(id), AtTape(id));
  }

  lemma FirstWriting(id: string) returns (sts: seq<State>, evs: seq<Event>, st: State)
    requires id == Padded(1)
    ensures Reached(sts, evs, st) && st == Working(id, Ingest, Writing(id, "item", true), AtTape(id))
  {
    sts, evs, st := BothAtTape(id);
    sts, evs, st := Extend(sts, evs, st, Begin(0));
    assert st == Working(id, Ingest, Writing(id, "item", false), AtTape(id));
    sts, evs, st := Extend(sts, evs, st, AddBegins(0));
  }

  /** Without a cleaner that waits, the run ends with both workers writing the same item. */
  lemma TwoWriters() returns (sts: seq<State>, evs: seq<Event>)
    ensures IsRun(sts, evs) && QueuesAll(sts, evs)
    ensures !WritersExclude(sts[|evs|])
  {
    var id, st := Padded(1), Booted(map[], [], 2);
    sts, evs, st := FirstWriting(id);
    sts, evs, st := Extend(sts, evs, st, Begin(1));
    assert st == Working(id, Ingest, Writing(id, "item", true), Writing(id, "item", false));
    assert BothWrite(st.workers[0], st.workers[1]);
  }

  // ---- a restart that skips a pending transaction

  function Alone(id: string, item: string, status: Status): map<string, Tx> {
    map[id := Tx(item, status, [], [])]
  }

  lemma NumbersFrom(used: string, n: nat)
    requires used == Padded(n)
    ensures NewNumber({used}, n + 1) == n + 1
  {
    if Padded(n + 1) == used { PaddedInjective(n, n + 1); }
  }

  lemma SecondCreated(one: string, two: string) returns (sts: seq<State>, evs: seq<Event>, st: State)
    requires one == Padded(1) && two == Padded(2)
    ensures Reached(sts, evs, st) && one != two
    ensures var txs := OneTx(one, Error, [])[two := Fresh("item")];
      st == State(Store(txs, 3, txs), [], Two(Idle, Idle), map[two := Created], {}, map[], [])
  {
    sts, evs, st := Rejected(one);
    NumbersFrom(one, 1);
    PaddedParses(1);
    assert st.s.txs.Keys == {one} && NewID(st.s) == two != one;
    sts, evs, st := Extend(sts, evs, st, Event.Create("item"));
  }

  /** The first one removed, and a restart that cannot read the second. */
  lemma SecondSkipped(one: string, two: string) returns (sts: seq<State>, evs: seq<Event>, st: State)
    requires one == Padded(1) && two == Padded(2)
    ensures Reached(sts, evs, st) && one != two
    ensures st == State(Store(map[], 1, Alone(two, "item", Open)), [], Two(Idle, Idle), map[], {}, map[], [])
  {
    sts, evs, st := SecondCreated(one, two);
    assert Holders(st, one) == {};
    sts, evs, st := Extend(sts, evs, st, Remove(one));
    sts, evs, st := Extend(sts, evs, st, Unlink(one));
    assert st.s.disk == Alone(two, "item", Open);
    sts, evs, st := Extend(sts, evs, st, Restart({}, {two}, []));
    assert st.s.txs == map[];
  }

  lemma BothOnDisk(one: string, two: string) returns (sts: seq<State>, evs: seq<Event>, st: State)
    requires one == Padded(1) && two == Padded(2)
    ensures Reached(sts, evs, st) && one != two
    ensures st.s.disk == Alone(two, "item", Open)[one := Fresh("item")]
  {
    sts, evs, st := SecondSkipped(one, two);
    FirstNumber();
    assert st.s.txs.Keys == {};
    sts, evs, st := Extend(sts, evs, st, Event.Create("item"));
  }

  /** A pending transaction whose record cannot be read at a restart does not hold up a new one on its item;
      once it can be read again both are pending. */
  lemma TwoPending() returns (sts: seq<State>, evs: seq<Event>)
    ensures IsRun(sts, evs) && !OnePerItem(sts[|evs|].s.txs)
  {
    var one, two, st := Padded(1), Padded(2), Booted(map[], [], 2);
    sts, evs, st := BothOnDisk(one, two);
    sts, evs, st := Extend(sts, evs, st, Restart({}, {}, [one, two]));
    assert PendingIn(st.s.txs, one) && PendingIn(st.s.txs, two);
  }
}
