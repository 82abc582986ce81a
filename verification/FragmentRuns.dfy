/** Fragment files refine a map from names to sequences of pieces. */
module FragmentRuns {
  import opened Prelude
  import opened FragmentModel

  // ---- the simple form

  /** What a file is: the pieces appended and not rolled back. */
  function Held(st: State, g: string): Option<seq<Bytes>> {
    if g in st.files then Some(Pieces(st.fragments, st.files[g].children)) else None
  }

  /** What an event is to make of file g. */
  function HeldAfter(held: Option<seq<Bytes>>, st: State, e: Event, g: string): Option<seq<Bytes>>
    requires Enabled(st, e)
  {
    match e
    case New(id) => if g == id then Some([]) else held
    case Close(w, true) =>
      if g == st.writers[w].id && held != None then Some(held.value + [st.writers[w].data]) else held
    case Rollback(id) =>
      if g == id && held != None && held.value != [] then Some(held.value[..|held.value| - 1]) else held
    case Delete(id) => if g == id then None else held
    case Restart(_) => if g in st.saved then held else None
    case _ => held
  }

  ghost predicate Does(st: State, e: Event) {
    Enabled(st, e) && Inv(Step(st, e)) && forall g :: Held(Step(st, e), g) == HeldAfter(Held(st, g), st, e, g)
  }

  // ---- keeping the invariant

  lemma KeysApart(key: string, a: string, m: nat, b: string, n: nat)
    requires IsKeyOf(key, a, m) && IsKeyOf(key, b, n)
    ensures a == b
  {
    var i: nat :| i < m && key == Key(a, i);
    var j: nat :| j < n && key == Key(b, j);
    KeyInjective(a, i, b, j);
  }

  lemma KeyBelow(key: string, id: string, m: nat, n: nat)
    requires IsKeyOf(key, id, m) && m <= n
    ensures IsKeyOf(key, id, n) && key != Key(id, n)
  {
    var i: nat :| i < m && key == Key(id, i);
    if key == Key(id, n) { KeyInjective(id, i, id, n); }
  }

  lemma NextIsKey(id: string, n: nat)
    ensures IsKeyOf(Key(id, n), id, n + 1)
  {
  }

  /** A file whose fragments are left alone is as it was, even if it has used up more numbers. */
  lemma ChildrenKept(a: map<string, Bytes>, b: map<string, Bytes>, f: File, n: nat)
    requires ChildrenOK(a, f) && f.n <= n
    requires forall i :: 0 <= i < |f.children| ==>
      f.children[i].key in b && b[f.children[i].key] == a[f.children[i].key]
    ensures ChildrenOK(b, f.(n := n)) && Pieces(b, f.children) == Pieces(a, f.children)
  {
    forall i | 0 <= i < |f.children|
      ensures ChildOK(b, f.(n := n), f.children[i])
    {
      assert ChildOK(a, f, f.children[i]);
      KeyBelow(f.children[i].key, f.id, f.n, n);
    }
  }

  /** Steps that change one file at most, and only fragments that no other file has. */
  ghost predicate OneFile(st: State, t: State, id: string) {
    && (forall g :: g != id ==> (g in t.files <==> g in st.files) && (g in t.saved <==> g in st.saved))
    && (forall g :: g != id && g in st.files ==> t.files[g] == st.files[g])
    && (forall g :: g != id && g in st.saved ==> t.saved[g] == st.saved[g])
    && (forall k :: k in st.fragments && (k !in t.fragments || t.fragments[k] != st.fragments[k]) ==> OwnKey(k, id))
    && (forall k :: k in t.fragments && k !in st.fragments ==> OwnKey(k, id))
  }

  ghost predicate OwnKey(key: string, id: string) {
    exists n: nat :: key == Key(id, n)
  }

  lemma OtherFileKept(st: State, t: State, id: string, g: string)
    requires Inv(st) && OneFile(st, t, id) && g != id && g in st.files
    ensures ChildrenOK(t.fragments, t.files[g]) && SavedOK(t, g)
    ensures Pieces(t.fragments, t.files[g].children) == Pieces(st.fragments, st.files[g].children)
  {
    var f := st.files[g];
    assert ChildrenOK(st.fragments, f) && SavedOK(st, g);
    forall i | 0 <= i < |f.children|
      ensures f.children[i].key in t.fragments && t.fragments[f.children[i].key] == st.fragments[f.children[i].key]
    {
      NotOwn(st, g, f.children[i], id);
    }
    ChildrenKept(st.fragments, t.fragments, f, f.n);
  }

  lemma NotOwn(st: State, g: string, c: Fragment, id: string)
    requires g in st.files && st.files[g].id == g && ChildOK(st.fragments, st.files[g], c) && g != id
    ensures !OwnKey(c.key, id)
  {
    if OwnKey(c.key, id) {
      var n: nat :| c.key == Key(id, n);
      NextIsKey(id, n);
      KeysApart(c.key, g, st.files[g].n, id, n + 1);
    }
  }

  lemma OtherWriterKept(st: State, t: State, id: string, w: Writer)
    requires WriterOK(st, w) && OneFile(st, t, id) && w.id != id
    ensures WriterOK(t, w)
  {
    if OwnKey(w.key, id) {
      var n: nat :| w.key == Key(id, n);
      NextIsKey(id, n);
      KeysApart(w.key, w.id, st.files[w.id].n, id, n + 1);
    }
  }

  ghost predicate WritersOK(st: State) {
    && (forall w :: 0 <= w < |st.writers| ==> WriterOK(st, st.writers[w]))
    && (forall v, w :: 0 <= v < w < |st.writers| ==> st.writers[v].key != st.writers[w].key)
  }

  /** It is enough to look at the one file, and at the writers. */
  lemma OneFileKeeps(st: State, t: State, id: string)
    requires Inv(st) && OneFile(st, t, id) && WritersOK(t)
    requires id in t.files ==> ChildrenOK(t.fragments, t.files[id]) && SavedOK(t, id)
    requires id in t.saved ==> id in t.files
    ensures Inv(t)
    ensures forall g :: g != id ==> Held(t, g) == Held(st, g)
  {
    forall g | g in t.files
      ensures ChildrenOK(t.fragments, t.files[g]) && SavedOK(t, g)
    {
      if g != id { OtherFileKept(st, t, id, g); }
    }
    forall g | g != id
      ensures Held(t, g) == Held(st, g)
    {
      if g in st.files { OtherFileKept(st, t, id, g); }
    }
  }

  /** One file has a new state, in memory and perhaps in its record. */
  ghost predicate Updated(st: State, t: State, id: string) {
    && id in t.files && t.files == st.files[id := t.files[id]]
    && (t.saved == st.saved || t.saved == st.saved[id := t.files[id]])
    && (t.fragments == st.fragments
        || exists k :: OwnKey(k, id) && (t.fragments == st.fragments - {k}
                                         || (k in t.fragments && t.fragments == st.fragments[k := t.fragments[k]])))
  }

  lemma UpdatedIsOneFile(st: State, t: State, id: string)
    requires Updated(st, t, id)
    ensures OneFile(st, t, id)
  {
  }

  lemma UpdateKeeps(st: State, t: State, id: string)
    requires Inv(st) && Updated(st, t, id) && WritersOK(t)
    requires ChildrenOK(t.fragments, t.files[id]) && SavedOK(t, id)
    ensures Inv(t) && forall g :: g != id ==> Held(t, g) == Held(st, g)
  {
    UpdatedIsOneFile(st, t, id);
    OneFileKeeps(st, t, id);
  }

  // ---- the events

  lemma NewKeeps(st: State, id: string)
    requires Inv(st) && Enabled(st, New(id))
    ensures Does(st, New(id))
  {
    var t := Step(st, New(id));
    assert ChildrenOK(t.fragments, t.files[id]) && SavedOK(t, id);
    forall w | 0 <= w < |t.writers|
      ensures WriterOK(t, t.writers[w])
    {
      assert WriterOK(st, st.writers[w]);
    }
    UpdateKeeps(st, t, id);
    assert Pieces(t.fragments, []) == [];
  }

  lemma AppendWriters(st: State, id: string, t: State)
    requires Inv(st) && id in st.files && t.fragments == st.fragments
    requires t.files == st.files[id := st.files[id].(n := st.files[id].n + 1)]
    ensures forall w :: 0 <= w < |st.writers| ==>
      WriterOK(t, st.writers[w]) && st.writers[w].key != Key(id, st.files[id].n)
  {
    forall w | 0 <= w < |st.writers|
      ensures WriterOK(t, st.writers[w]) && st.writers[w].key != Key(id, st.files[id].n)
    {
      var wr := st.writers[w];
      assert WriterOK(st, wr);
      if wr.id == id {
        KeyBelow(wr.key, id, st.files[id].n, st.files[id].n);
        KeyBelow(wr.key, id, st.files[id].n, st.files[id].n + 1);
      } else {
        NextIsKey(id, st.files[id].n);
        if wr.key == Key(id, st.files[id].n) { KeysApart(wr.key, wr.id, st.files[wr.id].n, id, st.files[id].n + 1); }
      }
    }
  }

  lemma AppendKeeps(st: State, id: string, createOK: bool)
    requires Inv(st) && Enabled(st, Append(id, createOK))
    ensures Does(st, Append(id, createOK))
  {
    var t, f := Step(st, Append(id, createOK)), st.files[id];
    assert ChildrenOK(st.fragments, f) && SavedOK(st, id);
    ChildrenKept(st.fragments, t.fragments, f, f.n + 1);
    AppendWriters(st, id, t);
    NextIsKey(id, f.n);
    assert SavedOK(t, id);
    UpdateKeeps(st, t, id);
  }

  lemma SameFiles(st: State, t: State)
    requires Inv(st) && WritersOK(t) && t.files == st.files && t.saved == st.saved && t.fragments == st.fragments
    ensures Inv(t) && forall g :: Held(t, g) == Held(st, g)
  {
    forall id | id in t.files
      ensures ChildrenOK(t.fragments, t.files[id]) && SavedOK(t, id)
    {
      assert ChildrenOK(st.fragments, st.files[id]) && SavedOK(st, id);
    }
  }

  lemma WriteKeeps(st: State, w: nat, data: Bytes)
    requires Inv(st) && Enabled(st, Write(w, data))
    ensures Does(st, Write(w, data))
  {
    var t := Step(st, Write(w, data));
    forall v | 0 <= v < |t.writers|
      ensures WriterOK(t, t.writers[v]) && t.writers[v].key == st.writers[v].key
    {
      assert WriterOK(st, st.writers[v]);
    }
    assert WritersOK(t);
    SameFiles(st, t);
  }

  lemma WithoutAt(ws: seq<Writer>, w: nat, v: nat)
    requires w < |ws| && v < |ws| - 1
    ensures Without(ws, w)[v] == ws[if v < w then v else v + 1]
  {
  }

  lemma OtherWriters(st: State, w: nat)
    requires Inv(st) && w < |st.writers|
    ensures forall v :: 0 <= v < |st.writers| - 1 ==>
      WriterOK(st, Without(st.writers, w)[v]) && Without(st.writers, w)[v].key != st.writers[w].key
    ensures forall u, v :: 0 <= u < v < |st.writers| - 1 ==>
      Without(st.writers, w)[u].key != Without(st.writers, w)[v].key
  {
    var ws := Without(st.writers, w);
    forall v | 0 <= v < |ws|
      ensures WriterOK(st, ws[v]) && ws[v].key != st.writers[w].key
    {
      WithoutAt(st.writers, w, v);
    }
    forall u, v | 0 <= u < v < |ws|
      ensures ws[u].key != ws[v].key
    {
      WithoutAt(st.writers, w, u);
      WithoutAt(st.writers, w, v);
    }
  }

  lemma CloseFailedKeeps(st: State, w: nat)
    requires Inv(st) && Enabled(st, Close(w, false))
    ensures Does(st, Close(w, false))
  {
    var t := Step(st, Close(w, false));
    OtherWriters(st, w);
    forall v | 0 <= v < |t.writers|
      ensures WriterOK(t, t.writers[v])
    {
      assert WriterOK(st, Without(st.writers, w)[v]);
    }
    SameFiles(st, t);
  }

  lemma GrownOK(a: map<string, Bytes>, f: File, key: string, data: Bytes)
    requires ChildrenOK(a, f) && IsKeyOf(key, f.id, f.n) && key !in a
    ensures var b := a[key := data];
      && ChildrenOK(b, Grown(f, key, |data|))
      && Pieces(b, Grown(f, key, |data|).children) == Pieces(a, f.children) + [data]
  {
    var b, g := a[key := data], Grown(f, key, |data|);
    assert g.children[..|g.children| - 1] == f.children;
    forall i | 0 <= i < |g.children|
      ensures ChildOK(b, g, g.children[i])
    {
      if i < |f.children| { assert ChildOK(a, f, f.children[i]); }
    }
  }

  lemma CloseWriters(st: State, w: nat, t: State)
    requires Inv(st) && Enabled(st, Close(w, true)) && t == CloseStep(st, w, true)
    ensures WritersOK(t)
  {
    OtherWriters(st, w);
    forall v | 0 <= v < |t.writers|
      ensures WriterOK(t, t.writers[v])
    {
      assert WriterOK(st, Without(st.writers, w)[v]);
    }
  }

  lemma CloseFile(st: State, w: nat, t: State)
    requires Inv(st) && Enabled(st, Close(w, true)) && t == CloseStep(st, w, true)
    ensures var wr := st.writers[w];
      && Updated(st, t, wr.id) && ChildrenOK(t.fragments, t.files[wr.id]) && SavedOK(t, wr.id)
      && Pieces(t.fragments, t.files[wr.id].children) == Pieces(st.fragments, st.files[wr.id].children) + [wr.data]
  {
    var wr, f := st.writers[w], st.files[st.writers[w].id];
    assert WriterOK(st, wr) && ChildrenOK(st.fragments, f) && SavedOK(st, wr.id);
    GrownOK(st.fragments, f, wr.key, wr.data);
    SavedItself(t, wr.id);
    OwnKeyOf(wr.key, wr.id, f.n);
  }

  lemma CloseKeeps(st: State, w: nat)
    requires Inv(st) && Enabled(st, Close(w, true))
    ensures Does(st, Close(w, true))
  {
    var t := CloseStep(st, w, true);
    CloseWriters(st, w, t);
    CloseFile(st, w, t);
    UpdateKeeps(st, t, st.writers[w].id);
  }

  lemma OwnKeyOf(key: string, id: string, n: nat)
    requires IsKeyOf(key, id, n)
    ensures OwnKey(key, id)
  {
  }

  lemma SavedItself(t: State, id: string)
    requires id in t.files && id in t.saved && t.saved[id] == t.files[id] && t.files[id].id == id
    requires ChildrenOK(t.fragments, t.files[id])
    ensures SavedOK(t, id)
  {
    forall i | 0 <= i < |t.saved[id].children|
      ensures IsKeyOf(t.saved[id].children[i].key, id, t.saved[id].n)
    {
      assert ChildOK(t.fragments, t.files[id], t.files[id].children[i]);
    }
  }

  lemma ShrunkChildOK(a: map<string, Bytes>, f: File, i: nat)
    requires ChildrenOK(a, f) && i < |f.children| - 1
    ensures ChildOK(a - {f.children[|f.children| - 1].key}, Shrunk(f), f.children[i])
  {
    assert ChildOK(a, f, f.children[i]) && f.children[i].key != f.children[|f.children| - 1].key;
  }

  lemma ShrunkOK(a: map<string, Bytes>, f: File)
    requires ChildrenOK(a, f) && f.children != []
    ensures ChildrenOK(a - {f.children[|f.children| - 1].key}, Shrunk(f))
  {
    var k := |f.children| - 1;
    forall i | 0 <= i < k
      ensures ChildOK(a - {f.children[k].key}, Shrunk(f), Shrunk(f).children[i])
    {
      ShrunkChildOK(a, f, i);
    }
  }

  lemma ShrunkPieces(a: map<string, Bytes>, f: File)
    requires ChildrenOK(a, f) && f.children != []
    ensures var k := |f.children| - 1;
      Pieces(a - {f.children[k].key}, Shrunk(f).children) == Pieces(a, f.children)[..k]
  {
    var k := |f.children| - 1;
    assert forall i :: 0 <= i < k ==> f.children[i].key != f.children[k].key;
  }

  lemma RollbackFile(st: State, id: string, t: State)
    requires Enabled(st, Rollback(id)) && t == RollbackStep(st, id)
    requires ChildrenOK(st.fragments, st.files[id]) && st.files[id].id == id
    ensures ChildrenOK(t.fragments, t.files[id]) && SavedOK(t, id)
    ensures Held(t, id) == HeldAfter(Held(st, id), st, Rollback(id), id)
  {
    ShrunkOK(st.fragments, st.files[id]);
    ShrunkPieces(st.fragments, st.files[id]);
    SavedItself(t, id);
  }

  lemma RollbackUpdates(st: State, id: string, t: State)
    requires Enabled(st, Rollback(id)) && t == RollbackStep(st, id) && st.files[id].id == id
    requires ChildrenOK(st.fragments, st.files[id])
    ensures Updated(st, t, id)
  {
    var f := st.files[id];
    var c := f.children[|f.children| - 1];
    assert ChildOK(st.fragments, f, c);
    OwnKeyOf(c.key, id, f.n);
  }

  lemma RollbackWriters(st: State, id: string, t: State)
    requires Inv(st) && Enabled(st, Rollback(id)) && t == RollbackStep(st, id) && st.files[id].id == id
    ensures WritersOK(t)
  {
    forall v | 0 <= v < |t.writers|
      ensures WriterOK(t, t.writers[v])
    {
      assert WriterOK(st, st.writers[v]);
    }
  }

  lemma RollbackKeeps(st: State, id: string)
    requires Inv(st) && Enabled(st, Rollback(id))
    ensures Does(st, Rollback(id))
  {
    var t := RollbackStep(st, id);
    assert SavedOK(st, id) && ChildrenOK(st.fragments, st.files[id]);
    RollbackWriters(st, id, t);
    RollbackFile(st, id, t);
    RollbackUpdates(st, id, t);
    UpdateKeeps(st, t, id);
    forall g
      ensures Held(t, g) == HeldAfter(Held(st, g), st, Rollback(id), g)
    {
      if g != id { assert Held(t, g) == Held(st, g); }
    }
  }

  lemma SaveMetaKeeps(st: State, id: string)
    requires Inv(st) && Enabled(st, SaveMeta(id))
    ensures Does(st, SaveMeta(id))
  {
    var t := Step(st, SaveMeta(id));
    assert ChildrenOK(st.fragments, st.files[id]) && SavedOK(st, id);
    SavedItself(t, id);
    forall v | 0 <= v < |t.writers|
      ensures WriterOK(t, t.writers[v])
    {
      assert WriterOK(st, st.writers[v]);
    }
    UpdateKeeps(st, t, id);
  }

  lemma DeleteKeeps(st: State, id: string)
    requires Inv(st) && Enabled(st, Delete(id))
    ensures Does(st, Delete(id))
  {
    var t, f := Step(st, Delete(id)), st.files[id];
    assert ChildrenOK(st.fragments, f) && SavedOK(st, id);
    forall k | k in KeysOf(f)
      ensures OwnKey(k, id)
    {
      var i :| 0 <= i < |f.children| && f.children[i].key == k;
      assert ChildOK(st.fragments, f, f.children[i]);
      OwnKeyOf(k, id, f.n);
    }
    assert OneFile(st, t, id);
    forall v | 0 <= v < |t.writers|
      ensures WriterOK(t, t.writers[v])
    {
      assert WriterOK(st, st.writers[v]);
      OtherWriterKept(st, t, id, st.writers[v]);
    }
    OneFileKeeps(st, t, id);
  }

  lemma {:induction false} OrphansApart(st: State, ws: seq<Writer>, unsaved: set<nat>)
    requires forall w :: 0 <= w < |ws| ==> ws[w].key !in st.fragments
    ensures Orphans(ws, unsaved).Keys !! st.fragments.Keys
  {
    if ws != [] { OrphansApart(st, ws[..|ws| - 1], unsaved); }
  }

  lemma RestartKeeps(st: State, unsaved: set<nat>)
    requires Inv(st)
    ensures Does(st, Restart(unsaved))
  {
    var t := Step(st, Restart(unsaved));
    assert forall w :: 0 <= w < |st.writers| ==> WriterOK(st, st.writers[w]);
    OrphansApart(st, st.writers, unsaved);
    forall id | id in t.files
      ensures ChildrenOK(t.fragments, t.files[id]) && SavedOK(t, id) && Held(t, id) == Held(st, id)
    {
      var f := st.files[id];
      assert ChildrenOK(st.fragments, f) && SavedOK(st, id);
      forall i | 0 <= i < |f.children|
        ensures f.children[i].key in t.fragments && t.fragments[f.children[i].key] == st.fragments[f.children[i].key]
      {
        assert ChildOK(st.fragments, f, f.children[i]);
      }
      ReloadedOK(st.fragments, t.fragments, f, st.saved[id]);
    }
  }

  lemma ReloadedOK(a: map<string, Bytes>, b: map<string, Bytes>, f: File, saved: File)
    requires ChildrenOK(a, f) && saved == f.(n := saved.n)
    requires forall i :: 0 <= i < |f.children| ==>
      f.children[i].key in b && b[f.children[i].key] == a[f.children[i].key]
    requires forall i :: 0 <= i < |saved.children| ==> IsKeyOf(saved.children[i].key, saved.id, saved.n)
    ensures ChildrenOK(b, saved) && Pieces(b, saved.children) == Pieces(a, f.children)
  {
    forall i | 0 <= i < |saved.children|
      ensures ChildOK(b, saved, saved.children[i])
    {
      assert ChildOK(a, f, f.children[i]);
    }
  }

  /** Refinement: every event keeps the invariant and does to the files what it is to do to them. */
  lemma StepRefines(st: State, e: Event)
    requires Inv(st) && Enabled(st, e)
    ensures Does(st, e)
  {
    match e
    case New(id) => NewKeeps(st, id);
    case Append(id, createOK) => AppendKeeps(st, id, createOK);
    case Write(w, data) => WriteKeeps(st, w, data);
    case Close(w, closeOK) => if closeOK { CloseKeeps(st, w); } else { CloseFailedKeeps(st, w); }
    case Rollback(id) => RollbackKeeps(st, id);
    case SaveMeta(id) => SaveMetaKeeps(st, id);
    case Delete(id) => DeleteKeeps(st, id);
    case Restart(unsaved) => RestartKeeps(st, unsaved);
  }

  // ---- runs

  ghost predicate IsRun(sts: seq<State>, evs: seq<Event>) {
    && |sts| == |evs| + 1 && sts[0] == State(map[], map[], map[], [])
    && (forall i :: 0 <= i < |evs| ==> Enabled(sts[i], evs[i]))
    && (forall i :: 0 <= i < |evs| ==> sts[i + 1] == Step(sts[i], evs[i]))
  }

  lemma {:induction false} RunKeeps(sts: seq<State>, evs: seq<Event>, k: nat)
    requires IsRun(sts, evs) && k < |sts|
    ensures Inv(sts[k])
  {
    if k > 0 {
      RunKeeps(sts, evs, k - 1);
      assert Enabled(sts[k - 1], evs[k - 1]) && sts[k] == Step(sts[k - 1], evs[k - 1]);
      StepRefines(sts[k - 1], evs[k - 1]);
    }
  }

  /** Along every run each file is the pieces appended to it and not rolled back. */
  lemma RunRefines(sts: seq<State>, evs: seq<Event>, k: nat, g: string)
    requires IsRun(sts, evs) && k < |evs| && Enabled(sts[k], evs[k])
    ensures Held(sts[k + 1], g) == HeldAfter(Held(sts[k], g), sts[k], evs[k], g)
  {
    RunKeeps(sts, evs, k);
    assert Enabled(sts[k], evs[k]) && sts[k + 1] == Step(sts[k], evs[k]);
    StepRefines(sts[k], evs[k]);
  }

  lemma {:induction false} SumIsLength(a: map<string, Bytes>, f: File, k: nat)
    requires ChildrenOK(a, f) && k <= |f.children|
    ensures SumSizes(f.children[..k]) == |Joined(Pieces(a, f.children[..k]))|
  {
    if k > 0 {
      SumIsLength(a, f, k - 1);
      assert ChildOK(a, f, f.children[k - 1]);
      assert f.children[..k][..k - 1] == f.children[..k - 1];
      assert Pieces(a, f.children[..k])[..k - 1] == Pieces(a, f.children[..k - 1]);
    }
  }

  /** Size is the number of bytes the file holds. */
  lemma SizeIsLength(sts: seq<State>, evs: seq<Event>, k: nat, g: string)
    requires IsRun(sts, evs) && k < |sts| && g in sts[k].files
    ensures sts[k].files[g].size == |Joined(Held(sts[k], g).value)|
  {
    RunKeeps(sts, evs, k);
    var f := sts[k].files[g];
    assert ChildrenOK(sts[k].fragments, f);
    SumIsLength(sts[k].fragments, f, |f.children|);
    assert f.children[..|f.children|] == f.children;
  }

  lemma FileRestored(st: State, w: nat)
    requires Inv(st) && Enabled(st, Close(w, true))
    ensures var id := st.writers[w].id;
      var mid := CloseStep(st, w, true);
      mid.files.Keys == st.files.Keys && mid.files[id].children != [] && RollbackStep(mid, id).files[id] == st.files[id]
  {
    var wr, f := st.writers[w], st.files[st.writers[w].id];
    assert WriterOK(st, wr) && SavedOK(st, wr.id);
    assert Grown(f, wr.key, |wr.data|).children[..|f.children|] == f.children;
    assert Shrunk(Grown(f, wr.key, |wr.data|)) == f;
  }

  lemma PushPop(held: Option<seq<Bytes>>, st: State, w: nat, mid: State, g: string)
    requires Enabled(st, Close(w, true)) && Enabled(mid, Rollback(st.writers[w].id))
    requires g == st.writers[w].id ==> held != None
    ensures HeldAfter(HeldAfter(held, st, Close(w, true), g), mid, Rollback(st.writers[w].id), g) == held
  {
    if g == st.writers[w].id {
      assert (held.value + [st.writers[w].data])[..|held.value|] == held.value;
    }
  }

  /** Closing an appended fragment and rolling it back leaves the file, its size and its children, and all
      other files, as they were. */
  lemma CloseThenRollback(st: State, w: nat)
    requires Inv(st) && Enabled(st, Close(w, true))
    ensures var id := st.writers[w].id;
      var mid := Step(st, Close(w, true));
      && Enabled(mid, Rollback(id))
      && var t := Step(mid, Rollback(id));
         t.files[id] == st.files[id] && forall g :: Held(t, g) == Held(st, g)
  {
    var id := st.writers[w].id;
    var mid := Step(st, Close(w, true));
    FileRestored(st, w);
    StepRefines(st, Close(w, true));
    StepRefines(mid, Rollback(id));
    forall g
      ensures Held(Step(mid, Rollback(id)), g) == Held(st, g)
    {
      PushPop(Held(st, g), st, w, mid, g);
    }
  }
}
