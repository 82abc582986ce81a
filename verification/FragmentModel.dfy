/** Files uploaded in pieces (fragment/fragment.go): the files in memory, the saved records, and the
    store of fragments, under any interleaving of appends, rollbacks and restarts. */
module FragmentModel {
  import opened Prelude
  import opened Names

  /** An entry of a file's list of children. */
  datatype Fragment = Fragment(key: string, size: int)

  /** `n` numbers the next fragment. */
  datatype File = File(id: string, size: int, n: nat, children: seq<Fragment>)

  /** A fragment being written: it appears in the store when it is closed. */
  datatype Writer = Writer(id: string, key: string, data: Bytes)

  datatype State = State(fragments: map<string, Bytes>, saved: map<string, File>, files: map<string, File>,
                         writers: seq<Writer>)

  function Key(id: string, n: nat): string {
    id + "+" + Padded(n)
  }

  /** No two fragments of any files share a key, plus signs and digits in file names included. */
  lemma KeyInjective(a: string, m: nat, b: string, n: nat)
    requires Key(a, m) == Key(b, n)
    ensures a == b && m == n
  {
    PaddedParses(m);
    PaddedParses(n);
    assert Key(a, m) == a + ['+'] + Padded(m) && Key(b, n) == b + ['+'] + Padded(n);
    LastIndexOfSeparator(a, '+', Padded(m));
    LastIndexOfSeparator(b, '+', Padded(n));
    assert Key(a, m)[|a| + 1..] == Padded(m) && Key(b, n)[|b| + 1..] == Padded(n);
    assert Key(a, m)[..|a|] == a && Key(b, n)[..|b|] == b;
    PaddedInjective(m, n);
  }

  datatype Event =
    | New(id: string)
    | Append(id: string, createOK: bool)
    | Write(w: nat, data: Bytes)
    | Close(w: nat, closeOK: bool)
    | Rollback(id: string)
    | SaveMeta(id: string)               // SetMD5 and the like
    | Delete(id: string)
    | Restart(unsaved: set<nat>)         // these writers had put their fragment in place, and no more

  predicate Enabled(st: State, e: Event) {
    match e
    case New(id) => id !in st.files
    case Append(id, _) => id in st.files
    case Write(w, _) => w < |st.writers|
    case Close(w, _) => w < |st.writers| && st.writers[w].id in st.files
    case Rollback(id) => id in st.files && st.files[id].children != []
    case SaveMeta(id) => id in st.files
    case Delete(id) => id in st.files && forall w :: 0 <= w < |st.writers| ==> st.writers[w].id != id
    case Restart(unsaved) => true
  }

  function Without(ws: seq<Writer>, w: nat): seq<Writer>
    requires w < |ws|
  {
    ws[..w] + ws[w + 1..]
  }

  /** Append; the number is used up whether or not the fragment could be created. */
  function AppendStep(st: State, id: string, createOK: bool): State
    requires id in st.files
  {
    var f := st.files[id];
    var t := st.(files := st.files[id := f.(n := f.n + 1)]);
    if createOK && Key(id, f.n) !in st.fragments then
      t.(writers := st.writers + [Writer(id, Key(id, f.n), "")])
    else t
  }

  function Save(st: State, f: File): State {
    st.(files := st.files[f.id := f], saved := st.saved[f.id := f])
  }

  function Grown(f: File, key: string, size: int): File {
    f.(size := f.size + size, children := f.children + [Fragment(key, size)])
  }

  /** fragwriter.Close; a fragment that cannot be put in place is forgotten. */
  function CloseStep(st: State, w: nat, closeOK: bool): State
    requires w < |st.writers| && st.writers[w].id in st.files
  {
    var wr := st.writers[w];
    var t := st.(writers := Without(st.writers, w));
    if !closeOK then t
    else Save(t.(fragments := st.fragments[wr.key := wr.data]), Grown(st.files[wr.id], wr.key, |wr.data|))
  }

  function Shrunk(f: File): File
    requires f.children != []
  {
    f.(size := f.size - f.children[|f.children| - 1].size, children := f.children[..|f.children| - 1])
  }

  function RollbackStep(st: State, id: string): State
    requires id in st.files && st.files[id].children != []
  {
    var f := st.files[id];
    Save(st.(fragments := st.fragments - {f.children[|f.children| - 1].key}), Shrunk(f))
  }

  function KeysOf(f: File): set<string> {
    set i | 0 <= i < |f.children| :: f.children[i].key
  }

  function DeleteStep(st: State, id: string): State
    requires id in st.files
  {
    st.(files := st.files - {id}, saved := st.saved - {id}, fragments := st.fragments - KeysOf(st.files[id]))
  }

  /** Fragments that are in place although no record has them. */
  function Orphans(ws: seq<Writer>, unsaved: set<nat>): map<string, Bytes> {
    if ws == [] then map[]
    else
      var k := |ws| - 1;
      var before := Orphans(ws[..k], unsaved);
      if k in unsaved then before[ws[k].key := ws[k].data] else before
  }

  function Step(st: State, e: Event): State
    requires Enabled(st, e)
  {
    match e
    case New(id) => st.(files := st.files[id := File(id, 0, 0, [])])
    case Append(id, createOK) => AppendStep(st, id, createOK)
    case Write(w, data) => st.(writers := st.writers[w := st.writers[w].(data := st.writers[w].data + data)])
    case Close(w, closeOK) => CloseStep(st, w, closeOK)
    case Rollback(id) => RollbackStep(st, id)
    case SaveMeta(id) => Save(st, st.files[id])
    case Delete(id) => DeleteStep(st, id)
    case Restart(unsaved) =>
      State(st.fragments + Orphans(st.writers, unsaved), st.saved, st.saved, [])
  }

  // ---- what a file holds

  function SumSizes(cs: seq<Fragment>): int {
    if cs == [] then 0 else SumSizes(cs[..|cs| - 1]) + cs[|cs| - 1].size
  }

  /** The pieces a file was made of, in order. */
  function Pieces(fragments: map<string, Bytes>, cs: seq<Fragment>): seq<Bytes> {
    seq(|cs|, i requires 0 <= i < |cs| => if cs[i].key in fragments then fragments[cs[i].key] else "")
  }

  function Joined(pieces: seq<Bytes>): Bytes {
    if pieces == [] then "" else Joined(pieces[..|pieces| - 1]) + pieces[|pieces| - 1]
  }

  // ---- the invariant

  ghost predicate IsKeyOf(key: string, id: string, below: nat) {
    exists n: nat :: n < below && key == Key(id, n)
  }

  ghost predicate ChildrenOK(fragments: map<string, Bytes>, f: File) {
    && f.size == SumSizes(f.children)
    && (forall i :: 0 <= i < |f.children| ==> ChildOK(fragments, f, f.children[i]))
    && (forall i, j :: 0 <= i < j < |f.children| ==> f.children[i].key != f.children[j].key)
  }

  ghost predicate ChildOK(fragments: map<string, Bytes>, f: File, c: Fragment) {
    IsKeyOf(c.key, f.id, f.n) && c.key in fragments && c.size == |fragments[c.key]|
  }

  /** The record on disk is that of the file but for the fragment number, and is missing only while the
      file is empty. */
  ghost predicate SavedOK(st: State, id: string) {
    && id in st.files && st.files[id].id == id
    && (id in st.saved ==> st.saved[id] == st.files[id].(n := st.saved[id].n) && st.saved[id].n <= st.files[id].n
                           && forall i :: 0 <= i < |st.saved[id].children| ==>
                                IsKeyOf(st.saved[id].children[i].key, id, st.saved[id].n))
    && (id !in st.saved ==> st.files[id].children == [])
  }

  ghost predicate WriterOK(st: State, w: Writer) {
    w.id in st.files && IsKeyOf(w.key, w.id, st.files[w.id].n) && w.key !in st.fragments
  }

  ghost predicate Inv(st: State) {
    && (forall id :: id in st.files ==> ChildrenOK(st.fragments, st.files[id]) && SavedOK(st, id))
    && (forall id :: id in st.saved ==> id in st.files)
    && (forall w :: 0 <= w < |st.writers| ==> WriterOK(st, st.writers[w]))
    && (forall v, w :: 0 <= v < w < |st.writers| ==> st.writers[v].key != st.writers[w].key)
  }
}
