/** Executing the planned commands on the item they were planned for gives it the local tree. */
module PlanCorrect {
  import opened Prelude
  import opened Names
  import opened BagText
  import opened ItemModel
  import opened ItemSafety
  import R = ItemRuns
  import opened ItemHashes
  import opened Commands
  import opened Planner

  lemma ParseAdd(file: string)
    ensures Parse(["add", file]) == Some(Add(file))
  {
  }

  lemma ParseSlot(name: string, r: string)
    ensures Parse(["slot", name, r]) == Some(Slot(name, r))
  {
  }

  lemma ParseMimeType(id: string, mimeType: string)
    ensures Parse(["mimetype", id, mimeType]) == Some(MimeType(id, mimeType))
  {
  }

  /** The command an action becomes, as the server understands it. */
  function Meaning(item: string, a: Action): Cmd {
    match a
    case NewBlob(_, md5, _) => Add(FileID(item, md5))
    case UpdateMimeType(id, mimeType) => MimeType(FormatInt(id), mimeType)
    case UpdateFile(name, id, md5) => Slot(name, if id > 0 then FormatInt(id) else FileID(item, md5))
  }

  lemma ParseCommand(item: string, a: Action)
    ensures Parse(CommandOf(item, a)) == Some(Meaning(item, a))
  {
    match a
    case NewBlob(_, md5, _) => ParseAdd(FileID(item, md5));
    case UpdateMimeType(id, mimeType) => ParseMimeType(FormatInt(id), mimeType);
    case UpdateFile(name, id, md5) => ParseSlot(name, if id > 0 then FormatInt(id) else FileID(item, md5));
  }

  // ---- blobs

  /** Blob `id` is live and has this MD5. */
  predicate Good(blobs: seq<Blob>, id: int, md5: Bytes) {
    1 <= id <= |blobs| && blobs[id - 1].id == id && blobs[id - 1].bundle != 0 && blobs[id - 1].md5 == md5
  }

  predicate SameContent(a: Blob, b: Blob) {
    a.id == b.id && a.md5 == b.md5 && a.bundle == b.bundle
  }

  /** The list has only been added to, as far as contents go. */
  ghost predicate Grown(old_: seq<Blob>, new_: seq<Blob>) {
    |old_| <= |new_| && forall i :: 0 <= i < |old_| ==> SameContent(old_[i], new_[i])
  }

  lemma GrownTransitive(a: seq<Blob>, b: seq<Blob>, c: seq<Blob>)
    requires Grown(a, b) && Grown(b, c)
    ensures Grown(a, c)
  {
    forall i | 0 <= i < |a|
      ensures SameContent(a[i], c[i])
    {
      assert SameContent(a[i], b[i]) && SameContent(b[i], c[i]);
    }
  }

  lemma GoodGrown(a: seq<Blob>, b: seq<Blob>, id: int, md5: Bytes)
    requires Grown(a, b) && id <= |a|
    ensures Good(a, id, md5) <==> Good(b, id, md5)
  {
    if 1 <= id { assert SameContent(a[id - 1], b[id - 1]); }
  }

  lemma SetMimeTypeGrows(item: Item, id: int, mimeType: string)
    ensures Grown(item.blobs, ItemModel.SetMimeType(item, id, mimeType).blobs)
  {
  }

  lemma WriteBlobGrows(h: Hasher, s: Session, data: Bytes, readerOK: bool, size: int, md5: Bytes, sha256: Bytes)
    ensures Grown(s.b.item.blobs, WriteBlob(h, s, data, readerOK, size, md5, sha256).0.b.item.blobs)
    ensures WriteBlob(h, s, data, readerOK, size, md5, sha256).0.version == s.version
  {
  }

  // ---- single commands

  ghost predicate Sound(h: Hasher, x: Exec) {
    SafeSession(h, x.s, x.orig) && HashedBundler(h, x.s.b, x.orig)
  }

  lemma CallSound(h: Hasher, x: Exec, op: R.Op)
    requires Sound(h, x) && !Misses(h, x.s, op)
    ensures Sound(h, Call(h, x, op))
  {
    R.ApplySafe(h, x.s, op, x.orig);
    ApplyHashed(h, x.s, op, x.orig);
  }

  /** An uploaded file that is what it was announced to be. */
  ghost predicate Uploaded(h: Hasher, f: Upload, md5: Hash) {
    f.readerOK && md5 != "" && f.md5 == md5 == h.md5(f.data) && f.size == |f.data|
      && (f.sha256 == "" || f.sha256 == h.sha256(f.data))
  }

  lemma WriteStores(h: Hasher, x: Exec, f: Upload, md5: Hash)
    requires Sound(h, x) && Uploaded(h, f, md5)
    ensures var y := Call(h, x, R.Write(f.data, f.readerOK, f.size, f.md5, f.sha256));
      var id := WriteBlob(h, x.s, f.data, f.readerOK, f.size, f.md5, f.sha256).1;
      && Sound(h, y) && Grown(x.s.b.item.blobs, y.s.b.item.blobs) && y.s.version == x.s.version
      && Good(y.s.b.item.blobs, id, md5)
  {
    DedupSound(h, x.s, f.data, f.readerOK, f.size, f.md5, f.sha256, x.orig);
    CallSound(h, x, R.Write(f.data, f.readerOK, f.size, f.md5, f.sha256));
    WriteBlobGrows(h, x.s, f.data, f.readerOK, f.size, f.md5, f.sha256);
  }

  lemma MimeTypeKeeps(h: Hasher, x: Exec, id: int, mimeType: string)
    requires Sound(h, x)
    ensures var y := Call(h, x, R.SetMimeType(id, mimeType));
      && Sound(h, y) && Grown(x.s.b.item.blobs, y.s.b.item.blobs) && y.s.version == x.s.version
      && y.blobMap == x.blobMap
  {
    CallSound(h, x, R.SetMimeType(id, mimeType));
    SetMimeTypeGrows(x.s.b.item, id, mimeType);
  }

  lemma NotedKeeps(h: Hasher, y: Exec, file: string, id: int, mimeType: string, md5: Hash)
    requires Sound(h, y) && Good(y.s.b.item.blobs, id, md5)
    ensures var z := Noted(h, y, file, id, mimeType);
      && Sound(h, z) && Grown(y.s.b.item.blobs, z.s.b.item.blobs) && z.s.version == y.s.version
      && z.blobMap == y.blobMap[file := id] && Good(z.s.b.item.blobs, id, md5)
  {
    var y1 := y.(blobMap := y.blobMap[file := id]);
    var z := Noted(h, y, file, id, mimeType);
    MimeTypeKeeps(h, y1, id, mimeType);
    GoodGrown(y.s.b.item.blobs, z.s.b.item.blobs, id, md5);
  }

  /** "add" succeeds and the file's blob, found or new, is live and has its MD5. */
  lemma AddStores(h: Hasher, up: map<string, Upload>, x: Exec, file: string, md5: Hash)
    requires Sound(h, x) && file in up && Uploaded(h, up[file], md5)
    ensures var y := Execute(h, up, x, Add(file));
      && y.ok && Sound(h, y.state) && Grown(x.s.b.item.blobs, y.state.s.b.item.blobs)
      && y.state.s.version == x.s.version
      && file in y.state.blobMap && y.state.blobMap == x.blobMap[file := y.state.blobMap[file]]
      && Good(y.state.s.b.item.blobs, y.state.blobMap[file], md5)
  {
    var f := up[file];
    var y := Call(h, x, R.Write(f.data, f.readerOK, f.size, f.md5, f.sha256));
    var id := WriteBlob(h, x.s, f.data, f.readerOK, f.size, f.md5, f.sha256).1;
    WriteStores(h, x, f, md5);
    NotedKeeps(h, y, file, id, f.mimeType, md5);
    var z := Noted(h, y, file, id, f.mimeType);
    GrownTransitive(x.s.b.item.blobs, y.s.b.item.blobs, z.s.b.item.blobs);
    assert y.blobMap == x.blobMap;
    assert Execute(h, up, x, Add(file)) == AddFile(h, x, file, f) == Outcome(z, true);
  }

  lemma SlotSets(h: Hasher, up: map<string, Upload>, x: Exec, name: string, r: string, id: int)
    requires Sound(h, x) && Resolve(x.blobMap, r) == Some(id) && id != 0
    ensures var y := Execute(h, up, x, Slot(name, r));
      && y.ok && Sound(h, y.state) && y.state.blobMap == x.blobMap
      && y.state.s.b.item.blobs == x.s.b.item.blobs
      && y.state.s.version.slots == x.s.version.slots[name := id]
  {
    CallSound(h, x, R.SetSlot(name, id));
  }

  lemma MimeTypeSets(h: Hasher, up: map<string, Upload>, x: Exec, id: nat, mimeType: string)
    requires Sound(h, x) && id <= MAX_INT
    ensures var y := Execute(h, up, x, MimeType(FormatInt(id), mimeType));
      && y.ok && Sound(h, y.state) && y.state.blobMap == x.blobMap
      && Grown(x.s.b.item.blobs, y.state.s.b.item.blobs) && y.state.s.version == x.s.version
  {
    NumberReadBack(id);
    MimeTypeKeeps(h, x, id, mimeType);
  }

  lemma RunOne(h: Hasher, up: map<string, Upload>, x: Exec, item: string, a: Action)
    ensures ExecuteAll(h, up, x, CommandsOf(item, [a])) == Execute(h, up, x, Meaning(item, a))
  {
    ParseCommand(item, a);
    assert ExecuteAll(h, up, x, []).ok;
    ExecuteNext(h, up, x, [], CommandOf(item, a));
    assert CommandsOf(item, [a]) == [] + [CommandOf(item, a)];
  }

  lemma RunTwo(h: Hasher, up: map<string, Upload>, x: Exec, item: string, a: Action, b: Action)
    requires Execute(h, up, x, Meaning(item, a)).ok
    ensures ExecuteAll(h, up, x, CommandsOf(item, [a, b]))
         == Execute(h, up, Execute(h, up, x, Meaning(item, a)).state, Meaning(item, b))
  {
    RunOne(h, up, x, item, a);
    ParseCommand(item, b);
    ExecuteNext(h, up, x, CommandsOf(item, [a]), CommandOf(item, b));
    assert CommandsOf(item, [a, b]) == CommandsOf(item, [a]) + [CommandOf(item, b)];
  }

  // ---- one file

  /** The name is slotted to the blob the client was led to or, when it was led to none, to one with the
      file's content. */
  predicate Sent(x: Exec, name: string, md5: Bytes, led: int) {
    && name in x.s.version.slots
    && if led > 0 then x.s.version.slots[name] == led else Good(x.s.b.item.blobs, x.s.version.slots[name], md5)
  }

  /** The files marked as known have been added in this transaction. */
  ghost predicate MarksGood(item: string, x: Exec, marks: map<string, int>) {
    && (forall k :: k in marks ==> marks[k] == -1)
    && (forall k :: k in x.blobMap ==> '-' in k)
    && (forall m: Hash :: HexEncode(m) in marks ==> Added(item, x, m))
  }

  predicate Added(item: string, x: Exec, md5: Hash) {
    FileID(item, md5) in x.blobMap && Good(x.s.b.item.blobs, x.blobMap[FileID(item, md5)], md5)
  }

  /** What the commands for one file do. */
  ghost predicate Settled(h: Hasher, item: string, x: Exec, y: Exec, name: string, md5: Hash, led: int,
                          marks: map<string, int>)
  {
    && Sound(h, y) && Grown(x.s.b.item.blobs, y.s.b.item.blobs)
    && (y.s.version.slots == x.s.version.slots
        || (name in y.s.version.slots && y.s.version.slots == x.s.version.slots[name := y.s.version.slots[name]]))
    && Sent(y, name, md5, led) && MarksGood(item, y, marks)
  }

  lemma MarksGrown(item: string, x: Exec, y: Exec, marks: map<string, int>)
    requires MarksGood(item, x, marks) && y.blobMap == x.blobMap && Grown(x.s.b.item.blobs, y.s.b.item.blobs)
    ensures MarksGood(item, y, marks)
  {
    forall m: Hash | HexEncode(m) in marks
      ensures Added(item, y, m)
    {
      assert Added(item, x, m);
      GoodGrown(x.s.b.item.blobs, y.s.b.item.blobs, x.blobMap[FileID(item, m)], m);
    }
  }

  lemma GrownSelf(a: seq<Blob>)
    ensures Grown(a, a)
  {
  }

  /** A file whose slot leads to its content, as far as the client can tell. */
  lemma UnchangedSettles(h: Hasher, up: map<string, Upload>, item: string, x: Exec, name: string, f: File, r: File,
                         marks: map<string, int>)
    requires Sound(h, x) && MarksGood(item, x, marks) && Sent(x, name, f.md5, r.blobID) && 1 <= r.blobID <= MAX_INT
    ensures var todo :=
        if f.mimeType != "" && f.mimeType != r.mimeType then [UpdateMimeType(r.blobID, f.mimeType)] else [];
      var y := ExecuteAll(h, up, x, CommandsOf(item, todo));
      y.ok && Settled(h, item, x, y.state, name, f.md5, r.blobID, marks)
  {
    GrownSelf(x.s.b.item.blobs);
    if f.mimeType != "" && f.mimeType != r.mimeType {
      var a := UpdateMimeType(r.blobID, f.mimeType);
      RunOne(h, up, x, item, a);
      MimeTypeSets(h, up, x, r.blobID, f.mimeType);
      MarksGrown(item, x, Execute(h, up, x, Meaning(item, a)).state, marks);
    }
  }

  /** A file whose MD5 leads to a blob of the item. */
  lemma KnownSettles(h: Hasher, up: map<string, Upload>, item: string, x: Exec, name: string, id: int, md5: Hash,
                     marks: map<string, int>)
    requires Sound(h, x) && MarksGood(item, x, marks) && 0 < id <= MAX_INT
    ensures var y := ExecuteAll(h, up, x, CommandsOf(item, [UpdateFile(name, id, "")]));
      y.ok && Settled(h, item, x, y.state, name, md5, id, marks)
  {
    var a := UpdateFile(name, id, "");
    RunOne(h, up, x, item, a);
    NumberReadBack(id);
    SlotSets(h, up, x, name, FormatInt(id), id);
    GrownSelf(x.s.b.item.blobs);
    MarksGrown(item, x, Execute(h, up, x, Meaning(item, a)).state, marks);
  }

  /** A file whose content this transaction has already added. */
  lemma AddedSettles(h: Hasher, up: map<string, Upload>, item: string, x: Exec, name: string, md5: Hash,
                     marks: map<string, int>)
    requires Sound(h, x) && MarksGood(item, x, marks) && HexEncode(md5) in marks
    ensures var y := Execute(h, up, x, Meaning(item, UpdateFile(name, 0, md5)));
      y.ok && Settled(h, item, x, y.state, name, md5, 0, marks)
  {
    assert Added(item, x, md5);
    SlotSets(h, up, x, name, FileID(item, md5), x.blobMap[FileID(item, md5)]);
    GrownSelf(x.s.b.item.blobs);
    MarksGrown(item, x, Execute(h, up, x, Meaning(item, UpdateFile(name, 0, md5))).state, marks);
  }

  lemma AddMarks(item: string, x: Exec, y: Exec, md5: Hash, marks: map<string, int>)
    requires MarksGood(item, x, marks) && Grown(x.s.b.item.blobs, y.s.b.item.blobs) && Added(item, y, md5)
    requires y.blobMap == x.blobMap[FileID(item, md5) := y.blobMap[FileID(item, md5)]]
    ensures MarksGood(item, y, marks[HexEncode(md5) := -1])
  {
    FileIDHasDash(item, md5);
    forall m: Hash | HexEncode(m) in marks[HexEncode(md5) := -1]
      ensures Added(item, y, m)
    {
      if HexEncode(m) == HexEncode(md5) {
        HexInjective(m, md5);
      } else {
        assert Added(item, x, m);
        if FileID(item, m) == FileID(item, md5) { FileIDInjective(item, m, md5); }
        GoodGrown(x.s.b.item.blobs, y.s.b.item.blobs, x.blobMap[FileID(item, m)], m);
      }
    }
  }

  /** A file whose content is new to the item. */
  lemma NewSettles(h: Hasher, up: map<string, Upload>, item: string, x: Exec, name: string, f: File,
                   marks: map<string, int>)
    requires Sound(h, x) && MarksGood(item, x, marks)
    requires FileID(item, f.md5) in up && Uploaded(h, up[FileID(item, f.md5)], f.md5)
    ensures var todo := [NewBlob(f.absPath, f.md5, f.mimeType), UpdateFile(name, 0, f.md5)];
      var y := ExecuteAll(h, up, x, CommandsOf(item, todo));
      y.ok && Settled(h, item, x, y.state, name, f.md5, 0, marks[HexEncode(f.md5) := -1])
  {
    var a, b := NewBlob(f.absPath, f.md5, f.mimeType), UpdateFile(name, 0, f.md5);
    AddStores(h, up, x, FileID(item, f.md5), f.md5);
    RunTwo(h, up, x, item, a, b);
    var y := Execute(h, up, x, Meaning(item, a)).state;
    AddMarks(item, x, y, f.md5, marks);
    AddedSettles(h, up, item, y, name, f.md5, marks[HexEncode(f.md5) := -1]);
    var z := Execute(h, up, y, Meaning(item, b)).state;
    GrownTransitive(x.s.b.item.blobs, y.s.b.item.blobs, z.s.b.item.blobs);
  }
}
