/** The plan as a whole: the main theorem, and which contents it uploads. */
module PlanTheorem {
  import opened Prelude
  import opened Names
  import opened BagText
  import opened ItemModel
  import opened ItemSafety
  import R = ItemRuns
  import opened ItemHashes
  import opened Commands
  import opened Planner
  import opened PlanCorrect

  /** The server's description of the item a session is open on. */
  ghost predicate Describes(d: Described, s: Session) {
    && |d.blobs| == |s.b.item.blobs|
    && (forall i :: 0 <= i < |d.blobs| ==>
          d.blobs[i].id == s.b.item.blobs[i].id && d.blobs[i].md5 == s.b.item.blobs[i].md5)
    && Slots(d) == s.version.slots
  }

  /** What planning may rely on: the remote list is that of the item itself, or the client has none. */
  ghost predicate RemoteOf(remote: Option<FileList>, s: Session) {
    remote == None || exists d: Described :: !Dangling(d) && Describes(d, s) && remote == Some(Index(d))
  }

  /** A local tree as it is read: every file has an MD5, and no blob is marked yet. */
  ghost predicate LocalTree(local: FileList, order: seq<string>) {
    && IsOrder(order, local.files.Keys) && local.blobs == map[]
    && forall name :: name in local.files ==> local.files[name].md5 != ""
  }

  /** UploadBlobs has sent every new blob. */
  ghost predicate AllUploaded(h: Hasher, up: map<string, Upload>, item: string, todo: seq<Action>) {
    forall i :: 0 <= i < |todo| && todo[i].NewBlob? ==> SentAs(h, up, FileID(item, todo[i].md5), todo[i].md5)
  }

  ghost predicate SentAs(h: Hasher, up: map<string, Upload>, file: string, md5: Hash) {
    file in up && Uploaded(h, up[file], md5)
  }

  /** The blob the remote list leads the client to for a local file; 0 when it leads nowhere. */
  function Led(remote: Option<FileList>, name: string, f: File): int {
    if remote == None then 0
    else if Unchanged(remote.value, name, f) then remote.value.files[name].blobID
    else if Lookup(remote.value.blobs, HexEncode(f.md5)) > 0 then Lookup(remote.value.blobs, HexEncode(f.md5))
    else 0
  }

  /** The client is led to a live blob with the file's MD5, or uploads the file. */
  predicate LedRight(remote: Option<FileList>, s: Session, name: string, f: File) {
    Led(remote, name, f) == 0 || Good(s.b.item.blobs, Led(remote, name, f), f.md5)
  }

  /** Where the client is led is a blob of the item and, for an unchanged file, where its slot is. */
  ghost predicate Located(remote: Option<FileList>, s: Session, name: string, f: File) {
    && 0 <= Led(remote, name, f) <= |s.b.item.blobs|
    && (remote != None && Unchanged(remote.value, name, f) ==>
          name in s.version.slots && s.version.slots[name] == Led(remote, name, f) > 0)
  }

  lemma RemoteIsLocated(remote: Option<FileList>, s: Session, name: string, f: File)
    requires RemoteOf(remote, s) && Numbered(s.b.item.blobs)
    ensures Located(remote, s, name, f)
  {
    if remote != None {
      var d: Described :| !Dangling(d) && Describes(d, s) && remote == Some(Index(d));
      if HexEncode(f.md5) in ByHash(d.blobs) {
        ByHashFinds(d.blobs, f.md5);
        var i :| 0 <= i < |d.blobs| && ByHash(d.blobs)[HexEncode(f.md5)] == d.blobs[i].id;
        assert s.b.item.blobs[i].id == i + 1;
      }
    }
  }

  ghost predicate SameSlot(a: map<string, int>, b: map<string, int>, name: string) {
    (name in a <==> name in b) && (name in a ==> a[name] == b[name])
  }

  predicate SentFile(x: Exec, remote: Option<FileList>, name: string, f: File) {
    Sent(x, name, f.md5, Led(remote, name, f))
  }

  /** After the first j files. */
  ghost predicate Partway(h: Hasher, item: string, local: FileList, remote: Option<FileList>, order: seq<string>,
                          j: nat,
                          marks: map<string, int>, x0: Exec, x: Exec)
    requires j <= |order| && forall name :: name in order ==> name in local.files
  {
    && Sound(h, x) && Grown(x0.s.b.item.blobs, x.s.b.item.blobs) && MarksGood(item, x, marks)
    && (forall i :: 0 <= i < j ==> SentFile(x, remote, order[i], local.files[order[i]]))
    && (forall name :: name !in order[..j] ==> SameSlot(x0.s.version.slots, x.s.version.slots, name))
  }

  lemma NextFile(h: Hasher, item: string, local: FileList, remote: Option<FileList>, order: seq<string>, j: nat,
                 marks: map<string, int>, marks': map<string, int>, x0: Exec, x: Exec, y: Exec)
    requires j < |order| && Distinct(order) && forall name :: name in order ==> name in local.files
    requires Partway(h, item, local, remote, order, j, marks, x0, x)
    requires var f := local.files[order[j]];
      Settled(h, item, x, y, order[j], f.md5, Led(remote, order[j], f), marks')
    ensures Partway(h, item, local, remote, order, j + 1, marks', x0, y)
  {
    GrownTransitive(x0.s.b.item.blobs, x.s.b.item.blobs, y.s.b.item.blobs);
    forall i | 0 <= i < j + 1
      ensures SentFile(y, remote, order[i], local.files[order[i]])
    {
      if i < j {
        assert SentFile(x, remote, order[i], local.files[order[i]]) && order[i] != order[j];
        if Led(remote, order[i], local.files[order[i]]) <= 0 {
          GoodGrown(x.s.b.item.blobs, y.s.b.item.blobs, x.s.version.slots[order[i]], local.files[order[i]].md5);
        }
      }
    }
    forall name | name !in order[..j + 1]
      ensures SameSlot(x0.s.version.slots, y.s.version.slots, name)
    {
      assert order[j] in order[..j + 1];
      assert name !in order[..j];
    }
  }

  /** The commands for one file, whichever of its cases it falls in. */
  lemma OneSettles(h: Hasher, up: map<string, Upload>, item: string, remote: Option<FileList>, marks: map<string, int>,
                   name: string, f: File, x0: Exec, x: Exec)
    requires Sound(h, x) && MarksGood(item, x, marks)
    requires Located(remote, x0.s, name, f) && SameSlot(x0.s.version.slots, x.s.version.slots, name)
    requires |x0.s.b.item.blobs| <= MAX_INT
    requires AllUploaded(h, up, item, ResolveOne(remote, marks, name, f).0)
    ensures var (todo, marks') := ResolveOne(remote, marks, name, f);
      var y := ExecuteAll(h, up, x, CommandsOf(item, todo));
      y.ok && Settled(h, item, x, y.state, name, f.md5, Led(remote, name, f), marks')
  {
    var hex := HexEncode(f.md5);
    if remote != None && Unchanged(remote.value, name, f) {
      UnchangedSettles(h, up, item, x, name, f, remote.value.files[name], marks);
    } else if remote != None && Lookup(remote.value.blobs, hex) > 0 {
      KnownSettles(h, up, item, x, name, Lookup(remote.value.blobs, hex), f.md5, marks);
    } else if Lookup(marks, hex) == 0 {
      assert ResolveOne(remote, marks, name, f).0[0].NewBlob?;
      NewSettles(h, up, item, x, name, f, marks);
    } else {
      RunOne(h, up, x, item, UpdateFile(name, 0, f.md5));
      AddedSettles(h, up, item, x, name, f.md5, marks);
    }
  }

  lemma UploadedParts(h: Hasher, up: map<string, Upload>, item: string, a: seq<Action>, b: seq<Action>)
    requires AllUploaded(h, up, item, a + b)
    ensures AllUploaded(h, up, item, a) && AllUploaded(h, up, item, b)
  {
    forall i | 0 <= i < |a| && a[i].NewBlob?
      ensures SentAs(h, up, FileID(item, a[i].md5), a[i].md5)
    {
      assert (a + b)[i] == a[i];
    }
    forall i | 0 <= i < |b| && b[i].NewBlob?
      ensures SentAs(h, up, FileID(item, b[i].md5), b[i].md5)
    {
      assert (a + b)[|a| + i] == b[i];
    }
  }

  /** What the first j files ask of the server brings the item partway. */
  ghost predicate BringsPartway(h: Hasher, up: map<string, Upload>, item: string, local: FileList,
                                remote: Option<FileList>, order: seq<string>, j: nat, x0: Exec)
    requires j <= |order| && forall name :: name in order ==> name in local.files
  {
    var (todo, marks) := ResolveLocal(local, remote, order, j);
    var y := ExecuteAll(h, up, x0, CommandsOf(item, todo));
    y.ok && Partway(h, item, local, remote, order, j, marks, x0, y.state)
  }

  lemma PlanStep(h: Hasher, up: map<string, Upload>, item: string, local: FileList, remote: Option<FileList>,
                 order: seq<string>, j: nat, x0: Exec)
    requires j < |order| && LocalTree(local, order) && BringsPartway(h, up, item, local, remote, order, j, x0)
    requires Located(remote, x0.s, order[j], local.files[order[j]]) && |x0.s.b.item.blobs| <= MAX_INT
    requires AllUploaded(h, up, item, ResolveLocal(local, remote, order, j + 1).0)
    ensures BringsPartway(h, up, item, local, remote, order, j + 1, x0)
  {
    var (before, marks) := ResolveLocal(local, remote, order, j);
    var name, f := order[j], local.files[order[j]];
    var (more, marks') := ResolveOne(remote, marks, name, f);
    UploadedParts(h, up, item, before, more);
    var x := ExecuteAll(h, up, x0, CommandsOf(item, before)).state;
    assert name !in order[..j];
    OneSettles(h, up, item, remote, marks, name, f, x0, x);
    var y := ExecuteAll(h, up, x, CommandsOf(item, more)).state;
    NextFile(h, item, local, remote, order, j, marks, marks', x0, x, y);
    CommandsOfConcat(item, before, more);
    ExecuteConcat(h, up, x0, CommandsOf(item, before), CommandsOf(item, more));
  }

  lemma PlanNext(h: Hasher, up: map<string, Upload>, item: string, local: FileList, remote: Option<FileList>,
                 order: seq<string>, j: nat, x0: Exec)
    requires j < |order| && LocalTree(local, order) && BringsPartway(h, up, item, local, remote, order, j, x0)
    requires RemoteOf(remote, x0.s) && Sound(h, x0) && |x0.s.b.item.blobs| <= MAX_INT
    requires AllUploaded(h, up, item, ResolveLocal(local, remote, order, j + 1).0)
    ensures BringsPartway(h, up, item, local, remote, order, j + 1, x0)
  {
    RemoteIsLocated(remote, x0.s, order[j], local.files[order[j]]);
    PlanStep(h, up, item, local, remote, order, j, x0);
  }

  lemma UploadedBefore(h: Hasher, up: map<string, Upload>, item: string, local: FileList, remote: Option<FileList>,
                       order: seq<string>, j: nat)
    requires j < |order| && forall name :: name in order ==> name in local.files
    requires AllUploaded(h, up, item, ResolveLocal(local, remote, order, j + 1).0)
    ensures AllUploaded(h, up, item, ResolveLocal(local, remote, order, j).0)
  {
    var (before, marks) := ResolveLocal(local, remote, order, j);
    UploadedParts(h, up, item, before, ResolveOne(remote, marks, order[j], local.files[order[j]]).0);
  }

  lemma PlanStart(h: Hasher, up: map<string, Upload>, item: string, local: FileList, remote: Option<FileList>,
                  order: seq<string>, x0: Exec)
    requires LocalTree(local, order) && Sound(h, x0) && x0.blobMap == map[]
    ensures BringsPartway(h, up, item, local, remote, order, 0, x0)
  {
    GrownSelf(x0.s.b.item.blobs);
    assert CommandsOf(item, []) == [] && MarksGood(item, x0, map[]);
  }

  lemma {:induction false} PlanPartway(h: Hasher, up: map<string, Upload>, item: string, local: FileList,
                                       remote: Option<FileList>, order: seq<string>, j: nat, x0: Exec)
    requires LocalTree(local, order) && j <= |order| && Sound(h, x0) && x0.blobMap == map[]
    requires RemoteOf(remote, x0.s) && |x0.s.b.item.blobs| <= MAX_INT
    requires AllUploaded(h, up, item, ResolveLocal(local, remote, order, j).0)
    ensures BringsPartway(h, up, item, local, remote, order, j, x0)
  {
    if j == 0 {
      PlanStart(h, up, item, local, remote, order, x0);
    } else {
      UploadedBefore(h, up, item, local, remote, order, j - 1);
      PlanPartway(h, up, item, local, remote, order, j - 1, x0);
      PlanNext(h, up, item, local, remote, order, j - 1, x0);
    }
  }

  /** The name is slotted to a live blob with this MD5, whose first bytes hash to it. */
  ghost predicate Shows(h: Hasher, x: Exec, name: string, md5: Hash) {
    && name in x.s.version.slots
    && Good(x.s.b.item.blobs, x.s.version.slots[name], md5)
    && x.s.version.slots[name] <= |x.orig|
    && h.md5(x.orig[x.s.version.slots[name] - 1]) == md5
  }

  lemma SentShows(h: Hasher, x: Exec, name: string, f: File, remote: Option<FileList>, x0: Exec)
    requires Sound(h, x) && Grown(x0.s.b.item.blobs, x.s.b.item.blobs) && SentFile(x, remote, name, f)
    requires Located(remote, x0.s, name, f)
    ensures Shows(h, x, name, f.md5) <==> LedRight(remote, x0.s, name, f)
  {
    var id := x.s.version.slots[name];
    if Good(x.s.b.item.blobs, id, f.md5) {
      assert Valid(h, x.s.b.item.blobs[id - 1], x.orig[id - 1]);
    }
    if Led(remote, name, f) > 0 { GoodGrown(x0.s.b.item.blobs, x.s.b.item.blobs, id, f.md5); }
  }

  /** Plan correctness: for any local tree and any order its map yields, executing the planned commands on
      the item they were planned for succeeds and leaves all other slots as they were; a local name shows
      the local content exactly when the remote list led the client to a live blob with its MD5, or to none. */
  lemma PlanReachesTree(h: Hasher, up: map<string, Upload>, item: string, local: FileList, remote: Option<FileList>,
                        order: seq<string>, x0: Exec)
    requires LocalTree(local, order) && Sound(h, x0) && x0.blobMap == map[]
    requires RemoteOf(remote, x0.s) && |x0.s.b.item.blobs| <= MAX_INT
    requires AllUploaded(h, up, item, ResolveLocal(local, remote, order, |order|).0)
    ensures var y := ExecuteAll(h, up, x0, CommandsOf(item, ResolveLocal(local, remote, order, |order|).0));
      && y.ok
      && (forall name :: name in local.files ==>
            (Shows(h, y.state, name, local.files[name].md5) <==> LedRight(remote, x0.s, name, local.files[name])))
      && (forall name :: name !in local.files ==> SameSlot(x0.s.version.slots, y.state.s.version.slots, name))
  {
    PlanPartway(h, up, item, local, remote, order, |order|, x0);
    var (todo, marks) := ResolveLocal(local, remote, order, |order|);
    PartwayShows(h, item, local, remote, order, marks, x0, ExecuteAll(h, up, x0, CommandsOf(item, todo)).state);
  }

  lemma PartwayShows(h: Hasher, item: string, local: FileList, remote: Option<FileList>, order: seq<string>,
                     marks: map<string, int>, x0: Exec, x: Exec)
    requires LocalTree(local, order) && Partway(h, item, local, remote, order, |order|, marks, x0, x)
    requires RemoteOf(remote, x0.s) && Numbered(x0.s.b.item.blobs)
    ensures forall name :: name in local.files ==>
      (Shows(h, x, name, local.files[name].md5) <==> LedRight(remote, x0.s, name, local.files[name]))
    ensures forall name :: name !in local.files ==> SameSlot(x0.s.version.slots, x.s.version.slots, name)
  {
    assert order[..|order|] == order;
    forall name | name in local.files
      ensures Shows(h, x, name, local.files[name].md5) <==> LedRight(remote, x0.s, name, local.files[name])
    {
      var i :| 0 <= i < |order| && order[i] == name;
      RemoteIsLocated(remote, x0.s, order[i], local.files[order[i]]);
      SentShows(h, x, order[i], local.files[order[i]], remote, x0);
    }
  }

  // ---- when the client is led right

  /** No deleted blob has the MD5 of a local file, and no path spells one. */
  ghost predicate NoConfusion(local: FileList, d: Described, s: Session) {
    forall name :: name in local.files ==>
      && HexEncode(local.files[name].md5) !in Slots(d)
      && forall i :: 0 <= i < |s.b.item.blobs| && s.b.item.blobs[i].md5 == local.files[name].md5 ==>
           s.b.item.blobs[i].bundle != 0
  }

  lemma FoundByHash(d: Described, s: Session, f: File)
    requires !Dangling(d) && Describes(d, s) && Numbered(s.b.item.blobs)
    requires HexEncode(f.md5) !in Slots(d) && HexEncode(f.md5) in Index(d).blobs
    ensures var id := Index(d).blobs[HexEncode(f.md5)];
      1 <= id <= |s.b.item.blobs| && s.b.item.blobs[id - 1].id == id && s.b.item.blobs[id - 1].md5 == f.md5
  {
    assert HexEncode(f.md5) in ByHash(d.blobs);
    ByHashFinds(d.blobs, f.md5);
    var i :| 0 <= i < |d.blobs| && d.blobs[i].md5 == f.md5 && ByHash(d.blobs)[HexEncode(f.md5)] == d.blobs[i].id;
    assert s.b.item.blobs[i].id == i + 1;
  }

  /** Without such confusions every local file is led right, so the plan reaches the whole tree. */
  lemma NoConfusionLeadsRight(local: FileList, d: Described, s: Session, name: string)
    requires !Dangling(d) && Describes(d, s) && NoConfusion(local, d, s) && name in local.files
    requires Numbered(s.b.item.blobs)
    ensures LedRight(Some(Index(d)), s, name, local.files[name])
  {
    var f := local.files[name];
    assert HexEncode(f.md5) !in Slots(d);
    if Unchanged(Index(d), name, f) {
      var id := Slots(d)[name];
      assert d.blobs[id - 1].md5 == f.md5 && s.b.item.blobs[id - 1].id == id;
    } else if Lookup(Index(d).blobs, HexEncode(f.md5)) > 0 {
      FoundByHash(d, s, f);
    }
  }

  /** Every session of a run in which no failed read has missed can be planned for. */
  lemma RunIsSound(h: Hasher, ws: seq<R.World>, es: seq<R.Event>, i: nat)
    requires R.IsRun(h, ws, es) && R.TearsSealed(h, ws, es) && i < |ws| && NoneMisses(h, ws, es, i) && ws[i].Busy?
    ensures Sound(h, Exec(ws[i].session, map[], ws[i].orig))
  {
    R.RunSafe(h, ws, es, i);
    RunHashed(h, ws, es, i);
  }
}
