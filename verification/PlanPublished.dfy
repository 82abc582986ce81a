/** From the local tree to what readers get: the plan is executed, the writer closed, and the newest
    version read back. */
module PlanPublished {
  import opened Prelude
  import opened Names
  import opened ItemModel
  import opened ItemClose
  import R = ItemRuns
  import opened Commands
  import opened Planner
  import opened PlanCorrect
  import opened PlanTheorem

  lemma KeepsDeletions(h: Hasher, up: map<string, Upload>, x: Exec, c: Cmd)
    requires !c.Delete?
    ensures Execute(h, up, x, c).state.s.del == x.s.del
  {
  }

  lemma {:induction false} NothingDeleted(h: Hasher, up: map<string, Upload>, x: Exec, item: string, todo: seq<Action>)
    requires ExecuteAll(h, up, x, CommandsOf(item, todo)).ok
    ensures ExecuteAll(h, up, x, CommandsOf(item, todo)).state.s.del == x.s.del
  {
    if todo != [] {
      var front, last := todo[..|todo| - 1], todo[|todo| - 1];
      assert CommandsOf(item, todo)[..|todo| - 1] == CommandsOf(item, front);
      NothingDeleted(h, up, x, item, front);
      ParseCommand(item, last);
      KeepsDeletions(h, up, ExecuteAll(h, up, x, CommandsOf(item, front)).state, Meaning(item, last));
    }
  }

  /** Closing a session that deletes nothing commits the blobs and versions it has. */
  lemma PlainClose(h: Hasher, s: Session, faults: Faults)
    requires s.del == [] && s.bdel == []
    ensures Marked(s).1 == map[]
    ensures var c := CloseWriter(h, s, [], faults);
      && c.ok && c.state.b.item.blobs == s.b.item.blobs
      && c.state.b.item.versions == s.b.item.versions + [s.version]
  {
  }

  /** What a reader of slot `name` of the newest version gets. */
  function ReadSlot(disk: Disk, item: Item, name: string): R.BlobRead
    requires item.versions != []
  {
    var slots := item.versions[|item.versions| - 1].slots;
    R.ReadBlob(disk, item.blobs, if name in slots then slots[name] else 0)
  }

  /** After the upload has been committed, reading a local name from the store gives content with the local
      MD5, for every name the client was led right for; Close cannot fail. */
  lemma UploadedTreeReads(h: Hasher, up: map<string, Upload>, item: string, local: FileList, remote: Option<FileList>,
                          files: seq<string>, x0: Exec, faults: Faults, name: string)
    requires LocalTree(local, files) && Sound(h, x0) && x0.blobMap == map[] && x0.s.del == []
    requires RemoteOf(remote, x0.s) && |x0.s.b.item.blobs| <= MAX_INT
    requires AllUploaded(h, up, item, ResolveLocal(local, remote, files, |files|).0)
    requires name in local.files && LedRight(remote, x0.s, name, local.files[name])
    ensures var y := ExecuteAll(h, up, x0, CommandsOf(item, ResolveLocal(local, remote, files, |files|).0)).state;
      var c := CloseWriter(h, y.s, [], faults);
      && c.ok && c.state.b.item.versions != [] && Loads(c.state.b.disk, c.state.b.item)
      && match ReadSlot(c.state.b.disk, c.state.b.item, name)
         case Content(data) => h.md5(data) == local.files[name].md5
         case _ => false
  {
    var todo := ResolveLocal(local, remote, files, |files|).0;
    var y := ExecuteAll(h, up, x0, CommandsOf(item, todo)).state;
    PlanReachesTree(h, up, item, local, remote, files, x0);
    NothingDeleted(h, up, x0, item, todo);
    PlanIsSound(h, up, item, local, remote, files, x0);
    PlainClose(h, y.s, faults);
    ClosedReads(h, y, faults, name, local.files[name].md5);
  }

  lemma PlanIsSound(h: Hasher, up: map<string, Upload>, item: string, local: FileList, remote: Option<FileList>,
                    files: seq<string>, x0: Exec)
    requires LocalTree(local, files) && Sound(h, x0) && x0.blobMap == map[]
    requires RemoteOf(remote, x0.s) && |x0.s.b.item.blobs| <= MAX_INT
    requires AllUploaded(h, up, item, ResolveLocal(local, remote, files, |files|).0)
    ensures Sound(h, ExecuteAll(h, up, x0, CommandsOf(item, ResolveLocal(local, remote, files, |files|).0)).state)
  {
    PlanPartway(h, up, item, local, remote, files, |files|, x0);
  }

  lemma ClosedReads(h: Hasher, y: Exec, faults: Faults, name: string, md5: Hash)
    requires Sound(h, y) && Shows(h, y, name, md5) && y.s.del == []
    ensures var b := CloseWriter(h, y.s, [], faults).state.b;
      b.item.versions != [] && Loads(b.disk, b.item)
      && ReadSlot(b.disk, b.item, name) == R.Content(y.orig[y.s.version.slots[name] - 1])
  {
    PlainClose(h, y.s, faults);
    CloseSafe(h, y.s, [], faults, y.orig);
    var b := CloseWriter(h, y.s, [], faults).state.b;
    SettledDurable(h, b, y.orig);
    R.DurableReads(h, b.disk, y.orig, b.item.maxBundle, y.s.version.slots[name]);
  }
}
