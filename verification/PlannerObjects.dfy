/** File lists as objects, and the planner's loops over them. */
module PlannerObjects {
  import opened Prelude
  import opened BagText
  import T = TxModel
  import opened Planner

  class FileListObject {
    var files: map<string, File>
    var blobs: map<string, int>

    function State(): FileList
      reads this
    {
      FileList(files, blobs)
    }

    constructor ()
      ensures State() == FileList(map[], map[])
    {
      files, blobs := map[], map[];
    }

    method AddFile(name: string, f: File)
      modifies `files
      ensures files == MergeAll(old(files), [(name, f)])
    {
      var info := if name in files then files[name] else NO_FILE;
      if f.absPath != "" { info := info.(absPath := f.absPath); }
      if f.md5 != "" {
        if info.md5 == "" || info.md5 == f.md5 { info := info.(md5 := f.md5); }
      }
      if f.sha256 != "" {
        if info.sha256 == "" || info.sha256 == f.sha256 { info := info.(sha256 := f.sha256); }
      }
      if f.mimeType != "" { info := info.(mimeType := f.mimeType); }
      if f.blobID != 0 { info := info.(blobID := f.blobID); }
      files := files[name := info];
      assert MergeAll(old(files), [(name, f)][..0]) == old(files);
    }

    method AddFiles(found: seq<(string, File)>)
      modifies `files
      ensures files == MergeAll(old(files), found)
    {
      for i := 0 to |found|
        invariant files == MergeAll(old(files), found[..i])
      {
        assert found[..i + 1][..i] == found[..i];
        MergeAllNext(old(files), found[..i], found[i]);
        AddFile(found[i].0, found[i].1);
      }
      assert found[..|found|] == found;
    }

    method AddBlobs(d: Described)
      requires blobs == map[]
      modifies `blobs
      ensures blobs == ByHash(d.blobs)
    {
      for i := 0 to |d.blobs|
        invariant blobs == ByHash(d.blobs[..i])
      {
        assert d.blobs[..i + 1][..i] == d.blobs[..i];
        blobs := blobs[HexEncode(d.blobs[i].md5) := d.blobs[i].id];
      }
      assert d.blobs[..|d.blobs|] == d.blobs;
    }

    /** The loop over the slots of the newest version; `order` is how the map is ranged over. */
    method AddSlots(d: Described, slots: map<string, int>, order: seq<string>) returns (ok: bool)
      requires slots == Slots(d) && IsOrder(order, slots.Keys)
      requires files == map[] && blobs == ByHash(d.blobs)
      modifies this
      ensures ok <==> !Dangling(d)
      ensures ok ==> State() == Index(d)
    {
      ghost var byHash := blobs;
      for i := 0 to |order|
        invariant SlotsTaken(d, Seen(order, i), byHash, State())
      {
        var key := order[i];
        var blobID := slots[key];
        if !(1 <= blobID <= |d.blobs|) {
          return false;
        }
        var info := if key in files then files[key] else NO_FILE;
        SeenNext(order, i);
        SlotsTakenNext(d, Seen(order, i), key, byHash, State());
        files := files[key := info.(blobID := blobID, md5 := d.blobs[blobID - 1].md5,
                                    mimeType := d.blobs[blobID - 1].mimeType)];
        blobs := blobs[key := blobID];
      }
      SlotsTakenAll(d, order, State());
      return true;
    }

    /** False stands for the index out of range that ends the original. */
    method BuildListFromJSON(d: Described, order: seq<string>) returns (ok: bool)
      requires State() == FileList(map[], map[]) && IsOrder(order, Slots(d).Keys)
      modifies this
      ensures ok <==> !Dangling(d)
      ensures ok ==> State() == Index(d)
    {
      AddBlobs(d);
      if d.versions == [] {
        return true;
      }
      ok := AddSlots(d, d.versions[|d.versions| - 1], order);
    }
  }

  function Seen(order: seq<string>, i: nat): set<string>
    requires i <= |order|
  {
    set k | k in order[..i]
  }

  lemma SeenNext(order: seq<string>, i: nat)
    requires Distinct(order) && i < |order|
    ensures order[i] !in Seen(order, i) && Seen(order, i + 1) == Seen(order, i) + {order[i]}
  {
    assert order[..i + 1] == order[..i] + [order[i]];
  }

  lemma MergeAllNext(files: map<string, File>, found: seq<(string, File)>, next: (string, File))
    ensures MergeAll(files, found + [next]) == MergeAll(MergeAll(files, found), [next])
  {
    assert (found + [next])[..|found|] == found;
    assert MergeAll(MergeAll(files, found), [next][..0]) == MergeAll(files, found);
  }

  /** The slots seen so far are in the list. */
  ghost predicate SlotsTaken(d: Described, seen: set<string>, byHash: map<string, int>, f: FileList) {
    && seen <= Slots(d).Keys
    && f.files.Keys == seen && f.blobs.Keys == byHash.Keys + seen
    && (forall k :: k in seen ==> 1 <= Slots(d)[k] <= |d.blobs|)
    && (forall k :: k in seen ==> f.files[k] == RemoteFile(d, Slots(d)[k]))
    && (forall k :: k in f.blobs ==> f.blobs[k] == if k in seen then Slots(d)[k] else byHash[k])
  }

  lemma SlotsTakenNext(d: Described, seen: set<string>, key: string, byHash: map<string, int>, f: FileList)
    requires SlotsTaken(d, seen, byHash, f) && key !in seen
    requires key in Slots(d) && 1 <= Slots(d)[key] <= |d.blobs|
    ensures key !in f.files
    ensures SlotsTaken(d, seen + {key}, byHash,
                       FileList(f.files[key := RemoteFile(d, Slots(d)[key])], f.blobs[key := Slots(d)[key]]))
  {
  }

  lemma SlotsTakenAll(d: Described, order: seq<string>, f: FileList)
    requires IsOrder(order, Slots(d).Keys) && SlotsTaken(d, Seen(order, |order|), ByHash(d.blobs), f)
    ensures !Dangling(d) && f == Index(d)
  {
    assert order[..|order|] == order;
    assert Seen(order, |order|) == Slots(d).Keys;
  }

  function StateOf(f: FileListObject?): Option<FileList>
    reads if f == null then {} else {f}
  {
    if f == null then None else Some(f.State())
  }

  method ResolveLocalBlobs(local: FileListObject, remote: FileListObject?, order: seq<string>)
    returns (todo: seq<Action>)
    requires local != remote && forall name :: name in order ==> name in local.files
    modifies local`blobs
    ensures (todo, local.blobs) == ResolveLocal(old(local.State()), StateOf(remote), order, |order|)
  {
    todo := [];
    for j := 0 to |order|
      invariant local.files == old(local.files)
      invariant (todo, local.blobs) == ResolveLocal(old(local.State()), StateOf(remote), order, j)
    {
      var localfile, info := order[j], local.files[order[j]];
      var hexMD5 := HexEncode(info.md5);
      ghost var before := todo;
      if remote != null {
        var remoteInfo := if localfile in remote.files then remote.files[localfile] else NO_FILE;
        if remoteInfo.md5 != "" && info.md5 == remoteInfo.md5 {
          assert before + [] == before;
          if info.mimeType != "" && info.mimeType != remoteInfo.mimeType {
            todo := todo + [UpdateMimeType(remoteInfo.blobID, info.mimeType)];
          }
          continue;
        }
        var id := Lookup(remote.blobs, hexMD5);
        if id > 0 {
          todo := todo + [UpdateFile(localfile, id, "")];
          continue;
        }
      }
      if Lookup(local.blobs, hexMD5) == 0 {
        local.blobs := local.blobs[hexMD5 := -1];
        todo := todo + [NewBlob(info.absPath, info.md5, info.mimeType)];
      }
      todo := todo + [UpdateFile(localfile, 0, info.md5)];
      assert todo == before + ResolveOne(StateOf(remote), ResolveLocal(old(local.State()), StateOf(remote), order, j).1,
                                         localfile, info).0;
    }
  }

  method MakeTransactionCommands(item: string, todo: seq<Action>) returns (cmds: seq<T.Command>)
    ensures cmds == CommandsOf(item, todo)
  {
    cmds := [];
    for i := 0 to |todo|
      invariant cmds == CommandsOf(item, todo[..i])
    {
      match todo[i]
      case NewBlob(_, md5, _) =>
        cmds := cmds + [["add", FileID(item, md5)]];
      case UpdateMimeType(id, mimeType) =>
        cmds := cmds + [["mimetype", FormatInt(id), mimeType]];
      case UpdateFile(name, id, md5) =>
        var fileID := FileID(item, md5);
        if id > 0 {
          fileID := FormatInt(id);
        }
        cmds := cmds + [["slot", name, fileID]];
    }
    assert todo[..|todo|] == todo;
  }
}
