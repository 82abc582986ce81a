/** Short runs that show why the conditions of the item theorems are needed. */
module ItemExamples {
  import opened Prelude
  import opened ItemModel
  import opened ItemSafety
  import opened ItemRuns

  ghost predicate Reached(h: Hasher, ws: seq<World>, es: seq<Event>, w: World) {
    IsRun(h, ws, es) && ws[|es|] == w
  }

  lemma Extend(h: Hasher, ws: seq<World>, es: seq<Event>, w: World, e: Event, w': World)
    returns (ws': seq<World>, es': seq<Event>)
    requires Reached(h, ws, es, w) && Next(h, w, e, w')
    ensures Reached(h, ws', es', w') && es' == es + [e] && ws' == ws + [w']
  {
    ws', es' := ws + [w'], es + [e];
    forall i | 0 <= i < |es'|
      ensures Next(h, ws'[i], es'[i], ws'[i + 1])
    {
      if i < |es| { assert Next(h, ws[i], es[i], ws[i + 1]); }
    }
  }

  const NEW_ITEM: Item := Item(0, [], [])

  /** A session on a new item, with nothing written yet. */
  function FirstSession(creator: string): Session {
    Session(Bundler(map[], [map[]], NEW_ITEM, Some([]), 0, 2), 0, [], Version(1, map[], creator, ""), [])
  }

  lemma OpenFirst(h: Hasher, creator: string) returns (ws: seq<World>, es: seq<Event>)
    ensures Reached(h, ws, es, Busy(FirstSession(creator), [])) && es == [Open(NEW_ITEM, creator)]
  {
    ws, es := [INITIAL], [];
    assert OpenWriter(map[], NEW_ITEM, creator) == FirstSession(creator);
    ws, es := Extend(h, ws, es, INITIAL, Open(NEW_ITEM, creator), Busy(FirstSession(creator), []));
  }

  // ---- a failed upload

  /** An upload that breaks off and is tried again: the second WriteBlob finds the first one's blob by the
      announced size and hash, returns it without error and stores nothing; its bytes are the truncated ones. */
  lemma RetryFindsTruncated(h: Hasher, creator: string, whole: Bytes, part: Bytes)
    returns (ws: seq<World>, es: seq<Event>)
    requires part < whole
    ensures IsRun(h, ws, es) && ws[|es|].Busy?
    ensures es == [Open(NEW_ITEM, creator), Do(Write(part, false, |whole|, h.md5(whole), ""))]
    ensures var (s, id) := WriteBlob(h, ws[|es|].session, whole, true, |whole|, h.md5(whole), "");
      && id == 1 && s == ws[|es|].session
      && OpenStream(EntriesOf(s.b, s.b.item.blobs[id - 1].bundle), id) == Some(part)
  {
    ws, es := OpenFirst(h, creator);
    var s := FirstSession(creator);
    var op := Write(part, false, |whole|, h.md5(whole), "");
    var blob := Blob(1, |whole|, h.md5(whole), h.sha256(part), 1, "", "", "");
    var s' := Apply(h, s, op);
    assert [] + [Entry(1, part)] == [Entry(1, part)];
    assert s'.b.item.blobs == [blob] && s'.b.zw == Some([Entry(1, part)]) && s'.b.n == 2;
    ws, es := Extend(h, ws, es, Busy(s, []), Do(op), Busy(s', [part]));
    assert FindBlobByHash([blob], |whole|, h.md5(whole), "") == 1;
  }

  // ---- a torn copy

  /** Being sealed means that no torn copy passes for the blob, now or when it has been deleted. */
  lemma SealedExactly(h: Hasher, blob: Blob, data: Bytes)
    ensures Sealed(h, blob, data) <==>
      forall p: Bytes :: p < data ==> !Passes(h, blob, p)
  {
    if Sealed(h, blob, data) {
      forall p: Bytes | p < data
        ensures !Passes(h, blob, p)
      {
        assert |p| == 0 ==> p == "";
      }
    }
    if forall p: Bytes :: p < data ==> !Passes(h, blob, p) {
      forall p: Bytes | p < data && (|p| == blob.size || p == "")
        ensures !(blob.md5 == h.md5(p) && blob.sha256 == h.sha256(p))
      {
        assert !Passes(h, blob, p);
      }
    }
  }

  predicate Passes(h: Hasher, blob: Blob, p: Bytes) {
    Valid(h, blob, p) || Valid(h, blob.(size := 0), p)
  }

  /** A blob whose record is true of its bytes is sealed, unless both its hashes are those of no bytes at all. */
  lemma TrueRecordsSealed(h: Hasher, blob: Blob, data: Bytes)
    requires Valid(h, blob, data)
    ensures Sealed(h, blob, data) <==> data == "" || blob.md5 != h.md5("") || blob.sha256 != h.sha256("")
  {
    if Sealed(h, blob, data) && data != "" { assert "" < data; }
  }

  // ---- a deleted file

  const NO_FAULTS: Faults := Faults((k, j) => false, (k, j, id) => None, k => false)

  /** The record of one file, stored and then deleted. */
  function Stored(h: Hasher, data: Bytes): Blob {
    Blob(1, |data|, h.md5(data), h.sha256(data), 1, "", "", "")
  }

  function Slotted(creator: string, name: string): Version {
    Version(1, map[name := 1], creator, "")
  }

  function AfterUpload(h: Hasher, creator: string, name: string, data: Bytes): Item {
    Item(1, [Stored(h, data)], [Slotted(creator, name)])
  }

  function UploadDisk(h: Hasher, creator: string, name: string, data: Bytes): Disk {
    var item := AfterUpload(h, creator, name, data);
    map[1 := Bundle([Entry(1, data)], Info(item.blobs, item.versions))]
  }

  function ToFirst(name: string): Op {
    Op.SetSlot(name, 1)
  }

  lemma Upload(h: Hasher, creator: string, name: string, data: Bytes) returns (ws: seq<World>, es: seq<Event>)
    ensures var disk, item := UploadDisk(h, creator, name, data), AfterUpload(h, creator, name, data);
      Reached(h, ws, es, Idle(disk, Some(item), [data]))
  {
    ws, es := OpenFirst(h, creator);
    var s := FirstSession(creator);
    var write := Write(data, true, 0, "", "");
    var s1 := Apply(h, s, write);
    assert [] + [Entry(1, data)] == [Entry(1, data)];
    assert s1.b == Bundler(map[], [map[]], Item(1, [Stored(h, data)], []), Some([Entry(1, data)]), |data|, 2);
    ws, es := Extend(h, ws, es, Busy(s, []), Do(write), Busy(s1, [data]));
    var s2 := Apply(h, s1, ToFirst(name));
    assert s2.version == Slotted(creator, name);
    ws, es := Extend(h, ws, es, Busy(s1, [data]), Do(ToFirst(name)), Busy(s2, [data]));
    assert Marked(s2).1 == map[];
    var c := CloseWriter(h, s2, [], NO_FAULTS).state.b;
    assert c.item == AfterUpload(h, creator, name, data) && c.disk == UploadDisk(h, creator, name, data);
    ws, es := Extend(h, ws, es, Busy(s2, [data]), Close([], NO_FAULTS), Idle(c.disk, Some(c.item), [data]));
  }

  function Emptied(creator: string): Version {
    Version(2, map[], creator, "")
  }

  function AfterDeletion(h: Hasher, creator: string, name: string, data: Bytes): Item {
    Item(2, [Deleted(Stored(h, data), Emptied(creator))], [Slotted(creator, name), Emptied(creator)])
  }

  function DeletionDisk(h: Hasher, creator: string, name: string, data: Bytes): Disk {
    var item := AfterDeletion(h, creator, name, data);
    map[2 := Bundle([], Info(item.blobs, item.versions))]
  }

  /** The session in which the file is deleted, before Close. */
  function DeletionSession(h: Hasher, creator: string, name: string, data: Bytes): Session {
    var disk := UploadDisk(h, creator, name, data);
    Session(Bundler(disk, [disk], AfterUpload(h, creator, name, data), Some([]), 0, 3), 0, [1], Emptied(creator), [])
  }

  lemma OpenDeletion(h: Hasher, creator: string, name: string, data: Bytes) returns (ws: seq<World>, es: seq<Event>)
    ensures Reached(h, ws, es, Busy(DeletionSession(h, creator, name, data), [data]))
  {
    ws, es := Upload(h, creator, name, data);
    var disk, item := UploadDisk(h, creator, name, data), AfterUpload(h, creator, name, data);
    var s := OpenWriter(disk, item, creator);
    ws, es := Extend(h, ws, es, Idle(disk, Some(item), [data]), Open(item, creator), Busy(s, [data]));
    var s1 := Apply(h, s, DeleteBlob(1));
    assert [] + [1] == [1];
    ws, es := Extend(h, ws, es, Busy(s, [data]), Do(DeleteBlob(1)), Busy(s1, [data]));
    var s2 := Apply(h, s1, ClearSlots);
    assert s2 == DeletionSession(h, creator, name, data);
    ws, es := Extend(h, ws, es, Busy(s1, [data]), Do(ClearSlots), Busy(s2, [data]));
  }

  lemma DeletionMarks(h: Hasher, creator: string, name: string, data: Bytes)
    ensures var s := DeletionSession(h, creator, name, data);
      && Marked(s).1 == map[1 := [1]]
      && Marked(s).0.b.item == AfterDeletion(h, creator, name, data).(maxBundle := 1)
  {
    var s := DeletionSession(h, creator, name, data);
    var m := Marking(s.b.item.blobs, map[]);
    assert s.del[..0] == [] && MarkAll(m, [], s.version) == m;
    assert s.del[..|s.del| - 1] == [];
    assert [] + [1] == [1];
    assert Mark(m, 1, s.version).groups == map[1 := [1]];
  }

  lemma DeletionCloses(h: Hasher, creator: string, name: string, data: Bytes)
    ensures var s := DeletionSession(h, creator, name, data);
      && 1 in Marked(s).1
      && var c := CloseWriter(h, s, [1], NO_FAULTS).state.b;
         c.item == AfterDeletion(h, creator, name, data) && c.disk == DeletionDisk(h, creator, name, data)
  {
    DeletionMarks(h, creator, name, data);
    var s := DeletionSession(h, creator, name, data);
    var (m, groups) := Marked(s);
    var entries := m.b.disk[1].entries;
    assert CopyEntries(h, m.b, 1, entries, [1], 0, NO_FAULTS) == CopyEntries(h, m.b, 1, entries, [1], 1, NO_FAULTS);
    assert CopyBundleExcept(h, m.b, 1, groups[1], NO_FAULTS) == Outcome(m.b, true);
    var c := CopyGroups(h, m, groups, [1], 0, NO_FAULTS);
    assert [] + [1] == [1];
    assert c == CopyGroups(h, m.(bdel := [1]), groups, [1], 1, NO_FAULTS) == Outcome(m.(bdel := [1]), true);
    var b := CommitRecord(m.b);
    assert b.disk == m.b.disk[2 := DeletionDisk(h, creator, name, data)[2]];
    assert DeleteBundles(b, [1], 0, NO_FAULTS) == DeleteBundles(DeleteBundle(b, 1), [1], 1, NO_FAULTS);
    assert b.disk - {1} == DeletionDisk(h, creator, name, data);
  }

  /** The session that is opened once a file has been stored and then deleted. */
  function AfterwardsSession(h: Hasher, creator: string, name: string, data: Bytes): Session {
    OpenWriter(DeletionDisk(h, creator, name, data), AfterDeletion(h, creator, name, data), creator)
  }

  lemma FileDeleted(h: Hasher, creator: string, name: string, data: Bytes) returns (ws: seq<World>, es: seq<Event>)
    ensures Reached(h, ws, es, Busy(AfterwardsSession(h, creator, name, data), [data]))
  {
    ws, es := OpenDeletion(h, creator, name, data);
    DeletionMarks(h, creator, name, data);
    DeletionCloses(h, creator, name, data);
    var s := DeletionSession(h, creator, name, data);
    var disk, item := DeletionDisk(h, creator, name, data), AfterDeletion(h, creator, name, data);
    ws, es := Extend(h, ws, es, Busy(s, [data]), Close([1], NO_FAULTS), Idle(disk, Some(item), [data]));
    ws, es := Extend(h, ws, es, Idle(disk, Some(item), [data]), Open(item, creator),
                     Busy(AfterwardsSession(h, creator, name, data), [data]));
  }
}
