/** A deleted file cannot be put back: the run in which it was stored and deleted, and the plan that follows. */
module PlanDeleted {
  import opened Prelude
  import opened BagText
  import opened ItemModel
  import R = ItemRuns
  import Examples = ItemExamples
  import opened Commands
  import opened Planner
  import opened PlanCorrect
  import opened PlanTheorem

  /** The server's description of the item after the deletion. */
  function AfterDeletion(name: string, md5: Hash): Described {
    Described([RemoteBlob(1, md5, "")], [map[name := 1], map[]])
  }

  lemma DeletionDescribed(h: Hasher, creator: string, name: string, data: Bytes, md5: Hash)
    requires md5 == h.md5(data)
    ensures var d, s := AfterDeletion(name, md5), Examples.AfterwardsSession(h, creator, name, data);
      && !Dangling(d) && Describes(d, s)
      && |s.b.item.blobs| == 1 && s.b.item.blobs[0].bundle == 0
  {
  }

  /** The file's MD5 leads to the deleted blob, so nothing is uploaded. */
  lemma DeletedPlan(name: string, f: File)
    requires f.md5 != ""
    ensures ResolveOne(Some(Index(AfterDeletion(name, f.md5))), map[], name, f).0 == [UpdateFile(name, 1, "")]
  {
    var d := AfterDeletion(name, f.md5);
    assert d.blobs[..0] == [];
    assert ByHash(d.blobs) == map[HexEncode(f.md5) := 1];
  }

  /** A file is stored, its blob deleted and its slot cleared. Uploading the same content again then succeeds
      without uploading anything, and leaves the file's slot at the deleted blob. */
  lemma DeletedFileNotRestored(h: Hasher, creator: string, item: string, name: string, f: File, data: Bytes)
    returns (ws: seq<R.World>, es: seq<R.Event>)
    requires f.md5 == h.md5(data)
    ensures R.IsRun(h, ws, es) && ws[|es|].Busy?
    ensures Describes(AfterDeletion(name, f.md5), ws[|es|].session) && !Dangling(AfterDeletion(name, f.md5))
    ensures var x := Exec(ws[|es|].session, map[], ws[|es|].orig);
      var remote := Some(Index(AfterDeletion(name, f.md5)));
      var todo := ResolveLocal(FileList(map[name := f], map[]), remote, [name], 1).0;
      var y := ExecuteAll(h, map[], x, CommandsOf(item, todo));
      && todo == [UpdateFile(name, 1, "")] && y.ok
      && name in y.state.s.version.slots && y.state.s.version.slots[name] == 1
      && y.state.s.b.item.blobs != [] && y.state.s.b.item.blobs[0].bundle == 0 && !Shows(h, y.state, name, f.md5)
  {
    ws, es := Examples.FileDeleted(h, creator, name, data);
    var s := Examples.AfterwardsSession(h, creator, name, data);
    DeletionDescribed(h, creator, name, data, f.md5);
    DeletedPlan(name, f);
    var local, remote := FileList(map[name := f], map[]), Some(Index(AfterDeletion(name, f.md5)));
    var a := UpdateFile(name, 1, "");
    assert ResolveLocal(local, remote, [name], 0) == ([], map[]);
    assert ResolveLocal(local, remote, [name], 1).0 == [] + [a] == [a];
    var x := Exec(s, map[], [data]);
    RunOne(h, map[], x, item, a);
    NumberReadBack(1);
    assert Execute(h, map[], x, Meaning(item, a)) == Outcome(Call(h, x, R.SetSlot(name, 1)), true);
  }
}
