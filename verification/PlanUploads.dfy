/** Which contents a plan uploads: each one that is new to the item, once, and before it is used. */
module PlanUploads {
  import opened Prelude
  import opened BagText
  import opened ItemModel
  import opened Planner
  import opened PlanTheorem

  ghost predicate AddsBefore(todo: seq<Action>, k: int, md5: Hash) {
    exists i :: 0 <= i < k && i < |todo| && todo[i].NewBlob? && todo[i].md5 == md5
  }

  /** New contents are added under different names, and every use of one comes after it is added. */
  ghost predicate AddedOnceBeforeUse(item: string, todo: seq<Action>) {
    && (forall i, k :: 0 <= i < k < |todo| && todo[i].NewBlob? && todo[k].NewBlob? ==>
          FileID(item, todo[i].md5) != FileID(item, todo[k].md5))
    && (forall k :: 0 <= k < |todo| && todo[k].UpdateFile? && todo[k].id <= 0 ==> AddsBefore(todo, k, todo[k].fileMD5))
  }

  /** The marks are those of the contents added so far. */
  ghost predicate MarksTell(todo: seq<Action>, marks: map<string, int>) {
    && (forall k :: k in marks ==> marks[k] == -1)
    && (forall m: Hash :: HexEncode(m) in marks <==> AddsBefore(todo, |todo|, m))
  }

  /** The client does not know a blob with this MD5. */
  predicate Unknown(remote: Option<FileList>, name: string, f: File) {
    remote == None || (!Unchanged(remote.value, name, f) && Lookup(remote.value.blobs, HexEncode(f.md5)) <= 0)
  }

  lemma AddsBeforeConcat(a: seq<Action>, b: seq<Action>, k: nat, m: Hash)
    requires k <= |b|
    ensures AddsBefore(a + b, |a| + k, m) <==> AddsBefore(a, |a|, m) || AddsBefore(b, k, m)
  {
    if AddsBefore(a + b, |a| + k, m) {
      var i :| 0 <= i < |a| + k && (a + b)[i].NewBlob? && (a + b)[i].md5 == m;
      if i < |a| { assert a[i].NewBlob?; } else { assert b[i - |a|].NewBlob?; }
    }
    if AddsBefore(a, |a|, m) {
      var i :| 0 <= i < |a| && a[i].NewBlob? && a[i].md5 == m;
      assert (a + b)[i] == a[i];
    }
    if AddsBefore(b, k, m) {
      var i :| 0 <= i < k && b[i].NewBlob? && b[i].md5 == m;
      assert (a + b)[|a| + i] == b[i];
    }
  }

  /** What is added for one file: its content, if it is new. */
  lemma OneAdds(remote: Option<FileList>, marks: map<string, int>, name: string, f: File, m: Hash)
    requires forall k :: k in marks ==> marks[k] == -1
    ensures var (more, marks') := ResolveOne(remote, marks, name, f);
      AddsBefore(more, |more|, m) <==> m == f.md5 && Unknown(remote, name, f) && HexEncode(m) !in marks
  {
    var more := ResolveOne(remote, marks, name, f).0;
    if Unknown(remote, name, f) && HexEncode(f.md5) !in marks { assert more[0].NewBlob?; }
  }

  lemma KeepsUses(item: string, a: seq<Action>, marks: map<string, int>, remote: Option<FileList>, name: string,
                  f: File)
    requires AddedOnceBeforeUse(item, a) && MarksTell(a, marks)
    ensures AddedOnceBeforeUse(item, a + ResolveOne(remote, marks, name, f).0)
  {
    var b := ResolveOne(remote, marks, name, f).0;
    forall i, k | 0 <= i < k < |a + b| && (a + b)[i].NewBlob? && (a + b)[k].NewBlob?
      ensures FileID(item, (a + b)[i].md5) != FileID(item, (a + b)[k].md5)
    {
      if k >= |a| {
        assert i < |a| && AddsBefore(a, |a|, a[i].md5) && HexEncode(f.md5) !in marks && (a + b)[k].md5 == f.md5;
        if FileID(item, a[i].md5) == FileID(item, f.md5) { FileIDInjective(item, a[i].md5, f.md5); }
      }
    }
    forall k | 0 <= k < |a + b| && (a + b)[k].UpdateFile? && (a + b)[k].id <= 0
      ensures AddsBefore(a + b, k, (a + b)[k].fileMD5)
    {
      if k < |a| {
        assert AddsBefore(a, k, a[k].fileMD5);
        var i :| 0 <= i < k && a[i].NewBlob? && a[i].md5 == a[k].fileMD5;
        assert (a + b)[i] == a[i];
      } else {
        AddsBeforeConcat(a, b, k - |a|, f.md5);
        if HexEncode(f.md5) !in marks { assert b[0].NewBlob?; }
      }
    }
  }

  lemma KeepsMarks(a: seq<Action>, marks: map<string, int>, remote: Option<FileList>, name: string, f: File)
    requires MarksTell(a, marks)
    ensures var (b, marks') := ResolveOne(remote, marks, name, f); MarksTell(a + b, marks')
  {
    var (b, marks') := ResolveOne(remote, marks, name, f);
    forall m: Hash
      ensures HexEncode(m) in marks' <==> AddsBefore(a + b, |a + b|, m)
    {
      AddsBeforeConcat(a, b, |b|, m);
      OneAdds(remote, marks, name, f, m);
      if HexEncode(m) == HexEncode(f.md5) { HexInjective(m, f.md5); }
    }
  }

  /** Some of the first j files has this content, and the client knows no blob for it. */
  ghost predicate Wanted(local: FileList, remote: Option<FileList>, order: seq<string>, j: nat, m: Hash)
    requires j <= |order| && forall name :: name in order ==> name in local.files
  {
    exists i :: 0 <= i < j && local.files[order[i]].md5 == m && Unknown(remote, order[i], local.files[order[i]])
  }

  /** What is added is what is wanted. */
  ghost predicate AddsWanted(local: FileList, remote: Option<FileList>, order: seq<string>, j: nat, todo: seq<Action>)
    requires j <= |order| && forall name :: name in order ==> name in local.files
  {
    forall m: Hash :: AddsBefore(todo, |todo|, m) <==> Wanted(local, remote, order, j, m)
  }

  lemma NextWanted(local: FileList, remote: Option<FileList>, order: seq<string>, j: nat, a: seq<Action>,
                   marks: map<string, int>)
    requires j < |order| && forall name :: name in order ==> name in local.files
    requires AddsWanted(local, remote, order, j, a) && MarksTell(a, marks)
    ensures AddsWanted(local, remote, order, j + 1, a + ResolveOne(remote, marks, order[j], local.files[order[j]]).0)
  {
    var name, f := order[j], local.files[order[j]];
    var b := ResolveOne(remote, marks, name, f).0;
    forall m: Hash
      ensures AddsBefore(a + b, |a + b|, m) <==> Wanted(local, remote, order, j + 1, m)
    {
      AddsBeforeConcat(a, b, |b|, m);
      OneAdds(remote, marks, name, f, m);
      assert Wanted(local, remote, order, j + 1, m) <==>
        Wanted(local, remote, order, j, m) || (f.md5 == m && Unknown(remote, name, f));
    }
  }

  /** What is planned for the first j files. */
  ghost predicate PlansRight(item: string, local: FileList, remote: Option<FileList>, order: seq<string>, j: nat)
    requires j <= |order| && forall name :: name in order ==> name in local.files
  {
    var (todo, marks) := ResolveLocal(local, remote, order, j);
    Planned(item, local, remote, order, j, todo, marks)
  }

  ghost predicate Planned(item: string, local: FileList, remote: Option<FileList>, order: seq<string>, j: nat,
                          todo: seq<Action>, marks: map<string, int>)
    requires j <= |order| && forall name :: name in order ==> name in local.files
  {
    AddedOnceBeforeUse(item, todo) && MarksTell(todo, marks) && AddsWanted(local, remote, order, j, todo)
  }

  lemma OnePlanned(item: string, local: FileList, remote: Option<FileList>, order: seq<string>, j: nat, a: seq<Action>,
                   marks: map<string, int>)
    requires j < |order| && forall name :: name in order ==> name in local.files
    requires Planned(item, local, remote, order, j, a, marks)
    ensures var (b, marks') := ResolveOne(remote, marks, order[j], local.files[order[j]]);
      Planned(item, local, remote, order, j + 1, a + b, marks')
  {
    KeepsUses(item, a, marks, remote, order[j], local.files[order[j]]);
    KeepsMarks(a, marks, remote, order[j], local.files[order[j]]);
    NextWanted(local, remote, order, j, a, marks);
  }

  lemma NextPlansRight(item: string, local: FileList, remote: Option<FileList>, order: seq<string>, j: nat)
    requires j < |order| && forall name :: name in order ==> name in local.files
    requires PlansRight(item, local, remote, order, j)
    ensures PlansRight(item, local, remote, order, j + 1)
  {
    ResolveNext(local, remote, order, j);
    var (a, marks) := ResolveLocal(local, remote, order, j);
    OnePlanned(item, local, remote, order, j, a, marks);
  }

  lemma ResolveNext(local: FileList, remote: Option<FileList>, order: seq<string>, j: nat)
    requires j < |order| && forall name :: name in order ==> name in local.files
    ensures var (a, marks) := ResolveLocal(local, remote, order, j);
      var (b, marks') := ResolveOne(remote, marks, order[j], local.files[order[j]]);
      ResolveLocal(local, remote, order, j + 1) == (a + b, marks')
  {
  }

  lemma NothingPlanned(item: string, local: FileList, remote: Option<FileList>, order: seq<string>)
    requires local.blobs == map[] && forall name :: name in order ==> name in local.files
    ensures PlansRight(item, local, remote, order, 0)
  {
    assert ResolveLocal(local, remote, order, 0) == ([], map[]);
  }

  lemma {:induction false} UploadsUpTo(item: string, local: FileList, remote: Option<FileList>, order: seq<string>,
                                       j: nat)
    requires local.blobs == map[] && j <= |order| && forall name :: name in order ==> name in local.files
    ensures PlansRight(item, local, remote, order, j)
  {
    if j == 0 {
      NothingPlanned(item, local, remote, order);
    } else {
      var i: nat := j - 1;
      UploadsUpTo(item, local, remote, order, i);
      NextPlansRight(item, local, remote, order, i);
      assert PlansRight(item, local, remote, order, i + 1) && i + 1 == j;
    }
  }

  /** The item has a blob, deleted or not, recorded with this MD5. */
  ghost predicate Recorded(s: Session, m: Bytes) {
    exists i :: 0 <= i < |s.b.item.blobs| && s.b.item.blobs[i].md5 == m
  }

  lemma UnknownIsUnrecorded(d: Described, local: FileList, s: Session, name: string)
    requires !Dangling(d) && Describes(d, s) && NoConfusion(local, d, s) && name in local.files
    requires local.files[name].md5 != "" && forall i :: 0 <= i < |d.blobs| ==> d.blobs[i].id == i + 1
    ensures Unknown(Some(Index(d)), name, local.files[name]) <==> !Recorded(s, local.files[name].md5)
  {
    var f, hex := local.files[name], HexEncode(local.files[name].md5);
    assert hex !in Slots(d);
    ByHashFinds(d.blobs, f.md5);
    if Unchanged(Index(d), name, f) {
      assert s.b.item.blobs[Slots(d)[name] - 1].md5 == f.md5;
    }
    if Recorded(s, f.md5) {
      var i :| 0 <= i < |s.b.item.blobs| && s.b.item.blobs[i].md5 == f.md5;
      assert d.blobs[i].md5 == f.md5;
    }
  }

  /** The plan adds exactly the local contents of which the item has no blob, each once and before any slot
      is pointed at it. */
  lemma UploadsExactly(item: string, local: FileList, d: Described, s: Session, order: seq<string>, m: Hash)
    requires LocalTree(local, order)
    requires !Dangling(d) && Describes(d, s) && NoConfusion(local, d, s)
    requires forall i :: 0 <= i < |d.blobs| ==> d.blobs[i].id == i + 1
    ensures var todo := ResolveLocal(local, Some(Index(d)), order, |order|).0;
      && AddedOnceBeforeUse(item, todo)
      && (AddsBefore(todo, |todo|, m) <==>
            (exists name :: name in local.files && local.files[name].md5 == m) && !Recorded(s, m))
  {
    var remote := Some(Index(d));
    UploadsUpTo(item, local, remote, order, |order|);
    forall name | name in local.files
      ensures Unknown(remote, name, local.files[name]) <==> !Recorded(s, local.files[name].md5)
    {
      UnknownIsUnrecorded(d, local, s, name);
    }
    if exists name :: name in local.files && local.files[name].md5 == m {
      var name :| name in local.files && local.files[name].md5 == m;
      var i :| 0 <= i < |order| && order[i] == name;
      assert !Recorded(s, m) ==> Wanted(local, remote, order, |order|, m);
    }
  }
}
