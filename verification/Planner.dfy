/** The client's planner: from a local tree and the server's record of an item to the commands that make
    the item's slots those of the tree (cmd/bclient/filelist.go, cmd/bclient/upload.go). */
module Planner {
  import opened Prelude
  import opened Names
  import opened BagText
  import T = TxModel

  /** What the server's description of an item says of a blob and of the slots of each version. */
  datatype RemoteBlob = RemoteBlob(id: int, md5: Hash, mimeType: string)
  datatype Described = Described(blobs: seq<RemoteBlob>, versions: seq<map<string, int>>)

  datatype File = File(absPath: string, md5: Hash, sha256: Hash, mimeType: string, blobID: int)

  /** Files by path; `blobs` maps hex MD5s, and paths too, to blob ids. */
  datatype FileList = FileList(files: map<string, File>, blobs: map<string, int>)

  /** What Go finds in a map of numbers for a key that need not be there. */
  function Lookup(m: map<string, int>, key: string): int {
    if key in m then m[key] else 0
  }

  // ---- AddFiles

  const NO_FILE: File := File("", "", "", "", 0)

  /** A file is merged with what is known of its path: what is given replaces what was there, except that
      a conflicting hash is reported and dropped. */
  function Merge(info: File, f: File): File {
    File(if f.absPath != "" then f.absPath else info.absPath,
         if info.md5 != "" then info.md5 else f.md5,
         if info.sha256 != "" then info.sha256 else f.sha256,
         if f.mimeType != "" then f.mimeType else info.mimeType,
         if f.blobID != 0 then f.blobID else info.blobID)
  }

  function MergeAll(files: map<string, File>, found: seq<(string, File)>): map<string, File> {
    if found == [] then files
    else
      var before := MergeAll(files, found[..|found| - 1]);
      var (name, f) := found[|found| - 1];
      before[name := Merge(if name in before then before[name] else NO_FILE, f)]
  }

  /** The MD5 a path ends up with is the first one that was found for it. */
  lemma {:induction false} FirstMD5Wins(found: seq<(string, File)>, name: string, i: nat)
    requires i < |found| && found[i].0 == name && found[i].1.md5 != ""
    requires forall k :: 0 <= k < i && found[k].0 == name ==> found[k].1.md5 == ""
    ensures name in MergeAll(map[], found) && MergeAll(map[], found)[name].md5 == found[i].1.md5
  {
    var front := found[..|found| - 1];
    if i < |found| - 1 {
      FirstMD5Wins(front, name, i);
    } else {
      NoMD5Yet(front, name);
    }
  }

  lemma {:induction false} NoMD5Yet(found: seq<(string, File)>, name: string)
    requires forall k :: 0 <= k < |found| && found[k].0 == name ==> found[k].1.md5 == ""
    ensures name in MergeAll(map[], found) ==> MergeAll(map[], found)[name].md5 == ""
  {
    if found != [] { NoMD5Yet(found[..|found| - 1], name); }
  }

  // ---- BuildListFromJSON

  function ByHash(blobs: seq<RemoteBlob>): map<string, int> {
    if blobs == [] then map[]
    else
      var last := blobs[|blobs| - 1];
      ByHash(blobs[..|blobs| - 1])[HexEncode(last.md5) := last.id]
  }

  function Slots(d: Described): map<string, int> {
    if d.versions == [] then map[] else d.versions[|d.versions| - 1]
  }

  function RemoteFile(d: Described, id: int): File
    requires 1 <= id <= |d.blobs|
  {
    File("", d.blobs[id - 1].md5, "", d.blobs[id - 1].mimeType, id)
  }

  /** Some slot of the newest version names no blob; the original indexes out of range. */
  predicate Dangling(d: Described) {
    exists name :: name in Slots(d) && !(1 <= Slots(d)[name] <= |d.blobs|)
  }

  function Index(d: Described): FileList
    requires !Dangling(d)
  {
    FileList(map name | name in Slots(d) :: RemoteFile(d, Slots(d)[name]), ByHash(d.blobs) + Slots(d))
  }

  // ---- ResolveLocalBlobs

  /** AUpdateFile names a remote blob when its id is positive, else an uploaded file. */
  datatype Action =
    | NewBlob(source: string, md5: Hash, mimeType: string)
    | UpdateMimeType(blobID: int, mimeType: string)
    | UpdateFile(name: string, id: int, fileMD5: Hash)

  /** The file has not changed since the newest version. */
  predicate Unchanged(remote: FileList, name: string, f: File) {
    name in remote.files && remote.files[name].md5 != "" && f.md5 == remote.files[name].md5
  }

  function ResolveOne(remote: Option<FileList>, marks: map<string, int>, name: string, f: File):
    (seq<Action>, map<string, int>)
  {
    var hex := HexEncode(f.md5);
    if remote != None && Unchanged(remote.value, name, f) then
      var r := remote.value.files[name];
      (if f.mimeType != "" && f.mimeType != r.mimeType then [UpdateMimeType(r.blobID, f.mimeType)] else [], marks)
    else if remote != None && Lookup(remote.value.blobs, hex) > 0 then
      ([UpdateFile(name, Lookup(remote.value.blobs, hex), "")], marks)
    else if Lookup(marks, hex) == 0 then
      ([NewBlob(f.absPath, f.md5, f.mimeType), UpdateFile(name, 0, f.md5)], marks[hex := -1])
    else ([UpdateFile(name, 0, f.md5)], marks)
  }

  /** ResolveLocalBlobs after the first j files, in the order the map yields them. */
  function ResolveLocal(local: FileList, remote: Option<FileList>, order: seq<string>, j: nat):
    (seq<Action>, map<string, int>)
    requires j <= |order| && forall name :: name in order ==> name in local.files
  {
    if j == 0 then ([], local.blobs)
    else
      var (todo, marks) := ResolveLocal(local, remote, order, j - 1);
      var (more, marks') := ResolveOne(remote, marks, order[j - 1], local.files[order[j - 1]]);
      (todo + more, marks')
  }

  // ---- MakeTransactionCommands

  /** The name under which a file with this MD5 is uploaded for an item. */
  function FileID(item: string, md5: Hash): string {
    item + "-" + HexEncode(md5)
  }

  /** FormatInt, base 10. */
  function FormatInt(n: int): string {
    if n < 0 then "-" + Decimal(-n) else Decimal(n)
  }

  function CommandOf(item: string, a: Action): T.Command {
    match a
    case NewBlob(_, md5, _) => ["add", FileID(item, md5)]
    case UpdateMimeType(id, mimeType) => ["mimetype", FormatInt(id), mimeType]
    case UpdateFile(name, id, md5) => ["slot", name, if id > 0 then FormatInt(id) else FileID(item, md5)]
  }

  function CommandsOf(item: string, todo: seq<Action>): (cs: seq<T.Command>)
    ensures |cs| == |todo| && forall i :: 0 <= i < |cs| ==> cs[i] == CommandOf(item, todo[i])
  {
    seq(|todo|, i requires 0 <= i < |todo| => CommandOf(item, todo[i]))
  }

  lemma CommandsOfConcat(item: string, a: seq<Action>, b: seq<Action>)
    ensures CommandsOf(item, a + b) == CommandsOf(item, a) + CommandsOf(item, b)
  {
  }

  // ---- what the keys mean

  lemma FileIDInjective(item: string, a: Hash, b: Hash)
    requires FileID(item, a) == FileID(item, b)
    ensures a == b
  {
    assert FileID(item, a)[|item| + 1..] == HexEncode(a);
    assert FileID(item, b)[|item| + 1..] == HexEncode(b);
    HexInjective(a, b);
  }

  /** A blob's number is never taken for an uploaded file, and is read back as it was. */
  lemma NumberReadBack(id: nat)
    requires id <= MAX_INT
    ensures ParseInt(FormatInt(id)) == Some(id) && '-' !in FormatInt(id)
  {
    DecimalDigits(id);
  }

  lemma FileIDHasDash(item: string, md5: Hash)
    ensures '-' in FileID(item, md5)
  {
    assert FileID(item, md5)[|item|] == '-';
  }

  /** The blob some MD5 leads to is the last one that has it. */
  lemma {:induction false} ByHashFinds(blobs: seq<RemoteBlob>, md5: Hash)
    ensures HexEncode(md5) in ByHash(blobs) <==> exists i :: 0 <= i < |blobs| && blobs[i].md5 == md5
    ensures HexEncode(md5) in ByHash(blobs) ==>
      exists i :: 0 <= i < |blobs| && blobs[i].md5 == md5 && ByHash(blobs)[HexEncode(md5)] == blobs[i].id
        && forall k :: i < k < |blobs| ==> blobs[k].md5 != md5
  {
    if blobs != [] {
      var front, last := blobs[..|blobs| - 1], blobs[|blobs| - 1];
      ByHashFinds(front, md5);
      if last.md5 == md5 {
        assert blobs[|blobs| - 1].md5 == md5;
      } else {
        if HexEncode(last.md5) == HexEncode(md5) { HexInjective(last.md5, md5); }
        assert forall i :: 0 <= i < |front| ==> front[i] == blobs[i];
        if HexEncode(md5) in ByHash(blobs) {
          var i :| 0 <= i < |front| && front[i].md5 == md5 && ByHash(front)[HexEncode(md5)] == front[i].id
                   && forall k :: i < k < |front| ==> front[k].md5 != md5;
          assert blobs[i].md5 == md5;
        }
      }
    }
  }
}
