/** Bags as sequences of named files: what bagit/writer.go writes and bagit/reader.go reads back.
    BagIt 0.97; its published form is RFC 8493. */
module BagModel {
  import opened Prelude
  import opened BagText
  import Names

  datatype ZFile = ZFile(name: string, data: Bytes)

  datatype Kind = Md5 | Sha1 | Sha256 | Sha512

  datatype Checksum = Checksum(md5: Hash, sha1: Hash, sha256: Hash, sha512: Hash)

  const EMPTY: Checksum := Checksum("", "", "", "")

  function Get(c: Checksum, kind: Kind): Hash {
    match kind
    case Md5 => c.md5
    case Sha1 => c.sha1
    case Sha256 => c.sha256
    case Sha512 => c.sha512
  }

  function Set(c: Checksum, kind: Kind, d: Hash): Checksum {
    match kind
    case Md5 => c.(md5 := d)
    case Sha1 => c.(sha1 := d)
    case Sha256 => c.(sha256 := d)
    case Sha512 => c.(sha512 := d)
  }

  function KindName(kind: Kind): string {
    match kind
    case Md5 => "md5"
    case Sha1 => "sha1"
    case Sha256 => "sha256"
    case Sha512 => "sha512"
  }

  function ManifestName(istag: bool, kind: Kind): string {
    (if istag then "tagmanifest-" else "manifest-") + KindName(kind) + ".txt"
  }

  type Manifest = map<string, Checksum>

  // ---- the writer

  /** A bag being written. Names in `files` are relative to the bag's directory; the last file is the
      one being written to, and `cur` points at its checksum. */
  datatype Draft = Draft(dirname: string, files: seq<ZFile>, manifest: Manifest, cur: Option<string>,
                         ns: nat, sz: nat)

  function NewDraft(name: string): Draft {
    Draft(name + "/", [], map[], None, 0, 0)
  }

  /** The checksums the writer computes. */
  function Sum(h: Hasher, data: Bytes): Checksum {
    Checksum(h.md5(data), "", h.sha256(data), "")
  }

  /** Writer.Checksum: record the hashes of what the current file holds so far. */
  function SaveChecksum(h: Hasher, w: Draft): Draft {
    if w.cur.Some? && w.files != [] then
      w.(manifest := w.manifest[w.cur.value := Sum(h, w.files[|w.files| - 1].data)])
    else w
  }

  /** Writer.create. */
  function Create(h: Hasher, w: Draft, name: string): Draft {
    var s := SaveChecksum(h, w);
    s.(files := s.files + [ZFile(name, "")], manifest := s.manifest[name := EMPTY], cur := Some(name))
  }

  function Write(w: Draft, p: Bytes): Draft
    requires w.files != []
  {
    var last := |w.files| - 1;
    w.(files := w.files[last := w.files[last].(data := w.files[last].data + p)])
  }

  /** Writer.Create and the counting writer it returns. */
  function CreatePayload(h: Hasher, w: Draft, name: string): Draft {
    Create(h, w, "data/" + name).(ns := w.ns + 1)
  }

  function WritePayload(w: Draft, p: Bytes): Draft
    requires w.files != []
  {
    Write(w, p).(sz := w.sz + |p|)
  }

  predicate Qualifies(istag: bool, fname: string) {
    HasPrefix(fname, "data/") != istag
  }

  /** Writer.manifest, from position i of the order in which the map is ranged over. The entry that
      create adds to the map in the middle of the loop never qualifies, so it is not part of `order`. */
  function ManifestFrom(h: Hasher, w: Draft, istag: bool, kind: Kind, order: seq<string>, i: nat, open: bool): Draft
    requires i <= |order| && (open ==> w.files != [])
    decreases |order| - i
  {
    if i == |order| then w
    else
      var fname := order[i];
      if !Qualifies(istag, fname) || fname !in w.manifest || Get(w.manifest[fname], kind) == "" then
        ManifestFrom(h, w, istag, kind, order, i + 1, open)
      else
        var line := FormatLine(Listed(Get(w.manifest[fname], kind), fname));
        var o := if open then w else Create(h, w, ManifestName(istag, kind));
        ManifestFrom(h, Write(o, line), istag, kind, order, i + 1, true)
  }

  function WriteManifest(h: Hasher, w: Draft, istag: bool, kind: Kind, order: seq<string>): Draft {
    ManifestFrom(h, w, istag, kind, order, 0, false)
  }

  const VERSION_TEXT: string := "BagIt-Version: 0.97\nTag-File-Character-Encoding: UTF-8\n"

  /** The orders in which the five manifest loops range over the map. */
  datatype Orders = Orders(md5: seq<string>, sha1: seq<string>, sha256: seq<string>, sha512: seq<string>,
                           tag: seq<string>)

  /** The text of bag-info.txt, the tags in the order the map yields them. */
  function TagText(tags: map<string, string>, order: seq<string>): string
    requires forall k :: k in order ==> k in tags
  {
    if order == [] then ""
    else
      var k := order[|order| - 1];
      TagText(tags, order[..|order| - 1]) + (k + ": " + tags[k] + "\n")
  }

  /** The tags Close adds; Payload-Oxum is octets "." streams. */
  function CloseTags(tags: map<string, string>, sz: nat, ns: nat, date: string, size: string): map<string, string> {
    tags["Payload-Oxum" := Names.Decimal(sz) + "." + Names.Decimal(ns)]["Bagging-Date" := date]["Bag-Size" := size]
  }

  function WriteTags(h: Hasher, w: Draft, info: string): Draft {
    Write(Create(h, Write(Create(h, w, "bagit.txt"), VERSION_TEXT), "bag-info.txt"), info)
  }

  /** Writer.Close; `info` is the text of bag-info.txt. */
  function CloseDraft(h: Hasher, w: Draft, info: string, o: Orders): Draft {
    var w0 := SaveChecksum(h, WriteTags(h, w, info));
    var w1 := WriteManifest(h, w0, false, Md5, o.md5);
    var w2 := WriteManifest(h, w1, false, Sha1, o.sha1);
    var w3 := WriteManifest(h, w2, false, Sha256, o.sha256);
    var w4 := WriteManifest(h, w3, false, Sha512, o.sha512);
    WriteManifest(h, w4, true, Md5, o.tag)
  }

  /** The zip file: every name starts with the bag's directory. */
  function ZipOf(w: Draft): (z: seq<ZFile>)
    ensures |z| == |w.files|
    ensures forall i :: 0 <= i < |z| ==> z[i] == ZFile(w.dirname + w.files[i].name, w.files[i].data)
  {
    seq(|w.files|, i requires 0 <= i < |w.files| => ZFile(w.dirname + w.files[i].name, w.files[i].data))
  }

  // ---- the reader

  /** NewReader: everything in a bag is inside the first file's topmost directory. */
  function Dirname(z: seq<ZFile>): string {
    if z == [] then ""
    else
      var j := Names.IndexOf(z[0].name, '/');
      if j < 0 || j >= |z[0].name| then "" else z[0].name[..j] + "/"
  }

  /** Reader.open: the first file of that name. */
  function OpenFile(z: seq<ZFile>, name: string): Option<Bytes> {
    if z == [] then None
    else if z[0].name == name then Some(z[0].data)
    else OpenFile(z[1..], name)
  }

  /** Reader.Files. */
  function PayloadNames(z: seq<ZFile>, dirname: string): seq<string> {
    if z == [] then []
    else (if HasPrefix(z[0].name, dirname + "data/") then [z[0].name[|dirname + "data/"|..]] else [])
         + PayloadNames(z[1..], dirname)
  }

  datatype Loaded = Loaded(manifest: Manifest, ok: bool)

  function Entry(m: Manifest, fname: string): Checksum {
    if fname in m then m[fname] else EMPTY
  }

  /** Reader.loadManifestFile, over the lines. A line without two fields ends the file silently;
      a digest that is not hex is an error, and leaves an entry behind. */
  function LoadLines(m: Manifest, kind: Kind, lines: seq<string>): Loaded
    decreases |lines|
  {
    if lines == [] then Loaded(m, true)
    else if lines[0] == "" then LoadLines(m, kind, lines[1..])
    else
      var pieces := Fields(lines[0]);
      if |pieces| != 2 then Loaded(m, true)
      else
        match HexDecode(pieces[0])
        case None => Loaded(m[pieces[1] := Entry(m, pieces[1])], false)
        case Some(d) => LoadLines(m[pieces[1] := Set(Entry(m, pieces[1]), kind, d)], kind, lines[1..])
  }

  function LoadFile(z: seq<ZFile>, dirname: string, m: Manifest, name: string, kind: Kind): Loaded {
    match OpenFile(z, dirname + name)
    case None => Loaded(m, true)
    case Some(text) => LoadLines(m, kind, Lines(text))
  }

  const MANIFEST_FILES: seq<(string, Kind)> := [
    ("manifest-md5.txt", Md5), ("manifest-sha1.txt", Sha1), ("manifest-sha256.txt", Sha256),
    ("manifest-sha512.txt", Sha512), ("tagmanifest-md5.txt", Md5)]

  /** Reader.loadManifests, from the i-th manifest file. */
  function LoadManifests(z: seq<ZFile>, dirname: string, m: Manifest, i: nat): Loaded
    requires i <= |MANIFEST_FILES|
    decreases |MANIFEST_FILES| - i
  {
    if i == |MANIFEST_FILES| then Loaded(m, true)
    else
      var l := LoadFile(z, dirname, m, MANIFEST_FILES[i].0, MANIFEST_FILES[i].1);
      if l.ok then LoadManifests(z, dirname, l.manifest, i + 1) else l
  }

  // ---- Reader.Verify

  datatype Verdict = Good | BadManifest | ExtraFile(file: string) | MissingFile | Mismatch(file: string)

  function FirstExtra(z: seq<ZFile>, dirname: string, m: Manifest): Option<string> {
    if z == [] then None
    else if HasPrefix(z[0].name, dirname + "data/") && TrimPrefix(z[0].name, dirname) !in m then
      Some(TrimPrefix(z[0].name, dirname))
    else FirstExtra(z[1..], dirname, m)
  }

  function CountPayload(z: seq<ZFile>, dirname: string): nat {
    if z == [] then 0
    else (if HasPrefix(z[0].name, dirname + "data/") then 1 else 0) + CountPayload(z[1..], dirname)
  }

  function DataEntries(m: Manifest): set<string> {
    set k | k in m && HasPrefix(k, "data/")
  }

  /** util.VerifyStreamHash: a hash that is not given is not compared. */
  predicate HashesMatch(h: Hasher, c: Checksum, data: Bytes) {
    (c.md5 == "" || c.md5 == h.md5(data)) && (c.sha256 == "" || c.sha256 == h.sha256(data))
  }

  function FirstMismatch(h: Hasher, z: seq<ZFile>, dirname: string, m: Manifest): Option<string> {
    if z == [] then None
    else
      var xname := TrimPrefix(z[0].name, dirname);
      if xname in m && !HashesMatch(h, m[xname], z[0].data) then Some(xname)
      else FirstMismatch(h, z[1..], dirname, m)
  }

  /** Reader.Verify once the manifests are loaded. */
  function Check(h: Hasher, z: seq<ZFile>, dirname: string, m: Manifest): Verdict {
    match FirstExtra(z, dirname, m)
    case Some(f) => ExtraFile(f)
    case None =>
      if CountPayload(z, dirname) != |DataEntries(m)| then MissingFile
      else match FirstMismatch(h, z, dirname, m)
        case Some(f) => Mismatch(f)
        case None => Good
  }

  function Verify(h: Hasher, z: seq<ZFile>, dirname: string, m: Manifest): Verdict {
    var l := LoadManifests(z, dirname, m, 0);
    if l.ok then Check(h, z, dirname, l.manifest) else BadManifest
  }
}
