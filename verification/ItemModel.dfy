/** The versioned item store as functions on values: what each operation of items/writer.go and
    items/bundler.go does to the bundles of one item and to the item record in memory.
    The classes in ItemWriter are proved to do exactly this. */
module ItemModel {
  import opened Prelude

  /** A bundle that has grown this far is closed before the next blob. */
  const IDEAL_BUNDLE_SIZE: int := 500 * 1000000

  datatype Blob = Blob(id: int, size: int, md5: Bytes, sha256: Bytes, bundle: int,
                       mimeType: string, deleter: string, deleteNote: string)

  datatype Version = Version(id: int, slots: map<string, int>, creator: string, note: string)

  /** The stream `blob/id` of a bundle. */
  datatype Entry = Entry(id: int, data: Bytes)

  /** What item-info.json records. */
  datatype Info = Info(blobs: seq<Blob>, versions: seq<Version>)

  /** A committed bundle: its blob streams in order, and the record that closes it. */
  datatype Bundle = Bundle(entries: seq<Entry>, info: Info)

  type Disk = map<int, Bundle>

  datatype Item = Item(maxBundle: int, blobs: seq<Blob>, versions: seq<Version>)

  /** A BundleWriter with the store and the item it refers to. `zw` is the open bundle, whose number
      is `n - 1`; `trace` lists every content the store has had, newest last. */
  datatype Bundler = Bundler(disk: Disk, trace: seq<Disk>, item: Item,
                             zw: Option<seq<Entry>>, size: int, n: int)

  /** A Writer: one version being added to one item. */
  datatype Session = Session(b: Bundler, bnext: int, del: seq<int>, version: Version, bdel: seq<int>)

  /** The outcome of an operation that can return an error. */
  datatype Outcome<+S> = Outcome(state: S, ok: bool)

  /** Which store accesses of a Close fail: `open(k, -1)` opening bundle k, `open(k, j)` opening its j-th
      stream, `torn(k, j, id)` reading that stream, of blob id, after so many bytes, `delete(k)` deleting it. */
  datatype Faults = Faults(open: (int, int) -> bool, torn: (int, int, int) -> Option<nat>, delete: int -> bool)

  // ---- item lookups

  /** items/item.go: blobByID, as an index; |blobs| stands for nil. */
  function BlobIndex(blobs: seq<Blob>, id: int): (i: nat)
    ensures i <= |blobs|
    ensures i < |blobs| ==> blobs[i].id == id
    ensures forall j :: 0 <= j < i ==> blobs[j].id != id
  {
    BlobIndexFrom(blobs, id, 0)
  }

  function BlobIndexFrom(blobs: seq<Blob>, id: int, from: nat): (i: nat)
    requires from <= |blobs|
    ensures from <= i <= |blobs|
    ensures i < |blobs| ==> blobs[i].id == id
    ensures forall j :: from <= j < i ==> blobs[j].id != id
    decreases |blobs| - from
  {
    if from == |blobs| || blobs[from].id == id then from else BlobIndexFrom(blobs, id, from + 1)
  }

  predicate Matches(blob: Blob, size: int, md5: Bytes, sha256: Bytes) {
    blob.size == size && (md5 == "" || md5 == blob.md5) && (sha256 == "" || sha256 == blob.sha256)
  }

  /** items/writer.go: findBlobByHash. */
  function FindBlobByHash(blobs: seq<Blob>, size: int, md5: Bytes, sha256: Bytes): int {
    if size == 0 || (md5 == "" && sha256 == "") then 0
    else if blobs == [] then 0
    else if Matches(blobs[0], size, md5, sha256) then blobs[0].id
    else FindBlobByHash(blobs[1..], size, md5, sha256)
  }

  // ---- BundleWriter

  function CurrentBundle(b: Bundler): int {
    if b.zw.None? then b.n else b.n - 1
  }

  /** BundleWriter.Close: the open bundle appears in the store, with the record as it is now. */
  function CloseBundle(b: Bundler): Bundler {
    if b.zw.None? then b
    else
      var disk := b.disk[b.n - 1 := Bundle(b.zw.value, Info(b.item.blobs, b.item.versions))];
      b.(disk := disk, trace := b.trace + [disk], zw := None)
  }

  /** BundleWriter.Next. */
  function NextBundle(b: Bundler): Bundler {
    CloseBundle(b).(zw := Some([]), n := b.n + 1, size := 0)
  }

  /** The part of BundleWriter.WriteBlob before the stream is made. */
  function Roll(b: Bundler): (r: Bundler)
    ensures r.zw.Some?
  {
    if b.size >= IDEAL_BUNDLE_SIZE || b.zw.None? then NextBundle(b) else b
  }

  /** BundleWriter.WriteBlob, `data` being what io.Copy wrote. */
  function AppendBlob(b: Bundler, id: int, data: Bytes): (r: Bundler)
    ensures r.zw.Some?
  {
    var c := Roll(b);
    c.(zw := Some(c.zw.value + [Entry(id, data)]), size := c.size + |data|)
  }

  /** ValidateWriteBlob: what was written is what the blob says. */
  predicate Valid(h: Hasher, blob: Blob, data: Bytes) {
    blob.size == |data| && blob.md5 == h.md5(data) && blob.sha256 == h.sha256(data)
  }

  function NewBundler(disk: Disk, item: Item): Bundler {
    NextBundle(Bundler(disk, [disk], item, None, 0, item.maxBundle + 1))
  }

  function SetBundle(b: Bundler, i: nat, k: int): Bundler
    requires i < |b.item.blobs|
  {
    b.(item := b.item.(blobs := b.item.blobs[i := b.item.blobs[i].(bundle := k)]))
  }

  /** One entry of CopyBundleExcept's loop. A stream that names no blob is a nil dereference in
      the original; EntriesNameBlobs shows that it never occurs. */
  function CopyEntry(h: Hasher, b: Bundler, e: Entry): Outcome<Bundler> {
    var i := BlobIndex(b.item.blobs, e.id);
    if i == |b.item.blobs| then Outcome(b, false)
    else
      var c := AppendBlob(b, e.id, e.data);
      if Valid(h, b.item.blobs[i], e.data) then Outcome(SetBundle(c, i, c.n - 1), true)
      else Outcome(c, false)
  }

  function Cut(data: Bytes, n: nat): Bytes {
    if n < |data| then data[..n] else data
  }

  /** A stream that cannot be read to its end: what could be read stays in the open bundle. */
  function TearEntry(b: Bundler, e: Entry, n: nat): Bundler {
    if BlobIndex(b.item.blobs, e.id) == |b.item.blobs| then b else AppendBlob(b, e.id, Cut(e.data, n))
  }

  function CopyEntries(h: Hasher, b: Bundler, src: int, es: seq<Entry>, except: seq<int>,
                       j: nat, faults: Faults): Outcome<Bundler>
    requires j <= |es|
    decreases |es| - j
  {
    if j == |es| then Outcome(b, true)
    else if es[j].id in except then CopyEntries(h, b, src, es, except, j + 1, faults)
    else if faults.open(src, j) then Outcome(b, false)
    else match faults.torn(src, j, es[j].id)
      case Some(n) => Outcome(TearEntry(b, es[j], n), false)
      case None =>
        var c := CopyEntry(h, b, es[j]);
        if c.ok then CopyEntries(h, c.state, src, es, except, j + 1, faults) else c
  }

  /** BundleWriter.CopyBundleExcept. */
  function CopyBundleExcept(h: Hasher, b: Bundler, src: int, except: seq<int>, faults: Faults): Outcome<Bundler> {
    if src !in b.disk || faults.open(src, -1) then Outcome(b, false)
    else CopyEntries(h, b, src, b.disk[src].entries, except, 0, faults)
  }

  // ---- Writer

  /** Reading the item record: the one in the highest-numbered bundle, or a new item. */
  ghost predicate IsMax(disk: Disk, m: int) {
    m in disk && forall k :: k in disk ==> k <= m
  }

  ghost predicate Loads(disk: Disk, item: Item) {
    || (disk == map[] && item == Item(0, [], []))
    || (IsMax(disk, item.maxBundle)
        && Info(item.blobs, item.versions) == disk[item.maxBundle].info)
  }

  /** Store.Open, once the item has been read. */
  function OpenWriter(disk: Disk, item: Item, creator: string): Session {
    var last := |item.versions| - 1;
    var version :=
      if last >= 0 then Version(item.versions[last].id + 1, item.versions[last].slots, creator, "")
      else Version(1, map[], creator, "");
    Session(NewBundler(disk, item), 0, [], version, [])
  }

  function NextBlobID(s: Session): int {
    var blobs := s.b.item.blobs;
    if s.bnext != 0 then s.bnext
    else if blobs == [] then 1
    else blobs[|blobs| - 1].id + 1
  }

  function AddBlob(b: Bundler, blob: Blob): Bundler {
    b.(item := Item(CurrentBundle(b), b.item.blobs + [blob], b.item.versions))
  }

  /** The blob record WriteBlob leaves in the item's list. */
  function WrittenBlob(h: Hasher, id: int, bundle: int, data: Bytes, readerOK: bool,
                       size: int, md5: Bytes, sha256: Bytes): Blob
  {
    var expected := Blob(id,
                         if size == 0 then |data| else size,
                         if md5 == "" then h.md5(data) else md5,
                         if sha256 == "" then h.sha256(data) else sha256,
                         bundle, "", "", "");
    if !readerOK || Valid(h, expected, data) then expected
    else expected.(size := |data|, md5 := h.md5(data), sha256 := h.sha256(data))
  }

  /** Writer.WriteBlob: `data` is what the reader yields, in full when `readerOK`, up to its error
      otherwise. The id is 0 exactly when an error is returned. */
  function WriteBlob(h: Hasher, s: Session, data: Bytes, readerOK: bool,
                     size: int, md5: Bytes, sha256: Bytes): (Session, int)
  {
    var found := FindBlobByHash(s.b.item.blobs, size, md5, sha256);
    if found != 0 then (s, found)
    else
      var id := NextBlobID(s);
      var b := AppendBlob(s.b, id, data);
      var blob := WrittenBlob(h, id, b.n - 1, data, readerOK, size, md5, sha256);
      var ok := readerOK && (size == 0 || size == |data|) && (md5 == "" || md5 == h.md5(data))
                && (sha256 == "" || sha256 == h.sha256(data));
      (s.(b := AddBlob(b, blob), bnext := id + 1), if ok then id else 0)
  }

  function SetSlot(v: Version, name: string, id: int): Version {
    v.(slots := if id == 0 then v.slots - {name} else v.slots[name := id])
  }

  function SetMimeType(item: Item, id: int, mimeType: string): Item {
    var i := BlobIndex(item.blobs, id);
    if i == |item.blobs| || item.blobs[i].bundle == 0 then item
    else item.(blobs := item.blobs[i := item.blobs[i].(mimeType := mimeType)])
  }

  // ---- Writer.doDeletes and Close

  /** The first loop of doDeletes: the blob list with deletions marked, and for each bundle to be
      rewritten the ids to leave behind. */
  datatype Marking = Marking(blobs: seq<Blob>, groups: map<int, seq<int>>)

  function Deleted(blob: Blob, v: Version): Blob {
    blob.(bundle := 0, size := 0, mimeType := "", deleter := v.creator, deleteNote := v.note)
  }

  function Mark(m: Marking, id: int, v: Version): Marking {
    var i := BlobIndex(m.blobs, id);
    if i == |m.blobs| || m.blobs[i].bundle == 0 then m
    else
      var k := m.blobs[i].bundle;
      Marking(m.blobs[i := Deleted(m.blobs[i], v)],
              m.groups[k := (if k in m.groups then m.groups[k] else []) + [id]])
  }

  function MarkAll(m: Marking, del: seq<int>, v: Version): Marking {
    if del == [] then m else Mark(MarkAll(m, del[..|del| - 1], v), del[|del| - 1], v)
  }

  /** The second loop, over the bundles in the order the map yields them. */
  function CopyGroups(h: Hasher, s: Session, groups: map<int, seq<int>>, order: seq<int>, j: nat,
                      faults: Faults): Outcome<Session>
    requires forall k :: k in order ==> k in groups
    requires j <= |order|
    decreases |order| - j
  {
    if j == |order| then Outcome(s, true)
    else
      var c := CopyBundleExcept(h, s.b, order[j], groups[order[j]], faults);
      if !c.ok then Outcome(s.(b := c.state), false)
      else CopyGroups(h, s.(b := c.state, bdel := s.bdel + [order[j]]), groups, order, j + 1, faults)
  }

  /** The session that enters the second loop. */
  function Marked(s: Session): (Session, map<int, seq<int>>) {
    var m := MarkAll(Marking(s.b.item.blobs, map[]), s.del, s.version);
    var item := s.b.item.(blobs := m.blobs, versions := s.b.item.versions + [s.version]);
    (s.(b := s.b.(item := item)), m.groups)
  }

  function DeleteBundle(b: Bundler, k: int): Bundler {
    b.(disk := b.disk - {k}, trace := b.trace + [b.disk - {k}])
  }

  function DeleteBundles(b: Bundler, bdel: seq<int>, j: nat, faults: Faults): Outcome<Bundler>
    requires j <= |bdel|
    decreases |bdel| - j
  {
    if j == |bdel| then Outcome(b, true)
    else if faults.delete(bdel[j]) then Outcome(b, false)
    else DeleteBundles(DeleteBundle(b, bdel[j]), bdel, j + 1, faults)
  }

  function CommitRecord(b: Bundler): Bundler {
    CloseBundle(b.(item := b.item.(maxBundle := CurrentBundle(b))))
  }

  /** Writer.Close; `order` is the order in which the map of bundles is ranged over. */
  function CloseWriter(h: Hasher, s: Session, order: seq<int>, faults: Faults): Outcome<Session>
    requires forall k :: k in order ==> k in Marked(s).1
  {
    var c := CopyGroups(h, Marked(s).0, Marked(s).1, order, 0, faults);
    var b := CommitRecord(c.state.b);
    if !c.ok then Outcome(c.state.(b := b), false)
    else
      var d := DeleteBundles(b, c.state.bdel, 0, faults);
      Outcome(c.state.(b := d.state), d.ok)
  }
}
