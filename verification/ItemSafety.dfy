/** Crash safety: whatever a session does, every content the store ever has lets each live blob be
    found, holding the bytes first written for it. `orig[i]` is what was first written for blob i+1. */
module ItemSafety {
  import opened Prelude
  import opened ItemModel

  ghost predicate Numbered(blobs: seq<Blob>) {
    forall i :: 0 <= i < |blobs| ==> blobs[i].id == i + 1
  }

  /** Opening the stream `blob/id` of a bundle finds the first stream of that name. */
  function OpenStream(es: seq<Entry>, id: int): Option<Bytes> {
    if es == [] then None
    else if es[0].id == id then Some(es[0].data)
    else OpenStream(es[1..], id)
  }

  lemma {:induction false} OpenStreamAppend(es: seq<Entry>, e: Entry, id: int)
    ensures OpenStream(es + [e], id) ==
      if OpenStream(es, id) != None then OpenStream(es, id) else if e.id == id then Some(e.data) else None
  {
    if es != [] {
      assert (es + [e])[1..] == es[1..] + [e];
      OpenStreamAppend(es[1..], e, id);
    }
  }

  lemma {:induction false} OpenStreamIn(es: seq<Entry>, id: int)
    ensures OpenStream(es, id) != None ==> Entry(id, OpenStream(es, id).value) in es
    ensures OpenStream(es, id) == None ==> forall e :: e in es ==> e.id != id
  {
    if es != [] { OpenStreamIn(es[1..], id); }
  }

  /** No shorter beginning of its bytes passes for the blob, neither as it is recorded nor, deletion setting
      the size to 0, once it is deleted. */
  ghost predicate Sealed(h: Hasher, blob: Blob, data: Bytes) {
    forall p: Bytes :: p < data && (|p| == blob.size || p == "") ==>
      !(blob.md5 == h.md5(p) && blob.sha256 == h.sha256(p))
  }

  /** The stream holds its blob's bytes, or the beginning of them if the blob is sealed. */
  ghost predicate IsStream(h: Hasher, blobs: seq<Blob>, orig: seq<Bytes>, e: Entry) {
    && 1 <= e.id <= |orig| == |blobs|
    && (e.data == orig[e.id - 1] || (e.data < orig[e.id - 1] && Sealed(h, blobs[e.id - 1], orig[e.id - 1])))
  }

  /** Every stream names a blob of the item and holds its bytes, whole or torn. */
  ghost predicate Known(h: Hasher, blobs: seq<Blob>, es: seq<Entry>, orig: seq<Bytes>) {
    forall e {:trigger IsStream(h, blobs, orig, e)} :: e in es ==> IsStream(h, blobs, orig, e)
  }

  /** Nothing that bears on seals is lost. */
  ghost predicate SameHashes(a: seq<Blob>, b: seq<Blob>) {
    && |a| == |b|
    && forall i :: 0 <= i < |a| ==>
         a[i].md5 == b[i].md5 && a[i].sha256 == b[i].sha256 && (b[i].size == a[i].size || b[i].size == 0)
  }

  lemma SameHashesKnown(h: Hasher, a: seq<Blob>, b: seq<Blob>, es: seq<Entry>, orig: seq<Bytes>)
    requires Known(h, a, es, orig) && SameHashes(a, b)
    ensures Known(h, b, es, orig)
  {
    forall e | e in es
      ensures IsStream(h, b, orig, e)
    {
      assert IsStream(h, a, orig, e);
    }
  }

  /** The streams of bundle k, counting the one still open. */
  function EntriesOf(b: Bundler, k: int): seq<Entry> {
    if k in b.disk then b.disk[k].entries
    else if b.zw.Some? && k == b.n - 1 then b.zw.value
    else []
  }

  /** A record agrees with the bundles around it. */
  ghost predicate Consistent(h: Hasher, disk: Disk, blobs: seq<Blob>, orig: seq<Bytes>) {
    && Numbered(blobs) && |blobs| == |orig|
    && (forall k :: k in disk ==> k >= 1 && Known(h, blobs, disk[k].entries, orig))
    && (forall i :: 0 <= i < |blobs| && blobs[i].bundle != 0 ==>
          blobs[i].bundle in disk && OpenStream(disk[blobs[i].bundle].entries, i + 1) == Some(orig[i]))
  }

  /** What a crash leaves behind is enough: the record of the highest-numbered bundle agrees with
      the store, for the blobs it knows of. */
  ghost predicate Durable(h: Hasher, disk: Disk, orig: seq<Bytes>) {
    forall m :: IsMax(disk, m) ==>
      var blobs := disk[m].info.blobs;
      |blobs| <= |orig| && Consistent(h, disk, blobs, orig[..|blobs|])
  }

  ghost predicate BundlesKnown(h: Hasher, b: Bundler, orig: seq<Bytes>) {
    forall k :: Known(h, b.item.blobs, EntriesOf(b, k), orig)
  }

  ghost predicate Resident(b: Bundler, blobs: seq<Blob>, orig: seq<Bytes>)
    requires |blobs| <= |orig|
  {
    forall i :: 0 <= i < |blobs| && blobs[i].bundle != 0 ==>
      OpenStream(EntriesOf(b, blobs[i].bundle), i + 1) == Some(orig[i])
  }

  /** The open bundle holds whole streams only. A Close that failed can leave a torn one in it. */
  ghost predicate Whole(b: Bundler, orig: seq<Bytes>) {
    b.zw.Some? ==> WholeStreams(b.zw.value, orig)
  }

  ghost predicate WholeStreams(es: seq<Entry>, orig: seq<Bytes>) {
    forall e :: e in es ==> 1 <= e.id <= |orig| && e.data == orig[e.id - 1]
  }

  ghost predicate NumbersFresh(b: Bundler) {
    && b.n >= 1
    && (b.zw.Some? ==> b.n >= 2)
    && forall k :: k in b.disk ==> 1 <= k < (if b.zw.Some? then b.n - 1 else b.n)
  }

  ghost predicate TraceDurable(h: Hasher, trace: seq<Disk>, orig: seq<Bytes>) {
    forall t :: t in trace ==> Durable(h, t, orig)
  }

  /** The invariant of an open session. */
  ghost predicate Safe(h: Hasher, b: Bundler, orig: seq<Bytes>) {
    && Numbered(b.item.blobs) && |b.item.blobs| == |orig|
    && BundlesKnown(h, b, orig)
    && Resident(b, b.item.blobs, orig)
    && NumbersFresh(b)
    && Durable(h, b.disk, orig)
    && TraceDurable(h, b.trace, orig)
    && b.trace != [] && b.trace[|b.trace| - 1] == b.disk
  }

  // ---- BundleWriter operations

  lemma CommitIsDurable(h: Hasher, b: Bundler, orig: seq<Bytes>)
    requires Safe(h, b, orig) && b.zw.Some?
    ensures var c := CloseBundle(b);
      IsMax(c.disk, b.n - 1) && Consistent(h, c.disk, b.item.blobs, orig) && Durable(h, c.disk, orig)
  {
    var c := CloseBundle(b);
    forall k | k in c.disk
      ensures k >= 1 && Known(h, b.item.blobs, c.disk[k].entries, orig)
    {
      assert c.disk[k].entries == EntriesOf(b, k);
    }
    forall i | 0 <= i < |b.item.blobs| && b.item.blobs[i].bundle != 0
      ensures b.item.blobs[i].bundle in c.disk
      ensures OpenStream(c.disk[b.item.blobs[i].bundle].entries, i + 1) == Some(orig[i])
    {
      var k := b.item.blobs[i].bundle;
      assert OpenStream(EntriesOf(b, k), i + 1) == Some(orig[i]);
    }
    assert orig[..|orig|] == orig;
  }

  lemma CloseBundleSafe(h: Hasher, b: Bundler, orig: seq<Bytes>)
    requires Safe(h, b, orig)
    ensures Safe(h, CloseBundle(b), orig)
  {
    if b.zw.Some? {
      CommitIsDurable(h, b, orig);
      var c := CloseBundle(b);
      assert forall k :: EntriesOf(c, k) == EntriesOf(b, k);
    }
  }

  lemma NextBundleSafe(h: Hasher, b: Bundler, orig: seq<Bytes>)
    requires Safe(h, b, orig)
    ensures Safe(h, NextBundle(b), orig) && Whole(NextBundle(b), orig)
  {
    CloseBundleSafe(h, b, orig);
    var c, d := CloseBundle(b), NextBundle(b);
    assert forall k :: EntriesOf(d, k) == EntriesOf(c, k);
  }

  lemma RollSafe(h: Hasher, b: Bundler, orig: seq<Bytes>)
    requires Safe(h, b, orig)
    ensures Safe(h, Roll(b), orig)
    ensures Whole(b, orig) ==> Whole(Roll(b), orig)
    ensures Roll(b).item == b.item
  {
    if b.size >= IDEAL_BUNDLE_SIZE || b.zw.None? { NextBundleSafe(h, b, orig); }
  }

  /** Adding a stream to the open bundle moves nothing else. */
  lemma AppendedEntries(b: Bundler, id: int, data: Bytes)
    requires NumbersFresh(Roll(b))
    ensures var r, c := Roll(b), AppendBlob(b, id, data);
      forall k :: EntriesOf(c, k) ==
        if k == c.n - 1 then EntriesOf(r, k) + [Entry(id, data)] else EntriesOf(r, k)
  {
  }

  /** c is r with one more stream in the open bundle. */
  ghost predicate Appended(r: Bundler, c: Bundler, e: Entry) {
    && c.item == r.item && c.disk == r.disk && c.trace == r.trace && c.n == r.n && r.zw.Some? && c.zw.Some?
    && forall k :: EntriesOf(c, k) == (if k == c.n - 1 then EntriesOf(r, k) + [e] else EntriesOf(r, k))
  }

  lemma AppendedSafe(h: Hasher, r: Bundler, c: Bundler, e: Entry, orig: seq<Bytes>)
    requires Safe(h, r, orig) && Appended(r, c, e) && IsStream(h, r.item.blobs, orig, e)
    ensures Safe(h, c, orig)
  {
    forall k
      ensures Known(h, c.item.blobs, EntriesOf(c, k), orig)
    {
      assert Known(h, r.item.blobs, EntriesOf(r, k), orig);
    }
    forall i | 0 <= i < |orig| && c.item.blobs[i].bundle != 0
      ensures OpenStream(EntriesOf(c, c.item.blobs[i].bundle), i + 1) == Some(orig[i])
    {
      assert OpenStream(EntriesOf(r, r.item.blobs[i].bundle), i + 1) == Some(orig[i]);
      OpenStreamAppend(EntriesOf(r, c.n - 1), e, i + 1);
    }
  }

  /** A whole stream added to a bundle of whole streams is found there. */
  lemma AppendedWhole(h: Hasher, r: Bundler, c: Bundler, e: Entry, orig: seq<Bytes>)
    requires Safe(h, r, orig) && Whole(r, orig) && Appended(r, c, e)
    requires 1 <= e.id <= |orig| && e.data == orig[e.id - 1]
    ensures Whole(c, orig) && OpenStream(EntriesOf(c, c.n - 1), e.id) == Some(e.data)
  {
    var es := EntriesOf(r, c.n - 1);
    assert EntriesOf(c, c.n - 1) == es + [e];
    OpenStreamAppend(es, e, e.id);
    OpenStreamIn(es, e.id);
    assert c.n - 1 !in c.disk;
  }

  /** A copied stream: bytes of a blob of the item go into the open bundle once more. */
  lemma AppendCopySafe(h: Hasher, b: Bundler, id: int, data: Bytes, orig: seq<Bytes>)
    requires Safe(h, b, orig) && IsStream(h, b.item.blobs, orig, Entry(id, data))
    ensures var c := AppendBlob(b, id, data);
      && Safe(h, c, orig) && c.item == b.item
      && (Whole(b, orig) && data == orig[id - 1] ==>
            Whole(c, orig) && OpenStream(EntriesOf(c, c.n - 1), id) == Some(data))
  {
    RollSafe(h, b, orig);
    AppendedEntries(b, id, data);
    AppendedSafe(h, Roll(b), AppendBlob(b, id, data), Entry(id, data), orig);
    if Whole(b, orig) && data == orig[id - 1] {
      AppendedWhole(h, Roll(b), AppendBlob(b, id, data), Entry(id, data), orig);
    }
  }

  /** c is b with the blob at position i placed in bundle k. */
  ghost predicate Moved(b: Bundler, c: Bundler, i: nat, k: int) {
    && i < |b.item.blobs|
    && c == b.(item := b.item.(blobs := c.item.blobs))
    && c.item.blobs == b.item.blobs[i := b.item.blobs[i].(bundle := k)]
    && forall j :: EntriesOf(c, j) == EntriesOf(b, j)
  }

  lemma MovedSafe(h: Hasher, b: Bundler, c: Bundler, i: nat, k: int, orig: seq<Bytes>)
    requires Safe(h, b, orig) && Moved(b, c, i, k)
    requires OpenStream(EntriesOf(b, k), i + 1) == Some(orig[i])
    ensures Safe(h, c, orig)
  {
    forall j
      ensures Known(h, c.item.blobs, EntriesOf(c, j), orig)
    {
      assert Known(h, b.item.blobs, EntriesOf(b, j), orig);
      SameHashesKnown(h, b.item.blobs, c.item.blobs, EntriesOf(b, j), orig);
    }
  }

  lemma SetBundleMoves(b: Bundler, i: nat, k: int)
    requires i < |b.item.blobs|
    ensures Moved(b, SetBundle(b, i, k), i, k)
  {
  }

  lemma NumberedIndex(blobs: seq<Blob>, id: int)
    requires Numbered(blobs)
    ensures BlobIndex(blobs, id) == if 1 <= id <= |blobs| then id - 1 else |blobs|
  {
    var i := BlobIndex(blobs, id);
    if 1 <= id <= |blobs| { assert blobs[id - 1].id == id; }
  }

  /** In a safe session no stream of any bundle makes blobByID return nil. */
  lemma EntriesNameBlobs(h: Hasher, b: Bundler, orig: seq<Bytes>, k: int, e: Entry)
    requires Safe(h, b, orig) && e in EntriesOf(b, k)
    ensures BlobIndex(b.item.blobs, e.id) == e.id - 1 < |b.item.blobs|
  {
    assert Known(h, b.item.blobs, EntriesOf(b, k), orig);
    assert IsStream(h, b.item.blobs, orig, e);
    NumberedIndex(b.item.blobs, e.id);
  }

  /** CopyEntry for a stream that names a blob. */
  lemma CopyEntryIs(h: Hasher, b: Bundler, e: Entry)
    requires Numbered(b.item.blobs) && 1 <= e.id <= |b.item.blobs|
    ensures var c := AppendBlob(b, e.id, e.data);
      CopyEntry(h, b, e) ==
        if Valid(h, b.item.blobs[e.id - 1], e.data) then Outcome(SetBundle(c, e.id - 1, c.n - 1), true)
        else Outcome(c, false)
  {
    NumberedIndex(b.item.blobs, e.id);
  }

  /** A stream that passes for its blob is whole. */
  lemma ValidIsWhole(h: Hasher, blobs: seq<Blob>, orig: seq<Bytes>, e: Entry)
    requires IsStream(h, blobs, orig, e) && Valid(h, blobs[e.id - 1], e.data)
    ensures e.data == orig[e.id - 1]
  {
  }

  lemma CutStream(h: Hasher, blobs: seq<Blob>, orig: seq<Bytes>, e: Entry, n: nat)
    requires IsStream(h, blobs, orig, e) && Sealed(h, blobs[e.id - 1], orig[e.id - 1])
    ensures IsStream(h, blobs, orig, Entry(e.id, Cut(e.data, n)))
  {
    assert Cut(e.data, n) <= e.data <= orig[e.id - 1];
  }

  /** Copying a stream, be it torn: it is moved only if it is whole. */
  lemma CopyEntrySafe(h: Hasher, b: Bundler, e: Entry, orig: seq<Bytes>)
    requires Safe(h, b, orig) && Whole(b, orig) && IsStream(h, b.item.blobs, orig, e)
    ensures var c := CopyEntry(h, b, e);
      Safe(h, c.state, orig) && (c.ok ==> Whole(c.state, orig) && e.data == orig[e.id - 1])
  {
    CopyEntryIs(h, b, e);
    assert Entry(e.id, e.data) == e;
    if Valid(h, b.item.blobs[e.id - 1], e.data) {
      ValidCopySafe(h, b, e, orig);
    } else {
      AppendCopySafe(h, b, e.id, e.data, orig);
    }
  }

  lemma ValidCopySafe(h: Hasher, b: Bundler, e: Entry, orig: seq<Bytes>)
    requires Safe(h, b, orig) && Whole(b, orig) && IsStream(h, b.item.blobs, orig, e)
    requires Valid(h, b.item.blobs[e.id - 1], e.data)
    ensures var c := AppendBlob(b, e.id, e.data);
      && c.item == b.item && e.data == orig[e.id - 1]
      && var d := SetBundle(c, e.id - 1, c.n - 1); Safe(h, d, orig) && Whole(d, orig)
  {
    assert Entry(e.id, e.data) == e;
    AppendCopySafe(h, b, e.id, e.data, orig);
    ValidIsWhole(h, b.item.blobs, orig, e);
    MoveSafe(h, AppendBlob(b, e.id, e.data), e.id - 1, orig);
  }

  /** Placing a blob in the open bundle, where its stream is found. */
  lemma MoveSafe(h: Hasher, c: Bundler, i: nat, orig: seq<Bytes>)
    requires Safe(h, c, orig) && Whole(c, orig) && i < |orig|
    requires OpenStream(EntriesOf(c, c.n - 1), i + 1) == Some(orig[i])
    ensures var d := SetBundle(c, i, c.n - 1); Safe(h, d, orig) && Whole(d, orig)
  {
    SetBundleMoves(c, i, c.n - 1);
    MovedSafe(h, c, SetBundle(c, i, c.n - 1), i, c.n - 1, orig);
  }

  /** A stream whose reading fails midway, of a sealed blob. */
  lemma TearEntrySafe(h: Hasher, b: Bundler, e: Entry, n: nat, orig: seq<Bytes>)
    requires Safe(h, b, orig) && IsStream(h, b.item.blobs, orig, e)
    requires Sealed(h, b.item.blobs[e.id - 1], orig[e.id - 1])
    ensures Safe(h, TearEntry(b, e, n), orig)
  {
    NumberedIndex(b.item.blobs, e.id);
    CutStream(h, b.item.blobs, orig, e, n);
    AppendCopySafe(h, b, e.id, Cut(e.data, n), orig);
  }

  // ---- what the copying of a bundle leaves of it

  /** Reading fails midway only for streams of sealed blobs. */
  ghost predicate TornSealed(h: Hasher, blobs: seq<Blob>, orig: seq<Bytes>, faults: Faults) {
    forall k, j, id :: faults.torn(k, j, id) != None && 1 <= id <= |orig| && id <= |blobs| ==>
      Sealed(h, blobs[id - 1], orig[id - 1])
  }

  lemma TornSealedKept(h: Hasher, a: seq<Blob>, b: seq<Blob>, orig: seq<Bytes>, faults: Faults)
    requires TornSealed(h, a, orig, faults) && SameHashes(a, b)
    ensures TornSealed(h, b, orig, faults)
  {
  }

  /** Blobs change bundle only towards newer bundles, and nothing else about them changes. */
  ghost predicate MovedUp(old_: Bundler, new_: Bundler) {
    && |new_.item.blobs| == |old_.item.blobs|
    && new_.item.versions == old_.item.versions
    && new_.n >= old_.n
    && forall i :: 0 <= i < |old_.item.blobs| ==>
         && new_.item.blobs[i] == old_.item.blobs[i].(bundle := new_.item.blobs[i].bundle)
         && (new_.item.blobs[i].bundle == old_.item.blobs[i].bundle
             || new_.item.blobs[i].bundle >= old_.n - 1)
  }

  ghost predicate DiskKept(a: Disk, b: Disk) {
    forall k :: k in a ==> k in b && b[k] == a[k]
  }

  /** What copying does to everything but the copied blobs: nothing is lost. */
  ghost predicate Carried(a: Bundler, b: Bundler) {
    MovedUp(a, b) && b.zw.Some? && DiskKept(a.disk, b.disk) && a.trace <= b.trace
  }

  lemma CarriedTransitive(a: Bundler, b: Bundler, c: Bundler)
    requires Carried(a, b) && Carried(b, c)
    ensures Carried(a, c)
  {
  }

  /** From a to b, streams were added and blobs moved only for ids of `es` outside `except`. */
  ghost predicate OnlyCopies(a: Bundler, b: Bundler, es: seq<Entry>, except: seq<int>) {
    && (forall k, e :: e in EntriesOf(b, k) ==> e in EntriesOf(a, k) || (HasId(es, e.id) && e.id !in except))
    && (|a.item.blobs| == |b.item.blobs|)
    && (forall i :: 0 <= i < |a.item.blobs| && b.item.blobs[i].bundle != a.item.blobs[i].bundle ==>
          i + 1 !in except && HasId(es, i + 1))
  }

  predicate HasId(es: seq<Entry>, id: int) {
    exists e :: e in es && e.id == id
  }

  lemma RollCarried(h: Hasher, b: Bundler, orig: seq<Bytes>)
    requires Safe(h, b, orig) && b.zw.Some?
    ensures Carried(b, Roll(b)) && Roll(b).item == b.item
  {
  }

  lemma CopyEntryMoves(h: Hasher, b: Bundler, e: Entry, orig: seq<Bytes>)
    requires Safe(h, b, orig) && b.zw.Some? && 1 <= e.id <= |orig|
    ensures var c := CopyEntry(h, b, e);
      Carried(b, c.state) && (c.ok ==> c.state.item.blobs[e.id - 1].bundle == c.state.n - 1)
  {
    NumberedIndex(b.item.blobs, e.id);
    RollCarried(h, b, orig);
  }

  lemma TearEntryMoves(h: Hasher, b: Bundler, e: Entry, n: nat, orig: seq<Bytes>)
    requires Safe(h, b, orig) && b.zw.Some? && 1 <= e.id <= |orig|
    ensures Carried(b, TearEntry(b, e, n))
  {
    NumberedIndex(b.item.blobs, e.id);
    RollCarried(h, b, orig);
  }

  lemma TearEntryOnlyCopies(h: Hasher, b: Bundler, e: Entry, n: nat, es: seq<Entry>, except: seq<int>, orig: seq<Bytes>)
    requires Safe(h, b, orig) && 1 <= e.id <= |orig| && e in es && e.id !in except
    ensures OnlyCopies(b, TearEntry(b, e, n), es, except)
  {
    NumberedIndex(b.item.blobs, e.id);
    RollSafe(h, b, orig);
    RolledEntries(h, b, orig);
    AppendedEntries(b, e.id, Cut(e.data, n));
  }

  lemma CopyEntryOnlyCopies(h: Hasher, b: Bundler, e: Entry, es: seq<Entry>, except: seq<int>, orig: seq<Bytes>)
    requires Safe(h, b, orig)
    requires 1 <= e.id <= |orig| && e in es && e.id !in except
    ensures OnlyCopies(b, CopyEntry(h, b, e).state, es, except)
  {
    NumberedIndex(b.item.blobs, e.id);
    RollSafe(h, b, orig);
    RolledEntries(h, b, orig);
    AppendedEntries(b, e.id, e.data);
  }

  lemma RolledEntries(h: Hasher, b: Bundler, orig: seq<Bytes>)
    requires Safe(h, b, orig)
    ensures forall k :: EntriesOf(Roll(b), k) == EntriesOf(b, k)
  {
  }

  lemma OnlyCopiesTransitive(a: Bundler, b: Bundler, c: Bundler, es: seq<Entry>, except: seq<int>)
    requires OnlyCopies(a, b, es, except) && OnlyCopies(b, c, es, except)
    ensures OnlyCopies(a, c, es, except)
  {
  }

  lemma {:induction false} CopyEntriesOnlyCopies(h: Hasher, b: Bundler, src: int, es: seq<Entry>, except: seq<int>,
                                                 j: nat, faults: Faults, orig: seq<Bytes>)
    requires Safe(h, b, orig) && Whole(b, orig) && b.zw.Some? && j <= |es| && Known(h, b.item.blobs, es, orig)
    ensures OnlyCopies(b, CopyEntries(h, b, src, es, except, j, faults).state, es, except)
    decreases |es| - j
  {
    if j == |es| {
    } else if es[j].id in except {
      CopyEntriesOnlyCopies(h, b, src, es, except, j + 1, faults, orig);
    } else if !faults.open(src, j) {
      assert es[j] in es && IsStream(h, b.item.blobs, orig, es[j]);
      var torn := faults.torn(src, j, es[j].id);
      if torn != None { TearEntryOnlyCopies(h, b, es[j], torn.value, es, except, orig); }
      CopyEntrySafe(h, b, es[j], orig);
      CopyEntryMoves(h, b, es[j], orig);
      CopyEntryOnlyCopies(h, b, es[j], es, except, orig);
      var c := CopyEntry(h, b, es[j]);
      if torn == None && c.ok {
        CarriedKnown(h, b, c.state, es, orig);
        CopyEntriesOnlyCopies(h, c.state, src, es, except, j + 1, faults, orig);
        OnlyCopiesTransitive(b, c.state, CopyEntries(h, c.state, src, es, except, j + 1, faults).state, es, except);
      }
    }
  }

  lemma CarriedKnown(h: Hasher, b: Bundler, c: Bundler, es: seq<Entry>, orig: seq<Bytes>)
    requires Known(h, b.item.blobs, es, orig) && Carried(b, c)
    ensures SameHashes(b.item.blobs, c.item.blobs) && Known(h, c.item.blobs, es, orig)
  {
    SameHashesKnown(h, b.item.blobs, c.item.blobs, es, orig);
  }

  /** Either it went well, or what was torn belongs to sealed blobs. */
  ghost predicate Fair(h: Hasher, blobs: seq<Blob>, orig: seq<Bytes>, faults: Faults, ok: bool) {
    ok || TornSealed(h, blobs, orig, faults)
  }

  lemma CopyStepSafe(h: Hasher, b: Bundler, es: seq<Entry>, e: Entry, orig: seq<Bytes>)
    requires Safe(h, b, orig) && Whole(b, orig) && b.zw.Some? && Known(h, b.item.blobs, es, orig)
    requires IsStream(h, b.item.blobs, orig, e)
    ensures var c := CopyEntry(h, b, e);
      && Safe(h, c.state, orig) && Carried(b, c.state)
      && SameHashes(b.item.blobs, c.state.item.blobs) && Known(h, c.state.item.blobs, es, orig)
      && (c.ok ==> Whole(c.state, orig))
  {
    CopyEntrySafe(h, b, e, orig);
    CopyEntryMoves(h, b, e, orig);
    CarriedKnown(h, b, CopyEntry(h, b, e).state, es, orig);
  }

  lemma TearStepSafe(h: Hasher, b: Bundler, e: Entry, n: nat, orig: seq<Bytes>)
    requires Safe(h, b, orig) && b.zw.Some? && IsStream(h, b.item.blobs, orig, e)
    requires Sealed(h, b.item.blobs[e.id - 1], orig[e.id - 1])
    ensures Safe(h, TearEntry(b, e, n), orig) && Carried(b, TearEntry(b, e, n))
  {
    TearEntrySafe(h, b, e, n, orig);
    TearEntryMoves(h, b, e, n, orig);
  }

  lemma {:induction false} CopyEntriesSafe(h: Hasher, b: Bundler, src: int, es: seq<Entry>, except: seq<int>,
                                           j: nat, faults: Faults, orig: seq<Bytes>)
    requires Safe(h, b, orig) && Whole(b, orig) && b.zw.Some? && j <= |es| && Known(h, b.item.blobs, es, orig)
    requires Fair(h, b.item.blobs, orig, faults, CopyEntries(h, b, src, es, except, j, faults).ok)
    ensures var c := CopyEntries(h, b, src, es, except, j, faults);
      Safe(h, c.state, orig) && Carried(b, c.state) && (c.ok ==> Whole(c.state, orig))
    decreases |es| - j
  {
    if j == |es| {
    } else if es[j].id in except {
      CopyEntriesSafe(h, b, src, es, except, j + 1, faults, orig);
    } else if !faults.open(src, j) {
      assert es[j] in es && IsStream(h, b.item.blobs, orig, es[j]);
      var torn := faults.torn(src, j, es[j].id);
      if torn != None { TearStepSafe(h, b, es[j], torn.value, orig); }
      CopyStepSafe(h, b, es, es[j], orig);
      var c := CopyEntry(h, b, es[j]);
      if torn == None && c.ok {
        CopyEntriesSafe(h, c.state, src, es, except, j + 1, faults, orig);
        CarriedTransitive(b, c.state, CopyEntries(h, c.state, src, es, except, j + 1, faults).state);
      }
    }
  }

  lemma CopiesFirst(h: Hasher, b: Bundler, src: int, es: seq<Entry>, except: seq<int>, j: nat, faults: Faults)
    requires j < |es| && es[j].id !in except && CopyEntries(h, b, src, es, except, j, faults).ok
    ensures CopyEntry(h, b, es[j]).ok
    ensures CopyEntries(h, b, src, es, except, j, faults)
         == CopyEntries(h, CopyEntry(h, b, es[j]).state, src, es, except, j + 1, faults)
  {
  }

  /** After a successful copy, every blob that was to be copied is in a bundle opened since. */
  lemma {:induction false} CopyEntriesMove(h: Hasher, b: Bundler, src: int, es: seq<Entry>, except: seq<int>,
                                           j: nat, faults: Faults, orig: seq<Bytes>, p: nat)
    requires Safe(h, b, orig) && Whole(b, orig) && b.zw.Some? && j <= p < |es| && Known(h, b.item.blobs, es, orig)
    requires es[p].id !in except
    requires CopyEntries(h, b, src, es, except, j, faults).ok
    ensures var c := CopyEntries(h, b, src, es, except, j, faults).state;
      1 <= es[p].id <= |c.item.blobs| && c.item.blobs[es[p].id - 1].bundle >= b.n - 1
    decreases |es| - j
  {
    if es[j].id in except {
      CopyEntriesMove(h, b, src, es, except, j + 1, faults, orig, p);
    } else {
      assert es[j] in es && IsStream(h, b.item.blobs, orig, es[j]);
      CopiesFirst(h, b, src, es, except, j, faults);
      CopyEntrySafe(h, b, es[j], orig);
      CopyEntryMoves(h, b, es[j], orig);
      var c := CopyEntry(h, b, es[j]).state;
      CarriedKnown(h, b, c, es, orig);
      if j < p {
        CopyEntriesMove(h, c, src, es, except, j + 1, faults, orig, p);
      } else {
        CopyEntriesSafe(h, c, src, es, except, j + 1, faults, orig);
      }
    }
  }

  ghost predicate NoneIn(blobs: seq<Blob>, k: int) {
    forall i :: 0 <= i < |blobs| ==> blobs[i].bundle != k
  }

  lemma CopyBundleSafe(h: Hasher, b: Bundler, src: int, except: seq<int>, faults: Faults, orig: seq<Bytes>)
    requires Safe(h, b, orig) && Whole(b, orig) && b.zw.Some?
    requires Fair(h, b.item.blobs, orig, faults, CopyBundleExcept(h, b, src, except, faults).ok)
    ensures var c := CopyBundleExcept(h, b, src, except, faults);
      Safe(h, c.state, orig) && Carried(b, c.state) && (c.ok ==> Whole(c.state, orig))
  {
    if src in b.disk && !faults.open(src, -1) {
      assert Known(h, b.item.blobs, EntriesOf(b, src), orig);
      CopyEntriesSafe(h, b, src, b.disk[src].entries, except, 0, faults, orig);
    }
  }

  lemma NoneLeft(h: Hasher, b: Bundler, c: Bundler, src: int, es: seq<Entry>, except: seq<int>, orig: seq<Bytes>)
    requires Safe(h, b, orig) && b.zw.Some? && src in b.disk && es == b.disk[src].entries && src != 0
    requires |c.item.blobs| == |orig| && MovedUp(b, c)
    requires forall i :: 0 <= i < |orig| && i + 1 in except ==> b.item.blobs[i].bundle != src
    requires forall p :: 0 <= p < |es| && es[p].id !in except ==>
      1 <= es[p].id <= |orig| && c.item.blobs[es[p].id - 1].bundle >= b.n - 1
    ensures NoneIn(c.item.blobs, src)
  {
    forall i | 0 <= i < |orig|
      ensures c.item.blobs[i].bundle != src
    {
      if b.item.blobs[i].bundle == src {
        assert OpenStream(EntriesOf(b, src), i + 1) == Some(orig[i]);
        OpenStreamIn(EntriesOf(b, src), i + 1);
        var p :| 0 <= p < |es| && es[p] == Entry(i + 1, orig[i]);
      }
    }
  }

  /** After a successful copy no live blob is left in the source bundle. */
  lemma CopyBundleEmpties(h: Hasher, b: Bundler, src: int, except: seq<int>, faults: Faults, orig: seq<Bytes>)
    requires Safe(h, b, orig) && Whole(b, orig) && b.zw.Some? && src != 0
    requires forall i :: 0 <= i < |orig| && i + 1 in except ==> b.item.blobs[i].bundle != src
    requires CopyBundleExcept(h, b, src, except, faults).ok
    ensures src in b.disk && NoneIn(CopyBundleExcept(h, b, src, except, faults).state.item.blobs, src)
  {
    var c := CopyBundleExcept(h, b, src, except, faults).state;
    var es := b.disk[src].entries;
    assert Known(h, b.item.blobs, EntriesOf(b, src), orig);
    CopyBundleSafe(h, b, src, except, faults, orig);
    forall p | 0 <= p < |es| && es[p].id !in except
      ensures 1 <= es[p].id <= |orig| && c.item.blobs[es[p].id - 1].bundle >= b.n - 1
    {
      CopyEntriesMove(h, b, src, es, except, 0, faults, orig, p);
    }
    NoneLeft(h, b, c, src, es, except, orig);
  }

  lemma CopyBundleOnlyCopies(h: Hasher, b: Bundler, src: int, except: seq<int>, faults: Faults, orig: seq<Bytes>)
    requires Safe(h, b, orig) && Whole(b, orig) && b.zw.Some?
    ensures OnlyCopies(b, CopyBundleExcept(h, b, src, except, faults).state, EntriesOf(b, src), except)
  {
    if src in b.disk && !faults.open(src, -1) {
      assert Known(h, b.item.blobs, EntriesOf(b, src), orig);
      CopyEntriesOnlyCopies(h, b, src, b.disk[src].entries, except, 0, faults, orig);
    }
  }

  // ---- Writer operations

  /** A blob of the open bundle has no stream anywhere else. */
  ghost predicate OpenOnly(b: Bundler) {
    forall i, k, e :: 0 <= i < |b.item.blobs| && b.item.blobs[i].bundle == b.n - 1 && k != b.n - 1 ==>
      e in EntriesOf(b, k) ==> e.id != i + 1
  }

  /** The invariant of a Writer between Open and Close. */
  ghost predicate SafeSession(h: Hasher, s: Session, orig: seq<Bytes>) {
    && Safe(h, s.b, orig) && Whole(s.b, orig) && s.b.zw.Some? && OpenOnly(s.b)
    && (s.bnext == 0 || s.bnext == |orig| + 1)
    && s.bdel == []
  }

  lemma LiveBundles(h: Hasher, b: Bundler, orig: seq<Bytes>, i: nat)
    requires Safe(h, b, orig) && i < |orig| && b.item.blobs[i].bundle != 0
    ensures 1 <= b.item.blobs[i].bundle < b.n
    ensures b.zw.None? ==> b.item.blobs[i].bundle in b.disk
  {
    assert OpenStream(EntriesOf(b, b.item.blobs[i].bundle), i + 1) == Some(orig[i]);
  }

  lemma MaxIsUnique(disk: Disk, a: int, b: int)
    requires IsMax(disk, a) && IsMax(disk, b)
    ensures a == b
  {
  }

  /** Opening finds the state the store's newest record describes. */
  lemma OpenIsSafe(h: Hasher, disk: Disk, item: Item, creator: string, orig: seq<Bytes>)
    requires Durable(h, disk, orig) && Loads(disk, item)
    ensures |item.blobs| <= |orig|
    ensures SafeSession(h, OpenWriter(disk, item, creator), orig[..|item.blobs|])
  {
    var o := orig[..|item.blobs|];
    var b0 := Bundler(disk, [disk], item, None, 0, item.maxBundle + 1);
    if disk != map[] {
      assert Consistent(h, disk, item.blobs, o);
      assert o[..|o|] == o;
      assert forall k :: EntriesOf(b0, k) == if k in disk then disk[k].entries else [];
      assert forall m :: IsMax(disk, m) ==> m == item.maxBundle;
    }
    NextBundleSafe(h, b0, o);
    var b := NewBundler(disk, item);
    forall i | 0 <= i < |b.item.blobs|
      ensures b.item.blobs[i].bundle != b.n - 1
    {
      if b.item.blobs[i].bundle != 0 { LiveBundles(h, b0, o, i); }
    }
  }

  lemma DurableExtend(h: Hasher, disk: Disk, orig: seq<Bytes>, data: Bytes)
    requires Durable(h, disk, orig)
    ensures Durable(h, disk, orig + [data])
  {
    forall m | IsMax(disk, m)
      ensures var blobs := disk[m].info.blobs;
        |blobs| <= |orig| + 1 && Consistent(h, disk, blobs, (orig + [data])[..|blobs|])
    {
      assert (orig + [data])[..|disk[m].info.blobs|] == orig[..|disk[m].info.blobs|];
    }
  }

  lemma TraceExtend(h: Hasher, trace: seq<Disk>, orig: seq<Bytes>, data: Bytes)
    requires TraceDurable(h, trace, orig)
    ensures TraceDurable(h, trace, orig + [data])
  {
    forall t | t in trace { DurableExtend(h, t, orig, data); }
  }

  /** The session after a new blob's stream was written and its record appended. */
  ghost predicate BlobAdded(r: Bundler, c: Bundler, blob: Blob, data: Bytes) {
    && c.item.blobs == r.item.blobs + [blob] && blob.bundle == c.n - 1
    && r.zw.Some? && c.zw.Some? && c.n == r.n && c.disk == r.disk && c.trace == r.trace
    && forall k :: EntriesOf(c, k) ==
         if k == c.n - 1 then EntriesOf(r, k) + [Entry(blob.id, data)] else EntriesOf(r, k)
  }

  lemma AddBlobEntries(b: Bundler, blob: Blob, data: Bytes)
    requires NumbersFresh(Roll(b))
    requires blob.bundle == AppendBlob(b, blob.id, data).n - 1
    ensures BlobAdded(Roll(b), AddBlob(AppendBlob(b, blob.id, data), blob), blob, data)
  {
    var a := AppendBlob(b, blob.id, data);
    AppendedEntries(b, blob.id, data);
    var c := AddBlob(a, blob);
    assert forall k :: EntriesOf(c, k) == EntriesOf(a, k);
  }

  lemma KnownIds(h: Hasher, blobs: seq<Blob>, es: seq<Entry>, orig: seq<Bytes>)
    requires Known(h, blobs, es, orig)
    ensures forall e :: e in es ==> 1 <= e.id <= |orig|
  {
    forall e | e in es
      ensures 1 <= e.id <= |orig|
    {
      assert IsStream(h, blobs, orig, e);
    }
  }

  lemma AddBlobResident(h: Hasher, r: Bundler, c: Bundler, blob: Blob, data: Bytes, orig: seq<Bytes>)
    requires Safe(h, r, orig) && BlobAdded(r, c, blob, data) && blob.id == |orig| + 1
    ensures Resident(c, c.item.blobs, orig + [data])
  {
    forall i | 0 <= i < |c.item.blobs| && c.item.blobs[i].bundle != 0
      ensures OpenStream(EntriesOf(c, c.item.blobs[i].bundle), i + 1) == Some((orig + [data])[i])
    {
      OpenStreamAppend(EntriesOf(r, c.n - 1), Entry(blob.id, data), i + 1);
      if i < |orig| {
        assert OpenStream(EntriesOf(r, r.item.blobs[i].bundle), i + 1) == Some(orig[i]);
      } else {
        var es := EntriesOf(r, c.n - 1);
        OpenStreamIn(es, i + 1);
        KnownIds(h, r.item.blobs, es, orig);
      }
    }
  }

  lemma AddBlobOpenOnly(h: Hasher, r: Bundler, c: Bundler, blob: Blob, data: Bytes, orig: seq<Bytes>)
    requires Safe(h, r, orig) && BlobAdded(r, c, blob, data) && blob.id == |orig| + 1 && OpenOnly(r)
    ensures OpenOnly(c)
  {
    forall i, k, e | 0 <= i < |c.item.blobs| && c.item.blobs[i].bundle == c.n - 1 && k != c.n - 1
                     && e in EntriesOf(c, k)
      ensures e.id != i + 1
    {
      assert Known(h, r.item.blobs, EntriesOf(r, k), orig) && IsStream(h, r.item.blobs, orig, e);
    }
  }

  lemma RollOpenOnly(h: Hasher, b: Bundler, orig: seq<Bytes>)
    requires Safe(h, b, orig) && OpenOnly(b)
    ensures OpenOnly(Roll(b))
  {
    var r := Roll(b);
    RolledEntries(h, b, orig);
    if r.n != b.n {
      forall i | 0 <= i < |orig|
        ensures b.item.blobs[i].bundle != r.n - 1
      {
        if b.item.blobs[i].bundle != 0 { LiveBundles(h, b, orig, i); }
      }
    }
  }

  lemma KnownExtend(h: Hasher, blobs: seq<Blob>, blob: Blob, es: seq<Entry>, orig: seq<Bytes>, data: Bytes)
    requires Known(h, blobs, es, orig)
    ensures Known(h, blobs + [blob], es, orig + [data])
  {
    forall e | e in es
      ensures IsStream(h, blobs + [blob], orig + [data], e)
    {
      assert IsStream(h, blobs, orig, e);
    }
  }

  lemma BlobAddedSafe(h: Hasher, r: Bundler, c: Bundler, blob: Blob, data: Bytes, orig: seq<Bytes>)
    requires Safe(h, r, orig) && Whole(r, orig) && OpenOnly(r) && BlobAdded(r, c, blob, data) && blob.id == |orig| + 1
    ensures Safe(h, c, orig + [data]) && Whole(c, orig + [data]) && OpenOnly(c)
  {
    AddBlobResident(h, r, c, blob, data, orig);
    AddBlobOpenOnly(h, r, c, blob, data, orig);
    DurableExtend(h, r.disk, orig, data);
    TraceExtend(h, r.trace, orig, data);
    forall k
      ensures Known(h, c.item.blobs, EntriesOf(c, k), orig + [data])
    {
      assert Known(h, r.item.blobs, EntriesOf(r, k), orig);
      KnownExtend(h, r.item.blobs, blob, EntriesOf(r, k), orig, data);
    }
    assert EntriesOf(c, c.n - 1) == c.zw.value;
  }

  /** Writing a new blob: one more id, one more content, everything else as it was. */
  lemma AddBlobSafe(h: Hasher, b: Bundler, blob: Blob, data: Bytes, orig: seq<Bytes>)
    requires Safe(h, b, orig) && Whole(b, orig) && b.zw.Some? && OpenOnly(b)
    requires blob.id == |orig| + 1
    requires blob.bundle == AppendBlob(b, blob.id, data).n - 1
    ensures var c := AddBlob(AppendBlob(b, blob.id, data), blob);
      Safe(h, c, orig + [data]) && Whole(c, orig + [data]) && c.zw.Some? && OpenOnly(c)
  {
    RollSafe(h, b, orig);
    RollOpenOnly(h, b, orig);
    AddBlobEntries(b, blob, data);
    BlobAddedSafe(h, Roll(b), AddBlob(AppendBlob(b, blob.id, data), blob), blob, data, orig);
  }

  lemma FoundBlob(blobs: seq<Blob>, size: int, md5: Bytes, sha256: Bytes)
    ensures var id := FindBlobByHash(blobs, size, md5, sha256);
      id != 0 ==> size != 0 && exists i :: 0 <= i < |blobs| && blobs[i].id == id && Matches(blobs[i], size, md5, sha256)
  {
    if size != 0 && (md5 != "" || sha256 != "") && blobs != [] {
      if Matches(blobs[0], size, md5, sha256) {
      } else {
        FoundBlob(blobs[1..], size, md5, sha256);
        var id := FindBlobByHash(blobs[1..], size, md5, sha256);
        if id != 0 {
          var i :| 0 <= i < |blobs[1..]| && blobs[1..][i].id == id && Matches(blobs[1..][i], size, md5, sha256);
          assert blobs[i + 1] == blobs[1..][i];
        }
      }
    }
  }

  /** The first contents known after a WriteBlob: one more when a new blob was made. */
  function WrittenOrig(s: Session, orig: seq<Bytes>, data: Bytes, size: int, md5: Bytes, sha256: Bytes): seq<Bytes> {
    if FindBlobByHash(s.b.item.blobs, size, md5, sha256) != 0 then orig else orig + [data]
  }

  lemma WriteBlobSafe(h: Hasher, s: Session, data: Bytes, readerOK: bool, size: int, md5: Bytes, sha256: Bytes,
                      orig: seq<Bytes>)
    requires SafeSession(h, s, orig)
    ensures SafeSession(h, WriteBlob(h, s, data, readerOK, size, md5, sha256).0,
                        WrittenOrig(s, orig, data, size, md5, sha256))
  {
    if FindBlobByHash(s.b.item.blobs, size, md5, sha256) == 0 {
      var id := NextBlobID(s);
      var blob := WrittenBlob(h, id, AppendBlob(s.b, id, data).n - 1, data, readerOK, size, md5, sha256);
      AddBlobSafe(h, s.b, blob, data, orig);
    }
  }

  /** Only the mime types of blobs differ. */
  ghost predicate SameButMime(b: Bundler, c: Bundler) {
    && c == b.(item := b.item.(blobs := c.item.blobs))
    && |c.item.blobs| == |b.item.blobs|
    && (forall i :: 0 <= i < |b.item.blobs| ==>
          c.item.blobs[i] == b.item.blobs[i].(mimeType := c.item.blobs[i].mimeType))
    && forall k :: EntriesOf(c, k) == EntriesOf(b, k)
  }

  lemma SetMimeTypeSame(b: Bundler, id: int, mimeType: string)
    ensures SameButMime(b, b.(item := SetMimeType(b.item, id, mimeType)))
  {
  }

  lemma SameButMimeSafe(h: Hasher, b: Bundler, c: Bundler, orig: seq<Bytes>)
    requires Safe(h, b, orig) && OpenOnly(b) && SameButMime(b, c)
    ensures Safe(h, c, orig) && OpenOnly(c)
  {
    forall k
      ensures Known(h, c.item.blobs, EntriesOf(c, k), orig)
    {
      assert Known(h, b.item.blobs, EntriesOf(b, k), orig);
      SameHashesKnown(h, b.item.blobs, c.item.blobs, EntriesOf(b, k), orig);
    }
  }

  lemma SetMimeTypeSafe(h: Hasher, b: Bundler, id: int, mimeType: string, orig: seq<Bytes>)
    requires Safe(h, b, orig) && OpenOnly(b)
    ensures var c := b.(item := SetMimeType(b.item, id, mimeType)); Safe(h, c, orig) && OpenOnly(c)
  {
    SetMimeTypeSame(b, id, mimeType);
    SameButMimeSafe(h, b, b.(item := SetMimeType(b.item, id, mimeType)), orig);
  }
}
