/** Runs in which no failed read misses what was announced and every Close succeeds: each live blob is stored
    exactly once, each deleted blob nowhere, and no bundle ever committed holds two streams of one name. */
module ItemResidence {
  import opened Prelude
  import opened ItemModel
  import opened ItemSafety
  import opened ItemClose
  import opened ItemRuns
  import opened ItemHashes

  /** The streams of a bundle are of different blobs, numbered from 1. */
  ghost predicate DistinctIds(es: seq<Entry>) {
    && (forall i :: 0 <= i < |es| ==> es[i].id >= 1)
    && (forall i, j :: 0 <= i < j < |es| ==> es[i].id != es[j].id)
  }

  ghost predicate DistinctDisk(t: Disk) {
    forall k :: k in t ==> DistinctIds(t[k].entries)
  }

  /** No bundle, committed or open, past or present, has two streams of one blob. */
  ghost predicate NoDuplicates(b: Bundler) {
    && (forall k :: DistinctIds(EntriesOf(b, k)))
    && (forall t :: t in b.trace ==> DistinctDisk(t))
  }

  ghost predicate FiledIn(blobs: seq<Blob>, k: int, es: seq<Entry>) {
    forall e :: e in es ==> 1 <= e.id <= |blobs| && blobs[e.id - 1].bundle == k
  }

  /** Every stream is where the record says its blob is. */
  ghost predicate Filed(b: Bundler) {
    forall k :: FiledIn(b.item.blobs, k, EntriesOf(b, k))
  }

  ghost predicate FiledDisk(disk: Disk) {
    forall m, k :: IsMax(disk, m) && k in disk ==> FiledIn(disk[m].info.blobs, k, disk[k].entries)
  }

  ghost predicate FiledTrace(trace: seq<Disk>) {
    forall t :: t in trace ==> FiledDisk(t)
  }

  lemma CommitDistinct(b: Bundler)
    requires NoDuplicates(b) && NumbersFresh(b)
    ensures NoDuplicates(CloseBundle(b)) && NoDuplicates(NextBundle(b)) && NoDuplicates(Roll(b))
  {
    if b.zw.Some? {
      var c := CloseBundle(b);
      assert forall k :: EntriesOf(c, k) == EntriesOf(b, k);
      forall k | k in c.disk
        ensures DistinctIds(c.disk[k].entries)
      {
        assert c.disk[k].entries == EntriesOf(b, k);
      }
    }
    assert forall k :: EntriesOf(NextBundle(b), k) == EntriesOf(b, k);
  }

  // ---- before Close

  lemma CommitFiled(h: Hasher, b: Bundler, orig: seq<Bytes>)
    requires Safe(h, b, orig) && Filed(b) && FiledTrace(b.trace)
    ensures FiledTrace(CloseBundle(b).trace)
  {
    if b.zw.Some? {
      CommitIsDurable(h, b, orig);
      var c := CloseBundle(b);
      forall m, k | IsMax(c.disk, m) && k in c.disk
        ensures FiledIn(c.disk[m].info.blobs, k, c.disk[k].entries)
      {
        MaxIsUnique(c.disk, m, b.n - 1);
        assert c.disk[k].entries == EntriesOf(b, k);
      }
    }
  }

  ghost predicate CleanBundler(b: Bundler) {
    Filed(b) && NoDuplicates(b) && FiledTrace(b.trace)
  }

  lemma BlobAddedClean(h: Hasher, r: Bundler, c: Bundler, blob: Blob, data: Bytes, orig: seq<Bytes>)
    requires Safe(h, r, orig) && CleanBundler(r) && BlobAdded(r, c, blob, data) && blob.id == |orig| + 1
    ensures CleanBundler(c)
  {
    forall k
      ensures FiledIn(c.item.blobs, k, EntriesOf(c, k)) && DistinctIds(EntriesOf(c, k))
    {
      var es := EntriesOf(r, k);
      assert FiledIn(r.item.blobs, k, es) && DistinctIds(es) && Known(h, r.item.blobs, es, orig);
      forall i | 0 <= i < |es|
        ensures es[i].id != blob.id
      {
        assert es[i] in es && IsStream(h, r.item.blobs, orig, es[i]);
      }
    }
  }

  lemma RollClean(h: Hasher, b: Bundler, orig: seq<Bytes>)
    requires Safe(h, b, orig) && CleanBundler(b)
    ensures CleanBundler(Roll(b))
  {
    RolledEntries(h, b, orig);
    CommitDistinct(b);
    CommitFiled(h, b, orig);
    var r := Roll(b);
    forall k
      ensures FiledIn(r.item.blobs, k, EntriesOf(r, k))
    {
      assert FiledIn(b.item.blobs, k, EntriesOf(b, k));
    }
  }

  lemma AddBlobClean(h: Hasher, b: Bundler, blob: Blob, data: Bytes, orig: seq<Bytes>)
    requires Safe(h, b, orig) && b.zw.Some? && CleanBundler(b)
    requires blob.id == |orig| + 1 && blob.bundle == AppendBlob(b, blob.id, data).n - 1
    ensures CleanBundler(AddBlob(AppendBlob(b, blob.id, data), blob))
  {
    RollSafe(h, b, orig);
    RollClean(h, b, orig);
    AddBlobEntries(b, blob, data);
    BlobAddedClean(h, Roll(b), AddBlob(AppendBlob(b, blob.id, data), blob), blob, data, orig);
  }

  lemma WriteBlobClean(h: Hasher, s: Session, data: Bytes, readerOK: bool, size: int, md5: Bytes, sha256: Bytes,
                       orig: seq<Bytes>)
    requires SafeSession(h, s, orig) && CleanBundler(s.b)
    ensures CleanBundler(WriteBlob(h, s, data, readerOK, size, md5, sha256).0.b)
  {
    if FindBlobByHash(s.b.item.blobs, size, md5, sha256) == 0 {
      var id := NextBlobID(s);
      var blob := WrittenBlob(h, id, AppendBlob(s.b, id, data).n - 1, data, readerOK, size, md5, sha256);
      AddBlobClean(h, s.b, blob, data, orig);
    }
  }

  lemma SameButMimeClean(b: Bundler, c: Bundler)
    requires CleanBundler(b) && SameButMime(b, c)
    ensures CleanBundler(c)
  {
    forall k
      ensures FiledIn(c.item.blobs, k, EntriesOf(c, k))
    {
      assert FiledIn(b.item.blobs, k, EntriesOf(b, k));
    }
  }

  lemma SetMimeTypeClean(b: Bundler, id: int, mimeType: string)
    requires CleanBundler(b)
    ensures CleanBundler(b.(item := ItemModel.SetMimeType(b.item, id, mimeType)))
  {
    SetMimeTypeSame(b, id, mimeType);
    SameButMimeClean(b, b.(item := ItemModel.SetMimeType(b.item, id, mimeType)));
  }

  lemma ApplyClean(h: Hasher, s: Session, op: Op, orig: seq<Bytes>)
    requires SafeSession(h, s, orig) && CleanBundler(s.b)
    ensures CleanBundler(Apply(h, s, op).b)
  {
    if op.Write? {
      WriteBlobClean(h, s, op.data, op.readerOK, op.size, op.md5, op.sha256, orig);
    } else if op.SetMimeType? {
      SetMimeTypeClean(s.b, op.mid, op.mimeType);
    }
  }

  // ---- during Close

  /** No stream of any bundle is torn. */
  ghost predicate AllWhole(b: Bundler, orig: seq<Bytes>) {
    forall k :: WholeStreams(EntriesOf(b, k), orig)
  }

  /** A stream that is the only one of its name where its blob lives is the one that is read, so it is whole. */
  lemma CleanWhole(h: Hasher, b: Bundler, orig: seq<Bytes>)
    requires Safe(h, b, orig) && CleanBundler(b)
    ensures AllWhole(b, orig)
  {
    forall k
      ensures WholeStreams(EntriesOf(b, k), orig)
    {
      var es := EntriesOf(b, k);
      assert FiledIn(b.item.blobs, k, es) && DistinctIds(es);
      forall e | e in es
        ensures 1 <= e.id <= |orig| && e.data == orig[e.id - 1]
      {
        assert k != 0 && b.item.blobs[e.id - 1].bundle == k;
        assert OpenStream(EntriesOf(b, b.item.blobs[e.id - 1].bundle), (e.id - 1) + 1) == Some(orig[e.id - 1]);
        OnlyStream(es, e, orig[e.id - 1]);
      }
    }
  }

  lemma OnlyStream(es: seq<Entry>, e: Entry, data: Bytes)
    requires DistinctIds(es) && e in es && OpenStream(es, e.id) == Some(data)
    ensures e.data == data
  {
    OpenStreamIn(es, e.id);
  }

  lemma AllWholeIsWhole(h: Hasher, b: Bundler, orig: seq<Bytes>)
    requires Safe(h, b, orig) && AllWhole(b, orig)
    ensures Whole(b, orig)
  {
    if b.zw.Some? { assert EntriesOf(b, b.n - 1) == b.zw.value; }
  }

  /** A stream of bundle k is accounted for: its bundle was rewritten already, or the blob lives
      there, or it is one of the deleted blobs k still has to be rid of. */
  ghost predicate Accounted(b: Bundler, groups: map<int, seq<int>>, done: seq<int>, k: int, e: Entry) {
    && 1 <= e.id <= |b.item.blobs|
    && var at := b.item.blobs[e.id - 1].bundle;
    k in done || at == k || (k in groups && e.id in groups[k] && at == 0)
  }

  ghost predicate AllAccounted(b: Bundler, groups: map<int, seq<int>>, done: seq<int>) {
    forall k, e :: e in EntriesOf(b, k) ==> Accounted(b, groups, done, k, e)
  }

  /** The same while bundle src is being copied and its streams up to p have been dealt with. */
  ghost predicate AccountedFrom(b: Bundler, groups: map<int, seq<int>>, done: seq<int>, src: int, es: seq<Entry>,
                                p: nat) {
    && src in b.disk && b.disk[src].entries == es && src !in done
    && (forall k, e :: k != src && e in EntriesOf(b, k) ==> Accounted(b, groups, done, k, e))
    && (forall q :: p <= q < |es| ==> Accounted(b, groups, done, src, es[q]))
  }

  ghost predicate OnDisk(b: Bundler, done: seq<int>) {
    forall k :: k in done ==> k in b.disk
  }

  /** The open bundle of c has one more stream. */
  ghost predicate Streamed(b: Bundler, c: Bundler, e: Entry) {
    && c.n - 1 !in c.disk
    && forall k :: EntriesOf(c, k) == (if k == c.n - 1 then EntriesOf(b, k) + [e] else EntriesOf(b, k))
  }

  /** Stream e was copied into the open bundle of c, and its blob moved there. */
  ghost predicate Placed(b: Bundler, c: Bundler, e: Entry) {
    && 1 <= e.id <= |b.item.blobs|
    && c.item.blobs == b.item.blobs[e.id - 1 := b.item.blobs[e.id - 1].(bundle := c.n - 1)]
    && DiskKept(b.disk, c.disk) && Streamed(b, c, e)
  }

  lemma TearEntryStreams(h: Hasher, b: Bundler, e: Entry, n: nat, orig: seq<Bytes>)
    requires Safe(h, b, orig) && b.zw.Some? && 1 <= e.id <= |orig|
    ensures var c := TearEntry(b, e, n);
      && Streamed(b, c, Entry(e.id, Cut(e.data, n))) && c.trace == Roll(b).trace && DiskKept(b.disk, c.disk)
      && Upright(c)
  {
    NumberedIndex(b.item.blobs, e.id);
    RollFacts(h, b, orig);
    AppendedStreams(b, Entry(e.id, Cut(e.data, n)));
  }

  /** A bundle is open, and its number is new. */
  ghost predicate Upright(b: Bundler) {
    b.zw.Some? && NumbersFresh(b)
  }

  /** Bundles only get longer. */
  ghost predicate Grows(b: Bundler, c: Bundler) {
    forall k :: EntriesOf(b, k) <= EntriesOf(c, k)
  }

  /** A survivor's copy cannot fail, and goes to the open bundle only. */
  lemma CopyEntryPlaces(h: Hasher, b: Bundler, e: Entry, orig: seq<Bytes>)
    requires Safe(h, b, orig) && b.zw.Some? && Hashed(h, b.item.blobs, orig)
    requires 1 <= e.id <= |orig| && e.data == orig[e.id - 1] && b.item.blobs[e.id - 1].bundle != 0
    ensures var c := CopyEntry(h, b, e);
      c.ok && Placed(b, c.state, e) && c.state.trace == Roll(b).trace
  {
    assert Valid(h, b.item.blobs[e.id - 1], e.data);
    CopyEntryIs(h, b, e);
    RollFacts(h, b, orig);
    AppendedStreams(b, e);
    var a := AppendBlob(b, e.id, e.data);
    SetBundleMoves(a, e.id - 1, a.n - 1);
    MovedPlaces(b, a, SetBundle(a, e.id - 1, a.n - 1), e);
  }

  /** A new bundle may have been opened; nothing else has changed. */
  ghost predicate RolledOver(b: Bundler, r: Bundler) {
    && NumbersFresh(r) && DiskKept(b.disk, r.disk) && r.item == b.item
    && forall k :: EntriesOf(r, k) == EntriesOf(b, k)
  }

  lemma RollFacts(h: Hasher, b: Bundler, orig: seq<Bytes>)
    requires Safe(h, b, orig) && b.zw.Some?
    ensures RolledOver(b, Roll(b))
  {
    RollSafe(h, b, orig);
    RolledEntries(h, b, orig);
    RollCarried(h, b, orig);
  }

  lemma AppendedStreams(b: Bundler, e: Entry)
    requires RolledOver(b, Roll(b))
    ensures var a := AppendBlob(b, e.id, e.data);
      Streamed(b, a, e) && DiskKept(b.disk, a.disk) && a.item == Roll(b).item && a.trace == Roll(b).trace
  {
    AppendedEntries(b, e.id, e.data);
  }

  lemma MovedPlaces(b: Bundler, a: Bundler, c: Bundler, e: Entry)
    requires Streamed(b, a, e) && DiskKept(b.disk, a.disk) && a.item.blobs == b.item.blobs
    requires 1 <= e.id <= |b.item.blobs| && Moved(a, c, e.id - 1, a.n - 1)
    ensures Placed(b, c, e)
  {
  }

  /** No bundle but the source and rewritten ones has a stream of a survivor. */
  lemma SurvivorIsAlone(b: Bundler, groups: map<int, seq<int>>, done: seq<int>, src: int, es: seq<Entry>, p: nat,
                        k: int, x: Entry)
    requires p < |es| && src in groups && src != 0 && es[p].id !in groups[src]
    requires AccountedFrom(b, groups, done, src, es, p)
    requires k != src && k !in done && x in EntriesOf(b, k)
    ensures b.item.blobs[es[p].id - 1].bundle == src && x.id != es[p].id
  {
    assert Accounted(b, groups, done, src, es[p]);
    assert Accounted(b, groups, done, k, x);
  }

  lemma StreamedDistinct(b: Bundler, c: Bundler, groups: map<int, seq<int>>, done: seq<int>, src: int,
                         es: seq<Entry>, p: nat, x: Entry)
    requires p < |es| && src in groups && src != 0 && es[p].id !in groups[src] && x.id == es[p].id >= 1
    requires AccountedFrom(b, groups, done, src, es, p) && Streamed(b, c, x) && OnDisk(b, done)
    requires DiskKept(b.disk, c.disk)
    requires forall k :: DistinctIds(EntriesOf(b, k))
    ensures forall k :: DistinctIds(EntriesOf(c, k))
  {
    var cur := c.n - 1;
    var open := EntriesOf(b, cur);
    assert DistinctIds(open);
    forall i | 0 <= i < |open|
      ensures open[i].id != es[p].id
    {
      assert open[i] in open;
      SurvivorIsAlone(b, groups, done, src, es, p, cur, open[i]);
    }
    assert DistinctIds(EntriesOf(c, cur));
    forall k | k != cur
      ensures DistinctIds(EntriesOf(c, k))
    {
      assert DistinctIds(EntriesOf(b, k));
    }
  }

  lemma PlacedAccounted(b: Bundler, c: Bundler, groups: map<int, seq<int>>, done: seq<int>, src: int,
                        es: seq<Entry>, p: nat)
    requires p < |es| && src in groups && src != 0 && es[p].id !in groups[src] && DistinctIds(es)
    requires AccountedFrom(b, groups, done, src, es, p) && Placed(b, c, es[p])
    ensures AccountedFrom(c, groups, done, src, es, p + 1)
  {
    forall k, x | k != src && x in EntriesOf(c, k)
      ensures Accounted(c, groups, done, k, x)
    {
      if x in EntriesOf(b, k) {
        assert Accounted(b, groups, done, k, x);
        if k !in done { SurvivorIsAlone(b, groups, done, src, es, p, k, x); }
      }
    }
    forall q | p + 1 <= q < |es|
      ensures Accounted(c, groups, done, src, es[q])
    {
      assert Accounted(b, groups, done, src, es[q]);
    }
  }

  /** A survivor is copied: the copy cannot fail, and no name is used twice. */
  lemma CopyEntryAccounted(h: Hasher, b: Bundler, groups: map<int, seq<int>>, done: seq<int>, src: int,
                           es: seq<Entry>, p: nat, orig: seq<Bytes>)
    requires Safe(h, b, orig) && AllWhole(b, orig) && b.zw.Some? && Hashed(h, b.item.blobs, orig)
    requires NoDuplicates(b) && OnDisk(b, done)
    requires p < |es| && src in groups && es[p].id !in groups[src]
    requires AccountedFrom(b, groups, done, src, es, p)
    ensures var c := CopyEntry(h, b, es[p]);
      && c.ok && NoDuplicates(c.state) && AccountedFrom(c.state, groups, done, src, es, p + 1) && OnDisk(c.state, done)
      && AllWhole(c.state, orig)
  {
    assert es[p] in EntriesOf(b, src);
    assert Accounted(b, groups, done, src, es[p]);
    CopyEntryPlaces(h, b, es[p], orig);
    EntryPlaced(b, CopyEntry(h, b, es[p]).state, groups, done, src, es, p, orig);
  }

  lemma EntryPlaced(b: Bundler, c: Bundler, groups: map<int, seq<int>>, done: seq<int>, src: int,
                    es: seq<Entry>, p: nat, orig: seq<Bytes>)
    requires NumbersFresh(b) && AllWhole(b, orig) && NoDuplicates(b) && OnDisk(b, done)
    requires p < |es| && src in groups && es[p].id !in groups[src]
    requires AccountedFrom(b, groups, done, src, es, p)
    requires Placed(b, c, es[p]) && c.trace == Roll(b).trace
    ensures NoDuplicates(c) && AccountedFrom(c, groups, done, src, es, p + 1) && OnDisk(c, done) && AllWhole(c, orig)
  {
    assert es[p] in EntriesOf(b, src) && DistinctIds(EntriesOf(b, src));
    StreamsNoDuplicates(b, c, groups, done, src, es, p, es[p]);
    PlacedAccounted(b, c, groups, done, src, es, p);
    PlacedWhole(b, c, es[p], orig);
  }

  lemma PlacedWhole(b: Bundler, c: Bundler, e: Entry, orig: seq<Bytes>)
    requires AllWhole(b, orig) && Streamed(b, c, e) && 1 <= e.id <= |orig| && e.data == orig[e.id - 1]
    ensures AllWhole(c, orig)
  {
    forall k
      ensures WholeStreams(EntriesOf(c, k), orig)
    {
      assert WholeStreams(EntriesOf(b, k), orig);
    }
  }

  lemma EntryGrows(h: Hasher, b: Bundler, e: Entry, orig: seq<Bytes>)
    requires Safe(h, b, orig) && b.zw.Some? && 1 <= e.id <= |orig|
    ensures Grows(b, CopyEntry(h, b, e).state)
  {
    CopyEntryIs(h, b, e);
    RollSafe(h, b, orig);
    RolledEntries(h, b, orig);
    AppendedEntries(b, e.id, e.data);
    var c := AppendBlob(b, e.id, e.data);
    SetBundleMoves(c, e.id - 1, c.n - 1);
  }

  /** Nor is a name used twice by a survivor's torn copy. */
  lemma TearEntryDistinct(h: Hasher, b: Bundler, groups: map<int, seq<int>>, done: seq<int>, src: int,
                          es: seq<Entry>, p: nat, n: nat, orig: seq<Bytes>)
    requires Safe(h, b, orig) && AllWhole(b, orig) && b.zw.Some? && NoDuplicates(b) && OnDisk(b, done)
    requires p < |es| && src in groups && es[p].id !in groups[src]
    requires AccountedFrom(b, groups, done, src, es, p)
    ensures var c := TearEntry(b, es[p], n); NoDuplicates(c) && OnDisk(c, done) && Upright(c) && Grows(b, c)
  {
    assert es[p] in EntriesOf(b, src);
    var c, x := TearEntry(b, es[p], n), Entry(es[p].id, Cut(es[p].data, n));
    TearEntryStreams(h, b, es[p], n, orig);
    StreamsNoDuplicates(b, c, groups, done, src, es, p, x);
  }

  lemma StreamsNoDuplicates(b: Bundler, c: Bundler, groups: map<int, seq<int>>, done: seq<int>, src: int,
                            es: seq<Entry>, p: nat, x: Entry)
    requires NoDuplicates(b) && NumbersFresh(b) && OnDisk(b, done)
    requires p < |es| && src in groups && src != 0 && es[p].id !in groups[src] && x.id == es[p].id >= 1
    requires AccountedFrom(b, groups, done, src, es, p)
    requires Streamed(b, c, x) && DiskKept(b.disk, c.disk) && c.trace == Roll(b).trace
    ensures NoDuplicates(c) && OnDisk(c, done) && Grows(b, c)
  {
    CommitDistinct(b);
    StreamedDistinct(b, c, groups, done, src, es, p, x);
  }

  lemma {:induction false} CopyEntriesAccounted(h: Hasher, b: Bundler, groups: map<int, seq<int>>, done: seq<int>,
                                                src: int,
                                                es: seq<Entry>, p: nat, faults: Faults, orig: seq<Bytes>)
    requires Safe(h, b, orig) && AllWhole(b, orig) && b.zw.Some? && HashedBundler(h, b, orig)
    requires NoDuplicates(b) && OnDisk(b, done)
    requires p <= |es| && src in groups && AccountedFrom(b, groups, done, src, es, p)
    ensures var c := CopyEntries(h, b, src, es, groups[src], p, faults);
      && NoDuplicates(c.state) && OnDisk(c.state, done) && Upright(c.state) && Grows(b, c.state)
      && (c.ok ==> AccountedFrom(c.state, groups, done, src, es, |es|) && AllWhole(c.state, orig))
    decreases |es| - p
  {
    if p == |es| {
    } else if es[p].id in groups[src] {
      CopyEntriesAccounted(h, b, groups, done, src, es, p + 1, faults, orig);
    } else if !faults.open(src, p) {
      assert es[p] in EntriesOf(b, src);
      AllWholeIsWhole(h, b, orig);
      var torn := faults.torn(src, p, es[p].id);
      if torn != None { TearEntryDistinct(h, b, groups, done, src, es, p, torn.value, orig); }
      CopyEntryAccounted(h, b, groups, done, src, es, p, orig);
      CopyEntrySafe(h, b, es[p], orig);
      CopyEntryMoves(h, b, es[p], orig);
      CopyEntryHashed(h, b, es[p], orig);
      EntryGrows(h, b, es[p], orig);
      CopyEntriesAccounted(h, CopyEntry(h, b, es[p]).state, groups, done, src, es, p + 1, faults, orig);
    }
  }

  lemma CopyBundleAccounted(h: Hasher, b: Bundler, groups: map<int, seq<int>>, done: seq<int>, src: int,
                            faults: Faults, orig: seq<Bytes>)
    requires Safe(h, b, orig) && AllWhole(b, orig) && b.zw.Some? && HashedBundler(h, b, orig)
    requires NoDuplicates(b) && OnDisk(b, done)
    requires src in groups && src !in done && AllAccounted(b, groups, done)
    ensures var c := CopyBundleExcept(h, b, src, groups[src], faults);
      && NoDuplicates(c.state) && Upright(c.state) && Grows(b, c.state)
      && (c.ok ==>
            && AllWhole(c.state, orig) && AllAccounted(c.state, groups, done + [src])
            && OnDisk(c.state, done + [src]))
  {
    if src in b.disk && !faults.open(src, -1) {
      var es := b.disk[src].entries;
      assert es == EntriesOf(b, src);
      forall q | 0 <= q < |es|
        ensures Accounted(b, groups, done, src, es[q])
      {
        assert es[q] in EntriesOf(b, src);
      }
      CopyEntriesAccounted(h, b, groups, done, src, es, 0, faults, orig);
      var c := CopyBundleExcept(h, b, src, groups[src], faults);
      if c.ok {
        forall k, e | e in EntriesOf(c.state, k)
          ensures Accounted(c.state, groups, done + [src], k, e)
        {
          if k == src {
            AllWholeIsWhole(h, b, orig);
            CopyBundleSafe(h, b, src, groups[src], faults, orig);
            assert e in EntriesOf(c.state, src) && e in es;
          } else {
            assert Accounted(c.state, groups, done, k, e);
          }
        }
      }
    }
  }

  /** What holds between two bundles of the second loop of doDeletes: for the session, and for its streams. */
  ghost predicate Rewriting(h: Hasher, s: Session, groups: map<int, seq<int>>, order: seq<int>, j: nat,
                            orig: seq<Bytes>, top: int)
    requires forall k :: k in order ==> k in groups
  {
    RewritingSafely(h, s, groups, order, j, orig, top) && RewritingStreams(s, groups, order, orig)
  }

  ghost predicate RewritingSafely(h: Hasher, s: Session, groups: map<int, seq<int>>, order: seq<int>, j: nat,
                                  orig: seq<Bytes>, top: int)
    requires forall k :: k in order ==> k in groups
  {
    && j <= |order| && Distinct(order) && s.bdel == order[..j]
    && Safe(h, s.b, orig) && Whole(s.b, orig) && s.b.zw.Some? && s.b.n - 1 >= top && HashedBundler(h, s.b, orig)
    && Pending(s.b, groups, order, j, top) && Emptied(s.b, s.bdel)
  }

  ghost predicate RewritingStreams(s: Session, groups: map<int, seq<int>>, order: seq<int>, orig: seq<Bytes>)
    requires forall k :: k in order ==> k in groups
  {
    && AllWhole(s.b, orig) && NoDuplicates(s.b) && AllAccounted(s.b, groups, s.bdel) && OnDisk(s.b, s.bdel)
    && (forall k :: k in order ==> HoldsDeleted(s.b, groups[k], k))
  }

  /** Bundle k has a stream of a blob to be left behind. */
  ghost predicate HoldsDeleted(b: Bundler, ids: seq<int>, k: int) {
    exists e :: e in EntriesOf(b, k) && e.id in ids
  }

  /** Bundle k has a stream of a blob that is recorded elsewhere, or nowhere. */
  ghost predicate Misfiled(b: Bundler, k: int) {
    exists e :: e in EntriesOf(b, k) && 1 <= e.id <= |b.item.blobs| && b.item.blobs[e.id - 1].bundle != k
  }

  /** The group at which copying stops still has what it was to be rid of. */
  lemma StoppedMisfiled(h: Hasher, s: Session, groups: map<int, seq<int>>, order: seq<int>, j: nat,
                        faults: Faults, orig: seq<Bytes>, top: int)
    requires forall k :: k in order ==> k in groups
    requires Rewriting(h, s, groups, order, j, orig, top) && j < |order|
    requires var c := CopyBundleExcept(h, s.b, order[j], groups[order[j]], faults).state; Grows(s.b, c)
    ensures Misfiled(CopyBundleExcept(h, s.b, order[j], groups[order[j]], faults).state, order[j])
  {
    var k := order[j];
    assert k in order && HoldsDeleted(s.b, groups[k], k);
    var e :| e in EntriesOf(s.b, k) && e.id in groups[k];
    CopyBundleOnlyCopies(h, s.b, k, groups[k], faults, orig);
    var c := CopyBundleExcept(h, s.b, k, groups[k], faults).state;
    assert EntriesOf(s.b, k) <= EntriesOf(c, k);
    assert s.b.item.blobs[e.id - 1].bundle != k;
    assert c.item.blobs[e.id - 1].bundle == s.b.item.blobs[e.id - 1].bundle;
  }

  lemma HoldsKept(b: Bundler, c: Bundler, groups: map<int, seq<int>>, order: seq<int>)
    requires forall k :: k in order ==> k in groups && HoldsDeleted(b, groups[k], k)
    requires Grows(b, c)
    ensures forall k :: k in order ==> HoldsDeleted(c, groups[k], k)
  {
    forall k | k in order
      ensures HoldsDeleted(c, groups[k], k)
    {
      assert HoldsDeleted(b, groups[k], k) && EntriesOf(b, k) <= EntriesOf(c, k);
    }
  }

  lemma GroupRewritten(h: Hasher, s: Session, groups: map<int, seq<int>>, order: seq<int>, j: nat,
                       faults: Faults, orig: seq<Bytes>, top: int)
    requires forall k :: k in order ==> k in groups
    requires RewritingSafely(h, s, groups, order, j, orig, top) && j < |order|
    requires CopyBundleExcept(h, s.b, order[j], groups[order[j]], faults).ok
    ensures var c := CopyBundleExcept(h, s.b, order[j], groups[order[j]], faults).state;
      RewritingSafely(h, s.(b := c, bdel := s.bdel + [order[j]]), groups, order, j + 1, orig, top)
  {
    CopyGroupSafe(h, s, groups, order, j, faults, orig, top);
    CopyBundleHashed(h, s.b, order[j], groups[order[j]], faults, orig);
    assert order[..j] + [order[j]] == order[..j + 1];
  }

  lemma CopyGroupAccounted(h: Hasher, s: Session, groups: map<int, seq<int>>, order: seq<int>, j: nat,
                           faults: Faults, orig: seq<Bytes>, top: int)
    requires forall k :: k in order ==> k in groups
    requires Rewriting(h, s, groups, order, j, orig, top) && j < |order|
    ensures var c := CopyBundleExcept(h, s.b, order[j], groups[order[j]], faults);
      && NoDuplicates(c.state) && Upright(c.state) && Grows(s.b, c.state)
      && (c.ok ==> RewritingStreams(s.(b := c.state, bdel := s.bdel + [order[j]]), groups, order, orig))
  {
    var k := order[j];
    assert k in order && k !in order[..j];
    CopyBundleAccounted(h, s.b, groups, s.bdel, k, faults, orig);
    HoldsKept(s.b, CopyBundleExcept(h, s.b, k, groups[k], faults).state, groups, order);
  }

  lemma {:induction false} CopyGroupsAccounted(h: Hasher, s: Session, groups: map<int, seq<int>>, order: seq<int>,
                                               j: nat,
                                               faults: Faults, orig: seq<Bytes>, top: int)
    requires forall k :: k in order ==> k in groups
    requires Rewriting(h, s, groups, order, j, orig, top)
    ensures var c := CopyGroups(h, s, groups, order, j, faults);
      && NoDuplicates(c.state.b) && Upright(c.state.b)
      && (!c.ok ==> exists k :: Misfiled(c.state.b, k))
      && (c.ok ==> Rewriting(h, c.state, groups, order, |order|, orig, top))
    decreases |order| - j
  {
    if j < |order| {
      var k := order[j];
      assert k in order;
      CopyGroupAccounted(h, s, groups, order, j, faults, orig, top);
      var c := CopyBundleExcept(h, s.b, k, groups[k], faults);
      if c.ok {
        GroupRewritten(h, s, groups, order, j, faults, orig, top);
        CopyGroupsAccounted(h, s.(b := c.state, bdel := s.bdel + [k]), groups, order, j + 1, faults, orig, top);
      } else {
        StoppedMisfiled(h, s, groups, order, j, faults, orig, top);
      }
    }
  }

  lemma MarkedAccounted(h: Hasher, s: Session, orig: seq<Bytes>)
    requires SafeSession(h, s, orig) && CleanBundler(s.b)
    ensures var (m, groups) := Marked(s); AllAccounted(m.b, groups, []) && NoDuplicates(m.b) && AllWhole(m.b, orig)
  {
    var (m, groups) := Marked(s);
    var blobs := s.b.item.blobs;
    MarkAllSpec(blobs, s.del, s.version);
    CleanWhole(h, s.b, orig);
    forall k
      ensures EntriesOf(m.b, k) == EntriesOf(s.b, k)
    {
    }
    forall k, e | e in EntriesOf(m.b, k)
      ensures Accounted(m.b, groups, [], k, e)
    {
      assert FiledIn(blobs, k, EntriesOf(s.b, k)) && e in EntriesOf(s.b, k);
      assert k != 0;
      if e.id in s.del {
        assert InGroup(blobs, s.del, k, e.id);
      }
    }
  }

  lemma {:induction false} DeleteBundlesDistinct(b: Bundler, bdel: seq<int>, j: nat, faults: Faults)
    requires j <= |bdel| && NoDuplicates(b) && b.zw.None?
    ensures NoDuplicates(DeleteBundles(b, bdel, j, faults).state)
    decreases |bdel| - j
  {
    if j < |bdel| && !faults.delete(bdel[j]) {
      var c := DeleteBundle(b, bdel[j]);
      forall k | k in c.disk
        ensures DistinctIds(c.disk[k].entries)
      {
        assert c.disk[k].entries == EntriesOf(b, k);
      }
      assert forall k :: DistinctIds(EntriesOf(c, k));
      DeleteBundlesDistinct(c, bdel, j + 1, faults);
    }
  }

  lemma CommitRecordDistinct(b: Bundler)
    requires Upright(b) && NoDuplicates(b)
    ensures NoDuplicates(CommitRecord(b))
  {
    var b0 := b.(item := b.item.(maxBundle := CurrentBundle(b)));
    assert forall k :: EntriesOf(b0, k) == EntriesOf(b, k);
    CommitDistinct(b0);
  }

  /** Once the rewritten bundles are gone, what is accounted for is filed. */
  lemma RemovedFiled(h: Hasher, b: Bundler, groups: map<int, seq<int>>, order: seq<int>, faults: Faults,
                     orig: seq<Bytes>)
    requires Safe(h, b, orig) && b.zw.Some? && Emptied(b, order)
    requires IsOrder(order, groups.Keys) && AllAccounted(b, groups, order)
    requires DeleteBundles(CommitRecord(b), order, 0, faults).ok
    ensures FiledDisk(DeleteBundles(CommitRecord(b), order, 0, faults).state.disk)
  {
    var c := CommitRecord(b);
    CommitSettles(h, b, orig);
    DeleteBundlesSettled(h, c, order, 0, faults, orig);
    var d := DeleteBundles(c, order, 0, faults).state;
    forall q, k, e | IsMax(d.disk, q) && k in d.disk && e in d.disk[k].entries
      ensures var blobs := d.disk[q].info.blobs; 1 <= e.id <= |blobs| && blobs[e.id - 1].bundle == k
    {
      MaxIsUnique(d.disk, q, c.item.maxBundle);
      assert k !in order && k !in groups;
      assert e in EntriesOf(b, k);
      assert Accounted(b, groups, order, k, e);
    }
  }

  /** A misfiled stream shows in the store once the record is committed. */
  lemma MisfiledCommits(b: Bundler, k: int)
    requires Upright(b) && Misfiled(b, k)
    ensures !FiledDisk(CommitRecord(b).disk)
  {
    var d := CommitRecord(b).disk;
    var e :| e in EntriesOf(b, k) && 1 <= e.id <= |b.item.blobs| && b.item.blobs[e.id - 1].bundle != k;
    assert IsMax(d, b.n - 1) && d[b.n - 1].info.blobs == b.item.blobs;
    assert k in d && e in d[k].entries;
    assert !FiledIn(d[b.n - 1].info.blobs, k, d[k].entries);
  }

  lemma {:induction false} DeletionStops(b: Bundler, bdel: seq<int>, j: nat, faults: Faults) returns (k: int)
    requires j <= |bdel| && Distinct(bdel) && forall p :: j <= p < |bdel| ==> bdel[p] in b.disk
    requires !DeleteBundles(b, bdel, j, faults).ok
    ensures k in bdel && k in DeleteBundles(b, bdel, j, faults).state.disk
    decreases |bdel| - j
  {
    if faults.delete(bdel[j]) {
      k := bdel[j];
    } else {
      k := DeletionStops(DeleteBundle(b, bdel[j]), bdel, j + 1, faults);
    }
  }

  /** What is left in the store when the deletion of rewritten bundles stops. */
  lemma StoppedDisk(h: Hasher, b: Bundler, order: seq<int>, faults: Faults, orig: seq<Bytes>) returns (k: int)
    requires Safe(h, b, orig) && b.zw.Some? && Emptied(b, order) && Distinct(order)
    requires !DeleteBundles(CommitRecord(b), order, 0, faults).ok
    ensures var d := DeleteBundles(CommitRecord(b), order, 0, faults).state.disk;
      && k in order && k in d && d[k].entries == EntriesOf(b, k)
      && IsMax(d, b.n - 1) && d[b.n - 1].info.blobs == b.item.blobs
  {
    var c := CommitRecord(b);
    CommitSettles(h, b, orig);
    DeleteBundlesSettled(h, c, order, 0, faults, orig);
    k := DeletionStops(c, order, 0, faults);
    assert k in b.disk;
  }

  /** A rewritten bundle that could not be deleted has streams that are recorded elsewhere, or nowhere. */
  lemma LeftMisfiled(h: Hasher, b: Bundler, groups: map<int, seq<int>>, order: seq<int>, faults: Faults,
                     orig: seq<Bytes>)
    requires Safe(h, b, orig) && AllWhole(b, orig) && b.zw.Some? && Emptied(b, order) && Distinct(order)
    requires forall k :: k in order ==> k in groups && HoldsDeleted(b, groups[k], k)
    requires !DeleteBundles(CommitRecord(b), order, 0, faults).ok
    ensures !FiledDisk(DeleteBundles(CommitRecord(b), order, 0, faults).state.disk)
  {
    var k := StoppedDisk(h, b, order, faults, orig);
    assert HoldsDeleted(b, groups[k], k) && NoneIn(b.item.blobs, k);
    var e :| e in EntriesOf(b, k) && e.id in groups[k];
    assert !FiledIn(b.item.blobs, k, EntriesOf(b, k));
  }

  /** Closing a clean session: no bundle on the way has a duplicate, and Close returns nil if and only if every
      stream left is where the new record says. */
  lemma CloseClean(h: Hasher, s: Session, order: seq<int>, faults: Faults, orig: seq<Bytes>)
    requires SafeSession(h, s, orig) && HashedBundler(h, s.b, orig) && CleanBundler(s.b)
    requires IsOrder(order, Marked(s).1.Keys)
    ensures var c := CloseWriter(h, s, order, faults);
      NoDuplicates(c.state.b) && (c.ok <==> FiledDisk(c.state.b.disk))
  {
    var (m, groups) := Marked(s);
    MarkedRewriting(h, s, order, orig);
    CopyGroupsAccounted(h, m, groups, order, 0, faults, orig, s.b.n - 1);
    var c := CopyGroups(h, m, groups, order, 0, faults);
    CommitRecordDistinct(c.state.b);
    if c.ok {
      assert order[..|order|] == order;
      DeleteBundlesDistinct(CommitRecord(c.state.b), order, 0, faults);
      if CloseWriter(h, s, order, faults).ok {
        RemovedFiled(h, c.state.b, groups, order, faults, orig);
      } else {
        LeftMisfiled(h, c.state.b, groups, order, faults, orig);
      }
    } else {
      var k :| Misfiled(c.state.b, k);
      MisfiledCommits(c.state.b, k);
    }
  }

  lemma MarkedRewriting(h: Hasher, s: Session, order: seq<int>, orig: seq<Bytes>)
    requires SafeSession(h, s, orig) && HashedBundler(h, s.b, orig) && CleanBundler(s.b)
    requires IsOrder(order, Marked(s).1.Keys)
    ensures Rewriting(h, Marked(s).0, Marked(s).1, order, 0, orig, s.b.n - 1)
  {
    var (m, groups) := Marked(s);
    MarkedSafe(h, s, order, orig);
    MarkedHashed(h, s, orig);
    MarkedAccounted(h, s, orig);
    MarkAllSpec(s.b.item.blobs, s.del, s.version);
    assert forall k :: EntriesOf(m.b, k) == EntriesOf(s.b, k);
    forall k | k in order
      ensures HoldsDeleted(m.b, groups[k], k)
    {
      assert k in groups && groups[k][0] in groups[k];
      var id := groups[k][0];
      assert InGroup(s.b.item.blobs, s.del, k, id) && k != 0;
      assert OpenStream(EntriesOf(s.b, s.b.item.blobs[id - 1].bundle), (id - 1) + 1) == Some(orig[id - 1]);
      OpenStreamIn(EntriesOf(s.b, k), id);
    }
  }

  // ---- runs

  /** No failed read misses what was announced, every Close returns nil and none is cut by a crash. */
  ghost predicate CleanEvent(h: Hasher, w: World, e: Event) {
    && !EventMisses(h, w, e) && !e.CrashInClose?
    && (e.Close? && w.Busy? && IsOrder(e.order, Marked(w.session).1.Keys) ==>
          CloseWriter(h, w.session, e.order, e.faults).ok)
  }

  ghost predicate CleanRun(h: Hasher, ws: seq<World>, es: seq<Event>) {
    IsRun(h, ws, es) && forall i :: 0 <= i < |es| ==> CleanEvent(h, ws[i], es[i])
  }

  ghost predicate WorldClean(w: World) {
    match w
    case Idle(disk, _, _) => FiledDisk(disk) && DistinctDisk(disk)
    case Busy(s, _) => CleanBundler(s.b)
  }

  lemma OpenClean(h: Hasher, disk: Disk, item: Item, creator: string, orig: seq<Bytes>)
    requires Durable(h, disk, orig) && Loads(disk, item) && FiledDisk(disk) && DistinctDisk(disk)
    ensures CleanBundler(OpenWriter(disk, item, creator).b)
  {
    var b0 := Bundler(disk, [disk], item, None, 0, item.maxBundle + 1);
    var b := NewBundler(disk, item);
    forall k
      ensures EntriesOf(b, k) == if k in disk then disk[k].entries else []
      ensures FiledIn(b.item.blobs, k, EntriesOf(b, k))
    {
      if k in disk { assert FiledIn(disk[item.maxBundle].info.blobs, k, disk[k].entries); }
    }
  }

  lemma NextClean(h: Hasher, w: World, e: Event, w': World)
    requires WorldSafe(h, w) && WorldHashed(h, w) && WorldClean(w) && Next(h, w, e, w') && CleanEvent(h, w, e)
    ensures WorldClean(w')
  {
    match e
    case Open(item, creator) => OpenClean(h, w.disk, item, creator, w.orig);
    case Do(op) => ApplyClean(h, w.session, op, w.orig);
    case Close(order, faults) =>
      CloseClean(h, w.session, order, faults, w.orig);
      CloseSafe(h, w.session, order, faults, w.orig);
    case CrashInDo(op, t) => ApplyClean(h, w.session, op, w.orig);
    case Restart =>
  }

  lemma {:induction false} RunClean(h: Hasher, ws: seq<World>, es: seq<Event>, i: nat)
    requires CleanRun(h, ws, es) && i < |ws|
    ensures WorldSafe(h, ws[i]) && WorldHashed(h, ws[i]) && WorldClean(ws[i])
  {
    if i > 0 {
      RunClean(h, ws, es, i - 1);
      assert CleanEvent(h, ws[i - 1], es[i - 1]) && Next(h, ws[i - 1], es[i - 1], ws[i]);
      assert FairEvent(h, ws[i - 1], es[i - 1]);
      NextSafe(h, ws[i - 1], es[i - 1], ws[i]);
      NextHashed(h, ws[i - 1], es[i - 1], ws[i]);
      NextClean(h, ws[i - 1], es[i - 1], ws[i]);
    }
  }

  /** Residence. Whenever no session is open, a stream `blob/id` of bundle k is there if and only if
      the record places the live blob id in k, then there is just one in that bundle, and the
      record's size and hashes are those of its bytes. */
  lemma Residence(h: Hasher, ws: seq<World>, es: seq<Event>, i: nat, m: int, k: int, id: int)
    requires CleanRun(h, ws, es) && i < |ws| && ws[i].Idle?
    requires IsMax(ws[i].disk, m) && k in ws[i].disk
    ensures var blobs := ws[i].disk[m].info.blobs;
      var es := ws[i].disk[k].entries;
      && ((exists e :: e in es && e.id == id) <==> 1 <= id <= |blobs| && blobs[id - 1].bundle == k)
      && (forall p, q :: 0 <= p < |es| && 0 <= q < |es| && es[p].id == es[q].id ==> p == q)
      && (forall e :: e in es && e.id == id ==> Valid(h, blobs[id - 1], e.data))
  {
    RunClean(h, ws, es, i);
    var disk, orig := ws[i].disk, ws[i].orig;
    var blobs := disk[m].info.blobs;
    assert FiledIn(blobs, k, disk[k].entries);
    assert Consistent(h, disk, blobs, orig[..|blobs|]);
    var es := disk[k].entries;
    OpenStreamIn(es, id);
    if 1 <= id <= |blobs| && blobs[id - 1].bundle == k {
      assert k >= 1;
      assert OpenStream(es, (id - 1) + 1) == Some(orig[..|blobs|][id - 1]);
    }
    forall e | e in es && e.id == id
      ensures Valid(h, blobs[id - 1], e.data)
    {
      assert DistinctIds(es) && Hashed(h, blobs, orig);
    }
  }

  /** Every bundle the store ever holds in such a run, those that appear in the middle of an
      operation included, has distinct stream names. */
  lemma BundlesHaveDistinctNames(h: Hasher, ws: seq<World>, es: seq<Event>, i: nat, t: Disk, k: int)
    requires CleanRun(h, ws, es) && i < |ws| && k in t
    requires match ws[i]
      case Idle(disk, _, _) => t == disk
      case Busy(s, _) => t in s.b.trace || exists order, faults ::
        IsOrder(order, Marked(s).1.Keys) && t in CloseWriter(h, s, order, faults).state.b.trace
    ensures DistinctIds(t[k].entries)
  {
    RunClean(h, ws, es, i);
    if ws[i].Busy? && t !in ws[i].session.b.trace {
      var s := ws[i].session;
      var order, faults :| IsOrder(order, Marked(s).1.Keys) && t in CloseWriter(h, s, order, faults).state.b.trace;
      CloseClean(h, s, order, faults, ws[i].orig);
    }
  }
}
