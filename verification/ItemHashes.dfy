/** As long as no read that failed was announced with a size or hash its bytes miss, recorded sizes and
    hashes are those of the stored bytes, and deduplication by hash only ever finds what was asked for. */
module ItemHashes {
  import opened Prelude
  import opened ItemModel
  import opened ItemSafety
  import opened ItemClose
  import opened ItemRuns

  /** A live blob's record describes its bytes; a deleted blob has size 0. */
  ghost predicate Hashed(h: Hasher, blobs: seq<Blob>, orig: seq<Bytes>) {
    && |blobs| <= |orig|
    && forall i :: 0 <= i < |blobs| ==>
         if blobs[i].bundle == 0 then blobs[i].size == 0 else Valid(h, blobs[i], orig[i])
  }

  ghost predicate HashedDisk(h: Hasher, disk: Disk, orig: seq<Bytes>) {
    forall m :: IsMax(disk, m) ==> Hashed(h, disk[m].info.blobs, orig)
  }

  ghost predicate HashedTrace(h: Hasher, trace: seq<Disk>, orig: seq<Bytes>) {
    forall t :: t in trace ==> HashedDisk(h, t, orig)
  }

  ghost predicate HashedBundler(h: Hasher, b: Bundler, orig: seq<Bytes>) {
    Hashed(h, b.item.blobs, orig) && HashedTrace(h, b.trace, orig)
  }

  lemma CommitHashed(h: Hasher, b: Bundler, orig: seq<Bytes>)
    requires Safe(h, b, orig) && HashedBundler(h, b, orig)
    ensures HashedBundler(h, CloseBundle(b), orig)
  {
    if b.zw.Some? {
      CommitIsDurable(h, b, orig);
      var c := CloseBundle(b);
      forall m | IsMax(c.disk, m)
        ensures m == b.n - 1
      {
        MaxIsUnique(c.disk, m, b.n - 1);
      }
    }
  }

  lemma AppendHashed(h: Hasher, b: Bundler, id: int, data: Bytes, orig: seq<Bytes>)
    requires Safe(h, b, orig) && HashedBundler(h, b, orig)
    ensures HashedBundler(h, AppendBlob(b, id, data), orig)
  {
    CommitHashed(h, b, orig);
  }

  lemma CopyEntryHashed(h: Hasher, b: Bundler, e: Entry, orig: seq<Bytes>)
    requires Safe(h, b, orig) && Whole(b, orig) && b.zw.Some? && HashedBundler(h, b, orig)
    requires IsStream(h, b.item.blobs, orig, e)
    ensures HashedBundler(h, CopyEntry(h, b, e).state, orig)
  {
    NumberedIndex(b.item.blobs, e.id);
    AppendHashed(h, b, e.id, e.data, orig);
    CopyEntrySafe(h, b, e, orig);
  }

  lemma TearEntryHashed(h: Hasher, b: Bundler, e: Entry, n: nat, orig: seq<Bytes>)
    requires Safe(h, b, orig) && HashedBundler(h, b, orig)
    ensures HashedBundler(h, TearEntry(b, e, n), orig)
  {
    AppendHashed(h, b, e.id, Cut(e.data, n), orig);
  }

  lemma {:induction false} CopyEntriesHashed(h: Hasher, b: Bundler, src: int, es: seq<Entry>, except: seq<int>,
                                             j: nat, faults: Faults, orig: seq<Bytes>)
    requires Safe(h, b, orig) && Whole(b, orig) && b.zw.Some? && HashedBundler(h, b, orig)
    requires j <= |es| && Known(h, b.item.blobs, es, orig)
    ensures HashedBundler(h, CopyEntries(h, b, src, es, except, j, faults).state, orig)
    decreases |es| - j
  {
    if j == |es| {
    } else if es[j].id in except {
      CopyEntriesHashed(h, b, src, es, except, j + 1, faults, orig);
    } else if !faults.open(src, j) {
      assert es[j] in es && IsStream(h, b.item.blobs, orig, es[j]);
      var torn := faults.torn(src, j, es[j].id);
      if torn != None { TearEntryHashed(h, b, es[j], torn.value, orig); }
      CopyEntrySafe(h, b, es[j], orig);
      CopyEntryMoves(h, b, es[j], orig);
      CopyEntryHashed(h, b, es[j], orig);
      var c := CopyEntry(h, b, es[j]);
      if torn == None && c.ok {
        CarriedKnown(h, b, c.state, es, orig);
        CopyEntriesHashed(h, c.state, src, es, except, j + 1, faults, orig);
      }
    }
  }

  lemma CopyBundleHashed(h: Hasher, b: Bundler, src: int, except: seq<int>, faults: Faults, orig: seq<Bytes>)
    requires Safe(h, b, orig) && Whole(b, orig) && b.zw.Some? && HashedBundler(h, b, orig)
    ensures HashedBundler(h, CopyBundleExcept(h, b, src, except, faults).state, orig)
  {
    if src in b.disk && !faults.open(src, -1) {
      assert Known(h, b.item.blobs, EntriesOf(b, src), orig);
      CopyEntriesHashed(h, b, src, b.disk[src].entries, except, 0, faults, orig);
    }
  }

  lemma {:induction false} CopyGroupsHashed(h: Hasher, s: Session, groups: map<int, seq<int>>, order: seq<int>, j: nat,
                                            faults: Faults, orig: seq<Bytes>, top: int)
    requires forall k :: k in order ==> k in groups
    requires j <= |order| && Distinct(order)
    requires Safe(h, s.b, orig) && Whole(s.b, orig) && s.b.zw.Some? && s.b.n - 1 >= top && HashedBundler(h, s.b, orig)
    requires Pending(s.b, groups, order, j, top) && Emptied(s.b, s.bdel)
    requires Fair(h, s.b.item.blobs, orig, faults, CopyGroups(h, s, groups, order, j, faults).ok)
    ensures HashedBundler(h, CopyGroups(h, s, groups, order, j, faults).state.b, orig)
    decreases |order| - j
  {
    if j < |order| {
      var k := order[j];
      CopyGroupSafe(h, s, groups, order, j, faults, orig, top);
      CopyBundleHashed(h, s.b, k, groups[k], faults, orig);
      var c := CopyBundleExcept(h, s.b, k, groups[k], faults);
      if c.ok {
        if TornSealed(h, s.b.item.blobs, orig, faults) {
          TornSealedKept(h, s.b.item.blobs, c.state.item.blobs, orig, faults);
        }
        CopyGroupsHashed(h, s.(b := c.state, bdel := s.bdel + [k]), groups, order, j + 1, faults, orig, top);
      }
    }
  }

  lemma {:induction false} DeleteBundlesHashed(h: Hasher, b: Bundler, bdel: seq<int>, j: nat, faults: Faults,
                                               orig: seq<Bytes>)
    requires j <= |bdel| && Settled(h, b, orig) && HashedBundler(h, b, orig)
    requires forall k :: k in bdel ==> k < b.item.maxBundle && NoneIn(b.item.blobs, k)
    ensures HashedBundler(h, DeleteBundles(b, bdel, j, faults).state, orig)
    decreases |bdel| - j
  {
    if j < |bdel| && !faults.delete(bdel[j]) {
      assert bdel[j] in bdel;
      DeleteBundleSettled(h, b, bdel[j], orig);
      var c := DeleteBundle(b, bdel[j]);
      forall m | IsMax(c.disk, m)
        ensures m == b.item.maxBundle
      {
        MaxIsUnique(c.disk, m, b.item.maxBundle);
      }
      DeleteBundlesHashed(h, c, bdel, j + 1, faults, orig);
    }
  }

  lemma MarkedHashed(h: Hasher, s: Session, orig: seq<Bytes>)
    requires SafeSession(h, s, orig) && HashedBundler(h, s.b, orig)
    ensures HashedBundler(h, Marked(s).0.b, orig)
  {
    MarkAllSpec(s.b.item.blobs, s.del, s.version);
  }

  lemma CommitRecordHashed(h: Hasher, b: Bundler, orig: seq<Bytes>)
    requires Safe(h, b, orig) && HashedBundler(h, b, orig)
    ensures HashedBundler(h, CommitRecord(b), orig)
  {
    var b0 := b.(item := b.item.(maxBundle := CurrentBundle(b)));
    assert forall k :: EntriesOf(b0, k) == EntriesOf(b, k);
    CommitHashed(h, b0, orig);
  }

  lemma CopiedHashed(h: Hasher, s: Session, order: seq<int>, faults: Faults, orig: seq<Bytes>)
    requires SafeSession(h, s, orig) && HashedBundler(h, s.b, orig) && IsOrder(order, Marked(s).1.Keys)
    requires FairClose(h, s, order, faults, orig)
    ensures HashedBundler(h, CopyGroups(h, Marked(s).0, Marked(s).1, order, 0, faults).state.b, orig)
  {
    MarkedSafe(h, s, order, orig);
    MarkedHashed(h, s, orig);
    if TornSealed(h, s.b.item.blobs, orig, faults) {
      TornSealedKept(h, s.b.item.blobs, Marked(s).0.b.item.blobs, orig, faults);
    }
    CopyGroupsHashed(h, Marked(s).0, Marked(s).1, order, 0, faults, orig, s.b.n - 1);
  }

  lemma CloseHashed(h: Hasher, s: Session, order: seq<int>, faults: Faults, orig: seq<Bytes>)
    requires SafeSession(h, s, orig) && HashedBundler(h, s.b, orig) && IsOrder(order, Marked(s).1.Keys)
    requires FairClose(h, s, order, faults, orig)
    ensures HashedBundler(h, CloseWriter(h, s, order, faults).state.b, orig)
  {
    CopiedHashed(h, s, order, faults, orig);
    CopiedSafe(h, s, order, faults, orig);
    var c := CopyGroups(h, Marked(s).0, Marked(s).1, order, 0, faults);
    CommitRecordHashed(h, c.state.b, orig);
    CommitSettles(h, c.state.b, orig);
    if c.ok { DeleteBundlesHashed(h, CommitRecord(c.state.b), c.state.bdel, 0, faults, orig); }
  }

  lemma HashedTraceExtend(h: Hasher, trace: seq<Disk>, orig: seq<Bytes>, data: Bytes)
    requires HashedTrace(h, trace, orig)
    ensures HashedTrace(h, trace, orig + [data])
  {
    forall t | t in trace
      ensures HashedDisk(h, t, orig + [data])
    {
      assert HashedDisk(h, t, orig);
    }
  }

  /** The bytes have the size and hashes they were announced to have, as far as they were. */
  predicate Meets(h: Hasher, data: Bytes, size: int, md5: Bytes, sha256: Bytes) {
    (size == 0 || size == |data|) && (md5 == "" || md5 == h.md5(data)) && (sha256 == "" || sha256 == h.sha256(data))
  }

  /** A failed read that leaves a record its bytes do not have: nothing was found by hash, and what came
      before the failure misses the announced size or hashes. */
  predicate Misses(h: Hasher, s: Session, op: Op) {
    && op.Write? && !op.readerOK && !Meets(h, op.data, op.size, op.md5, op.sha256)
    && FindBlobByHash(s.b.item.blobs, op.size, op.md5, op.sha256) == 0
  }

  lemma WriteBlobTrace(h: Hasher, s: Session, data: Bytes, readerOK: bool, size: int, md5: Bytes, sha256: Bytes,
                       orig: seq<Bytes>)
    requires SafeSession(h, s, orig) && HashedBundler(h, s.b, orig)
    ensures HashedTrace(h, WriteBlob(h, s, data, readerOK, size, md5, sha256).0.b.trace,
                        WrittenOrig(s, orig, data, size, md5, sha256))
  {
    if FindBlobByHash(s.b.item.blobs, size, md5, sha256) == 0 {
      AppendHashed(h, s.b, NextBlobID(s), data, orig);
      HashedTraceExtend(h, AppendBlob(s.b, NextBlobID(s), data).trace, orig, data);
    }
  }

  /** WriteBlob leaves records that describe the stored bytes, except exactly after a failed read that misses
      what was announced. */
  lemma WriteBlobHashed(h: Hasher, s: Session, data: Bytes, readerOK: bool, size: int, md5: Bytes, sha256: Bytes,
                        orig: seq<Bytes>)
    requires SafeSession(h, s, orig) && HashedBundler(h, s.b, orig)
    ensures HashedBundler(h, WriteBlob(h, s, data, readerOK, size, md5, sha256).0.b,
                          WrittenOrig(s, orig, data, size, md5, sha256))
      <==> !Misses(h, s, Write(data, readerOK, size, md5, sha256))
  {
    WriteBlobTrace(h, s, data, readerOK, size, md5, sha256, orig);
    if FindBlobByHash(s.b.item.blobs, size, md5, sha256) == 0 {
      var id := NextBlobID(s);
      var b := AppendBlob(s.b, id, data);
      var blob := WrittenBlob(h, id, b.n - 1, data, readerOK, size, md5, sha256);
      var c := WriteBlob(h, s, data, readerOK, size, md5, sha256).0.b;
      assert c.item.blobs == s.b.item.blobs + [blob];
      assert blob.bundle != 0;
      assert Valid(h, blob, data) <==> readerOK || Meets(h, data, size, md5, sha256);
      if HashedBundler(h, c, orig + [data]) {
        assert Valid(h, c.item.blobs[|orig|], (orig + [data])[|orig|]);
      }
    }
  }

  /** What a caller was promised about the blob that WriteBlob returned. */
  ghost predicate Stored(h: Hasher, s: Session, orig: seq<Bytes>, id: int, size: int, md5: Bytes, sha256: Bytes) {
    && 1 <= id <= |orig| == |s.b.item.blobs|
    && var blob := s.b.item.blobs[id - 1];
    var bytes := orig[id - 1];
    && blob.id == id && blob.bundle != 0
    && OpenStream(EntriesOf(s.b, blob.bundle), id) == Some(bytes)
    && (size != 0 ==> |bytes| == size)
    && (md5 != "" ==> h.md5(bytes) == md5)
    && (sha256 != "" ==> h.sha256(bytes) == sha256)
  }

  lemma StoredIf(h: Hasher, s: Session, orig: seq<Bytes>, id: int, size: int, md5: Bytes, sha256: Bytes)
    requires SafeSession(h, s, orig) && 1 <= id <= |orig| && s.b.item.blobs[id - 1].bundle != 0
    requires Meets(h, orig[id - 1], size, md5, sha256)
    ensures Stored(h, s, orig, id, size, md5, sha256)
  {
    assert s.b.item.blobs[id - 1].id == id;
    assert OpenStream(EntriesOf(s.b, s.b.item.blobs[id - 1].bundle), (id - 1) + 1) == Some(orig[id - 1]);
  }

  lemma FoundSound(h: Hasher, s: Session, size: int, md5: Bytes, sha256: Bytes, orig: seq<Bytes>)
    requires SafeSession(h, s, orig) && HashedBundler(h, s.b, orig)
    ensures var id := FindBlobByHash(s.b.item.blobs, size, md5, sha256);
      id != 0 ==> Stored(h, s, orig, id, size, md5, sha256)
  {
    FoundBlob(s.b.item.blobs, size, md5, sha256);
    var id := FindBlobByHash(s.b.item.blobs, size, md5, sha256);
    if id != 0 {
      var i :| 0 <= i < |s.b.item.blobs| && s.b.item.blobs[i].id == id && Matches(s.b.item.blobs[i], size, md5, sha256);
      StoredIf(h, s, orig, id, size, md5, sha256);
    }
  }

  /** Dedup soundness: whenever WriteBlob returns an id without error, found or freshly written, the
      blob is live and its stored bytes have the size and hashes that were asked for. */
  lemma DedupSound(h: Hasher, s: Session, data: Bytes, readerOK: bool, size: int, md5: Bytes, sha256: Bytes,
                   orig: seq<Bytes>)
    requires SafeSession(h, s, orig) && HashedBundler(h, s.b, orig)
    ensures var (s', id) := WriteBlob(h, s, data, readerOK, size, md5, sha256);
      var orig' := WrittenOrig(s, orig, data, size, md5, sha256);
      && (id != 0 ==> Stored(h, s', orig', id, size, md5, sha256))
      && (id == 0 <==> FindBlobByHash(s.b.item.blobs, size, md5, sha256) == 0
                       && !(readerOK && Meets(h, data, size, md5, sha256)))
      && (s' != s && id != 0 ==> id == |orig| + 1 && orig'[id - 1] == data)
  {
    FoundSound(h, s, size, md5, sha256, orig);
    WriteBlobSafe(h, s, data, readerOK, size, md5, sha256, orig);
    var (s', id) := WriteBlob(h, s, data, readerOK, size, md5, sha256);
    if FindBlobByHash(s.b.item.blobs, size, md5, sha256) == 0 && id != 0 {
      StoredIf(h, s', orig + [data], id, size, md5, sha256);
    }
  }

  /** Deleted blobs are never found, and neither is anything when no size is given. */
  lemma DeletedNeverFound(h: Hasher, blobs: seq<Blob>, size: int, md5: Bytes, sha256: Bytes, orig: seq<Bytes>)
    requires Hashed(h, blobs, orig) && Numbered(blobs)
    ensures var id := FindBlobByHash(blobs, size, md5, sha256);
      id != 0 ==> 1 <= id <= |blobs| && blobs[id - 1].bundle != 0 && |orig[id - 1]| == size != 0
  {
    FoundBlob(blobs, size, md5, sha256);
  }

  // ---- runs

  predicate EventMisses(h: Hasher, w: World, e: Event) {
    e.Do? && w.Busy? && Misses(h, w.session, e.op)
  }

  /** No failed read of the run, up to event n, was announced with a size or hash that its bytes miss. */
  ghost predicate NoneMisses(h: Hasher, ws: seq<World>, es: seq<Event>, n: nat) {
    forall i :: 0 <= i < n && i < |es| && i < |ws| ==> !EventMisses(h, ws[i], es[i])
  }

  ghost predicate WorldHashed(h: Hasher, w: World) {
    match w
    case Idle(disk, _, orig) => HashedDisk(h, disk, orig)
    case Busy(s, orig) => HashedBundler(h, s.b, orig)
  }

  lemma CrashedHashed(h: Hasher, orig: seq<Bytes>, t: Disk, w: World)
    requires HashedDisk(h, t, orig) && Crashed(orig, t, w)
    ensures WorldHashed(h, w)
  {
    forall m | IsMax(t, m)
      ensures Hashed(h, t[m].info.blobs, w.orig)
    {
      var q :| IsMax(t, q) && |t[q].info.blobs| <= |orig| && w.orig == orig[..|t[q].info.blobs|];
      MaxIsUnique(t, m, q);
    }
  }

  lemma ApplyHashed(h: Hasher, s: Session, op: Op, orig: seq<Bytes>)
    requires SafeSession(h, s, orig) && HashedBundler(h, s.b, orig)
    ensures HashedBundler(h, Apply(h, s, op).b, ApplyOrig(s, orig, op)) <==> !Misses(h, s, op)
    ensures HashedTrace(h, Apply(h, s, op).b.trace, ApplyOrig(s, orig, op))
  {
    match op
    case Write(data, readerOK, size, md5, sha256) =>
      WriteBlobHashed(h, s, data, readerOK, size, md5, sha256, orig);
      WriteBlobTrace(h, s, data, readerOK, size, md5, sha256, orig);
    case _ =>
  }

  /** Every event keeps records truthful, except exactly a read that fails and misses. */
  lemma NextHashed(h: Hasher, w: World, e: Event, w': World)
    requires WorldSafe(h, w) && WorldHashed(h, w) && Next(h, w, e, w') && FairEvent(h, w, e)
    ensures WorldHashed(h, w') <==> !EventMisses(h, w, e)
  {
    match e
    case Open(item, creator) =>
      LoadedCounted(w.disk, item, w.orig);
      assert HashedTrace(h, [w.disk], w.orig);
    case Do(op) => ApplyHashed(h, w.session, op, w.orig);
    case Close(order, faults) =>
      CloseHashed(h, w.session, order, faults, w.orig);
      CloseSafe(h, w.session, order, faults, w.orig);
    case CrashInDo(op, t) =>
      ApplyHashed(h, w.session, op, w.orig);
      CrashedHashed(h, ApplyOrig(w.session, w.orig, op), t, w');
    case CrashInClose(order, faults, t) =>
      CloseHashed(h, w.session, order, faults, w.orig);
      CrashedHashed(h, w.orig, t, w');
    case Restart =>
  }

  lemma {:induction false} RunHashed(h: Hasher, ws: seq<World>, es: seq<Event>, i: nat)
    requires IsRun(h, ws, es) && TearsSealed(h, ws, es) && i < |ws| && NoneMisses(h, ws, es, i)
    ensures WorldHashed(h, ws[i])
  {
    if i > 0 {
      RunHashed(h, ws, es, i - 1);
      RunSafe(h, ws, es, i - 1);
      assert FairEvent(h, ws[i - 1], es[i - 1]) && !EventMisses(h, ws[i - 1], es[i - 1]);
      NextHashed(h, ws[i - 1], es[i - 1], ws[i]);
    }
  }

  /** The records of a run are truthful all along if and only if no failed read of it misses. */
  lemma HashedIffNoneMisses(h: Hasher, ws: seq<World>, es: seq<Event>)
    requires IsRun(h, ws, es) && TearsSealed(h, ws, es)
    ensures (forall i :: 0 <= i < |ws| ==> WorldHashed(h, ws[i])) <==> NoneMisses(h, ws, es, |es|)
  {
    if NoneMisses(h, ws, es, |es|) {
      forall i | 0 <= i < |ws|
        ensures WorldHashed(h, ws[i])
      {
        RunHashed(h, ws, es, i);
      }
    } else {
      var i :| 0 <= i < |es| && EventMisses(h, ws[i], es[i]);
      if WorldHashed(h, ws[i]) {
        RunSafe(h, ws, es, i);
        assert FairEvent(h, ws[i], es[i]) && Next(h, ws[i], es[i], ws[i + 1]);
        NextHashed(h, ws[i], es[i], ws[i + 1]);
      }
    }
  }

  /** Dedup soundness over runs: every successful WriteBlob, as long as no failed read before it misses;
      deletions, failed deletions and crashes included. */
  lemma RunDedupSound(h: Hasher, ws: seq<World>, es: seq<Event>, i: nat)
    requires IsRun(h, ws, es) && TearsSealed(h, ws, es) && i < |es| && NoneMisses(h, ws, es, i)
    requires es[i].Do? && es[i].op.Write?
    ensures ws[i].Busy? && ws[i + 1].Busy?
    ensures var op := es[i].op;
      var id := WriteBlob(h, ws[i].session, op.data, op.readerOK, op.size, op.md5, op.sha256).1;
      id != 0 ==> Stored(h, ws[i + 1].session, ws[i + 1].orig, id, op.size, op.md5, op.sha256)
  {
    assert Next(h, ws[i], es[i], ws[i + 1]);
    RunSafe(h, ws, es, i);
    RunHashed(h, ws, es, i);
    var op := es[i].op;
    DedupSound(h, ws[i].session, op.data, op.readerOK, op.size, op.md5, op.sha256, ws[i].orig);
  }
}
