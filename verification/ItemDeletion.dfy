/** Whether a deletion lasts and can be carried out. A blob that held any bytes stays deleted in every later record;
    copying a bundle succeeds exactly when what is not left behind passes for its record. */
module ItemDeletion {
  import opened Prelude
  import opened ItemModel
  import opened ItemSafety
  import opened ItemClose
  import opened ItemRuns
  import opened ItemHistory

  // ---- when copying succeeds

  ghost predicate SameButBundles(a: seq<Blob>, c: seq<Blob>) {
    |a| == |c| && forall i :: 0 <= i < |a| ==> c[i] == a[i].(bundle := c[i].bundle)
  }

  /** A stream that does not stop the copying: left behind, or passing for its blob. */
  ghost predicate PassedOver(h: Hasher, blobs: seq<Blob>, e: Entry, except: seq<int>) {
    e.id in except || (1 <= e.id <= |blobs| && Valid(h, blobs[e.id - 1], e.data))
  }

  lemma PassedOverKept(h: Hasher, a: seq<Blob>, c: seq<Blob>, e: Entry, except: seq<int>)
    requires SameButBundles(a, c)
    ensures PassedOver(h, a, e, except) <==> PassedOver(h, c, e, except)
  {
  }

  ghost predicate AllPass(h: Hasher, blobs: seq<Blob>, es: seq<Entry>, except: seq<int>, j: nat) {
    forall p :: j <= p < |es| ==> PassedOver(h, blobs, es[p], except)
  }

  /** No access to bundle src fails. */
  ghost predicate Readable(faults: Faults, src: int) {
    (forall j :: !faults.open(src, j)) && forall j, id :: faults.torn(src, j, id) == None
  }

  lemma {:induction false} CopyEntriesSucceeds(h: Hasher, b: Bundler, src: int, es: seq<Entry>, except: seq<int>,
                                               j: nat, faults: Faults)
    requires Numbered(b.item.blobs) && j <= |es| && Readable(faults, src)
    ensures CopyEntries(h, b, src, es, except, j, faults).ok <==> AllPass(h, b.item.blobs, es, except, j)
    decreases |es| - j
  {
    if j == |es| {
    } else if es[j].id in except {
      CopyEntriesSucceeds(h, b, src, es, except, j + 1, faults);
      assert PassedOver(h, b.item.blobs, es[j], except);
    } else {
      NumberedIndex(b.item.blobs, es[j].id);
      var c := CopyEntry(h, b, es[j]);
      assert c.ok <==> PassedOver(h, b.item.blobs, es[j], except);
      if c.ok {
        CopyEntriesSucceeds(h, c.state, src, es, except, j + 1, faults);
        forall p | j < p < |es|
          ensures PassedOver(h, b.item.blobs, es[p], except) <==> PassedOver(h, c.state.item.blobs, es[p], except)
        {
          PassedOverKept(h, b.item.blobs, c.state.item.blobs, es[p], except);
        }
      }
    }
  }

  /** If nothing fails, copying a bundle succeeds exactly when the bundle is there and each of its streams is left
      behind or has the size and hashes its blob is recorded with. */
  lemma CopySucceedsIff(h: Hasher, b: Bundler, src: int, except: seq<int>, faults: Faults)
    requires Numbered(b.item.blobs) && Readable(faults, src)
    ensures CopyBundleExcept(h, b, src, except, faults).ok <==>
      src in b.disk && forall e :: e in b.disk[src].entries ==> PassedOver(h, b.item.blobs, e, except)
  {
    if src in b.disk {
      var es := b.disk[src].entries;
      CopyEntriesSucceeds(h, b, src, es, except, 0, faults);
      assert forall e :: e in es ==> exists p :: 0 <= p < |es| && es[p] == e;
    }
  }

  /** Copying a stream of a deleted blob revives the blob exactly when no bytes were ever written for it and its
      hashes are those of no bytes. */
  lemma RevivedIffEmpty(h: Hasher, b: Bundler, e: Entry, orig: seq<Bytes>)
    requires Safe(h, b, orig) && b.zw.Some? && IsStream(h, b.item.blobs, orig, e)
    requires b.item.blobs[e.id - 1].bundle == 0 && b.item.blobs[e.id - 1].size == 0
    ensures CopyEntry(h, b, e).state.item.blobs[e.id - 1].bundle != 0 <==>
      var blob := b.item.blobs[e.id - 1];
      orig[e.id - 1] == "" && blob.md5 == h.md5("") && blob.sha256 == h.sha256("")
  {
    CopyEntryIs(h, b, e);
    RollSafe(h, b, orig);
    assert |e.data| == 0 ==> e.data == "";
  }

  // ---- what every record keeps

  /** Blobs are numbered, deleted ones have size 0, and blob `id` is one of those; 0 stands for no blob. */
  ghost predicate Gone(blobs: seq<Blob>, id: int) {
    && Numbered(blobs)
    && (forall i :: 0 <= i < |blobs| && blobs[i].bundle == 0 ==> blobs[i].size == 0)
    && (id == 0 || (1 <= id <= |blobs| && blobs[id - 1].bundle == 0))
  }

  ghost predicate DiskGone(t: Disk, id: int) {
    (id == 0 || t != map[]) && forall m :: IsMax(t, m) ==> Gone(t[m].info.blobs, id)
  }

  ghost predicate BundlerGone(b: Bundler, id: int) {
    Standing(b) && Gone(b.item.blobs, id) && forall t :: t in b.trace ==> DiskGone(t, id)
  }

  /** No stream of blob id passes for it as it is recorded. */
  ghost predicate Dead(h: Hasher, blobs: seq<Blob>, es: seq<Entry>, id: int) {
    1 <= id <= |blobs| ==> forall e :: e in es && e.id == id ==> !Valid(h, blobs[id - 1], e.data)
  }

  ghost predicate AllDead(h: Hasher, b: Bundler, id: int) {
    forall k :: Dead(h, b.item.blobs, EntriesOf(b, k), id)
  }

  lemma CommitGone(b: Bundler, id: int)
    requires BundlerGone(b, id)
    ensures var c := CloseBundle(b); DiskGone(c.disk, id) && forall t :: t in c.trace ==> DiskGone(t, id)
  {
    assert IsMax(CloseBundle(b).disk, b.n - 1);
  }

  lemma AppendGone(b: Bundler, id: int, data: Bytes, gone: int)
    requires BundlerGone(b, gone)
    ensures BundlerGone(AppendBlob(b, id, data), gone) && AppendBlob(b, id, data).item == b.item
    ensures var c := AppendBlob(b, id, data);
      forall k, e :: e in EntriesOf(c, k) ==> e in EntriesOf(b, k) || e == Entry(id, data)
  {
    CommitGone(b, gone);
    AppendedEntries(b, id, data);
    assert forall k :: EntriesOf(Roll(b), k) == EntriesOf(b, k);
  }

  lemma TearGone(b: Bundler, e: Entry, n: nat, id: int)
    requires BundlerGone(b, id)
    ensures BundlerGone(TearEntry(b, e, n), id)
  {
    AppendGone(b, e.id, Cut(e.data, n), id);
  }

  lemma CopyEntryGone(h: Hasher, b: Bundler, e: Entry, id: int)
    requires BundlerGone(b, id) && AllDead(h, b, id) && Dead(h, b.item.blobs, [e], id)
    ensures var c := CopyEntry(h, b, e);
      && BundlerGone(c.state, id) && AllDead(h, c.state, id)
      && |c.state.item.blobs| == |b.item.blobs|
      && (1 <= id <= |b.item.blobs| ==> c.state.item.blobs[id - 1] == b.item.blobs[id - 1])
  {
    NumberedIndex(b.item.blobs, e.id);
    AppendGone(b, e.id, e.data, id);
    var a, c := AppendBlob(b, e.id, e.data), CopyEntry(h, b, e);
    assert e in [e];
    assert forall k :: EntriesOf(c.state, k) == EntriesOf(if c.state == b then b else a, k);
    forall k
      ensures Dead(h, c.state.item.blobs, EntriesOf(c.state, k), id)
    {
      assert Dead(h, b.item.blobs, EntriesOf(b, k), id);
    }
  }

  lemma {:induction false} CopyEntriesGone(h: Hasher, b: Bundler, src: int, es: seq<Entry>, except: seq<int>, j: nat,
                                           faults: Faults, id: int)
    requires BundlerGone(b, id) && AllDead(h, b, id) && Dead(h, b.item.blobs, es, id) && j <= |es|
    ensures var c := CopyEntries(h, b, src, es, except, j, faults);
      BundlerGone(c.state, id) && (c.ok ==> AllDead(h, c.state, id))
    decreases |es| - j
  {
    if j == |es| {
    } else if es[j].id in except {
      CopyEntriesGone(h, b, src, es, except, j + 1, faults, id);
    } else if !faults.open(src, j) {
      var torn := faults.torn(src, j, es[j].id);
      if torn != None { TearGone(b, es[j], torn.value, id); }
      CopyEntryGone(h, b, es[j], id);
      CopyEntriesGone(h, CopyEntry(h, b, es[j]).state, src, es, except, j + 1, faults, id);
    }
  }

  lemma {:induction false} CopyGroupsGone(h: Hasher, s: Session, groups: map<int, seq<int>>, order: seq<int>, j: nat,
                                          faults: Faults, id: int)
    requires BundlerGone(s.b, id) && AllDead(h, s.b, id) && (forall k :: k in order ==> k in groups) && j <= |order|
    ensures BundlerGone(CopyGroups(h, s, groups, order, j, faults).state.b, id)
    decreases |order| - j
  {
    if j < |order| {
      var k := order[j];
      if k in s.b.disk {
        assert Dead(h, s.b.item.blobs, EntriesOf(s.b, k), id);
        CopyEntriesGone(h, s.b, k, s.b.disk[k].entries, groups[k], 0, faults, id);
      }
      var c := CopyBundleExcept(h, s.b, k, groups[k], faults);
      if c.ok { CopyGroupsGone(h, s.(b := c.state, bdel := s.bdel + [k]), groups, order, j + 1, faults, id); }
    }
  }

  lemma {:induction false} DeleteBundlesGone(b: Bundler, bdel: seq<int>, j: nat, faults: Faults, id: int)
    requires j <= |bdel| && Newest(b, bdel) && Gone(b.item.blobs, id) && forall t :: t in b.trace ==> DiskGone(t, id)
    ensures var c := DeleteBundles(b, bdel, j, faults).state;
      Newest(c, bdel) && c.item == b.item && forall t :: t in c.trace ==> DiskGone(t, id)
    decreases |bdel| - j
  {
    if j < |bdel| && !faults.delete(bdel[j]) {
      assert bdel[j] in bdel;
      var c := DeleteBundle(b, bdel[j]);
      assert IsMax(c.disk, b.item.maxBundle) && c.disk[b.item.maxBundle] == b.disk[b.item.maxBundle];
      DeleteBundlesGone(c, bdel, j + 1, faults, id);
    }
  }

  lemma MarkedGone(h: Hasher, s: Session, id: int)
    requires BundlerGone(s.b, id) && AllDead(h, s.b, id)
    ensures BundlerGone(Marked(s).0.b, id) && AllDead(h, Marked(s).0.b, id)
  {
    MarkAllSpec(s.b.item.blobs, s.del, s.version);
    var m := Marked(s).0;
    assert forall k :: EntriesOf(m.b, k) == EntriesOf(s.b, k);
    forall k
      ensures Dead(h, m.b.item.blobs, EntriesOf(m.b, k), id)
    {
      assert Dead(h, s.b.item.blobs, EntriesOf(s.b, k), id);
    }
  }

  lemma CloseGone(h: Hasher, s: Session, order: seq<int>, faults: Faults, id: int)
    requires SessionHistory(s) && BundlerGone(s.b, id) && AllDead(h, s.b, id)
    requires forall k :: k in order ==> k in Marked(s).1
    ensures var b := CloseWriter(h, s, order, faults).state.b;
      && Loads(b.disk, b.item) && Gone(b.item.blobs, id) && DiskGone(b.disk, id)
      && forall t :: t in b.trace ==> DiskGone(t, id)
  {
    CloseHistory(h, s, order, faults);
    MarkedGone(h, s, id);
    var m := Marked(s).0;
    assert TraceRecords(m.b.trace, s.b.item.versions, m.b.item.versions);
    CopyGroupsGone(h, m, Marked(s).1, order, 0, faults, id);
    CopyGroupsHistory(h, m, Marked(s).1, order, 0, faults, s.b.item.versions);
    var c := CopyGroups(h, m, Marked(s).1, order, 0, faults);
    var b := c.state.b.(item := c.state.b.item.(maxBundle := CurrentBundle(c.state.b)));
    CommitGone(b, id);
    CommitRecordHistory(c.state.b, c.state.bdel, s.b.item.versions);
    if c.ok { DeleteBundlesGone(CommitRecord(c.state.b), c.state.bdel, 0, faults, id); }
  }

  // ---- runs

  ghost predicate WorldGone(w: World, id: int) {
    match w
    case Idle(disk, cached, _) => DiskGone(disk, id) && (cached.Some? ==> Gone(cached.value.blobs, id))
    case Busy(s, _) => BundlerGone(s.b, id) && (s.bnext == 0 || s.bnext == |s.b.item.blobs| + 1)
  }

  lemma ApplyGone(h: Hasher, s: Session, op: Op, id: int)
    requires BundlerGone(s.b, id) && (s.bnext == 0 || s.bnext == |s.b.item.blobs| + 1)
    ensures var s' := Apply(h, s, op);
      BundlerGone(s'.b, id) && (s'.bnext == 0 || s'.bnext == |s'.b.item.blobs| + 1)
  {
    match op
    case Write(data, _, _, _, _) => AppendGone(s.b, NextBlobID(s), data, id);
    case SetMimeType(mid, _) => NumberedIndex(s.b.item.blobs, mid);
    case _ =>
  }

  lemma OpenGone(disk: Disk, item: Item, creator: string, id: int)
    requires DiskGone(disk, id) && Gone(item.blobs, id) && Standing(OpenWriter(disk, item, creator).b)
    ensures WorldGone(Busy(OpenWriter(disk, item, creator), []), id)
  {
  }

  /** The streams of a deleted blob that held bytes do not pass for it. */
  lemma DeletedDead(h: Hasher, b: Bundler, orig: seq<Bytes>, id: int)
    requires Safe(h, b, orig) && Gone(b.item.blobs, id) && (id != 0 ==> orig[id - 1] != "")
    ensures AllDead(h, b, id)
  {
    if id != 0 {
      forall k
        ensures Dead(h, b.item.blobs, EntriesOf(b, k), id)
      {
        assert Known(h, b.item.blobs, EntriesOf(b, k), orig);
        forall e | e in EntriesOf(b, k) && e.id == id
          ensures !Valid(h, b.item.blobs[id - 1], e.data)
        {
          assert IsStream(h, b.item.blobs, orig, e);
          assert |e.data| == 0 ==> e.data == "";
        }
      }
    }
  }

  /** Blob id was first written with some bytes, and reading failed midway only for sealed blobs. */
  ghost predicate HeldBytes(h: Hasher, w: World, id: int, data: Bytes) {
    WorldSafe(h, w) && 1 <= id <= |w.orig| && w.orig[id - 1] == data != ""
  }

  lemma NextGone(h: Hasher, w: World, e: Event, w': World, id: int, data: Bytes)
    requires WorldHistory(w) && WorldHistory(w') && Next(h, w, e, w') && WorldGone(w, id)
    requires id == 0 || HeldBytes(h, w, id, data)
    ensures WorldGone(w', id)
  {
    match e
    case Open(item, creator) => OpenGone(w.disk, item, creator, id);
    case Do(op) => ApplyGone(h, w.session, op, id);
    case Close(order, faults) => SessionCloses(h, w, order, faults, id, data);
    case CrashInDo(op, t) => ApplyGone(h, w.session, op, id);
    case CrashInClose(order, faults, t) => SessionCloses(h, w, order, faults, id, data);
    case Restart =>
  }

  lemma SessionCloses(h: Hasher, w: World, order: seq<int>, faults: Faults, id: int, data: Bytes)
    requires w.Busy? && WorldHistory(w) && WorldGone(w, id) && (id == 0 || HeldBytes(h, w, id, data))
    requires forall k :: k in order ==> k in Marked(w.session).1
    ensures var b := CloseWriter(h, w.session, order, faults).state.b;
      && Loads(b.disk, b.item) && Gone(b.item.blobs, id) && DiskGone(b.disk, id)
      && forall t :: t in b.trace ==> DiskGone(t, id)
  {
    if id != 0 { DeletedDead(h, w.session.b, w.orig, id); }
    CloseGone(h, w.session, order, faults, id);
  }

  /** In every state of every run blobs are numbered in order and deleted ones are recorded with size 0. */
  lemma {:induction false} RunGone(h: Hasher, ws: seq<World>, es: seq<Event>, i: nat)
    requires IsRun(h, ws, es) && i < |ws|
    ensures WorldGone(ws[i], 0)
  {
    if i > 0 {
      RunGone(h, ws, es, i - 1);
      RunHistory(h, ws, es, i - 1);
      RunHistory(h, ws, es, i);
      assert Next(h, ws[i - 1], es[i - 1], ws[i]);
      NextGone(h, ws[i - 1], es[i - 1], ws[i], 0, "");
    }
  }

  /** What was first written for a blob that every record knows is not forgotten. */
  lemma NextRemembers(h: Hasher, w: World, e: Event, w': World, id: int, data: Bytes)
    requires WorldHistory(w) && WorldHistory(w') && Next(h, w, e, w') && FairEvent(h, w, e) && WorldGone(w, id)
    requires HeldBytes(h, w, id, data)
    ensures HeldBytes(h, w', id, data)
  {
    NextSafe(h, w, e, w');
    NextGone(h, w, e, w', id, data);
    OrigIsFirstWritten(h, w, e, w');
    if w'.Idle? && w'.disk != map[] && (e.CrashInDo? || e.CrashInClose?) {
      var m :| IsMax(w'.disk, m) && |w'.disk[m].info.blobs| == |w'.orig|;
    }
  }

  lemma StepLasts(h: Hasher, ws: seq<World>, es: seq<Event>, i: nat, id: int, data: Bytes)
    requires IsRun(h, ws, es) && TearsSealed(h, ws, es) && i < |es|
    requires HeldBytes(h, ws[i], id, data) && WorldGone(ws[i], id)
    ensures HeldBytes(h, ws[i + 1], id, data) && WorldGone(ws[i + 1], id)
  {
    RunHistory(h, ws, es, i);
    RunHistory(h, ws, es, i + 1);
    assert Next(h, ws[i], es[i], ws[i + 1]) && FairEvent(h, ws[i], es[i]);
    NextGone(h, ws[i], es[i], ws[i + 1], id, data);
    NextRemembers(h, ws[i], es[i], ws[i + 1], id, data);
  }

  lemma {:induction false} StepsLast(h: Hasher, ws: seq<World>, es: seq<Event>, i: nat, j: nat, id: int, data: Bytes)
    requires IsRun(h, ws, es) && TearsSealed(h, ws, es) && i <= j < |ws|
    requires HeldBytes(h, ws[i], id, data) && WorldGone(ws[i], id)
    ensures HeldBytes(h, ws[j], id, data) && WorldGone(ws[j], id)
    decreases j
  {
    if i < j {
      StepsLast(h, ws, es, i, j - 1, id, data);
      StepLasts(h, ws, es, j - 1, id, data);
    }
  }

  /** The newest record of t says that blob id is deleted. */
  ghost predicate RecordsDeleted(t: Disk, id: int) {
    exists m :: IsMax(t, m) && ReadBlob(t, t[m].info.blobs, id) == WasDeleted
  }

  lemma RecordedIsGone(w: World, id: int)
    requires w.Idle? && RecordsDeleted(w.disk, id) && WorldGone(w, 0)
    requires w.cached.Some? ==> Loads(w.disk, w.cached.value)
    ensures WorldGone(w, id) && id >= 1
  {
    var m :| IsMax(w.disk, m) && ReadBlob(w.disk, w.disk[m].info.blobs, id) == WasDeleted;
    NumberedIndex(w.disk[m].info.blobs, id);
    forall n | IsMax(w.disk, n)
      ensures n == m
    {
      MaxIsUnique(w.disk, m, n);
    }
  }

  lemma NewestRecord(t: Disk, vs: seq<Version>) returns (m: int)
    requires Records(t, vs) && t != map[]
    ensures IsMax(t, m)
  {
    m :| IsMax(t, m) && t[m].info.versions == vs;
  }

  lemma GoneIsRecorded(w: World, id: int)
    requires WorldHistory(w) && WorldGone(w, id) && id >= 1
    ensures RecordsDeleted(DiskOf(w), id)
  {
    var t := DiskOf(w);
    assert DiskGone(t, id);
    if w.Busy? { assert t in w.session.b.trace && Records(t, w.session.b.item.versions); }
    var vs :| Records(t, vs);
    var m := NewestRecord(t, vs);
    NumberedIndex(t[m].info.blobs, id);
  }

  /** A deletion lasts: a blob that held bytes and is recorded as deleted between sessions is deleted in the newest
      record of every later state, whatever fails and wherever the run is cut. */
  lemma DeletionLasts(h: Hasher, ws: seq<World>, es: seq<Event>, i: nat, j: nat, id: int)
    requires IsRun(h, ws, es) && TearsSealed(h, ws, es) && i <= j < |ws|
    requires ws[i].Idle? && RecordsDeleted(ws[i].disk, id) && 1 <= id <= |ws[i].orig| && ws[i].orig[id - 1] != ""
    ensures RecordsDeleted(DiskOf(ws[j]), id)
    ensures id <= |ws[j].orig| && ws[j].orig[id - 1] == ws[i].orig[id - 1]
  {
    RunGone(h, ws, es, i);
    RunSafe(h, ws, es, i);
    RecordedIsGone(ws[i], id);
    StepsLast(h, ws, es, i, j, id, ws[i].orig[id - 1]);
    RunHistory(h, ws, es, j);
    GoneIsRecorded(ws[j], id);
  }
}
