/** Whole runs over one item: sessions opened, used, closed, and cut short by crashes between any two
    store operations. The main result is CrashSafety. */
module ItemRuns {
  import opened Prelude
  import opened ItemModel
  import opened ItemSafety
  import opened ItemClose

  /** One call on an open Writer. */
  datatype Op =
    | Write(data: Bytes, readerOK: bool, size: int, md5: Bytes, sha256: Bytes)
    | DeleteBlob(id: int)
    | SetSlot(slot: string, blob: int)
    | ClearSlots
    | SetMimeType(mid: int, mimeType: string)
    | SetNote(note: string)
    | SetCreator(creatorName: string)

  function ApplyVersion(v: Version, op: Op): Version {
    match op
    case SetSlot(name, id) => ItemModel.SetSlot(v, name, id)
    case ClearSlots => v.(slots := map[])
    case SetNote(note) => v.(note := note)
    case SetCreator(creator) => v.(creator := creator)
    case _ => v
  }

  function Apply(h: Hasher, s: Session, op: Op): Session {
    match op
    case Write(data, readerOK, size, md5, sha256) => WriteBlob(h, s, data, readerOK, size, md5, sha256).0
    case DeleteBlob(id) => s.(del := s.del + [id])
    case SetMimeType(id, mimeType) => s.(b := s.b.(item := ItemModel.SetMimeType(s.b.item, id, mimeType)))
    case _ => s.(version := ApplyVersion(s.version, op))
  }

  /** The first contents known after a call. */
  function ApplyOrig(s: Session, orig: seq<Bytes>, op: Op): seq<Bytes> {
    match op
    case Write(data, _, size, md5, sha256) => WrittenOrig(s, orig, data, size, md5, sha256)
    case _ => orig
  }

  /** Between sessions there is the store and perhaps a cached item; in a session, the Writer.
      `orig` is history: the bytes first written for each blob the newest record will know. */
  datatype World =
    | Idle(disk: Disk, cached: Option<Item>, orig: seq<Bytes>)
    | Busy(session: Session, orig: seq<Bytes>)

  datatype Event =
    | Open(item: Item, creator: string)
    | Do(op: Op)
    | Close(order: seq<int>, faults: Faults)
    | CrashInDo(cop: Op, left: Disk)
    | CrashInClose(corder: seq<int>, cfaults: Faults, cleft: Disk)
    | Restart

  const INITIAL: World := Idle(map[], None, [])

  /** Store.Item: a cached record with versions is used as it is. */
  ghost predicate ItemRead(w: World, item: Item)
    requires w.Idle?
  {
    if w.cached.Some? && w.cached.value.versions != [] then item == w.cached.value
    else Loads(w.disk, item)
  }

  /** The store contents between which an operation from `before` to `after` can be cut. */
  ghost predicate CutAt(before: Session, after: Session, t: Disk) {
    && |before.b.trace| >= 1
    && exists i :: |before.b.trace| - 1 <= i < |after.b.trace| && after.b.trace[i] == t
  }

  ghost predicate Crashed(orig: seq<Bytes>, t: Disk, w: World) {
    && w.Idle? && w.disk == t && w.cached == None
    && ((t == map[] && w.orig == [])
        || exists m :: IsMax(t, m) && |t[m].info.blobs| <= |orig| && w.orig == orig[..|t[m].info.blobs|])
  }

  ghost predicate Next(h: Hasher, w: World, e: Event, w': World) {
    match e
    case Open(item, creator) =>
      w.Idle? && ItemRead(w, item) && w' == Busy(OpenWriter(w.disk, item, creator), w.orig)
    case Do(op) =>
      w.Busy? && w' == Busy(Apply(h, w.session, op), ApplyOrig(w.session, w.orig, op))
    case Close(order, faults) =>
      w.Busy? && IsOrder(order, Marked(w.session).1.Keys)
      && var b := CloseWriter(h, w.session, order, faults).state.b; w' == Idle(b.disk, Some(b.item), w.orig)
    case CrashInDo(op, t) =>
      w.Busy? && CutAt(w.session, Apply(h, w.session, op), t)
      && Crashed(ApplyOrig(w.session, w.orig, op), t, w')
    case CrashInClose(order, faults, t) =>
      w.Busy? && IsOrder(order, Marked(w.session).1.Keys)
      && CutAt(w.session, CloseWriter(h, w.session, order, faults).state, t) && Crashed(w.orig, t, w')
    case Restart =>
      w.Idle? && w' == w.(cached := None)
  }

  ghost predicate IsRun(h: Hasher, ws: seq<World>, es: seq<Event>) {
    && |ws| == |es| + 1 && ws[0] == INITIAL
    && forall i :: 0 <= i < |es| ==> Next(h, ws[i], es[i], ws[i + 1])
  }

  // ---- the invariant of every run

  /** `orig` counts exactly the blobs of the newest record. */
  ghost predicate Counted(disk: Disk, orig: seq<Bytes>) {
    && (disk == map[] ==> orig == [])
    && forall m :: IsMax(disk, m) ==> |disk[m].info.blobs| == |orig|
  }

  ghost predicate WorldSafe(h: Hasher, w: World) {
    match w
    case Idle(disk, cached, orig) =>
      && Durable(h, disk, orig) && Counted(disk, orig)
      && (cached.Some? ==> Loads(disk, cached.value) && IsMax(disk, cached.value.maxBundle))
    case Busy(s, orig) => SafeSession(h, s, orig)
  }

  lemma ApplySafe(h: Hasher, s: Session, op: Op, orig: seq<Bytes>)
    requires SafeSession(h, s, orig)
    ensures SafeSession(h, Apply(h, s, op), ApplyOrig(s, orig, op))
  {
    match op
    case Write(data, readerOK, size, md5, sha256) => WriteBlobSafe(h, s, data, readerOK, size, md5, sha256, orig);
    case SetMimeType(id, mimeType) => SetMimeTypeSafe(h, s.b, id, mimeType, orig);
    case _ =>
  }

  lemma CrashedSafe(h: Hasher, orig: seq<Bytes>, t: Disk, w: World)
    requires Durable(h, t, orig) && Crashed(orig, t, w)
    ensures WorldSafe(h, w)
  {
    if t != map[] {
      var m :| IsMax(t, m) && |t[m].info.blobs| <= |orig| && w.orig == orig[..|t[m].info.blobs|];
      forall q | IsMax(t, q)
        ensures q == m
      {
        MaxIsUnique(t, q, m);
      }
      assert w.orig[..|w.orig|] == w.orig;
    }
  }

  lemma LoadedCounted(disk: Disk, item: Item, orig: seq<Bytes>)
    requires Counted(disk, orig) && Loads(disk, item)
    ensures |item.blobs| == |orig|
  {
  }

  /** A Close tears only streams of sealed blobs, unless its copying goes well. */
  ghost predicate FairEvent(h: Hasher, w: World, e: Event) {
    && (e.Close? && w.Busy? && IsOrder(e.order, Marked(w.session).1.Keys) ==>
          FairClose(h, w.session, e.order, e.faults, w.orig))
    && (e.CrashInClose? && w.Busy? && IsOrder(e.corder, Marked(w.session).1.Keys) ==>
          FairClose(h, w.session, e.corder, e.cfaults, w.orig))
  }

  /** A run in which reading fails midway, while a bundle is copied, only for streams of sealed blobs: those no
      shorter beginning of which has the blob's recorded size, or none, and its hashes. */
  ghost predicate TearsSealed(h: Hasher, ws: seq<World>, es: seq<Event>) {
    forall i {:trigger FairEvent(h, ws[i], es[i])} :: 0 <= i < |es| && i < |ws| ==> FairEvent(h, ws[i], es[i])
  }

  lemma NextSafe(h: Hasher, w: World, e: Event, w': World)
    requires WorldSafe(h, w) && Next(h, w, e, w') && FairEvent(h, w, e)
    ensures WorldSafe(h, w')
  {
    match e
    case Open(item, creator) =>
      LoadedCounted(w.disk, item, w.orig);
      OpenIsSafe(h, w.disk, item, creator, w.orig);
      assert w.orig[..|item.blobs|] == w.orig;
    case Do(op) => ApplySafe(h, w.session, op, w.orig);
    case Close(order, faults) =>
      CloseSafe(h, w.session, order, faults, w.orig);
      var b := CloseWriter(h, w.session, order, faults).state.b;
      SettledDurable(h, b, w.orig);
      forall m | IsMax(b.disk, m)
        ensures m == b.item.maxBundle
      {
        MaxIsUnique(b.disk, m, b.item.maxBundle);
      }
    case CrashInDo(op, t) =>
      ApplySafe(h, w.session, op, w.orig);
      CrashedSafe(h, ApplyOrig(w.session, w.orig, op), t, w');
    case CrashInClose(order, faults, t) =>
      CloseSafe(h, w.session, order, faults, w.orig);
      CrashedSafe(h, w.orig, t, w');
    case Restart =>
  }

  lemma {:induction false} RunSafe(h: Hasher, ws: seq<World>, es: seq<Event>, i: nat)
    requires IsRun(h, ws, es) && TearsSealed(h, ws, es) && i < |ws|
    ensures WorldSafe(h, ws[i])
  {
    if i > 0 {
      RunSafe(h, ws, es, i - 1);
      assert FairEvent(h, ws[i - 1], es[i - 1]);
      NextSafe(h, ws[i - 1], es[i - 1], ws[i]);
    }
  }

  function DiskOf(w: World): Disk {
    match w
    case Idle(disk, _, _) => disk
    case Busy(s, _) => s.b.disk
  }

  /** Store.Blob: read the newest record, then the blob's stream in the bundle it names. */
  datatype BlobRead = NoBlob | WasDeleted | NotFound | Content(data: Bytes)

  function ReadBlob(disk: Disk, blobs: seq<Blob>, id: int): BlobRead {
    var i := BlobIndex(blobs, id);
    if i == |blobs| then NoBlob
    else if blobs[i].bundle == 0 then WasDeleted
    else if blobs[i].bundle !in disk then NotFound
    else match OpenStream(disk[blobs[i].bundle].entries, id)
      case None => NotFound
      case Some(data) => Content(data)
  }

  lemma DurableReads(h: Hasher, disk: Disk, orig: seq<Bytes>, m: int, id: int)
    requires Durable(h, disk, orig) && IsMax(disk, m)
    ensures var blobs := disk[m].info.blobs;
      match ReadBlob(disk, blobs, id)
      case NoBlob => !(1 <= id <= |blobs|)
      case WasDeleted => 1 <= id <= |blobs| && blobs[id - 1].bundle == 0
      case NotFound => false
      case Content(data) => 1 <= id <= |blobs| <= |orig| && data == orig[id - 1]
  {
    var blobs := disk[m].info.blobs;
    NumberedIndex(blobs, id);
    if 1 <= id <= |blobs| && blobs[id - 1].bundle != 0 {
      assert OpenStream(disk[blobs[id - 1].bundle].entries, (id - 1) + 1) == Some(orig[..|blobs|][id - 1]);
    }
  }

  /** Reading through an item in memory while it is being written: a live blob is found, with the bytes first written,
      exactly when it is not recorded in the bundle that is still open. */
  lemma LiveReads(h: Hasher, b: Bundler, orig: seq<Bytes>, id: int)
    requires Safe(h, b, orig)
    ensures var blobs := b.item.blobs;
      match ReadBlob(b.disk, blobs, id)
      case NoBlob => !(1 <= id <= |blobs|)
      case WasDeleted => 1 <= id <= |blobs| && blobs[id - 1].bundle == 0
      case NotFound => 1 <= id <= |blobs| && b.zw.Some? && blobs[id - 1].bundle == b.n - 1
      case Content(data) =>
        && 1 <= id <= |blobs| == |orig| && data == orig[id - 1] && blobs[id - 1].bundle != 0
        && !(b.zw.Some? && blobs[id - 1].bundle == b.n - 1)
  {
    NumberedIndex(b.item.blobs, id);
    if 1 <= id <= |orig| && b.item.blobs[id - 1].bundle != 0 {
      assert OpenStream(EntriesOf(b, b.item.blobs[id - 1].bundle), (id - 1) + 1) == Some(orig[id - 1]);
    }
  }

  /** The blobs that cannot be read through the item of an open session are those of its open bundle. */
  ghost predicate ReadsUnlessOpen(b: Bundler, orig: seq<Bytes>, id: int) {
    1 <= id <= |b.item.blobs| <= |orig| ==>
      ReadBlob(b.disk, b.item.blobs, id) ==
        if b.item.blobs[id - 1].bundle == 0 then WasDeleted
        else if b.zw.Some? && b.item.blobs[id - 1].bundle == b.n - 1 then NotFound
        else Content(orig[id - 1])
  }

  lemma SessionReads(h: Hasher, ws: seq<World>, es: seq<Event>, i: nat, id: int)
    requires IsRun(h, ws, es) && TearsSealed(h, ws, es) && i < |ws| && ws[i].Busy?
    ensures |ws[i].session.b.item.blobs| == |ws[i].orig| && ReadsUnlessOpen(ws[i].session.b, ws[i].orig, id)
  {
    RunSafe(h, ws, es, i);
    LiveReads(h, ws[i].session.b, ws[i].orig, id);
  }

  /** The same in the middle of a Close, wherever `faults` stop its copying; once the record is committed every live
      blob can be read, wherever they stop the removal of bundles. */
  lemma ClosingReads(h: Hasher, s: Session, order: seq<int>, faults: Faults, orig: seq<Bytes>, id: int)
    requires SafeSession(h, s, orig) && IsOrder(order, Marked(s).1.Keys) && FairClose(h, s, order, faults, orig)
    ensures ReadsUnlessOpen(CopyGroups(h, Marked(s).0, Marked(s).1, order, 0, faults).state.b, orig, id)
    ensures var b := CloseWriter(h, s, order, faults).state.b; b.zw.None? && ReadsUnlessOpen(b, orig, id)
  {
    CopiedSafe(h, s, order, faults, orig);
    LiveReads(h, CopyGroups(h, Marked(s).0, Marked(s).1, order, 0, faults).state.b, orig, id);
    CloseSafe(h, s, order, faults, orig);
    var b := CloseWriter(h, s, order, faults).state.b;
    SettledDurable(h, b, orig);
    DurableReads(h, b.disk, orig, b.item.maxBundle, id);
    NumberedIndex(b.item.blobs, id);
  }

  /** Crash safety. In every state of every run, also right after a crash between any two store
      operations and after deletions that failed partway, the record in the highest-numbered bundle
      leads from each of its undeleted blobs to the bytes first written for it. */
  lemma CrashSafety(h: Hasher, ws: seq<World>, es: seq<Event>, i: nat, m: int, id: int)
    requires IsRun(h, ws, es) && TearsSealed(h, ws, es) && i < |ws|
    requires IsMax(DiskOf(ws[i]), m)
    ensures var blobs := DiskOf(ws[i])[m].info.blobs;
      && Numbered(blobs) && |blobs| <= |ws[i].orig|
      && (1 <= id <= |blobs| ==>
            ReadBlob(DiskOf(ws[i]), blobs, id) ==
              if blobs[id - 1].bundle == 0 then WasDeleted else Content(ws[i].orig[id - 1]))
  {
    RunSafe(h, ws, es, i);
    DurableReads(h, DiskOf(ws[i]), ws[i].orig, m, id);
  }

  /** What `orig` means: a call either leaves it alone or appends the bytes of a blob written under
      the next id; a crash only forgets ids that no committed record knows. */
  lemma OrigIsFirstWritten(h: Hasher, w: World, e: Event, w': World)
    requires WorldSafe(h, w) && Next(h, w, e, w') && FairEvent(h, w, e)
    ensures w'.orig <= w.orig || (w'.orig == w.orig + [w'.orig[|w.orig|]] && (e.Do? || e.CrashInDo?))
    ensures e.Do? && w'.orig != w.orig ==>
      && e.op.Write? && w'.orig == w.orig + [e.op.data]
      && w'.session.b.item.blobs[|w.orig|].id == |w'.orig|
      && Entry(|w'.orig|, e.op.data) in w'.session.b.zw.value
    ensures w'.Idle? ==> forall m :: IsMax(w'.disk, m) ==> |w'.disk[m].info.blobs| == |w'.orig|
  {
    NextSafe(h, w, e, w');
    if e.CrashInDo? {
      ApplySafe(h, w.session, e.cop, w.orig);
    }
  }
}
