/** Two runs in which a bundle with leftovers is rewritten: a torn copy takes the place of a blob's bytes, and a blob
    that was deleted comes back, or keeps deletions from finishing. */
module ItemRewritingRuns {
  import opened Prelude
  import opened ItemModel
  import opened ItemSafety
  import opened ItemRuns
  import opened ItemDeletion
  import opened ItemRewriting
  import E = ItemExamples

  const FIRST: Bytes := "A"
  const WHOLE: Bytes := "abcdef"
  const PART: Bytes := "abc"
  const LAST: Bytes := "B"

  function Truthful(h: Hasher, id: int, data: Bytes, bundle: int): Blob {
    Blob(id, |data|, h.md5(data), h.sha256(data), bundle, "", "", "")
  }

  function Plain(data: Bytes): Op {
    Write(data, true, 0, "", "")
  }

  /** The second upload: as it should be, or announcing only the beginning and breaking off after the whole. */
  function Second(h: Hasher, announced: Bytes): Op {
    if announced == WHOLE then Plain(WHOLE) else Write(WHOLE, false, |PART|, h.md5(PART), h.sha256(PART))
  }

  function Orig(last: Bytes): seq<Bytes> {
    [FIRST, WHOLE, last]
  }

  /** The n-th version: no slots are ever set. */
  function Nth(n: int): Version {
    Version(n, map[], "", "")
  }

  // ---- the first session: three uploads, of which the second announces WHOLE or PART

  function Uploaded(h: Hasher, announced: Bytes, last: Bytes): Item {
    Item(1, [Truthful(h, 1, FIRST, 1), Truthful(h, 2, announced, 1), Truthful(h, 3, last, 1)], [Nth(1)])
  }

  function UploadedEntries(last: Bytes): seq<Entry> {
    [Entry(1, FIRST), Entry(2, WHOLE), Entry(3, last)]
  }

  function UploadedDisk(h: Hasher, announced: Bytes, last: Bytes): Disk {
    var item := Uploaded(h, announced, last);
    map[1 := Bundle(UploadedEntries(last), Info(item.blobs, item.versions))]
  }

  function Writing(h: Hasher, blobs: seq<Blob>, es: seq<Entry>, size: int, next: int): Session {
    var item := Item(if blobs == [] then 0 else 1, blobs, []);
    Session(Bundler(map[], [map[]], item, Some(es), size, 2), next, [], Nth(1), [])
  }

  function FirstEvents(h: Hasher, announced: Bytes, last: Bytes): seq<Event> {
    [Open(E.NEW_ITEM, ""), Do(Plain(FIRST)), Do(Second(h, announced)), Do(Plain(last)), Close([], E.NO_FAULTS)]
  }

  lemma Uploads(h: Hasher, announced: Bytes, last: Bytes) returns (ws: seq<World>, es: seq<Event>)
    requires announced in {PART, WHOLE}
    ensures var s := Writing(h, Uploaded(h, announced, last).blobs, UploadedEntries(last), 7 + |last|, 4);
      E.Reached(h, ws, es, Busy(s, Orig(last))) && es == FirstEvents(h, announced, last)[..4]
  {
    ws, es := E.OpenFirst(h, "");
    var b1, b2, b3 := Truthful(h, 1, FIRST, 1), Truthful(h, 2, announced, 1), Truthful(h, 3, last, 1);
    var s0 := E.FirstSession("");
    var s1 := Writing(h, [b1], [Entry(1, FIRST)], 1, 2);
    var s2 := Writing(h, [b1, b2], [Entry(1, FIRST), Entry(2, WHOLE)], 7, 3);
    var s3 := Writing(h, [b1, b2, b3], UploadedEntries(last), 7 + |last|, 4);
    var w1, w2, w3 := Plain(FIRST), Second(h, announced), Plain(last);
    assert [] + [Entry(1, FIRST)] == [Entry(1, FIRST)] && [] + [b1] == [b1];
    assert Apply(h, s0, w1) == s1;
    ws, es := E.Extend(h, ws, es, Busy(s0, []), Do(w1), Busy(s1, [FIRST]));
    assert FindBlobByHash([b1], |PART|, h.md5(PART), h.sha256(PART)) == 0;
    assert [Entry(1, FIRST)] + [Entry(2, WHOLE)] == s2.b.zw.value && [b1] + [b2] == [b1, b2];
    assert Apply(h, s1, w2) == s2;
    ws, es := E.Extend(h, ws, es, Busy(s1, [FIRST]), Do(w2), Busy(s2, [FIRST, WHOLE]));
    assert s2.b.zw.value + [Entry(3, last)] == s3.b.zw.value && [b1, b2] + [b3] == [b1, b2, b3];
    assert Apply(h, s2, w3) == s3;
    ws, es := E.Extend(h, ws, es, Busy(s2, [FIRST, WHOLE]), Do(w3), Busy(s3, Orig(last)));
  }

  lemma FirstClose(h: Hasher, announced: Bytes, last: Bytes) returns (ws: seq<World>, es: seq<Event>)
    requires announced in {PART, WHOLE}
    ensures var disk, item := UploadedDisk(h, announced, last), Uploaded(h, announced, last);
      E.Reached(h, ws, es, Idle(disk, Some(item), Orig(last))) && es == FirstEvents(h, announced, last)
  {
    ws, es := Uploads(h, announced, last);
    var s := Writing(h, Uploaded(h, announced, last).blobs, UploadedEntries(last), 7 + |last|, 4);
    assert Marked(s).1 == map[];
    var b := CloseWriter(h, s, [], E.NO_FAULTS).state.b;
    assert [] + [Nth(1)] == [Nth(1)];
    assert b.item == Uploaded(h, announced, last) && b.disk == UploadedDisk(h, announced, last);
    ws, es := E.Extend(h, ws, es, Busy(s, Orig(last)), Close([], E.NO_FAULTS), Idle(b.disk, Some(b.item), Orig(last)));
  }

  /** A session that deletes one blob, before its Close. */
  function Deleting(disk: Disk, item: Item, id: int): Session {
    OpenWriter(disk, item, "").(del := [id])
  }

  lemma OpenAndDelete(h: Hasher, ws: seq<World>, es: seq<Event>, disk: Disk, item: Item, id: int, last: Bytes)
    returns (ws': seq<World>, es': seq<Event>)
    requires E.Reached(h, ws, es, Idle(disk, Some(item), Orig(last))) && item.versions != []
    ensures E.Reached(h, ws', es', Busy(Deleting(disk, item, id), Orig(last)))
    ensures es' == es + [Open(item, ""), Do(DeleteBlob(id))] && ws <= ws'
  {
    var s := OpenWriter(disk, item, "");
    ws', es' := E.Extend(h, ws, es, Idle(disk, Some(item), Orig(last)), Open(item, ""), Busy(s, Orig(last)));
    assert [] + [id] == [id];
    ws', es' := E.Extend(h, ws', es', Busy(s, Orig(last)), Do(DeleteBlob(id)),
                         Busy(Deleting(disk, item, id), Orig(last)));
  }

  lemma MarksOne(s: Session, id: int)
    requires s.del == [id]
    ensures Marked(s).1 == Mark(Marking(s.b.item.blobs, map[]), id, s.version).groups
    ensures Marked(s).0.b.item.blobs == Mark(Marking(s.b.item.blobs, map[]), id, s.version).blobs
  {
    assert s.del[..0] == [];
    assert MarkAll(Marking(s.b.item.blobs, map[]), [], s.version) == Marking(s.b.item.blobs, map[]);
  }

  // ---- a torn copy that passes

  /** The copying of bundle 1 breaks off in the stream of blob 2. */
  const TORN: Faults := Faults((k, j) => false, (k, j, id) => if (k, j) == (1, 1) then Some(3) else None, k => false)

  function Torn(h: Hasher): Item {
    Item(2, [Truthful(h, 1, FIRST, 2), Truthful(h, 2, PART, 1), Deleted(Truthful(h, 3, LAST, 1), Nth(2))],
         [Nth(1), Nth(2)])
  }

  function TornEntries(): seq<Entry> {
    [Entry(1, FIRST), Entry(2, PART)]
  }

  function TornDisk(h: Hasher): Disk {
    UploadedDisk(h, PART, LAST)[2 := Bundle(TornEntries(), Info(Torn(h).blobs, Torn(h).versions))]
  }

  /** The copying into bundle 2, before and after. */
  function TornStart(h: Hasher): Bundler {
    var blobs := [Truthful(h, 1, FIRST, 1), Truthful(h, 2, PART, 1), Deleted(Truthful(h, 3, LAST, 1), Nth(2))];
    var disk := UploadedDisk(h, PART, LAST);
    Bundler(disk, [disk], Item(1, blobs, [Nth(1), Nth(2)]), Some([]), 0, 3)
  }

  function TornEnd(h: Hasher): Bundler {
    TornStart(h).(item := Torn(h).(maxBundle := 1), zw := Some(TornEntries()), size := 4)
  }

  lemma TornMarks(h: Hasher)
    ensures var s := Deleting(UploadedDisk(h, PART, LAST), Uploaded(h, PART, LAST), 3);
      Marked(s) == (s.(b := TornStart(h)), map[1 := [3]])
  {
    var s := Deleting(UploadedDisk(h, PART, LAST), Uploaded(h, PART, LAST), 3);
    MarksOne(s, 3);
    assert [] + [3] == [3] && [Nth(1)] + [Nth(2)] == [Nth(1), Nth(2)];
    var blobs := Uploaded(h, PART, LAST).blobs;
    NumberedIndex(blobs, 3);
    assert Mark(Marking(blobs, map[]), 3, Nth(2)) == Marking(TornStart(h).item.blobs, map[1 := [3]]);
  }

  lemma TornCopying(h: Hasher)
    ensures CopyEntries(h, TornStart(h), 1, UploadedEntries(LAST), [3], 0, TORN) == Outcome(TornEnd(h), false)
  {
    var es, b := UploadedEntries(LAST), TornStart(h);
    CopyEntryIs(h, b, es[0]);
    assert [] + [Entry(1, FIRST)] == [Entry(1, FIRST)];
    var c := b.(item := Torn(h).(maxBundle := 1), zw := Some([Entry(1, FIRST)]), size := 1);
    assert b.item.blobs[0 := b.item.blobs[0].(bundle := 2)] == Torn(h).blobs;
    assert CopyEntry(h, b, es[0]) == Outcome(c, true);
    assert Cut(WHOLE, 3) == PART && [Entry(1, FIRST)] + [Entry(2, PART)] == TornEntries();
    NumberedIndex(c.item.blobs, 2);
    assert TearEntry(c, es[1], 3) == TornEnd(h);
    assert CopyEntries(h, c, 1, es, [3], 1, TORN) == Outcome(TornEnd(h), false);
  }

  lemma TornCopy(h: Hasher)
    ensures var s := Deleting(UploadedDisk(h, PART, LAST), Uploaded(h, PART, LAST), 3);
      && Marked(s).1 == map[1 := [3]]
      && var c := CloseWriter(h, s, [1], TORN);
         !c.ok && c.state.b.item == Torn(h) && c.state.b.disk == TornDisk(h)
  {
    var s := Deleting(UploadedDisk(h, PART, LAST), Uploaded(h, PART, LAST), 3);
    TornMarks(h);
    TornCopying(h);
    var m := Marked(s).0;
    assert CopyBundleExcept(h, TornStart(h), 1, [3], TORN) == Outcome(TornEnd(h), false);
    assert CopyGroups(h, m, map[1 := [3]], [1], 0, TORN) == Outcome(m.(b := TornEnd(h)), false);
  }

  lemma LastMarks(h: Hasher)
    ensures var s := Deleting(TornDisk(h), Torn(h), 1);
      && Marked(s).1 == map[2 := [1]] && Marked(s).0.bdel == []
      && var blobs := Marked(s).0.b.item.blobs;
         |blobs| == 3 && Numbered(blobs) && blobs[1] == Torn(h).blobs[1]
  {
    MarksOne(Deleting(TornDisk(h), Torn(h), 1), 1);
    NumberedIndex(Torn(h).blobs, 1);
    assert [] + [1] == [1];
  }

  lemma LastClose(h: Hasher) returns (after: Item)
    ensures var s := Deleting(TornDisk(h), Torn(h), 1);
      && Marked(s).1 == map[2 := [1]]
      && var c := CloseWriter(h, s, [2], E.NO_FAULTS);
         c.ok && after == c.state.b.item && ReadsAs(c.state.b.disk, after, 2, PART)
  {
    var s := Deleting(TornDisk(h), Torn(h), 1);
    LastMarks(h);
    var blobs, es := Marked(s).0.b.item.blobs, TornEntries();
    assert PassedOver(h, blobs, es[0], [1]) && PassedOver(h, blobs, es[1], [1]);
    assert Rewrites(s, [2], E.NO_FAULTS, 2, 1);
    RewritingLands(h, s, [2], E.NO_FAULTS, 2, 1);
    after := CloseWriter(h, s, [2], E.NO_FAULTS).state.b.item;
  }

  /** Three uploads, a deletion whose copying is torn, and a deletion in which nothing fails. */
  function SilentEvents(h: Hasher): seq<Event> {
    FirstEvents(h, PART, LAST)
    + [Open(Uploaded(h, PART, LAST), ""), Do(DeleteBlob(3)), Close([1], TORN)]
    + [Open(Torn(h), ""), Do(DeleteBlob(1)), Close([2], E.NO_FAULTS)]
  }

  lemma TornClose(h: Hasher) returns (ws: seq<World>, es: seq<Event>)
    ensures E.Reached(h, ws, es, Idle(TornDisk(h), Some(Torn(h)), Orig(LAST))) && es == SilentEvents(h)[..8]
  {
    ws, es := FirstClose(h, PART, LAST);
    ws, es := OpenAndDelete(h, ws, es, UploadedDisk(h, PART, LAST), Uploaded(h, PART, LAST), 3, LAST);
    TornCopy(h);
    var s := Deleting(UploadedDisk(h, PART, LAST), Uploaded(h, PART, LAST), 3);
    ws, es := E.Extend(h, ws, es, Busy(s, Orig(LAST)), Close([1], TORN), Idle(TornDisk(h), Some(Torn(h)), Orig(LAST)));
  }

  /** Nothing fails in the last session, and its Close returns nil; still the newest record leads from the second blob,
      which was never deleted, to the beginning of what was written for it. */
  lemma SilentLoss(h: Hasher) returns (ws: seq<World>, es: seq<Event>, after: Item)
    ensures IsRun(h, ws, es) && es == SilentEvents(h) && ws[10] == Busy(Deleting(TornDisk(h), Torn(h), 1), Orig(LAST))
    ensures Marked(ws[10].session).1 == map[2 := [1]] && CloseWriter(h, ws[10].session, [2], E.NO_FAULTS).ok
    ensures var w := ws[11];
      && w.Idle? && w.orig == Orig(LAST) && IsMax(w.disk, after.maxBundle)
      && ReadBlob(w.disk, w.disk[after.maxBundle].info.blobs, 2) == Content(PART) != Content(WHOLE)
  {
    ws, es := TornClose(h);
    ws, es := OpenAndDelete(h, ws, es, TornDisk(h), Torn(h), 1, LAST);
    var s := Deleting(TornDisk(h), Torn(h), 1);
    after := LastClose(h);
    var b := CloseWriter(h, s, [2], E.NO_FAULTS).state.b;
    var ws', es' := E.Extend(h, ws, es, Busy(s, Orig(LAST)), Close([2], E.NO_FAULTS),
                             Idle(b.disk, Some(b.item), Orig(LAST)));
    ws, es := ws', es';
    assert ReadsAs(ws[11].disk, after, 2, PART);
  }

  // ---- a stream left behind by a deletion that did not finish

  /** Nothing can be opened. */
  const STUCK: Faults := Faults((k, j) => true, (k, j, id) => None, k => false)

  function HalfDeleted(h: Hasher, last: Bytes): Item {
    Item(2, [Truthful(h, 1, FIRST, 1), Truthful(h, 2, WHOLE, 1), Deleted(Truthful(h, 3, last, 1), Nth(2))],
         [Nth(1), Nth(2)])
  }

  function HalfDisk(h: Hasher, last: Bytes): Disk {
    var item := HalfDeleted(h, last);
    UploadedDisk(h, WHOLE, last)[2 := Bundle([], Info(item.blobs, item.versions))]
  }

  lemma StuckClose(h: Hasher, last: Bytes)
    ensures var s := Deleting(UploadedDisk(h, WHOLE, last), Uploaded(h, WHOLE, last), 3);
      && Marked(s).1 == map[1 := [3]]
      && var c := CloseWriter(h, s, [1], STUCK);
         !c.ok && c.state.b.item == HalfDeleted(h, last) && c.state.b.disk == HalfDisk(h, last)
  {
    var s := Deleting(UploadedDisk(h, WHOLE, last), Uploaded(h, WHOLE, last), 3);
    MarksOne(s, 3);
    NumberedIndex(Uploaded(h, WHOLE, last).blobs, 3);
    assert [] + [3] == [3] && [Nth(1)] + [Nth(2)] == [Nth(1), Nth(2)];
    assert Marked(s).0.b.item.blobs == HalfDeleted(h, last).blobs;
  }

  lemma HalfMarks(h: Hasher, last: Bytes)
    ensures var s := Deleting(HalfDisk(h, last), HalfDeleted(h, last), 1);
      && Marked(s).1 == map[1 := [1]] && Marked(s).0.bdel == []
      && var blobs := Marked(s).0.b.item.blobs;
         && |blobs| == 3 && Numbered(blobs)
         && blobs[1] == Truthful(h, 2, WHOLE, 1) && blobs[2] == Deleted(Truthful(h, 3, last, 1), Nth(2))
  {
    MarksOne(Deleting(HalfDisk(h, last), HalfDeleted(h, last), 1), 1);
    NumberedIndex(HalfDeleted(h, last).blobs, 1);
    assert [] + [1] == [1];
  }

  /** The Close that deletes the first blob succeeds exactly when the third, deleted before, was empty; it is then
      back among the live ones. */
  lemma LeftoverClose(h: Hasher, last: Bytes)
    ensures var s := Deleting(HalfDisk(h, last), HalfDeleted(h, last), 1);
      && Marked(s).1 == map[1 := [1]]
      && var c := CloseWriter(h, s, [1], E.NO_FAULTS);
         && (c.ok <==> last == "")
         && (last == "" ==> ReadsAs(c.state.b.disk, c.state.b.item, 3, ""))
  {
    var s := Deleting(HalfDisk(h, last), HalfDeleted(h, last), 1);
    HalfMarks(h, last);
    var m := Marked(s).0;
    var blobs, es := m.b.item.blobs, UploadedEntries(last);
    assert m.b.disk[1].entries == es;
    assert PassedOver(h, blobs, es[0], [1]) && PassedOver(h, blobs, es[1], [1]);
    if last == "" {
      assert PassedOver(h, blobs, es[2], [1]);
      assert Rewrites(s, [1], E.NO_FAULTS, 1, 2);
      RewritingLands(h, s, [1], E.NO_FAULTS, 1, 2);
    } else {
      CopySucceedsIff(h, m.b, 1, [1], E.NO_FAULTS);
      assert es[2] in es && !PassedOver(h, blobs, es[2], [1]);
    }
  }

  /** Three uploads, a deletion that cannot open the bundle, and a deletion in which nothing fails. */
  function LeftoverEvents(h: Hasher, last: Bytes): seq<Event> {
    FirstEvents(h, WHOLE, last)
    + [Open(Uploaded(h, WHOLE, last), ""), Do(DeleteBlob(3)), Close([1], STUCK)]
    + [Open(HalfDeleted(h, last), ""), Do(DeleteBlob(1)), Close([1], E.NO_FAULTS)]
  }

  lemma HalfClose(h: Hasher, last: Bytes) returns (ws: seq<World>, es: seq<Event>)
    ensures E.Reached(h, ws, es, Idle(HalfDisk(h, last), Some(HalfDeleted(h, last)), Orig(last)))
    ensures es == LeftoverEvents(h, last)[..8] && RecordsDeleted(HalfDisk(h, last), 3)
  {
    ws, es := FirstClose(h, WHOLE, last);
    ws, es := OpenAndDelete(h, ws, es, UploadedDisk(h, WHOLE, last), Uploaded(h, WHOLE, last), 3, last);
    StuckClose(h, last);
    var s := Deleting(UploadedDisk(h, WHOLE, last), Uploaded(h, WHOLE, last), 3);
    ws, es := E.Extend(h, ws, es, Busy(s, Orig(last)), Close([1], STUCK),
                       Idle(HalfDisk(h, last), Some(HalfDeleted(h, last)), Orig(last)));
    NumberedIndex(HalfDeleted(h, last).blobs, 3);
    assert IsMax(HalfDisk(h, last), 2);
  }

  /** The record says that the third blob is deleted. Deleting the first one too, with nothing failing, gives the third
      one back if it was empty, and fails if it was not. */
  lemma LeftoverRun(h: Hasher, last: Bytes) returns (ws: seq<World>, es: seq<Event>, after: Item)
    ensures IsRun(h, ws, es) && es == LeftoverEvents(h, last)
    ensures ws[8].Idle? && RecordsDeleted(ws[8].disk, 3)
    ensures ws[10].Busy? && Marked(ws[10].session).1 == map[1 := [1]]
    ensures CloseWriter(h, ws[10].session, [1], E.NO_FAULTS).ok <==> last == ""
    ensures last == "" ==> ws[11].Idle? && ReadsAs(ws[11].disk, after, 3, "")
  {
    ws, es := HalfClose(h, last);
    ws, es := OpenAndDelete(h, ws, es, HalfDisk(h, last), HalfDeleted(h, last), 1, last);
    var s := Deleting(HalfDisk(h, last), HalfDeleted(h, last), 1);
    LeftoverClose(h, last);
    var b := CloseWriter(h, s, [1], E.NO_FAULTS).state.b;
    ws, es := E.Extend(h, ws, es, Busy(s, Orig(last)), Close([1], E.NO_FAULTS), Idle(b.disk, Some(b.item), Orig(last)));
    after := b.item;
  }
}
