/** What a copy torn in the middle of a stream can do. The beginning that was copied stays in a committed bundle;
    when it passes for its blob, a later rewriting of that bundle puts it in place of the blob's bytes. */
module ItemRewriting {
  import opened Prelude
  import opened ItemModel
  import opened ItemSafety
  import opened ItemClose
  import opened ItemRuns
  import opened ItemHistory
  import opened ItemDeletion
  import E = ItemExamples

  // ---- copying up to the torn stream

  ghost predicate Without(es: seq<Entry>, id: int) {
    forall e :: e in es ==> e.id != id
  }

  lemma {:induction false} WithoutOpens(es: seq<Entry>, id: int)
    requires Without(es, id)
    ensures OpenStream(es, id) == None
  {
    if es != [] {
      assert es[0] in es;
      WithoutOpens(es[1..], id);
    }
  }

  /** The copying has not met a stream of blob id yet. */
  ghost predicate Before(b: Bundler, id: int) {
    Standing(b) && Numbered(b.item.blobs) && 1 <= id <= |b.item.blobs| && Without(b.zw.value, id)
  }

  /** Blob id has been placed in the open bundle, where `data` is found for it. */
  ghost predicate Landed(b: Bundler, id: int, data: Bytes) {
    && Standing(b) && Numbered(b.item.blobs) && 1 <= id <= |b.item.blobs|
    && b.item.blobs[id - 1].bundle == b.n - 1 && OpenStream(b.zw.value, id) == Some(data)
  }

  lemma CopyOther(h: Hasher, b: Bundler, e: Entry, id: int)
    requires Before(b, id) && e.id != id && 1 <= e.id <= |b.item.blobs| && Valid(h, b.item.blobs[e.id - 1], e.data)
    ensures var c := CopyEntry(h, b, e);
      && c.ok && Before(c.state, id) && SameButBundles(b.item.blobs, c.state.item.blobs)
      && DiskKept(b.disk, c.state.disk)
  {
    CopyEntryIs(h, b, e);
  }

  lemma CopyLands(h: Hasher, b: Bundler, e: Entry)
    requires Before(b, e.id) && Valid(h, b.item.blobs[e.id - 1], e.data)
    ensures var c := CopyEntry(h, b, e); c.ok && Landed(c.state, e.id, e.data) && DiskKept(b.disk, c.state.disk)
  {
    CopyEntryIs(h, b, e);
    WithoutOpens(Roll(b).zw.value, e.id);
    OpenStreamAppend(Roll(b).zw.value, e, e.id);
  }

  /** Bundle k can be opened and read up to its j-th stream; of the accesses that follow, those that would go on
      copying fail. */
  ghost predicate ReadsTo(faults: Faults, k: int, j: nat, n: nat) {
    && (forall q, p, id :: faults.torn(q, p, id) == None)
    && (forall p :: -1 <= p <= j ==> !faults.open(k, p))
    && (forall p :: j < p < n ==> faults.open(k, p))
  }

  lemma {:induction false} CopyingStops(h: Hasher, b: Bundler, src: int, es: seq<Entry>, except: seq<int>, i: nat,
                                        faults: Faults)
    requires i <= |es| && forall p :: i <= p < |es| ==> faults.open(src, p)
    ensures var c := CopyEntries(h, b, src, es, except, i, faults); c.state == b && (i == |es| ==> c.ok)
    decreases |es| - i
  {
    if i < |es| { CopyingStops(h, b, src, es, except, i + 1, faults); }
  }

  /** The streams from i to j: the first of blob id is the j-th, which passes, and nothing before it stops the
      copying. */
  ghost predicate Leads(h: Hasher, blobs: seq<Blob>, es: seq<Entry>, except: seq<int>, i: nat, j: nat) {
    && i <= j < |es| && es[j].id !in except && PassedOver(h, blobs, es[j], except)
    && forall p :: i <= p < j ==> es[p].id != es[j].id && PassedOver(h, blobs, es[p], except)
  }

  lemma LeadsKept(h: Hasher, a: seq<Blob>, c: seq<Blob>, es: seq<Entry>, except: seq<int>, i: nat, j: nat)
    requires Leads(h, a, es, except, i, j) && i < j && SameButBundles(a, c)
    ensures Leads(h, c, es, except, i + 1, j)
  {
    forall p | i + 1 <= p <= j
      ensures PassedOver(h, c, es[p], except)
    {
      assert PassedOver(h, a, es[p], except);
    }
  }

  lemma LastLands(h: Hasher, b: Bundler, src: int, es: seq<Entry>, except: seq<int>, j: nat, faults: Faults)
    requires Leads(h, b.item.blobs, es, except, j, j) && Before(b, es[j].id) && ReadsTo(faults, src, j, |es|)
    ensures var c := CopyEntries(h, b, src, es, except, j, faults);
      Landed(c.state, es[j].id, es[j].data) && DiskKept(b.disk, c.state.disk) && (j + 1 == |es| ==> c.ok)
  {
    CopyLands(h, b, es[j]);
    CopyingStops(h, CopyEntry(h, b, es[j]).state, src, es, except, j + 1, faults);
  }

  lemma {:induction false} CopyingLands(h: Hasher, b: Bundler, src: int, es: seq<Entry>, except: seq<int>,
                                        i: nat, j: nat, faults: Faults)
    requires Leads(h, b.item.blobs, es, except, i, j) && Before(b, es[j].id) && ReadsTo(faults, src, j, |es|)
    ensures var c := CopyEntries(h, b, src, es, except, i, faults);
      Landed(c.state, es[j].id, es[j].data) && DiskKept(b.disk, c.state.disk) && (j + 1 == |es| ==> c.ok)
    decreases j - i
  {
    if i == j {
      LastLands(h, b, src, es, except, j, faults);
    } else if es[i].id in except {
      assert SameButBundles(b.item.blobs, b.item.blobs);
      LeadsKept(h, b.item.blobs, b.item.blobs, es, except, i, j);
      CopyingLands(h, b, src, es, except, i + 1, j, faults);
    } else {
      assert PassedOver(h, b.item.blobs, es[i], except);
      CopyOther(h, b, es[i], es[j].id);
      var c := CopyEntry(h, b, es[i]).state;
      LeadsKept(h, b.item.blobs, c.item.blobs, es, except, i, j);
      CopyingLands(h, c, src, es, except, i + 1, j, faults);
    }
  }

  // ---- the Close that rewrites the bundle

  lemma {:induction false} NewestKept(b: Bundler, bdel: seq<int>, j: nat, faults: Faults)
    requires j <= |bdel| && Newest(b, bdel)
    ensures var c := DeleteBundles(b, bdel, j, faults).state;
      && c.item == b.item && Newest(c, bdel) && c.disk[c.item.maxBundle] == b.disk[b.item.maxBundle]
    decreases |bdel| - j
  {
    if j < |bdel| && !faults.delete(bdel[j]) {
      assert bdel[j] in bdel;
      NewestKept(DeleteBundle(b, bdel[j]), bdel, j + 1, faults);
    }
  }

  lemma {:induction false} DeletesAll(b: Bundler, bdel: seq<int>, j: nat, faults: Faults)
    requires j <= |bdel| && forall k :: k in bdel ==> !faults.delete(k)
    ensures DeleteBundles(b, bdel, j, faults).ok
    decreases |bdel| - j
  {
    if j < |bdel| { DeletesAll(DeleteBundle(b, bdel[j]), bdel, j + 1, faults); }
  }

  /** The newest record gives `data` for blob id. */
  ghost predicate ReadsAs(disk: Disk, item: Item, id: int, data: Bytes) {
    && IsMax(disk, item.maxBundle) && disk[item.maxBundle].info == Info(item.blobs, item.versions)
    && ReadBlob(disk, item.blobs, id) == Content(data)
  }

  lemma LandedCommits(b: Bundler, bdel: seq<int>, faults: Faults, id: int, data: Bytes)
    requires Landed(b, id, data) && (forall k :: k in bdel ==> k in b.disk)
    ensures var c := CommitRecord(b);
      && Newest(c, bdel) && ReadsAs(c.disk, c.item, id, data)
      && var d := DeleteBundles(c, bdel, 0, faults);
         ReadsAs(d.state.disk, d.state.item, id, data)
  {
    var c := CommitRecord(b);
    NumberedIndex(c.item.blobs, id);
    assert IsMax(c.disk, b.n - 1);
    NewestKept(c, bdel, 0, faults);
  }

  /** A Close that starts with bundle k, reads it to its j-th stream, and gets no further with other bundles. */
  ghost predicate Rewrites(s: Session, order: seq<int>, faults: Faults, k: int, j: nat) {
    && IsOrder(order, Marked(s).1.Keys) && order != [] && order[0] == k
    && Marked(s).0.bdel == [] && k in s.b.disk && ReadsTo(faults, k, j, |s.b.disk[k].entries|)
    && forall p :: 1 <= p < |order| ==> faults.open(order[p], -1)
  }

  lemma RewritingCopies(h: Hasher, s: Session, order: seq<int>, faults: Faults, k: int, j: nat)
    requires Rewrites(s, order, faults, k, j) && Standing(s.b) && s.b.zw == Some([])
    requires var (m, groups) := Marked(s);
      && Numbered(m.b.item.blobs) && Leads(h, m.b.item.blobs, s.b.disk[k].entries, groups[k], 0, j)
    ensures var es := s.b.disk[k].entries;
      var c := CopyGroups(h, Marked(s).0, Marked(s).1, order, 0, faults);
      && Landed(c.state.b, es[j].id, es[j].data) && k in c.state.b.disk
      && (c.state.bdel == [] || c.state.bdel == [k])
      && (j + 1 == |es| && |order| == 1 ==> c.ok)
  {
    var (m, groups) := Marked(s);
    var es := s.b.disk[k].entries;
    assert PassedOver(h, m.b.item.blobs, es[j], groups[k]);
    CopyingLands(h, m.b, k, es, groups[k], 0, j, faults);
    assert [] + [k] == [k];
  }

  lemma RewritingLands(h: Hasher, s: Session, order: seq<int>, faults: Faults, k: int, j: nat)
    requires Rewrites(s, order, faults, k, j) && Standing(s.b) && s.b.zw == Some([])
    requires var (m, groups) := Marked(s);
      && Numbered(m.b.item.blobs) && Leads(h, m.b.item.blobs, s.b.disk[k].entries, groups[k], 0, j)
    ensures var es := s.b.disk[k].entries;
      && var c := CloseWriter(h, s, order, faults);
         && ReadsAs(c.state.b.disk, c.state.b.item, es[j].id, es[j].data)
         && (j + 1 == |es| && |order| == 1 && !faults.delete(k) ==> c.ok)
  {
    RewritingCopies(h, s, order, faults, k, j);
    var (m, groups) := Marked(s);
    var es := s.b.disk[k].entries;
    var c := CopyGroups(h, m, groups, order, 0, faults);
    LandedCommits(c.state.b, c.state.bdel, faults, es[j].id, es[j].data);
    if c.ok && !faults.delete(k) { DeletesAll(CommitRecord(c.state.b), c.state.bdel, 0, faults); }
  }

  /** A Close rewrites exactly the bundles in which a blob that it is to delete lives. */
  lemma OnlyLiveRewritten(s: Session, k: int)
    requires Numbered(s.b.item.blobs)
    ensures k in Marked(s).1 <==> k != 0 && exists id :: InGroup(s.b.item.blobs, s.del, k, id)
  {
    MarkAllSpec(s.b.item.blobs, s.del, s.version);
    var groups := Marked(s).1;
    if k in groups { assert groups[k][0] in groups[k] && InGroup(s.b.item.blobs, s.del, k, groups[k][0]); }
    if k != 0 && exists id :: InGroup(s.b.item.blobs, s.del, k, id) {
      var id :| InGroup(s.b.item.blobs, s.del, k, id);
      assert s.b.item.blobs[id - 1].bundle in groups;
    }
  }

  // ---- an exposed stream, and a run in which it takes the place of the blob's bytes

  /** The ids of the blobs recorded in bundle k. */
  function PlacedIn(blobs: seq<Blob>, k: int): (ids: seq<int>)
    ensures Numbered(blobs) ==> forall id :: id in ids <==> 1 <= id <= |blobs| && blobs[id - 1].bundle == k
  {
    if blobs == [] then []
    else
      var before := PlacedIn(blobs[..|blobs| - 1], k);
      if blobs[|blobs| - 1].bundle == k then before + [blobs[|blobs| - 1].id] else before
  }

  /** The j-th stream of bundle k is one that passes for its blob, which is not recorded there; the bundle also
      holds a live blob, and each stream before the j-th is of such a blob or passes. */
  ghost predicate Exposed(h: Hasher, disk: Disk, blobs: seq<Blob>, k: int, j: nat) {
    && k in disk && k != 0 && j < |disk[k].entries|
    && var es := disk[k].entries;
       && 1 <= es[j].id <= |blobs| && blobs[es[j].id - 1].bundle != k
       && E.Passes(h, blobs[es[j].id - 1], es[j].data)
       && PlacedIn(blobs, k) != []
       && forall p :: 0 <= p < j ==> es[p].id != es[j].id && PassedOver(h, blobs, es[p], PlacedIn(blobs, k))
  }

  /** What the rewriting session deletes: the live blobs of the bundle and, if the stream passes only for the deleted
      blob, that one too. */
  function Deletions(h: Hasher, blobs: seq<Blob>, k: int, e: Entry): seq<int>
    requires 1 <= e.id <= |blobs|
  {
    PlacedIn(blobs, k) + if Valid(h, blobs[e.id - 1], e.data) then [] else [e.id]
  }

  lemma ExposedMarks(h: Hasher, s: Session, k: int, j: nat)
    requires Gone(s.b.item.blobs, 0) && Exposed(h, s.b.disk, s.b.item.blobs, k, j)
    requires s.del == Deletions(h, s.b.item.blobs, k, s.b.disk[k].entries[j])
    ensures var (m, groups) := Marked(s);
      var blobs, c, e, placed := s.b.item.blobs, m.b.item.blobs, s.b.disk[k].entries[j], PlacedIn(s.b.item.blobs, k);
      && Numbered(c) && |c| == |blobs| && k in groups && (forall id :: id in groups[k] <==> id in placed)
      && (forall i :: 0 <= i < |blobs| && i + 1 !in placed && i + 1 != e.id ==> c[i] == blobs[i])
      && Valid(h, c[e.id - 1], e.data)
  {
    var blobs, e := s.b.item.blobs, s.b.disk[k].entries[j];
    var (m, groups) := Marked(s);
    MarkAllSpec(blobs, s.del, s.version);
    var placed := PlacedIn(blobs, k);
    assert placed[0] in placed && placed[0] in s.del;
    assert blobs[placed[0] - 1].bundle in groups;
    forall id
      ensures id in groups[k] <==> id in placed
    {
      assert id in groups[k] <==> InGroup(blobs, s.del, k, id);
    }
  }

  lemma ExposedLeads(h: Hasher, s: Session, k: int, j: nat)
    requires Gone(s.b.item.blobs, 0) && Exposed(h, s.b.disk, s.b.item.blobs, k, j)
    requires s.del == Deletions(h, s.b.item.blobs, k, s.b.disk[k].entries[j])
    ensures var (m, groups) := Marked(s);
      && Numbered(m.b.item.blobs) && k in groups
      && Leads(h, m.b.item.blobs, s.b.disk[k].entries, groups[k], 0, j)
  {
    ExposedMarks(h, s, k, j);
    var blobs, es, placed := s.b.item.blobs, s.b.disk[k].entries, PlacedIn(s.b.item.blobs, k);
    var (m, groups) := Marked(s);
    forall p | 0 <= p < j
      ensures es[p].id != es[j].id && PassedOver(h, m.b.item.blobs, es[p], groups[k])
    {
      assert PassedOver(h, blobs, es[p], placed);
      StillPassed(h, blobs, m.b.item.blobs, es[p], es[j].id, placed, groups[k]);
    }
  }

  lemma StillPassed(h: Hasher, a: seq<Blob>, c: seq<Blob>, e: Entry, id: int, placed: seq<int>, except: seq<int>)
    requires PassedOver(h, a, e, placed) && e.id != id && |a| == |c|
    requires e.id in placed ==> e.id in except
    requires forall i :: 0 <= i < |a| && i + 1 !in placed && i + 1 != id ==> c[i] == a[i]
    ensures PassedOver(h, c, e, except)
  {
    if e.id !in placed { assert c[e.id - 1] == a[e.id - 1]; }
  }

  /** Only the bundle's streams up to the j-th can be opened; nothing is torn. */
  function OnlyUpTo(k: int, j: nat): Faults {
    Faults((q, p) => q != k || p > j, (q, p, id) => None, q => false)
  }

  lemma DeleteEach(h: Hasher, ws: seq<World>, es: seq<Event>, s: Session, orig: seq<Bytes>, ids: seq<int>)
    returns (ws': seq<World>, es': seq<Event>)
    requires E.Reached(h, ws, es, Busy(s, orig))
    ensures E.Reached(h, ws', es', Busy(s.(del := s.del + ids), orig)) && es <= es'
    ensures forall i :: |es| <= i < |es'| ==> es'[i].Do?
    decreases |ids|
  {
    if ids == [] {
      ws', es' := ws, es;
      assert s.del + ids == s.del;
    } else {
      var last := ids[|ids| - 1];
      ws', es' := DeleteEach(h, ws, es, s, orig, ids[..|ids| - 1]);
      var t := s.(del := s.del + ids[..|ids| - 1]);
      assert t.del + [last] == s.del + ids;
      ws', es' := E.Extend(h, ws', es', Busy(t, orig), Do(DeleteBlob(last)), Busy(s.(del := s.del + ids), orig));
    }
  }

  /** Any way of ranging over a set, k first. */
  lemma OrderFrom(keys: set<int>, k: int) returns (order: seq<int>)
    requires k in keys
    ensures IsOrder(order, keys) && order != [] && order[0] == k
    decreases keys
  {
    if q :| q in keys && q != k {
      order := OrderFrom(keys - {q}, k);
      order := order + [q];
    } else {
      order := [k];
      forall x | x in keys
        ensures x == k
      {
      }
    }
  }

  /** The events that follow a run read every stream they open to its end. */
  ghost predicate TearsNothing(es: seq<Event>, from: nat) {
    forall i :: from <= i < |es| ==>
      && !es[i].CrashInDo? && !es[i].CrashInClose?
      && (es[i].Close? ==> forall q, p, id :: es[i].faults.torn(q, p, id) == None)
  }

  lemma OpensEmpty(h: Hasher, ws: seq<World>, es: seq<Event>, w: World, item: Item)
    returns (ws': seq<World>, es': seq<Event>)
    requires E.Reached(h, ws, es, w) && w.Idle? && ItemRead(w, item)
    ensures var s := OpenWriter(w.disk, item, "");
      && E.Reached(h, ws', es', Busy(s, w.orig)) && es' == es + [Open(item, "")]
      && Standing(s.b) && Gone(item.blobs, 0) && s.b.zw == Some([]) && s.b.disk == w.disk && s.b.item == item
      && s.del == [] && s.bdel == []
  {
    RunHistory(h, ws, es, |es|);
    RunGone(h, ws, es, |es|);
    var vs :| Shows(w, vs);
    var busy := Busy(OpenWriter(w.disk, item, ""), w.orig);
    ws', es' := E.Extend(h, ws, es, w, Open(item, ""), busy);
    NextHistory(h, w, Open(item, ""), busy, vs);
  }

  lemma RewritingEnds(h: Hasher, s: Session, k: int, j: nat) returns (order: seq<int>, faults: Faults)
    requires Standing(s.b) && s.b.zw == Some([]) && s.bdel == []
    requires Gone(s.b.item.blobs, 0) && Exposed(h, s.b.disk, s.b.item.blobs, k, j)
    requires s.del == Deletions(h, s.b.item.blobs, k, s.b.disk[k].entries[j])
    ensures IsOrder(order, Marked(s).1.Keys) && forall q, p, id :: faults.torn(q, p, id) == None
    ensures var e, b := s.b.disk[k].entries[j], CloseWriter(h, s, order, faults).state.b;
      ReadsAs(b.disk, b.item, e.id, e.data)
  {
    ExposedLeads(h, s, k, j);
    order := OrderFrom(Marked(s).1.Keys, k);
    faults := OnlyUpTo(k, j);
    assert Rewrites(s, order, faults, k, j);
    RewritingLands(h, s, order, faults, k, j);
  }

  lemma RewritingRun(h: Hasher, ws: seq<World>, es: seq<Event>, s: Session, orig: seq<Bytes>, k: int, j: nat)
    returns (ws': seq<World>, es': seq<Event>, after: Item)
    requires E.Reached(h, ws, es, Busy(s, orig))
    requires Standing(s.b) && s.b.zw == Some([]) && s.bdel == []
    requires Gone(s.b.item.blobs, 0) && Exposed(h, s.b.disk, s.b.item.blobs, k, j)
    requires s.del == Deletions(h, s.b.item.blobs, k, s.b.disk[k].entries[j])
    ensures IsRun(h, ws', es') && |es'| == |es| + 1 && es <= es' && TearsNothing(es', |es|)
    ensures var e, w' := s.b.disk[k].entries[j], ws'[|es'|];
      w'.Idle? && w'.orig == orig && ReadsAs(w'.disk, after, e.id, e.data)
  {
    var order, faults := RewritingEnds(h, s, k, j);
    var b := CloseWriter(h, s, order, faults).state.b;
    ws', es' := E.Extend(h, ws, es, Busy(s, orig), Close(order, faults), Idle(b.disk, Some(b.item), orig));
    after := b.item;
  }

  /** From a state with an exposed stream a session that deletes blobs, tearing nothing, ends with the newest record
      leading from the stream's blob to the stream's bytes. */
  lemma ExposedReplaces(h: Hasher, ws: seq<World>, es: seq<Event>, w: World, item: Item, k: int, j: nat)
    returns (ws': seq<World>, es': seq<Event>, after: Item)
    requires E.Reached(h, ws, es, w) && w.Idle? && ItemRead(w, item)
    requires Exposed(h, w.disk, item.blobs, k, j)
    ensures IsRun(h, ws', es') && es <= es' && TearsNothing(es', |es|)
    ensures var e, w' := w.disk[k].entries[j], ws'[|es'|];
      w'.Idle? && w'.orig == w.orig && ReadsAs(w'.disk, after, e.id, e.data)
  {
    var s, dels := OpenWriter(w.disk, item, ""), Deletions(h, item.blobs, k, w.disk[k].entries[j]);
    ws', es' := OpensEmpty(h, ws, es, w, item);
    ws', es' := DeleteEach(h, ws', es', s, w.orig, dels);
    assert [] + dels == dels;
    ws', es', after := RewritingRun(h, ws', es', s.(del := dels), w.orig, k, j);
  }

  // ---- what a Close that failed leaves behind

  ghost predicate PlacedHere(b: Bundler, e: Entry) {
    1 <= e.id <= |b.item.blobs| && b.item.blobs[e.id - 1].bundle == b.n - 1
  }

  /** The streams of the open bundle, except the last `spare`, are of blobs recorded there. */
  ghost predicate Placed(b: Bundler, spare: nat) {
    && Standing(b) && Numbered(b.item.blobs)
    && forall p :: 0 <= p < |b.zw.value| - spare ==> PlacedHere(b, b.zw.value[p])
  }

  lemma AppendPlaced(b: Bundler, id: int, data: Bytes)
    requires Placed(b, 0)
    ensures Placed(AppendBlob(b, id, data), 1)
  {
    var r, c := Roll(b), AppendBlob(b, id, data);
    forall p | 0 <= p < |c.zw.value| - 1
      ensures PlacedHere(c, c.zw.value[p])
    {
      assert PlacedHere(r, r.zw.value[p]);
    }
  }

  lemma CopyEntryPlaced(h: Hasher, b: Bundler, e: Entry)
    requires Placed(b, 0)
    ensures var c := CopyEntry(h, b, e); Placed(c.state, if c.ok then 0 else 1)
    ensures forall n :: Placed(TearEntry(b, e, n), 1)
  {
    NumberedIndex(b.item.blobs, e.id);
    AppendPlaced(b, e.id, e.data);
    forall n
      ensures Placed(TearEntry(b, e, n), 1)
    {
      AppendPlaced(b, e.id, Cut(e.data, n));
    }
    var a, c := AppendBlob(b, e.id, e.data), CopyEntry(h, b, e);
    if c.ok {
      forall p | 0 <= p < |c.state.zw.value|
        ensures PlacedHere(c.state, c.state.zw.value[p])
      {
        if p < |a.zw.value| - 1 { assert PlacedHere(a, a.zw.value[p]); }
      }
    }
  }

  lemma {:induction false} CopyEntriesPlaced(h: Hasher, b: Bundler, src: int, es: seq<Entry>, except: seq<int>, j: nat,
                                             faults: Faults)
    requires Placed(b, 0) && j <= |es|
    ensures var c := CopyEntries(h, b, src, es, except, j, faults); Placed(c.state, if c.ok then 0 else 1)
    decreases |es| - j
  {
    if j == |es| {
    } else if es[j].id in except {
      CopyEntriesPlaced(h, b, src, es, except, j + 1, faults);
    } else {
      CopyEntryPlaced(h, b, es[j]);
      if CopyEntry(h, b, es[j]).ok {
        CopyEntriesPlaced(h, CopyEntry(h, b, es[j]).state, src, es, except, j + 1, faults);
      }
    }
  }

  lemma {:induction false} CopyGroupsPlaced(h: Hasher, s: Session, groups: map<int, seq<int>>, order: seq<int>, j: nat,
                                            faults: Faults)
    requires Placed(s.b, 0) && (forall k :: k in order ==> k in groups) && j <= |order|
    ensures var c := CopyGroups(h, s, groups, order, j, faults); Placed(c.state.b, if c.ok then 0 else 1)
    decreases |order| - j
  {
    if j < |order| {
      var k := order[j];
      if k in s.b.disk { CopyEntriesPlaced(h, s.b, k, s.b.disk[k].entries, groups[k], 0, faults); }
      var c := CopyBundleExcept(h, s.b, k, groups[k], faults);
      if c.ok {
        CopyGroupsPlaced(h, s.(b := c.state, bdel := s.bdel + [k]), groups, order, j + 1, faults);
      }
    }
  }

  /** The last stream of the newest bundle is not its blob's, as far as the record goes. */
  ghost predicate EndsAstray(disk: Disk, item: Item, e: Entry) {
    && IsMax(disk, item.maxBundle) && |disk[item.maxBundle].entries| >= 2
    && e == disk[item.maxBundle].entries[|disk[item.maxBundle].entries| - 1]
    && 1 <= e.id <= |item.blobs| && item.blobs[e.id - 1].bundle != item.maxBundle
  }

  /** A Close whose copying fails leaves the stream it failed at exposed exactly when it may pass for its blob,
      provided that something else is in its bundle and nothing written in the session is deleted by it. */
  lemma FailedCloseExposes(h: Hasher, s: Session, order: seq<int>, faults: Faults, e: Entry)
    requires IsOrder(order, Marked(s).1.Keys) && Placed(Marked(s).0.b, 0)
    requires !CopyGroups(h, Marked(s).0, Marked(s).1, order, 0, faults).ok
    requires var b := CloseWriter(h, s, order, faults).state.b; EndsAstray(b.disk, b.item, e)
    ensures var b := CloseWriter(h, s, order, faults).state.b;
      var j := |b.disk[b.item.maxBundle].entries| - 1;
      && Numbered(b.item.blobs)
      && (Exposed(h, b.disk, b.item.blobs, b.item.maxBundle, j) <==> E.Passes(h, b.item.blobs[e.id - 1], e.data))
  {
    CopyGroupsPlaced(h, Marked(s).0, Marked(s).1, order, 0, faults);
    var c := CopyGroups(h, Marked(s).0, Marked(s).1, order, 0, faults).state.b;
    var b := CloseWriter(h, s, order, faults).state.b;
    var k := b.item.maxBundle;
    var es := b.disk[k].entries;
    assert b == CommitRecord(c) && k == c.n - 1 && es == c.zw.value;
    var placed := PlacedIn(b.item.blobs, k);
    forall p | 0 <= p < |es| - 1
      ensures es[p].id != e.id && PassedOver(h, b.item.blobs, es[p], placed) && placed != []
    {
      assert PlacedHere(c, es[p]);
      assert es[p].id in placed;
    }
    assert es[0].id != e.id;
  }

  /** The converse of crash safety for a copy that breaks off: if what is left of the stream may pass for its blob,
      there is a continuation of the run, tearing nothing, after which the newest record leads from the blob to
      those bytes and not to the ones first written. */
  lemma UnsealedCutLoses(h: Hasher, ws: seq<World>, es: seq<Event>, s: Session, orig: seq<Bytes>, order: seq<int>,
                         faults: Faults, e: Entry)
    returns (ws': seq<World>, es': seq<Event>, after: Item)
    requires E.Reached(h, ws, es, Busy(s, orig))
    requires IsOrder(order, Marked(s).1.Keys) && Placed(Marked(s).0.b, 0)
    requires !CopyGroups(h, Marked(s).0, Marked(s).1, order, 0, faults).ok
    requires var b := CloseWriter(h, s, order, faults).state.b;
      EndsAstray(b.disk, b.item, e) && e.id <= |orig| && e.data != orig[e.id - 1]
      && E.Passes(h, b.item.blobs[e.id - 1], e.data)
    ensures IsRun(h, ws', es') && es + [Close(order, faults)] <= es' && TearsNothing(es', |es| + 1)
    ensures var w' := ws'[|es'|];
      && w'.Idle? && w'.orig == orig && IsMax(w'.disk, after.maxBundle)
      && ReadBlob(w'.disk, w'.disk[after.maxBundle].info.blobs, e.id) == Content(e.data) != Content(orig[e.id - 1])
  {
    FailedCloseExposes(h, s, order, faults, e);
    var b := CloseWriter(h, s, order, faults).state.b;
    var w := Idle(b.disk, Some(b.item), orig);
    RunHistory(h, ws, es, |es|);
    CloseHistory(h, s, order, faults);
    ws', es' := E.Extend(h, ws, es, Busy(s, orig), Close(order, faults), w);
    ws', es', after := ExposedReplaces(h, ws', es', w, b.item, b.item.maxBundle,
                                       |b.disk[b.item.maxBundle].entries| - 1);
    assert ReadsAs(ws'[|es'|].disk, after, e.id, e.data);
  }
}
