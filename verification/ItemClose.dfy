/** Closing a Writer: deletions are carried out by copying survivors forward, and the store stays
    readable at every step, also when the copying or the removal of old bundles fails partway. */
module ItemClose {
  import opened Prelude
  import opened ItemModel
  import opened ItemSafety

  /** `id` is asked to be deleted and lives in bundle k. */
  ghost predicate InGroup(blobs: seq<Blob>, del: seq<int>, k: int, id: int) {
    1 <= id <= |blobs| && id in del && blobs[id - 1].bundle == k
  }

  /** Which blobs a list of ids deletes, and how they are grouped by bundle. */
  ghost predicate MarkedAs(blobs: seq<Blob>, del: seq<int>, v: Version, m: Marking) {
    && |m.blobs| == |blobs|
    && (forall i :: 0 <= i < |blobs| ==>
          m.blobs[i] == if i + 1 in del && blobs[i].bundle != 0 then Deleted(blobs[i], v) else blobs[i])
    && (forall k, id :: k in m.groups ==> (id in m.groups[k] <==> InGroup(blobs, del, k, id)))
    && (forall k :: k in m.groups ==> k != 0 && m.groups[k] != [])
    && (forall i :: 0 <= i < |blobs| && i + 1 in del && blobs[i].bundle != 0 ==> blobs[i].bundle in m.groups)
  }

  lemma MarkStep(blobs: seq<Blob>, del: seq<int>, v: Version, m: Marking, id: int)
    requires Numbered(blobs) && MarkedAs(blobs, del, v, m)
    ensures MarkedAs(blobs, del + [id], v, Mark(m, id, v))
  {
    NumberedIndex(m.blobs, id);
    var m' := Mark(m, id, v);
    if !(1 <= id <= |blobs|) || m.blobs[id - 1].bundle == 0 {
      assert forall k, x :: k in m.groups ==> (InGroup(blobs, del + [id], k, x) <==> InGroup(blobs, del, k, x));
    } else {
      var k := m.blobs[id - 1].bundle;
      assert blobs[id - 1].bundle == k && id !in del;
      assert forall q, x :: InGroup(blobs, del + [id], q, x) <==> InGroup(blobs, del, q, x) || (q == k && x == id);
      forall x | InGroup(blobs, del, k, x)
        ensures k in m.groups
      {
        assert blobs[x - 1].bundle in m.groups;
      }
    }
  }

  lemma {:induction false} MarkAllSpec(blobs: seq<Blob>, del: seq<int>, v: Version)
    requires Numbered(blobs)
    ensures MarkedAs(blobs, del, v, MarkAll(Marking(blobs, map[]), del, v))
  {
    if del != [] {
      var before := del[..|del| - 1];
      MarkAllSpec(blobs, before, v);
      MarkStep(blobs, before, v, MarkAll(Marking(blobs, map[]), before, v), del[|del| - 1]);
      assert before + [del[|del| - 1]] == del;
    }
  }

  /** The bundles still to be rewritten: none of the ids to leave behind lives there, and the bundle
      that was open when Close began is the only place such an id has a stream. */
  ghost predicate Pending(b: Bundler, groups: map<int, seq<int>>, order: seq<int>, j: nat, top: int)
    requires forall k :: k in order ==> k in groups
  {
    forall p :: j <= p < |order| ==>
      var k := order[p];
      && 0 < k <= top
      && (forall id :: id in groups[k] ==> 1 <= id <= |b.item.blobs| && b.item.blobs[id - 1].bundle != k)
      && (k == top ==> forall id, q, e :: id in groups[k] && q != top && e in EntriesOf(b, q) ==> e.id != id)
  }

  ghost predicate Emptied(b: Bundler, bdel: seq<int>) {
    forall k :: k in bdel ==> k in b.disk && NoneIn(b.item.blobs, k)
  }

  lemma PendingKept(b: Bundler, c: Bundler, groups: map<int, seq<int>>, order: seq<int>, j: nat, top: int)
    requires forall k :: k in order ==> k in groups
    requires j < |order| && Distinct(order)
    requires Pending(b, groups, order, j, top)
    requires b.n - 1 >= top && MovedUp(b, c)
    requires OnlyCopies(b, c, EntriesOf(b, order[j]), groups[order[j]])
    ensures Pending(c, groups, order, j + 1, top)
  {
    forall p | j + 1 <= p < |order|
      ensures var k := order[p];
        && 0 < k <= top
        && (forall id :: id in groups[k] ==> 1 <= id <= |c.item.blobs| && c.item.blobs[id - 1].bundle != k)
        && (k == top ==> forall id, q, e :: id in groups[k] && q != top && e in EntriesOf(c, q) ==> e.id != id)
    {
      var k, src := order[p], order[j];
      assert k != src;
      forall id | id in groups[k]
        ensures 1 <= id <= |c.item.blobs| && c.item.blobs[id - 1].bundle != k
      {
        if k == top { assert forall e :: e in EntriesOf(b, src) ==> e.id != id; }
        assert b.item.blobs[id - 1].bundle != k;
      }
    }
  }

  lemma EmptiedKept(b: Bundler, c: Bundler, bdel: seq<int>)
    requires Emptied(b, bdel) && NumbersFresh(b) && b.zw.Some?
    requires MovedUp(b, c) && DiskKept(b.disk, c.disk)
    ensures Emptied(c, bdel)
  {
  }

  lemma CopyGroupSafe(h: Hasher, s: Session, groups: map<int, seq<int>>, order: seq<int>, j: nat,
                      faults: Faults, orig: seq<Bytes>, top: int)
    requires forall k :: k in order ==> k in groups
    requires j < |order| && Distinct(order)
    requires Safe(h, s.b, orig) && Whole(s.b, orig) && s.b.zw.Some? && s.b.n - 1 >= top
    requires Pending(s.b, groups, order, j, top) && Emptied(s.b, s.bdel)
    requires Fair(h, s.b.item.blobs, orig, faults, CopyBundleExcept(h, s.b, order[j], groups[order[j]], faults).ok)
    ensures var c := CopyBundleExcept(h, s.b, order[j], groups[order[j]], faults);
      && Safe(h, c.state, orig) && c.state.zw.Some? && c.state.n - 1 >= top && Emptied(c.state, s.bdel)
      && s.b.trace <= c.state.trace && c.state.item.versions == s.b.item.versions
      && SameHashes(s.b.item.blobs, c.state.item.blobs)
      && (c.ok ==>
            && Whole(c.state, orig) && Pending(c.state, groups, order, j + 1, top)
            && Emptied(c.state, s.bdel + [order[j]]))
  {
    var k := order[j];
    assert 0 < order[j] <= top;
    CopyBundleSafe(h, s.b, k, groups[k], faults, orig);
    CopyBundleOnlyCopies(h, s.b, k, groups[k], faults, orig);
    var c := CopyBundleExcept(h, s.b, k, groups[k], faults);
    EmptiedKept(s.b, c.state, s.bdel);
    if c.ok { CopyBundleEmpties(h, s.b, k, groups[k], faults, orig); }
    PendingKept(s.b, c.state, groups, order, j, top);
  }

  lemma {:induction false} CopyGroupsSafe(h: Hasher, s: Session, groups: map<int, seq<int>>, order: seq<int>, j: nat,
                                          faults: Faults, orig: seq<Bytes>, top: int)
    requires forall k :: k in order ==> k in groups
    requires j <= |order| && Distinct(order)
    requires Safe(h, s.b, orig) && Whole(s.b, orig) && s.b.zw.Some? && s.b.n - 1 >= top
    requires Pending(s.b, groups, order, j, top) && Emptied(s.b, s.bdel)
    requires Fair(h, s.b.item.blobs, orig, faults, CopyGroups(h, s, groups, order, j, faults).ok)
    ensures var c := CopyGroups(h, s, groups, order, j, faults);
      && Safe(h, c.state.b, orig) && c.state.b.zw.Some? && Emptied(c.state.b, c.state.bdel)
      && s.b.trace <= c.state.b.trace && c.state.b.item.versions == s.b.item.versions
    decreases |order| - j
  {
    if j < |order| {
      CopyGroupSafe(h, s, groups, order, j, faults, orig, top);
      var k := order[j];
      var c := CopyBundleExcept(h, s.b, k, groups[k], faults);
      if c.ok {
        if TornSealed(h, s.b.item.blobs, orig, faults) {
          TornSealedKept(h, s.b.item.blobs, c.state.item.blobs, orig, faults);
        }
        CopyGroupsSafe(h, s.(b := c.state, bdel := s.bdel + [k]), groups, order, j + 1, faults, orig, top);
      }
    }
  }

  lemma MarkedSafe(h: Hasher, s: Session, order: seq<int>, orig: seq<Bytes>)
    requires SafeSession(h, s, orig) && IsOrder(order, Marked(s).1.Keys)
    ensures var (m, groups) := Marked(s);
      && Safe(h, m.b, orig) && Whole(m.b, orig) && m.b.zw.Some? && m.bdel == []
      && SameHashes(s.b.item.blobs, m.b.item.blobs)
      && Pending(m.b, groups, order, 0, s.b.n - 1)
  {
    var (m, groups) := Marked(s);
    var blobs := s.b.item.blobs;
    var mk := MarkAll(Marking(blobs, map[]), s.del, s.version);
    MarkAllSpec(blobs, s.del, s.version);
    assert groups == mk.groups && m.b.item.blobs == mk.blobs;
    assert forall k :: EntriesOf(m.b, k) == EntriesOf(s.b, k);
    forall k
      ensures Known(h, m.b.item.blobs, EntriesOf(m.b, k), orig)
    {
      assert Known(h, blobs, EntriesOf(s.b, k), orig);
      SameHashesKnown(h, blobs, mk.blobs, EntriesOf(s.b, k), orig);
    }
    forall p | 0 <= p < |order|
      ensures var k := order[p];
        && 0 < k <= s.b.n - 1
        && (forall id :: id in groups[k] ==> 1 <= id <= |m.b.item.blobs| && m.b.item.blobs[id - 1].bundle != k)
        && (k == s.b.n - 1 ==> forall id, q, e ::
              id in groups[k] && q != s.b.n - 1 && e in EntriesOf(m.b, q) ==> e.id != id)
    {
      var k := order[p];
      assert k in order && k in mk.groups;
      var id := mk.groups[k][0];
      assert id in mk.groups[k];
      assert InGroup(blobs, s.del, k, id);
      LiveBundles(h, s.b, orig, id - 1);
    }
  }

  // ---- commit and removal of the rewritten bundles

  /** The store and the item in memory agree: the newest record is the item. */
  ghost predicate Settled(h: Hasher, b: Bundler, orig: seq<Bytes>) {
    && b.zw.None?
    && Loads(b.disk, b.item) && IsMax(b.disk, b.item.maxBundle)
    && Consistent(h, b.disk, b.item.blobs, orig)
    && TraceDurable(h, b.trace, orig)
    && b.trace != [] && b.trace[|b.trace| - 1] == b.disk
  }

  lemma ConsistentDurable(h: Hasher, disk: Disk, m: int, orig: seq<Bytes>)
    requires IsMax(disk, m) && Consistent(h, disk, disk[m].info.blobs, orig)
    ensures Durable(h, disk, orig)
  {
    assert orig[..|orig|] == orig;
    forall q | IsMax(disk, q)
      ensures q == m
    {
      MaxIsUnique(disk, q, m);
    }
  }

  lemma SettledDurable(h: Hasher, b: Bundler, orig: seq<Bytes>)
    requires Settled(h, b, orig)
    ensures Durable(h, b.disk, orig)
  {
    ConsistentDurable(h, b.disk, b.item.maxBundle, orig);
  }

  lemma CommitSettles(h: Hasher, b: Bundler, orig: seq<Bytes>)
    requires Safe(h, b, orig) && b.zw.Some?
    ensures Settled(h, CommitRecord(b), orig)
    ensures b.trace <= CommitRecord(b).trace
  {
    var b' := b.(item := b.item.(maxBundle := CurrentBundle(b)));
    assert forall k :: EntriesOf(b', k) == EntriesOf(b, k);
    CommitIsDurable(h, b', orig);
  }

  lemma DeleteBundleSettled(h: Hasher, b: Bundler, k: int, orig: seq<Bytes>)
    requires Settled(h, b, orig) && k < b.item.maxBundle && NoneIn(b.item.blobs, k)
    ensures Settled(h, DeleteBundle(b, k), orig)
  {
    var c := DeleteBundle(b, k);
    assert c.disk[b.item.maxBundle] == b.disk[b.item.maxBundle];
    assert Consistent(h, c.disk, c.item.blobs, orig);
    ConsistentDurable(h, c.disk, b.item.maxBundle, orig);
  }

  lemma {:induction false} DeleteBundlesSettled(h: Hasher, b: Bundler, bdel: seq<int>, j: nat, faults: Faults,
                                                orig: seq<Bytes>)
    requires j <= |bdel| && Settled(h, b, orig)
    requires forall k :: k in bdel ==> k < b.item.maxBundle && NoneIn(b.item.blobs, k)
    ensures var d := DeleteBundles(b, bdel, j, faults);
      && Settled(h, d.state, orig) && d.state.item == b.item && b.trace <= d.state.trace
      && (forall k :: k in d.state.disk ==> k in b.disk && d.state.disk[k] == b.disk[k])
      && (d.ok ==> forall p :: j <= p < |bdel| ==> bdel[p] !in d.state.disk)
    decreases |bdel| - j
  {
    if j < |bdel| && !faults.delete(bdel[j]) {
      assert bdel[j] in bdel;
      DeleteBundleSettled(h, b, bdel[j], orig);
      DeleteBundlesSettled(h, DeleteBundle(b, bdel[j]), bdel, j + 1, faults, orig);
    }
  }

  /** The copying of this Close goes well, or what it tears belongs to sealed blobs. */
  ghost predicate FairClose(h: Hasher, s: Session, order: seq<int>, faults: Faults, orig: seq<Bytes>)
    requires forall k :: k in order ==> k in Marked(s).1
  {
    Fair(h, s.b.item.blobs, orig, faults, CopyGroups(h, Marked(s).0, Marked(s).1, order, 0, faults).ok)
  }

  /** The session when the copying of doDeletes has ended, well or not. */
  lemma CopiedSafe(h: Hasher, s: Session, order: seq<int>, faults: Faults, orig: seq<Bytes>)
    requires SafeSession(h, s, orig) && IsOrder(order, Marked(s).1.Keys) && FairClose(h, s, order, faults, orig)
    ensures var c := CopyGroups(h, Marked(s).0, Marked(s).1, order, 0, faults).state;
      && Safe(h, c.b, orig) && c.b.zw.Some? && s.b.trace <= c.b.trace
      && c.b.item.versions == s.b.item.versions + [s.version]
      && (forall k :: k in c.bdel ==> k < CommitRecord(c.b).item.maxBundle && NoneIn(CommitRecord(c.b).item.blobs, k))
  {
    MarkedSafe(h, s, order, orig);
    if TornSealed(h, s.b.item.blobs, orig, faults) {
      TornSealedKept(h, s.b.item.blobs, Marked(s).0.b.item.blobs, orig, faults);
    }
    CopyGroupsSafe(h, Marked(s).0, Marked(s).1, order, 0, faults, orig, s.b.n - 1);
  }

  /** Whatever the order of the rewritten bundles and whichever accesses fail, Close leaves a store
      whose newest record is the item in memory, and every store content on the way was durable. */
  lemma CloseSafe(h: Hasher, s: Session, order: seq<int>, faults: Faults, orig: seq<Bytes>)
    requires SafeSession(h, s, orig) && IsOrder(order, Marked(s).1.Keys) && FairClose(h, s, order, faults, orig)
    ensures var c := CloseWriter(h, s, order, faults);
      && Settled(h, c.state.b, orig) && s.b.trace <= c.state.b.trace
      && c.state.b.item.versions == s.b.item.versions + [s.version]
  {
    CopiedSafe(h, s, order, faults, orig);
    var c := CopyGroups(h, Marked(s).0, Marked(s).1, order, 0, faults);
    CommitSettles(h, c.state.b, orig);
    if c.ok {
      DeleteBundlesSettled(h, CommitRecord(c.state.b), c.state.bdel, 0, faults, orig);
    }
  }
}
