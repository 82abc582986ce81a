/** The history of an item only grows: versions are numbered 1, 2, ..., recorded versions never change,
    and the version a session adds is the previous one with the session's slot calls applied. */
module ItemHistory {
  import opened Prelude
  import opened ItemModel
  import opened ItemSafety
  import opened ItemRuns

  ghost predicate NumberedVersions(vs: seq<Version>) {
    forall j :: 0 <= j < |vs| ==> vs[j].id == j + 1
  }

  /** The newest record of t holds the versions vs; an empty store has none. */
  ghost predicate Records(t: Disk, vs: seq<Version>) {
    if t == map[] then vs == [] else exists m :: IsMax(t, m) && t[m].info.versions == vs
  }

  /** Every content of the trace records one of two histories, in bundles numbered from 1. */
  ghost predicate TraceRecords(trace: seq<Disk>, old_: seq<Version>, new_: seq<Version>) {
    forall t :: t in trace ==> Positive(t) && (Records(t, old_) || Records(t, new_))
  }

  ghost predicate Positive(t: Disk) {
    forall k :: k in t ==> k >= 1
  }

  /** A bundle is open, its number is new, and the trace ends with the store as it is. */
  ghost predicate Standing(b: Bundler) {
    b.zw.Some? && NumbersFresh(b) && b.trace != [] && b.trace[|b.trace| - 1] == b.disk
  }

  ghost predicate SessionHistory(s: Session) {
    var vs := s.b.item.versions;
    NumberedVersions(vs) && s.version.id == |vs| + 1 && TraceRecords(s.b.trace, vs, vs) && Standing(s.b) && s.bdel == []
  }

  ghost predicate WorldHistory(w: World) {
    match w
    case Idle(disk, cached, _) =>
      && Positive(disk) && (exists vs :: Records(disk, vs) && NumberedVersions(vs))
      && (cached.Some? ==> Loads(disk, cached.value) && Records(disk, cached.value.versions))
    case Busy(s, _) => SessionHistory(s)
  }

  /** The versions a reader is shown. */
  ghost predicate Shows(w: World, vs: seq<Version>) {
    match w
    case Idle(disk, _, _) => Records(disk, vs)
    case Busy(s, _) => vs == s.b.item.versions
  }

  lemma RecordsUnique(t: Disk, a: seq<Version>, b: seq<Version>)
    requires Records(t, a) && Records(t, b)
    ensures a == b
  {
    if t != map[] {
      var m :| IsMax(t, m) && t[m].info.versions == a;
      var n :| IsMax(t, n) && t[n].info.versions == b;
      MaxIsUnique(t, m, n);
    }
  }

  // ---- the operations of a session

  lemma CommitHistory(b: Bundler, old_: seq<Version>)
    requires Standing(b) && TraceRecords(b.trace, old_, b.item.versions)
    ensures var c := CloseBundle(b);
      && TraceRecords(c.trace, old_, b.item.versions) && Records(c.disk, b.item.versions)
      && IsMax(c.disk, b.n - 1) && c.disk[b.n - 1].info == Info(b.item.blobs, b.item.versions)
      && c.trace != [] && c.trace[|c.trace| - 1] == c.disk && DiskKept(b.disk, c.disk) && Positive(c.disk)
  {
    assert IsMax(CloseBundle(b).disk, b.n - 1);
  }

  /** c is b with one more stream, and perhaps a bundle committed. */
  ghost predicate Onward(b: Bundler, c: Bundler, old_: seq<Version>) {
    && Standing(c) && c.item.versions == b.item.versions && DiskKept(b.disk, c.disk)
    && TraceRecords(c.trace, old_, b.item.versions)
  }

  lemma AppendHistory(b: Bundler, id: int, data: Bytes, old_: seq<Version>)
    requires Standing(b) && TraceRecords(b.trace, old_, b.item.versions)
    ensures Onward(b, AppendBlob(b, id, data), old_) && AppendBlob(b, id, data).item == b.item
  {
    CommitHistory(b, old_);
  }

  lemma ApplyHistory(h: Hasher, s: Session, op: Op)
    requires SessionHistory(s)
    ensures SessionHistory(Apply(h, s, op))
    ensures Apply(h, s, op).b.item.versions == s.b.item.versions
    ensures Apply(h, s, op).version == ApplyVersion(s.version, op)
  {
    if op.Write? { AppendHistory(s.b, NextBlobID(s), op.data, s.b.item.versions); }
  }

  lemma CopyEntryHistory(h: Hasher, b: Bundler, e: Entry, old_: seq<Version>)
    requires Standing(b) && TraceRecords(b.trace, old_, b.item.versions)
    ensures Onward(b, CopyEntry(h, b, e).state, old_)
    ensures forall n :: Onward(b, TearEntry(b, e, n), old_)
  {
    AppendHistory(b, e.id, e.data, old_);
    forall n
      ensures Onward(b, TearEntry(b, e, n), old_)
    {
      AppendHistory(b, e.id, Cut(e.data, n), old_);
    }
  }

  lemma {:induction false} CopyEntriesHistory(h: Hasher, b: Bundler, src: int, es: seq<Entry>, except: seq<int>,
                                              j: nat, faults: Faults, old_: seq<Version>)
    requires Standing(b) && TraceRecords(b.trace, old_, b.item.versions) && j <= |es|
    ensures Onward(b, CopyEntries(h, b, src, es, except, j, faults).state, old_)
    decreases |es| - j
  {
    if j == |es| {
    } else if es[j].id in except {
      CopyEntriesHistory(h, b, src, es, except, j + 1, faults, old_);
    } else {
      CopyEntryHistory(h, b, es[j], old_);
      CopyEntriesHistory(h, CopyEntry(h, b, es[j]).state, src, es, except, j + 1, faults, old_);
    }
  }

  lemma CopyBundleHistory(h: Hasher, b: Bundler, src: int, except: seq<int>, faults: Faults, old_: seq<Version>)
    requires Standing(b) && TraceRecords(b.trace, old_, b.item.versions)
    ensures var c := CopyBundleExcept(h, b, src, except, faults);
      Onward(b, c.state, old_) && (c.ok ==> src in c.state.disk)
  {
    if src in b.disk { CopyEntriesHistory(h, b, src, b.disk[src].entries, except, 0, faults, old_); }
  }

  ghost predicate Present(disk: Disk, bdel: seq<int>) {
    forall k :: k in bdel ==> k in disk
  }

  lemma {:induction false} CopyGroupsHistory(h: Hasher, s: Session, groups: map<int, seq<int>>, order: seq<int>, j: nat,
                                             faults: Faults, old_: seq<Version>)
    requires (forall k :: k in order ==> k in groups) && j <= |order|
    requires Standing(s.b) && TraceRecords(s.b.trace, old_, s.b.item.versions) && Present(s.b.disk, s.bdel)
    ensures var c := CopyGroups(h, s, groups, order, j, faults).state;
      Onward(s.b, c.b, old_) && Present(c.b.disk, c.bdel)
    decreases |order| - j
  {
    if j < |order| {
      var k := order[j];
      CopyBundleHistory(h, s.b, k, groups[k], faults, old_);
      var c := CopyBundleExcept(h, s.b, k, groups[k], faults);
      if c.ok {
        CopyGroupsHistory(h, s.(b := c.state, bdel := s.bdel + [k]), groups, order, j + 1, faults, old_);
      }
    }
  }

  /** The newest bundle, with the item in memory as its record, is not among those to be deleted. */
  ghost predicate Newest(b: Bundler, bdel: seq<int>) {
    && Loads(b.disk, b.item) && IsMax(b.disk, b.item.maxBundle) && Positive(b.disk)
    && forall k :: k in bdel ==> k != b.item.maxBundle
  }

  lemma {:induction false} DeleteBundlesHistory(b: Bundler, bdel: seq<int>, j: nat, faults: Faults, old_: seq<Version>)
    requires j <= |bdel| && Newest(b, bdel) && TraceRecords(b.trace, old_, b.item.versions)
    ensures var c := DeleteBundles(b, bdel, j, faults).state;
      Newest(c, bdel) && TraceRecords(c.trace, old_, b.item.versions) && c.item == b.item
    decreases |bdel| - j
  {
    if j < |bdel| && !faults.delete(bdel[j]) {
      assert bdel[j] in bdel;
      var c := DeleteBundle(b, bdel[j]);
      var m := b.item.maxBundle;
      assert IsMax(c.disk, m) && c.disk[m].info.versions == b.item.versions;
      DeleteBundlesHistory(c, bdel, j + 1, faults, old_);
    }
  }

  lemma CommitRecordHistory(b: Bundler, bdel: seq<int>, old_: seq<Version>)
    requires Standing(b) && TraceRecords(b.trace, old_, b.item.versions) && Present(b.disk, bdel)
    ensures var c := CommitRecord(b);
      && TraceRecords(c.trace, old_, b.item.versions) && c.item.versions == b.item.versions && Newest(c, bdel)
  {
    CommitHistory(b.(item := b.item.(maxBundle := CurrentBundle(b))), old_);
  }

  /** Whatever happens in Close, the store records the old history or the old one plus this version, and ends
      with the latter, which is the item in memory. */
  lemma CloseHistory(h: Hasher, s: Session, order: seq<int>, faults: Faults)
    requires SessionHistory(s) && forall k :: k in order ==> k in Marked(s).1
    ensures var c := CloseWriter(h, s, order, faults).state.b;
      var vs := s.b.item.versions;
      && TraceRecords(c.trace, vs, vs + [s.version]) && Records(c.disk, vs + [s.version])
      && Loads(c.disk, c.item) && c.item.versions == vs + [s.version] && Positive(c.disk)
  {
    var old_ := s.b.item.versions;
    var m := Marked(s).0;
    assert TraceRecords(m.b.trace, old_, m.b.item.versions);
    CopyGroupsHistory(h, m, Marked(s).1, order, 0, faults, old_);
    var c := CopyGroups(h, m, Marked(s).1, order, 0, faults);
    CommitRecordHistory(c.state.b, c.state.bdel, old_);
    if c.ok { DeleteBundlesHistory(CommitRecord(c.state.b), c.state.bdel, 0, faults, old_); }
  }

  // ---- runs

  lemma ShowsUnique(w: World, a: seq<Version>, b: seq<Version>)
    requires Shows(w, a) && Shows(w, b)
    ensures a == b
  {
    if w.Idle? { RecordsUnique(w.disk, a, b); }
  }

  lemma OpenHistory(disk: Disk, item: Item, creator: string, vs: seq<Version>)
    requires Positive(disk) && Loads(disk, item) && Records(disk, vs) && NumberedVersions(vs)
    ensures item.versions == vs && SessionHistory(OpenWriter(disk, item, creator))
  {
    assert Records(disk, item.versions);
    RecordsUnique(disk, item.versions, vs);
  }

  /** A step shows the same versions as before, or one more, and that one only when a Close put it there. */
  lemma NextHistory(h: Hasher, w: World, e: Event, w': World, vs: seq<Version>)
    requires WorldHistory(w) && Next(h, w, e, w') && Shows(w, vs)
    ensures WorldHistory(w')
    ensures NumberedVersions(vs)
    ensures Shows(w', vs) || (w.Busy? && (e.Close? || e.CrashInClose?) && Shows(w', vs + [w.session.version]))
    ensures e.Close? ==> Shows(w', vs + [w.session.version])
  {
    match e
    case Open(item, creator) =>
      var us :| Records(w.disk, us) && NumberedVersions(us);
      RecordsUnique(w.disk, us, vs);
      OpenHistory(w.disk, item, creator, vs);
    case Do(op) => ApplyHistory(h, w.session, op);
    case Close(order, faults) =>
      CloseHistory(h, w.session, order, faults);
      assert NumberedVersions(vs + [w.session.version]);
    case CrashInDo(op, t) =>
      ApplyHistory(h, w.session, op);
      assert Records(t, vs);
    case CrashInClose(order, faults, t) =>
      CloseHistory(h, w.session, order, faults);
      assert Records(t, vs) || Records(t, vs + [w.session.version]);
      assert NumberedVersions(vs + [w.session.version]);
    case Restart =>
      var us :| Records(w.disk, us) && NumberedVersions(us);
      RecordsUnique(w.disk, us, vs);
  }

  lemma {:induction false} RunHistory(h: Hasher, ws: seq<World>, es: seq<Event>, i: nat)
    requires IsRun(h, ws, es) && i < |ws|
    ensures WorldHistory(ws[i]) && exists vs :: Shows(ws[i], vs)
  {
    if i == 0 {
      assert Records(map[], []);
      assert Shows(ws[0], []);
    } else {
      RunHistory(h, ws, es, i - 1);
      var vs :| Shows(ws[i - 1], vs);
      assert Next(h, ws[i - 1], es[i - 1], ws[i]);
      NextHistory(h, ws[i - 1], es[i - 1], ws[i], vs);
    }
  }

  lemma ShownNumbered(w: World, us: seq<Version>)
    requires WorldHistory(w) && Shows(w, us)
    ensures NumberedVersions(us)
  {
    if w.Idle? {
      var xs :| Records(w.disk, xs) && NumberedVersions(xs);
      RecordsUnique(w.disk, xs, us);
    }
  }

  lemma NextShows(h: Hasher, w: World, e: Event, w': World, vs: seq<Version>, us: seq<Version>)
    requires WorldHistory(w) && Next(h, w, e, w') && Shows(w, vs) && Shows(w', us)
    ensures vs <= us
  {
    NextHistory(h, w, e, w', vs);
    if Shows(w', vs) {
      ShowsUnique(w', vs, us);
    } else {
      ShowsUnique(w', vs + [w.session.version], us);
    }
  }

  lemma RunShown(h: Hasher, ws: seq<World>, es: seq<Event>, i: nat)
    requires IsRun(h, ws, es) && i < |ws|
    ensures exists vs :: Shows(ws[i], vs)
    ensures forall us :: Shows(ws[i], us) ==> NumberedVersions(us)
  {
    RunHistory(h, ws, es, i);
    forall us | Shows(ws[i], us)
      ensures NumberedVersions(us)
    {
      ShownNumbered(ws[i], us);
    }
  }

  lemma StepShows(h: Hasher, ws: seq<World>, es: seq<Event>, i: nat, vs: seq<Version>, us: seq<Version>)
    requires IsRun(h, ws, es) && i < |es|
    requires Shows(ws[i], vs) && Shows(ws[i + 1], us)
    ensures vs <= us
  {
    RunHistory(h, ws, es, i);
    assert Next(h, ws[i], es[i], ws[i + 1]);
    NextShows(h, ws[i], es[i], ws[i + 1], vs, us);
  }

  /** History is append-only: what a state of a run shows is a prefix of what any later state shows,
      slot maps included, and the versions are numbered from 1. */
  lemma {:induction false} HistoryAppendOnly(h: Hasher, ws: seq<World>, es: seq<Event>, i: nat, j: nat,
                                             vs: seq<Version>, us: seq<Version>)
    requires IsRun(h, ws, es) && i <= j < |ws|
    requires Shows(ws[i], vs) && Shows(ws[j], us)
    ensures vs <= us && NumberedVersions(us)
    decreases j
  {
    RunShown(h, ws, es, j);
    if i == j {
      ShowsUnique(ws[i], vs, us);
    } else {
      RunShown(h, ws, es, j - 1);
      var ys :| Shows(ws[j - 1], ys);
      HistoryAppendOnly(h, ws, es, i, j - 1, vs, ys);
      StepShows(h, ws, es, j - 1, ys, us);
    }
  }

  /** The calls of a session, in order. */
  function Fold(v: Version, ops: seq<Op>): Version {
    if ops == [] then v else ApplyVersion(Fold(v, ops[..|ops| - 1]), ops[|ops| - 1])
  }

  function ApplyAll(h: Hasher, s: Session, ops: seq<Op>): Session {
    if ops == [] then s else Apply(h, ApplyAll(h, s, ops[..|ops| - 1]), ops[|ops| - 1])
  }

  lemma {:induction false} ApplyAllVersion(h: Hasher, s: Session, ops: seq<Op>)
    ensures ApplyAll(h, s, ops).version == Fold(s.version, ops)
    ensures ApplyAll(h, s, ops).b.item.versions == s.b.item.versions
  {
    if ops != [] { ApplyAllVersion(h, s, ops[..|ops| - 1]); }
  }

  /** The blob a slot shows after a session's calls: the last call that decided it wins, and a slot no
      call touched shows what the previous version showed. */
  function SlotAfter(slots: map<string, int>, ops: seq<Op>, name: string): Option<int> {
    if ops == [] then (if name in slots then Some(slots[name]) else None)
    else match ops[|ops| - 1]
      case SetSlot(slot, id) =>
        if slot != name then SlotAfter(slots, ops[..|ops| - 1], name) else if id == 0 then None else Some(id)
      case ClearSlots => None
      case _ => SlotAfter(slots, ops[..|ops| - 1], name)
  }

  lemma {:induction false} FoldSlots(v: Version, ops: seq<Op>, name: string)
    ensures var slots := Fold(v, ops).slots;
      SlotAfter(v.slots, ops, name) == if name in slots then Some(slots[name]) else None
    ensures Fold(v, ops).id == v.id
  {
    if ops != [] { FoldSlots(v, ops[..|ops| - 1], name); }
  }

  /** The version that Open, calls and Close add to an item: numbered one past the last, each slot as
      the calls left it, and the versions before it untouched. */
  lemma SessionAddsVersion(h: Hasher, disk: Disk, item: Item, creator: string, ops: seq<Op>,
                           order: seq<int>, faults: Faults, name: string)
    requires IsOrder(order, Marked(ApplyAll(h, OpenWriter(disk, item, creator), ops)).1.Keys)
    ensures var s := ApplyAll(h, OpenWriter(disk, item, creator), ops);
      var vs := CloseWriter(h, s, order, faults).state.b.item.versions;
      var n := |item.versions|;
      && |vs| == n + 1 && vs[..n] == item.versions
      && vs[n].id == (if n == 0 then 1 else item.versions[n - 1].id + 1)
      && SlotAfter(if n == 0 then map[] else item.versions[n - 1].slots, ops, name)
         == (if name in vs[n].slots then Some(vs[n].slots[name]) else None)
  {
    var s0 := OpenWriter(disk, item, creator);
    ApplyAllVersion(h, s0, ops);
    FoldSlots(s0.version, ops, name);
    CloseKeepsVersions(h, ApplyAll(h, s0, ops), order, faults);
  }

  lemma {:induction false} CopyKeepsVersions(h: Hasher, b: Bundler, src: int, es: seq<Entry>, except: seq<int>, j: nat,
                                             faults: Faults)
    requires j <= |es|
    ensures CopyEntries(h, b, src, es, except, j, faults).state.item.versions == b.item.versions
    decreases |es| - j
  {
    if j < |es| {
      CopyKeepsVersions(h, b, src, es, except, j + 1, faults);
      CopyKeepsVersions(h, CopyEntry(h, b, es[j]).state, src, es, except, j + 1, faults);
    }
  }

  lemma {:induction false} GroupsKeepVersions(h: Hasher, s: Session, groups: map<int, seq<int>>, order: seq<int>,
                                              j: nat,
                                              faults: Faults)
    requires (forall k :: k in order ==> k in groups) && j <= |order|
    ensures CopyGroups(h, s, groups, order, j, faults).state.b.item.versions == s.b.item.versions
    decreases |order| - j
  {
    if j < |order| {
      var k := order[j];
      if k in s.b.disk { CopyKeepsVersions(h, s.b, k, s.b.disk[k].entries, groups[k], 0, faults); }
      var c := CopyBundleExcept(h, s.b, k, groups[k], faults);
      if c.ok { GroupsKeepVersions(h, s.(b := c.state, bdel := s.bdel + [k]), groups, order, j + 1, faults); }
    }
  }

  lemma {:induction false} DeletionKeepsItem(b: Bundler, bdel: seq<int>, j: nat, faults: Faults)
    requires j <= |bdel|
    ensures DeleteBundles(b, bdel, j, faults).state.item == b.item
    decreases |bdel| - j
  {
    if j < |bdel| && !faults.delete(bdel[j]) { DeletionKeepsItem(DeleteBundle(b, bdel[j]), bdel, j + 1, faults); }
  }

  lemma CloseKeepsVersions(h: Hasher, s: Session, order: seq<int>, faults: Faults)
    requires forall k :: k in order ==> k in Marked(s).1
    ensures CloseWriter(h, s, order, faults).state.b.item.versions == s.b.item.versions + [s.version]
  {
    GroupsKeepVersions(h, Marked(s).0, Marked(s).1, order, 0, faults);
    var c := CopyGroups(h, Marked(s).0, Marked(s).1, order, 0, faults).state;
    DeletionKeepsItem(CommitRecord(c.b), c.bdel, 0, faults);
  }
}
