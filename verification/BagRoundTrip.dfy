/** Reading a written bag: names in order, checksums through the manifest text, and a clean Verify,
    whatever the order in which the writer's map is ranged over. */
module BagRoundTrip {
  import opened Prelude
  import opened BagText
  import opened BagModel

  // ---- the writer's invariant

  ghost predicate Has(w: Draft, f: string) {
    exists i :: 0 <= i < |w.files| && w.files[i].name == f
  }

  ghost predicate Distinctly(w: Draft) {
    forall i, j :: 0 <= i < j < |w.files| ==> w.files[i].name != w.files[j].name
  }

  /** Each finished file's checksum is recorded; nothing is promised for the file being written. */
  ghost predicate Tracked(h: Hasher, w: Draft) {
    && Distinctly(w)
    && (forall f :: f in w.manifest <==> Has(w, f))
    && (w.cur == if w.files == [] then None else Some(w.files[|w.files| - 1].name))
    && (forall i :: 0 <= i < |w.files| - 1 ==> w.manifest[w.files[i].name] == Sum(h, w.files[i].data))
  }

  /** The same for the file being written. */
  ghost predicate Settled(h: Hasher, w: Draft) {
    && Tracked(h, w)
    && forall i :: 0 <= i < |w.files| ==> w.manifest[w.files[i].name] == Sum(h, w.files[i].data)
  }

  lemma NewTracked(h: Hasher, name: string)
    ensures Settled(h, NewDraft(name))
  {
  }

  lemma SaveSettles(h: Hasher, w: Draft)
    requires Tracked(h, w)
    ensures Settled(h, SaveChecksum(h, w)) && SaveChecksum(h, w).files == w.files
  {
    if w.files != [] { assert w.files[|w.files| - 1].name == w.cur.value; }
  }

  lemma CreateTracked(h: Hasher, w: Draft, name: string)
    requires Tracked(h, w) && !Has(w, name)
    ensures var c := Create(h, w, name);
      && Tracked(h, c) && c.files == w.files + [ZFile(name, "")] && c.manifest[name] == EMPTY
  {
    SaveSettles(h, w);
    var s, c := SaveChecksum(h, w), Create(h, w, name);
    forall f
      ensures f in c.manifest <==> Has(c, f)
    {
      if Has(s, f) {
        var i :| 0 <= i < |s.files| && s.files[i].name == f;
        assert c.files[i].name == f;
      }
      if f == name { assert c.files[|c.files| - 1].name == f; }
      if Has(c, f) && f != name {
        var i :| 0 <= i < |c.files| && c.files[i].name == f;
        assert s.files[i].name == f;
      }
    }
  }

  lemma WriteTracked(h: Hasher, w: Draft, p: Bytes)
    requires Tracked(h, w) && w.files != []
    ensures var c := Write(w, p); var last := |w.files| - 1;
      && Tracked(h, c) && c.files == w.files[..last] + [ZFile(w.files[last].name, w.files[last].data + p)]
  {
    var c := Write(w, p);
    forall f
      ensures Has(c, f) <==> Has(w, f)
    {
      if Has(c, f) {
        var i :| 0 <= i < |c.files| && c.files[i].name == f;
        assert w.files[i].name == f;
      }
      if Has(w, f) {
        var i :| 0 <= i < |w.files| && w.files[i].name == f;
        assert c.files[i].name == f;
      }
    }
  }

  // ---- one manifest loop

  ghost predicate IsListing(h: Hasher, base: Draft, istag: bool, kind: Kind, order: seq<string>, i: nat,
                            ls: seq<Listed>)
    requires i <= |order|
  {
    && (forall a, b :: 0 <= a < b < |ls| ==> ls[a].file != ls[b].file)
    && (forall l :: l in ls ==>
          && l.file in order[..i] && Qualifies(istag, l.file)
          && exists k :: 0 <= k < |base.files| && base.files[k].name == l.file
                         && l.digest == Get(Sum(h, base.files[k].data), kind))
    && (forall f ::
          f in order[..i] && Qualifies(istag, f) && f in base.manifest && Get(base.manifest[f], kind) != "" ==>
          exists l :: l in ls && l.file == f)
  }

  /** A name before position i has made the loop open its file. */
  ghost predicate Opens(base: Draft, istag: bool, kind: Kind, order: seq<string>, i: nat)
    requires i <= |order|
  {
    exists a :: 0 <= a < i && Qualifies(istag, order[a]) && order[a] in base.manifest
                && Get(base.manifest[order[a]], kind) != ""
  }

  /** The i-th name gets a line: it has a checksum, or has one from the moment the loop opens its file. */
  ghost predicate Takes(h: Hasher, base: Draft, istag: bool, kind: Kind, order: seq<string>, i: nat)
    requires i < |order|
  {
    var f, saved := order[i], SaveChecksum(h, base).manifest;
    && Qualifies(istag, f) && f in base.manifest && f in saved
    && (Get(base.manifest[f], kind) != "" || (Opens(base, istag, kind, order, i) && Get(saved[f], kind) != ""))
  }

  /** Exactly those names have lines. */
  ghost predicate ListsExactly(h: Hasher, base: Draft, istag: bool, kind: Kind, order: seq<string>, i: nat, open: bool,
                               ls: seq<Listed>)
    requires i <= |order|
  {
    && (open <==> Opens(base, istag, kind, order, i))
    && forall p {:trigger Takes(h, base, istag, kind, order, p)} :: 0 <= p < i ==>
         (HasLine(ls, order[p]) <==> Takes(h, base, istag, kind, order, p))
  }

  predicate HasLine(ls: seq<Listed>, f: string) {
    exists l :: l in ls && l.file == f
  }

  /** Where the loop stands: the manifest file is created with the first line. */
  ghost predicate LoopAt(h: Hasher, base: Draft, mname: string, w: Draft, open: bool, ls: seq<Listed>) {
    if open then
      && Tracked(h, w)
      && w.files == base.files + [ZFile(mname, Format(ls))]
      && w.manifest == SaveChecksum(h, base).manifest[mname := EMPTY]
      && w.dirname == base.dirname
    else w == base && ls == []
  }

  lemma LoopEntry(h: Hasher, base: Draft, mname: string, w: Draft, open: bool, ls: seq<Listed>, f: string, kind: Kind)
    requires Tracked(h, base) && LoopAt(h, base, mname, w, open, ls)
    requires f in w.manifest && f != mname && Get(w.manifest[f], kind) != ""
    requires forall k :: 0 <= k < |base.files| && base.files[k].name in base.manifest ==>
      base.manifest[base.files[k].name] in {EMPTY, Sum(h, base.files[k].data)}
    ensures exists k :: 0 <= k < |base.files| && base.files[k].name == f
                        && Get(w.manifest[f], kind) == Get(Sum(h, base.files[k].data), kind)
  {
    SaveSettles(h, base);
    var s := SaveChecksum(h, base);
    assert f in s.manifest;
    assert Has(s, f);
    var k :| 0 <= k < |s.files| && s.files[k].name == f;
    assert base.files[k].name == f;
  }

  /** Nothing stale: the file being written has no checksum yet, or the right one. */
  ghost predicate NoStale(h: Hasher, w: Draft) {
    forall k :: 0 <= k < |w.files| && w.files[k].name in w.manifest ==>
      w.manifest[w.files[k].name] in {EMPTY, Sum(h, w.files[k].data)}
  }

  lemma ListingSkip(h: Hasher, base: Draft, istag: bool, kind: Kind, order: seq<string>, i: nat, ls: seq<Listed>)
    requires i < |order| && IsListing(h, base, istag, kind, order, i, ls)
    requires var f := order[i]; !(Qualifies(istag, f) && f in base.manifest && Get(base.manifest[f], kind) != "")
    ensures IsListing(h, base, istag, kind, order, i + 1, ls)
  {
    assert order[..i + 1] == order[..i] + [order[i]];
  }

  lemma ListingAdd(h: Hasher, base: Draft, istag: bool, kind: Kind, order: seq<string>, i: nat, ls: seq<Listed>,
                   l: Listed, k: nat)
    requires i < |order| && Distinct(order) && IsListing(h, base, istag, kind, order, i, ls)
    requires l.file == order[i] && Qualifies(istag, l.file)
    requires k < |base.files| && base.files[k].name == l.file && l.digest == Get(Sum(h, base.files[k].data), kind)
    ensures IsListing(h, base, istag, kind, order, i + 1, ls + [l])
  {
    assert order[..i + 1] == order[..i] + [order[i]];
    assert order[i] !in order[..i];
    forall a | 0 <= a < |ls|
      ensures ls[a].file != l.file
    {
      assert ls[a] in ls;
    }
    assert forall x :: x in ls + [l] <==> x in ls || x == l;
  }

  lemma LoopSkip(h: Hasher, base: Draft, istag: bool, kind: Kind, order: seq<string>, i: nat,
                 w: Draft, open: bool, ls: seq<Listed>)
    requires Tracked(h, base) && NoStale(h, base) && i < |order| && order[i] != ManifestName(istag, kind)
    requires LoopAt(h, base, ManifestName(istag, kind), w, open, ls) && IsListing(h, base, istag, kind, order, i, ls)
    requires var f := order[i]; !(Qualifies(istag, f) && f in w.manifest && Get(w.manifest[f], kind) != "")
    ensures IsListing(h, base, istag, kind, order, i + 1, ls)
  {
    var f := order[i];
    if Qualifies(istag, f) && open && f in base.manifest && Get(base.manifest[f], kind) != "" {
      KeptBySave(h, base, f, kind);
    }
    ListingSkip(h, base, istag, kind, order, i, ls);
  }

  lemma LoopOpens(h: Hasher, base: Draft, mname: string)
    requires Tracked(h, base) && !Has(base, mname)
    ensures LoopAt(h, base, mname, Create(h, base, mname), true, [])
  {
    CreateTracked(h, base, mname);
  }

  lemma LoopWrites(h: Hasher, base: Draft, mname: string, w: Draft, ls: seq<Listed>, l: Listed)
    requires LoopAt(h, base, mname, w, true, ls)
    ensures w.files != [] && LoopAt(h, base, mname, Write(w, FormatLine(l)), true, ls + [l])
  {
    var c := Write(w, FormatLine(l));
    WriteTracked(h, w, FormatLine(l));
    var n := |base.files|;
    assert (ls + [l])[..|ls|] == ls;
    assert Format(ls + [l]) == Format(ls) + FormatLine(l);
    assert w.files[..n] == base.files;
    assert c.files == base.files + [ZFile(mname, Format(ls + [l]))];
  }

  lemma LoopWrite(h: Hasher, base: Draft, mname: string, w: Draft, open: bool, ls: seq<Listed>, l: Listed)
    requires Tracked(h, base) && !Has(base, mname) && LoopAt(h, base, mname, w, open, ls)
    ensures var o := if open then w else Create(h, w, mname);
      o.files != [] && LoopAt(h, base, mname, Write(o, FormatLine(l)), true, ls + [l])
  {
    if open {
      LoopWrites(h, base, mname, w, ls, l);
    } else {
      LoopOpens(h, base, mname);
      LoopWrites(h, base, mname, Create(h, w, mname), [], l);
    }
  }

  predicate GetsLine(w: Draft, istag: bool, kind: Kind, f: string) {
    Qualifies(istag, f) && f in w.manifest && Get(w.manifest[f], kind) != ""
  }

  ghost predicate LineAdded(w: Draft, istag: bool, kind: Kind, f: string, open: bool, ls: seq<Listed>, open': bool,
                            ls': seq<Listed>) {
    if GetsLine(w, istag, kind, f) then open' && exists d :: ls' == ls + [Listed(d, f)]
    else open' == open && ls' == ls
  }

  lemma ManifestStep(h: Hasher, base: Draft, w: Draft, istag: bool, kind: Kind, order: seq<string>, i: nat,
                     open: bool, ls: seq<Listed>)
    returns (w': Draft, open': bool, ls': seq<Listed>)
    requires Tracked(h, base) && NoStale(h, base) && Distinct(order) && i < |order|
    requires var mname := ManifestName(istag, kind); !Has(base, mname) && mname !in order
    requires LoopAt(h, base, ManifestName(istag, kind), w, open, ls) && IsListing(h, base, istag, kind, order, i, ls)
    ensures (open ==> w.files != []) && (open' ==> w'.files != [])
    ensures ManifestFrom(h, w, istag, kind, order, i, open) == ManifestFrom(h, w', istag, kind, order, i + 1, open')
    ensures LoopAt(h, base, ManifestName(istag, kind), w', open', ls')
    ensures IsListing(h, base, istag, kind, order, i + 1, ls')
    ensures LineAdded(w, istag, kind, order[i], open, ls, open', ls')
  {
    var mname, fname := ManifestName(istag, kind), order[i];
    if !(Qualifies(istag, fname) && fname in w.manifest && Get(w.manifest[fname], kind) != "") {
      w', open', ls' := w, open, ls;
      LoopSkip(h, base, istag, kind, order, i, w, open, ls);
    } else {
      var l := Listed(Get(w.manifest[fname], kind), fname);
      LoopEntry(h, base, mname, w, open, ls, fname, kind);
      var k :| 0 <= k < |base.files| && base.files[k].name == fname
        && l.digest == Get(Sum(h, base.files[k].data), kind);
      ListingAdd(h, base, istag, kind, order, i, ls, l, k);
      LoopWrite(h, base, mname, w, open, ls, l);
      w', open', ls' := Write(if open then w else Create(h, w, mname), FormatLine(l)), true, ls + [l];
    }
  }

  /** The line is written exactly when the name takes one. */
  lemma LineIffTakes(h: Hasher, base: Draft, w: Draft, istag: bool, kind: Kind, order: seq<string>, i: nat, open: bool,
                     ls: seq<Listed>)
    requires Tracked(h, base) && NoStale(h, base) && i < |order|
    requires ManifestName(istag, kind) != order[i] && LoopAt(h, base, ManifestName(istag, kind), w, open, ls)
    requires open <==> Opens(base, istag, kind, order, i)
    ensures GetsLine(w, istag, kind, order[i]) <==> Takes(h, base, istag, kind, order, i)
  {
    var f := order[i];
    SavedNames(h, base, f);
    if f in base.manifest && Get(base.manifest[f], kind) != "" { KeptBySave(h, base, f, kind); }
  }

  lemma SavedNames(h: Hasher, w: Draft, f: string)
    requires Tracked(h, w)
    ensures f in SaveChecksum(h, w).manifest <==> f in w.manifest
  {
    if w.files != [] { assert Has(w, w.files[|w.files| - 1].name); }
  }

  lemma OpensNext(h: Hasher, base: Draft, istag: bool, kind: Kind, order: seq<string>, i: nat)
    requires i < |order|
    ensures Opens(base, istag, kind, order, i + 1) <==>
      Opens(base, istag, kind, order, i) || (GetsLine(base, istag, kind, order[i]))
    ensures Takes(h, base, istag, kind, order, i) ==> Opens(base, istag, kind, order, i + 1)
    ensures Opens(base, istag, kind, order, i + 1) && !Opens(base, istag, kind, order, i) && Tracked(h, base) ==>
      Takes(h, base, istag, kind, order, i)
  {
    if Tracked(h, base) { SavedNames(h, base, order[i]); }
  }

  lemma ExactStep(h: Hasher, base: Draft, istag: bool, kind: Kind, order: seq<string>, i: nat, open: bool,
                  ls: seq<Listed>, w: Draft, open': bool, ls': seq<Listed>)
    requires i < |order| && Distinct(order) && ListsExactly(h, base, istag, kind, order, i, open, ls)
    requires forall l :: l in ls ==> l.file in order[..i]
    requires Tracked(h, base) && (GetsLine(w, istag, kind, order[i]) <==> Takes(h, base, istag, kind, order, i))
    requires LineAdded(w, istag, kind, order[i], open, ls, open', ls')
    ensures ListsExactly(h, base, istag, kind, order, i + 1, open', ls')
  {
    assert order[i] !in order[..i];
    assert !HasLine(ls, order[i]);
    OpensNext(h, base, istag, kind, order, i);
    forall p | 0 <= p <= i
      ensures HasLine(ls', order[p]) <==> Takes(h, base, istag, kind, order, p)
    {
      if GetsLine(w, istag, kind, order[i]) {
        var d :| ls' == ls + [Listed(d, order[i])];
        assert Listed(d, order[i]) in ls';
        assert forall l :: l in ls' <==> l in ls || l == Listed(d, order[i]);
        assert HasLine(ls', order[p]) <==> HasLine(ls, order[p]) || p == i;
      }
    }
  }

  lemma KeptBySave(h: Hasher, w: Draft, f: string, kind: Kind)
    requires Tracked(h, w) && NoStale(h, w) && f in w.manifest && Get(w.manifest[f], kind) != ""
    ensures f in SaveChecksum(h, w).manifest && SaveChecksum(h, w).manifest[f] == w.manifest[f]
  {
    assert Has(w, f);
    var k :| 0 <= k < |w.files| && w.files[k].name == f;
    assert w.manifest[w.files[k].name] == Sum(h, w.files[k].data);
  }

  /** What one manifest loop does: at most one new file, holding one line for each qualifying file
      that has a checksum of this kind, each line with the right digest. */
  lemma {:induction false} ManifestLoop(h: Hasher, base: Draft, w: Draft, istag: bool, kind: Kind, order: seq<string>,
                                        i: nat, open: bool, ls: seq<Listed>)
    returns (open': bool, ls': seq<Listed>)
    requires Tracked(h, base) && NoStale(h, base) && Distinct(order) && i <= |order|
    requires var mname := ManifestName(istag, kind); !Has(base, mname) && mname !in order
    requires LoopAt(h, base, ManifestName(istag, kind), w, open, ls) && IsListing(h, base, istag, kind, order, i, ls)
    requires ListsExactly(h, base, istag, kind, order, i, open, ls)
    ensures LoopAt(h, base, ManifestName(istag, kind), ManifestFrom(h, w, istag, kind, order, i, open), open', ls')
    ensures IsListing(h, base, istag, kind, order, |order|, ls')
    ensures ListsExactly(h, base, istag, kind, order, |order|, open', ls')
    decreases |order| - i
  {
    if i == |order| {
      open', ls' := open, ls;
    } else {
      var w1, open1, ls1 := ManifestStep(h, base, w, istag, kind, order, i, open, ls);
      LineIffTakes(h, base, w, istag, kind, order, i, open, ls);
      ExactStep(h, base, istag, kind, order, i, open, ls, w, open1, ls1);
      open', ls' := ManifestLoop(h, base, w1, istag, kind, order, i + 1, open1, ls1);
    }
  }

  /** Writer.manifest as a whole. */
  lemma ManifestWritten(h: Hasher, base: Draft, istag: bool, kind: Kind, order: seq<string>)
    returns (open: bool, ls: seq<Listed>)
    requires Tracked(h, base) && NoStale(h, base) && IsOrder(order, base.manifest.Keys)
    requires !Has(base, ManifestName(istag, kind))
    ensures LoopAt(h, base, ManifestName(istag, kind), WriteManifest(h, base, istag, kind, order), open, ls)
    ensures IsListing(h, base, istag, kind, order, |order|, ls)
    ensures ListsExactly(h, base, istag, kind, order, |order|, open, ls)
  {
    assert ManifestName(istag, kind) !in order;
    open, ls := ManifestLoop(h, base, base, istag, kind, order, 0, false, []);
  }

  /** A new manifest's own checksum is not recorded yet; without one the bag is as it was. */
  ghost predicate Unsaved(r: Draft, base: Draft, mname: string, open: bool) {
    if open then mname in r.manifest && r.manifest[mname] == EMPTY else r == base
  }

  /** The bag after the loop. */
  lemma LoopLeaves(h: Hasher, base: Draft, mname: string, r: Draft, open: bool, ls: seq<Listed>)
    requires Tracked(h, base) && NoStale(h, base) && !Has(base, mname) && LoopAt(h, base, mname, r, open, ls)
    ensures Tracked(h, r) && NoStale(h, r) && r.dirname == base.dirname && Unsaved(r, base, mname, open)
    ensures r.files == base.files + Optional(open, mname, ls) && (!open ==> ls == [])
  {
    SaveSettles(h, base);
    if open {
      forall k | 0 <= k < |r.files|
        ensures r.manifest[r.files[k].name] in {EMPTY, Sum(h, r.files[k].data)}
      {
        if k < |base.files| {
          assert r.files[k] == base.files[k];
          assert Has(base, base.files[k].name);
        }
      }
    } else {
      assert base.files + [] == base.files;
    }
  }

  /** No file has a checksum of this kind, so no manifest of it is written. */
  lemma {:induction false} NoManifest(h: Hasher, w: Draft, kind: Kind, order: seq<string>, i: nat)
    requires i <= |order|
    requires forall f :: f in w.manifest ==> Get(w.manifest[f], kind) == ""
    ensures ManifestFrom(h, w, false, kind, order, i, false) == w
    decreases |order| - i
  {
    if i < |order| { NoManifest(h, w, kind, order, i + 1); }
  }

  lemma NoOtherKinds(h: Hasher, w: Draft, kind: Kind)
    requires Tracked(h, w) && NoStale(h, w) && (kind == Sha1 || kind == Sha512)
    ensures forall f :: f in w.manifest ==> Get(w.manifest[f], kind) == ""
  {
    forall f | f in w.manifest
      ensures Get(w.manifest[f], kind) == ""
    {
      assert Has(w, f);
      var k :| 0 <= k < |w.files| && w.files[k].name == f;
      assert w.manifest[w.files[k].name] in {EMPTY, Sum(h, w.files[k].data)};
    }
  }

  // ---- the files of a closed bag

  predicate IsPayloadName(f: string) {
    HasPrefix(f, "data/") && NoSpace(f)
  }

  /** A bag into which only payload files with whitespace-free names have been written. */
  ghost predicate PayloadOnly(h: Hasher, w: Draft) {
    Tracked(h, w) && forall i :: 0 <= i < |w.files| ==> IsPayloadName(w.files[i].name)
  }

  /** Each line names a file of the bag that may be in this manifest, with that file's hash. */
  ghost predicate Truthful(h: Hasher, files: seq<ZFile>, istag: bool, kind: Kind, ls: seq<Listed>) {
    && (forall a, b :: 0 <= a < b < |ls| ==> ls[a].file != ls[b].file)
    && (forall l :: l in ls ==>
          Qualifies(istag, l.file) && Listable(l.file)
          && exists f :: f in files && f.name == l.file && l.digest == Get(Sum(h, f.data), kind))
  }

  ghost predicate ListsAllPayload(files: seq<ZFile>, ls: seq<Listed>) {
    forall f :: f in files && HasPrefix(f.name, "data/") ==> exists l :: l in ls && l.file == f.name
  }

  function Optional(open: bool, name: string, ls: seq<Listed>): seq<ZFile> {
    if open then [ZFile(name, Format(ls))] else []
  }

  /** Besides payload there are only these tag files. */
  ghost predicate NamesIn(w: Draft, tags: set<string>) {
    && (forall t :: t in tags ==> IsTagName(t))
    && forall i :: 0 <= i < |w.files| ==> IsPayloadName(w.files[i].name) || w.files[i].name in tags
  }

  lemma ListingTruthful(h: Hasher, base: Draft, files: seq<ZFile>, istag: bool, kind: Kind, order: seq<string>,
                        ls: seq<Listed>,
                        tags: set<string>)
    requires IsListing(h, base, istag, kind, order, |order|, ls)
    requires NamesIn(base, tags) && base.files <= files
    ensures Truthful(h, files, istag, kind, ls)
  {
    forall l | l in ls
      ensures Qualifies(istag, l.file) && Listable(l.file)
      ensures exists f :: f in files && f.name == l.file && l.digest == Get(Sum(h, f.data), kind)
    {
      var k :| 0 <= k < |base.files| && base.files[k].name == l.file
        && l.digest == Get(Sum(h, base.files[k].data), kind);
      assert files[k] == base.files[k];
      assert IsPayloadName(base.files[k].name) || base.files[k].name in tags;
      assert files[k] in files;
    }
  }

  /** `files` extends `base` by tag files only. */
  ghost predicate SamePayload(base: seq<ZFile>, files: seq<ZFile>) {
    base <= files && forall f :: f in files && HasPrefix(f.name, "data/") ==> f in base
  }

  lemma OptionalSamePayload(base: seq<ZFile>, open: bool, name: string, ls: seq<Listed>)
    requires !HasPrefix(name, "data/")
    ensures SamePayload(base, base + Optional(open, name, ls))
  {
  }

  lemma SamePayloadTransitive(a: seq<ZFile>, b: seq<ZFile>, c: seq<ZFile>)
    requires SamePayload(a, b) && SamePayload(b, c)
    ensures SamePayload(a, c)
  {
  }

  /** A payload loop misses no payload file: the file being written is a tag file by then. */
  lemma ListingComplete(h: Hasher, base: Draft, files: seq<ZFile>, kind: Kind, order: seq<string>, ls: seq<Listed>)
    requires Tracked(h, base) && (kind == Md5 || kind == Sha256)
    requires IsListing(h, base, false, kind, order, |order|, ls) && IsOrder(order, base.manifest.Keys)
    requires base.files != [] && !HasPrefix(base.files[|base.files| - 1].name, "data/")
    requires SamePayload(base.files, files)
    ensures ListsAllPayload(files, ls)
  {
    assert order[..|order|] == order;
    forall f | f in files && HasPrefix(f.name, "data/")
      ensures exists l :: l in ls && l.file == f.name
    {
      var k :| 0 <= k < |base.files| && base.files[k] == f;
      assert Has(base, f.name);
      assert base.manifest[base.files[k].name] == Sum(h, f.data);
      assert f.name in order[..|order|];
    }
  }

  /** The tag files of a closed bag; a manifest nothing qualified for is absent. */
  function TagPart(info: string, a: bool, b: bool, d: bool, md5: seq<Listed>, sha: seq<Listed>,
                   tag: seq<Listed>): seq<ZFile> {
    TagHead(info)
    + (Optional(a, ManifestName(false, Md5), md5)
       + (Optional(b, ManifestName(false, Sha256), sha) + Optional(d, ManifestName(true, Md5), tag)))
  }

  function TagHead(info: string): seq<ZFile> {
    [ZFile("bagit.txt", VERSION_TEXT), ZFile("bag-info.txt", info)]
  }

  /** The files a closed bag holds, with the lists its manifests spell out. */
  ghost predicate ClosedAs(h: Hasher, w: Draft, info: string, c: Draft, md5: seq<Listed>, sha: seq<Listed>,
                           tag: seq<Listed>) {
    && c.dirname == w.dirname && Distinctly(c)
    && (exists a, b, d ::
          && (!a ==> md5 == []) && (!b ==> sha == []) && (!d ==> tag == [])
          && c.files == w.files + TagPart(info, a, b, d, md5, sha, tag))
    && Truthful(h, c.files, false, Md5, md5) && ListsAllPayload(c.files, md5)
    && Truthful(h, c.files, false, Sha256, sha) && ListsAllPayload(c.files, sha)
    && Truthful(h, c.files, true, Md5, tag)
  }

  /** The orders are orders of the map as it is when each loop starts. */
  ghost predicate OrdersFit(h: Hasher, w: Draft, info: string, o: Orders) {
    var w0 := SaveChecksum(h, WriteTags(h, w, info));
    var w1 := WriteManifest(h, w0, false, Md5, o.md5);
    var w2 := WriteManifest(h, w1, false, Sha1, o.sha1);
    var w3 := WriteManifest(h, w2, false, Sha256, o.sha256);
    var w4 := WriteManifest(h, w3, false, Sha512, o.sha512);
    && IsOrder(o.md5, w0.manifest.Keys) && IsOrder(o.sha1, w1.manifest.Keys)
    && IsOrder(o.sha256, w2.manifest.Keys) && IsOrder(o.sha512, w3.manifest.Keys)
    && IsOrder(o.tag, w4.manifest.Keys)
  }

  lemma TagFileWritten(h: Hasher, w: Draft, name: string, text: string, tags: set<string>)
    requires Tracked(h, w) && NamesIn(w, tags)
    requires IsTagName(name) && name !in tags
    ensures var c := Write(Create(h, w, name), text);
      && Tracked(h, c) && c.dirname == w.dirname && NamesIn(c, tags + {name})
      && c.files == w.files + [ZFile(name, text)]
  {
    assert !Has(w, name);
    CreateTracked(h, w, name);
    WriteTracked(h, Create(h, w, name), text);
    assert "" + text == text;
  }

  const TAGS: set<string> := {"bagit.txt"} + {"bag-info.txt"}
  const TAGS1: set<string> := TAGS + {ManifestName(false, Md5)}
  const TAGS2: set<string> := TAGS1 + {ManifestName(false, Sha256)}

  predicate IsTagName(f: string) {
    Listable(f) && !HasPrefix(f, "data/")
  }

  lemma TagHeadNames()
    ensures IsTagName("bagit.txt") && IsTagName("bag-info.txt") && "bag-info.txt" != "bagit.txt"
  {
    assert "bagit.txt"[0] == 'b' && "bag-info.txt"[0] == 'b' && "data/"[0] == 'd';
    assert |"bagit.txt"| == 9 && |"bag-info.txt"| == 12;
  }

  lemma TagNames()
    ensures IsTagName("bagit.txt") && IsTagName("bag-info.txt") && "bag-info.txt" != "bagit.txt"
    ensures IsTagName(ManifestName(false, Md5)) && IsTagName(ManifestName(false, Sha256))
    ensures IsTagName(ManifestName(true, Md5))
    ensures ManifestName(false, Md5) !in TAGS
    ensures ManifestName(false, Sha256) !in TAGS1
    ensures ManifestName(true, Md5) !in TAGS2
  {
    TagHeadNames();
    assert "data/"[0] == 'd' && |"bagit.txt"| == 9 && |"bag-info.txt"| == 12;
    assert |ManifestName(false, Md5)| == 16 && |ManifestName(false, Sha256)| == 19 && |ManifestName(true, Md5)| == 19;
    assert ManifestName(true, Md5)[0] == 't' && ManifestName(false, Sha256)[0] == 'm'
      && ManifestName(false, Md5)[0] == 'm';
  }

  lemma TagsWritten(h: Hasher, w: Draft, info: string)
    requires PayloadOnly(h, w)
    ensures var w0 := SaveChecksum(h, WriteTags(h, w, info));
      && Settled(h, w0) && w0.dirname == w.dirname && NamesIn(w0, TAGS)
      && w0.files == w.files + TagHead(info)
  {
    TagNames();
    TagFileWritten(h, w, "bagit.txt", VERSION_TEXT, {});
    var b := Write(Create(h, w, "bagit.txt"), VERSION_TEXT);
    assert {} + {"bagit.txt"} == {"bagit.txt"};
    TagFileWritten(h, b, "bag-info.txt", info, {"bagit.txt"});
    SaveSettles(h, WriteTags(h, w, info));
  }

  /** One manifest after another: where the bag stands, which tag files it has. */
  ghost predicate Stage(h: Hasher, w: Draft, tags: set<string>) {
    && Tracked(h, w) && NoStale(h, w) && NamesIn(w, tags)
    && w.files != [] && !HasPrefix(w.files[|w.files| - 1].name, "data/")
  }

  lemma StageLeaves(h: Hasher, base: Draft, mname: string, r: Draft, open: bool, ls: seq<Listed>, tags: set<string>)
    requires Stage(h, base, tags) && mname !in tags && IsTagName(mname) && LoopAt(h, base, mname, r, open, ls)
    ensures Stage(h, r, tags + {mname}) && r.dirname == base.dirname && Unsaved(r, base, mname, open)
    ensures r.files == base.files + Optional(open, mname, ls) && (!open ==> ls == [])
  {
    assert !Has(base, mname);
    LoopLeaves(h, base, mname, r, open, ls);
  }

  lemma StageWritten(h: Hasher, base: Draft, istag: bool, kind: Kind, order: seq<string>, tags: set<string>)
    returns (open: bool, ls: seq<Listed>)
    requires Stage(h, base, tags) && IsOrder(order, base.manifest.Keys)
    requires ManifestName(istag, kind) !in tags
    requires IsTagName(ManifestName(istag, kind))
    ensures !open ==> ls == []
    ensures IsListing(h, base, istag, kind, order, |order|, ls)
    ensures ListsExactly(h, base, istag, kind, order, |order|, open, ls)
    ensures var mname, r := ManifestName(istag, kind), WriteManifest(h, base, istag, kind, order);
      && Stage(h, r, tags + {mname}) && r.dirname == base.dirname && Unsaved(r, base, mname, open)
      && r.files == base.files + Optional(open, mname, ls)
  {
    var mname := ManifestName(istag, kind);
    assert !Has(base, mname);
    open, ls := ManifestWritten(h, base, istag, kind, order);
    StageLeaves(h, base, mname, WriteManifest(h, base, istag, kind, order), open, ls, tags);
  }

  lemma OtherKindStage(h: Hasher, w: Draft, kind: Kind, order: seq<string>, tags: set<string>)
    requires Stage(h, w, tags) && (kind == Sha1 || kind == Sha512)
    ensures WriteManifest(h, w, false, kind, order) == w
  {
    NoOtherKinds(h, w, kind);
    NoManifest(h, w, kind, order, 0);
  }

  /** The bag at the start of the three loops that write something, and at the end. */
  ghost predicate Stages(h: Hasher, w0: Draft, w1: Draft, w3: Draft, c: Draft, o: Orders, a: bool, b: bool, d: bool,
                         md5: seq<Listed>, sha: seq<Listed>, tag: seq<Listed>) {
    && Stage(h, w0, TAGS) && IsOrder(o.md5, w0.manifest.Keys)
    && IsListing(h, w0, false, Md5, o.md5, |o.md5|, md5)
    && Stage(h, w1, TAGS1) && IsOrder(o.sha256, w1.manifest.Keys)
    && IsListing(h, w1, false, Sha256, o.sha256, |o.sha256|, sha)
    && Stage(h, w3, TAGS2) && IsOrder(o.tag, w3.manifest.Keys)
    && IsListing(h, w3, true, Md5, o.tag, |o.tag|, tag)
    && ListsExactly(h, w0, false, Md5, o.md5, |o.md5|, a, md5)
    && ListsExactly(h, w1, false, Sha256, o.sha256, |o.sha256|, b, sha)
    && ListsExactly(h, w3, true, Md5, o.tag, |o.tag|, d, tag)
    && Unsaved(w1, w0, ManifestName(false, Md5), a) && Unsaved(w3, w1, ManifestName(false, Sha256), b)
    && w1.files == w0.files + Optional(a, ManifestName(false, Md5), md5)
    && w3.files == w1.files + Optional(b, ManifestName(false, Sha256), sha)
    && c.files == w3.files + Optional(d, ManifestName(true, Md5), tag)
    && Distinctly(c) && c.dirname == w0.dirname
    && (!a ==> md5 == []) && (!b ==> sha == []) && (!d ==> tag == [])
  }

  lemma CloseStages(h: Hasher, w0: Draft, o: Orders)
    returns (a: bool, b: bool, d: bool, md5: seq<Listed>, sha: seq<Listed>, tag: seq<Listed>)
    requires Stage(h, w0, TAGS)
    requires var w1 := WriteManifest(h, w0, false, Md5, o.md5);
      var w2 := WriteManifest(h, w1, false, Sha1, o.sha1);
      var w3 := WriteManifest(h, w2, false, Sha256, o.sha256);
      var w4 := WriteManifest(h, w3, false, Sha512, o.sha512);
      && IsOrder(o.md5, w0.manifest.Keys) && IsOrder(o.sha256, w2.manifest.Keys) && IsOrder(o.tag, w4.manifest.Keys)
    ensures var w1 := WriteManifest(h, w0, false, Md5, o.md5);
      var w2 := WriteManifest(h, w1, false, Sha1, o.sha1);
      var w3 := WriteManifest(h, w2, false, Sha256, o.sha256);
      var w4 := WriteManifest(h, w3, false, Sha512, o.sha512);
      w2 == w1 && w4 == w3
      && Stages(h, w0, w1, w3, WriteManifest(h, w4, true, Md5, o.tag), o, a, b, d, md5, sha, tag)
  {
    TagNames();
    a, md5 := StageWritten(h, w0, false, Md5, o.md5, TAGS);
    var w1 := WriteManifest(h, w0, false, Md5, o.md5);
    OtherKindStage(h, w1, Sha1, o.sha1, TAGS1);
    b, sha := StageWritten(h, w1, false, Sha256, o.sha256, TAGS1);
    var w3 := WriteManifest(h, w1, false, Sha256, o.sha256);
    OtherKindStage(h, w3, Sha512, o.sha512, TAGS2);
    d, tag := StageWritten(h, w3, true, Md5, o.tag, TAGS2);
  }

  lemma StagesLists(h: Hasher, w0: Draft, w1: Draft, w3: Draft, c: Draft, o: Orders, a: bool, b: bool, d: bool,
                    md5: seq<Listed>, sha: seq<Listed>, tag: seq<Listed>)
    requires Stages(h, w0, w1, w3, c, o, a, b, d, md5, sha, tag)
    ensures Truthful(h, c.files, false, Md5, md5) && ListsAllPayload(c.files, md5)
    ensures Truthful(h, c.files, false, Sha256, sha) && ListsAllPayload(c.files, sha)
    ensures Truthful(h, c.files, true, Md5, tag)
    ensures c.files == w0.files + Optional(a, ManifestName(false, Md5), md5)
                       + Optional(b, ManifestName(false, Sha256), sha) + Optional(d, ManifestName(true, Md5), tag)
  {
    TagNames();
    OptionalSamePayload(w0.files, a, ManifestName(false, Md5), md5);
    OptionalSamePayload(w1.files, b, ManifestName(false, Sha256), sha);
    OptionalSamePayload(w3.files, d, ManifestName(true, Md5), tag);
    SamePayloadTransitive(w1.files, w3.files, c.files);
    SamePayloadTransitive(w0.files, w1.files, c.files);
    ListsHold(h, w0, c.files, false, Md5, o.md5, md5, TAGS);
    ListsHold(h, w1, c.files, false, Sha256, o.sha256, sha, TAGS1);
    ListsHold(h, w3, c.files, true, Md5, o.tag, tag, TAGS2);
  }

  lemma Regroup<T>(p: seq<T>, q: seq<T>, x: seq<T>, y: seq<T>, z: seq<T>)
    ensures p + q + x + y + z == p + (q + (x + (y + z)))
  {
  }

  lemma CloseFiles(h: Hasher, w: Draft, info: string, o: Orders)
    returns (md5: seq<Listed>, sha: seq<Listed>, tag: seq<Listed>)
    requires PayloadOnly(h, w) && OrdersFit(h, w, info, o)
    ensures ClosedAs(h, w, info, CloseDraft(h, w, info, o), md5, sha, tag)
  {
    var w0, w1, w3, a, b, d;
    w0, w1, w3, a, b, d, md5, sha, tag := CloseInStages(h, w, info, o);
    StagesClosed(h, w, info, w0, w1, w3, CloseDraft(h, w, info, o), o, a, b, d, md5, sha, tag);
  }

  lemma CloseInStages(h: Hasher, w: Draft, info: string, o: Orders)
    returns (w0: Draft, w1: Draft, w3: Draft, a: bool, b: bool, d: bool, md5: seq<Listed>, sha: seq<Listed>,
             tag: seq<Listed>)
    requires PayloadOnly(h, w) && OrdersFit(h, w, info, o)
    ensures Settled(h, w0) && w0.dirname == w.dirname && w0.files == w.files + TagHead(info)
    ensures Stages(h, w0, w1, w3, CloseDraft(h, w, info, o), o, a, b, d, md5, sha, tag)
  {
    TagsWritten(h, w, info);
    w0 := SaveChecksum(h, WriteTags(h, w, info));
    a, b, d, md5, sha, tag := CloseStages(h, w0, o);
    w1 := WriteManifest(h, w0, false, Md5, o.md5);
    w3 := WriteManifest(h, w1, false, Sha256, o.sha256);
  }

  lemma StagesClosed(h: Hasher, w: Draft, info: string, w0: Draft, w1: Draft, w3: Draft, c: Draft, o: Orders, a: bool,
                     b: bool, d: bool, md5: seq<Listed>, sha: seq<Listed>, tag: seq<Listed>)
    requires Stages(h, w0, w1, w3, c, o, a, b, d, md5, sha, tag)
    requires w0.dirname == w.dirname && w0.files == w.files + TagHead(info)
    ensures ClosedAs(h, w, info, c, md5, sha, tag)
  {
    StagesLists(h, w0, w1, w3, c, o, a, b, d, md5, sha, tag);
    Regroup(w.files, TagHead(info), Optional(a, ManifestName(false, Md5), md5),
            Optional(b, ManifestName(false, Sha256), sha), Optional(d, ManifestName(true, Md5), tag));
    assert c.files == w.files + TagPart(info, a, b, d, md5, sha, tag);
  }

  lemma ListsHold(h: Hasher, base: Draft, files: seq<ZFile>, istag: bool, kind: Kind, order: seq<string>,
                  ls: seq<Listed>, tags: set<string>)
    requires Stage(h, base, tags) && IsOrder(order, base.manifest.Keys)
    requires IsListing(h, base, istag, kind, order, |order|, ls)
    requires SamePayload(base.files, files)
    ensures Truthful(h, files, istag, kind, ls)
    ensures !istag && (kind == Md5 || kind == Sha256) ==> ListsAllPayload(files, ls)
  {
    ListingTruthful(h, base, files, istag, kind, order, ls, tags);
    if !istag && (kind == Md5 || kind == Sha256) { ListingComplete(h, base, files, kind, order, ls); }
  }
}
