/** Which tag files the tag manifest lists. The manifest written before it gets its own checksum recorded only when the
    tag manifest is created, so it is listed or not as the order goes in which the writer's map is ranged over. */
module BagTagManifest {
  import opened Prelude
  import opened BagText
  import opened BagModel
  import opened BagRoundTrip

  /** `f` comes before all other tag files. */
  ghost predicate FirstTag(order: seq<string>, f: string) {
    exists p :: 0 <= p < |order| && order[p] == f && NoTagBefore(order, p)
  }

  ghost predicate NoTagBefore(order: seq<string>, p: nat)
    requires p <= |order|
  {
    forall a :: 0 <= a < p ==> HasPrefix(order[a], "data/")
  }

  /** The lines of the tag manifest: every other tag file, except manifest-sha256.txt exactly when it comes first. */
  ghost predicate TagExact(c: Draft, order: seq<string>, tag: seq<Listed>) {
    forall k :: 0 <= k < |c.files| ==> LineExact(c.files[k].name, order, tag)
  }

  ghost predicate LineExact(f: string, order: seq<string>, tag: seq<Listed>) {
    !HasPrefix(f, "data/") && f != ManifestName(true, Md5) ==>
      (HasLine(tag, f) <==> !(f == ManifestName(false, Sha256) && FirstTag(order, f)))
  }

  /** If there is an MD5 manifest there is a SHA-256 one. */
  lemma NextOpens(h: Hasher, w0: Draft, w1: Draft, md5: seq<string>, sha: seq<string>, last: ZFile)
    requires Tracked(h, w0) && Tracked(h, w1) && w1.files == w0.files + [last] && IsOrder(sha, w1.manifest.Keys)
    requires Opens(w0, false, Md5, md5, |md5|)
    ensures Opens(w1, false, Sha256, sha, |sha|)
  {
    var i :| 0 <= i < |md5| && Qualifies(false, md5[i]) && md5[i] in w0.manifest;
    var f := md5[i];
    assert Has(w0, f);
    var k :| 0 <= k < |w0.files| && w0.files[k].name == f;
    assert w1.files[k] == w0.files[k];
    assert Has(w1, f) && w1.manifest[w1.files[k].name] == Sum(h, w1.files[k].data);
    assert f in sha;
  }

  /** At the start of the last loop every file has its checksum, except one called mname. */
  ghost predicate OneUnsaved(w: Draft, mname: string) {
    forall k :: 0 <= k < |w.files| ==>
      var f := w.files[k].name;
      f in w.manifest && (f == mname <==> Get(w.manifest[f], Md5) == "")
  }

  /** With a SHA-256 manifest, that is the one. */
  lemma LastUnsaved(h: Hasher, w1: Draft, w3: Draft, last: ZFile)
    requires Tracked(h, w3) && w3.files == w1.files + [last] && Unsaved(w3, w1, last.name, true)
    ensures OneUnsaved(w3, last.name)
  {
    forall k | 0 <= k < |w3.files|
      ensures var f := w3.files[k].name; f in w3.manifest && (f == last.name <==> Get(w3.manifest[f], Md5) == "")
    {
      assert Has(w3, w3.files[k].name);
      if k < |w1.files| {
        assert w3.files[k].name != w3.files[|w1.files|].name;
        assert w3.manifest[w3.files[k].name] == Sum(h, w3.files[k].data);
      }
    }
  }

  /** Without one, that is none. */
  lemma NoneUnsaved(h: Hasher, w: Draft, mname: string)
    requires Settled(h, w) && !Has(w, mname)
    ensures OneUnsaved(w, mname)
  {
    forall k | 0 <= k < |w.files|
      ensures var f := w.files[k].name; f in w.manifest && (f == mname <==> Get(w.manifest[f], Md5) == "")
    {
      assert Has(w, w.files[k].name);
      assert w.manifest[w.files[k].name] == Sum(h, w.files[k].data);
    }
  }

  /** The tag loop opens its file at the first tag file that has its checksum. */
  lemma OpensAfterFirst(h: Hasher, w: Draft, mname: string, order: seq<string>, p: nat)
    requires Tracked(h, w) && OneUnsaved(w, mname) && IsOrder(order, w.manifest.Keys)
    requires p < |order| && order[p] == mname
    ensures Opens(w, true, Md5, order, p) <==> !NoTagBefore(order, p)
  {
    if a :| 0 <= a < p && !HasPrefix(order[a], "data/") {
      assert order[a] in order && order[a] in w.manifest;
      assert Has(w, order[a]);
      assert order[a] != mname;
      assert Qualifies(true, order[a]) && Get(w.manifest[order[a]], Md5) != "";
    }
  }

  lemma LinesExact(h: Hasher, w: Draft, mname: string, order: seq<string>, open: bool, tag: seq<Listed>, k: nat)
    requires Tracked(h, w) && OneUnsaved(w, mname) && IsOrder(order, w.manifest.Keys)
    requires ListsExactly(h, w, true, Md5, order, |order|, open, tag)
    requires k < |w.files| && !HasPrefix(w.files[k].name, "data/")
    ensures HasLine(tag, w.files[k].name) <==> !(w.files[k].name == mname && FirstTag(order, mname))
  {
    var f := w.files[k].name;
    assert f in w.manifest && f in order;
    SaveSettles(h, w);
    var saved := SaveChecksum(h, w);
    assert saved.manifest[saved.files[k].name] == Sum(h, saved.files[k].data);
    SavedNames(h, w, f);
    var p :| 0 <= p < |order| && order[p] == f;
    assert HasLine(tag, order[p]) <==> Takes(h, w, true, Md5, order, p);
    if f == mname {
      OpensAfterFirst(h, w, mname, order, p);
      assert FirstTag(order, f) <==> NoTagBefore(order, p);
    }
  }

  /** The state before the tag manifest is written. */
  lemma StagesUnsaved(h: Hasher, w0: Draft, w1: Draft, w3: Draft, c: Draft, o: Orders, a: bool, b: bool, d: bool,
                      md5: seq<Listed>, sha: seq<Listed>, tag: seq<Listed>)
    requires Stages(h, w0, w1, w3, c, o, a, b, d, md5, sha, tag) && Settled(h, w0)
    ensures OneUnsaved(w3, ManifestName(false, Sha256))
  {
    TagNames();
    var s := ManifestName(false, Sha256);
    if a { NextOpens(h, w0, w1, o.md5, o.sha256, ZFile(ManifestName(false, Md5), Format(md5))); }
    if b {
      LastUnsaved(h, w1, w3, ZFile(s, Format(sha)));
    } else {
      assert w3 == w1 == w0;
      assert !Has(w0, s);
      NoneUnsaved(h, w0, s);
    }
  }

  lemma StagesExact(h: Hasher, w0: Draft, w1: Draft, w3: Draft, c: Draft, o: Orders, a: bool, b: bool, d: bool,
                    md5: seq<Listed>, sha: seq<Listed>, tag: seq<Listed>)
    requires Stages(h, w0, w1, w3, c, o, a, b, d, md5, sha, tag) && Settled(h, w0)
    ensures TagExact(c, o.tag, tag)
  {
    StagesUnsaved(h, w0, w1, w3, c, o, a, b, d, md5, sha, tag);
    forall k | 0 <= k < |c.files|
      ensures LineExact(c.files[k].name, o.tag, tag)
    {
      if k < |w3.files| && !HasPrefix(c.files[k].name, "data/") {
        assert c.files[k] == w3.files[k];
        LinesExact(h, w3, ManifestName(false, Sha256), o.tag, d, tag, k);
      }
    }
  }

  /** A closed bag, for any orders: the tag manifest has a line for every other tag file of the bag, except that
      manifest-sha256.txt has none exactly when it is the first of them in the order of the last loop. */
  lemma TagManifestLists(h: Hasher, w: Draft, info: string, o: Orders)
    returns (md5: seq<Listed>, sha: seq<Listed>, tag: seq<Listed>)
    requires PayloadOnly(h, w) && OrdersFit(h, w, info, o)
    ensures ClosedAs(h, w, info, CloseDraft(h, w, info, o), md5, sha, tag)
    ensures TagExact(CloseDraft(h, w, info, o), o.tag, tag)
  {
    var w0, w1, w3, a, b, d;
    w0, w1, w3, a, b, d, md5, sha, tag := CloseInStages(h, w, info, o);
    var c := CloseDraft(h, w, info, o);
    StagesClosed(h, w, info, w0, w1, w3, c, o, a, b, d, md5, sha, tag);
    StagesExact(h, w0, w1, w3, c, o, a, b, d, md5, sha, tag);
  }
}
