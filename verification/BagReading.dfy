/** The reading half of the bag round trip. */
module BagReading {
  import opened Prelude
  import opened BagText
  import opened BagModel
  import opened BagVerify
  import opened BagRoundTrip
  import Names

  // ---- one manifest file

  function ApplyListed(m: Manifest, kind: Kind, ls: seq<Listed>): Manifest
    decreases |ls|
  {
    if ls == [] then m
    else ApplyListed(m[ls[0].file := Set(Entry(m, ls[0].file), kind, ls[0].digest)], kind, ls[1..])
  }

  /** Parsing what Format wrote gives back every line. */
  lemma {:induction false} LoadFormatted(m: Manifest, kind: Kind, ls: seq<Listed>)
    requires forall l :: l in ls ==> Listable(l.file)
    ensures LoadLines(m, kind, Lines(Format(ls))) == Loaded(ApplyListed(m, kind, ls), true)
    decreases |ls|
  {
    if ls != [] {
      var l, rest := ls[0], ls[1..];
      assert ls == [l] + rest;
      FormatFirst(l, rest);
      FormattedLine(l, Format(rest));
      LoadFormatted(m[l.file := Set(Entry(m, l.file), kind, l.digest)], kind, rest);
    }
  }

  ghost predicate Lists(ls: seq<Listed>, f: string) {
    exists l :: l in ls && l.file == f
  }

  lemma {:induction false} AppliedEntry(m: Manifest, kind: Kind, ls: seq<Listed>, f: string)
    requires forall a, b :: 0 <= a < b < |ls| ==> ls[a].file != ls[b].file
    ensures var r := ApplyListed(m, kind, ls);
      && (f in r <==> f in m || Lists(ls, f))
      && (!Lists(ls, f) ==> Entry(r, f) == Entry(m, f))
      && (forall l :: l in ls && l.file == f ==> Entry(r, f) == Set(Entry(m, f), kind, l.digest))
    decreases |ls|
  {
    if ls != [] {
      var l, rest := ls[0], ls[1..];
      var m1 := m[l.file := Set(Entry(m, l.file), kind, l.digest)];
      AppliedEntry(m1, kind, rest, f);
      assert ls == [l] + rest;
      forall x | x in rest
        ensures x.file != l.file
      {
        var i :| 0 <= i < |rest| && rest[i] == x;
        assert ls[i + 1] == x;
      }
      assert Lists(ls, f) <==> l.file == f || Lists(rest, f);
    }
  }

  // ---- finding files

  lemma {:induction false} OpenFileFinds(z: seq<ZFile>, name: string)
    ensures match OpenFile(z, name)
      case None => forall f :: f in z ==> f.name != name
      case Some(data) => ZFile(name, data) in z
  {
    if z != [] {
      OpenFileFinds(z[1..], name);
      assert z == [z[0]] + z[1..];
    }
  }

  lemma ZipNames(c: Draft)
    requires Distinctly(c)
    ensures DistinctNames(ZipOf(c))
    ensures forall f :: f in ZipOf(c) ==>
      HasPrefix(f.name, c.dirname) && ZFile(TrimPrefix(f.name, c.dirname), f.data) in c.files
    ensures forall f :: f in c.files ==> ZFile(c.dirname + f.name, f.data) in ZipOf(c)
  {
    var z := ZipOf(c);
    forall i, j | 0 <= i < j < |z|
      ensures z[i].name != z[j].name
    {
      assert z[i].name[|c.dirname|..] == c.files[i].name && z[j].name[|c.dirname|..] == c.files[j].name;
    }
    forall f | f in z
      ensures HasPrefix(f.name, c.dirname) && ZFile(TrimPrefix(f.name, c.dirname), f.data) in c.files
    {
      var i :| 0 <= i < |z| && z[i] == f;
      assert f.name[|c.dirname|..] == c.files[i].name;
      assert c.files[i] in c.files;
    }
    forall f | f in c.files
      ensures ZFile(c.dirname + f.name, f.data) in z
    {
      var i :| 0 <= i < |c.files| && c.files[i] == f;
      assert z[i] in z;
    }
  }

  lemma SameName(c: Draft, f: ZFile, g: ZFile)
    requires Distinctly(c) && f in c.files && g in c.files && f.name == g.name
    ensures f == g
  {
    var i :| 0 <= i < |c.files| && c.files[i] == f;
    var j :| 0 <= j < |c.files| && c.files[j] == g;
  }

  /** Opening a file of the bag by its relative name. */
  lemma OpensBagFile(c: Draft, name: string)
    requires Distinctly(c)
    ensures match OpenFile(ZipOf(c), c.dirname + name)
      case None => forall f :: f in c.files ==> f.name != name
      case Some(data) => ZFile(name, data) in c.files
  {
    ZipNames(c);
    OpenFileFinds(ZipOf(c), c.dirname + name);
    assert (c.dirname + name)[|c.dirname|..] == name;
    match OpenFile(ZipOf(c), c.dirname + name)
    case None =>
      forall f | f in c.files
        ensures f.name != name
      {
        assert ZFile(c.dirname + f.name, f.data) in ZipOf(c);
      }
    case Some(data) =>
      var f := ZFile(c.dirname + name, data);
      assert f in ZipOf(c) && TrimPrefix(f.name, c.dirname) == name;
  }

  /** A manifest file that was written, or left out because it would be empty, loads as its list. */
  lemma LoadsList(c: Draft, m: Manifest, name: string, kind: Kind, open: bool, ls: seq<Listed>)
    requires Distinctly(c) && forall l :: l in ls ==> Listable(l.file)
    requires if open then ZFile(name, Format(ls)) in c.files
      else ls == [] && forall f :: f in c.files ==> f.name != name
    ensures LoadFile(ZipOf(c), c.dirname, m, name, kind) == Loaded(ApplyListed(m, kind, ls), true)
  {
    OpensBagFile(c, name);
    if open {
      var data := OpenFile(ZipOf(c), c.dirname + name).value;
      SameName(c, ZFile(name, data), ZFile(name, Format(ls)));
      LoadFormatted(m, kind, ls);
    }
  }

  // ---- all manifests of a closed bag

  function FinalManifest(md5: seq<Listed>, sha: seq<Listed>, tag: seq<Listed>): Manifest {
    ApplyListed(ApplyListed(ApplyListed(map[], Md5, md5), Sha256, sha), Md5, tag)
  }

  lemma ManifestNamesApart()
    ensures MANIFEST_FILES[0].0 == ManifestName(false, Md5)
    ensures MANIFEST_FILES[1].0 == ManifestName(false, Sha1)
    ensures MANIFEST_FILES[2].0 == ManifestName(false, Sha256)
    ensures MANIFEST_FILES[3].0 == ManifestName(false, Sha512)
    ensures MANIFEST_FILES[4].0 == ManifestName(true, Md5)
    ensures forall k: Kind, j: Kind :: k != j ==> ManifestName(false, k) != ManifestName(false, j)
    ensures forall k: Kind, j: Kind :: ManifestName(false, k) != ManifestName(true, j)
    ensures forall k: Kind :: ManifestName(false, k) !in TAGS && ManifestName(true, k) !in TAGS
    ensures forall k: Kind, f :: IsPayloadName(f) ==> f != ManifestName(false, k) && f != ManifestName(true, k)
  {
    forall k: Kind
      ensures ManifestName(false, k)[0] == 'm' && ManifestName(true, k)[0] == 't'
    {
    }
    forall k: Kind, j: Kind | k != j
      ensures ManifestName(false, k) != ManifestName(false, j)
    {
      assert ManifestName(false, k)[9..][..|KindName(k)|] == KindName(k);
      assert ManifestName(false, j)[9..][..|KindName(j)|] == KindName(j);
      assert KindName(k) != KindName(j);
    }
    assert "bagit.txt"[0] == 'b' && "bag-info.txt"[0] == 'b' && "data/"[0] == 'd';
  }

  /** Which manifest files a closed bag has. */
  ghost predicate HasManifest(c: Draft, istag: bool, kind: Kind, open: bool, ls: seq<Listed>) {
    var name := ManifestName(istag, kind);
    if open then ZFile(name, Format(ls)) in c.files else ls == [] && forall f :: f in c.files ==> f.name != name
  }

  lemma TagPartMembers(info: string, a: bool, b: bool, d: bool, md5: seq<Listed>, sha: seq<Listed>, tag: seq<Listed>,
                       f: ZFile)
    requires (!a ==> md5 == []) && (!b ==> sha == []) && (!d ==> tag == [])
    ensures f in TagPart(info, a, b, d, md5, sha, tag) <==>
            f in TagHead(info) || (a && f == ZFile(ManifestName(false, Md5), Format(md5)))
            || (b && f == ZFile(ManifestName(false, Sha256), Format(sha)))
            || (d && f == ZFile(ManifestName(true, Md5), Format(tag)))
    ensures f in TagHead(info) ==> f.name in TAGS
  {
    var x, y, z := Optional(a, ManifestName(false, Md5), md5), Optional(b, ManifestName(false, Sha256), sha),
                   Optional(d, ManifestName(true, Md5), tag);
    assert f in TagHead(info) + (x + (y + z)) <==> f in TagHead(info) || f in x || f in y || f in z;
  }

  lemma PayloadMembers(h: Hasher, w: Draft, f: ZFile)
    requires PayloadOnly(h, w) && f in w.files
    ensures IsPayloadName(f.name)
  {
    var i :| 0 <= i < |w.files| && w.files[i] == f;
    assert IsPayloadName(w.files[i].name);
  }

  lemma ClosedManifest(h: Hasher, w: Draft, info: string, c: Draft, a: bool, b: bool, d: bool,
                       md5: seq<Listed>, sha: seq<Listed>, tag: seq<Listed>, istag: bool, kind: Kind)
    requires PayloadOnly(h, w) && (!a ==> md5 == []) && (!b ==> sha == []) && (!d ==> tag == [])
    requires c.files == w.files + TagPart(info, a, b, d, md5, sha, tag)
    requires !istag || kind == Md5
    ensures if istag then HasManifest(c, true, Md5, d, tag)
            else if kind == Md5 then HasManifest(c, false, Md5, a, md5)
            else if kind == Sha256 then HasManifest(c, false, Sha256, b, sha)
            else HasManifest(c, false, kind, false, [])
  {
    ManifestNamesApart();
    forall f | f in c.files
      ensures IsPayloadName(f.name) || f.name in TAGS || (a && f == ZFile(ManifestName(false, Md5), Format(md5)))
              || (b && f == ZFile(ManifestName(false, Sha256), Format(sha)))
              || (d && f == ZFile(ManifestName(true, Md5), Format(tag)))
    {
      if f in w.files { PayloadMembers(h, w, f); } else { TagPartMembers(info, a, b, d, md5, sha, tag, f); }
    }
    TagPartMembers(info, a, b, d, md5, sha, tag, ZFile(ManifestName(false, Md5), Format(md5)));
    TagPartMembers(info, a, b, d, md5, sha, tag, ZFile(ManifestName(false, Sha256), Format(sha)));
    TagPartMembers(info, a, b, d, md5, sha, tag, ZFile(ManifestName(true, Md5), Format(tag)));
  }

  lemma ClosedManifests(h: Hasher, w: Draft, info: string, c: Draft, md5: seq<Listed>, sha: seq<Listed>,
                        tag: seq<Listed>)
    returns (a: bool, b: bool, d: bool)
    requires PayloadOnly(h, w) && ClosedAs(h, w, info, c, md5, sha, tag)
    ensures HasManifest(c, false, Md5, a, md5) && HasManifest(c, false, Sha256, b, sha)
      && HasManifest(c, true, Md5, d, tag)
    ensures HasManifest(c, false, Sha1, false, []) && HasManifest(c, false, Sha512, false, [])
  {
    a, b, d :| && (!a ==> md5 == []) && (!b ==> sha == []) && (!d ==> tag == [])
               && c.files == w.files + TagPart(info, a, b, d, md5, sha, tag);
    ClosedManifest(h, w, info, c, a, b, d, md5, sha, tag, true, Md5);
    ClosedManifest(h, w, info, c, a, b, d, md5, sha, tag, false, Md5);
    ClosedManifest(h, w, info, c, a, b, d, md5, sha, tag, false, Sha1);
    ClosedManifest(h, w, info, c, a, b, d, md5, sha, tag, false, Sha256);
    ClosedManifest(h, w, info, c, a, b, d, md5, sha, tag, false, Sha512);
  }

  lemma LoadsAll(h: Hasher, w: Draft, info: string, c: Draft, md5: seq<Listed>, sha: seq<Listed>, tag: seq<Listed>)
    requires PayloadOnly(h, w) && ClosedAs(h, w, info, c, md5, sha, tag)
    ensures LoadManifests(ZipOf(c), c.dirname, map[], 0) == Loaded(FinalManifest(md5, sha, tag), true)
  {
    var a, b, d := ClosedManifests(h, w, info, c, md5, sha, tag);
    ManifestNamesApart();
    var z := ZipOf(c);
    var m1 := ApplyListed(map[], Md5, md5);
    var m2 := ApplyListed(m1, Sha256, sha);
    LoadsList(c, map[], ManifestName(false, Md5), Md5, a, md5);
    LoadsList(c, m1, ManifestName(false, Sha1), Sha1, false, []);
    LoadsList(c, m1, ManifestName(false, Sha256), Sha256, b, sha);
    LoadsList(c, m2, ManifestName(false, Sha512), Sha512, false, []);
    LoadsList(c, m2, ManifestName(true, Md5), Md5, d, tag);
    calc {
      LoadManifests(z, c.dirname, map[], 0);
      LoadManifests(z, c.dirname, m1, 1);
      LoadManifests(z, c.dirname, m1, 2);
      LoadManifests(z, c.dirname, m2, 3);
      LoadManifests(z, c.dirname, m2, 4);
      LoadManifests(z, c.dirname, FinalManifest(md5, sha, tag), 5);
    }
  }

  lemma ListedDigest(h: Hasher, c: Draft, istag: bool, kind: Kind, ls: seq<Listed>, f: ZFile)
    requires Distinctly(c) && f in c.files && Truthful(h, c.files, istag, kind, ls)
    ensures forall l :: l in ls && l.file == f.name ==>
      l.digest == Get(Sum(h, f.data), kind) && HasPrefix(f.name, "data/") != istag
  {
    forall l | l in ls && l.file == f.name
      ensures l.digest == Get(Sum(h, f.data), kind)
    {
      var g :| g in c.files && g.name == l.file && l.digest == Get(Sum(h, g.data), kind);
      SameName(c, f, g);
    }
  }

  /** What loading one manifest does to the entry of a file of the bag. */
  lemma LoadedEntry(h: Hasher, c: Draft, istag: bool, kind: Kind, ls: seq<Listed>, f: ZFile, m: Manifest)
    requires Distinctly(c) && f in c.files && Truthful(h, c.files, istag, kind, ls)
    ensures var r := ApplyListed(m, kind, ls);
      if Lists(ls, f.name) then
        HasPrefix(f.name, "data/") != istag && f.name in r
        && r[f.name] == Set(Entry(m, f.name), kind, Get(Sum(h, f.data), kind))
      else (f.name in r <==> f.name in m) && Entry(r, f.name) == Entry(m, f.name)
  {
    AppliedEntry(m, kind, ls, f.name);
    ListedDigest(h, c, istag, kind, ls, f);
    if Lists(ls, f.name) { var l :| l in ls && l.file == f.name; }
  }

  lemma PayloadEntry(h: Hasher, c: Draft, md5: seq<Listed>, sha: seq<Listed>, tag: seq<Listed>, f: ZFile)
    requires Distinctly(c) && f in c.files && HasPrefix(f.name, "data/")
    requires Truthful(h, c.files, false, Md5, md5) && Lists(md5, f.name)
    requires Truthful(h, c.files, false, Sha256, sha) && Lists(sha, f.name)
    requires Truthful(h, c.files, true, Md5, tag)
    ensures var m := FinalManifest(md5, sha, tag); f.name in m && m[f.name] == Sum(h, f.data)
  {
    var m1 := ApplyListed(map[], Md5, md5);
    var m2 := ApplyListed(m1, Sha256, sha);
    LoadedEntry(h, c, false, Md5, md5, f, map[]);
    LoadedEntry(h, c, false, Sha256, sha, f, m1);
    LoadedEntry(h, c, true, Md5, tag, f, m2);
  }

  lemma TagEntry(h: Hasher, c: Draft, md5: seq<Listed>, sha: seq<Listed>, tag: seq<Listed>, f: ZFile)
    requires Distinctly(c) && f in c.files && !HasPrefix(f.name, "data/")
    requires Truthful(h, c.files, false, Md5, md5) && Truthful(h, c.files, false, Sha256, sha)
    requires Truthful(h, c.files, true, Md5, tag)
    ensures var m := FinalManifest(md5, sha, tag);
      f.name in m ==> m[f.name] == Checksum(h.md5(f.data), "", "", "")
  {
    var m1 := ApplyListed(map[], Md5, md5);
    var m2 := ApplyListed(m1, Sha256, sha);
    LoadedEntry(h, c, false, Md5, md5, f, map[]);
    LoadedEntry(h, c, false, Sha256, sha, f, m1);
    LoadedEntry(h, c, true, Md5, tag, f, m2);
  }

  /** What the manifests of a closed bag say about each of its files. */
  lemma FinalEntry(h: Hasher, c: Draft, md5: seq<Listed>, sha: seq<Listed>, tag: seq<Listed>, f: ZFile)
    requires Distinctly(c) && f in c.files
    requires Truthful(h, c.files, false, Md5, md5) && ListsAllPayload(c.files, md5)
    requires Truthful(h, c.files, false, Sha256, sha) && ListsAllPayload(c.files, sha)
    requires Truthful(h, c.files, true, Md5, tag)
    ensures var m := FinalManifest(md5, sha, tag);
      if HasPrefix(f.name, "data/") then f.name in m && m[f.name] == Sum(h, f.data)
      else f.name in m ==> m[f.name] == Checksum(h.md5(f.data), "", "", "")
  {
    if HasPrefix(f.name, "data/") {
      PayloadEntry(h, c, md5, sha, tag, f);
    } else {
      TagEntry(h, c, md5, sha, tag, f);
    }
  }

  lemma FinalKeys(h: Hasher, c: Draft, md5: seq<Listed>, sha: seq<Listed>, tag: seq<Listed>, k: string)
    requires Truthful(h, c.files, false, Md5, md5) && Truthful(h, c.files, false, Sha256, sha)
    requires Truthful(h, c.files, true, Md5, tag)
    requires k in FinalManifest(md5, sha, tag)
    ensures exists f :: f in c.files && f.name == k
  {
    var m1 := ApplyListed(map[], Md5, md5);
    var m2 := ApplyListed(m1, Sha256, sha);
    AppliedEntry(map[], Md5, md5, k);
    AppliedEntry(m1, Sha256, sha, k);
    AppliedEntry(m2, Md5, tag, k);
  }

  // ---- the results

  /** A bag whose payload has been written: slash-free name, whitespace-free distinct file names. */
  ghost predicate Bagged(h: Hasher, w: Draft, name: string) {
    && w.dirname == name + "/" && '/' !in name && PayloadOnly(h, w)
  }

  lemma DirnameRead(c: Draft, name: string)
    requires c.files != [] && c.dirname == name + "/" && '/' !in name
    ensures Dirname(ZipOf(c)) == c.dirname
  {
    var s := ZipOf(c)[0].name;
    assert s == name + ['/'] + c.files[0].name;
    Names.IndexOfSeparator(name, '/', c.files[0].name);
    assert s[..|name|] == name;
  }

  /** Bag round trip, checksums: for each payload file, reading the manifests of the closed bag gives
      back exactly the MD5 and SHA-256 of what was written, whatever the orders of the writer's loops. */
  lemma ChecksumRoundTrip(h: Hasher, w: Draft, name: string, info: string, o: Orders, i: nat)
    requires Bagged(h, w, name) && OrdersFit(h, w, info, o) && i < |w.files|
    ensures var c := CloseDraft(h, w, info, o);
      var l := LoadManifests(ZipOf(c), Dirname(ZipOf(c)), map[], 0);
      l.ok && w.files[i].name in l.manifest && l.manifest[w.files[i].name] == Sum(h, w.files[i].data)
  {
    var c := CloseDraft(h, w, info, o);
    var md5, sha, tag := CloseFiles(h, w, info, o);
    LoadsAll(h, w, info, c, md5, sha, tag);
    ClosedNotEmpty(h, w, info, c, md5, sha, tag);
    DirnameRead(c, name);
    assert c.files[i] in c.files;
    assert IsPayloadName(w.files[i].name);
    FinalEntry(h, c, md5, sha, tag, c.files[i]);
  }

  lemma ManifestAgrees(h: Hasher, c: Draft, md5: seq<Listed>, sha: seq<Listed>, tag: seq<Listed>)
    requires Distinctly(c)
    requires Truthful(h, c.files, false, Md5, md5) && ListsAllPayload(c.files, md5)
    requires Truthful(h, c.files, false, Sha256, sha) && ListsAllPayload(c.files, sha)
    requires Truthful(h, c.files, true, Md5, tag)
    ensures var m := FinalManifest(md5, sha, tag);
      OneToOne(ZipOf(c), c.dirname, m) && ListedHashesMatch(h, ZipOf(c), c.dirname, m)
  {
    ZipNames(c);
    var z, m := ZipOf(c), FinalManifest(md5, sha, tag);
    forall f | f in z
      ensures IsPayload(f, c.dirname) ==> TrimPrefix(f.name, c.dirname) in m
      ensures TrimPrefix(f.name, c.dirname) in m ==> HashesMatch(h, m[TrimPrefix(f.name, c.dirname)], f.data)
    {
      if IsPayload(f, c.dirname) { PayloadXName(f, c.dirname); }
      FinalEntry(h, c, md5, sha, tag, ZFile(TrimPrefix(f.name, c.dirname), f.data));
    }
    forall k | k in DataEntries(m)
      ensures exists f :: f in z && f.name == c.dirname + k
    {
      FinalKeys(h, c, md5, sha, tag, k);
      var f :| f in c.files && f.name == k;
      assert ZFile(c.dirname + f.name, f.data) in z;
    }
  }

  /** Every closed bag passes Verify. */
  lemma WrittenBagVerifies(h: Hasher, w: Draft, name: string, info: string, o: Orders)
    requires Bagged(h, w, name) && OrdersFit(h, w, info, o)
    ensures var z := ZipOf(CloseDraft(h, w, info, o));
      DistinctNames(z) && Verify(h, z, Dirname(z), map[]) == Good
  {
    var c := CloseDraft(h, w, info, o);
    var md5, sha, tag := CloseFiles(h, w, info, o);
    LoadsAll(h, w, info, c, md5, sha, tag);
    ClosedNotEmpty(h, w, info, c, md5, sha, tag);
    DirnameRead(c, name);
    ZipNames(c);
    ManifestAgrees(h, c, md5, sha, tag);
    VerifyExact(h, ZipOf(c), c.dirname, FinalManifest(md5, sha, tag));
  }

  lemma ClosedNotEmpty(h: Hasher, w: Draft, info: string, c: Draft, md5: seq<Listed>, sha: seq<Listed>,
                       tag: seq<Listed>)
    requires ClosedAs(h, w, info, c, md5, sha, tag)
    ensures c.files != [] && w.files <= c.files
  {
    var a, b, d :| c.files == w.files + TagPart(info, a, b, d, md5, sha, tag);
    assert |TagPart(info, a, b, d, md5, sha, tag)| >= |TagHead(info)| == 2;
  }

  // ---- names

  /** The payload names of a list of files, in order, without "data/". */
  function DataNames(files: seq<ZFile>): seq<string> {
    if files == [] then []
    else (if HasPrefix(files[0].name, "data/") then [files[0].name[5..]] else []) + DataNames(files[1..])
  }

  lemma {:induction false} PayloadNamesOf(c: Draft, i: nat)
    requires i <= |c.files|
    ensures PayloadNames(ZipOf(c)[i..], c.dirname) == DataNames(c.files[i..])
    decreases |c.files| - i
  {
    if i < |c.files| {
      PayloadNamesOf(c, i + 1);
      var z, p := ZipOf(c)[i..], c.dirname + "data/";
      assert z[1..] == ZipOf(c)[i + 1..] && c.files[i..][1..] == c.files[i + 1..];
      var n := c.files[i].name;
      assert z[0].name == c.dirname + n;
      if |n| >= 5 {
        assert z[0].name[..|p|] == c.dirname + n[..5];
        assert n[..5] == "data/" ==> z[0].name[..|p|] == p;
        assert z[0].name[..|p|] == p ==> n[..5] == z[0].name[..|p|][|c.dirname|..] == p[|c.dirname|..] == "data/";
        assert z[0].name[|p|..] == n[5..];
      }
    }
  }

  lemma {:induction false} DataNamesConcat(a: seq<ZFile>, b: seq<ZFile>)
    ensures DataNames(a + b) == DataNames(a) + DataNames(b)
  {
    if a == [] {
      assert a + b == b;
    } else {
      assert (a + b)[1..] == a[1..] + b;
      DataNamesConcat(a[1..], b);
    }
  }

  lemma {:induction false} NoDataNames(a: seq<ZFile>)
    requires forall i :: 0 <= i < |a| ==> !HasPrefix(a[i].name, "data/")
    ensures DataNames(a) == []
  {
    if a != [] { NoDataNames(a[1..]); }
  }

  lemma {:induction false} AllDataNames(a: seq<ZFile>)
    requires forall i :: 0 <= i < |a| ==> HasPrefix(a[i].name, "data/")
    ensures |DataNames(a)| == |a| && forall i :: 0 <= i < |a| ==> a[i].name == "data/" + DataNames(a)[i]
  {
    if a != [] {
      AllDataNames(a[1..]);
      assert a[0].name == a[0].name[..5] + a[0].name[5..];
      forall i | 0 < i < |a|
        ensures a[i].name == "data/" + DataNames(a)[i]
      {
        assert a[i] == a[1..][i - 1];
      }
    }
  }

  lemma TagPartNoData(info: string, a: bool, b: bool, d: bool, md5: seq<Listed>, sha: seq<Listed>, tag: seq<Listed>)
    requires (!a ==> md5 == []) && (!b ==> sha == []) && (!d ==> tag == [])
    ensures DataNames(TagPart(info, a, b, d, md5, sha, tag)) == []
  {
    var rest := TagPart(info, a, b, d, md5, sha, tag);
    TagNames();
    forall i | 0 <= i < |rest|
      ensures !HasPrefix(rest[i].name, "data/")
    {
      assert rest[i] in rest;
      TagPartMembers(info, a, b, d, md5, sha, tag, rest[i]);
    }
    NoDataNames(rest);
  }

  /** Bag round trip, names: the reader lists the payload files that were created, in order. */
  lemma NamesRoundTrip(h: Hasher, w: Draft, name: string, info: string, o: Orders)
    requires Bagged(h, w, name) && OrdersFit(h, w, info, o)
    ensures var z := ZipOf(CloseDraft(h, w, info, o));
      var names := PayloadNames(z, Dirname(z));
      |names| == |w.files| && forall i :: 0 <= i < |w.files| ==> w.files[i].name == "data/" + names[i]
  {
    var c := CloseDraft(h, w, info, o);
    var md5, sha, tag := CloseFiles(h, w, info, o);
    ClosedNotEmpty(h, w, info, c, md5, sha, tag);
    DirnameRead(c, name);
    PayloadNamesOf(c, 0);
    assert ZipOf(c)[0..] == ZipOf(c) && c.files[0..] == c.files;
    ClosedDataNames(h, w, info, c, md5, sha, tag);
    forall i | 0 <= i < |w.files|
      ensures HasPrefix(w.files[i].name, "data/")
    {
      assert IsPayloadName(w.files[i].name);
    }
    AllDataNames(w.files);
  }

  lemma ClosedDataNames(h: Hasher, w: Draft, info: string, c: Draft, md5: seq<Listed>, sha: seq<Listed>,
                        tag: seq<Listed>)
    requires ClosedAs(h, w, info, c, md5, sha, tag)
    ensures DataNames(c.files) == DataNames(w.files)
  {
    var a, b, d :| && (!a ==> md5 == []) && (!b ==> sha == []) && (!d ==> tag == [])
                   && c.files == w.files + TagPart(info, a, b, d, md5, sha, tag);
    DataNamesConcat(w.files, TagPart(info, a, b, d, md5, sha, tag));
    TagPartNoData(info, a, b, d, md5, sha, tag);
    assert DataNames(w.files) + [] == DataNames(w.files);
  }
}
