/** Verify is exact: comparing two counts stands for the search for missing files. */
module BagVerify {
  import opened Prelude
  import opened BagModel

  ghost predicate DistinctNames(z: seq<ZFile>) {
    forall i, j :: 0 <= i < j < |z| ==> z[i].name != z[j].name
  }

  /** f is a payload file, and what the manifests call it. */
  predicate IsPayload(f: ZFile, dirname: string) {
    HasPrefix(f.name, dirname + "data/")
  }

  lemma PayloadXName(f: ZFile, dirname: string)
    requires IsPayload(f, dirname)
    ensures HasPrefix(f.name, dirname) && f.name == dirname + TrimPrefix(f.name, dirname)
    ensures HasPrefix(TrimPrefix(f.name, dirname), "data/")
  {
    var p := dirname + "data/";
    assert f.name[..|dirname|] == p[..|dirname|] == dirname;
    assert f.name[|dirname|..][..5] == p[|dirname|..] == "data/";
  }

  /** The manifest names of the payload files. */
  ghost function PayloadSet(z: seq<ZFile>, dirname: string): set<string> {
    set f | f in z && IsPayload(f, dirname) :: TrimPrefix(f.name, dirname)
  }

  lemma PayloadSetFirst(f: ZFile, rest: seq<ZFile>, dirname: string)
    ensures PayloadSet([f] + rest, dirname) ==
      PayloadSet(rest, dirname) + (if IsPayload(f, dirname) then {TrimPrefix(f.name, dirname)} else {})
  {
    var all := [f] + rest;
    assert forall g :: g in all <==> g == f || g in rest;
  }

  lemma PayloadFresh(f: ZFile, rest: seq<ZFile>, dirname: string)
    requires IsPayload(f, dirname) && forall i :: 0 <= i < |rest| ==> rest[i].name != f.name
    ensures TrimPrefix(f.name, dirname) !in PayloadSet(rest, dirname)
  {
    PayloadXName(f, dirname);
    forall g | g in rest && IsPayload(g, dirname)
      ensures TrimPrefix(g.name, dirname) != TrimPrefix(f.name, dirname)
    {
      PayloadXName(g, dirname);
    }
  }

  lemma {:induction false} CountsPayload(z: seq<ZFile>, dirname: string)
    requires DistinctNames(z)
    ensures CountPayload(z, dirname) == |PayloadSet(z, dirname)|
  {
    if z != [] {
      var rest := z[1..];
      CountsPayload(rest, dirname);
      assert z == [z[0]] + rest;
      PayloadSetFirst(z[0], rest, dirname);
      if IsPayload(z[0], dirname) { PayloadFresh(z[0], rest, dirname); }
    }
  }

  lemma {:induction false} SubsetSizes(a: set<string>, b: set<string>)
    requires a <= b
    ensures |a| <= |b|
    ensures |a| == |b| ==> a == b
  {
    if a != {} {
      var x :| x in a;
      SubsetSizes(a - {x}, b - {x});
    }
  }

  lemma {:induction false} FirstExtraSpec(z: seq<ZFile>, dirname: string, m: Manifest)
    ensures match FirstExtra(z, dirname, m)
      case None => forall f :: f in z && IsPayload(f, dirname) ==> TrimPrefix(f.name, dirname) in m
      case Some(x) => x !in m && exists f :: f in z && IsPayload(f, dirname) && TrimPrefix(f.name, dirname) == x
  {
    if z != [] {
      FirstExtraSpec(z[1..], dirname, m);
      assert z == [z[0]] + z[1..];
    }
  }

  lemma {:induction false} FirstMismatchSpec(h: Hasher, z: seq<ZFile>, dirname: string, m: Manifest)
    ensures match FirstMismatch(h, z, dirname, m)
      case None => forall f :: f in z && TrimPrefix(f.name, dirname) in m ==>
          HashesMatch(h, m[TrimPrefix(f.name, dirname)], f.data)
      case Some(x) => x in m && exists f :: f in z && TrimPrefix(f.name, dirname) == x && !HashesMatch(h, m[x], f.data)
  {
    if z != [] {
      FirstMismatchSpec(h, z[1..], dirname, m);
      assert z == [z[0]] + z[1..];
    }
  }

  /** Every data entry of the manifest is some payload file's name. */
  ghost predicate NoneMissing(z: seq<ZFile>, dirname: string, m: Manifest) {
    forall k :: k in DataEntries(m) ==> exists f :: f in z && f.name == dirname + k
  }

  /** Payload files and `data/` entries of the manifest correspond one to one. */
  ghost predicate OneToOne(z: seq<ZFile>, dirname: string, m: Manifest) {
    && (forall f :: f in z && IsPayload(f, dirname) ==> TrimPrefix(f.name, dirname) in m)
    && NoneMissing(z, dirname, m)
  }

  ghost predicate ListedHashesMatch(h: Hasher, z: seq<ZFile>, dirname: string, m: Manifest) {
    forall f :: f in z && TrimPrefix(f.name, dirname) in m ==> HashesMatch(h, m[TrimPrefix(f.name, dirname)], f.data)
  }

  lemma NoneMissingAsSets(z: seq<ZFile>, dirname: string, m: Manifest)
    ensures NoneMissing(z, dirname, m) <==> DataEntries(m) <= PayloadSet(z, dirname)
  {
    forall k | k in DataEntries(m)
      ensures k in PayloadSet(z, dirname) <==> exists f :: f in z && f.name == dirname + k
    {
      PayloadMember(z, dirname, k);
    }
  }

  /** The pigeonhole step. */
  lemma OneToOneByCounting(z: seq<ZFile>, dirname: string, m: Manifest)
    requires DistinctNames(z)
    requires forall f :: f in z && IsPayload(f, dirname) ==> TrimPrefix(f.name, dirname) in m
    ensures CountPayload(z, dirname) == |DataEntries(m)| <==> NoneMissing(z, dirname, m)
  {
    var a, b := PayloadSet(z, dirname), DataEntries(m);
    CountsPayload(z, dirname);
    forall f | f in z && IsPayload(f, dirname)
      ensures TrimPrefix(f.name, dirname) in b
    {
      PayloadXName(f, dirname);
    }
    assert a <= b;
    SubsetSizes(a, b);
    NoneMissingAsSets(z, dirname, m);
    if b <= a { assert a == b; }
  }

  lemma PayloadMember(z: seq<ZFile>, dirname: string, k: string)
    requires HasPrefix(k, "data/")
    ensures k in PayloadSet(z, dirname) <==> exists f :: f in z && f.name == dirname + k
  {
    if k in PayloadSet(z, dirname) {
      var f :| f in z && IsPayload(f, dirname) && TrimPrefix(f.name, dirname) == k;
      PayloadXName(f, dirname);
      assert f.name == dirname + k;
    }
    forall f | f in z && f.name == dirname + k
      ensures k in PayloadSet(z, dirname)
    {
      assert f.name[..|dirname|] == dirname && f.name[|dirname|..] == k;
      var p := dirname + "data/";
      assert f.name[..|p|] == f.name[..|dirname|] + k[..5];
    }
  }

  /** Verify returns nil if and only if payload and `data/` entries correspond one to one and every
      listed file that is present matches its recorded MD5 and SHA-256; otherwise the error tells
      which of the three failed, in that order. */
  lemma VerifyExact(h: Hasher, z: seq<ZFile>, dirname: string, m: Manifest)
    requires DistinctNames(z)
    ensures match Check(h, z, dirname, m)
      case Good => OneToOne(z, dirname, m) && ListedHashesMatch(h, z, dirname, m)
      case BadManifest => false
      case ExtraFile(x) => x !in m && HasPrefix(x, "data/") && exists f :: f in z && f.name == dirname + x
      case MissingFile =>
        && (forall f :: f in z && IsPayload(f, dirname) ==> TrimPrefix(f.name, dirname) in m)
        && exists k :: k in DataEntries(m) && forall f :: f in z ==> f.name != dirname + k
      case Mismatch(x) =>
        && OneToOne(z, dirname, m) && x in m
        && exists f :: f in z && TrimPrefix(f.name, dirname) == x && !HashesMatch(h, m[x], f.data)
    ensures Check(h, z, dirname, m) == Good <==> OneToOne(z, dirname, m) && ListedHashesMatch(h, z, dirname, m)
  {
    FirstExtraSpec(z, dirname, m);
    FirstMismatchSpec(h, z, dirname, m);
    if FirstExtra(z, dirname, m) == None {
      OneToOneByCounting(z, dirname, m);
    } else {
      var x := FirstExtra(z, dirname, m).value;
      var f :| f in z && IsPayload(f, dirname) && TrimPrefix(f.name, dirname) == x;
      PayloadXName(f, dirname);
    }
  }
}
