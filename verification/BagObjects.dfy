/** The Writer and Reader objects of bagit/, updated in place, against the functions of BagModel. */
module BagObjects {
  import opened Prelude
  import opened BagText
  import B = BagModel
  import opened BagModel
  import V = BagVerify

  class Writer {
    const dirname: string
    var z: seq<ZFile>
    var manifest: Manifest
    var cur: Option<string>
    var ns: nat
    var sz: nat
    var tags: map<string, string>

    ghost predicate Valid()
      reads this
    {
      && (forall i :: 0 <= i < |z| ==> HasPrefix(z[i].name, dirname))
      && (cur.Some? ==> z != [])
    }

    /** The draft, with names relative to the bag's directory. */
    ghost function State(): (d: Draft)
      reads this
      ensures |d.files| == |z|
    {
      Draft(dirname, seq(|z|, i requires 0 <= i < |z| reads this => ZFile(TrimPrefix(z[i].name, dirname), z[i].data)),
            manifest, cur, ns, sz)
    }

    constructor (name: string)
      ensures Valid() && State() == NewDraft(name) && tags == map[]
    {
      dirname, z, manifest, cur, ns, sz, tags := name + "/", [], map[], None, 0, 0, map[];
    }

    /** What has been written is the zip file of the draft. */
    lemma ZipIsDraft()
      requires Valid()
      ensures z == ZipOf(State())
    {
      var d := ZipOf(State());
      forall i | 0 <= i < |z|
        ensures z[i] == d[i]
      {
        assert z[i].name == dirname + TrimPrefix(z[i].name, dirname);
      }
    }

    method SetTag(tag: string, content: string)
      modifies `tags
      ensures tags == old(tags)[tag := content]
    {
      tags := tags[tag := content];
    }

    method Checksum(h: Hasher)
      requires Valid()
      modifies `manifest
      ensures Valid() && State() == SaveChecksum(h, old(State()))
    {
      if cur.Some? {
        var data := z[|z| - 1].data;
        manifest := manifest[cur.value := B.Checksum(h.md5(data), "", h.sha256(data), "")];
      }
    }

    /** Writer.create, for payload and tag files alike. */
    method CreateFile(h: Hasher, name: string)
      requires Valid()
      modifies `manifest, `z, `cur
      ensures Valid() && cur == Some(name) && State() == B.Create(h, old(State()), name)
    {
      Checksum(h);
      manifest := manifest[name := EMPTY];
      cur := Some(name);
      z := z + [ZFile(dirname + name, "")];
      assert TrimPrefix(dirname + name, dirname) == name;
    }

    method WriteFile(p: Bytes)
      requires Valid() && z != []
      modifies `z
      ensures Valid() && z != [] && State() == B.Write(old(State()), p)
    {
      var last := |z| - 1;
      z := z[last := z[last].(data := z[last].data + p)];
    }

    method Create(h: Hasher, name: string)
      requires Valid()
      modifies `manifest, `z, `cur, `ns
      ensures Valid() && z != [] && State() == CreatePayload(h, old(State()), name)
    {
      ns := ns + 1;
      CreateFile(h, "data/" + name);
    }

    /** A write through the counting writer that Create returned. */
    method Write(p: Bytes)
      requires Valid() && z != []
      modifies `z, `sz
      ensures Valid() && z != [] && State() == WritePayload(old(State()), p)
    {
      WriteFile(p);
      sz := sz + |p|;
    }

    method WriteTags(h: Hasher, order: seq<string>)
      requires Valid() && forall k :: k in order ==> k in tags
      modifies `manifest, `z, `cur
      ensures Valid() && cur.Some? && State() == B.WriteTags(h, old(State()), TagText(tags, order))
    {
      CreateFile(h, "bagit.txt");
      WriteFile(VERSION_TEXT);
      CreateFile(h, "bag-info.txt");
      ghost var w := State();
      var i := 0;
      assert order[..0] == [];
      assert w.files[|w.files| - 1].data + "" == w.files[|w.files| - 1].data;
      assert B.Write(w, "") == w;
      while i < |order|
        invariant i <= |order| && Valid() && z != [] && cur.Some?
        invariant State() == B.Write(w, TagText(tags, order[..i]))
        invariant w == B.Create(h, B.Write(B.Create(h, old(State()), "bagit.txt"), VERSION_TEXT), "bag-info.txt")
      {
        assert order[..i + 1][..i] == order[..i];
        var line := order[i] + ": " + tags[order[i]] + "\n";
        WriteFile(line);
        WriteTwice(w, TagText(tags, order[..i]), line);
        i := i + 1;
      }
      assert order[..i] == order;
    }

    method WriteManifest(h: Hasher, istag: bool, kind: Kind, order: seq<string>)
      requires Valid()
      modifies `manifest, `z, `cur
      ensures Valid() && State() == B.WriteManifest(h, old(State()), istag, kind, order)
    {
      var open := false;
      for i := 0 to |order|
        invariant Valid() && (open ==> z != [])
        invariant B.WriteManifest(h, old(State()), istag, kind, order)
               == ManifestFrom(h, State(), istag, kind, order, i, open)
      {
        var fname := order[i];
        if Qualifies(istag, fname) && fname in manifest {
          var d := Get(manifest[fname], kind);
          if d != "" {
            if !open {
              CreateFile(h, ManifestName(istag, kind));
              open := true;
            }
            WriteFile(FormatLine(Listed(d, fname)));
          }
        }
      }
    }

    method Close(h: Hasher, date: string, size: string, tagOrder: seq<string>, o: Orders)
      requires Valid()
      requires forall k :: k in tagOrder ==> k in CloseTags(tags, sz, ns, date, size)
      modifies this
      ensures Valid() && z == ZipOf(State())
      ensures tags == CloseTags(old(tags), old(sz), old(ns), date, size)
      ensures State() == CloseDraft(h, old(State()), TagText(tags, tagOrder), o)
    {
      tags := CloseTags(tags, sz, ns, date, size);
      assert State() == old(State());
      WriteTags(h, tagOrder);
      Checksum(h);
      WriteManifest(h, false, Md5, o.md5);
      WriteManifest(h, false, Sha1, o.sha1);
      WriteManifest(h, false, Sha256, o.sha256);
      WriteManifest(h, false, Sha512, o.sha512);
      WriteManifest(h, true, Md5, o.tag);
      ZipIsDraft();
    }
  }

  lemma WriteTwice(w: Draft, a: Bytes, b: Bytes)
    requires w.files != []
    ensures B.Write(B.Write(w, a), b) == B.Write(w, a + b)
  {
    var last := |w.files| - 1;
    var d := w.files[last].data;
    assert d + a + b == d + (a + b);
    assert w.files[last := w.files[last].(data := d + a)][last := w.files[last].(data := d + a + b)]
        == w.files[last := w.files[last].(data := d + (a + b))];
  }

  /** Counting the `data/` names in an order of the map. */
  lemma {:induction false} CountsEntries(m: Manifest, order: seq<string>, n: nat, i: nat)
    requires IsOrder(order, m.Keys) && i <= |order|
    requires n == |set k | k in order[..i] && HasPrefix(k, "data/")|
    ensures i == |order| ==> n == |DataEntries(m)|
    ensures i < |order| ==>
      (if HasPrefix(order[i], "data/") then n + 1 else n) == |set k | k in order[..i + 1] && HasPrefix(k, "data/")|
  {
    var a := set k | k in order[..i] && HasPrefix(k, "data/");
    if i == |order| {
      assert order[..i] == order;
      assert a == DataEntries(m);
    } else {
      var b := set k | k in order[..i + 1] && HasPrefix(k, "data/");
      assert order[..i + 1] == order[..i] + [order[i]];
      assert order[i] !in order[..i];
      assert b == if HasPrefix(order[i], "data/") then a + {order[i]} else a;
    }
  }

  class Reader {
    const z: seq<ZFile>
    const dirname: string
    var manifest: Manifest

    constructor (z: seq<ZFile>)
      ensures this.z == z && dirname == Dirname(z) && manifest == map[]
    {
      this.z, dirname, manifest := z, Dirname(z), map[];
    }

    /** Reader.open. */
    method OpenFile(name: string) returns (r: Option<Bytes>)
      ensures r == B.OpenFile(z, dirname + name)
    {
      for i := 0 to |z|
        invariant B.OpenFile(z, dirname + name) == B.OpenFile(z[i..], dirname + name)
      {
        assert z[i..][1..] == z[i + 1..];
        if z[i].name == dirname + name {
          return Some(z[i].data);
        }
      }
      return None;
    }

    method Files() returns (names: seq<string>)
      ensures names == PayloadNames(z, dirname)
    {
      names := [];
      var prefix := dirname + "data/";
      for i := 0 to |z|
        invariant PayloadNames(z, dirname) == names + PayloadNames(z[i..], dirname)
      {
        assert z[i..][1..] == z[i + 1..];
        if HasPrefix(z[i].name, prefix) {
          names := names + [TrimPrefix(z[i].name, prefix)];
        }
      }
    }

    method LoadManifestFile(name: string, kind: Kind) returns (ok: bool)
      modifies this
      ensures Loaded(manifest, ok) == LoadFile(z, dirname, old(manifest), name, kind)
    {
      var text := OpenFile(name);
      if text == None {
        return true;
      }
      var lines := Lines(text.value);
      for i := 0 to |lines|
        invariant LoadLines(old(manifest), kind, lines) == LoadLines(manifest, kind, lines[i..])
      {
        assert lines[i..][1..] == lines[i + 1..];
        if lines[i] != "" {
          var pieces := Fields(lines[i]);
          if |pieces| != 2 {
            return true;
          }
          var fname := pieces[1];
          ghost var before := manifest;
          if fname !in manifest {
            manifest := manifest[fname := EMPTY];
          }
          assert manifest == before[fname := Entry(before, fname)];
          match HexDecode(pieces[0])
          case None => return false;
          case Some(d) =>
            manifest := manifest[fname := Set(manifest[fname], kind, d)];
            assert manifest == before[fname := Set(Entry(before, fname), kind, d)];
        }
      }
      ok := true;
    }

    method LoadManifests() returns (ok: bool)
      modifies this
      ensures Loaded(manifest, ok) == B.LoadManifests(z, dirname, old(manifest), 0)
    {
      for i := 0 to |MANIFEST_FILES|
        invariant B.LoadManifests(z, dirname, old(manifest), 0) == B.LoadManifests(z, dirname, manifest, i)
      {
        ok := LoadManifestFile(MANIFEST_FILES[i].0, MANIFEST_FILES[i].1);
        if !ok {
          return;
        }
      }
      ok := true;
    }

    /** Reader.Checksum: None stands for nil. */
    method Checksum(name: string) returns (c: Option<Checksum>)
      modifies this
      ensures var l :=
        if old(manifest) == map[] then B.LoadManifests(z, dirname, map[], 0) else Loaded(old(manifest), true);
        manifest == l.manifest
        && c == if l.ok && "data/" + name in manifest then Some(manifest["data/" + name]) else None
    {
      if |manifest| == 0 {
        var ok := LoadManifests();
        if !ok {
          return None;
        }
      }
      return if "data/" + name in manifest then Some(manifest["data/" + name]) else None;
    }

    /** Reader.Verify; `order` is the order in which the loaded map is ranged over. */
    method Verify(h: Hasher, order: seq<string>) returns (v: Verdict)
      requires IsOrder(order, B.LoadManifests(z, dirname, manifest, 0).manifest.Keys)
      modifies this
      ensures v == B.Verify(h, z, dirname, old(manifest))
      ensures V.DistinctNames(z) && v != BadManifest ==>
        (v == Good <==> V.OneToOne(z, dirname, manifest) && V.ListedHashesMatch(h, z, dirname, manifest))
    {
      var ok := LoadManifests();
      if !ok {
        return BadManifest;
      }
      if V.DistinctNames(z) { V.VerifyExact(h, z, dirname, manifest); }
      v := CheckLoaded(h, order);
    }

    method CheckLoaded(h: Hasher, order: seq<string>) returns (v: Verdict)
      requires IsOrder(order, manifest.Keys)
      ensures v == Check(h, z, dirname, manifest)
    {
      var npayload := 0;
      for i := 0 to |z|
        invariant FirstExtra(z, dirname, manifest) == FirstExtra(z[i..], dirname, manifest)
        invariant CountPayload(z, dirname) == npayload + CountPayload(z[i..], dirname)
      {
        assert z[i..][1..] == z[i + 1..];
        if HasPrefix(z[i].name, dirname + "data/") {
          npayload := npayload + 1;
          var xname := TrimPrefix(z[i].name, dirname);
          if xname !in manifest {
            return ExtraFile(xname);
          }
        }
      }
      var nmanifest := 0;
      for i := 0 to |order|
        invariant nmanifest == |set k | k in order[..i] && HasPrefix(k, "data/")|
      {
        CountsEntries(manifest, order, nmanifest, i);
        if HasPrefix(order[i], "data/") {
          nmanifest := nmanifest + 1;
        }
      }
      CountsEntries(manifest, order, nmanifest, |order|);
      if npayload != nmanifest {
        return MissingFile;
      }
      for i := 0 to |z|
        invariant FirstMismatch(h, z, dirname, manifest) == FirstMismatch(h, z[i..], dirname, manifest)
      {
        assert z[i..][1..] == z[i + 1..];
        var xname := TrimPrefix(z[i].name, dirname);
        if xname in manifest && !HashesMatch(h, manifest[xname], z[i].data) {
          return Mismatch(xname);
        }
      }
      return Good;
    }
  }
}
