/** The objects of items/writer.go and items/bundler.go. Store, item record, bundle writer and writer
    are separate objects, updated in place; the item is shared with the cache. Each method is proved
    to do what the function of the same name in ItemModel says. */
module ItemWriter {
  import opened Prelude
  import M = ItemModel
  import opened ItemModel

  /** The bundles of one item in the backing store. */
  class BundleStore {
    var bundles: Disk
    ghost var trace: seq<Disk>

    constructor (bundles: Disk)
      ensures this.bundles == bundles && trace == [bundles]
    {
      this.bundles, trace := bundles, [bundles];
    }

    /** Closing a new bundle's file makes it appear. */
    method Commit(k: int, bundle: Bundle)
      modifies this
      ensures bundles == old(bundles)[k := bundle] && trace == old(trace) + [bundles]
    {
      bundles := bundles[k := bundle];
      trace := trace + [bundles];
    }

    method Delete(k: int)
      modifies this
      ensures bundles == old(bundles) - {k} && trace == old(trace) + [bundles]
    {
      bundles := bundles - {k};
      trace := trace + [bundles];
    }
  }

  class ItemRecord {
    var maxBundle: int
    var blobs: seq<Blob>
    var versions: seq<Version>

    constructor (maxBundle: int, blobs: seq<Blob>, versions: seq<Version>)
      ensures Value() == Item(maxBundle, blobs, versions)
    {
      this.maxBundle, this.blobs, this.versions := maxBundle, blobs, versions;
    }

    ghost function Value(): Item
      reads this
    {
      Item(maxBundle, blobs, versions)
    }

    /** blobByID: the position of the first blob with this id, |blobs| when there is none. */
    method BlobByID(id: int) returns (i: nat)
      ensures i == BlobIndex(blobs, id)
    {
      i := 0;
      while i < |blobs| && blobs[i].id != id
        invariant i <= |blobs|
        invariant BlobIndex(blobs, id) == BlobIndexFrom(blobs, id, i)
      {
        i := i + 1;
      }
    }
  }

  /** What BundleWriter.WriteBlob reports. */
  datatype Results = Results(bytesWritten: int, bundle: int, md5: Bytes, sha256: Bytes)

  class BundleWriter {
    const store: BundleStore
    const item: ItemRecord
    var zw: Option<seq<Entry>>
    var size: int
    var n: int

    ghost function State(): Bundler
      reads this, store, item
    {
      Bundler(store.bundles, store.trace, item.Value(), zw, size, n)
    }

    constructor NewBundler(store: BundleStore, item: ItemRecord)
      ensures this.store == store && this.item == item
      ensures State() == NextBundle(Bundler(store.bundles, store.trace, item.Value(), None, 0, item.maxBundle + 1))
      ensures store.bundles == old(store.bundles) && store.trace == old(store.trace)
      ensures item.Value() == old(item.Value())
    {
      this.store, this.item := store, item;
      zw, size, n := Some([]), 0, item.maxBundle + 2;
    }

    method CurrentBundle() returns (k: int)
      ensures k == M.CurrentBundle(State())
    {
      k := if zw == None then n else n - 1;
    }

    method Close()
      modifies this, store
      ensures State() == CloseBundle(old(State()))
    {
      match zw
      case None =>
      case Some(entries) =>
        store.Commit(n - 1, Bundle(entries, Info(item.blobs, item.versions)));
        zw := None;
    }

    method Next()
      modifies this, store
      ensures State() == NextBundle(old(State()))
    {
      Close();
      zw := Some([]);
      n := n + 1;
      size := 0;
    }

    method WriteBlob(h: Hasher, id: int, data: Bytes) returns (result: Results)
      modifies this, store
      ensures State() == AppendBlob(old(State()), id, data)
      ensures result == Results(|data|, n - 1, h.md5(data), h.sha256(data))
    {
      if size >= IDEAL_BUNDLE_SIZE || zw == None {
        Next();
      }
      zw := Some(zw.value + [Entry(id, data)]);
      size := size + |data|;
      result := Results(|data|, n - 1, h.md5(data), h.sha256(data));
    }

    method CopyBundleExcept(h: Hasher, src: int, except: seq<int>, faults: Faults) returns (ok: bool)
      modifies this, store, item
      ensures Outcome(State(), ok) == M.CopyBundleExcept(h, old(State()), src, except, faults)
    {
      if src !in store.bundles || faults.open(src, -1) {
        return false;
      }
      var files := store.bundles[src].entries;
      var j := 0;
      while j < |files|
        invariant j <= |files|
        invariant CopyEntries(h, old(State()), src, files, except, 0, faults)
               == CopyEntries(h, State(), src, files, except, j, faults)
      {
        if files[j].id !in except {
          if faults.open(src, j) {
            return false;
          }
          var i := item.BlobByID(files[j].id);
          if i == |item.blobs| {
            return false;
          }
          var torn := faults.torn(src, j, files[j].id);
          if torn != None {
            var _ := WriteBlob(h, item.blobs[i].id, Cut(files[j].data, torn.value));
            return false;
          }
          var result := WriteBlob(h, item.blobs[i].id, files[j].data);
          var blob := item.blobs[i];
          if !(blob.size == result.bytesWritten && blob.md5 == result.md5 && blob.sha256 == result.sha256) {
            return false;
          }
          // only a blob whose copy is sound is moved
          item.blobs := item.blobs[i := blob.(bundle := result.bundle)];
        }
        j := j + 1;
      }
      return true;
    }
  }

  /** items/item.go's Store for one item: the bundles, and the cache of item records. */
  class ItemStore {
    const bundles: BundleStore
    var cached: ItemRecord?

    constructor (bundles: BundleStore)
      ensures this.bundles == bundles && cached == null
    {
      this.bundles, cached := bundles, null;
    }

    /** findMaxBundle, `listing` being the numbers of this item's bundles in the order the store
        lists them. Names.FindMaxBundle is the same search on the undecoded keys. */
    method FindMaxBundle(listing: seq<int>) returns (max: int)
      requires forall k :: k in listing <==> k in bundles.bundles
      requires forall k :: k in listing ==> k >= 1
      ensures if bundles.bundles == map[] then max == 0 else IsMax(bundles.bundles, max)
    {
      max := 0;
      for i := 0 to |listing|
        invariant if i == 0 then max == 0 else max in listing
        invariant forall j :: 0 <= j < i ==> listing[j] <= max
      {
        assert listing[i] in listing;
        if listing[i] > max {
          max := listing[i];
        }
      }
      if |listing| == 0 {
        assert forall k :: k !in bundles.bundles;
        assert bundles.bundles == map[];
      } else {
        assert listing[0] in bundles.bundles;
      }
    }

    /** Store.Item and itemload; a new record when no bundle exists. */
    method ReadItem(listing: seq<int>) returns (item: ItemRecord)
      requires forall k :: k in listing <==> k in bundles.bundles
      requires forall k :: k in listing ==> k >= 1
      modifies this
      ensures old(cached) != null && old(cached.versions) != [] ==> item == old(cached) && cached == old(cached)
      ensures old(cached) == null || old(cached.versions) == [] ==>
                fresh(item) && Loads(bundles.bundles, item.Value())
                && cached == (if bundles.bundles == map[] then old(cached) else item)
    {
      if cached != null && cached.versions != [] {
        return cached;
      }
      var n := FindMaxBundle(listing);
      if n == 0 {
        item := new ItemRecord(0, [], []);
      } else {
        var info := bundles.bundles[n].info;
        item := new ItemRecord(n, info.blobs, info.versions);
        cached := item;
      }
    }
  }

  class Writer {
    const store: ItemStore
    const item: ItemRecord
    const bw: BundleWriter
    var bnext: int
    var del: seq<int>
    var version: Version
    var bdel: seq<int>

    ghost predicate Wired()
    {
      bw.item == item && bw.store == store.bundles
    }

    ghost function State(): Session
      reads this, bw, bw.store, bw.item
    {
      Session(bw.State(), bnext, del, version, bdel)
    }

    /** Store.Open, given the item that ReadItem found. The trace is kept per session. */
    constructor Open(store: ItemStore, item: ItemRecord, creator: string)
      modifies store.bundles`trace
      ensures Wired() && this.store == store && this.item == item && fresh(bw)
      ensures State() == OpenWriter(old(store.bundles.bundles), old(item.Value()), creator)
    {
      store.bundles.trace := [store.bundles.bundles];
      var slots := map[];
      var id := 1;
      if |item.versions| > 0 {
        var prev := item.versions[|item.versions| - 1];
        id, slots := prev.id + 1, prev.slots;
      }
      this.store, this.item := store, item;
      bw := new BundleWriter.NewBundler(store.bundles, item);
      bnext, del, bdel := 0, [], [];
      version := Version(id, slots, creator, "");
    }

    method FindBlobByHash(size: int, md5: Bytes, sha256: Bytes) returns (id: int)
      ensures id == M.FindBlobByHash(item.blobs, size, md5, sha256)
    {
      if size == 0 || (md5 == "" && sha256 == "") {
        return 0;
      }
      for i := 0 to |item.blobs|
        invariant M.FindBlobByHash(item.blobs, size, md5, sha256)
               == M.FindBlobByHash(item.blobs[i..], size, md5, sha256)
      {
        if Matches(item.blobs[i], size, md5, sha256) {
          return item.blobs[i].id;
        }
        assert item.blobs[i..][1..] == item.blobs[i + 1..];
      }
      return 0;
    }

    /** `data` is what the reader yields before it ends or, when `readerOK` is false, fails. */
    method WriteBlob(h: Hasher, data: Bytes, readerOK: bool, size: int, md5: Bytes, sha256: Bytes) returns (id: int)
      requires Wired()
      modifies this, bw, bw.store, item
      ensures (State(), id) == M.WriteBlob(h, old(State()), data, readerOK, size, md5, sha256)
    {
      var bid := FindBlobByHash(size, md5, sha256);
      if bid != 0 {
        return bid;
      }
      if bnext == 0 {
        bnext := 1;
        if |item.blobs| > 0 {
          bnext := item.blobs[|item.blobs| - 1].id + 1;
        }
      }
      id := bnext;
      bnext := bnext + 1;
      var ok := StoreBlob(h, id, data, readerOK, size, md5, sha256);
      if !ok {
        id := 0;
      }
    }

    /** Write the stream, then list the blob whether or not all went well. */
    method StoreBlob(h: Hasher, id: int, data: Bytes, readerOK: bool, size: int, md5: Bytes, sha256: Bytes)
      returns (ok: bool)
      requires Wired()
      modifies bw, bw.store, item
      ensures var b := AppendBlob(old(bw.State()), id, data);
        bw.State() == AddBlob(b, WrittenBlob(h, id, b.n - 1, data, readerOK, size, md5, sha256))
      ensures ok <==> readerOK && (size == 0 || size == |data|) && (md5 == "" || md5 == h.md5(data))
                      && (sha256 == "" || sha256 == h.sha256(data))
    {
      var result := bw.WriteBlob(h, id, data);
      var blob;
      blob, ok := FinishBlob(h, id, data, result, readerOK, size, md5, sha256);
      item.blobs := item.blobs + [blob];
      var current := bw.CurrentBundle();
      item.maxBundle := current;
    }

    /** The tail of WriteBlob: fill in what was not given, then compare with what was written. */
    method FinishBlob(h: Hasher, id: int, data: Bytes, result: Results, readerOK: bool,
                      size: int, md5: Bytes, sha256: Bytes) returns (blob: Blob, ok: bool)
      requires result == Results(|data|, result.bundle, h.md5(data), h.sha256(data))
      ensures blob == WrittenBlob(h, id, result.bundle, data, readerOK, size, md5, sha256)
      ensures ok <==> readerOK && (size == 0 || size == |data|) && (md5 == "" || md5 == h.md5(data))
                      && (sha256 == "" || sha256 == h.sha256(data))
    {
      blob := Blob(id, size, md5, sha256, result.bundle, "", "", "");
      if blob.size == 0 { blob := blob.(size := result.bytesWritten); }
      if blob.md5 == "" { blob := blob.(md5 := result.md5); }
      if blob.sha256 == "" { blob := blob.(sha256 := result.sha256); }
      if !readerOK {
        return blob, false;
      }
      if !(blob.size == result.bytesWritten && blob.md5 == result.md5 && blob.sha256 == result.sha256) {
        return blob.(size := result.bytesWritten, md5 := result.md5, sha256 := result.sha256), false;
      }
      return blob, true;
    }

    method SetSlot(name: string, id: int)
      modifies `version
      ensures version == M.SetSlot(old(version), name, id)
    {
      if id == 0 {
        version := version.(slots := version.slots - {name});
      } else {
        version := version.(slots := version.slots[name := id]);
      }
    }

    method ClearSlots()
      modifies `version
      ensures version == old(version).(slots := map[])
    {
      version := version.(slots := map[]);
    }

    method SetNote(note: string)
      modifies `version
      ensures version == old(version).(note := note)
    {
      version := version.(note := note);
    }

    method SetCreator(creator: string)
      modifies `version
      ensures version == old(version).(creator := creator)
    {
      version := version.(creator := creator);
    }

    method SetMimeType(id: int, mimeType: string)
      modifies item
      ensures item.Value() == M.SetMimeType(old(item.Value()), id, mimeType)
    {
      var i := item.BlobByID(id);
      if i == |item.blobs| || item.blobs[i].bundle == 0 {
        return;
      }
      item.blobs := item.blobs[i := item.blobs[i].(mimeType := mimeType)];
    }

    method DeleteBlob(id: int)
      modifies `del
      ensures del == old(del) + [id]
    {
      del := del + [id];
    }

    /** The first loop of doDeletes. */
    method MarkDeletions() returns (groups: map<int, seq<int>>)
      modifies item
      ensures Marking(item.blobs, groups) == MarkAll(Marking(old(item.blobs), map[]), del, version)
      ensures item.versions == old(item.versions) && item.maxBundle == old(item.maxBundle)
    {
      groups := map[];
      for p := 0 to |del|
        invariant item.versions == old(item.versions) && item.maxBundle == old(item.maxBundle)
        invariant Marking(item.blobs, groups) == MarkAll(Marking(old(item.blobs), map[]), del[..p], version)
      {
        assert del[..p + 1][..p] == del[..p];
        var i := item.BlobByID(del[p]);
        if i < |item.blobs| && item.blobs[i].bundle != 0 {
          var k := item.blobs[i].bundle;
          groups := groups[k := (if k in groups then groups[k] else []) + [del[p]]];
          item.blobs := item.blobs[i := Deleted(item.blobs[i], version)];
        }
      }
      assert del[..|del|] == del;
    }

    /** The second loop of doDeletes, over the rewritten bundles in the order given. */
    method CopySurvivors(h: Hasher, groups: map<int, seq<int>>, order: seq<int>, faults: Faults) returns (ok: bool)
      requires Wired() && forall k :: k in order ==> k in groups
      modifies this, bw, bw.store, item
      ensures Outcome(State(), ok) == CopyGroups(h, old(State()), groups, order, 0, faults)
    {
      for j := 0 to |order|
        invariant CopyGroups(h, old(State()), groups, order, 0, faults)
               == CopyGroups(h, State(), groups, order, j, faults)
      {
        ok := bw.CopyBundleExcept(h, order[j], groups[order[j]], faults);
        if !ok {
          return;
        }
        bdel := bdel + [order[j]];
      }
      ok := true;
    }

    /** The last loop of Close. */
    method RemoveBundles(faults: Faults) returns (ok: bool)
      requires Wired()
      modifies bw.store
      ensures Outcome(bw.State(), ok) == DeleteBundles(old(bw.State()), bdel, 0, faults)
    {
      for j := 0 to |bdel|
        invariant DeleteBundles(old(bw.State()), bdel, 0, faults) == DeleteBundles(bw.State(), bdel, j, faults)
      {
        if faults.delete(bdel[j]) {
          return false;
        }
        bw.store.Delete(bdel[j]);
      }
      ok := true;
    }

    method Close(h: Hasher, order: seq<int>, faults: Faults) returns (ok: bool)
      requires Wired() && forall k :: k in order ==> k in Marked(State()).1
      modifies this, bw, bw.store, item, store
      ensures Outcome(State(), ok) == CloseWriter(h, old(State()), order, faults)
      ensures store.cached == item
    {
      item.versions := item.versions + [version];
      var groups := MarkDeletions();
      assert (State(), groups) == Marked(old(State()));
      var copied := CopySurvivors(h, groups, order, faults);
      var current := bw.CurrentBundle();
      item.maxBundle := current;
      bw.Close();
      store.cached := item;
      if !copied {
        return false;
      }
      ok := RemoveBundles(faults);
    }
  }
}
