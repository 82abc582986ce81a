/** StoreLRU and its writers as objects, against the functions of LruModel. */
module LruObjects {
  import opened Prelude
  import M = LruModel
  import opened LruModel

  class StoreLRU {
    var size: int
    const maxSize: int
    var lru: seq<Entry>
    var pending: set<string>
    ghost var files: set<string>

    ghost function State(): Cache
      reads this
    {
      Cache(size, maxSize, lru, pending, files)
    }

    constructor (maxSize: nat, ghost files: set<string>)
      ensures State() == NewLRU(maxSize, files).c
    {
      this.size, this.maxSize, lru, pending, this.files := 0, maxSize, [], {}, files;
    }

    method Find(key: string) returns (i: nat)
      ensures i == M.Find(lru, key)
    {
      i := 0;
      while i < |lru| && lru[i].key != key
        invariant i <= |lru| && FindFrom(lru, key, 0) == FindFrom(lru, key, i)
      {
        i := i + 1;
      }
    }

    method Contains(key: string) returns (b: bool)
      ensures b == M.Contains(State(), key)
    {
      var i := Find(key);
      b := i < |lru|;
    }

    method Reserve(n: int) returns (ok: bool)
      modifies this
      ensures Reserved(State(), ok) == M.Reserve(old(State()), n)
    {
      size := size + n;
      while size > maxSize
        invariant M.Reserve(old(State()), n) == Evict(State(), n)
        decreases |lru|
      {
        if lru == [] {
          size := size - n;
          return false;
        }
        var entry := lru[|lru| - 1];
        lru := lru[..|lru| - 1];
        files := files - {entry.key};
        size := size - entry.size;
      }
      return true;
    }

    method Delete(key: string)
      modifies this
      ensures State() == M.Delete(old(State()), key)
    {
      var i := Find(key);
      if i == |lru| {
        return;
      }
      var entry := lru[i];
      lru := lru[..i] + lru[i + 1..];
      files := files - {entry.key};
      var _ := Reserve(0 - entry.size);
    }

    method Get(key: string, openOK: bool) returns (hit: bool)
      modifies this
      ensures (State(), hit) == M.Get(old(State()), key, openOK)
    {
      var i := Find(key);
      if i == |lru| {
        return false;
      }
      lru := [lru[i]] + lru[..i] + lru[i + 1..];
      if !openOK {
        Delete(key);
      }
      return true;
    }

    method Put(key: string, how: Creation) returns (w: CacheWriter?)
      modifies this
      ensures w != null ==> fresh(w) && w.parent == this
      ensures (State(), if w == null then None else Some(w.State())) == M.Put(old(State()), key, how)
    {
      var exists_ := key in pending;
      pending := pending + {key};
      if exists_ {
        assert pending == old(pending);
        return null;
      }
      var created := how == First;
      if how.Exists? {
        files := files - {key};
        created := how.again;
      }
      if !created {
        Unpending(key);
        assert pending == old(pending);
        return null;
      }
      files := files - {key};
      assert files == old(files) - {key};
      w := new CacheWriter(this, key);
    }

    method Unpending(key: string)
      modifies `pending
      ensures State() == M.Unpending(old(State()), key)
    {
      pending := pending - {key};
    }

    method Discard(w: CacheWriter)
      modifies this
      ensures State() == M.Discard(old(State()), old(w.State()))
    {
      Delete(w.key);
      Unpending(w.key);
      var _ := Reserve(0 - w.size);
    }

    method Save(w: CacheWriter)
      modifies this
      ensures State() == M.Save(old(State()), old(w.State()))
    {
      lru := [Entry(w.key, w.size)] + lru;
      Unpending(w.key);
    }

    /** Scan over the keys the store lists: sizes, and which keys open, are the store's. */
    method Scan(keys: seq<string>, sizes: string -> nat, openOK: string -> bool)
      modifies this
      ensures State() == ScanAll(old(State()), keys, sizes, openOK)
    {
      for i := 0 to |keys|
        invariant ScanAll(old(State()), keys, sizes, openOK) == ScanAll(State(), keys[i..], sizes, openOK)
      {
        assert keys[i..][1..] == keys[i + 1..];
        var known := Contains(keys[i]);
        if !known && openOK(keys[i]) {
          var ok := Reserve(sizes(keys[i]));
          if ok {
            lru := [Entry(keys[i], sizes(keys[i]))] + lru;
          } else {
            files := files - {keys[i]};
          }
        }
      }
    }
  }

  function ScanAll(c: Cache, keys: seq<string>, sizes: string -> nat, openOK: string -> bool): Cache
    decreases |keys|
  {
    if keys == [] then c
    else ScanAll(ScanKey(c, keys[0], sizes(keys[0]), openOK(keys[0])), keys[1..], sizes, openOK)
  }

  class CacheWriter {
    const parent: StoreLRU
    const key: string
    var size: nat
    var deleteOnClose: bool

    ghost function State(): M.Writer
      reads this
    {
      M.Writer(key, size, deleteOnClose)
    }

    constructor (parent: StoreLRU, key: string)
      ensures this.parent == parent && State() == M.Writer(key, 0, false)
    {
      this.parent, this.key, size, deleteOnClose := parent, key, 0, false;
    }

    /** Write n bytes; the store takes x of them, all unless it fails. */
    method Write(n: nat, x: nat) returns (ok: bool)
      modifies this, parent
      ensures (parent.State(), State(), ok) == M.Write(old(parent.State()), old(State()), n, x)
    {
      ok := parent.Reserve(n);
      if !ok {
        deleteOnClose := true;
        return;
      }
      size := size + x;
      if x != n {
        deleteOnClose := true;
      }
      ok := x == n;
    }

    method Close(closeOK: bool)
      modifies parent
      ensures parent.State() == M.Close(old(parent.State()), old(State()), closeOK)
    {
      if closeOK {
        parent.files := parent.files + {key};
      }
      if !closeOK || deleteOnClose {
        parent.Discard(this);
      } else {
        parent.Save(this);
      }
    }
  }
}
