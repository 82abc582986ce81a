/** TimeBased as an object, against the functions of TimeModel. */
module TimeObjects {
  import M = TimeModel
  import opened TimeModel

  lemma Inserted(s: seq<Item>, j: nat, x: Item)
    requires Sorted(s) && j <= |s|
    requires forall p :: 0 <= p < j ==> s[p].expires <= x.expires
    requires forall p :: j <= p < |s| ==> x.expires <= s[p].expires
    ensures Sorted(s[..j] + [x] + s[j..])
    ensures multiset(s[..j] + [x] + s[j..]) == multiset(s) + multiset{x}
  {
    assert s == s[..j] + s[j..];
    var r := s[..j] + [x] + s[j..];
    assert forall p :: 0 <= p < |r| ==> r[p] == if p < j then s[p] else if p == j then x else s[p - 1];
  }

  /** Where x goes in a sorted list. */
  method Position(s: seq<Item>, x: Item) returns (j: nat)
    requires Sorted(s)
    ensures j <= |s|
    ensures forall p :: 0 <= p < j ==> s[p].expires <= x.expires
    ensures forall p :: j <= p < |s| ==> x.expires <= s[p].expires
  {
    j := |s|;
    while j > 0 && s[j - 1].expires > x.expires
      invariant j <= |s|
      invariant forall p :: j <= p < |s| ==> x.expires <= s[p].expires
    {
      j := j - 1;
    }
  }

  /** sort.Sort(byExpires(...)): some sorted rearrangement. */
  method SortByExpires(list: seq<Item>) returns (s: seq<Item>)
    ensures Sorted(s) && multiset(s) == multiset(list)
  {
    s := [];
    for i := 0 to |list|
      invariant Sorted(s) && multiset(s) == multiset(list[..i])
    {
      var j := Position(s, list[i]);
      Inserted(s, j, list[i]);
      assert list[..i + 1] == list[..i] + [list[i]];
      s := s[..j] + [list[i]] + s[j..];
    }
    assert list[..|list|] == list;
  }

  class TimeBased {
    const ttl: int
    var size: int
    var items: map<string, Item>
    var pending: set<string>
    var expireList: seq<Item>

    ghost function State(): Cache
      reads this
    {
      Cache(ttl, items, expireList, size, pending)
    }

    constructor (ttl: int)
      ensures State() == Cache(ttl, map[], [], 0, {})
    {
      this.ttl, size, items, pending, expireList := ttl, 0, map[], {}, [];
    }

    method Get(key: string, now: int, openOK: bool) returns (hit: bool)
      modifies this
      ensures State() == M.Get(old(State()), key, now, openOK) && hit == (key in old(items))
    {
      if key !in items {
        return false;
      }
      items := items[key := items[key].(expires := now + ttl)];
      if !openOK {
        Delete(key);
      }
      return true;
    }

    method Put(key: string, createOK: bool) returns (ok: bool)
      modifies `pending
      ensures (State(), ok) == M.Put(old(State()), key, createOK)
    {
      var exists_ := key in pending;
      pending := pending + {key};
      if exists_ {
        assert pending == old(pending);
        return false;
      }
      if !createOK {
        pending := pending - {key};
        assert pending == old(pending);
        return false;
      }
      return true;
    }

    method AddEntry(key: string, n: nat, now: int)
      modifies this
      ensures State() == M.AddEntry(old(State()), key, n, now)
    {
      var entry := Item(key, n, now + ttl);
      items := items[key := entry];
      expireList := expireList + [entry];
      size := size + n;
    }

    /** writer.Close: save a good write, drop a bad one. */
    method CloseWriter(key: string, n: nat, good: bool, now: int)
      modifies this
      ensures State() == M.Close(old(State()), key, n, good, now)
    {
      if good {
        AddEntry(key, n, now);
      }
      pending := pending - {key};
    }

    method Delete(key: string)
      modifies `items, `size
      ensures State() == M.Delete(old(State()), key)
    {
      if key in items {
        size := size - items[key].size;
        items := items - {key};
      }
    }

    method ReadIndexFile(vs: seq<Item>)
      modifies this
      ensures State() == Load(old(State()), vs)
    {
      for i := 0 to |vs|
        invariant Load(old(State()), vs) == Load(State(), vs[i..])
      {
        assert vs[i..][1..] == vs[i + 1..];
        var v := vs[i];
        if v.key !in items {
          items := items[v.key := v];
          expireList := expireList + [v];
          size := size + v.size;
        }
      }
    }

    method ScanKey(key: string, n: nat, openOK: bool, now: int)
      modifies this
      ensures State() == M.ScanKey(old(State()), key, n, openOK, now)
    {
      if key == "ITEM-LIST" || key in items || !openOK {
        return;
      }
      AddEntry(key, n, now);
    }

    /** The list is sorted, appended to and finally cut while the loop walks its first n entries. */
    method ExpireKeys(now: int) returns (ghost s: seq<Item>)
      modifies this
      ensures Sorted(s) && multiset(s) == multiset(old(expireList))
      ensures State() == M.ExpireKeys(old(State()), s, now)
      ensures Covered(old(State())) ==> items == Unexpired(old(items), now) && Covered(State())
    {
      expireList := SortByExpires(expireList);
      s := expireList;
      if Covered(old(State())) { ExpireExact(old(State()), s, now); }
      var n := |expireList|;
      var i := 0;
      while i < n
        invariant i <= n == |s| <= |expireList| && expireList[..n] == s
        invariant M.ExpireKeys(old(State()), s, now) == ExpireFrom(State(), s, i, now)
      {
        var item := expireList[i];
        assert item == expireList[..n][i] == s[i];
        if item.expires > now {
          expireList := expireList[i..];
          return;
        }
        if item.key in items {
          var current := items[item.key];
          if current.expires > now {
            expireList := expireList + [current];
          } else {
            Delete(item.key);
          }
        }
        i := i + 1;
      }
    }
  }
}
