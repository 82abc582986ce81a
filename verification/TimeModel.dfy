/** The time-based cache of blobcache/timebased.go: a lazily maintained expiry list stands for a scan of
    all items. Times are integers read from a clock that never goes back. */
module TimeModel {

  datatype Item = Item(key: string, size: nat, expires: int)

  datatype Cache = Cache(ttl: int, items: map<string, Item>, list: seq<Item>, size: int, pending: set<string>)

  // ---- the operations

  function Delete(c: Cache, key: string): Cache {
    if key !in c.items then c
    else c.(items := c.items - {key}, size := c.size - c.items[key].size)
  }

  function Get(c: Cache, key: string, now: int, openOK: bool): Cache {
    if key !in c.items then c
    else
      var c1 := c.(items := c.items[key := c.items[key].(expires := now + c.ttl)]);
      if openOK then c1 else Delete(c1, key)
  }

  function AddEntry(c: Cache, key: string, size: nat, now: int): Cache {
    var item := Item(key, size, now + c.ttl);
    c.(items := c.items[key := item], list := c.list + [item], size := c.size + size)
  }

  /** False when the key is being written already or cannot be created. */
  function Put(c: Cache, key: string, createOK: bool): (Cache, bool) {
    if key in c.pending || !createOK then (c, false) else (c.(pending := c.pending + {key}), true)
  }

  function Unpending(c: Cache, key: string): Cache {
    c.(pending := c.pending - {key})
  }

  /** writer.Close; nothing was reserved, so a discarded write leaves no trace. */
  function Close(c: Cache, key: string, size: nat, good: bool, now: int): Cache {
    Unpending(if good then AddEntry(c, key, size, now) else c, key)
  }

  /** readIndexFile over the values of the decoded map, in the order it yields them. */
  function Load(c: Cache, vs: seq<Item>): Cache
    decreases |vs|
  {
    if vs == [] then c
    else
      var v := vs[0];
      Load(if v.key in c.items then c
           else c.(items := c.items[v.key := v], list := c.list + [v], size := c.size + v.size), vs[1..])
  }

  /** scanstore, for one key the store lists. */
  function ScanKey(c: Cache, key: string, size: nat, openOK: bool, now: int): Cache {
    if key == "ITEM-LIST" || key in c.items || !openOK then c else AddEntry(c, key, size, now)
  }

  predicate Sorted(s: seq<Item>) {
    forall i, j :: 0 <= i < j < |s| ==> s[i].expires <= s[j].expires
  }

  /** The loop of expireKeys. It ranges over `s`, the sorted list as it was when the loop began, while
      c.list, which starts as s, is appended to and finally cut. */
  function ExpireFrom(c: Cache, s: seq<Item>, i: nat, now: int): Cache
    requires i <= |s| && |s| <= |c.list|
    decreases |s| - i
  {
    if i == |s| then c
    else if s[i].expires > now then c.(list := c.list[i..])
    else
      var key := s[i].key;
      var c1 :=
        if key !in c.items then c
        else if c.items[key].expires > now then c.(list := c.list + [c.items[key]])
        else Delete(c, key);
      ExpireFrom(c1, s, i + 1, now)
  }

  /** expireKeys; `s` is what sort.Sort made of the list. */
  function ExpireKeys(c: Cache, s: seq<Item>, now: int): Cache {
    ExpireFrom(c.(list := s), s, 0, now)
  }

  // ---- the invariant

  /** Some entry of l tells expireKeys in time to look at this item. */
  ghost predicate CoveredBy(l: seq<Item>, item: Item) {
    exists e :: e in l && e.key == item.key && e.expires <= item.expires
  }

  ghost predicate Covered(c: Cache) {
    forall k :: k in c.items ==> c.items[k].key == k && CoveredBy(c.list, c.items[k])
  }

  ghost predicate Bounded(c: Cache, now: int) {
    forall k :: k in c.items ==> c.items[k].expires <= now + c.ttl
  }

  /** What expireKeys is for. */
  ghost function Unexpired(items: map<string, Item>, now: int): map<string, Item> {
    map k | k in items && items[k].expires > now :: items[k]
  }

  // ---- expireKeys

  /** In the loop: items not due are all there, and items still listed are covered by what is ahead of
      position i or has been appended. */
  ghost predicate Expiring(c0: Cache, c: Cache, s: seq<Item>, i: nat, now: int) {
    && i <= |s| <= |c.list| && c.list[..|s|] == s
    && c.ttl == c0.ttl && c.pending == c0.pending
    && (forall k :: k in c.items ==> k in c0.items && c.items[k] == c0.items[k])
    && (forall k :: k in c0.items && c0.items[k].expires > now ==> k in c.items)
    && (forall k :: k in c.items ==> c.items[k].key == k && CoveredBy(c.list[i..], c.items[k]))
  }

  lemma CoveredMono(a: seq<Item>, b: seq<Item>, item: Item)
    requires CoveredBy(a, item) && forall e :: e in a ==> e in b
    ensures CoveredBy(b, item)
  {
  }

  lemma CoveredAfter(l: seq<Item>, i: nat, item: Item)
    requires i < |l| && CoveredBy(l[i..], item) && l[i].key != item.key
    ensures CoveredBy(l[i + 1..], item)
  {
    var e :| e in l[i..] && e.key == item.key && e.expires <= item.expires;
    assert l[i..] == [l[i]] + l[i + 1..];
  }

  lemma ExpireStep(c0: Cache, c: Cache, s: seq<Item>, i: nat, now: int)
    requires Expiring(c0, c, s, i, now) && i < |s| && s[i].expires <= now
    ensures var key := s[i].key;
      var c1 := if key !in c.items then c
                else if c.items[key].expires > now then c.(list := c.list + [c.items[key]])
                else Delete(c, key);
      Expiring(c0, c1, s, i + 1, now)
  {
    var key := s[i].key;
    var c1 := if key !in c.items then c
              else if c.items[key].expires > now then c.(list := c.list + [c.items[key]])
              else Delete(c, key);
    assert c1.list[..|s|] == s;
    forall k | k in c1.items
      ensures CoveredBy(c1.list[i + 1..], c1.items[k])
    {
      if k == key {
        var last := |c1.list| - 1;
        assert c1.list[last] == c1.items[k] && c1.list[i + 1..][last - i - 1] == c1.items[k];
      } else {
        assert c.list[i] == s[i];
        CoveredAfter(c.list, i, c.items[k]);
        CoveredMono(c.list[i + 1..], c1.list[i + 1..], c.items[k]);
      }
    }
  }

  lemma NothingDue(c0: Cache, c: Cache, s: seq<Item>, i: nat, now: int)
    requires Expiring(c0, c, s, i, now) && Sorted(s)
    requires i < |s| ==> s[i].expires > now
    requires forall j :: |s| <= j < |c.list| ==> c.list[j].expires > now
    ensures c.items == Unexpired(c0.items, now)
  {
    forall k | k in c.items
      ensures c.items[k].expires > now
    {
      var e :| e in c.list[i..] && e.key == c.items[k].key && e.expires <= c.items[k].expires;
      var j :| 0 <= j < |c.list[i..]| && c.list[i..][j] == e;
      assert c.list[i + j] == e;
      if i + j < |s| { assert s[i + j] == e; }
    }
  }

  lemma {:induction false} ExpireFromExact(c0: Cache, c: Cache, s: seq<Item>, i: nat, now: int)
    requires Expiring(c0, c, s, i, now) && Sorted(s)
    requires forall j :: |s| <= j < |c.list| ==> c.list[j].expires > now
    ensures var r := ExpireFrom(c, s, i, now);
      r.items == Unexpired(c0.items, now) && Covered(r) && r.ttl == c0.ttl && r.pending == c0.pending
    decreases |s| - i
  {
    if i == |s| || s[i].expires > now {
      NothingDue(c0, c, s, i, now);
      forall k | k in c.items
        ensures CoveredBy(c.list, c.items[k])
      {
        CoveredMono(c.list[i..], c.list, c.items[k]);
      }
    } else {
      ExpireStep(c0, c, s, i, now);
      var key := s[i].key;
      var c1 := if key !in c.items then c
                else if c.items[key].expires > now then c.(list := c.list + [c.items[key]])
                else Delete(c, key);
      ExpireFromExact(c0, c1, s, i + 1, now);
    }
  }

  /** Exact expiry: with every item covered, expireKeys leaves exactly the items that expire after
      `now`, unchanged and covered again, whatever order sort.Sort gives to equal times. */
  lemma ExpireExact(c: Cache, s: seq<Item>, now: int)
    requires Covered(c) && Sorted(s) && multiset(s) == multiset(c.list)
    ensures var r := ExpireKeys(c, s, now); r.items == Unexpired(c.items, now) && Covered(r) && r.ttl == c.ttl
  {
    var c1 := c.(list := s);
    assert s[0..] == s && s[..|s|] == s;
    forall k | k in c1.items
      ensures CoveredBy(s, c1.items[k])
    {
      var e :| e in c.list && e.key == c.items[k].key && e.expires <= c.items[k].expires;
      assert e in multiset(c.list);
    }
    ExpireFromExact(c1, c1, s, 0, now);
  }

  // ---- runs

  datatype Event =
    | DoGet(key: string, openOK: bool)
    | DoPut(key: string, createOK: bool)
    | DoClose(key: string, size: nat, good: bool)
    | DoDelete(key: string)
    | DoLoad(vs: seq<Item>)
    | DoScan(key: string, size: nat, openOK: bool)
    | DoExpire(sorted: seq<Item>)

  function Step(c: Cache, e: Event, now: int): Cache {
    match e
    case DoGet(key, openOK) => Get(c, key, now, openOK)
    case DoPut(key, createOK) => Put(c, key, createOK).0
    case DoClose(key, size, good) => Close(c, key, size, good, now)
    case DoDelete(key) => Delete(c, key)
    case DoLoad(vs) => Load(c, vs)
    case DoScan(key, size, openOK) => ScanKey(c, key, size, openOK, now)
    case DoExpire(s) => ExpireKeys(c, s, now)
  }

  /** Loaded expiry times lie at most ttl ahead; sorting sorts. */
  ghost predicate Allowed(c: Cache, e: Event, now: int) {
    match e
    case DoLoad(vs) => forall v :: v in vs ==> v.expires <= now + c.ttl
    case DoExpire(s) => Sorted(s) && multiset(s) == multiset(c.list)
    case _ => true
  }

  lemma CoveredAppend(c: Cache, item: Item)
    requires Covered(c)
    ensures Covered(c.(items := c.items[item.key := item], list := c.list + [item]))
  {
    var d := c.(items := c.items[item.key := item], list := c.list + [item]);
    forall k | k in d.items
      ensures d.items[k].key == k && CoveredBy(d.list, d.items[k])
    {
      if k == item.key { assert item in d.list; } else { CoveredMono(c.list, d.list, c.items[k]); }
    }
  }

  lemma {:induction false} LoadCovered(c: Cache, vs: seq<Item>, now: int)
    requires Covered(c) && Bounded(c, now) && forall v :: v in vs ==> v.expires <= now + c.ttl
    ensures Covered(Load(c, vs)) && Bounded(Load(c, vs), now) && Load(c, vs).ttl == c.ttl
    decreases |vs|
  {
    if vs != [] {
      var v := vs[0];
      CoveredAppend(c, v);
      var c1 := if v.key in c.items then c
                else c.(items := c.items[v.key := v], list := c.list + [v], size := c.size + v.size);
      assert forall w :: w in vs[1..] ==> w in vs;
      LoadCovered(c1, vs[1..], now);
    }
  }

  lemma GetCovered(c: Cache, key: string, before: int, now: int, openOK: bool)
    requires Covered(c) && Bounded(c, before) && before <= now
    ensures Covered(Get(c, key, now, openOK)) && Bounded(Get(c, key, now, openOK), now)
  {
    var d := Get(c, key, now, openOK);
    forall k | k in d.items
      ensures d.items[k].key == k && CoveredBy(d.list, d.items[k])
    {
      var e :| e in c.list && e.key == k && e.expires <= c.items[k].expires;
      assert e.expires <= d.items[k].expires;
    }
  }

  lemma StepCovered(c: Cache, e: Event, before: int, now: int)
    requires Covered(c) && Bounded(c, before) && before <= now && Allowed(c, e, now)
    ensures Covered(Step(c, e, now)) && Bounded(Step(c, e, now), now) && Step(c, e, now).ttl == c.ttl
  {
    match e
    case DoGet(key, openOK) => GetCovered(c, key, before, now, openOK);
    case DoPut(key, createOK) =>
    case DoClose(key, size, good) => CoveredAppend(c, Item(key, size, now + c.ttl));
    case DoDelete(key) =>
    case DoLoad(vs) => LoadCovered(c, vs, now);
    case DoScan(key, size, openOK) => CoveredAppend(c, Item(key, size, now + c.ttl));
    case DoExpire(s) => ExpireExact(c, s, now);
  }

  /** A run: the cache after each event, with the clock reading at it. */
  ghost predicate IsRun(ttl: int, cs: seq<Cache>, es: seq<Event>, times: seq<int>) {
    && |cs| == |es| + 1 == |times| && cs[0] == Cache(ttl, map[], [], 0, {})
    && (forall i :: 0 <= i < |es| ==> times[i] <= times[i + 1])
    && (forall i :: 0 <= i < |es| ==>
          Allowed(cs[i], es[i], times[i + 1]) && cs[i + 1] == Step(cs[i], es[i], times[i + 1]))
  }

  lemma {:induction false} RunCovered(ttl: int, cs: seq<Cache>, es: seq<Event>, times: seq<int>, i: nat)
    requires IsRun(ttl, cs, es, times) && i < |cs|
    ensures Covered(cs[i]) && Bounded(cs[i], times[i]) && cs[i].ttl == ttl
  {
    if i > 0 {
      RunCovered(ttl, cs, es, times, i - 1);
      assert cs[i - 1 + 1] == Step(cs[i - 1], es[i - 1], times[i - 1 + 1]);
      StepCovered(cs[i - 1], es[i - 1], times[i - 1], times[i]);
    }
  }

  /** Over every run: each cached key has a list entry no later than its true expiry, and an expireKeys
      removes exactly the items that are due. */
  lemma RunExpiresExactly(ttl: int, cs: seq<Cache>, es: seq<Event>, times: seq<int>, i: nat)
    requires IsRun(ttl, cs, es, times) && i < |es| && es[i].DoExpire?
    ensures cs[i + 1].items == Unexpired(cs[i].items, times[i + 1])
    ensures forall k :: k in cs[i].items ==>
      exists e :: e in cs[i].list && e.key == k && e.expires <= cs[i].items[k].expires
  {
    RunCovered(ttl, cs, es, times, i);
    assert cs[i + 1] == Step(cs[i], es[i], times[i + 1]) && Allowed(cs[i], es[i], times[i + 1]);
    ExpireExact(cs[i], es[i].sorted, times[i + 1]);
    forall k | k in cs[i].items
      ensures exists e :: e in cs[i].list && e.key == k && e.expires <= cs[i].items[k].expires
    {
      assert CoveredBy(cs[i].list, cs[i].items[k]);
    }
  }

  // ---- size

  ghost function Total(items: map<string, Item>): nat
    decreases |items|
  {
    if items == map[] then 0
    else
      var k :| k in items;
      items[k].size + Total(items - {k})
  }

  lemma {:induction false} TotalRemove(items: map<string, Item>, k: string)
    requires k in items
    ensures Total(items) == items[k].size + Total(items - {k})
    decreases |items|
  {
    var j :| j in items && Total(items) == items[j].size + Total(items - {j});
    if j != k {
      TotalRemove(items - {j}, k);
      TotalRemove(items - {k}, j);
      assert items - {j} - {k} == items - {k} - {j};
    }
  }

  lemma TotalAdd(items: map<string, Item>, k: string, item: Item)
    ensures Total(items[k := item]) == item.size + Total(items - {k})
  {
    TotalRemove(items[k := item], k);
    assert items[k := item] - {k} == items - {k};
  }

  /** By how much the recorded size is more than the items' sizes. */
  ghost function Excess(c: Cache): int {
    c.size - Total(c.items)
  }

  lemma DeleteSize(c: Cache, key: string)
    ensures Excess(Delete(c, key)) == Excess(c)
  {
    if key in c.items { TotalRemove(c.items, key); }
  }

  lemma GetSize(c: Cache, key: string, now: int, openOK: bool)
    ensures Excess(Get(c, key, now, openOK)) == Excess(c)
  {
    if key in c.items {
      var item := c.items[key].(expires := now + c.ttl);
      TotalRemove(c.items, key);
      TotalAdd(c.items, key, item);
      DeleteSize(c.(items := c.items[key := item]), key);
    }
  }

  /** An item entered over another one: the size of the one that was there stays counted. */
  lemma EnterSize(c: Cache, d: Cache, item: Item)
    requires d.items == c.items[item.key := item] && d.size == c.size + item.size
    ensures Excess(d) == Excess(c) + if item.key in c.items then c.items[item.key].size else 0
  {
    TotalAdd(c.items, item.key, item);
    if item.key in c.items { TotalRemove(c.items, item.key); } else { assert c.items - {item.key} == c.items; }
  }

  lemma {:induction false} LoadSize(c: Cache, vs: seq<Item>)
    ensures Excess(Load(c, vs)) == Excess(c)
    decreases |vs|
  {
    if vs != [] {
      var v := vs[0];
      var d := c.(items := c.items[v.key := v], list := c.list + [v], size := c.size + v.size);
      EnterSize(c, d, v);
      LoadSize(if v.key in c.items then c else d, vs[1..]);
    }
  }

  lemma {:induction false} ExpireSize(c: Cache, s: seq<Item>, i: nat, now: int)
    requires i <= |s| <= |c.list|
    ensures Excess(ExpireFrom(c, s, i, now)) == Excess(c)
    decreases |s| - i
  {
    if i < |s| && s[i].expires <= now {
      var key := s[i].key;
      DeleteSize(c, key);
      var c1 := if key !in c.items then c
                else if c.items[key].expires > now then c.(list := c.list + [c.items[key]])
                else Delete(c, key);
      ExpireSize(c1, s, i + 1, now);
    }
  }

  /** The bytes an event leaves counted twice: those of the resident entry over which a good writer is closed, which
      is not deleted first. */
  function CountedTwice(c: Cache, e: Event): nat {
    if e.DoClose? && e.good && e.key in c.items then c.items[e.key].size else 0
  }

  lemma SizeKept(c: Cache, e: Event, now: int)
    ensures Excess(Step(c, e, now)) == Excess(c) + CountedTwice(c, e)
  {
    match e
    case DoGet(key, openOK) => GetSize(c, key, now, openOK);
    case DoPut(key, createOK) =>
    case DoClose(key, size, good) => EnterSize(c, AddEntry(c, key, size, now), Item(key, size, now + c.ttl));
    case DoDelete(key) => DeleteSize(c, key);
    case DoLoad(vs) => LoadSize(c, vs);
    case DoScan(key, size, openOK) => EnterSize(c, AddEntry(c, key, size, now), Item(key, size, now + c.ttl));
    case DoExpire(s) => ExpireSize(c.(list := s), s, 0, now);
  }

  /** All the bytes counted twice by the first j events. */
  function AllCountedTwice(cs: seq<Cache>, es: seq<Event>, j: nat): nat
    requires j <= |es| <= |cs|
  {
    if j == 0 then 0 else AllCountedTwice(cs, es, j - 1) + CountedTwice(cs[j - 1], es[j - 1])
  }

  /** The recorded size is off by exactly those bytes: no later event puts it right, and it is right after j events if
      and only if none of them closed a good writer over a resident entry that had bytes. */
  lemma {:induction false} SizeRightIff(ttl: int, cs: seq<Cache>, es: seq<Event>, times: seq<int>, j: nat)
    requires IsRun(ttl, cs, es, times) && j <= |es|
    ensures cs[j].size == Total(cs[j].items) + AllCountedTwice(cs, es, j)
    ensures cs[j].size == Total(cs[j].items) <==> forall i :: 0 <= i < j ==> CountedTwice(cs[i], es[i]) == 0
  {
    if j > 0 {
      SizeRightIff(ttl, cs, es, times, j - 1);
      assert cs[j - 1 + 1] == Step(cs[j - 1], es[j - 1], times[j - 1 + 1]);
      SizeKept(cs[j - 1], es[j - 1], times[j]);
    }
  }
}
