/** The LRU cache of blobcache/blobcache.go and its writers (blobcache/writer.go), one method call at a
    time: space accounting with many open writers, recency order, and minimal eviction. */
module LruModel {
  import opened Prelude

  datatype Entry = Entry(key: string, size: nat)

  /** A cache; the front of `lru` is the most recently used entry. `files` are the keys the backing
      store holds. Store deletions are taken to succeed. */
  datatype Cache = Cache(size: int, maxSize: int, lru: seq<Entry>, pending: set<string>, files: set<string>)

  /** An open writer: the bytes it has reserved so far. */
  datatype Writer = Writer(key: string, size: nat, deleteOnClose: bool)

  datatype Reserved = Reserved(cache: Cache, ok: bool)

  // ---- the operations

  /** The position of the first entry with this key, |lru| when there is none. */
  function Find(lru: seq<Entry>, key: string): (i: nat)
    ensures i <= |lru|
    ensures i < |lru| ==> lru[i].key == key
    ensures forall j :: 0 <= j < i ==> lru[j].key != key
  {
    FindFrom(lru, key, 0)
  }

  function FindFrom(lru: seq<Entry>, key: string, from: nat): (i: nat)
    requires from <= |lru|
    ensures from <= i <= |lru|
    ensures i < |lru| ==> lru[i].key == key
    ensures forall j :: from <= j < i ==> lru[j].key != key
    decreases |lru| - from
  {
    if from == |lru| || lru[from].key == key then from else FindFrom(lru, key, from + 1)
  }

  predicate Contains(c: Cache, key: string) {
    Find(c.lru, key) < |c.lru|
  }

  /** Removing the least recently used entry. */
  function DropLast(c: Cache): Cache
    requires c.lru != []
  {
    var last := |c.lru| - 1;
    c.(lru := c.lru[..last], files := c.files - {c.lru[last].key}, size := c.size - c.lru[last].size)
  }

  /** The loop of reserve, `size` bytes having been added already. */
  function Evict(c: Cache, size: int): Reserved
    decreases |c.lru|
  {
    if c.size <= c.maxSize then Reserved(c, true)
    else if c.lru == [] then Reserved(c.(size := c.size - size), false)
    else Evict(DropLast(c), size)
  }

  function Reserve(c: Cache, size: int): Reserved {
    Evict(c.(size := c.size + size), size)
  }

  function Link(c: Cache, e: Entry): Cache {
    c.(lru := [e] + c.lru)
  }

  function ToFront(lru: seq<Entry>, i: nat): seq<Entry>
    requires i < |lru|
  {
    [lru[i]] + lru[..i] + lru[i + 1..]
  }

  function Without(lru: seq<Entry>, i: nat): seq<Entry>
    requires i < |lru|
  {
    lru[..i] + lru[i + 1..]
  }

  function Delete(c: Cache, key: string): Cache {
    var i := Find(c.lru, key);
    if i == |c.lru| then c
    else
      Reserve(c.(lru := Without(c.lru, i), files := c.files - {key}), 0 - c.lru[i].size).cache
  }

  /** Get; whether the store can open the key is a parameter. True when the entry was there. */
  function Get(c: Cache, key: string, openOK: bool): (Cache, bool) {
    var i := Find(c.lru, key);
    if i == |c.lru| then (c, false)
    else
      var c1 := c.(lru := ToFront(c.lru, i));
      (if openOK then c1 else Delete(c1, key), true)
  }

  /** How the store answers Put's Create: at once, with an error, or that the key exists, in which case it
      is deleted and created again. */
  datatype Creation = First | Fails | Exists(again: bool)

  /** Put; None when the key is being written already or the store cannot create it. */
  function Put(c: Cache, key: string, how: Creation): (Cache, Option<Writer>) {
    if key in c.pending then (c, None)
    else match how
      case Fails => (c, None)
      case Exists(false) => (c.(files := c.files - {key}), None)
      case _ => (c.(pending := c.pending + {key}, files := c.files - {key}), Some(Writer(key, 0, false)))
  }

  /** writer.Write of n bytes, of which the store takes x (and fails if that is not all). */
  function Write(c: Cache, w: Writer, n: nat, x: nat): (Cache, Writer, bool) {
    var r := Reserve(c, n);
    if !r.ok then (r.cache, w.(deleteOnClose := true), false)
    else (r.cache, w.(size := w.size + x, deleteOnClose := w.deleteOnClose || x != n), x == n)
  }

  function Unpending(c: Cache, key: string): Cache {
    c.(pending := c.pending - {key})
  }

  function Discard(c: Cache, w: Writer): Cache {
    Reserve(Unpending(Delete(c, w.key), w.key), 0 - w.size).cache
  }

  function Save(c: Cache, w: Writer): Cache {
    Unpending(Link(c, Entry(w.key, w.size)), w.key)
  }

  /** writer.Close; a file the store closes is there from then on, also when it is then discarded. */
  function Close(c: Cache, w: Writer, closeOK: bool): Cache {
    var c1 := if closeOK then c.(files := c.files + {w.key}) else c;
    if !closeOK || w.deleteOnClose then Discard(c1, w) else Save(c1, w)
  }

  /** One key of Scan, found in the store with this size. */
  function ScanKey(c: Cache, key: string, size: nat, openOK: bool): Cache {
    if Contains(c, key) || !openOK then c
    else
      var r := Reserve(c, size);
      if r.ok then Link(r.cache, Entry(key, size)) else r.cache.(files := r.cache.files - {key})
  }

  // ---- accounting

  function Sum(lru: seq<Entry>): nat {
    if lru == [] then 0 else Sum(lru[..|lru| - 1]) + lru[|lru| - 1].size
  }

  function Held(open: seq<Writer>): nat {
    if open == [] then 0 else Held(open[..|open| - 1]) + open[|open| - 1].size
  }

  lemma {:induction false} SumConcat(a: seq<Entry>, b: seq<Entry>)
    ensures Sum(a + b) == Sum(a) + Sum(b)
  {
    if b == [] {
      assert a + b == a;
    } else {
      assert (a + b)[..|a + b| - 1] == a + b[..|b| - 1];
      SumConcat(a, b[..|b| - 1]);
    }
  }

  lemma {:induction false} HeldConcat(a: seq<Writer>, b: seq<Writer>)
    ensures Held(a + b) == Held(a) + Held(b)
  {
    if b == [] {
      assert a + b == a;
    } else {
      assert (a + b)[..|a + b| - 1] == a + b[..|b| - 1];
      HeldConcat(a, b[..|b| - 1]);
    }
  }

  lemma SumSplit(lru: seq<Entry>, i: nat)
    requires i < |lru|
    ensures Sum(lru) == Sum(lru[..i]) + lru[i].size + Sum(lru[i + 1..])
  {
    assert lru == lru[..i + 1] + lru[i + 1..];
    SumConcat(lru[..i + 1], lru[i + 1..]);
    assert lru[..i + 1][..i] == lru[..i];
  }

  lemma SumWithout(lru: seq<Entry>, i: nat)
    requires i < |lru|
    ensures Sum(Without(lru, i)) == Sum(lru) - lru[i].size
  {
    SumSplit(lru, i);
    SumConcat(lru[..i], lru[i + 1..]);
  }

  lemma HeldSplit(open: seq<Writer>, i: nat)
    requires i < |open|
    ensures Held(open) == Held(open[..i]) + open[i].size + Held(open[i + 1..])
  {
    assert open == open[..i + 1] + open[i + 1..];
    HeldConcat(open[..i + 1], open[i + 1..]);
    assert open[..i + 1][..i] == open[..i];
  }

  lemma HeldUpdate(open: seq<Writer>, i: nat, w: Writer)
    requires i < |open|
    ensures Held(open[i := w]) == Held(open) - open[i].size + w.size
    ensures Held(open[..i] + open[i + 1..]) == Held(open) - open[i].size
  {
    HeldSplit(open, i);
    HeldSplit(open[i := w], i);
    assert open[i := w][..i] == open[..i] && open[i := w][i + 1..] == open[i + 1..];
    HeldConcat(open[..i], open[i + 1..]);
  }

  /** The recorded size is the entries plus what open writers have reserved, within the limit. */
  ghost predicate Accounted(c: Cache, held: nat) {
    c.size == Sum(c.lru) + held <= c.maxSize
  }

  /** The eviction loop stops with the first k entries of the list; `need` is what must fit beside them. */
  ghost predicate Kept(c: Cache, r: Reserved, size: int, need: int, k: nat) {
    && k <= |c.lru|
    && r.cache.maxSize == c.maxSize && r.cache.pending == c.pending && r.cache.files <= c.files
    && r.cache.lru == c.lru[..k] && r.cache.size == Sum(c.lru[..k]) + need - (if r.ok then 0 else size)
    && (r.ok ==> Sum(c.lru[..k]) + need <= c.maxSize)
    && (k < |c.lru| ==> Sum(c.lru[..k + 1]) + need > c.maxSize)
    && (!r.ok ==> k == 0 && need > c.maxSize)
  }

  lemma KeptBefore(c: Cache, r: Reserved, size: int, need: int, k: nat)
    requires c.lru != [] && c.size == Sum(c.lru) + need > c.maxSize
    requires Kept(DropLast(c), r, size, need, k)
    ensures Kept(c, r, size, need, k)
  {
    var last := |c.lru| - 1;
    assert c.lru[..last][..k] == c.lru[..k];
    if k < last { assert c.lru[..last][..k + 1] == c.lru[..k + 1]; } else { assert c.lru[..k + 1] == c.lru; }
  }

  lemma {:induction false} EvictKeeps(c: Cache, size: int, need: int) returns (k: nat)
    requires c.size == Sum(c.lru) + need
    ensures Kept(c, Evict(c, size), size, need, k)
    decreases |c.lru|
  {
    assert c.lru[..|c.lru|] == c.lru;
    if c.size <= c.maxSize {
      k := |c.lru|;
    } else if c.lru == [] {
      k := 0;
    } else {
      k := EvictKeeps(DropLast(c), size, need);
      KeptBefore(c, Evict(DropLast(c), size), size, need, k);
    }
  }

  lemma {:induction false} SumMonotone(lru: seq<Entry>, i: nat, j: nat)
    requires i <= j <= |lru|
    ensures Sum(lru[..i]) <= Sum(lru[..j])
  {
    assert lru[..j] == lru[..i] + lru[i..j];
    SumConcat(lru[..i], lru[i..j]);
  }

  /** Minimal eviction. Reserving n bytes next to `held` bytes of open writers fails if and only if
      those two alone exceed the limit; otherwise exactly the longest most-recent prefix that fits
      stays. The writers' bytes are never what gives way, and a failure reserves nothing. */
  lemma ReserveMinimal(c: Cache, n: nat, held: nat)
    requires Accounted(c, held)
    ensures var r := Reserve(c, n);
      && (r.ok <==> n + held <= c.maxSize)
      && Accounted(r.cache, if r.ok then held + n else held)
      && r.cache.lru <= c.lru && r.cache.pending == c.pending && r.cache.maxSize == c.maxSize
      && r.cache.files <= c.files
      && (!r.ok ==> r.cache.lru == [])
      && (r.ok ==> forall k :: 0 <= k <= |c.lru| ==>
            (Sum(c.lru[..k]) + held + n <= c.maxSize <==> k <= |r.cache.lru|))
  {
    var k := EvictKeeps(c.(size := c.size + n), n, held + n);
    assert Sum(c.lru[..0]) == 0;
    SumMonotone(c.lru, 0, k);
    var r := Reserve(c, n);
    if r.ok {
      forall j | 0 <= j <= |c.lru|
        ensures Sum(c.lru[..j]) + held + n <= c.maxSize <==> j <= k
      {
        if j <= k { SumMonotone(c.lru, j, k); } else { SumMonotone(c.lru, k + 1, j); }
      }
    }
  }

  /** Giving space back evicts nothing. */
  lemma GiveBack(c: Cache, n: nat)
    requires c.size - n <= c.maxSize
    ensures Reserve(c, 0 - n) == Reserved(c.(size := c.size - n), true)
  {
  }

  lemma DeleteAccounted(c: Cache, key: string, held: nat)
    requires Accounted(c, held)
    ensures Accounted(Delete(c, key), held)
    ensures var i := Find(c.lru, key);
      Delete(c, key) == if i == |c.lru| then c
        else c.(lru := Without(c.lru, i), files := c.files - {key}, size := c.size - c.lru[i].size)
  {
    var i := Find(c.lru, key);
    if i < |c.lru| { SumWithout(c.lru, i); }
  }

  lemma MovedToFront(lru: seq<Entry>, i: nat)
    requires i < |lru|
    ensures Sum(ToFront(lru, i)) == Sum(lru)
  {
    SumWithout(lru, i);
    assert [lru[i]] + lru[..i] + lru[i + 1..] == [lru[i]] + (lru[..i] + lru[i + 1..]);
    SumConcat([lru[i]], lru[..i] + lru[i + 1..]);
    assert [lru[i]][..0] == [];
  }

  lemma LinkSum(lru: seq<Entry>, e: Entry)
    ensures Sum([e] + lru) == e.size + Sum(lru)
  {
    SumConcat([e], lru);
    assert [e][..0] == [];
  }

  lemma GetAccounted(c: Cache, key: string, openOK: bool, held: nat)
    requires Accounted(c, held)
    ensures Accounted(Get(c, key, openOK).0, held)
  {
    var i := Find(c.lru, key);
    if i < |c.lru| {
      MovedToFront(c.lru, i);
      var c1 := c.(lru := ToFront(c.lru, i));
      DeleteAccounted(c1, key, held);
    }
  }

  /** Accounting survives a write if and only if the store took all of it: a short write leaks the
      bytes that were reserved and not stored. */
  lemma WriteAccounted(c: Cache, w: Writer, n: nat, x: nat, others: nat)
    requires Accounted(c, others + w.size) && x <= n
    ensures var (c', w', ok) := Write(c, w, n, x);
      Accounted(c', others + w'.size) <==> x == n || n + others + w.size > c.maxSize
  {
    ReserveMinimal(c, n, others + w.size);
  }

  lemma CloseAccounted(c: Cache, w: Writer, closeOK: bool, others: nat)
    requires Accounted(c, others + w.size)
    ensures Accounted(Close(c, w, closeOK), others)
  {
    var c1 := if closeOK then c.(files := c.files + {w.key}) else c;
    if !closeOK || w.deleteOnClose {
      DeleteAccounted(c1, w.key, others + w.size);
      GiveBack(Unpending(Delete(c1, w.key), w.key), w.size);
    } else {
      LinkSum(c1.lru, Entry(w.key, w.size));
    }
  }

  lemma ScanKeyAccounted(c: Cache, key: string, size: nat, openOK: bool, held: nat)
    requires Accounted(c, held)
    ensures Accounted(ScanKey(c, key, size, openOK), held)
  {
    ReserveMinimal(c, size, held);
    LinkSum(Reserve(c, size).cache.lru, Entry(key, size));
  }

  // ---- runs

  /** A cache with its open writers, and when each key was last used. */
  datatype World = World(c: Cache, open: seq<Writer>, used: map<string, nat>, clock: nat)

  datatype Event =
    | DoPut(key: string, how: Creation)
    | DoWrite(i: nat, n: nat, taken: nat)
    | DoClose(i: nat, closeOK: bool)
    | DoGet(key: string, openOK: bool)
    | DoDelete(key: string)
    | DoScan(key: string, size: nat, openOK: bool)

  function Touch(w: World, key: string): World {
    w.(used := w.used[key := w.clock], clock := w.clock + 1)
  }

  /** How many of n bytes the store takes. */
  function Taken(n: nat, taken: nat): (x: nat)
    ensures x <= n
  {
    if taken < n then taken else n
  }

  /** Method-atomic steps; a write may be short. Scan only sees keys the store holds. */
  function Step(w: World, e: Event): World {
    match e
    case DoPut(key, how) =>
      var (c, x) := Put(w.c, key, how);
      (match x case None => w.(c := c) case Some(o) => w.(c := c, open := w.open + [o]))
    case DoWrite(i, n, taken) =>
      if i >= |w.open| then w
      else var (c, o, _) := Write(w.c, w.open[i], n, Taken(n, taken)); w.(c := c, open := w.open[i := o])
    case DoClose(i, closeOK) =>
      if i >= |w.open| then w
      else
        var o := w.open[i];
        var w1 := w.(c := Close(w.c, o, closeOK), open := w.open[..i] + w.open[i + 1..]);
        if closeOK && !o.deleteOnClose then Touch(w1, o.key) else w1
    case DoGet(key, openOK) =>
      var (c, hit) := Get(w.c, key, openOK);
      if hit then Touch(w.(c := c), key) else w
    case DoDelete(key) => w.(c := Delete(w.c, key))
    case DoScan(key, size, openOK) =>
      if key !in w.c.files then w
      else
        var c := ScanKey(w.c, key, size, openOK);
        if Contains(c, key) && !Contains(w.c, key) then Touch(w.(c := c), key) else w.(c := c)
  }

  function Run(w: World, es: seq<Event>): World {
    if es == [] then w else Step(Run(w, es[..|es| - 1]), es[|es| - 1])
  }

  function NewLRU(maxSize: nat, files: set<string>): World {
    World(Cache(0, maxSize, [], {}, files), [], map[], 0)
  }

  /** By how much the recorded size is more than the entries and what open writers hold. */
  ghost function Leak(w: World): int {
    w.c.size - Sum(w.c.lru) - Held(w.open)
  }

  ghost predicate Booked(w: World) {
    Leak(w) >= 0 && w.c.size <= w.c.maxSize
  }

  /** The bytes an event leaves accounted to nobody: those reserved for a write and not taken by the store. */
  function Short(w: World, e: Event): nat {
    if e.DoWrite? && e.i < |w.open| && Reserve(w.c, e.n).ok then e.n - Taken(e.n, e.taken) else 0
  }

  lemma WriteStepBooked(w: World, i: nat, n: nat, taken: nat)
    requires Booked(w) && i < |w.open|
    ensures var e := DoWrite(i, n, taken); var v := Step(w, e);
      Booked(v) && v.c.maxSize == w.c.maxSize && Leak(v) == Leak(w) + Short(w, e)
  {
    HeldUpdate(w.open, i, Write(w.c, w.open[i], n, Taken(n, taken)).1);
    ReserveMinimal(w.c, n, Held(w.open) + Leak(w));
  }

  lemma CloseStepBooked(w: World, i: nat, closeOK: bool)
    requires Booked(w) && i < |w.open|
    ensures var v := Step(w, DoClose(i, closeOK)); Booked(v) && v.c.maxSize == w.c.maxSize && Leak(v) == Leak(w)
  {
    var o := w.open[i];
    HeldSplit(w.open, i);
    HeldUpdate(w.open, i, o);
    var others := Held(w.open) - o.size + Leak(w);
    CloseAccounted(w.c, o, closeOK, others);
    MaxSizeKept(w.c, o, closeOK, others);
  }

  lemma PutStepBooked(w: World, key: string, how: Creation)
    requires Booked(w)
    ensures var v := Step(w, DoPut(key, how)); Booked(v) && v.c.maxSize == w.c.maxSize && Leak(v) == Leak(w)
  {
    HeldConcat(w.open, [Writer(key, 0, false)]);
    assert [Writer(key, 0, false)][..0] == [];
  }

  /** Each step adds to the leak exactly the bytes reserved for a write and not taken. */
  lemma StepBooked(w: World, e: Event)
    requires Booked(w)
    ensures var v := Step(w, e); Booked(v) && v.c.maxSize == w.c.maxSize && Leak(v) == Leak(w) + Short(w, e)
  {
    var held := Held(w.open) + Leak(w);
    match e
    case DoPut(key, how) => PutStepBooked(w, key, how);
    case DoWrite(i, n, taken) => if i < |w.open| { WriteStepBooked(w, i, n, taken); }
    case DoClose(i, closeOK) => if i < |w.open| { CloseStepBooked(w, i, closeOK); }
    case DoGet(key, openOK) =>
      GetAccounted(w.c, key, openOK, held);
      GetMaxSize(w.c, key, openOK);
    case DoDelete(key) => DeleteAccounted(w.c, key, held);
    case DoScan(key, size, openOK) =>
      ScanKeyAccounted(w.c, key, size, openOK, held);
      ReserveMinimal(w.c, size, held);
  }

  lemma MaxSizeKept(c: Cache, w: Writer, closeOK: bool, others: nat)
    requires Accounted(c, others + w.size)
    ensures Close(c, w, closeOK).maxSize == c.maxSize
  {
    var c1 := if closeOK then c.(files := c.files + {w.key}) else c;
    DeleteAccounted(c1, w.key, others + w.size);
    GiveBack(Unpending(Delete(c1, w.key), w.key), w.size);
  }

  lemma GetMaxSize(c: Cache, key: string, openOK: bool)
    ensures Get(c, key, openOK).0.maxSize == c.maxSize
  {
    forall d: Cache, n: int
      ensures Evict(d, n).cache.maxSize == d.maxSize
    {
      EvictMaxSize(d, n);
    }
  }

  lemma {:induction false} EvictMaxSize(c: Cache, n: int)
    ensures Evict(c, n).cache.maxSize == c.maxSize
    decreases |c.lru|
  {
    if c.size > c.maxSize && c.lru != [] { EvictMaxSize(DropLast(c), n); }
  }

  /** All the bytes a run leaves accounted to nobody. */
  function AllShort(w: World, es: seq<Event>): nat {
    if es == [] then 0
    else
      var before := es[..|es| - 1];
      AllShort(w, before) + Short(Run(w, before), es[|es| - 1])
  }

  /** LRU accounting: after any sequence of calls on a cache with any number of open writers, the recorded size is
      within the limit, and the sum of the entries, of the bytes open writers hold, and of the bytes that were reserved
      for short writes and never taken. */
  lemma {:induction false} RunAccounted(maxSize: nat, files: set<string>, es: seq<Event>)
    ensures var w := Run(NewLRU(maxSize, files), es);
      && w.c.size == Sum(w.c.lru) + Held(w.open) + AllShort(NewLRU(maxSize, files), es) <= maxSize
      && w.c.maxSize == maxSize && Booked(w)
  {
    if es != [] {
      RunAccounted(maxSize, files, es[..|es| - 1]);
      StepBooked(Run(NewLRU(maxSize, files), es[..|es| - 1]), es[|es| - 1]);
    }
  }

  /** No write for which space was reserved is short. */
  predicate NoneShort(w: World, es: seq<Event>) {
    es == [] || (NoneShort(w, es[..|es| - 1]) && Short(Run(w, es[..|es| - 1]), es[|es| - 1]) == 0)
  }

  lemma {:induction false} NoneShortSum(w: World, es: seq<Event>)
    ensures NoneShort(w, es) <==> AllShort(w, es) == 0
  {
    if es != [] { NoneShortSum(w, es[..|es| - 1]); }
  }

  /** Every byte of the recorded size belongs to an entry or an open writer if and only if no reserved write was short
      so far; a leak is never made good. */
  lemma AccountedIffNoneShort(maxSize: nat, files: set<string>, es: seq<Event>)
    ensures var w := Run(NewLRU(maxSize, files), es);
      Accounted(w.c, Held(w.open)) <==> NoneShort(NewLRU(maxSize, files), es)
  {
    RunAccounted(maxSize, files, es);
    NoneShortSum(NewLRU(maxSize, files), es);
  }
}
