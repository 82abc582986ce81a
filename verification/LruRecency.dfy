/** The LRU list is in most-recent-use order exactly as long as no writer is saved while its key is listed;
    that never happens when no resident key is written again. */
module LruRecency {
  import opened LruModel

  ghost predicate InOrder(lru: seq<Entry>, used: map<string, nat>, clock: nat) {
    && (forall i :: 0 <= i < |lru| ==> lru[i].key in used && used[lru[i].key] < clock)
    && (forall i, j :: 0 <= i < j < |lru| ==> used[lru[i].key] > used[lru[j].key])
  }

  ghost predicate Absent(lru: seq<Entry>, key: string) {
    forall i :: 0 <= i < |lru| ==> lru[i].key != key
  }

  /** The one call that spoils the order: a good writer is closed while its key is in the list. */
  predicate SavesListed(w: World, e: Event) {
    e.DoClose? && e.i < |w.open| && e.closeOK && !w.open[e.i].deleteOnClose && Contains(w.c, w.open[e.i].key)
  }

  /** A key being written is neither listed nor in the store, and is written by one writer. */
  ghost predicate PendingApart(c: Cache, open: seq<Writer>) {
    && (forall i :: 0 <= i < |open| ==> open[i].key in c.pending)
    && (forall i, j :: 0 <= i < j < |open| ==> open[i].key != open[j].key)
    && (forall k :: k in c.pending ==> k !in c.files && Absent(c.lru, k))
  }

  ghost predicate Recent(w: World) {
    InOrder(w.c.lru, w.used, w.clock) && PendingApart(w.c, w.open)
  }

  lemma FindAbsent(lru: seq<Entry>, key: string)
    ensures Find(lru, key) == |lru| <==> Absent(lru, key)
  {
  }

  lemma PrefixInOrder(lru: seq<Entry>, p: seq<Entry>, used: map<string, nat>, clock: nat)
    requires InOrder(lru, used, clock) && p <= lru
    ensures InOrder(p, used, clock)
  {
    assert forall i :: 0 <= i < |p| ==> p[i] == lru[i];
  }

  lemma RemovedInOrder(lru: seq<Entry>, i: nat, used: map<string, nat>, clock: nat)
    requires InOrder(lru, used, clock) && i < |lru|
    ensures InOrder(Without(lru, i), used, clock)
    ensures Absent(Without(lru, i), lru[i].key)
  {
    var r := Without(lru, i);
    forall a | 0 <= a < |r|
      ensures r[a] == if a < i then lru[a] else lru[a + 1]
    {
    }
  }

  /** A new front entry, used just now. */
  lemma FrontInOrder(lru: seq<Entry>, e: Entry, used: map<string, nat>, clock: nat)
    requires InOrder(lru, used, clock) && Absent(lru, e.key)
    ensures InOrder([e] + lru, used[e.key := clock], clock + 1)
  {
    var l, u := [e] + lru, used[e.key := clock];
    forall i | 0 < i < |l|
      ensures l[i] == lru[i - 1] && l[i].key in u && u[l[i].key] == used[lru[i - 1].key] < clock
    {
    }
  }

  lemma DeleteIs(c: Cache, key: string, held: nat)
    requires Accounted(c, held)
    ensures var i := Find(c.lru, key); var d := Delete(c, key);
      && d.pending == c.pending && d.files <= c.files
      && d.lru == if i == |c.lru| then c.lru else Without(c.lru, i)
  {
    DeleteAccounted(c, key, held);
  }

  // ---- the order, step by step

  lemma WriteInOrder(w: World, i: nat, n: nat, taken: nat)
    requires InOrder(w.c.lru, w.used, w.clock) && Booked(w)
    ensures var v := Step(w, DoWrite(i, n, taken)); InOrder(v.c.lru, v.used, v.clock)
  {
    if i < |w.open| {
      ReserveMinimal(w.c, n, Held(w.open) + Leak(w));
      PrefixInOrder(w.c.lru, Reserve(w.c, n).cache.lru, w.used, w.clock);
    }
  }

  /** Discarding a writer drops the entry of its key, if there is one, and nothing else. */
  lemma DiscardIs(c: Cache, w: Writer, others: nat)
    requires Accounted(c, others + w.size)
    ensures var d := Discard(c, w); var i := Find(c.lru, w.key);
      && d.pending == c.pending - {w.key} && d.files <= c.files
      && d.lru == if i == |c.lru| then c.lru else Without(c.lru, i)
  {
    DeleteIs(c, w.key, others + w.size);
    DeleteAccounted(c, w.key, others + w.size);
    GiveBack(Unpending(Delete(c, w.key), w.key), w.size);
  }

  lemma DiscardInOrder(w: World, i: nat, closeOK: bool)
    requires InOrder(w.c.lru, w.used, w.clock) && Booked(w)
    requires i < |w.open| && (!closeOK || w.open[i].deleteOnClose)
    ensures var v := Step(w, DoClose(i, closeOK)); InOrder(v.c.lru, v.used, v.clock)
  {
    var o := w.open[i];
    HeldSplit(w.open, i);
    DiscardIs(if closeOK then w.c.(files := w.c.files + {o.key}) else w.c, o, Held(w.open) + Leak(w) - o.size);
    var j := Find(w.c.lru, o.key);
    if j < |w.c.lru| { RemovedInOrder(w.c.lru, j, w.used, w.clock); }
  }

  /** A saved entry goes to the front; the list stays in order if and only if its key was not listed. */
  lemma SaveInOrder(w: World, i: nat)
    requires InOrder(w.c.lru, w.used, w.clock) && i < |w.open| && !w.open[i].deleteOnClose
    ensures var v := Step(w, DoClose(i, true));
      InOrder(v.c.lru, v.used, v.clock) <==> !Contains(w.c, w.open[i].key)
  {
    var o, v := w.open[i], Step(w, DoClose(i, true));
    FindAbsent(w.c.lru, o.key);
    assert v.c.lru == [Entry(o.key, o.size)] + w.c.lru;
    if Contains(w.c, o.key) {
      var j := Find(w.c.lru, o.key);
      assert v.c.lru[0].key == v.c.lru[j + 1].key;
    } else {
      FrontInOrder(w.c.lru, Entry(o.key, o.size), w.used, w.clock);
    }
  }

  ghost predicate AllIn(p: seq<Entry>, lru: seq<Entry>) {
    forall a :: 0 <= a < |p| ==> p[a] in lru
  }

  lemma HitInOrder(lru: seq<Entry>, i: nat, used: map<string, nat>, clock: nat)
    requires InOrder(lru, used, clock) && i < |lru|
    ensures var front := ToFront(lru, i);
      && InOrder(front, used[lru[i].key := clock], clock + 1)
      && InOrder(front[1..], used[lru[i].key := clock], clock + 1)
  {
    var rest := Without(lru, i);
    var front := ToFront(lru, i);
    assert front == [lru[i]] + rest;
    RemovedInOrder(lru, i, used, clock);
    FrontInOrder(rest, lru[i], used, clock);
    assert forall a :: 0 <= a < |front[1..]| ==> front[1..][a] == front[a + 1];
  }

  lemma HitAllIn(lru: seq<Entry>, i: nat)
    requires i < |lru|
    ensures AllIn(ToFront(lru, i), lru) && AllIn(ToFront(lru, i)[1..], lru)
  {
    var front := ToFront(lru, i);
    forall a | 0 <= a < |front|
      ensures front[a] in lru
    {
      assert front[a] == if a == 0 then lru[i] else if a <= i then lru[a - 1] else lru[a];
    }
  }

  lemma GetIs(c: Cache, key: string, openOK: bool, held: nat)
    requires Accounted(c, held)
    ensures var i := Find(c.lru, key); var (g, hit) := Get(c, key, openOK);
      if i == |c.lru| then g == c && !hit
      else
        var front := ToFront(c.lru, i);
        && hit && g.pending == c.pending && g.files <= c.files
        && g.lru == if openOK then front else front[1..]
  {
    var i := Find(c.lru, key);
    if i < |c.lru| {
      MovedToFront(c.lru, i);
      var front := ToFront(c.lru, i);
      DeleteIs(c.(lru := front), key, held);
      assert Find(front, key) == 0 && Without(front, 0) == front[1..];
    }
  }

  lemma GotInOrder(w: World, key: string, openOK: bool)
    requires InOrder(w.c.lru, w.used, w.clock) && Booked(w)
    ensures var (c, hit) := Get(w.c, key, openOK);
      if hit then InOrder(c.lru, w.used[key := w.clock], w.clock + 1) else c == w.c
  {
    var i := Find(w.c.lru, key);
    GetIs(w.c, key, openOK, Held(w.open) + Leak(w));
    if i < |w.c.lru| {
      HitKeeps(w.c.lru, Get(w.c, key, openOK).0.lru, i, key, openOK, w.used, w.clock);
    }
  }

  lemma GetInOrder(w: World, key: string, openOK: bool)
    requires InOrder(w.c.lru, w.used, w.clock) && Booked(w)
    ensures var v := Step(w, DoGet(key, openOK)); InOrder(v.c.lru, v.used, v.clock)
  {
    GotInOrder(w, key, openOK);
  }

  lemma HitKeeps(lru: seq<Entry>, after: seq<Entry>, i: nat, key: string, openOK: bool, used: map<string, nat>,
                 clock: nat)
    requires InOrder(lru, used, clock) && i < |lru| && lru[i].key == key
    requires after == if openOK then ToFront(lru, i) else ToFront(lru, i)[1..]
    ensures InOrder(after, used[key := clock], clock + 1)
  {
    HitInOrder(lru, i, used, clock);
  }

  lemma DeleteInOrder(w: World, key: string)
    requires InOrder(w.c.lru, w.used, w.clock) && Booked(w)
    ensures var v := Step(w, DoDelete(key)); InOrder(v.c.lru, v.used, v.clock)
  {
    DeleteIs(w.c, key, Held(w.open) + Leak(w));
    var i := Find(w.c.lru, key);
    if i < |w.c.lru| { RemovedInOrder(w.c.lru, i, w.used, w.clock); }
  }

  lemma ScanInOrder(w: World, key: string, size: nat, openOK: bool)
    requires InOrder(w.c.lru, w.used, w.clock) && Booked(w)
    ensures var v := Step(w, DoScan(key, size, openOK)); InOrder(v.c.lru, v.used, v.clock)
  {
    if key in w.c.files && !Contains(w.c, key) && openOK {
      ReserveMinimal(w.c, size, Held(w.open) + Leak(w));
      var r := Reserve(w.c, size).cache;
      PrefixInOrder(w.c.lru, r.lru, w.used, w.clock);
      FindAbsent(w.c.lru, key);
      assert forall j :: 0 <= j < |r.lru| ==> r.lru[j] == w.c.lru[j];
      FindAbsent(r.lru, key);
      FrontInOrder(r.lru, Entry(key, size), w.used, w.clock);
    }
  }

  /** Every call keeps the order, except exactly the saving of a listed key. */
  lemma StepInOrder(w: World, e: Event)
    requires InOrder(w.c.lru, w.used, w.clock) && Booked(w)
    ensures var v := Step(w, e); InOrder(v.c.lru, v.used, v.clock) <==> !SavesListed(w, e)
  {
    match e
    case DoPut(_, _) =>
    case DoWrite(i, n, taken) => WriteInOrder(w, i, n, taken);
    case DoClose(i, closeOK) =>
      if i < |w.open| {
        if closeOK && !w.open[i].deleteOnClose { SaveInOrder(w, i); } else { DiscardInOrder(w, i, closeOK); }
      }
    case DoGet(key, openOK) => GetInOrder(w, key, openOK);
    case DoDelete(key) => DeleteInOrder(w, key);
    case DoScan(key, size, openOK) => ScanInOrder(w, key, size, openOK);
  }

  ghost predicate InOrderAfter(w0: World, es: seq<Event>, k: nat)
    requires k <= |es|
  {
    var w := Run(w0, es[..k]); InOrder(w.c.lru, w.used, w.clock)
  }

  lemma NextInOrder(maxSize: nat, files: set<string>, es: seq<Event>, k: nat)
    requires k < |es| && InOrderAfter(NewLRU(maxSize, files), es, k)
    ensures InOrderAfter(NewLRU(maxSize, files), es, k + 1)
      <==> !SavesListed(Run(NewLRU(maxSize, files), es[..k]), es[k])
  {
    assert es[..k + 1][..k] == es[..k];
    RunAccounted(maxSize, files, es[..k]);
    StepInOrder(Run(NewLRU(maxSize, files), es[..k]), es[k]);
  }

  /** Some call of the run saves a listed key. */
  ghost predicate SomeSavesListed(w0: World, es: seq<Event>) {
    exists k :: 0 <= k < |es| && SavesListed(Run(w0, es[..k]), es[k])
  }

  lemma {:induction false} InOrderUpTo(maxSize: nat, files: set<string>, es: seq<Event>, k: nat)
    requires k <= |es| && !SomeSavesListed(NewLRU(maxSize, files), es)
    ensures InOrderAfter(NewLRU(maxSize, files), es, k)
  {
    if k > 0 {
      InOrderUpTo(maxSize, files, es, k - 1);
      NextInOrder(maxSize, files, es, k - 1);
    }
  }

  /** Recency, exactly: all along a run the list is in order of last use, most recent first and each key
      once, if and only if no good writer is closed while its key is listed. */
  lemma InOrderIffNoneSavesListed(maxSize: nat, files: set<string>, es: seq<Event>)
    ensures (forall k :: 0 <= k <= |es| ==> InOrderAfter(NewLRU(maxSize, files), es, k))
      <==> !SomeSavesListed(NewLRU(maxSize, files), es)
  {
    var w0 := NewLRU(maxSize, files);
    if SomeSavesListed(w0, es) {
      var k :| 0 <= k < |es| && SavesListed(Run(w0, es[..k]), es[k]);
      if InOrderAfter(w0, es, k) { NextInOrder(maxSize, files, es, k); }
    } else {
      forall k | 0 <= k <= |es|
        ensures InOrderAfter(w0, es, k)
      {
        InOrderUpTo(maxSize, files, es, k);
      }
    }
  }

  // ---- when no resident key is put again

  lemma WriteApart(w: World, i: nat, n: nat, taken: nat)
    requires PendingApart(w.c, w.open) && Booked(w)
    ensures var v := Step(w, DoWrite(i, n, taken)); PendingApart(v.c, v.open)
  {
    if i < |w.open| {
      ReserveMinimal(w.c, n, Held(w.open) + Leak(w));
      var r := Reserve(w.c, n).cache;
      forall k | k in r.pending
        ensures Absent(r.lru, k)
      {
        assert forall j :: 0 <= j < |r.lru| ==> r.lru[j] == w.c.lru[j];
      }
    }
  }

  lemma ClosedApart(c: Cache, d: Cache, open: seq<Writer>, i: nat)
    requires PendingApart(c, open) && i < |open|
    requires d.pending == c.pending - {open[i].key} && d.files <= c.files + {open[i].key}
    requires forall k :: k != open[i].key && Absent(c.lru, k) ==> Absent(d.lru, k)
    ensures PendingApart(d, open[..i] + open[i + 1..])
  {
    var rest := open[..i] + open[i + 1..];
    forall a | 0 <= a < |rest|
      ensures rest[a] == (if a < i then open[a] else open[a + 1]) && rest[a].key != open[i].key
    {
    }
  }

  lemma CloseApart(w: World, i: nat, closeOK: bool)
    requires PendingApart(w.c, w.open) && Booked(w)
    ensures var v := Step(w, DoClose(i, closeOK)); PendingApart(v.c, v.open) && !SavesListed(w, DoClose(i, closeOK))
  {
    if i < |w.open| {
      var o := w.open[i];
      HeldSplit(w.open, i);
      FindAbsent(w.c.lru, o.key);
      DiscardIs(if closeOK then w.c.(files := w.c.files + {o.key}) else w.c, o, Held(w.open) + Leak(w) - o.size);
      ClosedApart(w.c, Close(w.c, o, closeOK), w.open, i);
    }
  }

  /** Entries only left or moved, and nothing became pending. */
  lemma SubsetApart(c: Cache, d: Cache, open: seq<Writer>)
    requires PendingApart(c, open) && d.pending == c.pending && d.files <= c.files
    requires AllIn(d.lru, c.lru)
    ensures PendingApart(d, open)
  {
  }

  lemma GetApart(w: World, key: string, openOK: bool)
    requires PendingApart(w.c, w.open) && Booked(w)
    ensures var v := Step(w, DoGet(key, openOK)); PendingApart(v.c, v.open)
  {
    var i := Find(w.c.lru, key);
    GetIs(w.c, key, openOK, Held(w.open) + Leak(w));
    if i < |w.c.lru| {
      HitAllIn(w.c.lru, i);
      SubsetApart(w.c, Get(w.c, key, openOK).0, w.open);
    }
  }

  lemma WithoutAllIn(lru: seq<Entry>, i: nat)
    requires i < |lru|
    ensures AllIn(Without(lru, i), lru)
  {
    forall a | 0 <= a < |lru| - 1
      ensures Without(lru, i)[a] in lru
    {
      assert Without(lru, i)[a] == if a < i then lru[a] else lru[a + 1];
    }
  }

  lemma DeleteApart(w: World, key: string)
    requires PendingApart(w.c, w.open) && Booked(w)
    ensures var v := Step(w, DoDelete(key)); PendingApart(v.c, v.open)
  {
    DeleteIs(w.c, key, Held(w.open) + Leak(w));
    var i := Find(w.c.lru, key);
    if i < |w.c.lru| {
      WithoutAllIn(w.c.lru, i);
      SubsetApart(w.c, Delete(w.c, key), w.open);
    }
  }

  lemma ScanApart(w: World, key: string, size: nat, openOK: bool)
    requires PendingApart(w.c, w.open) && Booked(w)
    ensures var v := Step(w, DoScan(key, size, openOK)); PendingApart(v.c, v.open)
  {
    if key in w.c.files && !Contains(w.c, key) && openOK {
      ReserveMinimal(w.c, size, Held(w.open) + Leak(w));
      var r := Reserve(w.c, size).cache;
      forall j | 0 <= j < |r.lru|
        ensures r.lru[j] in w.c.lru
      {
        assert r.lru[j] == w.c.lru[j];
      }
      SubsetApart(w.c, r, w.open);
      ScannedApart(r, w.open, Entry(key, size), w.c.files);
    }
  }

  lemma ScannedApart(c: Cache, open: seq<Writer>, e: Entry, files: set<string>)
    requires PendingApart(c, open) && e.key !in c.pending
    ensures PendingApart(Link(c, e), open)
    ensures PendingApart(c.(files := c.files - {e.key}), open)
  {
  }

  lemma StepApart(w: World, e: Event)
    requires PendingApart(w.c, w.open) && Booked(w)
    requires e.DoPut? ==> !Contains(w.c, e.key)
    ensures PendingApart(Step(w, e).c, Step(w, e).open) && !SavesListed(w, e)
  {
    match e
    case DoPut(key, _) => FindAbsent(w.c.lru, key);
    case DoWrite(i, n, taken) => WriteApart(w, i, n, taken);
    case DoClose(i, closeOK) => CloseApart(w, i, closeOK);
    case DoGet(key, openOK) => GetApart(w, key, openOK);
    case DoDelete(key) => DeleteApart(w, key);
    case DoScan(key, size, openOK) => ScanApart(w, key, size, openOK);
  }

  /** No call writes a key that is in the list at the time. */
  ghost predicate NoReput(w: World, es: seq<Event>) {
    forall i :: 0 <= i < |es| && es[i].DoPut? ==> !Contains(Run(w, es[..i]).c, es[i].key)
  }

  /** Over every run without re-Puts the list is in order, so what ReserveMinimal keeps are the most
      recently used entries. */
  lemma {:induction false} RunRecent(maxSize: nat, files: set<string>, es: seq<Event>)
    requires NoReput(NewLRU(maxSize, files), es)
    ensures Recent(Run(NewLRU(maxSize, files), es))
  {
    if es != [] {
      var w0, before := NewLRU(maxSize, files), es[..|es| - 1];
      forall i | 0 <= i < |before| && before[i].DoPut?
        ensures !Contains(Run(w0, before[..i]).c, before[i].key)
      {
        assert before[..i] == es[..i];
      }
      RunRecent(maxSize, files, before);
      RunAccounted(maxSize, files, before);
      assert es[..|es| - 1] == before;
      StepInOrder(Run(w0, before), es[|es| - 1]);
      StepApart(Run(w0, before), es[|es| - 1]);
    }
  }

  /** With a re-Put the list can hold one key twice: put and save a key, then do it again. */
  lemma ReputDuplicates()
    ensures var es := [DoPut("k", First), DoClose(0, true), DoPut("k", Exists(true)), DoClose(0, true)];
      Run(NewLRU(0, {}), es).c.lru == [Entry("k", 0), Entry("k", 0)]
  {
    var w0 := NewLRU(0, {});
    var es := [DoPut("k", First), DoClose(0, true), DoPut("k", Exists(true)), DoClose(0, true)];
    assert es[..3][..2][..1][..0] == [];
    var w1 := Step(w0, DoPut("k", First));
    assert w1 == World(Cache(0, 0, [], {"k"}, {}), [Writer("k", 0, false)], map[], 0);
    var w2 := Step(w1, DoClose(0, true));
    assert w2 == World(Cache(0, 0, [Entry("k", 0)], {}, {"k"}), [], map["k" := 0], 1);
    var w3 := Step(w2, DoPut("k", Exists(true)));
    assert w3 == World(Cache(0, 0, [Entry("k", 0)], {"k"}, {}), [Writer("k", 0, false)], map["k" := 0], 1);
    assert Step(w3, DoClose(0, true)).c.lru == [Entry("k", 0), Entry("k", 0)];
    assert es[..1] == [DoPut("k", First)] && Run(w0, es[..1]) == w1;
    assert es[..2][..1] == es[..1] && Run(w0, es[..2]) == w2;
    assert es[..3][..2] == es[..2] && Run(w0, es[..3]) == w3;
  }
}
