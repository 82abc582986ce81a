/** s3ReadAtCloser as an object: the pages are kept in one array and moved in place. */
module S3ReaderObject {
  import opened Prelude
  import M = S3Reader
  import opened S3Reader

  class S3ReadAtCloser {
    const object_: Bytes   // what the bucket holds under the key
    const size: nat        // as recorded when the file was opened
    const pages: array<Page>
    var count: nat

    ghost predicate Valid()
      reads this, pages
    {
      pages.Length == NUM_PAGES && count <= NUM_PAGES && size == |object_| && ValidPages(object_, pages[..count])
    }

    constructor (obj: Bytes)
      ensures Valid() && object_ == obj && fresh(pages) && pages[..count] == []
    {
      object_, size, count := obj, |obj|, 0;
      pages := new Page[NUM_PAGES](_ => Page("", 0));
    }

    method Find(offset: nat) returns (i: nat)
      requires count <= pages.Length
      ensures i == FindPage(pages[..count], offset)
    {
      i := 0;
      while i < count && !Holds(pages[i], offset)
        invariant i <= count
        invariant FindPage(pages[..count], offset) == FindPage(pages[..count], offset, i)
      {
        i := i + 1;
      }
    }

    /** Move entry i to the front by shifting the ones before it. */
    method MoveToFront(i: nat)
      requires count <= pages.Length && i < count
      modifies pages
      ensures pages[..count] == ToFront(old(pages[..count]), i)
      ensures forall j :: count <= j < pages.Length ==> pages[j] == old(pages[j])
    {
      var page := pages[i];
      if i > 0 {
        forall j | 1 <= j <= i {
          pages[j] := pages[j - 1];
        }
        pages[0] := page;
      }
      ghost var was, now := old(pages[..count]), pages[..count];
      assert forall j :: 0 <= j < count ==> now[j] == ToFront(was, i)[j];
    }

    /** False at the end of the object, the cache being left alone. */
    method GetPage(offset: nat) returns (ok: bool, page: Page)
      requires Valid()
      modifies this`count, pages
      ensures offset < size ==> ok && Valid()
      ensures ok ==> count > 0 && count <= pages.Length && page == pages[0]
                     && Some(pages[..count]) == M.GetPage(object_, old(pages[..count]), offset)
      ensures !ok ==> M.GetPage(object_, old(pages[..count]), offset) == None
                      && count == old(count) && pages[..] == old(pages[..])
    {
      if offset < size { GetPageValid(object_, pages[..count], offset); }
      var i := Find(offset);
      if i == count {
        var loaded := LoadPage(object_, offset);
        if loaded == None {
          return false, Page("", 0);
        }
        if count < NUM_PAGES {
          count := count + 1;
        }
        i := count - 1;
        pages[i] := loaded.value;
        assert pages[..count] == Admit(old(pages[..count]), loaded.value);
      }
      MoveToFront(i);
      return true, pages[0];
    }

    /** One turn of ReadAt's loop: copy what the page has into p at n. */
    method CopyPage(p: array<char>, n: nat, offset: nat) returns (m: nat)
      requires Valid() && p as object != pages as object && n < p.Length && offset < size
      modifies this`count, pages, p
      ensures Valid() && 0 < m <= p.Length - n && offset + m <= size
      ensures p[..n] == old(p[..n]) && p[n..n + m] == object_[offset..offset + m] && p[n + m..] == old(p[n + m..])
    {
      var page := FrontPage(offset);
      var avail := Available(page, offset);
      m := Min(p.Length - n, |avail|);
      PagePart(object_, page, offset, m);
      forall j | 0 <= j < m {
        p[n + j] := avail[j];
      }
      assert p[n..n + m] == avail[..m];
    }

    method FrontPage(offset: nat) returns (page: Page)
      requires Valid() && offset < size
      modifies this`count, pages
      ensures Valid() && TruePage(object_, page) && Holds(page, offset)
    {
      GetPageValid(object_, pages[..count], offset);
      var _, p := GetPage(offset);
      page := p;
      assert page == pages[..count][0];
    }

    /** ReadAt fills p with the object's bytes from offset on: as many as fit and exist, with EOF
        exactly when there are none. */
    method ReadAt(p: array<char>, offset: nat) returns (n: nat, eof: bool)
      requires Valid() && p as object != pages as object
      modifies this`count, pages, p
      ensures Valid()
      ensures n <= p.Length && p[..n] == Slice(object_, offset, p.Length)
      ensures p[n..] == old(p[n..])
      ensures eof <==> n == 0
    {
      n := 0;
      while n < p.Length && offset + n < size
        invariant Valid() && n <= p.Length && (n == 0 || offset + n <= size)
        invariant n > 0 ==> p[..n] == object_[offset..offset + n]
        invariant p[n..] == old(p[n..])
      {
        ghost var done, rest := p[..n], p[n..];
        var m := CopyPage(p, n, offset + n);
        Extended(p[..n + m], done, object_, offset, n, m);
        assert p[n + m..] == rest[m..];
        n := n + m;
      }
      eof := n == 0;
    }
  }

  lemma Extended(now: Bytes, done: Bytes, obj: Bytes, offset: nat, n: nat, m: nat)
    requires n + m == |now| && offset + n + m <= |obj|
    requires now[..n] == done && (n > 0 ==> done == obj[offset..offset + n])
    requires now[n..] == obj[offset + n..offset + n + m]
    ensures now == obj[offset..offset + n + m]
  {
    assert now == now[..n] + now[n..];
    assert obj[offset..offset + n + m] == obj[offset..offset + n] + obj[offset + n..offset + n + m];
  }
}
