/** The paging reader of store/s3.go: a five-page, move-to-front cache in front of ranged gets must read
    exactly what a slice of the object would. */
module S3Reader {
  import opened Prelude

  const NUM_PAGES: nat := 5
  const PAGE_SIZE: nat := 10 * 1024 * 1024

  datatype Page = Page(data: Bytes, offset: nat)

  function Min(a: nat, b: nat): nat {
    if a < b then a else b
  }

  // ---- the backend and the cache as values

  /** A ranged GET of bytes start..end-1; None is the "range not satisfiable" error. */
  function GetObject(obj: Bytes, start: nat, end: nat): Option<Bytes>
    requires start <= end
  {
    if start >= |obj| then None else Some(obj[start..Min(end, |obj|)])
  }

  function LoadPage(obj: Bytes, offset: nat): Option<Page> {
    var start := offset / PAGE_SIZE * PAGE_SIZE;
    match GetObject(obj, start, start + PAGE_SIZE)
    case None => None
    case Some(data) => if data == "" then None else Some(Page(data, start))
  }

  predicate Holds(page: Page, offset: nat) {
    page.offset <= offset < page.offset + |page.data|
  }

  /** The first cached page that holds the byte at offset; |pages| when none does. */
  function FindPage(pages: seq<Page>, offset: nat, i: nat := 0): (r: nat)
    requires i <= |pages|
    ensures i <= r <= |pages|
    ensures r < |pages| ==> Holds(pages[r], offset)
    ensures forall j :: i <= j < r ==> !Holds(pages[j], offset)
    decreases |pages| - i
  {
    if i == |pages| || Holds(pages[i], offset) then i else FindPage(pages, offset, i + 1)
  }

  /** A new page goes to the end, in place of the last one when the cache is full. */
  function Admit(pages: seq<Page>, page: Page): (r: seq<Page>)
    ensures r != []
  {
    if |pages| < NUM_PAGES then pages + [page] else pages[..|pages| - 1] + [page]
  }

  function ToFront(pages: seq<Page>, i: nat): seq<Page>
    requires i < |pages|
  {
    [pages[i]] + pages[..i] + pages[i + 1..]
  }

  /** getpage: the new cache, whose front is the page; None at the end of the object. */
  function GetPage(obj: Bytes, pages: seq<Page>, offset: nat): Option<seq<Page>> {
    var i := FindPage(pages, offset);
    if i < |pages| then Some(ToFront(pages, i))
    else match LoadPage(obj, offset)
      case None => None
      case Some(page) => Some(ToFront(Admit(pages, page), |Admit(pages, page)| - 1))
  }

  /** A page is what the object holds at its aligned offset. */
  ghost predicate TruePage(obj: Bytes, page: Page) {
    && page.offset % PAGE_SIZE == 0 && page.offset < |obj|
    && page.data == obj[page.offset..Min(page.offset + PAGE_SIZE, |obj|)]
  }

  /** At most five true pages at distinct aligned offsets. */
  ghost predicate ValidPages(obj: Bytes, pages: seq<Page>) {
    && |pages| <= NUM_PAGES
    && (forall i :: 0 <= i < |pages| ==> TruePage(obj, pages[i]))
    && (forall i, j :: 0 <= i < j < |pages| ==> pages[i].offset != pages[j].offset)
  }

  lemma AlignedStart(offset: nat)
    ensures var start := offset / PAGE_SIZE * PAGE_SIZE;
      start % PAGE_SIZE == 0 && start <= offset < start + PAGE_SIZE
    ensures forall o: nat :: o % PAGE_SIZE == 0 && o <= offset < o + PAGE_SIZE ==> o == offset / PAGE_SIZE * PAGE_SIZE
  {
  }

  lemma LoadedPage(obj: Bytes, offset: nat)
    ensures match LoadPage(obj, offset)
      case None => offset / PAGE_SIZE * PAGE_SIZE >= |obj|
      case Some(page) => TruePage(obj, page) && page.offset == offset / PAGE_SIZE * PAGE_SIZE
                         && (offset < |obj| ==> Holds(page, offset))
  {
    AlignedStart(offset);
  }

  lemma AdmitValid(obj: Bytes, pages: seq<Page>, page: Page)
    requires ValidPages(obj, pages) && TruePage(obj, page)
    requires forall i :: 0 <= i < |pages| ==> pages[i].offset != page.offset
    ensures ValidPages(obj, Admit(pages, page))
  {
  }

  lemma ToFrontValid(obj: Bytes, pages: seq<Page>, i: nat)
    requires ValidPages(obj, pages) && i < |pages|
    ensures ValidPages(obj, ToFront(pages, i)) && ToFront(pages, i)[0] == pages[i]
  {
    var r := ToFront(pages, i);
    assert forall j :: 0 <= j < |r| ==> r[j] == if j == 0 then pages[i] else if j <= i then pages[j - 1] else pages[j];
  }

  lemma MissingOffset(obj: Bytes, pages: seq<Page>, offset: nat)
    requires ValidPages(obj, pages) && offset < |obj| && FindPage(pages, offset) == |pages|
    ensures forall i :: 0 <= i < |pages| ==> pages[i].offset != offset / PAGE_SIZE * PAGE_SIZE
  {
    AlignedStart(offset);
    forall i | 0 <= i < |pages|
      ensures pages[i].offset != offset / PAGE_SIZE * PAGE_SIZE
    {
      assert TruePage(obj, pages[i]) && !Holds(pages[i], offset);
    }
  }

  /** getpage, for an offset inside the object, finds the right page and keeps the cache valid. */
  lemma GetPageValid(obj: Bytes, pages: seq<Page>, offset: nat)
    requires ValidPages(obj, pages) && offset < |obj|
    ensures GetPage(obj, pages, offset).Some?
    ensures var r := GetPage(obj, pages, offset).value;
      ValidPages(obj, r) && r != [] && Holds(r[0], offset)
  {
    var i := FindPage(pages, offset);
    if i < |pages| {
      ToFrontValid(obj, pages, i);
    } else {
      LoadedPage(obj, offset);
      AlignedStart(offset);
      var page := LoadPage(obj, offset).value;
      MissingOffset(obj, pages, offset);
      AdmitValid(obj, pages, page);
      ToFrontValid(obj, Admit(pages, page), |Admit(pages, page)| - 1);
    }
  }

  datatype Chunk = Chunk(pages: seq<Page>, data: Bytes)

  /** The cache after getpage found the byte at offset: its page is in front. */
  function Fetch(obj: Bytes, pages: seq<Page>, offset: nat): (r: seq<Page>)
    requires ValidPages(obj, pages) && offset < |obj|
    ensures ValidPages(obj, r) && r != [] && TruePage(obj, r[0]) && Holds(r[0], offset)
  {
    GetPageValid(obj, pages, offset);
    GetPage(obj, pages, offset).value
  }

  /** What a page has to offer from some offset on. */
  function Available(page: Page, offset: nat): (r: Bytes)
    requires Holds(page, offset)
    ensures r != ""
  {
    page.data[offset - page.offset..]
  }

  function Slice(obj: Bytes, offset: nat, n: nat): Bytes {
    if offset >= |obj| then "" else obj[offset..Min(offset + n, |obj|)]
  }

  lemma SliceSplit(obj: Bytes, offset: nat, m: nat, n: nat)
    requires m <= n && offset + m <= |obj|
    ensures obj[offset..offset + m] + Slice(obj, offset + m, n - m) == Slice(obj, offset, n)
  {
    if offset + m < |obj| {
      var e := Min(offset + n, |obj|);
      assert Slice(obj, offset + m, n - m) == obj[offset + m..e];
      assert obj[offset..e] == obj[offset..offset + m] + obj[offset + m..e];
    } else {
      assert obj[offset..offset + m] + "" == obj[offset..offset + m];
    }
  }

  /** The part of a page from some offset on is part of the object. */
  lemma PagePart(obj: Bytes, page: Page, offset: nat, m: nat)
    requires TruePage(obj, page) && Holds(page, offset) && m <= |Available(page, offset)|
    ensures offset + m <= |obj| && Available(page, offset)[..m] == obj[offset..offset + m]
  {
    var d := offset - page.offset;
    var e := Min(page.offset + PAGE_SIZE, |obj|);
    assert page.data == obj[page.offset..e];
    forall j | 0 <= j < m
      ensures page.data[d..][..m][j] == obj[offset..offset + m][j]
    {
      assert page.data[d + j] == obj[page.offset + (d + j)];
    }
  }

  /** The loop of ReadAt: up to n bytes from offset on. From any reachable cache, reading through pages is
      slicing the object, and the cache stays within five distinct aligned pages. */
  function ReadFrom(obj: Bytes, pages: seq<Page>, offset: nat, n: nat): (r: Chunk)
    requires ValidPages(obj, pages)
    ensures r.data == Slice(obj, offset, n)
    ensures ValidPages(obj, r.pages)
    decreases n
  {
    if n == 0 || offset >= |obj| then Chunk(pages, "")
    else
      var ps := Fetch(obj, pages, offset);
      var avail := Available(ps[0], offset);
      var m := Min(n, |avail|);
      PagePart(obj, ps[0], offset, m);
      SliceSplit(obj, offset, m, n);
      var rest := ReadFrom(obj, ps, offset + m, n - m);
      Chunk(rest.pages, avail[..m] + rest.data)
  }
}
