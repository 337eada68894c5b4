/** The pages of the reader: `pagesFor` and `pageOf`. A document of `count` blocks whose chapters
    begin at given blocks is shown in pages of whole chapters, and longer chapters in slices. */
module ReaderPages {

  import opened Text

  const PAGE_BLOCKS := 1500

  datatype Page = Page(first: int, last: int) {   // the blocks first, ..., last - 1
    predicate Holds(block: int) { first <= block < last }
    function Size(): int { last - first }
  }

  /** Where chapters begin: block 0 and every chapter start that names a block, each once, in order. */
  function StartsFrom(count: int, firsts: set<int>, i: nat): (starts: seq<int>)
    requires i <= count
    ensures forall k :: 0 <= k < |starts| ==> i <= starts[k] < count && (starts[k] == 0 || starts[k] in firsts)
    ensures forall k, l :: 0 <= k < l < |starts| ==> starts[k] < starts[l]
    decreases count - i
  {
    if i == count then []
    else if i == 0 || i in firsts then [i] + StartsFrom(count, firsts, i + 1)
    else StartsFrom(count, firsts, i + 1)
  }

  lemma {:induction false} EveryStart(count: int, firsts: set<int>, i: nat, block: int)
    requires i <= block < count && (block == 0 || block in firsts)
    ensures block in StartsFrom(count, firsts, i)
    decreases count - i
  {
    if i < block { EveryStart(count, firsts, i + 1, block); }
  }

  /** Where the chapter after the `i`th begins, or the document ends. */
  function EndOf(starts: seq<int>, count: int, i: nat): int {
    if i + 1 < |starts| then starts[i + 1] else count
  }

  function StartOf(starts: seq<int>, count: int, i: nat): int {
    if i < |starts| then starts[i] else count
  }

  ghost predicate Chapters(starts: seq<int>, count: int) {
    && starts != [] && starts[0] == 0
    && (forall i {:trigger EndOf(starts, count, i)} :: 0 <= i < |starts| ==> starts[i] < EndOf(starts, count, i))
    && (forall i, j {:trigger Ascend(starts, count, i, j)} :: 0 <= i < j < |starts| ==> Ascend(starts, count, i, j))
  }

  predicate Ascend(starts: seq<int>, count: int, i: int, j: int) {
    0 <= i < j < |starts| && starts[i] < starts[j] < count
  }

  ghost predicate Edge(starts: seq<int>, count: int, block: int) {
    block == count || block in starts
  }

  /** `block` lies inside the `i`th chapter, which is longer than a page. */
  ghost predicate InLongChapter(starts: seq<int>, count: int, i: nat, block: int) {
    && i < |starts| && starts[i] < block < EndOf(starts, count, i)
    && EndOf(starts, count, i) - starts[i] > PAGE_BLOCKS
  }

  /** Nonempty contiguous pages of at most PAGE_BLOCKS blocks that cover 0, ..., upTo - 1. */
  ghost predicate Partition(pages: seq<Page>, upTo: int) {
    && (pages == [] <==> upTo == 0)
    && (pages != [] ==> pages[0].first == 0 && pages[|pages| - 1].last == upTo)
    && (forall k :: 0 <= k < |pages| ==> 0 <= pages[k].first && 0 < pages[k].Size() <= PAGE_BLOCKS)
    && (forall k {:trigger Adjoins(pages, k)} :: 0 < k < |pages| ==> Adjoins(pages, k))
  }

  predicate Adjoins(pages: seq<Page>, k: int) { 0 < k < |pages| && pages[k].first == pages[k - 1].last }

  /** A page begins inside a chapter only when that chapter is longer than a page. */
  ghost predicate CutsOnlyLong(pages: seq<Page>, starts: seq<int>, count: int) {
    forall k :: 0 <= k < |pages| && !Edge(starts, count, pages[k].first) ==>
      exists i: nat :: InLongChapter(starts, count, i, pages[k].first)
  }

  ghost predicate Whole(page: Page, starts: seq<int>, count: int) {
    Edge(starts, count, page.first) && Edge(starts, count, page.last)
  }

  /** A page of whole chapters leaves the next chapter out only because it would not fit. */
  ghost predicate Full(page: Page, starts: seq<int>, count: int) {
    Whole(page, starts, count) ==>
      forall i :: 0 <= i < |starts| && starts[i] == page.last ==> EndOf(starts, count, i) - page.first > PAGE_BLOCKS
  }

  ghost predicate AllButLastFull(pages: seq<Page>, starts: seq<int>, count: int) {
    forall k :: 0 <= k < |pages| - 1 ==> Full(pages[k], starts, count)
  }

  /** `Math.round` of a / b: the nearest integer, halves upwards. */
  function Rounded(a: int, b: int): int
    requires b > 0
  {
    (2 * a + b) / (2 * b)
  }

  lemma MulMonotone(a: int, b: int, m: int)
    requires m > 0
    ensures a <= b ==> a * m <= b * m
  {
    assert a <= b ==> 0 <= (b - a) * m;
  }

  lemma DivShift(a: int, k: int, m: int)
    requires m > 0
    ensures (a + k * m) / m == a / m + k
  {
    var q, r := a / m, a % m;
    assert a + k * m == (q + k) * m + r;
    QuotientIs(a + k * m, q + k, r, m);
  }

  lemma QuotientIs(n: int, q: int, r: int, m: int)
    requires m > 0 && 0 <= r < m && n == q * m + r
    ensures n / m == q
  {
    var p := n / m;
    assert p * m <= n < (p + 1) * m;
    MulMonotone(p + 1, q, m);
    MulMonotone(q + 1, p, m);
  }

  lemma DivMonotone(a: int, b: int, m: int)
    requires m > 0 && a <= b
    ensures a / m <= b / m
  {
    MulMonotone(b / m + 1, a / m, m);
  }

  /** Where a slice begins in a chapter of `size` blocks that is cut into `slices`. */
  function Cut(size: int, slices: int, slice: int): int
    requires slices > 0
  {
    Rounded(size * slice, slices)
  }

  /** Rounding moves the edge of a slice, but never makes a slice empty or longer than a page. */
  lemma SliceFits(size: int, slices: int, slice: int)
    requires 0 < slices <= size <= slices * PAGE_BLOCKS
    ensures 1 <= Cut(size, slices, slice + 1) - Cut(size, slices, slice) <= PAGE_BLOCKS
  {
    var a, m := 2 * (size * slice) + slices, 2 * slices;
    var b := 2 * (size * (slice + 1)) + slices;
    assert b == a + 2 * size by { assert size * (slice + 1) == size * slice + size; }
    DivShift(a, 1, m);
    DivShift(a, PAGE_BLOCKS, m);
    DivMonotone(a + 1 * m, b, m);
    DivMonotone(b, a + PAGE_BLOCKS * m, m);
  }

  /** The slices of a chapter are even: each is within one block of its share. */
  lemma SliceEven(size: int, slices: int, slice: int)
    requires 0 < slices && 0 <= size
    ensures Even(Cut(size, slices, slice + 1) - Cut(size, slices, slice), size, slices)
  {
    var a, m := 2 * (size * slice) + slices, 2 * slices;
    var b := 2 * (size * (slice + 1)) + slices;
    assert b == a + 2 * size by { assert size * (slice + 1) == size * slice + size; }
    var p, q := a / m, b / m;
    assert p * m <= a < p * m + m && q * m <= b < q * m + m;
    assert (q - p) * m == q * m - p * m;
    assert (q - p - 1) * m < 2 * size < (q - p + 1) * m;
    assert (q - p - 1) * m == 2 * ((q - p - 1) * slices) && (q - p + 1) * m == 2 * ((q - p + 1) * slices);
  }

  lemma SliceEnds(size: int, slices: int)
    requires slices > 0
    ensures Cut(size, slices, 0) == 0 && Cut(size, slices, slices) == size
  {
    QuotientIs(slices, 0, slices, 2 * slices);
    assert 2 * (size * slices) + slices == size * (2 * slices) + slices;
    QuotientIs(2 * (size * slices) + slices, size, slices, 2 * slices);
  }

  lemma CutInside(size: int, slices: int, slice: int)
    requires 0 < slice < slices <= size <= slices * PAGE_BLOCKS
    ensures 0 < Cut(size, slices, slice) < size
  {
    SliceEnds(size, slices);
    SliceFits(size, slices, 0);
    SliceFits(size, slices, slices - 1);
    MulMonotone(1, slice, size);
    MulMonotone(slice, slices - 1, size);
    DivMonotone(2 * (size * 1) + slices, 2 * (size * slice) + slices, 2 * slices);
    DivMonotone(2 * (size * slice) + slices, 2 * (size * (slices - 1)) + slices, 2 * slices);
  }

  /** One page more, at the end of a partition. */
  lemma Added(pages: seq<Page>, page: Page, starts: seq<int>, count: int)
    requires Partition(pages, page.first) && 0 < page.Size() <= PAGE_BLOCKS
    requires CutsOnlyLong(pages, starts, count) && AllButLastFull(pages, starts, count)
    requires Edge(starts, count, page.first) || exists i: nat :: InLongChapter(starts, count, i, page.first)
    requires pages != [] ==> Full(pages[|pages| - 1], starts, count)
    ensures var more := pages + [page];
            && Partition(more, page.last)
            && CutsOnlyLong(more, starts, count) && AllButLastFull(more, starts, count)
  {
    var more := pages + [page];
    forall k | 0 < k < |more| ensures Adjoins(more, k) {
      assert k < |pages| ==> Adjoins(pages, k);
    }
  }

  /** A page that takes one more chapter. */
  lemma Grown(pages: seq<Page>, page: Page, more: Page, starts: seq<int>, count: int)
    requires var all := pages + [page];
             && Partition(all, page.last)
             && CutsOnlyLong(all, starts, count) && AllButLastFull(all, starts, count)
    requires more.first == page.first && page.last < more.last <= page.first + PAGE_BLOCKS
    ensures var all := pages + [more];
            && Partition(all, more.last)
            && CutsOnlyLong(all, starts, count) && AllButLastFull(all, starts, count)
  {
    var was, all := pages + [page], pages + [more];
    assert forall k :: 0 <= k < |pages| ==> was[k] == all[k] == pages[k];
    assert forall k :: 0 <= k < |all| ==> all[k].first == was[k].first;
    forall k | 0 < k < |all| ensures Adjoins(all, k) {
      assert Adjoins(was, k);
    }
  }

  ghost predicate Paged(pages: seq<Page>, starts: seq<int>, count: int, upTo: int) {
    && Partition(pages, upTo) && CutsOnlyLong(pages, starts, count) && AllButLastFull(pages, starts, count)
  }

  lemma InsideIsNoEdge(starts: seq<int>, count: int, i: nat, block: int)
    requires Chapters(starts, count) && InLongChapter(starts, count, i, block)
    ensures !Edge(starts, count, block)
  {
    forall j | 0 <= j < |starts| ensures starts[j] != block {
      assert j < i ==> Ascend(starts, count, j, i);
      assert i + 1 < j ==> Ascend(starts, count, i + 1, j);
    }
    assert i + 1 < |starts| ==> Ascend(starts, count, i, i + 1);
  }

  /** The next slice of the `i`th chapter goes onto a page of its own. */
  lemma SliceAdded(pages: seq<Page>, page: Page, starts: seq<int>, count: int, i: nat)
    requires Chapters(starts, count) && i < |starts| && EndOf(starts, count, i) - starts[i] > PAGE_BLOCKS
    requires Paged(pages, starts, count, page.first) && 0 < page.Size() <= PAGE_BLOCKS
    requires pages != [] ==> Full(pages[|pages| - 1], starts, count)
    requires starts[i] <= page.first && page.last <= EndOf(starts, count, i)
    ensures Paged(pages + [page], starts, count, page.last) && Full(page, starts, count)
  {
    if starts[i] < page.first {
      assert InLongChapter(starts, count, i, page.first);
      InsideIsNoEdge(starts, count, i, page.first);
    } else {
      assert InLongChapter(starts, count, i, page.last);
      InsideIsNoEdge(starts, count, i, page.last);
    }
    Added(pages, page, starts, count);
  }

  /** Within one block of an even share of `size` blocks. */
  predicate Even(blocks: int, size: int, slices: int) {
    (blocks - 1) * slices < size < (blocks + 1) * slices
  }

  /** As few slices as pages of this size can hold, all of them even. */
  ghost predicate EvenlySliced(pages: seq<Page>, size: int) {
    && (|pages| - 1) * PAGE_BLOCKS < size <= |pages| * PAGE_BLOCKS
    && (forall k {:trigger EvenAt(pages, k, size)} :: 0 <= k < |pages| ==> EvenAt(pages, k, size))
  }

  predicate EvenAt(pages: seq<Page>, k: int, size: int) { 0 <= k < |pages| && Even(pages[k].Size(), size, |pages|) }

  /** The pages between consecutive edges. */
  function Between(edge: int -> int, n: nat): (pages: seq<Page>)
    ensures |pages| == n
  {
    if n == 0 then [] else Between(edge, n - 1) + [Page(edge(n - 1), edge(n))]
  }

  lemma {:induction false} BetweenAt(edge: int -> int, n: nat, k: nat)
    requires k < n
    ensures Between(edge, n)[k] == Page(edge(k), edge(k + 1))
  {
    if k < n - 1 { BetweenAt(edge, n - 1, k); }
  }

  /** The edges ascend from the start of a chapter to its end, by at most a page each. */
  ghost predicate Tiles(edge: int -> int, n: nat, first: int, last: int) {
    && n > 0 && edge(0) == first && edge(n) == last
    && (forall k :: 0 <= k < n ==> Tile(edge, k, first, last))
  }

  predicate Tile(edge: int -> int, k: int, first: int, last: int) {
    0 < edge(k + 1) - edge(k) <= PAGE_BLOCKS && first <= edge(k) && edge(k + 1) <= last
  }

  /** Where the slices of a chapter that is longer than a page begin. */
  method SliceEdges(first: int, size: int) returns (edge: int -> int, slices: nat)
    requires size > PAGE_BLOCKS
    ensures Tiles(edge, slices, first, first + size) && EvenlySliced(Between(edge, slices), size)
  {
    slices := (size + PAGE_BLOCKS - 1) / PAGE_BLOCKS;
    var n: int := slices;
    edge := slice => if n > 0 then first + Cut(size, n, slice) else first;
    SliceEnds(size, slices);
    ghost var end := first + size;
    forall k | 0 <= k < slices
      ensures Tile(edge, k, first, end)
    {
      SliceInside(size, slices, k);
    }
    ghost var pages := Between(edge, slices);
    forall k | 0 <= k < slices
      ensures EvenAt(pages, k, size)
    {
      BetweenAt(edge, slices, k);
      SliceEven(size, slices, k);
    }
  }

  lemma SliceInside(size: int, slices: int, k: int)
    requires 0 <= k < slices <= size <= slices * PAGE_BLOCKS
    ensures 0 < Cut(size, slices, k + 1) - Cut(size, slices, k) <= PAGE_BLOCKS
    ensures 0 <= Cut(size, slices, k) && Cut(size, slices, k + 1) <= size
  {
    SliceEnds(size, slices);
    SliceFits(size, slices, k);
    if k > 0 { CutInside(size, slices, k); }
    if k + 1 < slices { CutInside(size, slices, k + 1); }
  }

  /** Cuts a chapter that is longer than a page into even slices. */
  method Slices(pages: seq<Page>, starts: seq<int>, count: int, i: nat) returns (all: seq<Page>)
    requires Chapters(starts, count) && i < |starts| && EndOf(starts, count, i) - starts[i] > PAGE_BLOCKS
    requires Paged(pages, starts, count, starts[i])
    requires pages != [] ==> Full(pages[|pages| - 1], starts, count)
    ensures Paged(all, starts, count, EndOf(starts, count, i)) && pages <= all && all != []
    ensures Full(all[|all| - 1], starts, count)
    ensures SlicesOf(all, |pages|, |all|, starts[i], EndOf(starts, count, i))
  {
    var edge, slices := SliceEdges(starts[i], EndOf(starts, count, i) - starts[i]);
    all := AddBetween(pages, starts, count, i, edge, slices);
    assert all[|pages|..|all|] == Between(edge, slices);
    BetweenAt(edge, slices, 0);
  }

  method AddBetween(pages: seq<Page>, starts: seq<int>, count: int, i: nat, edge: int -> int, slices: nat) returns (all: seq<Page>)
    requires Chapters(starts, count) && i < |starts| && EndOf(starts, count, i) - starts[i] > PAGE_BLOCKS
    requires Paged(pages, starts, count, starts[i])
    requires pages != [] ==> Full(pages[|pages| - 1], starts, count)
    requires Tiles(edge, slices, starts[i], EndOf(starts, count, i))
    ensures Paged(all, starts, count, EndOf(starts, count, i)) && pages <= all && all != []
    ensures Full(all[|all| - 1], starts, count)
    ensures all == pages + Between(edge, slices)
  {
    all := pages;
    for slice := 0 to slices
      invariant all == pages + Between(edge, slice) && Paged(all, starts, count, edge(slice))
      invariant all != [] ==> Full(all[|all| - 1], starts, count)
    {
      assert Tile(edge, slice, starts[i], EndOf(starts, count, i));
      var page := Page(edge(slice), edge(slice + 1));
      SliceAdded(all, page, starts, count, i);
      all := all + [page];
    }
  }

  function Starts(count: int, chapters: seq<int>): seq<int>
    requires count >= 0
  {
    StartsFrom(count, set first <- chapters, 0)
  }

  lemma StartsAreChapters(count: int, chapters: seq<int>)
    requires count > 0
    ensures Chapters(Starts(count, chapters), count)
    ensures forall b :: b in Starts(count, chapters) <==> 0 <= b < count && (b == 0 || b in chapters)
  {
    var firsts := set first <- chapters;
    forall b | 0 <= b < count && (b == 0 || b in chapters)
      ensures b in Starts(count, chapters)
    {
      EveryStart(count, firsts, 0, b);
    }
    assert 0 in Starts(count, chapters);
  }

  function Open(page: Option<Page>): seq<Page> {
    match page case None => [] case Some(p) => [p]
  }

  /** The open page is closed when the next chapter does not fit on it. */
  lemma Closed(pages: seq<Page>, page: Option<Page>, starts: seq<int>, count: int, i: nat)
    requires Chapters(starts, count) && i < |starts| && Paged(pages + Open(page), starts, count, starts[i])
    requires if page.Some? then EndOf(starts, count, i) - page.value.first > PAGE_BLOCKS
             else pages != [] ==> Full(pages[|pages| - 1], starts, count)
    ensures var all := pages + Open(page); all != [] ==> Full(all[|all| - 1], starts, count)
  {
    if page.Some? {
      assert (pages + Open(page))[|pages|] == page.value;
      forall j | 0 <= j < |starts| && starts[j] == page.value.last
        ensures j == i
      {
        assert j < i ==> Ascend(starts, count, j, i);
        assert i < j ==> Ascend(starts, count, i, j);
      }
    } else {
      assert pages + Open(page) == pages;
    }
  }

  lemma LastOf(pages: seq<Page>, page: Page)
    ensures (pages + [page])[|pages|] == page && |pages + [page]| == |pages| + 1
  {
  }

  /** One chapter more: the body of the loop of `pagesFor`. */
  method AddChapter(pages: seq<Page>, page: Option<Page>, starts: seq<int>, count: int, i: nat)
    returns (all: seq<Page>, open: Option<Page>)
    requires Chapters(starts, count) && i < |starts|
    requires Paged(pages + Open(page), starts, count, starts[i])
    requires page == None && pages != [] ==> Full(pages[|pages| - 1], starts, count)
    ensures Paged(all + Open(open), starts, count, EndOf(starts, count, i))
    ensures open == None && all != [] ==> Full(all[|all| - 1], starts, count)
    ensures pages <= all && SlicedIn(all, starts, count, i)
  {
    var first, end := starts[i], EndOf(starts, count, i);
    all := pages;
    if page.Some? && end - page.value.first <= PAGE_BLOCKS && end - first <= PAGE_BLOCKS {
      open := Some(page.value.(last := end));
      LastOf(pages, page.value);
      Grown(pages, page.value, open.value, starts, count);
    } else {
      Closed(pages, page, starts, count, i);
      all, open := StartPages(pages + Open(page), starts, count, i);
    }
  }

  method StartPages(pages: seq<Page>, starts: seq<int>, count: int, i: nat) returns (all: seq<Page>, open: Option<Page>)
    requires Chapters(starts, count) && i < |starts| && Paged(pages, starts, count, starts[i])
    requires pages != [] ==> Full(pages[|pages| - 1], starts, count)
    ensures Paged(all + Open(open), starts, count, EndOf(starts, count, i))
    ensures open == None && all != [] ==> Full(all[|all| - 1], starts, count)
    ensures pages <= all && SlicedIn(all, starts, count, i)
  {
    var first, end := starts[i], EndOf(starts, count, i);
    if end - first > PAGE_BLOCKS {
      all := Slices(pages, starts, count, i);
      open := None;
      assert all + Open(open) == all;
    } else {
      all, open := pages, Some(Page(first, end));
      Added(all, open.value, starts, count);
    }
  }

  /** If the `i`th chapter is longer than a page, it is sliced evenly among these pages. */
  ghost predicate SlicedIn(pages: seq<Page>, starts: seq<int>, count: int, i: nat) {
    && i < |starts|
    && (EndOf(starts, count, i) - starts[i] > PAGE_BLOCKS ==>
          exists a: nat, b: nat :: SlicesOf(pages, a, b, starts[i], EndOf(starts, count, i)))
  }

  ghost predicate AllSliced(pages: seq<Page>, starts: seq<int>, count: int, n: nat) {
    forall i: nat :: i < n ==> SlicedIn(pages, starts, count, i)
  }

  ghost predicate SlicesOf(pages: seq<Page>, a: nat, b: nat, first: int, end: int) {
    a < b <= |pages| && pages[a].first == first && EvenlySliced(pages[a..b], end - first)
  }

  lemma StaySliced(pages: seq<Page>, all: seq<Page>, starts: seq<int>, count: int, n: nat)
    requires pages <= all && AllSliced(pages, starts, count, n)
    ensures AllSliced(all, starts, count, n)
  {
    forall i: nat | i < n
      ensures SlicedIn(all, starts, count, i)
    {
      assert SlicedIn(pages, starts, count, i);
      if EndOf(starts, count, i) - starts[i] > PAGE_BLOCKS {
        var a: nat, b: nat :| SlicesOf(pages, a, b, starts[i], EndOf(starts, count, i));
        assert all[a..b] == pages[a..b] && all[a] == pages[a];
        assert SlicesOf(all, a, b, starts[i], EndOf(starts, count, i));
      }
    }
  }

  method PagesFor(count: int, chapters: seq<int>) returns (pages: seq<Page>)
    ensures count <= 0 ==> pages == []
    ensures count > 0 ==> Paged(pages, Starts(count, chapters), count, count)
    ensures count > 0 ==> AllSliced(pages, Starts(count, chapters), count, |Starts(count, chapters)|)
  {
    if count <= 0 { return []; }
    StartsAreChapters(count, chapters);
    pages := AddChapters(Starts(count, chapters), count);
  }

  method AddChapters(starts: seq<int>, count: int) returns (pages: seq<Page>)
    requires Chapters(starts, count)
    ensures Paged(pages, starts, count, count) && AllSliced(pages, starts, count, |starts|)
  {
    pages := [];
    var page: Option<Page> := None;
    for i := 0 to |starts|
      invariant Paged(pages + Open(page), starts, count, StartOf(starts, count, i))
      invariant page == None && pages != [] ==> Full(pages[|pages| - 1], starts, count)
      invariant AllSliced(pages, starts, count, i)
    {
      ghost var before := pages;
      pages, page := AddChapter(pages, page, starts, count, i);
      StaySliced(before, pages, starts, count, i);
    }
    StaySliced(pages, pages + Open(page), starts, count, |starts|);
    pages := pages + Open(page);
  }

  lemma {:induction false} PagesInOrder(pages: seq<Page>, count: int, j: nat, k: nat)
    requires Partition(pages, count) && j < k < |pages|
    ensures pages[j].last <= pages[k].first
  {
    assert Adjoins(pages, k);
    if j + 1 < k { PagesInOrder(pages, count, j, k - 1); }
  }

  /** The page to show for a block: the only one that holds it. */
  method PageOf(pages: seq<Page>, ghost count: int, index: int) returns (low: nat)
    requires Partition(pages, count)
    ensures 0 <= index < count ==>
              low < |pages| && (forall k :: 0 <= k < |pages| ==> (pages[k].Holds(index) <==> k == low))
    ensures index < 0 ==> low == 0
    ensures index >= count > 0 ==> low == |pages| - 1
  {
    forall j, k | 0 <= j < k < |pages| ensures pages[j].last <= pages[k].first {
      PagesInOrder(pages, count, j, k);
    }
    low := 0;
    var high := |pages| - 1;
    while low < high
      invariant if pages == [] then low == 0 && high == -1 else low <= high < |pages|
      invariant low > 0 ==> pages[low].first <= index
      invariant high + 1 < |pages| ==> index < pages[high + 1].first
    {
      var mid := (low + high + 1) / 2;
      if pages[mid].first <= index {
        low := mid;
      } else {
        high := mid - 1;
      }
    }
    assert low + 1 < |pages| ==> Adjoins(pages, low + 1);
  }
}
