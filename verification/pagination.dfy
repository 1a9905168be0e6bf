/** Pagination of the image listing in `homeHandler`: the total page count,
    the clamped current page and the slice of the listing shown on it. */
module Pagination {
  import opened Decimal

  /** `itemsPerPage`. */
  const ItemsPerPage: nat := 10

  /** Number of pages for `count` images: the least positive page count
      whose pages can hold them all, i.e. `max(1, ceil(count / 10))`. */
  function TotalPages(count: nat): (pages: nat)
    ensures pages >= 1
    ensures count <= pages * ItemsPerPage
    ensures pages == 1 || (pages - 1) * ItemsPerPage < count
  {
    var pages := (count + ItemsPerPage - 1) / ItemsPerPage;
    if pages == 0 then 1 else pages
  }

  /** The page `homeHandler` shows for the `page` query value: a number that
      does not parse, or is below 1, gives page 1; one past the last page gives
      the last page; anything else is kept. */
  function ResolvePage(pageText: string, count: nat): (page: int)
    ensures 1 <= page <= TotalPages(count)
    ensures Atoi(pageText).None? ==> page == 1
    ensures Atoi(pageText).Some? && Atoi(pageText).value < 1 ==> page == 1
    ensures Atoi(pageText).Some? && Atoi(pageText).value > TotalPages(count) ==> page == TotalPages(count)
    ensures Atoi(pageText).Some? && 1 <= Atoi(pageText).value <= TotalPages(count) ==> page == Atoi(pageText).value
  {
    var parsed := Atoi(pageText);
    var requested := if parsed.None? || parsed.value < 1 then 1 else parsed.value;
    var total := TotalPages(count);
    if requested > total then total else requested
  }

  /** Index of the first item of `page`. */
  function PageStart(page: int): int {
    (page - 1) * ItemsPerPage
  }

  /** The items shown on `page` (from 1): items `[(page-1)*10, min(page*10, n))`,
      or nothing when the page starts past the end. */
  function PageSlice<T>(items: seq<T>, page: int): (shown: seq<T>)
    requires page >= 1
    ensures |shown| <= ItemsPerPage
    ensures PageStart(page) < |items| ==> |shown| == if |items| - PageStart(page) < ItemsPerPage then |items| - PageStart(page) else ItemsPerPage
    ensures PageStart(page) >= |items| ==> shown == []
    ensures forall i :: 0 <= i < |shown| ==> PageStart(page) + i < |items| && shown[i] == items[PageStart(page) + i]
  {
    var start := PageStart(page);
    var end := if start + ItemsPerPage > |items| then |items| else start + ItemsPerPage;
    if start < |items| then items[start..end] else []
  }

  /** A page within the page count of a non-empty listing shows something. */
  lemma PageNonEmpty<T>(items: seq<T>, page: int)
    requires |items| > 0 && 1 <= page <= TotalPages(|items|)
    ensures 0 < |PageSlice(items, page)|
  {
  }

  /** Pages 1 to `k`, one after another. */
  function Pages<T>(items: seq<T>, k: nat): seq<T>
  {
    if k == 0 then [] else Pages(items, k - 1) + PageSlice(items, k)
  }

  /** Pages 1 to `k` are the first `min(10 * k, n)` items. */
  lemma {:induction false} PagesPrefix<T>(items: seq<T>, k: nat)
    ensures k * ItemsPerPage <= |items| ==> Pages(items, k) == items[..k * ItemsPerPage]
    ensures k * ItemsPerPage > |items| ==> Pages(items, k) == items
  {
    if k > 0 {
      PagesPrefix(items, k - 1);
      var start := PageStart(k);
      assert start == (k - 1) * ItemsPerPage;
      assert k * ItemsPerPage == start + ItemsPerPage;
      if start < |items| {
        var end := if start + ItemsPerPage > |items| then |items| else start + ItemsPerPage;
        PageIsSlice(items, k);
        SliceJoin(items, start, end);
        if end == |items| {
          WholePrefix(items);
        }
      } else {
        AppendEmpty(Pages(items, k - 1), PageSlice(items, k));
        if start == |items| {
          WholePrefix(items);
        }
      }
    }
  }

  lemma PageIsSlice<T>(items: seq<T>, page: int)
    requires page >= 1 && PageStart(page) < |items|
    ensures var end := if PageStart(page) + ItemsPerPage > |items| then |items| else PageStart(page) + ItemsPerPage;
      PageSlice(items, page) == items[PageStart(page)..end]
  {
  }

  lemma SliceJoin<T>(items: seq<T>, a: nat, b: nat)
    requires a <= b <= |items|
    ensures items[..a] + items[a..b] == items[..b]
  {
  }

  lemma WholePrefix<T>(items: seq<T>)
    ensures items[..|items|] == items
  {
  }

  lemma AppendEmpty<T>(xs: seq<T>, ys: seq<T>)
    requires ys == []
    ensures xs + ys == xs
  {
  }

  /** Showing every page in turn shows the whole listing, each item once and
      in order. */
  lemma PagesCoverListing<T>(items: seq<T>)
    ensures Pages(items, TotalPages(|items|)) == items
  {
    var total := TotalPages(|items|);
    PagesPrefix(items, total);
    if total * ItemsPerPage <= |items| {
      assert items[..total * ItemsPerPage] == items;
    }
  }

  /** Each item of the listing is on exactly one page, `i / 10 + 1`. */
  lemma ItemOnOnePage<T>(items: seq<T>, i: nat, page: int)
    requires i < |items| && 1 <= page <= TotalPages(|items|)
    ensures PageStart(page) <= i < PageStart(page) + |PageSlice(items, page)| <==> page == i / ItemsPerPage + 1
  {
  }

  /** A page number too large for `int` is a parse error, so it resolves to
      the first page rather than the last. */
  lemma OverflowingPageIsFirstPage(n: int, count: nat)
    requires n > MaxInt
    ensures ResolvePage(Itoa(n), count) == 1
  {
    AtoiItoa(n);
  }

  /** Every page number that fits in an `int` is clamped into range. */
  lemma PageNumberClamped(n: int, count: nat)
    requires MinInt <= n <= MaxInt
    ensures ResolvePage(Itoa(n), count) == if n < 1 then 1 else if n > TotalPages(count) then TotalPages(count) else n
  {
    AtoiItoa(n);
  }
}
