/** Page arithmetic and windowed listing (`app/http/pagination.py`, `UserRepository.list`) over one fixed row order. */
module Paging {
  import opened Types

  datatype PageParams = PageParams(page: int, pageSize: int)

  datatype Page<T> = Page(items: seq<T>, total: int, page: int, pageSize: int, pages: int)

  datatype Pagination = Pagination(page: int, pageSize: int, total: int, totalPages: int, hasNext: bool,
                                   hasPrevious: bool)

  /** `Page.build`; a zero page size counts as one. */
  function Build<T>(items: seq<T>, total: nat, params: PageParams): Page<T>
    requires params.pageSize >= 0
  {
    var size := if params.pageSize != 0 then params.pageSize else 1;
    Page(items, total, params.page, params.pageSize, (total + size - 1) / size)
  }

  function ToPagination<T>(p: Page<T>): Pagination {
    Pagination(p.page, p.pageSize, p.total, p.pages, p.page < p.pages, p.page > 1)
  }

  /** `.limit(page_size).offset((page - 1) * page_size)`. */
  function Window<T>(rows: seq<T>, params: PageParams): seq<T>
    requires params.page >= 1 && params.pageSize >= 0
  {
    var offset := (params.page - 1) * params.pageSize;
    NonNegative(params.page - 1, params.pageSize);
    if offset >= |rows| then []
    else rows[offset..if offset + params.pageSize <= |rows| then offset + params.pageSize else |rows|]
  }

  /** The page a client is served: the window and the count of all rows. */
  function Serve<T>(rows: seq<T>, params: PageParams): Page<T>
    requires params.page >= 1 && params.pageSize >= 1
  {
    Build(Window(rows, params), |rows|, params)
  }

  // ---- arithmetic ----------------------------------------------------------------------------------

  lemma NonNegative(a: int, b: int)
    requires a >= 0 && b >= 0
    ensures a * b >= 0
  {
  }

  lemma Monotone(a: int, b: int, size: int)
    requires a <= b && size >= 0
    ensures a * size <= b * size
  {
    NonNegative(b - a, size);
  }

  /** Ceiling division: `page` comes before the last page exactly when rows remain after it. */
  lemma PagesIsCeiling(total: int, size: int, page: int)
    requires total >= 0 && size >= 1
    ensures page < (total + size - 1) / size <==> page * size < total
  {
    var pages := (total + size - 1) / size;
    assert pages * size <= total + size - 1 < pages * size + size;
    if page < pages {
      Monotone(page + 1, pages, size);
      assert (page + 1) * size == page * size + size;
    } else {
      Monotone(pages, page, size);
    }
  }

  // ---- one page ------------------------------------------------------------------------------------

  /** What a page says of itself: its number and size and the count of all rows; `total_pages` is the least number
      of pages that cover them; `has_next` holds exactly when rows remain after it, and then the page is full;
      `has_previous` exactly when rows can come before it. */
  lemma NextExactlyWhenRowsRemain<T>(rows: seq<T>, page: int, size: int)
    requires page >= 1 && size >= 1
    ensures var p := Serve(rows, PageParams(page, size));
            var says := ToPagination(p);
            && says.page == page && says.pageSize == size && says.total == |rows|
            && says.totalPages >= 0 && |rows| <= says.totalPages * size
            && (forall fewer: int :: fewer < says.totalPages ==> fewer * size < |rows|)
            && (says.hasNext <==> page * size < |rows|)
            && (says.hasNext ==> |p.items| == size)
            && (says.hasPrevious <==> (page - 1) * size > 0)
  {
    var p := Serve(rows, PageParams(page, size));
    PagesIsCeiling(|rows|, size, page);
    PagesIsCeiling(|rows|, size, p.pages);
    PagesIsCeiling(|rows|, size, -1);
    forall fewer: int | fewer < p.pages
      ensures fewer * size < |rows|
    {
      PagesIsCeiling(|rows|, size, fewer);
    }
    assert (page - 1) * size + size == page * size;
    OffsetIsPositive(page, size);
  }

  lemma OffsetIsPositive(page: int, size: int)
    requires page >= 1 && size >= 1
    ensures page > 1 <==> (page - 1) * size > 0
  {
    if page > 1 {
      Monotone(1, page - 1, size);
    }
  }

  /** `Page.build` keeps what it is given; a zero page size counts as one row a page. */
  lemma BuiltFromZero<T>(items: seq<T>, total: nat, page: int)
    ensures Build(items, total, PageParams(page, 0)) == Page(items, total, page, 0, total)
  {
  }

  /** Row i stands on page i / size + 1, at position i % size, and on no other page. */
  lemma EachRowOnOnePage<T>(rows: seq<T>, i: nat, page: int, size: int)
    requires i < |rows| && page >= 1 && size >= 1
    ensures page == i / size + 1 ==>
              var items := Window(rows, PageParams(page, size)); i % size < |items| && items[i % size] == rows[i]
    ensures (page - 1) * size <= i < (page - 1) * size + size <==> page == i / size + 1
    ensures i / size + 1 <= Serve(rows, PageParams(page, size)).pages
  {
    assert i == (i / size) * size + i % size;
    PagesIsCeiling(|rows|, size, i / size);
    if page - 1 < i / size {
      Monotone(page, i / size, size);
      assert page * size == (page - 1) * size + size;
    } else if page - 1 > i / size {
      Monotone(i / size + 1, page - 1, size);
      assert (i / size + 1) * size == (i / size) * size + size;
    }
  }

  // ---- all pages -----------------------------------------------------------------------------------

  /** Pages `page` to `last`, concatenated. */
  function Concatenated<T>(rows: seq<T>, size: int, page: int, last: int): seq<T>
    requires page >= 1 && size >= 1
    decreases last - page
  {
    if page > last then [] else Window(rows, PageParams(page, size)) + Concatenated(rows, size, page + 1, last)
  }

  /** What a client reads that starts at `page` and goes on while `has_next`: its end is proved by
      counting the pages left. */
  function Walk<T>(rows: seq<T>, size: int, page: int): seq<T>
    requires page >= 1 && size >= 1
    decreases Serve(rows, PageParams(page, size)).pages - page
  {
    var p := Serve(rows, PageParams(page, size));
    p.items + if ToPagination(p).hasNext then Walk(rows, size, page + 1) else []
  }

  function From<T>(rows: seq<T>, offset: int): seq<T> {
    if 0 <= offset <= |rows| then rows[offset..] else []
  }

  /** A window followed by what comes after it. */
  lemma WindowThenRest<T>(rows: seq<T>, size: int, page: int)
    requires page >= 1 && size >= 1
    ensures (page - 1) * size >= 0
    ensures Window(rows, PageParams(page, size)) + From(rows, page * size) == From(rows, (page - 1) * size)
  {
    NonNegative(page - 1, size);
    assert page * size == (page - 1) * size + size;
  }

  lemma {:induction false} ConcatenatedIsRest<T>(rows: seq<T>, size: int, page: int, last: int)
    requires page >= 1 && size >= 1 && |rows| <= last * size && page <= last + 1
    ensures Concatenated(rows, size, page, last) == From(rows, (page - 1) * size)
    decreases last - page
  {
    if page > last {
      assert (page - 1) * size == last * size;
    } else {
      ConcatenatedIsRest(rows, size, page + 1, last);
      WindowThenRest(rows, size, page);
    }
  }

  lemma {:induction false} WalkIsRest<T>(rows: seq<T>, size: int, page: int)
    requires page >= 1 && size >= 1
    ensures Walk(rows, size, page) == From(rows, (page - 1) * size)
    decreases Serve(rows, PageParams(page, size)).pages - page
  {
    var p := Serve(rows, PageParams(page, size));
    NextExactlyWhenRowsRemain(rows, page, size);
    WindowThenRest(rows, size, page);
    if ToPagination(p).hasNext {
      WalkIsRest(rows, size, page + 1);
    } else {
      assert From(rows, page * size) == [];
    }
  }

  /** Pages 1 to `total_pages` are exactly the rows in order, none lost or repeated, and so is the walk
      that follows `has_next` from page 1. */
  lemma PagesAreAllRows<T>(rows: seq<T>, size: int)
    requires size >= 1
    ensures Concatenated(rows, size, 1, Serve(rows, PageParams(1, size)).pages) == rows
    ensures Walk(rows, size, 1) == rows
  {
    NextExactlyWhenRowsRemain(rows, 1, size);
    ConcatenatedIsRest(rows, size, 1, Serve(rows, PageParams(1, size)).pages);
    WalkIsRest(rows, size, 1);
  }
}
