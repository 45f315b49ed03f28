/** The request parameters of the paginated listing endpoints. */
module Dependencies {
  import opened Wrappers

  /** The page size used when none (or a non-positive one) is given. */
  const DefaultSize: int := 50

  /** The largest page size a client may ask for. */
  const MaxSize: int := 100

  datatype PaginationParams = PaginationParams(page: int, size: int, search: Option<string>, offset: int)

  /** The parameters `get_pagination_params` returns for the raw query values. */
  function Normalize(page: int, size: int, search: Option<string>): (p: PaginationParams)
    ensures p.page >= 1 && 1 <= p.size <= MaxSize
    ensures p.offset >= 0
  {
    var pg := if page < 1 then 1 else page;
    var sz := if size < 1 then DefaultSize else if size > MaxSize then MaxSize else size;
    assert (pg - 1) * sz >= 0 by {
      NonNegativeProduct(pg - 1, sz);
    }
    PaginationParams(pg, sz, search, (pg - 1) * sz)
  }

  lemma NonNegativeProduct(a: int, b: int)
    requires a >= 0 && b >= 0
    ensures a * b >= 0
  {
  }

  /** `get_pagination_params`: a page below 1 becomes 1, a size below 1 the
      default and a size above the maximum the maximum; the offset is the
      number of rows on the pages before the requested one. */
  method GetPaginationParams(page: int, size: int, search: Option<string>) returns (p: PaginationParams)
    ensures p == Normalize(page, size, search)
  {
    var pg, sz := page, size;
    if pg < 1 {
      pg := 1;
    }
    if sz < 1 {
      sz := DefaultSize;
    }
    if sz > MaxSize {
      sz := MaxSize;
    }
    p := PaginationParams(pg, sz, search, (pg - 1) * sz);
  }

  predicate InRange(page: int, size: int)
  {
    page >= 1 && 1 <= size <= MaxSize
  }

  /** Each clamp acts only on values outside the accepted range; the search
      term always passes through. */
  lemma NormalizeClamps(page: int, size: int, search: Option<string>)
    ensures Normalize(page, size, search).page == (if page >= 1 then page else 1)
    ensures size < 1 ==> Normalize(page, size, search).size == DefaultSize
    ensures size > MaxSize ==> Normalize(page, size, search).size == MaxSize
    ensures 1 <= size <= MaxSize ==> Normalize(page, size, search).size == size
    ensures Normalize(page, size, search).search == search
    ensures Normalize(page, size, search).offset
         == (Normalize(page, size, search).page - 1) * Normalize(page, size, search).size
  {
  }

  /** In-range values come back unchanged, and the result is exactly the
      accepted range: normalizing is idempotent. */
  lemma InRangeUnchanged(page: int, size: int, search: Option<string>)
    ensures InRange(page, size) <==> (Normalize(page, size, search).page == page && Normalize(page, size, search).size == size)
    ensures var p := Normalize(page, size, search); Normalize(p.page, p.size, p.search) == p
  {
  }

  /** `(total + size - 1) // size`: the number of pages of a listing of total rows. */
  function PageCount(total: nat, size: int): nat
    requires size >= 1
  {
    (total + size - 1) / size
  }

  /** The page count is the ceiling of total / size: the pages hold every row
      and the last page is not empty. */
  lemma PageCountIsCeiling(total: nat, size: int)
    requires size >= 1
    ensures PageCount(total, size) * size >= total
    ensures total > 0 ==> (PageCount(total, size) - 1) * size < total
    ensures total == 0 ==> PageCount(total, size) == 0
  {
    var q, r := (total + size - 1) / size, (total + size - 1) % size;
    assert q * size + r == total + size - 1;
    assert 0 <= r < size;
  }

  /** A page past the last one starts beyond the rows and so returns none; every
      page up to the last starts at a row. */
  lemma PageHasRowsIffWithinCount(total: nat, page: int, size: int, search: Option<string>)
    requires total > 0
    ensures var p := Normalize(page, size, search);
      p.offset < total <==> p.page <= PageCount(total, p.size)
  {
    var p := Normalize(page, size, search);
    PageCountIsCeiling(total, p.size);
    if p.page <= PageCount(total, p.size) {
      assert (p.page - 1) * p.size <= (PageCount(total, p.size) - 1) * p.size by {
        MonotoneProduct(p.page - 1, PageCount(total, p.size) - 1, p.size);
      }
    } else {
      assert (p.page - 1) * p.size >= PageCount(total, p.size) * p.size by {
        MonotoneProduct(PageCount(total, p.size), p.page - 1, p.size);
      }
    }
  }

  lemma MonotoneProduct(a: int, b: int, c: int)
    requires a <= b && c >= 0
    ensures a * c <= b * c
  {
    assert b * c - a * c == (b - a) * c;
    NonNegativeProduct(b - a, c);
  }
}
