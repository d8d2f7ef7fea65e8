/**
 * The pagination helper: a value holding the page size (`limit`), the
 * position of the first item of the current page (`offset`) and the item
 * count (`total`), from which every other pagination quantity is derived.
 *
 * The offset is stored rather than the page number, so that setting an
 * offset that is not a multiple of the limit is kept exactly. The offset is
 * an `int`: setting a page below 1 is not clamped and yields a negative
 * offset, while setting a negative offset directly clamps it to 0.
 *
 * Every operation that needs a page number divides by the limit and so
 * requires `limit > 0`.
 */
module Pagination {
  import opened PageMath

  datatype Helper = Helper(limit: nat, offset: int, total: nat)

  /** The offset is the first offset of some page. */
  predicate Aligned(h: Helper)
  {
    h.limit > 0 && h.offset % h.limit == 0
  }

  /** Distance between two page numbers. */
  function Dist(a: int, b: int): (d: nat)
  {
    if a <= b then b - a else a - b
  }

  /** Builds a helper positioned on `page` (no range check on `page`). */
  function New(limit: nat, page: int, total: nat): (h: Helper)
    ensures h.limit == limit && h.total == total
    ensures h.offset == (page - 1) * limit
    ensures limit > 0 ==> Aligned(h) && Page(h) == page
  {
    SetPage(Helper(limit, 0, total), page)
  }

  /** Current page: the page that holds the item at the current offset. */
  function Page(h: Helper): (p: int)
    requires h.limit > 0
    ensures Aligned(h) ==> h.offset == (p - 1) * h.limit
    ensures h.offset >= 0 ==> p >= 1
  {
    h.offset / h.limit + 1
  }

  /** Number of pages: the ceiling of `total / limit`. */
  function PageCount(h: Helper): (n: nat)
    requires h.limit > 0
    ensures IsCeiling(h.total, h.limit, n)
  {
    var q := (h.total + h.limit - 1) / h.limit;
    assert q * h.limit + (h.total + h.limit - 1) % h.limit == h.total + h.limit - 1;
    q
  }

  /** The last page, which is the page count. */
  function LastPage(h: Helper): (p: nat)
    requires h.limit > 0
    ensures p == PageCount(h)
    ensures h.total > 0 ==> IsPageValid(h, p)
    ensures forall q :: IsPageValid(h, q) ==> q <= p
  {
    PageCount(h)
  }

  /** Whether `page` is a page number in `[1, PageCount(h)]`. */
  predicate IsPageValid(h: Helper, page: int)
    requires h.limit > 0
    ensures IsPageValid(h, page) <==> page >= 1 && (page - 1) * h.limit < h.total
  {
    WithinCountIffNonEmpty(h, page);
    1 <= page <= PageCount(h)
  }

  /** A page number at least 1 is within the page count exactly when its first item exists. */
  lemma {:induction false} WithinCountIffNonEmpty(h: Helper, page: int)
    requires h.limit > 0
    ensures page >= 1 ==> (page <= PageCount(h) <==> (page - 1) * h.limit < h.total)
  {
    var n := PageCount(h);
    if page >= 1 && page <= n {
      MulMonotone(page - 1, n - 1, h.limit);
    } else if page >= 1 {
      MulMonotone(n, page - 1, h.limit);
    }
  }

  /** `page` brought into the range of valid pages. */
  function ClosestPage(h: Helper, page: int): (p: int)
    requires h.limit > 0
    ensures IsPageValid(h, page) ==> p == page
    ensures h.total > 0 ==> IsPageValid(h, p)
    ensures h.total > 0 ==> forall q :: IsPageValid(h, q) ==> Dist(p, page) <= Dist(q, page)
    ensures h.total == 0 ==> p == (if page < 1 then 1 else 0)
  {
    if page < 1 then 1
    else if page > PageCount(h) then PageCount(h)
    else page
  }

  /** Whether some item lies after the current page. */
  predicate HasNext(h: Helper)
    requires h.limit > 0
    ensures Aligned(h) ==> (HasNext(h) <==> h.offset + h.limit < h.total)
  {
    BelowCountIffItemsBeyond(h, Page(h));
    Page(h) < PageCount(h)
  }

  /** Page `p` is below the page count exactly when an item lies past its last offset. */
  lemma {:induction false} BelowCountIffItemsBeyond(h: Helper, p: int)
    requires h.limit > 0
    ensures p < PageCount(h) <==> p * h.limit < h.total
  {
    var n: int := PageCount(h);
    if p < n {
      MulMonotone(p, n - 1, h.limit);
    } else {
      MulMonotone(n, p, h.limit);
    }
  }

  /** Whether a whole page lies before the current offset. */
  predicate HasPrevious(h: Helper)
    requires h.limit > 0
    ensures HasPrevious(h) <==> h.offset >= h.limit
  {
    Page(h) > 1
  }

  /** The page after the current one, or the current page if there is none. */
  function NextPage(h: Helper): (p: int)
    requires h.limit > 0
    ensures Page(h) <= p <= Page(h) + 1
    ensures Page(h) >= 0 ==> (p == Page(h) + 1 <==> IsPageValid(h, Page(h) + 1))
    ensures IsPageValid(h, Page(h)) ==> IsPageValid(h, p)
    ensures p == Page(h) + 1 <==> Page(h) * h.limit < h.total
  {
    BelowCountIffItemsBeyond(h, Page(h));
    if HasNext(h) then Page(h) + 1 else Page(h)
  }

  /** The page before the current one, or the current page if there is none. */
  function PreviousPage(h: Helper): (p: int)
    requires h.limit > 0
    ensures Page(h) - 1 <= p <= Page(h)
    ensures Page(h) >= 1 ==> p >= 1
    ensures Page(h) <= PageCount(h) + 1 ==> (p == Page(h) - 1 <==> IsPageValid(h, Page(h) - 1))
    ensures IsPageValid(h, Page(h)) ==> IsPageValid(h, p)
    ensures p == Page(h) - 1 <==> h.offset >= h.limit
  {
    if HasPrevious(h) then Page(h) - 1 else Page(h)
  }

  /**
   * Moves one page forward; a no-op on the last page. With a zero limit the
   * move would add nothing to the offset, so it is a no-op as well.
   */
  function Next(h: Helper): (r: Helper)
    ensures r.limit == h.limit && r.total == h.total
    ensures r == h || r.offset == h.offset + h.limit
    ensures h.limit > 0 ==> (r.offset == h.offset + h.limit <==> HasNext(h))
    ensures Aligned(h) ==> r == h || r.offset < h.total
    ensures h.offset >= 0 ==> r.offset >= 0
  {
    if h.limit > 0 && HasNext(h) then h.(offset := h.offset + h.limit) else h
  }

  /** Moves one page back; a no-op on the first page. */
  function Previous(h: Helper): (r: Helper)
    ensures r.limit == h.limit && r.total == h.total
    ensures r == h || r.offset == h.offset - h.limit
    ensures h.limit > 0 ==> (r.offset == h.offset - h.limit <==> HasPrevious(h))
    ensures h.offset >= 0 ==> r.offset >= 0
  {
    if h.limit > 0 && HasPrevious(h) then h.(offset := h.offset - h.limit) else h
  }

  /** Changes the page size, clamping a negative size to 0; the offset is kept. */
  function SetLimit(h: Helper, limit: int): (r: Helper)
    ensures r.limit == if limit < 0 then 0 else limit
    ensures r.offset == h.offset && r.total == h.total
  {
    h.(limit := if limit < 0 then 0 else limit)
  }

  /** Changes the offset, clamping a negative offset to 0. */
  function SetOffset(h: Helper, offset: int): (r: Helper)
    ensures r.offset >= 0
    ensures offset >= 0 ==> r.offset == offset
    ensures offset < 0 ==> r.offset == 0
    ensures r.limit == h.limit && r.total == h.total
  {
    h.(offset := if offset < 0 then 0 else offset)
  }

  /** Moves to `page` without checking it against the page count. */
  function SetPage(h: Helper, page: int): (r: Helper)
    ensures r.limit == h.limit && r.total == h.total
    ensures h.limit > 0 ==> Aligned(r) && Page(r) == page
  {
    var r := h.(offset := (page - 1) * h.limit);
    if h.limit > 0 then
      MultipleDivides(page - 1, h.limit);
      r
    else
      r
  }
}
