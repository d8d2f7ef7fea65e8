/**
 * Properties that relate several pagination operations: the page count
 * against a division-free reference, items against pages, the navigation
 * round trips, repeated navigation, and which operations keep the offset on
 * a page boundary.
 */
module PaginationProperties {
  import opened PageMath
  import opened Pagination

  /** The page count agrees with filling pages one after another. */
  lemma PageCountIsCountPages(h: Helper)
    requires h.limit > 0
    ensures PageCount(h) == CountPages(h.total, h.limit)
  {
    CeilingUnique(h.total, h.limit, PageCount(h), CountPages(h.total, h.limit));
  }

  /** Every item lies on a valid page, between that page's first and last offset. */
  lemma ItemOnValidPage(h: Helper, item: int)
    requires h.limit > 0
    requires 0 <= item < h.total
    ensures IsPageValid(h, item / h.limit + 1)
    ensures (item / h.limit) * h.limit <= item < (item / h.limit + 1) * h.limit
  {
    var k := item / h.limit;
    assert item == k * h.limit + item % h.limit;
    assert (k + 1) * h.limit == k * h.limit + h.limit;
  }

  /** Moving forward then back returns to the starting position. */
  lemma NextThenPrevious(h: Helper)
    requires h.limit > 0
    requires h.offset >= 0
    requires HasNext(h)
    ensures Previous(Next(h)) == h
  {
  }

  /** Moving back then forward returns to the starting position, within range. */
  lemma PreviousThenNext(h: Helper)
    requires Aligned(h)
    requires HasPrevious(h)
    requires Page(h) <= PageCount(h)
    ensures Next(Previous(h)) == h
  {
    var p := Previous(h);
    MultipleDivides(Page(h) - 2, h.limit);
    assert p.offset == (Page(h) - 2) * h.limit;
    assert Aligned(p);
    assert IsPageValid(h, Page(h));
  }

  /** From a page boundary, `Next` lands on the page `NextPage` names. */
  lemma NextMovesToNextPage(h: Helper)
    requires Aligned(h)
    ensures Aligned(Next(h))
    ensures Page(Next(h)) == NextPage(h)
  {
    if HasNext(h) {
      MultipleDivides(Page(h), h.limit);
      assert Next(h).offset == Page(h) * h.limit;
    }
  }

  /** From a page boundary, `Previous` lands on the page `PreviousPage` names. */
  lemma PreviousMovesToPreviousPage(h: Helper)
    requires Aligned(h)
    ensures Aligned(Previous(h))
    ensures Page(Previous(h)) == PreviousPage(h)
  {
    if HasPrevious(h) {
      MultipleDivides(Page(h) - 2, h.limit);
      assert Previous(h).offset == (Page(h) - 2) * h.limit;
    }
  }

  /** Setting the current page back is a no-op on a page boundary. */
  lemma SetPageOfPage(h: Helper)
    requires Aligned(h)
    ensures SetPage(h, Page(h)) == h
  {
  }

  /** Page and offset addressing agree: page `p` starts at offset `(p - 1) * limit`. */
  lemma SetPageIsSetOffset(h: Helper, page: int)
    requires page >= 1
    ensures SetPage(h, page) == SetOffset(h, (page - 1) * h.limit)
  {
    MulMonotone(0, page - 1, h.limit);
  }

  /** `ClosestPage` is idempotent when there is at least one page. */
  lemma ClosestPageIdempotent(h: Helper, page: int)
    requires h.limit > 0
    requires h.total > 0
    ensures ClosestPage(h, ClosestPage(h, page)) == ClosestPage(h, page)
  {
  }

  /** With no items there is no valid page, and `ClosestPage` is not idempotent. */
  lemma ClosestPageWithoutItems(h: Helper)
    requires h.limit > 0
    requires h.total == 0
    ensures forall page :: !IsPageValid(h, page)
    ensures ClosestPage(h, 5) == 0
    ensures ClosestPage(h, ClosestPage(h, 5)) == 1
  {
  }

  /** `Next`, `Previous` and `SetPage` keep the offset on a page boundary. */
  lemma NavigationKeepsAlignment(h: Helper, page: int)
    requires Aligned(h)
    ensures Aligned(Next(h)) && Aligned(Previous(h)) && Aligned(SetPage(h, page))
  {
    NextMovesToNextPage(h);
    PreviousMovesToPreviousPage(h);
  }

  /**
   * `SetOffset` and `SetLimit` may leave the offset between page boundaries:
   * offset 25 with limit 10, and offset 10 after the limit becomes 3.
   */
  lemma SettersMayBreakAlignment()
    ensures !Aligned(SetOffset(New(10, 1, 100), 25))
    ensures Page(SetOffset(New(10, 1, 100), 25)) == 3
    ensures Aligned(New(10, 2, 100)) && !Aligned(SetLimit(New(10, 2, 100), 3))
  {
  }

  /** `k` successive calls of `Next`. */
  function Advance(h: Helper, k: nat): (r: Helper)
    ensures r.limit == h.limit && r.total == h.total
    decreases k
  {
    if k == 0 then h else Advance(Next(h), k - 1)
  }

  /** `k` successive calls of `Previous`. */
  function Rewind(h: Helper, k: nat): (r: Helper)
    ensures r.limit == h.limit && r.total == h.total
    decreases k
  {
    if k == 0 then h else Rewind(Previous(h), k - 1)
  }

  function Min(a: int, b: int): (m: int) { if a <= b then a else b }

  function Max(a: int, b: int): (m: int) { if a <= b then b else a }

  /**
   * Repeated `Next` from a page boundary at an existing item climbs one page
   * per call and stops at the last page.
   */
  lemma {:induction false} AdvanceStopsAtLastPage(h: Helper, k: nat)
    requires Aligned(h)
    requires 0 <= h.offset < h.total
    ensures Aligned(Advance(h, k))
    ensures Page(Advance(h, k)) == Min(Page(h) + k, PageCount(h))
    decreases k
  {
    assert IsPageValid(h, Page(h));
    if k > 0 {
      NextMovesToNextPage(h);
      AdvanceStopsAtLastPage(Next(h), k - 1);
    }
  }

  /**
   * Repeated `Previous` from a non-negative page boundary descends one page
   * per call and stops at page 1.
   */
  lemma {:induction false} RewindStopsAtFirstPage(h: Helper, k: nat)
    requires Aligned(h)
    requires h.offset >= 0
    ensures Aligned(Rewind(h, k))
    ensures Page(Rewind(h, k)) == Max(Page(h) - k, 1)
    decreases k
  {
    if k > 0 {
      PreviousMovesToPreviousPage(h);
      RewindStopsAtFirstPage(Previous(h), k - 1);
    }
  }
}
