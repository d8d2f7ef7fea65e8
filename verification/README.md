# Pagination helper, modelled in Dafny

A model of `PaginationHelper` from jk-pagination-helper. This JavaScript class converts between
"page number" addressing and "offset/limit" addressing for paged data. A helper holds three numbers:

- the page size (`limit`),
- the current position,
- the item count (`total`).

From those it derives the page count, the last page, the offset, the next and previous pages,
has-next/has-previous flags and page validity. Five chainable mutators change it: `next`,
`previous`, `setLimit`, `setOffset` and `setPage`.

`src/pagination-helper` is not part of this model. The class's behaviour is taken from the Jest
suite `test/pagination-helper.test.js`, which fixes every operation on concrete values.

Files:

- `page_math.dfy` (module `PageMath`): ceiling division facts and `CountPages`. `CountPages` is a
  reference page count that fills pages one after another instead of dividing.
- `pagination.dfy` (module `Pagination`): the state `Helper(limit: nat, offset: int, total: nat)`
  and every operation of the class, as pure functions. Each mutator returns a new `Helper`.
- `pagination_properties.dfy` (module `PaginationProperties`): lemmas relating operations. They
  cover the reference page count, items against pages, navigation round trips, repeated
  navigation and page-boundary alignment.
- `pagination_scenarios.dfy` (module `PaginationScenarios`): the test suite's concrete cases,
  stated on the model.

Modelling decisions:

- The position is stored as an offset, not as a page. `setOffset(25)` with limit 10 must leave
  `getOffset()` at exactly 25 (test lines 291-297). So the offset is not recomputed from a page.
- The page is `offset / limit + 1`. `setPage(p)` and the constructor set the offset to
  `(p - 1) * limit`.
- The offset is an `int`. The model's `setPage` does not clamp, so a page below 1 gives a
  negative offset. The model's `setOffset` clamps a negative offset to 0. Both are modelling
  choices: the tests only set page 5 of 10 and a non-negative offset.
- The getters `getLimit`, `getOffset` and `getTotal` are the fields `limit`, `offset` and
  `total` of `Helper`.
- `next()` and `previous()` are total. With limit 0 they change nothing. This is a modelling
  choice: adding 0 to the offset is a no-op in any case, and the class's page computation for
  limit 0 is not visible.
- One might expect `getOffset() == (getPage() - 1) * getLimit()` after every mutator. With the
  model's integer (floor) page this fails after `setOffset(25)` with limit 10 (test lines
  291-297): the page is 3 and `(3 - 1) * 10` is 20. The test itself only fixes `getOffset()`
  at 25; a page computed without rounding (3.5) would keep the identity.
  `PaginationProperties.SettersMayBreakAlignment` shows that the model's `setOffset` and
  `setLimit` can leave the offset between page boundaries.
- The model's `getClosestPage` tests "below 1 gives 1" first, then "above the count gives the
  count", and otherwise keeps the page; the tests at lines 40-50 fix one case of each. With no
  items, `pageCount` is 0 and no valid page exists, so this rule returns 0 for any page of at
  least 1. `PaginationProperties.ClosestPageWithoutItems` states this.

## Model

| member | source | states |
|---|---|---|
| `Pagination.New` | test/pagination-helper.test.js:97-124 | a helper built on page `p` has offset `(p - 1) * limit`; with a positive limit it sits on a page boundary and reports page `p` |
| `Pagination.Page` | test/pagination-helper.test.js:114-124 | on a page boundary, the current page is the page whose first offset is the stored offset; a non-negative offset gives a page of at least 1 |
| `Pagination.PageCount` | test/pagination-helper.test.js:126-135 | the page count is the ceiling of `total / limit`: enough pages to hold every item, and one fewer would not be |
| `PageMath.CountPages` | test/pagination-helper.test.js:126-135 | filling pages one after another with `limit` items yields the ceiling of `total / limit`, and zero pages exactly when there are no items |
| `PaginationProperties.PageCountIsCountPages` | test/pagination-helper.test.js:126-135 | the page count equals the division-free page-by-page count |
| `Pagination.LastPage` | test/pagination-helper.test.js:53-62 | the last page equals the page count; with items it is a valid page, and every valid page is at most it |
| `Pagination.IsPageValid` | test/pagination-helper.test.js:210-228 | a page is valid exactly when it is at least 1 and its first item exists |
| `PaginationProperties.ItemOnValidPage` | test/pagination-helper.test.js:210-228 | every item index lies on a valid page, between that page's first and last offsets |
| `Pagination.ClosestPage` | test/pagination-helper.test.js:33-50 | a valid page is returned unchanged; with items, the result is a valid page and no valid page is nearer the argument; with no items, it is 1 below page 1 and 0 otherwise |
| `PaginationProperties.ClosestPageIdempotent` | test/pagination-helper.test.js:33-50 | with at least one item, clamping a clamped page changes nothing |
| `PaginationProperties.ClosestPageWithoutItems` | test/pagination-helper.test.js:33-50 | with no items no page is valid, page 5 is clamped to 0, and clamping again gives 1 |
| `Pagination.HasNext` | test/pagination-helper.test.js:170-188 | on a page boundary, there is a next page exactly when some item lies after the current page |
| `Pagination.HasPrevious` | test/pagination-helper.test.js:190-208 | there is a previous page exactly when a whole page lies before the current offset |
| `Pagination.NextPage` | test/pagination-helper.test.js:77-95 | the next page is the current page or one more; it is one more exactly when an item lies past the end of the current page, which from page 0 or above means exactly when that page is valid; it stays valid if the current page is |
| `Pagination.PreviousPage` | test/pagination-helper.test.js:138-156 | the previous page is the current page or one less; it is one less exactly when a whole page lies before the current offset; it never drops below 1 from page 1 or above; up to one past the count it is one less exactly when that page is valid |
| `Pagination.Next` | test/pagination-helper.test.js:230-248 | `next()` adds exactly `limit` to the offset when there is a next page and otherwise changes nothing; from a page boundary it never moves past the last item; limit and total are kept |
| `Pagination.Previous` | test/pagination-helper.test.js:250-268 | `previous()` subtracts exactly `limit` when there is a previous page and otherwise changes nothing; a non-negative offset stays non-negative; limit and total are kept |
| `PaginationProperties.NextThenPrevious` | test/pagination-helper.test.js:230-268 | when there is a next page, from a non-negative offset, moving forward then back returns to the start |
| `PaginationProperties.PreviousThenNext` | test/pagination-helper.test.js:230-268 | from a page boundary past page 1 and at or below the last page, moving back then forward returns to the start |
| `PaginationProperties.NextMovesToNextPage` | test/pagination-helper.test.js:77-95 | from a page boundary, `next()` lands on a boundary at the page `getNextPage()` names |
| `PaginationProperties.PreviousMovesToPreviousPage` | test/pagination-helper.test.js:138-156 | from a page boundary, `previous()` lands on a boundary at the page `getPreviousPage()` names |
| `PaginationProperties.AdvanceStopsAtLastPage` | test/pagination-helper.test.js:230-248 | `k` chained `next()` calls from a valid page reach page `min(page + k, pageCount)` |
| `PaginationProperties.RewindStopsAtFirstPage` | test/pagination-helper.test.js:250-268 | `k` chained `previous()` calls from page 1 or above reach page `max(page - k, 1)` |
| `PaginationProperties.NavigationKeepsAlignment` | test/pagination-helper.test.js:230-268 | `next()`, `previous()` and `setPage()` keep the offset on a page boundary |
| `Pagination.SetLimit` | test/pagination-helper.test.js:270-287 | the new limit is the argument, or 0 if it is negative; offset and total are kept |
| `Pagination.SetOffset` | test/pagination-helper.test.js:290-307 | the new offset is exactly a non-negative argument, even off a page boundary, or 0 for a negative one; limit and total are kept |
| `Pagination.SetPage` | test/pagination-helper.test.js:310-318 | with a positive limit, the helper reports exactly the given page, on a page boundary; the model applies no range clamping |
| `PaginationProperties.SetPageOfPage` | test/pagination-helper.test.js:310-318 | on a page boundary, setting the current page again changes nothing |
| `PaginationProperties.SetPageIsSetOffset` | test/pagination-helper.test.js:290-318 | for a page of at least 1, setting the page equals setting the offset `(page - 1) * limit` |
| `PaginationProperties.SettersMayBreakAlignment` | test/pagination-helper.test.js:290-298 | offset 25 with limit 10 is kept off a page boundary, on page 3; changing the limit from 10 to 3 leaves offset 10 off a boundary |
| `PaginationScenarios.ClosestPageScenario` | test/pagination-helper.test.js:33-50 | with 100 items in pages of 10, pages 0, 25 and 5 clamp to 1, 10 and 5 |
| `PaginationScenarios.GettersScenario` | test/pagination-helper.test.js:53-168 | the last page and page count are 10; the limit, page and total are those given at construction |
| `PaginationScenarios.OffsetScenario` | test/pagination-helper.test.js:97-111 | page 1 starts at offset 0 and page 5 at offset 40 |
| `PaginationScenarios.NeighbourScenario` | test/pagination-helper.test.js:77-208 | the next page of 5 is 6 and of 10 is 10; the previous page of 5 is 4 and of 1 is 1; the has-next and has-previous flags at these pages |
| `PaginationScenarios.ValidityScenario` | test/pagination-helper.test.js:210-228 | pages 0 and 300 are invalid and page 1 is valid |
| `PaginationScenarios.NavigationScenario` | test/pagination-helper.test.js:230-268 | `next()` from page 5 gives offset 50 and from page 10 keeps 90; `previous()` from pages 2 and 1 gives 0 |
| `PaginationScenarios.SetterScenario` | test/pagination-helper.test.js:270-318 | limit 25 is kept, limit -1 becomes 0 and leaves offset 0, offset 25 is kept exactly, and page 5 is reported after `setPage(5)` |

## Left out

- `Pagination.PageCount`, `LastPage`, `IsPageValid`, `ClosestPage`, `HasNext`, `HasPrevious`,
  `NextPage`, `PreviousPage`, `Page`: these require `limit > 0`. With limit 0, JavaScript
  divides by zero and yields `Infinity` or `NaN`. No test covers that case, and unbounded
  integers cannot represent those values.
- `Pagination.Page`: the rounding of the page for an offset off a page boundary is untested. The
  model uses floor division, and `Page`'s contracts speak only of offsets on a boundary.
- `Pagination.HasPrevious`, `Pagination.PreviousPage`, `Pagination.Previous`: their contracts
  state "a whole page lies before the current offset" for every offset. Off a page boundary that
  follows the model's floor rounding (offset 5 with limit 10 has no previous page), which the
  tests do not fix.
- `Pagination.SetOffset`: no test exercises clamping a negative offset to 0. The test titled that
  way (line 300) calls `setLimit(-1)` instead. The clamp follows that test's title.
- `Pagination.SetPage`: behaviour for pages outside `[1, pageCount]` is untested. Keeping the page
  unclamped, with a negative offset below page 1, is a modelling choice; clamping would agree
  with the tests equally.
- `Pagination.New`: the same holds for a constructor page outside `[1, pageCount]`.
- `Pagination.SetLimit`: keeping the offset, rather than the page, when the limit changes is
  untested beyond an offset of 0.
- Constructor defaults for omitted options and the `return this` chaining: the model takes all
  three values explicitly, and mutators return a new value.
- Non-integer and negative arguments to the constructor: limit and total are `nat` there.
- JavaScript numbers are IEEE doubles; the model uses unbounded integers throughout. Non-integer
  arguments (`setLimit(2.5)`, `setOffset(2.5)`, `setPage(1.5)`, `isPageValid(1.5)`,
  `getClosestPage(1.5)`) and the loss of integer precision above 2^53 are not modelled; no test
  uses either.
- The import check at lines 28-30 checks only a `typeof` and has nothing to model.
