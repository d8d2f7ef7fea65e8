/**
 * The concrete situations the test suite of the pagination helper pins
 * down, each stated on the model. Unless noted, the helper holds 100 items
 * in pages of 10, so there are 10 pages.
 */
module PaginationScenarios {
  import opened Pagination

  /** Page 0 is raised to 1, page 25 lowered to the last page, page 5 kept. */
  lemma ClosestPageScenario()
    ensures ClosestPage(New(10, 1, 100), 0) == 1
    ensures ClosestPage(New(10, 1, 100), 25) == 10
    ensures ClosestPage(New(10, 1, 100), 5) == 5
  {
  }

  /** The getters report the construction arguments and the derived counts. */
  lemma GettersScenario()
    ensures LastPage(New(10, 1, 100)) == 10
    ensures PageCount(New(10, 1, 100)) == 10
    ensures New(5, 1, 100).limit == 5
    ensures Page(New(10, 3, 100)) == 3
    ensures New(10, 1, 100).total == 100
  {
  }

  /** Page 1 starts at offset 0 and page 5 at offset 40. */
  lemma OffsetScenario()
    ensures New(10, 1, 100).offset == 0
    ensures New(10, 5, 100).offset == 40
  {
  }

  /** Neighbouring pages from the middle and from either end. */
  lemma NeighbourScenario()
    ensures NextPage(New(10, 5, 100)) == 6
    ensures NextPage(New(10, 10, 100)) == 10
    ensures PreviousPage(New(10, 5, 100)) == 4
    ensures PreviousPage(New(10, 1, 100)) == 1
    ensures HasNext(New(10, 1, 100)) && !HasNext(New(10, 10, 100))
    ensures HasPrevious(New(10, 5, 100)) && !HasPrevious(New(10, 1, 100))
  {
  }

  /** Page 0 and page 300 are invalid; page 1 is valid. */
  lemma ValidityScenario()
    ensures !IsPageValid(New(10, 1, 100), 0)
    ensures IsPageValid(New(10, 1, 100), 1)
    ensures !IsPageValid(New(10, 1, 100), 300)
  {
  }

  /** `Next` and `Previous` move by one page, except past either end. */
  lemma NavigationScenario()
    ensures Next(New(10, 5, 100)).offset == 50
    ensures Next(New(10, 10, 100)).offset == 90
    ensures Previous(New(10, 2, 100)).offset == 0
    ensures Previous(New(10, 1, 100)).offset == 0
  {
  }

  /** The setters: limit 25, a negative limit, offset 25 and page 5. */
  lemma SetterScenario()
    ensures SetLimit(New(10, 1, 100), 25).limit == 25
    ensures SetLimit(New(10, 1, 100), -1).limit == 0
    ensures SetOffset(New(10, 1, 100), 25).offset == 25
    ensures SetLimit(New(10, 1, 100), -1).offset == 0
    ensures Page(SetPage(New(10, 1, 100), 5)) == 5
  {
  }
}
