/** The public notice board: ten notices a page, fetched by offset, with a
    search box over the page's notices, Read More for long contents, and
    Previous / numbered / Next pagination.

    The endpoint's answer and the current time are parameters. */
module NoticeBoard {
  import opened Wrappers
  import opened Types
  import opened Seqs
  import opened Text
  import NoticesApi
  import NoticeView

  const ItemsPerPage: nat := 10

  /** Contents longer than this are cut short until expanded. */
  const PreviewLength: nat := 200

  // ---------------------------------------------------------------------------
  // Paging arithmetic

  /** The offset of the first notice of page `page`. */
  function Offset(page: int): (r: int)
    ensures page >= 1 ==> r >= 0 && r % ItemsPerPage == 0
    ensures r + ItemsPerPage == page * ItemsPerPage
  {
    (page - 1) * ItemsPerPage
  }

  /** The query the board sends for a page: the page size and the offset,
      written in decimal. */
  function Query(page: int): (string, string)
    requires page >= 1
  {
    (NatToString(ItemsPerPage), NatToString(Offset(page)))
  }

  /** The board asks the endpoint for exactly the ten rows of its page. */
  lemma QueryRange(page: int)
    requires page >= 1
    ensures var (limit, offset) := Query(page);
      NoticesApi.RequestedRange(Some(limit), Some(offset))
        == Some((Offset(page), Offset(page) + ItemsPerPage - 1))
  {
    var first: nat := Offset(page);
    assert Query(page) == (NatToString(ItemsPerPage), NatToString(first));
    NoticesApi.WrittenRange(ItemsPerPage, first);
  }

  /** `Math.ceil(total / 10)`: `None` is the NaN of an unreadable total. */
  function TotalPages(total: Option<int>): (r: Option<int>)
    ensures r.Some? <==> total.Some?
    ensures r.Some? ==> ItemsPerPage * (r.value - 1) < total.value <= ItemsPerPage * r.value
  {
    if total.None? then None else Some(-((-total.value) / ItemsPerPage))
  }

  /** The pagination bar is shown when there is more than one page. */
  predicate PaginationShown(totalPages: Option<int>)
  {
    totalPages.Some? && totalPages.value > 1
  }

  function PreviousPage(page: int): int
  {
    if page - 1 > 1 then page - 1 else 1
  }

  function NextPage(page: int, totalPages: int): int
  {
    if page + 1 < totalPages then page + 1 else totalPages
  }

  /** The numbered buttons: pages 1 to 5 at most. */
  function PageButtons(totalPages: int): (r: seq<int>)
    requires totalPages > 1
    ensures |r| == if totalPages < 5 then totalPages else 5
  {
    seq(if totalPages < 5 then totalPages else 5, i => i + 1)
  }

  /** Previous, Next and every numbered button lead to a page between 1 and
      the number of pages, from any page in that range. */
  lemma PagesStayInRange(page: int, totalPages: int)
    requires 1 <= page <= totalPages && totalPages > 1
    ensures 1 <= PreviousPage(page) <= page && PreviousPage(page) <= totalPages
    ensures page <= NextPage(page, totalPages) <= totalPages
    ensures forall i :: 0 <= i < |PageButtons(totalPages)| ==> 1 <= PageButtons(totalPages)[i] <= totalPages
  {
  }

  /** Previous stops at the first page and Next at the last. */
  lemma PagingEnds(totalPages: int)
    requires totalPages > 1
    ensures PreviousPage(1) == 1
    ensures NextPage(totalPages, totalPages) == totalPages
  {
  }

  /** The "Showing x to y" line: `((page - 1) * 10) + 1` and
      `Math.min(page * 10, total)`, where a NaN total (`None`) makes the
      second number NaN as well. */
  function Showing(page: int, total: Option<int>): (int, Option<int>)
  {
    (Offset(page) + 1,
     if total.None? then None else Some(if page * ItemsPerPage < total.value then page * ItemsPerPage else total.value))
  }

  /** The line starts right after the requested offset, and on a page that
      the total fills it names exactly the ten rows asked for; on the last
      page it ends at the total. */
  lemma ShowingMatchesQuery(page: int, total: int)
    requires page >= 1
    ensures var (first, last) := Showing(page, Some(total));
      var range := NoticesApi.RequestedRange(Some(Query(page).0), Some(Query(page).1));
      range.Some? && first == range.value.0 + 1 && last.Some?
      && (total >= page * ItemsPerPage ==> last.value == range.value.1 + 1)
      && (total < page * ItemsPerPage ==> last.value == total)
  {
    QueryRange(page);
  }

  /** With an unreadable total the line still starts after the offset, and
      its end is NaN. */
  lemma ShowingWithoutTotal(page: int)
    ensures Showing(page, None) == (Offset(page) + 1, None)
  {
  }

  // ---------------------------------------------------------------------------
  // Search and age

  /** The term occurs, ignoring case, in the notice's title or content. */
  predicate MatchesTerm(n: Notice, term: string)
  {
    Contains(Lower(n.title), Lower(term)) || Contains(Lower(n.content), Lower(term))
  }

  function MatchesSearch(term: string): Notice -> bool
  {
    (n: Notice) => MatchesTerm(n, term)
  }

  function Search(notices: seq<Notice>, term: string): seq<Notice>
  {
    Filter(notices, MatchesSearch(term))
  }

  /** Search keeps exactly the matching notices, in their order. */
  lemma SearchSpec(notices: seq<Notice>, term: string)
    ensures IsSubsequence(Search(notices, term), notices)
    ensures forall n :: n in Search(notices, term) <==> n in notices && MatchesTerm(n, term)
  {
    FilterIsSubsequence(notices, MatchesSearch(term));
    forall n | n in notices && MatchesTerm(n, term)
      ensures n in Search(notices, term)
    {
      var i :| 0 <= i < |notices| && notices[i] == n;
      assert MatchesSearch(term)(notices[i]);
    }
  }

  /** An empty search keeps every notice. */
  lemma EmptySearch(notices: seq<Notice>)
    ensures Search(notices, "") == notices
  {
    forall i | 0 <= i < |notices|
      ensures MatchesSearch("")(notices[i])
    {
      ContainsEmpty(Lower(notices[i].title));
    }
    FilterAll(notices, MatchesSearch(""));
  }

  const TenDaysMs: int := 10 * 24 * 60 * 60 * 1000

  /** `isNewNotice`: created less than ten days before `nowMs`; a date that
      does not parse (`None`) is never new. */
  predicate IsNew(createdMs: Option<int>, nowMs: int)
  {
    createdMs.Some? && createdMs.value > nowMs - TenDaysMs
  }

  /** A notice stops being new exactly ten days after it was created, and a
      later notice is new whenever an earlier one is. */
  lemma NewForTenDays(createdMs: int, laterMs: int, nowMs: int)
    requires createdMs <= laterMs
    ensures IsNew(Some(createdMs), createdMs + TenDaysMs - 1)
    ensures !IsNew(Some(createdMs), createdMs + TenDaysMs)
    ensures IsNew(Some(createdMs), nowMs) ==> IsNew(Some(laterMs), nowMs)
  {
  }

  /** The total the board keeps: the header read as a number, 0 without one. */
  function TotalFromHeader(header: Option<string>): Option<int>
  {
    if Truthy(header) then ParseInt(header.value) else Some(0)
  }

  /** The total read from the endpoint's header is the store's count. */
  lemma HeaderGivesCount(data: Option<seq<Notice>>, count: Option<nat>)
    ensures var answer := NoticeView.ResponseOf(NoticesApi.Get(NoticesApi.ListRows(data, count)));
      TotalFromHeader(answer.totalHeader) == Some(count.GetOr(0))
  {
    NoticesApi.TotalCountRoundTrip(count);
  }

  // ---------------------------------------------------------------------------
  // The page

  class Board {
    var notices: seq<Notice>
    var loading: bool
    var error: string
    var searchTerm: string
    var currentPage: int
    var totalCount: Option<int>
    var expanded: set<string>

    ghost predicate Valid()
      reads this
    {
      currentPage >= 1
    }

    constructor ()
      ensures Valid()
      ensures notices == [] && loading && error == "" && searchTerm == ""
      ensures currentPage == 1 && totalCount == Some(0) && expanded == {}
    {
      notices, loading, error, searchTerm := [], true, "", "";
      currentPage, totalCount, expanded := 1, Some(0), {};
    }

    /** The notices listed: those of the page that match the search. */
    function Listed(): seq<Notice>
      reads this
    {
      Search(notices, searchTerm)
    }

    /** The list, the pagination and the line are shown only when the page
        is neither loading nor showing an error. */
    predicate ListShown()
      reads this
    {
      !loading && error == ""
    }

    /** The "Showing" line, shown when the page holds notices. It counts the
        page's notices, not the ones the search leaves. */
    function ShowingLine(): (r: Option<(int, Option<int>)>)
      reads this
      ensures r.Some? <==> ListShown() && |notices| > 0
    {
      if ListShown() && |notices| > 0 then Some(Showing(currentPage, totalCount)) else None
    }

    /** `fetchNotices` for the current page; `answer` is the endpoint's answer
        to `Query(currentPage)`. */
    method FetchNotices(answer: NoticeView.FetchResult)
      requires Valid()
      modifies this`notices, this`loading, this`error, this`totalCount
      ensures Valid() && !loading
      ensures NoticeView.LoadedOk(answer) ==>
        (notices == NoticeView.Received(answer) && totalCount == TotalFromHeader(answer.totalHeader) && error == "")
      ensures (answer.Answered? && !answer.ok) ==>
        (notices == [] && error == "Failed to load notices" && totalCount == old(totalCount))
      ensures (answer.Thrown? || NoticeView.BodyThrows(answer)) ==>
        (notices == [] && error == "Error loading notices" && totalCount == old(totalCount))
    {
      loading := true;
      if answer.Thrown? || NoticeView.BodyThrows(answer) {
        error, notices := "Error loading notices", [];
      } else if answer.ok {
        notices := NoticeView.Received(answer);
        totalCount := TotalFromHeader(answer.totalHeader);
        error := "";
      } else {
        error, notices := "Failed to load notices", [];
      }
      loading := false;
    }

    method SetSearch(term: string)
      modifies this`searchTerm
      ensures searchTerm == term
    {
      searchTerm := term;
    }

    method ToggleExpand(id: string)
      modifies this`expanded
      ensures expanded == NoticeView.Toggle(old(expanded), id)
    {
      expanded := NoticeView.Toggle(expanded, id);
    }

    /** The content shown for a notice of the list. */
    function ContentShown(n: Notice): string
      reads this
    {
      NoticeView.Preview(n.content, PreviewLength, n.id in expanded)
    }

    method Previous()
      requires Valid()
      modifies this`currentPage
      ensures Valid() && currentPage == PreviousPage(old(currentPage))
    {
      currentPage := PreviousPage(currentPage);
    }

    /** Next exists only on the pagination bar. */
    method Next()
      requires Valid() && PaginationShown(TotalPages(totalCount))
      modifies this`currentPage
      ensures Valid() && currentPage == NextPage(old(currentPage), TotalPages(totalCount).value)
    {
      currentPage := NextPage(currentPage, TotalPages(totalCount).value);
    }

    /** A numbered button of the pagination bar. */
    method GoToPage(i: nat)
      requires Valid() && PaginationShown(TotalPages(totalCount))
      requires i < |PageButtons(TotalPages(totalCount).value)|
      modifies this`currentPage
      ensures Valid() && currentPage == i + 1
    {
      currentPage := PageButtons(TotalPages(totalCount).value)[i];
    }
  }
}
