/**
 * The users dashboard page: the pagination bar built by `renderPagination`,
 * the page-number input, the two sort toggles, the delete confirmation and
 * the list refresh.
 *
 * The page state is the class `UsersPage`; the pagination bar is computed by
 * the loop method `RenderPagination`, specified by the function `Window`.
 */
module UsersPage {
  import opened JsText
  import UsersApi

  // ---------------------------------------------------------------------------
  // The pagination bar

  datatype Side = Start | End

  /** One element of the bar: a page button (highlighted when it is the current page), an ellipsis or the page-number input. */
  datatype PageItem = Button(n: int, current: bool) | Gap(side: Side) | PageInput

  function Min(a: int, b: int): int { if a <= b then a else b }

  function Max(a: int, b: int): int { if a >= b then a else b }

  /** The buttons lo, lo+1, ..., hi, in that order. */
  function Buttons(lo: int, hi: int, page: int): (r: seq<PageItem>)
    ensures |r| == if lo <= hi then hi - lo + 1 else 0
    ensures forall i :: 0 <= i < |r| ==> r[i] == Button(lo + i, lo + i == page)
  {
    if lo > hi then [] else seq(hi - lo + 1, i requires 0 <= i < hi - lo + 1 => Button(lo + i, lo + i == page))
  }

  /** The first loop: pages 1 .. min(3, pages). */
  function Lead(page: int, pages: int): seq<PageItem> {
    Buttons(1, Min(3, pages), page)
  }

  /** The conditional pushes between the loops: start ellipsis, input, end ellipsis. */
  function Middle(page: int, pages: int): seq<PageItem> {
    (if page > 4 then [Gap(Start)] else [])
    + (if 3 < page < pages - 2 then [PageInput] else [])
    + (if page < pages - 3 then [Gap(End)] else [])
  }

  /** The second loop, present only when there are more than 3 pages: max(pages - 2, 4) .. pages. */
  function Trail(page: int, pages: int): seq<PageItem> {
    if pages > 3 then Buttons(Max(pages - 2, 4), pages, page) else []
  }

  /** What `renderPagination` renders: nothing for at most one page. */
  function Window(page: int, pages: int): seq<PageItem> {
    if pages <= 1 then [] else Lead(page, pages) + Middle(page, pages) + Trail(page, pages)
  }

  lemma {:induction false} ButtonsSnoc(lo: int, hi: int, page: int)
    requires lo <= hi + 1
    ensures Buttons(lo, hi + 1, page) == Buttons(lo, hi, page) + [Button(hi + 1, hi + 1 == page)]
  {
    var a, b := Buttons(lo, hi + 1, page), Buttons(lo, hi, page) + [Button(hi + 1, hi + 1 == page)];
    assert |a| == |b|;
    forall i | 0 <= i < |a| ensures a[i] == b[i] {
      if i < |a| - 1 {
        assert b[i] == Buttons(lo, hi, page)[i];
      }
    }
  }

  /** One `for` loop of `pages.push(renderPageButton(i))` for i = lo .. hi. */
  method PushButtons(items: seq<PageItem>, lo: int, hi: int, page: int) returns (r: seq<PageItem>)
    ensures r == items + Buttons(lo, hi, page)
  {
    r := items;
    if lo > hi {
      return;
    }
    var i := lo;
    while i <= hi
      invariant lo <= i <= hi + 1
      invariant r == items + Buttons(lo, i - 1, page)
    {
      ButtonsSnoc(lo, i - 1, page);
      assert r + [Button(i, i == page)] == items + (Buttons(lo, i - 1, page) + [Button(i, i == page)]);
      r := r + [Button(i, i == page)];
      i := i + 1;
    }
  }

  /** `renderPagination`: the two loops of button pushes around the conditional pushes. */
  method RenderPagination(page: int, pages: int) returns (items: seq<PageItem>)
    ensures items == Window(page, pages)
  {
    if pages <= 1 {
      return [];
    }
    items := PushButtons([], 1, Min(3, pages), page);
    ghost var mid: seq<PageItem> := [];
    if page > 4 {
      items := items + [Gap(Start)];
      mid := mid + [Gap(Start)];
    }
    if 3 < page < pages - 2 {
      items := items + [PageInput];
      mid := mid + [PageInput];
    }
    if page < pages - 3 {
      items := items + [Gap(End)];
      mid := mid + [Gap(End)];
    }
    assert mid == Middle(page, pages);
    assert items == Lead(page, pages) + mid;
    if pages > 3 {
      items := PushButtons(items, Max(pages - 2, 4), pages, page);
    }
  }

  /** The bar is empty exactly when there is at most one page. */
  lemma WindowEmptyIff(page: int, pages: int)
    ensures Window(page, pages) == [] <==> pages <= 1
  {
    if pages > 1 {
      assert |Lead(page, pages)| >= 2;
    }
  }

  /** The bar opens with the buttons 1 .. min(3, pages). */
  lemma LeadingButtons(page: int, pages: int)
    requires pages >= 2
    ensures var w := Window(page, pages);
      && |w| >= Min(3, pages)
      && forall k :: 0 <= k < Min(3, pages) ==> w[k] == Button(k + 1, k + 1 == page)
  {
    var w := Window(page, pages);
    forall k | 0 <= k < Min(3, pages) ensures w[k] == Button(k + 1, k + 1 == page) {
      assert w[k] == Lead(page, pages)[k];
    }
  }

  /** The start ellipsis, the input and the end ellipsis each appear exactly under their conditions. */
  lemma MarkersIff(page: int, pages: int)
    requires pages >= 2
    ensures var w := Window(page, pages);
      && (Gap(Start) in w <==> page > 4)
      && (Gap(End) in w <==> page < pages - 3)
      && (PageInput in w <==> 3 < page < pages - 2)
  {
    var lead, mid, trail := Lead(page, pages), Middle(page, pages), Trail(page, pages);
    assert Window(page, pages) == lead + mid + trail;
    assert forall x :: x in lead ==> x.Button?;
    assert forall x :: x in trail ==> x.Button?;
  }

  /** Button numbers increase from left to right. */
  predicate ButtonsIncrease(w: seq<PageItem>) {
    forall i, j :: 0 <= i < j < |w| && w[i].Button? && w[j].Button? ==> w[i].n < w[j].n
  }

  predicate ButtonsBelow(w: seq<PageItem>, k: int) {
    forall i :: 0 <= i < |w| && w[i].Button? ==> w[i].n < k
  }

  predicate ButtonsFrom(w: seq<PageItem>, k: int) {
    forall i :: 0 <= i < |w| && w[i].Button? ==> k <= w[i].n
  }

  lemma IncreaseConcat(a: seq<PageItem>, b: seq<PageItem>, k: int)
    requires ButtonsIncrease(a) && ButtonsIncrease(b)
    requires ButtonsBelow(a, k) && ButtonsFrom(b, k)
    ensures ButtonsIncrease(a + b)
  {
    var w := a + b;
    forall i, j | 0 <= i < j < |w| && w[i].Button? && w[j].Button? ensures w[i].n < w[j].n {
      if j < |a| {
        assert w[i] == a[i] && w[j] == a[j];
      } else if i >= |a| {
        assert w[i] == b[i - |a|] && w[j] == b[j - |a|];
      } else {
        assert w[i] == a[i] && w[j] == b[j - |a|];
      }
    }
  }

  /** Buttons are strictly increasing, so no page number is rendered twice. */
  lemma WindowButtonsIncrease(page: int, pages: int)
    ensures ButtonsIncrease(Window(page, pages))
  {
    if pages > 1 {
      var lead, mid, trail := Lead(page, pages), Middle(page, pages), Trail(page, pages);
      IncreaseConcat(lead, mid, 4);
      IncreaseConcat(lead + mid, trail, 4);
    }
  }

  /** No page number appears on two buttons. */
  lemma NoDuplicateButtons(page: int, pages: int)
    ensures var w := Window(page, pages);
      forall i, j :: 0 <= i < |w| && 0 <= j < |w| && i != j && w[i].Button? && w[j].Button? ==> w[i].n != w[j].n
  {
    var w := Window(page, pages);
    WindowButtonsIncrease(page, pages);
    forall i, j | 0 <= i < |w| && 0 <= j < |w| && i != j && w[i].Button? && w[j].Button? ensures w[i].n != w[j].n {
      if i < j { assert w[i].n < w[j].n; } else { assert w[j].n < w[i].n; }
    }
  }

  predicate HasButton(w: seq<PageItem>, n: int) {
    exists i :: 0 <= i < |w| && w[i].Button? && w[i].n == n
  }

  predicate HasCurrentButton(w: seq<PageItem>) {
    exists i :: 0 <= i < |w| && w[i].Button? && w[i].current
  }

  /** Every button is a page between 1 and `pages`, highlighted exactly when it is the current page. */
  lemma ButtonsInRange(page: int, pages: int)
    ensures var w := Window(page, pages);
      forall i :: 0 <= i < |w| && w[i].Button? ==> 1 <= w[i].n <= pages && (w[i].current <==> w[i].n == page)
  {
    if pages > 1 {
      var lead, mid, trail := Lead(page, pages), Middle(page, pages), Trail(page, pages);
      var w := Window(page, pages);
      forall i | 0 <= i < |w| && w[i].Button? ensures 1 <= w[i].n <= pages && (w[i].current <==> w[i].n == page) {
        if i < |lead| {
          assert w[i] == lead[i];
        } else if i >= |lead| + |mid| {
          assert w[i] == trail[i - |lead| - |mid|];
        }
      }
    }
  }

  /** With two or more pages, page 1 and the last page are always buttons. */
  lemma FirstAndLastShown(page: int, pages: int)
    requires pages >= 2
    ensures HasButton(Window(page, pages), 1)
    ensures HasButton(Window(page, pages), pages)
  {
    var lead, mid, trail := Lead(page, pages), Middle(page, pages), Trail(page, pages);
    var w := Window(page, pages);
    assert w[0] == lead[0];
    if pages <= 3 {
      assert w[pages - 1] == lead[pages - 1];
    } else {
      var k := |lead| + |mid| + |trail| - 1;
      assert w[k] == trail[|trail| - 1];
    }
  }

  /**
   * For a page in 1..pages the current page is reachable in exactly one way:
   * as the highlighted button or as the value of the page-number input.
   */
  lemma CurrentPageReachable(page: int, pages: int)
    requires pages >= 2 && 1 <= page <= pages
    ensures var w := Window(page, pages);
      && (HasCurrentButton(w) || PageInput in w)
      && !(HasCurrentButton(w) && PageInput in w)
  {
    var lead, mid, trail := Lead(page, pages), Middle(page, pages), Trail(page, pages);
    var w := Window(page, pages);
    MarkersIff(page, pages);
    ButtonsInRange(page, pages);
    if page <= 3 {
      assert w[page - 1] == lead[page - 1];
    } else if page >= pages - 2 {
      var k := |lead| + |mid| + (page - Max(pages - 2, 4));
      assert w[k] == trail[page - Max(pages - 2, 4)];
    } else {
      forall i | 0 <= i < |w| && w[i].Button? ensures !w[i].current {
        if i < |lead| {
          assert w[i] == lead[i];
        } else if i >= |lead| + |mid| {
          assert w[i] == trail[i - |lead| - |mid|];
        } else {
          assert w[i] == mid[i - |lead|];
        }
      }
    }
  }

  // ---------------------------------------------------------------------------
  // Page-number input and sort toggles

  /**
   * The input's `onChange`: the typed page becomes current only when
   * `parseInt` reads a number in 1..pages; otherwise pagination is untouched.
   */
  function AfterPageInput(p: UsersApi.Pagination, value: string): (r: UsersApi.Pagination)
    ensures r == p || (&& JsParseInt(value).Some? && r == p.(page := JsParseInt(value).value)
                       && 1 <= r.page <= p.pages)
    ensures r != p ==> r.page != p.page
  {
    match JsParseInt(value)
    case Some(n) => if 1 <= n <= p.pages then p.(page := n) else p
    case None => p
  }

  /** Typing a page number selects that page exactly when it lies in 1..pages. */
  lemma TypedPageSelected(p: UsersApi.Pagination, n: int)
    ensures 1 <= n <= p.pages ==> AfterPageInput(p, IntToDecimal(n)) == p.(page := n)
    ensures !(1 <= n <= p.pages) ==> AfterPageInput(p, IntToDecimal(n)) == p
  {
    ParseIntOfDecimal(n);
  }

  /** Text that `parseInt` reads as NaN ("", "abc", "-x", "+", "0x") leaves pagination unchanged. */
  lemma NonNumericInputIgnored(p: UsersApi.Pagination, value: string)
    requires NotANumber(value)
    ensures AfterPageInput(p, value) == p
  {
    ParseIntNaNIff(value);
  }

  datatype SortOption = FullnameAsc | FullnameDesc | PointsDesc | PointsAsc

  /** The `sortBy` query value the page sends. */
  function SortParam(s: SortOption): string {
    match s
    case FullnameAsc => "fullname_asc"
    case FullnameDesc => "fullname_desc"
    case PointsDesc => "points_desc"
    case PointsAsc => "points_asc"
  }

  /** The name button: ascending becomes descending, anything else becomes ascending. */
  function NameToggled(s: SortOption): SortOption {
    if s == FullnameAsc then FullnameDesc else FullnameAsc
  }

  /** The points button: ascending becomes descending, anything else becomes ascending. */
  function PointsToggled(s: SortOption): SortOption {
    if s == PointsAsc then PointsDesc else PointsAsc
  }

  /** Each page option selects the matching server ordering, never the newest-first fallback. */
  lemma SortParamSelectsOrder(s: SortOption)
    ensures UsersApi.OrderOf(Some(SortParam(s))) == match s
      case FullnameAsc => UsersApi.FullnameAsc
      case FullnameDesc => UsersApi.FullnameDesc
      case PointsDesc => UsersApi.PointsDesc
      case PointsAsc => UsersApi.PointsAsc
  {
  }

  /**
   * After the name button the list is ordered by full name; a second press
   * reverses the direction, and a list that was ordered by points comes back
   * descending by name after two presses.
   */
  lemma NameToggleAlternates(s: SortOption)
    ensures var o := UsersApi.OrderOf(Some(SortParam(NameToggled(s))));
      o == UsersApi.FullnameAsc || o == UsersApi.FullnameDesc
    ensures NameToggled(s) != s
    ensures NameToggled(NameToggled(s)) == (if s == FullnameDesc then FullnameDesc else if s == FullnameAsc then FullnameAsc else FullnameDesc)
  {
  }

  /** The points button mirrors the name button on the points column. */
  lemma PointsToggleAlternates(s: SortOption)
    ensures var o := UsersApi.OrderOf(Some(SortParam(PointsToggled(s))));
      o == UsersApi.PointsAsc || o == UsersApi.PointsDesc
    ensures PointsToggled(s) != s
    ensures PointsToggled(PointsToggled(s)) == (if s == PointsDesc then PointsDesc else if s == PointsAsc then PointsAsc else PointsDesc)
  {
  }

  /** The query string `fetchUsers` sends: page, limit and sortBy always; search and role when set. */
  function Request(page: int, limit: int, sortBy: SortOption, search: string, role: Option<UsersApi.Role>): UsersApi.UserQuery {
    UsersApi.UserQuery(
      if search == "" then None else Some(search),
      if role.None? then None else Some(UsersApi.RoleName(role.value)),
      Some(SortParam(sortBy)),
      Some(IntToDecimal(page)),
      Some(IntToDecimal(limit)))
  }

  /** The route reads back the page and limit the page sent. */
  lemma RequestPagingReadBack(page: int, limit: int, sortBy: SortOption, search: string, role: Option<UsersApi.Role>)
    requires page >= 1 && limit >= 1
    ensures var q := Request(page, limit, sortBy, search, role);
      && UsersApi.NumericPaging(q)
      && UsersApi.PageOf(q) == Some(page) && UsersApi.LimitOf(q) == Some(limit)
  {
    var q := Request(page, limit, sortBy, search, role);
    ParseIntOfDecimal(page);
    ParseIntOfDecimal(limit);
    assert UsersApi.ParamOr(q.page, "1") == IntToDecimal(page);
    assert UsersApi.ParamOr(q.limit, "10") == IntToDecimal(limit);
  }

  /** The route reads back the ordering, search text and role the page sent, and never refuses the role. */
  lemma RequestFiltersReadBack(page: int, limit: int, sortBy: SortOption, search: string, role: Option<UsersApi.Role>)
    ensures var q := Request(page, limit, sortBy, search, role);
      && UsersApi.OrderOf(q.sortBy) == UsersApi.OrderOf(Some(SortParam(sortBy)))
      && UsersApi.ParamOr(q.search, "") == search
      && UsersApi.RoleFilterOf(q) == (if role.None? then UsersApi.AnyRole else UsersApi.OnlyRole(role.value))
  {
    if role.Some? {
      assert UsersApi.RoleName(role.value) != "";
    }
  }

  // ---------------------------------------------------------------------------
  // The page state

  const LoadFailed := "Не удалось загрузить список пользователей"
  const DeleteFailed := "Не удалось удалить пользователя"

  /** The outcome of `DELETE /api/users/{id}`. */
  datatype DeleteOutcome = Deleted | DeleteRefused

  /** Every piece of the page's state, as one value. */
  datatype PageState = PageState(
    users: seq<UsersApi.PublicUser>,
    pagination: UsersApi.Pagination,
    search: string,
    selectedRole: Option<UsersApi.Role>,
    sortBy: SortOption,
    isLoading: bool,
    error: string,
    viewingUser: Option<UsersApi.PublicUser>,
    deletingUser: Option<UsersApi.PublicUser>,
    isDetailsModalOpen: bool,
    isDeleteModalOpen: bool,
    pageInput: string)

  /** The dependencies of the effect that calls `fetchUsers`: page number, search, role and ordering. */
  datatype FetchKey = FetchKey(page: int, search: string, role: Option<UsersApi.Role>, sortBy: SortOption)

  function KeyOf(s: PageState): FetchKey {
    FetchKey(s.pagination.page, s.search, s.selectedRole, s.sortBy)
  }

  class UsersPage {
    var users: seq<UsersApi.PublicUser>
    var pagination: UsersApi.Pagination
    var search: string
    var selectedRole: Option<UsersApi.Role>
    var sortBy: SortOption
    var isLoading: bool
    var error: string
    var viewingUser: Option<UsersApi.PublicUser>
    var deletingUser: Option<UsersApi.PublicUser>
    var isDetailsModalOpen: bool
    var isDeleteModalOpen: bool
    var pageInput: string

    /** The whole state of the page. */
    function State(): PageState
      reads this
    {
      PageState(users, pagination, search, selectedRole, sortBy, isLoading, error,
                viewingUser, deletingUser, isDetailsModalOpen, isDeleteModalOpen, pageInput)
    }

    /** The initial state: page 1 of 0, 10 per page, ordered by name ascending, loading. */
    constructor ()
      ensures State() == PageState([], UsersApi.Pagination(0, 0, 1, 10), "", None, FullnameAsc, true, "",
                                   None, None, false, false, "1")
    {
      users := [];
      pagination := UsersApi.Pagination(0, 0, 1, 10);
      search := "";
      selectedRole := None;
      sortBy := FullnameAsc;
      isLoading := true;
      error := "";
      viewingUser := None;
      deletingUser := None;
      isDetailsModalOpen := false;
      isDeleteModalOpen := false;
      pageInput := "1";
    }

    /** What the pagination bar shows for the current state. */
    function Bar(): seq<PageItem>
      reads this
    {
      Window(pagination.page, pagination.pages)
    }

    /** `fetchUsers` starting: the query it sends, built from the current state. */
    method FetchUsers() returns (q: UsersApi.UserQuery)
      modifies this
      ensures q == Request(old(pagination.page), old(pagination.limit), old(sortBy), old(search), old(selectedRole))
      ensures State() == old(State()).(isLoading := true)
    {
      isLoading := true;
      q := Request(pagination.page, pagination.limit, sortBy, search, selectedRole);
    }

    /**
     * The response arriving: a list replaces users and pagination; an error
     * (or no response) sets the load message. `refetch` says whether the new
     * pagination changed the page number, which runs the effect again.
     */
    method FetchUsersDone(response: Option<UsersApi.ListResponse>) returns (refetch: bool)
      modifies this
      ensures (response.Some? && response.value.UserList?) ==>
        State() == old(State()).(users := response.value.users, pagination := response.value.pagination,
                                 error := "", isLoading := false)
      ensures !(response.Some? && response.value.UserList?) ==>
        State() == old(State()).(error := LoadFailed, isLoading := false)
      ensures refetch <==> KeyOf(State()) != KeyOf(old(State()))
    {
      var before := KeyOf(State());
      if response.Some? && response.value.UserList? {
        users := response.value.users;
        pagination := response.value.pagination;
        error := "";
      } else {
        error := LoadFailed;
      }
      isLoading := false;
      refetch := KeyOf(State()) != before;
    }

    /** A page button: that page becomes current; the list is fetched again unless it already was current. */
    method PageClicked(n: int) returns (refetch: bool)
      modifies this
      ensures State() == old(State()).(pagination := old(pagination).(page := n))
      ensures refetch <==> KeyOf(State()) != KeyOf(old(State()))
      ensures refetch <==> n != old(pagination.page)
    {
      refetch := n != pagination.page;
      pagination := pagination.(page := n);
    }

    /** The input's `onChange`: the text is kept, the page changes only for a number in 1..pages. */
    method PageInputChanged(value: string) returns (refetch: bool)
      modifies this
      ensures State() == old(State()).(pageInput := value, pagination := AfterPageInput(old(pagination), value))
      ensures refetch <==> KeyOf(State()) != KeyOf(old(State()))
    {
      var before := pagination.page;
      pageInput := value;
      var parsed := JsParseInt(value);
      if parsed.Some? && parsed.value >= 1 && parsed.value <= pagination.pages {
        pagination := pagination.(page := parsed.value);
      }
      refetch := pagination.page != before;
    }

    /** The input's `onBlur`: the text goes back to the current page number; nothing is fetched. */
    method PageInputBlur()
      modifies this
      ensures State() == old(State()).(pageInput := IntToDecimal(old(pagination).page))
      ensures JsParseInt(pageInput) == Some(pagination.page)
    {
      pageInput := IntToDecimal(pagination.page);
      ParseIntOfDecimal(pagination.page);
    }

    /** The search box's `onChange`: the text becomes the search; a new text fetches again. */
    method SearchChanged(value: string) returns (refetch: bool)
      modifies this
      ensures State() == old(State()).(search := value)
      ensures refetch <==> KeyOf(State()) != KeyOf(old(State()))
    {
      refetch := value != search;
      search := value;
    }

    /** The role select's `onChange`: a role, or None for "all roles"; a new choice fetches again. */
    method RoleChanged(role: Option<UsersApi.Role>) returns (refetch: bool)
      modifies this
      ensures State() == old(State()).(selectedRole := role)
      ensures refetch <==> KeyOf(State()) != KeyOf(old(State()))
    {
      refetch := role != selectedRole;
      selectedRole := role;
    }

    /** The name button: the ordering changes, so the list is always fetched again. */
    method ToggleNameSort() returns (refetch: bool)
      modifies this
      ensures State() == old(State()).(sortBy := NameToggled(old(sortBy)))
      ensures refetch <==> KeyOf(State()) != KeyOf(old(State()))
      ensures refetch
    {
      sortBy := if sortBy == FullnameAsc then FullnameDesc else FullnameAsc;
      refetch := true;
    }

    /** The points button: the ordering changes, so the list is always fetched again. */
    method TogglePointsSort() returns (refetch: bool)
      modifies this
      ensures State() == old(State()).(sortBy := PointsToggled(old(sortBy)))
      ensures refetch <==> KeyOf(State()) != KeyOf(old(State()))
      ensures refetch
    {
      sortBy := if sortBy == PointsAsc then PointsDesc else PointsAsc;
      refetch := true;
    }

    /** A row click opens the details modal for that user. */
    method ViewDetails(u: UsersApi.PublicUser)
      modifies this
      ensures State() == old(State()).(viewingUser := Some(u), isDetailsModalOpen := true)
    {
      viewingUser := Some(u);
      isDetailsModalOpen := true;
    }

    /** `handleDelete`: remembers the user and opens the confirmation. */
    method HandleDelete(u: UsersApi.PublicUser)
      modifies this
      ensures State() == old(State()).(deletingUser := Some(u), isDeleteModalOpen := true)
    {
      deletingUser := Some(u);
      isDeleteModalOpen := true;
    }

    /**
     * `confirmDelete` once the DELETE request has answered. With nobody
     * pending nothing happens. A success starts `fetchUsers` (its query is
     * returned and loading starts), closes the confirmation, forgets the
     * pending user and closes the details modal when it shows that same
     * user. A failure only sets the error, leaving the confirmation open.
     */
    method ConfirmDelete(outcome: DeleteOutcome) returns (query: Option<UsersApi.UserQuery>)
      modifies this
      ensures old(deletingUser).None? ==> query.None? && State() == old(State())
      ensures old(deletingUser).Some? && outcome == DeleteRefused ==>
        query.None? && State() == old(State()).(error := DeleteFailed)
      ensures old(deletingUser).Some? && outcome == Deleted ==>
        && query == Some(Request(old(pagination.page), old(pagination.limit), old(sortBy), old(search), old(selectedRole)))
        && var same := old(viewingUser).Some? && old(viewingUser).value.id == old(deletingUser).value.id;
           State() == old(State()).(isLoading := true, deletingUser := None, isDeleteModalOpen := false,
                                    viewingUser := if same then None else old(viewingUser),
                                    isDetailsModalOpen := if same then false else old(isDetailsModalOpen))
    {
      query := None;
      if deletingUser.None? {
        return;
      }
      var target := deletingUser.value;
      if outcome == DeleteRefused {
        error := DeleteFailed;
        return;
      }
      var q := FetchUsers();
      query := Some(q);
      isDeleteModalOpen := false;
      deletingUser := None;
      if viewingUser.Some? && viewingUser.value.id == target.id {
        isDetailsModalOpen := false;
        viewingUser := None;
      }
    }
  }

  /** A confirmed delete of the user whose details are open closes both modals, leaves nothing pending and fetches again. */
  method DeleteViewedUser(page: UsersPage, u: UsersApi.PublicUser) returns (query: Option<UsersApi.UserQuery>)
    modifies page
    ensures query.Some? && page.isLoading
    ensures page.viewingUser.None? && !page.isDetailsModalOpen
    ensures page.deletingUser.None? && !page.isDeleteModalOpen
    ensures page.users == old(page.users) && page.pagination == old(page.pagination)
  {
    page.ViewDetails(u);
    page.HandleDelete(u);
    query := page.ConfirmDelete(Deleted);
  }
}
