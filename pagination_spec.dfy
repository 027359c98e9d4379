/** The usePagination hook (src/hooks/usePagination.ts) as pure step
    functions: each operation maps the hook's state to its next state, the
    effects it performs in order, and how the awaited action settles. The
    class in UsePagination is proved against these functions. */
module PaginationSpec {
  import opened PaginationMath
  import opened PaginationTypes
  import opened Effects

  /** The hook's React state (`currentPage`, `pageSize`, `isLoading`) and the
      props it reads (`totalItems`, `mode`, whether `onChange` and
      `onPageChange` are given, the external `isLoading`). */
  datatype HookState = HookState(
    currentPage: int,
    pageSize: int,
    totalItems: nat,
    mode: Mode,
    hasOnChange: bool,
    hasFetch: bool,
    isLoading: bool,
    externalLoading: bool)
  {
    /** Kept by every operation, once the initial values satisfy it. */
    predicate Valid() { pageSize >= 1 && currentPage >= 1 }

    /** `totalPages`, recomputed from the state. */
    function Pages(): int
      requires pageSize >= 1
    {
      TotalPages(totalItems, pageSize)
    }

    /** The page-range invariant `1 <= currentPage <= totalPages`. */
    predicate InRange()
      requires pageSize >= 1
    {
      1 <= currentPage <= Pages()
    }

    /** `mode === 'server' && onPageChange`: accepted changes are fetched. */
    predicate FetchesOnChange() { mode == Server && hasFetch }
  }

  /** The result of one operation. */
  datatype Step = Step(state: HookState, effects: seq<Effect>, outcome: Outcome)

  /** An operation that changes nothing and settles at once. */
  function NoOp(s: HookState): Step { Step(s, [], Resolved) }

  /** The page number or the page size differs between two states. */
  predicate Changed(s: HookState, t: HookState)
  {
    s.currentPage != t.currentPage || s.pageSize != t.pageSize
  }

  /** `paginationInfo`, recomputed from the state. */
  function Info(s: HookState): (info: PaginationInfo)
    requires s.pageSize >= 1
    ensures info.totalPages >= 1
    ensures info.endIndex <= info.totalItems && info.endIndex - info.startIndex <= info.pageSize
    ensures info.isFirstPage ==> !info.hasPreviousPage
    ensures info.isLastPage ==> !info.hasNextPage
  {
    var start := (s.currentPage - 1) * s.pageSize;
    PaginationInfo(
      currentPage := s.currentPage,
      pageSize := s.pageSize,
      totalItems := s.totalItems,
      totalPages := s.Pages(),
      startIndex := start,
      endIndex := Min(start + s.pageSize, s.totalItems),
      hasNextPage := s.currentPage < s.Pages(),
      hasPreviousPage := s.currentPage > 1,
      isFirstPage := s.currentPage == 1,
      isLastPage := s.currentPage == s.Pages(),
      isLoading := s.isLoading || s.externalLoading)
  }

  /** The effects of `handlePageChange(page, size)`: in server mode with a
      callback, the awaited fetch under the loading flag; nothing otherwise. */
  function FetchEffects(s: HookState, call: FetchCall): seq<Effect>
  {
    if s.FetchesOnChange() then AwaitedFetch(call) else []
  }

  /** How `await handlePageChange(...)` settles: a rejection of the callback
      is passed on; without a fetch the action resolves. */
  function Settle(s: HookState, fetch: Outcome): Outcome
  {
    if s.FetchesOnChange() then fetch else Resolved
  }

  /** The effects of an accepted change: `onChange?.(payload)`, then the
      awaited fetch. */
  function ChangeEffects(s: HookState, payload: PaginationState, call: FetchCall): seq<Effect>
  {
    OptionalNotify(s.hasOnChange, payload) + FetchEffects(s, call)
  }

  /** An accepted change, from the state with the new page or size already
      set: report, fetch, and leave the loading flag cleared after a fetch. */
  function Accept(next: HookState, payload: PaginationState, call: FetchCall, fetch: Outcome): Step
  {
    Step(next.(isLoading := next.isLoading && !next.FetchesOnChange()),
         ChangeEffects(next, payload, call),
         Settle(next, fetch))
  }

  /** The `safeSetCurrentPage` closure created by one render: it clamps against
      the page count of that render and reports the page size of that render.
      Whatever happens, the page ends at the clamped value; when that is the
      current page already, nothing happens at all. */
  function SetCurrentPageAsRendered(
    s: HookState, page: int, renderedSize: int, renderedPages: int, fetch: Outcome): (st: Step)
    requires renderedPages >= 1
    ensures st.state.currentPage == ClampPage(page, renderedPages)
    ensures ClampPage(page, renderedPages) == s.currentPage <==> st == NoOp(s)
    ensures ClampPage(page, renderedPages) != s.currentPage ==>
      var p := ClampPage(page, renderedPages);
      st == Accept(s.(currentPage := p), PaginationState(p, renderedSize, s.totalItems),
                   FetchCall(p, renderedSize), fetch)
  {
    var safePage := ClampPage(page, renderedPages);
    if safePage == s.currentPage then
      NoOp(s)
    else
      Accept(s.(currentPage := safePage), PaginationState(safePage, renderedSize, s.totalItems),
             FetchCall(safePage, renderedSize), fetch)
  }

  /** `setCurrentPage(page)` through the closure of the current render. The
      new page is `page` clamped to 1..totalPages, so the page-range invariant
      holds afterwards whatever held before; a change is reported and fetched
      with the current page size. */
  function SetCurrentPage(s: HookState, page: int, fetch: Outcome): (st: Step)
    requires s.Valid()
    ensures st.state.Valid() && st.state.InRange()
    ensures st.state == s.(currentPage := st.state.currentPage, isLoading := st.state.isLoading)
    ensures st.state.currentPage == ClampPage(page, s.Pages())
    ensures st == NoOp(s) <==> ClampPage(page, s.Pages()) == s.currentPage
    ensures st != NoOp(s) ==>
      var p := ClampPage(page, s.Pages());
      st == Accept(s.(currentPage := p), PaginationState(p, s.pageSize, s.totalItems),
                   FetchCall(p, s.pageSize), fetch)
  {
    SetCurrentPageAsRendered(s, page, s.pageSize, s.Pages(), fetch)
  }

  /** `setPageSize(size)`. The size becomes `max(1, size)`; if that is the
      current size, nothing happens. Otherwise, when the current page is past
      the new page count, the change goes through the closure of the render
      that started it: the page is clamped against the old page count and
      reported and fetched with the old size. Else the page stays and the new
      size is reported and fetched. */
  function SetPageSize(s: HookState, size: int, fetch: Outcome): (st: Step)
    requires s.Valid()
    ensures st.state.Valid()
    ensures st.state == s.(currentPage := st.state.currentPage, pageSize := st.state.pageSize,
                           isLoading := st.state.isLoading)
    ensures st.state.pageSize == SafeSize(size)
    ensures SafeSize(size) == s.pageSize <==> st == NoOp(s)
    ensures SafeSize(size) != s.pageSize ==> st.state.currentPage <= st.state.Pages()
    ensures SafeSize(size) != s.pageSize && s.currentPage > st.state.Pages() ==>
      var p := ClampPage(st.state.Pages(), s.Pages());
      st == Accept(s.(currentPage := p, pageSize := SafeSize(size)),
                   PaginationState(p, s.pageSize, s.totalItems), FetchCall(p, s.pageSize), fetch)
    ensures SafeSize(size) != s.pageSize && s.currentPage <= st.state.Pages() ==>
      st == Accept(s.(pageSize := SafeSize(size)),
                   PaginationState(s.currentPage, SafeSize(size), s.totalItems),
                   FetchCall(s.currentPage, SafeSize(size)), fetch)
  {
    var safeSize := SafeSize(size);
    if safeSize == s.pageSize then
      NoOp(s)
    else
      var resized := s.(pageSize := safeSize);
      var newTotalPages := TotalPages(s.totalItems, safeSize);
      if s.currentPage > newTotalPages then
        SetCurrentPageAsRendered(resized, newTotalPages, s.pageSize, s.Pages(), fetch)
      else
        Accept(resized, PaginationState(s.currentPage, safeSize, s.totalItems),
               FetchCall(s.currentPage, safeSize), fetch)
  }

  /** `nextPage()`: nothing happens exactly on the last page. */
  function NextPage(s: HookState, fetch: Outcome): (st: Step)
    requires s.Valid()
    ensures st.state.Valid()
    ensures st.state == s.(currentPage := st.state.currentPage, isLoading := st.state.isLoading)
    ensures s.InRange() ==> (st == NoOp(s) <==> s.currentPage == s.Pages())
    ensures s.currentPage < s.Pages() ==> st.state.currentPage == s.currentPage + 1
  {
    SetCurrentPage(s, s.currentPage + 1, fetch)
  }

  /** `previousPage()`: nothing happens exactly on page 1. */
  function PreviousPage(s: HookState, fetch: Outcome): (st: Step)
    requires s.Valid()
    ensures st.state.Valid()
    ensures st.state == s.(currentPage := st.state.currentPage, isLoading := st.state.isLoading)
    ensures s.InRange() ==> (st == NoOp(s) <==> s.currentPage == 1)
    ensures s.InRange() && s.currentPage > 1 ==> st.state.currentPage == s.currentPage - 1
  {
    SetCurrentPage(s, s.currentPage - 1, fetch)
  }

  /** `firstPage()`: always ends on page 1. */
  function FirstPage(s: HookState, fetch: Outcome): (st: Step)
    requires s.Valid()
    ensures st.state.Valid()
    ensures st.state == s.(currentPage := st.state.currentPage, isLoading := st.state.isLoading)
    ensures st.state.currentPage == 1
    ensures st == NoOp(s) <==> s.currentPage == 1
  {
    SetCurrentPage(s, 1, fetch)
  }

  /** `lastPage()`: always ends on the last page. */
  function LastPage(s: HookState, fetch: Outcome): (st: Step)
    requires s.Valid()
    ensures st.state.Valid()
    ensures st.state == s.(currentPage := st.state.currentPage, isLoading := st.state.isLoading)
    ensures st.state.currentPage == s.Pages()
    ensures st == NoOp(s) <==> s.currentPage == s.Pages()
  {
    SetCurrentPage(s, s.Pages(), fetch)
  }

  /** A new `totalItems` prop and the effect that watches it: in server mode
      the hook goes back to page 1 (fetching it if it was elsewhere); in client
      mode only the count changes and the page is not re-clamped. The effect
      discards the promise of its page change, so nothing reaches a caller:
      the step always settles `Resolved`, whatever the fetch does. */
  function TotalItemsChanged(s: HookState, newTotal: nat, fetch: Outcome): (st: Step)
    requires s.Valid()
    ensures st.state.Valid()
    ensures st.state == s.(totalItems := newTotal,
                           currentPage := st.state.currentPage,
                           isLoading := st.state.isLoading)
    ensures st.outcome == Resolved
    ensures s.mode == Server ==>
      st.state.currentPage == 1 && st.state.InRange() &&
      (st == NoOp(s.(totalItems := newTotal)) <==> s.currentPage == 1)
    ensures s.mode == Client ==> st == NoOp(s.(totalItems := newTotal))
  {
    var updated := s.(totalItems := newTotal);
    if s.mode == Server then SetCurrentPage(updated, 1, fetch).(outcome := Resolved) else NoOp(updated)
  }

  /** The operations a caller can trigger: the six `actions` and a new
      `totalItems` prop. */
  datatype Action =
    | GoTo(page: int)
    | Resize(size: int)
    | Next
    | Previous
    | First
    | Last
    | ItemsChanged(total: nat)

  /** One triggered operation and how its fetch callback would settle. */
  datatype Call = Call(action: Action, fetch: Outcome)

  function Apply(s: HookState, a: Action, fetch: Outcome): (st: Step)
    requires s.Valid()
    ensures st.state.Valid()
    ensures st.state.mode == s.mode && st.state.hasOnChange == s.hasOnChange
    ensures st.state.hasFetch == s.hasFetch && st.state.externalLoading == s.externalLoading
    ensures !a.ItemsChanged? ==> st.state.totalItems == s.totalItems
  {
    match a
    case GoTo(page) => SetCurrentPage(s, page, fetch)
    case Resize(size) => SetPageSize(s, size, fetch)
    case Next => NextPage(s, fetch)
    case Previous => PreviousPage(s, fetch)
    case First => FirstPage(s, fetch)
    case Last => LastPage(s, fetch)
    case ItemsChanged(total) => TotalItemsChanged(s, total, fetch)
  }

  /** The state after a sequence of calls, each awaited before the next and
      each made through the `actions` of the render that follows the previous
      call, so that it sees the state that call left. */
  function Run(s: HookState, calls: seq<Call>): (t: HookState)
    requires s.Valid()
    ensures t.Valid() && t.mode == s.mode
    decreases |calls|
  {
    if calls == [] then s
    else Run(Apply(s, calls[0].action, calls[0].fetch).state, calls[1..])
  }
}
