/** The usePagination hook as an object: its React state becomes mutable
    fields, its props fields fixed at construction (except `totalItems`, which
    has its own update), and its observable effects a ghost trace. Each action
    is awaited to completion before it returns; how it settles is its result. */
module UsePagination {
  import opened PaginationMath
  import opened PaginationTypes
  import opened Effects
  import Spec = PaginationSpec

  class Pagination {
    var currentPage: int
    var pageSize: int
    var totalItems: nat
    var isLoading: bool
    const mode: Mode
    const hasOnChange: bool
    const hasFetch: bool
    const externalLoading: bool

    /** Every `onChange` call, `setIsLoading` call and `onPageChange` call, in order. */
    ghost var trace: seq<Effect>

    function Snapshot(): Spec.HookState
      reads this
    {
      Spec.HookState(currentPage, pageSize, totalItems, mode, hasOnChange, hasFetch,
                     isLoading, externalLoading)
    }

    ghost predicate Valid()
      reads this
    {
      Snapshot().Valid()
    }

    /** `totalPages`. */
    function TotalPages(): (n: int)
      reads this
      requires Valid()
      ensures n >= 1 && totalItems <= n * pageSize
    {
      PaginationMath.TotalPages(totalItems, pageSize)
    }

    /** `paginationInfo` of the current fields: the page count, a slice of
        at most one page that ends within the items, and the loading flag of
        the hook or of the caller. */
    function Info(): (info: PaginationInfo)
      reads this
      requires Valid()
      ensures info.currentPage == currentPage && info.pageSize == pageSize
      ensures info.totalPages == TotalPages()
      ensures info.endIndex <= totalItems && info.endIndex - info.startIndex <= pageSize
      ensures info.isLoading == (isLoading || externalLoading)
    {
      Spec.Info(Snapshot())
    }

    /** The hook's first render. The initial page and size are used as given,
        so they must already be a page of the range and a positive size. Every
        prop is passed explicitly: the hook's defaults (`totalItems = 0`,
        `defaultCurrentPage = 1`, `defaultPageSize = 10`, `mode = 'client'`)
        are the caller's to supply. */
    constructor (totalItems: nat, defaultCurrentPage: int, defaultPageSize: int, mode: Mode,
                 hasOnChange: bool, hasFetch: bool, externalLoading: bool)
      requires defaultPageSize >= 1
      requires 1 <= defaultCurrentPage <= PaginationMath.TotalPages(totalItems, defaultPageSize)
      ensures Valid() && Snapshot().InRange()
      ensures Snapshot() == Spec.HookState(defaultCurrentPage, defaultPageSize, totalItems, mode,
                                           hasOnChange, hasFetch, false, externalLoading)
      ensures trace == []
    {
      this.currentPage := defaultCurrentPage;
      this.pageSize := defaultPageSize;
      this.totalItems := totalItems;
      this.isLoading := false;
      this.mode := mode;
      this.hasOnChange := hasOnChange;
      this.hasFetch := hasFetch;
      this.externalLoading := externalLoading;
      this.trace := [];
    }

    /** `handlePageChange(page, size)`; `fetch` is how the callback settles.
        The loading flag is held around the call and cleared afterwards. */
    method HandlePageChange(page: int, size: int, fetch: Outcome) returns (r: Outcome)
      modifies this
      ensures Snapshot() == old(Snapshot()).(isLoading := old(isLoading) && !(mode == Server && hasFetch))
      ensures trace == old(trace) + Spec.FetchEffects(old(Snapshot()), FetchCall(page, size))
      ensures r == Spec.Settle(old(Snapshot()), fetch)
    {
      if mode == Server && hasFetch {
        isLoading := true;
        trace := trace + [LoadingSet(true)];
        trace := trace + [Fetched(FetchCall(page, size))];
        r := fetch;
        isLoading := false;
        trace := trace + [LoadingSet(false)];
        assert trace == old(trace) + AwaitedFetch(FetchCall(page, size));
      } else {
        r := Resolved;
      }
    }

    /** `onChange?.(payload)` followed by `await handlePageChange(page, size)`,
        once the new page or size is set. */
    method NotifyThenFetch(payload: PaginationState, page: int, size: int, fetch: Outcome)
      returns (r: Outcome)
      modifies this
      ensures var st := Spec.Accept(old(Snapshot()), payload, FetchCall(page, size), fetch);
        Snapshot() == st.state && trace == old(trace) + st.effects && r == st.outcome
    {
      ghost var notify := OptionalNotify(hasOnChange, payload);
      trace := trace + notify;
      r := HandlePageChange(page, size, fetch);
      assert trace == old(trace) + (notify + Spec.FetchEffects(old(Snapshot()), FetchCall(page, size)));
    }

    /** The `safeSetCurrentPage` closure of the render that saw page size
        `renderedSize` and page count `renderedPages`. */
    method SetCurrentPageAsRendered(page: int, renderedSize: int, renderedPages: int, fetch: Outcome)
      returns (r: Outcome)
      requires renderedPages >= 1
      modifies this
      ensures var st := Spec.SetCurrentPageAsRendered(old(Snapshot()), page, renderedSize, renderedPages, fetch);
        Snapshot() == st.state && trace == old(trace) + st.effects && r == st.outcome
      ensures currentPage == ClampPage(page, renderedPages)
    {
      var safePage := ClampPage(page, renderedPages);
      if safePage != currentPage {
        currentPage := safePage;
        r := NotifyThenFetch(PaginationState(safePage, renderedSize, totalItems),
                             safePage, renderedSize, fetch);
      } else {
        r := Resolved;
      }
    }

    /** `actions.setCurrentPage(page)`: the page ends clamped to the range. */
    method SetCurrentPage(page: int, fetch: Outcome) returns (r: Outcome)
      requires Valid()
      modifies this
      ensures Valid() && Snapshot().InRange()
      ensures var st := Spec.SetCurrentPage(old(Snapshot()), page, fetch);
        Snapshot() == st.state && trace == old(trace) + st.effects && r == st.outcome
      ensures currentPage == ClampPage(page, old(TotalPages()))
      ensures ClampPage(page, old(TotalPages())) == old(currentPage) ==>
        Snapshot() == old(Snapshot()) && trace == old(trace) && r == Resolved
    {
      r := SetCurrentPageAsRendered(page, pageSize, TotalPages(), fetch);
    }

    /** `actions.setPageSize(size)`. In the clamp-down branch the page change
        goes through the closure of this same render, which still holds the
        old page size and page count. */
    method SetPageSize(size: int, fetch: Outcome) returns (r: Outcome)
      requires Valid()
      modifies this
      ensures Valid()
      ensures var st := Spec.SetPageSize(old(Snapshot()), size, fetch);
        Snapshot() == st.state && trace == old(trace) + st.effects && r == st.outcome
      ensures pageSize == SafeSize(size)
      ensures old(Snapshot().InRange()) ==> Snapshot().InRange()
      ensures SafeSize(size) == old(pageSize) ==>
        Snapshot() == old(Snapshot()) && trace == old(trace) && r == Resolved
    {
      var safeSize := SafeSize(size);
      if safeSize != pageSize {
        var renderedSize, renderedPages := pageSize, TotalPages();
        pageSize := safeSize;
        var newTotalPages := PaginationMath.TotalPages(totalItems, safeSize);
        if currentPage > newTotalPages {
          r := SetCurrentPageAsRendered(newTotalPages, renderedSize, renderedPages, fetch);
        } else {
          r := NotifyThenFetch(PaginationState(currentPage, safeSize, totalItems),
                               currentPage, safeSize, fetch);
        }
      } else {
        r := Resolved;
      }
    }

    /** `actions.nextPage()`: nothing happens on the last page. */
    method NextPage(fetch: Outcome) returns (r: Outcome)
      requires Valid()
      modifies this
      ensures Valid() && Snapshot().InRange()
      ensures var st := Spec.NextPage(old(Snapshot()), fetch);
        Snapshot() == st.state && trace == old(trace) + st.effects && r == st.outcome
      ensures old(currentPage) == old(TotalPages()) ==>
        Snapshot() == old(Snapshot()) && trace == old(trace) && r == Resolved
    {
      r := SetCurrentPage(currentPage + 1, fetch);
    }

    /** `actions.previousPage()`: nothing happens on page 1. */
    method PreviousPage(fetch: Outcome) returns (r: Outcome)
      requires Valid()
      modifies this
      ensures Valid() && Snapshot().InRange()
      ensures var st := Spec.PreviousPage(old(Snapshot()), fetch);
        Snapshot() == st.state && trace == old(trace) + st.effects && r == st.outcome
      ensures old(currentPage) == 1 ==>
        Snapshot() == old(Snapshot()) && trace == old(trace) && r == Resolved
    {
      r := SetCurrentPage(currentPage - 1, fetch);
    }

    /** `actions.firstPage()`. */
    method FirstPage(fetch: Outcome) returns (r: Outcome)
      requires Valid()
      modifies this
      ensures Valid() && currentPage == 1
      ensures var st := Spec.FirstPage(old(Snapshot()), fetch);
        Snapshot() == st.state && trace == old(trace) + st.effects && r == st.outcome
    {
      r := SetCurrentPage(1, fetch);
    }

    /** `actions.lastPage()`. */
    method LastPage(fetch: Outcome) returns (r: Outcome)
      requires Valid()
      modifies this
      ensures Valid() && currentPage == TotalPages()
      ensures var st := Spec.LastPage(old(Snapshot()), fetch);
        Snapshot() == st.state && trace == old(trace) + st.effects && r == st.outcome
    {
      r := SetCurrentPage(TotalPages(), fetch);
    }

    /** A new `totalItems` prop, followed in server mode by the effect that
        goes back to page 1. The effect awaits nothing: the promise of its
        page change is discarded, so a rejected fetch reaches no caller. */
    method TotalItemsChanged(newTotal: nat, fetch: Outcome) returns (r: Outcome)
      requires Valid()
      modifies this
      ensures Valid() && totalItems == newTotal
      ensures var st := Spec.TotalItemsChanged(old(Snapshot()), newTotal, fetch);
        Snapshot() == st.state && trace == old(trace) + st.effects && r == st.outcome
      ensures r == Resolved
      ensures mode == Server ==> currentPage == 1 && Snapshot().InRange()
      ensures mode == Client ==> currentPage == old(currentPage) && trace == old(trace)
    {
      totalItems := newTotal;
      if mode == Server {
        var discarded := SetCurrentPage(1, fetch);
      }
      r := Resolved;
    }
  }
}
