/** What the hook promises across its operations: the derived info is
    consistent with the state and with the actions, the page-range invariant
    survives any sequence of calls at a fixed item count, every visible change
    is reported once and fetched once, and a rejected fetch rolls nothing back. */
module PaginationProperties {
  import opened PaginationMath
  import opened PaginationTypes
  import opened Effects
  import opened PaginationSpec

  /** `handlePageChange` fetches exactly in server mode with a callback,
      notifies nothing, starts its fetch under the loading flag and leaves the
      flag cleared after a fetch and untouched without one. */
  lemma FetchEffectsLogs(s: HookState, call: FetchCall)
    ensures var t := FetchEffects(s, call);
      && Notifications(t) == []
      && Fetches(t) == (if s.FetchesOnChange() then [call] else [])
      && FetchesWhileLoading(s.isLoading, t)
      && LoadingAfter(s.isLoading, t) == (s.isLoading && !s.FetchesOnChange())
  {
    if s.FetchesOnChange() {
      AwaitedFetchHoldsLoading(s.isLoading, call);
    }
  }

  /** An accepted change is reported once when `onChange` is given and
      fetched once in server mode with a callback. */
  lemma {:induction false} ChangeEffectsLogs(s: HookState, payload: PaginationState, call: FetchCall)
    ensures var t := ChangeEffects(s, payload, call);
      && Notifications(t) == (if s.hasOnChange then [payload] else [])
      && Fetches(t) == (if s.FetchesOnChange() then [call] else [])
  {
    var notify := OptionalNotify(s.hasOnChange, payload);
    var fetched := FetchEffects(s, call);
    FetchEffectsLogs(s, call);
    NotificationsAppend(notify, fetched);
    FetchesAppend(notify, fetched);
  }

  /** The fetch of an accepted change runs under the loading flag, which is
      cleared afterwards; without a fetch the flag is untouched. */
  lemma {:induction false} ChangeEffectsLoading(s: HookState, payload: PaginationState, call: FetchCall)
    ensures var t := ChangeEffects(s, payload, call);
      && FetchesWhileLoading(s.isLoading, t)
      && LoadingAfter(s.isLoading, t) == (s.isLoading && !s.FetchesOnChange())
  {
    var notify := OptionalNotify(s.hasOnChange, payload);
    var fetched := FetchEffects(s, call);
    FetchEffectsLogs(s, call);
    OptionalNotifyKeepsLoading(s.isLoading, s.hasOnChange, payload);
    LoadingAfterAppend(s.isLoading, notify, fetched);
    FetchesWhileLoadingAppend(s.isLoading, notify, fetched);
  }

  /** The logs of an accepted change that moves the page or the size: at most
      one report and one fetch, present exactly when their callbacks are
      given, the fetch under the loading flag, the flag cleared after it, and
      the rejection of the fetch, and only that, passed on. */
  lemma AcceptLogs(s: HookState, next: HookState, payload: PaginationState, call: FetchCall, fetch: Outcome)
    requires Changed(s, next) && SameSettings(s, next)
    ensures var st := Accept(next, payload, call, fetch);
      && Changed(s, st.state)
      && Notifications(st.effects) == (if s.hasOnChange then [payload] else [])
      && Fetches(st.effects) == (if s.FetchesOnChange() then [call] else [])
      && FetchesWhileLoading(s.isLoading, st.effects)
      && st.state.isLoading == LoadingAfter(s.isLoading, st.effects)
      && st.state.isLoading == (s.isLoading && !s.FetchesOnChange())
      && st.outcome == (if s.FetchesOnChange() then fetch else Resolved)
  {
    ChangeEffectsLogs(next, payload, call);
    ChangeEffectsLoading(next, payload, call);
  }

  /** The flags an operation never changes. */
  predicate SameSettings(s: HookState, t: HookState)
  {
    && t.mode == s.mode && t.hasOnChange == s.hasOnChange && t.hasFetch == s.hasFetch
    && t.isLoading == s.isLoading && t.externalLoading == s.externalLoading
  }

  /** Every operation either changes neither page nor size and has no effect,
      or is an accepted change from a state with a new page or size. */
  lemma ApplyShape(s: HookState, a: Action, fetch: Outcome)
    returns (accepted: bool, next: HookState, payload: PaginationState, call: FetchCall)
    requires s.Valid()
    ensures var st := Apply(s, a, fetch);
      && (!accepted ==>
           st.effects == [] && st.outcome == Resolved && !Changed(s, st.state) &&
           st.state.isLoading == s.isLoading)
      && (accepted ==>
           var acc := Accept(next, payload, call, fetch);
           && st.state == acc.state && st.effects == acc.effects
           && st.outcome == (if a.ItemsChanged? then Resolved else acc.outcome)
           && Changed(s, next) && SameSettings(s, next))
  {
    var st := Apply(s, a, fetch);
    match a
    case GoTo(page) =>
      accepted, next, payload, call := PageShape(s, page, fetch);
    case Next =>
      accepted, next, payload, call := PageShape(s, s.currentPage + 1, fetch);
    case Previous =>
      accepted, next, payload, call := PageShape(s, s.currentPage - 1, fetch);
    case First =>
      accepted, next, payload, call := PageShape(s, 1, fetch);
    case Last =>
      accepted, next, payload, call := PageShape(s, s.Pages(), fetch);
    case ItemsChanged(total) =>
      accepted, next, payload, call := ItemsShape(s, total, fetch);
    case Resize(size) =>
      accepted, next, payload, call := SizeShape(s, size, fetch);
  }

  /** `SetCurrentPage` in the form of `ApplyShape`. */
  lemma PageShape(s: HookState, page: int, fetch: Outcome)
    returns (accepted: bool, next: HookState, payload: PaginationState, call: FetchCall)
    requires s.Valid()
    ensures var st := SetCurrentPage(s, page, fetch);
      && (!accepted ==> st == NoOp(s))
      && (accepted ==>
           st == Accept(next, payload, call, fetch) && Changed(s, next) && SameSettings(s, next))
  {
    var p := ClampPage(page, s.Pages());
    accepted := p != s.currentPage;
    next := s.(currentPage := p);
    payload, call := PaginationState(p, s.pageSize, s.totalItems), FetchCall(p, s.pageSize);
  }

  /** `TotalItemsChanged` in the form of `ApplyShape`: its accepted change
      settles `Resolved` whatever the fetch does. */
  lemma ItemsShape(s: HookState, total: nat, fetch: Outcome)
    returns (accepted: bool, next: HookState, payload: PaginationState, call: FetchCall)
    requires s.Valid()
    ensures var st := TotalItemsChanged(s, total, fetch);
      && (!accepted ==>
           st.effects == [] && st.outcome == Resolved && !Changed(s, st.state) &&
           st.state.isLoading == s.isLoading)
      && (accepted ==>
           var acc := Accept(next, payload, call, fetch);
           && st.state == acc.state && st.effects == acc.effects && st.outcome == Resolved
           && Changed(s, next) && SameSettings(s, next))
  {
    if s.mode == Server {
      accepted, next, payload, call := PageShape(s.(totalItems := total), 1, fetch);
    } else {
      accepted, next, payload, call := false, s, PaginationState(1, 1, 0), FetchCall(1, 1);
    }
  }

  /** `SetPageSize` in the form of `ApplyShape`. */
  lemma SizeShape(s: HookState, size: int, fetch: Outcome)
    returns (accepted: bool, next: HookState, payload: PaginationState, call: FetchCall)
    requires s.Valid()
    ensures var st := SetPageSize(s, size, fetch);
      && (!accepted ==> st == NoOp(s))
      && (accepted ==>
           st == Accept(next, payload, call, fetch) && Changed(s, next) && SameSettings(s, next))
  {
    var safeSize := SafeSize(size);
    accepted := safeSize != s.pageSize;
    var newPages := TotalPages(s.totalItems, safeSize);
    if s.currentPage > newPages {
      var p := ClampPage(newPages, s.Pages());
      next := s.(currentPage := p, pageSize := safeSize);
      payload, call := PaginationState(p, s.pageSize, s.totalItems), FetchCall(p, s.pageSize);
    } else {
      next := s.(pageSize := safeSize);
      payload, call := PaginationState(s.currentPage, safeSize, s.totalItems), FetchCall(s.currentPage, safeSize);
    }
  }

  /** Under the page-range invariant the page's slice `[startIndex, endIndex)`
      lies within the items, holds at most one page of them, and is empty only
      when there are no items at all. */
  lemma InfoBounds(s: HookState)
    requires s.Valid() && s.InRange()
    ensures var info := Info(s);
      && 0 <= info.startIndex <= info.endIndex <= s.totalItems
      && info.endIndex - info.startIndex <= s.pageSize
      && (s.totalItems > 0 ==> info.startIndex < info.endIndex)
  {
    var n := s.Pages();
    if n > 1 {
      MulMonotone(s.currentPage - 1, n - 1, s.pageSize);
    }
  }

  /** The page with index `k` (zero-based) is the only one whose start is at
      most `i` and whose next start is past `i`. */
  lemma DivisionIsUnique(i: nat, size: int, k: int)
    requires size >= 1 && k >= 0
    requires k * size <= i < k * size + size
    ensures k == i / size
  {
    var d := i / size;
    assert d * size + i % size == i;
    if k < d {
      MulMonotone(k + 1, d, size);
      assert false;
    } else if k > d {
      MulMonotone(d + 1, k, size);
      assert false;
    }
  }

  /** Every item index lies on page `i / pageSize + 1`, which is a page of the
      range. */
  lemma {:induction false} ItemOnPage(s: HookState, i: nat)
    requires s.pageSize >= 1 && i < s.totalItems
    ensures var p := i / s.pageSize + 1;
      && 1 <= p <= s.Pages()
      && Info(s.(currentPage := p)).startIndex <= i < Info(s.(currentPage := p)).endIndex
  {
    var d := i / s.pageSize;
    assert d * s.pageSize + i % s.pageSize == i;
    if d >= s.Pages() {
      MulMonotone(s.Pages(), d, s.pageSize);
      assert false;
    }
  }

  /** No item index lies on two pages. */
  lemma {:induction false} ItemOnOnePage(s: HookState, i: nat, q: int)
    requires s.pageSize >= 1 && i < s.totalItems
    requires 1 <= q <= s.Pages()
    requires Info(s.(currentPage := q)).startIndex <= i < Info(s.(currentPage := q)).endIndex
    ensures q == i / s.pageSize + 1
  {
    DivisionIsUnique(i, s.pageSize, q - 1);
  }

  /** The last page ends exactly at the item count. */
  lemma {:induction false} LastPageEndsAtTotal(s: HookState)
    requires s.pageSize >= 1
    ensures Info(s.(currentPage := s.Pages())).endIndex == s.totalItems
  {
    var n := s.Pages();
    assert (n - 1) * s.pageSize + s.pageSize == n * s.pageSize;
  }

  /** The four flags of the info are exactly the conditions under which the
      matching action does something. */
  lemma InfoFlagsMatchActions(s: HookState, fetch: Outcome)
    requires s.Valid() && s.InRange()
    ensures Info(s).hasNextPage <==> NextPage(s, fetch) != NoOp(s)
    ensures Info(s).hasPreviousPage <==> PreviousPage(s, fetch) != NoOp(s)
    ensures Info(s).isFirstPage <==> FirstPage(s, fetch) == NoOp(s)
    ensures Info(s).isLastPage <==> LastPage(s, fetch) == NoOp(s)
    ensures Info(s).isFirstPage <==> !Info(s).hasPreviousPage
    ensures Info(s).isLastPage <==> !Info(s).hasNextPage
  {
  }

  /** With the page in range, `setPageSize` keeps it in range; when it has to
      clamp, the page lands on the new last page even though the closure that
      does the clamping still knows the old page count. */
  lemma SetPageSizeKeepsRange(s: HookState, size: int, fetch: Outcome)
    requires s.Valid() && s.InRange()
    ensures var st := SetPageSize(s, size, fetch);
      && st.state.InRange()
      && (s.currentPage > st.state.Pages() ==> st.state.currentPage == st.state.Pages())
  {
  }

  /** One operation keeps the page in range, except a new item count in
      client mode, which is not re-clamped. */
  lemma ApplyKeepsRange(s: HookState, a: Action, fetch: Outcome)
    requires s.Valid() && s.InRange()
    requires a.ItemsChanged? ==> s.mode == Server
    ensures Apply(s, a, fetch).state.InRange()
  {
    if a.Resize? {
      SetPageSizeKeepsRange(s, a.size, fetch);
    }
  }

  /** Any sequence of calls keeps the page in range, as long as the item count
      only changes in server mode. */
  lemma {:induction false} RunKeepsRange(s: HookState, calls: seq<Call>)
    requires s.Valid() && s.InRange()
    requires s.mode == Client ==> forall k | 0 <= k < |calls| :: !calls[k].action.ItemsChanged?
    ensures Run(s, calls).InRange()
    decreases |calls|
  {
    if calls != [] {
      ApplyKeepsRange(s, calls[0].action, calls[0].fetch);
      var next := Apply(s, calls[0].action, calls[0].fetch).state;
      assert s.mode == Client ==> forall k | 0 <= k < |calls[1..]| :: !calls[1..][k].action.ItemsChanged? by {
        if s.mode == Client {
          forall k | 0 <= k < |calls[1..]| ensures !calls[1..][k].action.ItemsChanged? {
            assert calls[1..][k] == calls[k + 1];
          }
        }
      }
      RunKeepsRange(next, calls[1..]);
    }
  }

  /** A shrinking item count in client mode can leave the page past the end. */
  lemma ClientShrinkLeavesRange()
    ensures var s := HookState(3, 10, 30, Client, true, false, false, false);
      && s.Valid() && s.InRange()
      && !TotalItemsChanged(s, 5, Resolved).state.InRange()
  {
  }

  /** Calls made through one `actions` object do not see each other's
      changes. With 100 items on page 1 at size 10, `setPageSize(50)` keeps
      the page and resizes; a later `lastPage()` of the same object is the
      closure of the earlier render, which clamps against its page count 10
      and reports its size 10, so the page ends at 10 of 2. */
  lemma StaleActionsLeaveRange()
    ensures var s := HookState(1, 10, 100, Server, true, false, false, false);
      var resized := SetPageSize(s, 50, Resolved).state;
      var st := SetCurrentPageAsRendered(resized, s.Pages(), s.pageSize, s.Pages(), Resolved);
      && resized.currentPage == 1 && resized.pageSize == 50 && resized.InRange()
      && st.state.currentPage == 10 && st.state.Pages() == 2 && !st.state.InRange()
      && Notifications(st.effects) == [PaginationState(10, 10, 100)]
  {
    var s := HookState(1, 10, 100, Server, true, false, false, false);
    var resized := s.(pageSize := 50);
    ChangeEffectsLogs(resized.(currentPage := 10), PaginationState(10, 10, 100), FetchCall(10, 10));
  }

  /** Every operation reports a change of page or page size once to
      `onChange` and fetches it once in server mode; an operation that
      changes neither has no effect at all. */
  lemma OneNotificationPerChange(s: HookState, a: Action, fetch: Outcome)
    requires s.Valid()
    ensures var st := Apply(s, a, fetch);
      && |Notifications(st.effects)| <= 1 && |Fetches(st.effects)| <= 1
      && (!Changed(s, st.state) ==> st.effects == [] && st.outcome == Resolved)
      && (s.hasOnChange ==> (Changed(s, st.state) <==> |Notifications(st.effects)| == 1))
      && (s.FetchesOnChange() ==> (Changed(s, st.state) <==> |Fetches(st.effects)| == 1))
      && (!s.FetchesOnChange() ==> Fetches(st.effects) == [] && st.outcome == Resolved)
  {
    var accepted, next, payload, call := ApplyShape(s, a, fetch);
    if accepted {
      AcceptLogs(s, next, payload, call, fetch);
    }
  }

  /** `handlePageChange`'s `try`/`finally`: every fetch starts with the loading
      flag set, the flag is cleared afterwards on both paths, the state's flag
      agrees with the trace, and the rejection of a fetch, and only that,
      reaches the caller of one of the six `actions`; the effect that watches
      `totalItems` discards it. */
  lemma LoadingReleased(s: HookState, a: Action, fetch: Outcome)
    requires s.Valid()
    ensures var st := Apply(s, a, fetch);
      && FetchesWhileLoading(s.isLoading, st.effects)
      && st.state.isLoading == LoadingAfter(s.isLoading, st.effects)
      && (Fetches(st.effects) != [] ==> !st.state.isLoading)
      && (Fetches(st.effects) == [] ==> st.state.isLoading == s.isLoading)
      && (st.outcome == Rejected <==> !a.ItemsChanged? && Fetches(st.effects) != [] && fetch == Rejected)
  {
    var accepted, next, payload, call := ApplyShape(s, a, fetch);
    if accepted {
      AcceptLogs(s, next, payload, call, fetch);
    }
  }

  /** A rejected fetch rolls nothing back: the state and the effects are those
      of the same call with a resolving fetch. */
  lemma RejectionRollsNothingBack(s: HookState, a: Action)
    requires s.Valid()
    ensures Apply(s, a, Rejected).state == Apply(s, a, Resolved).state
    ensures Apply(s, a, Rejected).effects == Apply(s, a, Resolved).effects
  {
  }

  /** `setPageSize` from 10 to 50 with 100 items on page 8: the page is
      clamped to the new last page, 2, and the one notification carries the
      clamped page together with the old page size 10 of the closure that
      sent it, while the state keeps 50. */
  lemma ShrinkPageCountReportsOldSize()
    ensures var s := HookState(8, 10, 100, Server, true, true, false, false);
      var st := SetPageSize(s, 50, Resolved);
      && st.state.currentPage == 2 && st.state.pageSize == 50
      && Notifications(st.effects) == [PaginationState(2, 10, 100)]
      && Fetches(st.effects) == [FetchCall(2, 10)]
  {
    var s := HookState(8, 10, 100, Server, true, true, false, false);
    ChangeEffectsLogs(s.(currentPage := 2, pageSize := 50), PaginationState(2, 10, 100), FetchCall(2, 10));
  }

  /** A rejected server fetch still clears the loading flag, the page change
      stays, and the rejection reaches the caller. */
  lemma RejectedFetchClearsLoading()
    ensures var s := HookState(1, 10, 100, Server, false, true, false, false);
      var st := SetCurrentPage(s, 2, Rejected);
      && st.state.currentPage == 2 && !st.state.isLoading
      && st.outcome == Rejected && Fetches(st.effects) == [FetchCall(2, 10)]
  {
  }
}
