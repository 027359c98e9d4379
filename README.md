# usePagination, modelled in Dafny

This project models the pagination state engine of react-pagination-pro: the
`usePagination` hook (src/hooks/usePagination.ts). The hook keeps a current page
and a page size over a collection of known size. It derives the page count and
the `PaginationInfo` record from them. It offers guarded actions that clamp their
argument, report accepted changes to `onChange` and, in server mode, await the
`onPageChange(page, pageSize)` fetch while an `isLoading` flag is held.

Files:

- `pagination_math.dfy`, module `PaginationMath`: the ceiling division, `totalPages`, the page clamp and the size clamp.
- `pagination_types.dfy`, modules `PaginationTypes` and `Effects`. `PaginationTypes` holds the records of src/types/pagination.ts and the observable effects (notification, loading-flag update, fetch). `Effects` holds the views of an effect trace: the notification log, the fetch log and the replayed loading flag.
- `pagination_spec.dfy`, module `PaginationSpec`: the hook's state as a value, and one pure step function per operation. Each returns the next state, the effects in order, and how the awaited action settles.
- `pagination_properties.dfy`, module `PaginationProperties`: lemmas across operations.
- `use_pagination.dfy`, module `UsePagination`: class `Pagination`, the hook as an object.
  - Its fields are the React state (`currentPage`, `pageSize`, `isLoading`) and the props (`totalItems`, `mode`, `externalLoading`, and whether `onChange` and `onPageChange` are given).
  - A ghost `trace` records every effect.
  - Each method is proved to produce exactly the state, effects and outcome of its step function.

Modelling choices:

- The fetch callback cannot be seen, so every action takes a parameter `fetch: Outcome`. It says whether the callback's promise would resolve or reject if called. The result of each of the six `actions` is how the awaited action settles, and a rejection reaches its caller only when a fetch was made. The effect that watches `totalItems` (lines 53-57) discards the promise of its `safeSetCurrentPage(1)`, so `TotalItemsChanged` always settles `Resolved`; a rejected fetch there is an unhandled rejection that reaches no caller.
- The stale closure in `setPageSize` is modelled. When the page falls off the end (line 45), the call goes to `safeSetCurrentPage` from the same render (`SetCurrentPageAsRendered`). That closure clamps against the old page count, and its notification and fetch carry the old page size. The state still ends with the new size.
- A missing external `isLoading` (`undefined`) is modelled as `false`.

What the hook does not do:

- It has no `isDisabled*` guards, no loop mode and no ellipsis window. Its prop types (src/types/pagination.ts:57-62) and the demo page (src/components/examples/basic.tsx:285, 313-315) mention them. `hasNextPage` and `hasPreviousPage` depend on the page alone.
- It uses its initial values unchecked.
- It does not reset the page when the item count reaches 0 in client mode.

## Model

| member | source | states |
|---|---|---|
| PaginationMath.CeilDiv | src/hooks/usePagination.ts:17 | `Math.ceil(a / b)` is the least q with `(q-1)*b < a <= q*b` |
| PaginationMath.TotalPages | src/hooks/usePagination.ts:17 | the page count is at least 1, covers every item, and its last page is non-empty unless it is the only page |
| PaginationMath.TotalPagesIsLeast | src/hooks/usePagination.ts:17 | the page count is the least k >= 1 with `totalItems <= k * pageSize`, i.e. `max(1, ceil(totalItems / pageSize))` |
| PaginationMath.ClampPage | src/hooks/usePagination.ts:31 | the clamped page lies in 1..last; it is the page itself when that is in range, 1 below, last above |
| PaginationMath.SafeSize | src/hooks/usePagination.ts:40 | an accepted size is at least 1 and equals the request when that is positive |
| Effects.AwaitedFetch | src/hooks/usePagination.ts:21-26 | the try/finally around the fetch calls `onPageChange` exactly once with its arguments and notifies nothing |
| Effects.AwaitedFetchHoldsLoading | src/hooks/usePagination.ts:21-26 | from any starting loading flag, the fetch starts with the flag set and leaves it cleared |
| Effects.OptionalNotify | src/hooks/usePagination.ts:34 | `onChange?.(payload)` notifies the payload once when the callback is given, nothing otherwise, and never fetches |
| Effects.OptionalNotifyKeepsLoading | src/hooks/usePagination.ts:34 | a notification leaves the loading flag as it was and starts no fetch |
| Effects.InNotifications | src/hooks/usePagination.ts:34 | the notification log holds exactly the payloads the trace notified |
| Effects.InFetches | src/hooks/usePagination.ts:35 | the fetch log holds exactly the calls the trace fetched |
| PaginationSpec.Info | src/hooks/usePagination.ts:59-76 | at least one page; the end index never passes the item count; a page holds at most pageSize items; the first page has no previous page and the last page has no next page |
| PaginationSpec.SetCurrentPageAsRendered | src/hooks/usePagination.ts:30-37 | a render's closure: the page ends clamped to that render's page count; same page means a full no-op; otherwise one notification and one server fetch carrying the clamped page and that render's page size |
| PaginationSpec.SetCurrentPage | src/hooks/usePagination.ts:79 | the page ends at `clamp(page, 1, totalPages)`, so the page-range invariant holds for any requested page; nothing but the page and the loading flag changes; a no-op exactly when the clamped page is the current one; otherwise `{page, pageSize, totalItems}` is notified once and `(page, pageSize)` is fetched once in server mode |
| PaginationSpec.SetPageSize | src/hooks/usePagination.ts:39-51 | size becomes `max(1, size)`; nothing but the page, the size and the loading flag changes; the same size means a full no-op; past the new end, the page is clamped and reported with the old size; otherwise the page stays and the new size is reported and fetched; the page never exceeds the new page count after a change |
| PaginationSpec.NextPage | src/hooks/usePagination.ts:81 | only the page and the loading flag change; in range, a no-op exactly on the last page; before it, moves to the next page |
| PaginationSpec.PreviousPage | src/hooks/usePagination.ts:82 | only the page and the loading flag change; in range, a no-op exactly on page 1; after it, moves to the previous page |
| PaginationSpec.FirstPage | src/hooks/usePagination.ts:83 | only the page and the loading flag change; ends on page 1; a no-op exactly when already there |
| PaginationSpec.LastPage | src/hooks/usePagination.ts:84 | only the page and the loading flag change; ends on the last page; a no-op exactly when already there |
| PaginationSpec.TotalItemsChanged | src/hooks/usePagination.ts:53-57 | stores the new count; server mode goes back to page 1 (a no-op if already there); client mode changes nothing else and does not re-clamp; the effect discards the promise of its page change, so the step always settles `Resolved` |
| PaginationSpec.Apply | src/hooks/usePagination.ts:78-85 | every action keeps page and size positive and leaves the mode, the callbacks and the external loading flag alone; only a new item count changes it |
| PaginationSpec.Run | src/hooks/usePagination.ts:78-85 | any sequence of awaited actions, each made through the `actions` of the render after the previous one, keeps page and size positive and the mode fixed |
| PaginationProperties.FetchEffectsLogs | src/hooks/usePagination.ts:19-28 | `handlePageChange` fetches `(page, size)` exactly in server mode with a callback and notifies nothing; the fetch starts under the loading flag; the flag is cleared after a fetch and untouched without one |
| PaginationProperties.ChangeEffectsLogs | src/hooks/usePagination.ts:34-35 | an accepted change notifies its payload once when `onChange` is given and fetches once in server mode with a callback, nothing more |
| PaginationProperties.ChangeEffectsLoading | src/hooks/usePagination.ts:34-35 | the fetch after the notification runs under the loading flag, which is cleared afterwards |
| PaginationProperties.AcceptLogs | src/hooks/usePagination.ts:32-35 | an accepted change of page or size: its notification and fetch logs, the loading flag replayed from the trace agrees with the state, and the outcome is the fetch's exactly in server mode with a callback |
| PaginationProperties.PageShape | src/hooks/usePagination.ts:30-37 | `setCurrentPage` is either a full no-op or an accepted change to a new page with every setting kept |
| PaginationProperties.SizeShape | src/hooks/usePagination.ts:39-51 | `setPageSize` is either a full no-op or an accepted change to a new size with every setting kept |
| PaginationProperties.ItemsShape | src/hooks/usePagination.ts:53-57 | a new item count is either a full no-op for page and size or an accepted change to page 1 with every setting kept, and it settles `Resolved` either way |
| PaginationProperties.ApplyShape | src/hooks/usePagination.ts:78-85 | every action is either a full no-op that changes neither page nor size, or an accepted change of page or size with every setting kept, settling as its fetch does except for a new item count, which settles `Resolved` |
| PaginationProperties.InfoBounds | src/hooks/usePagination.ts:60-61 | in range, `0 <= startIndex <= endIndex <= totalItems`, the slice is at most one page, and non-empty when there are items |
| PaginationProperties.ItemOnPage | src/hooks/usePagination.ts:60-61 | every item index i lies in the slice of page `i / pageSize + 1`, which is a page of the range |
| PaginationProperties.ItemOnOnePage | src/hooks/usePagination.ts:60-61 | no item index lies in the slices of two pages |
| PaginationProperties.LastPageEndsAtTotal | src/hooks/usePagination.ts:61 | the last page's slice ends exactly at `totalItems` |
| PaginationProperties.InfoFlagsMatchActions | src/hooks/usePagination.ts:70-73 | in range, `hasNextPage`/`hasPreviousPage` hold exactly when next/previous do something; `isFirstPage`/`isLastPage` hold exactly when first/last do nothing; first is the negation of has-previous, last of has-next |
| PaginationProperties.SetPageSizeKeepsRange | src/hooks/usePagination.ts:43-45 | in range before, in range after; when clamping is needed, the page lands on the new last page even though the old page count was captured |
| PaginationProperties.ApplyKeepsRange | src/hooks/usePagination.ts:30-57 | each action keeps `1 <= currentPage <= totalPages`, except a new item count in client mode |
| PaginationProperties.RunKeepsRange | src/hooks/usePagination.ts:78-85 | any sequence of actions, each made through the `actions` of the render after the previous one, keeps the page in range, as long as the item count only changes in server mode |
| PaginationProperties.ClientShrinkLeavesRange | src/hooks/usePagination.ts:53-57 | in client mode, shrinking the item count from 30 to 5 leaves page 3 past the single remaining page |
| PaginationProperties.StaleActionsLeaveRange | src/hooks/usePagination.ts:39-51 | 100 items on page 1, size 10: `setPageSize(50)` keeps page 1; `lastPage()` of the same `actions` object then clamps against the captured page count 10, ends on page 10 of 2 and reports size 10 |
| PaginationProperties.OneNotificationPerChange | src/hooks/usePagination.ts:32-35 | at most one notification and one fetch per action; an action that changes neither page nor size has no effect and resolves; with `onChange`, a notification exactly when something changed; in server mode, a fetch exactly when something changed; never a fetch in client mode |
| PaginationProperties.LoadingReleased | src/hooks/usePagination.ts:19-28 | every fetch starts under the loading flag; the flag is cleared after a fetch and untouched without one; a rejection reaches the caller of one of the six `actions` exactly when a fetch was made and rejected; a new item count never passes one on |
| PaginationProperties.RejectionRollsNothingBack | src/hooks/usePagination.ts:22-26 | a rejected fetch leaves the same state and effects as a resolved one |
| PaginationProperties.ShrinkPageCountReportsOldSize | src/hooks/usePagination.ts:44-45 | 100 items on page 8, size 10 to 50: the page becomes 2, and the notification and fetch carry `(2, 10)` while the state holds 50 |
| PaginationProperties.RejectedFetchClearsLoading | src/hooks/usePagination.ts:21-26 | a rejected server fetch for page 2 keeps page 2, clears the loading flag and rejects |
| UsePagination.Pagination.Info | src/hooks/usePagination.ts:59-76 | the record of the object's fields: their page and size, the page count, a slice that ends within the items and holds at most one page, and the hook's or the caller's loading flag |
| UsePagination.Pagination.constructor | src/hooks/usePagination.ts:13-15 | starts from the given page and size, not loading, with an empty trace; the page is in range |
| UsePagination.Pagination.TotalPages | src/hooks/usePagination.ts:17 | at least one page, and the pages cover the items |
| UsePagination.Pagination.HandlePageChange | src/hooks/usePagination.ts:19-28 | sets the loading flag, records the fetch and clears the flag: the trace grows by `PaginationSpec.FetchEffects`, the result is `PaginationSpec.Settle`, and only the loading flag changes |
| UsePagination.Pagination.NotifyThenFetch | src/hooks/usePagination.ts:34-35 | notifies, then awaits the fetch: state, trace and result are those of `PaginationSpec.Accept` |
| UsePagination.Pagination.SetCurrentPageAsRendered | src/hooks/usePagination.ts:30-37 | the page ends clamped to the captured page count; state, trace and result as `PaginationSpec.SetCurrentPageAsRendered` |
| UsePagination.Pagination.SetCurrentPage | src/hooks/usePagination.ts:79 | the page ends at `clamp(page, 1, totalPages)` and in range; when that is the current page, nothing changes and nothing is traced |
| UsePagination.Pagination.SetPageSize | src/hooks/usePagination.ts:80 | the size ends at `max(1, size)`; the range invariant is kept; the same size changes and traces nothing |
| UsePagination.Pagination.NextPage | src/hooks/usePagination.ts:81 | in range afterwards; nothing changes or is traced on the last page |
| UsePagination.Pagination.PreviousPage | src/hooks/usePagination.ts:82 | in range afterwards; nothing changes or is traced on page 1 |
| UsePagination.Pagination.FirstPage | src/hooks/usePagination.ts:83 | ends on page 1 |
| UsePagination.Pagination.LastPage | src/hooks/usePagination.ts:84 | ends on the last page |
| UsePagination.Pagination.TotalItemsChanged | src/hooks/usePagination.ts:53-57 | stores the count; in server mode ends on page 1 in range; in client mode keeps the page and traces nothing; always settles `Resolved`, since the effect discards the promise |

## Left out

- Rendering and styling are not modelled: src/components/ui/Pagination.tsx, pagination.styles.ts, pagination.types.ts, src/lib/utils.tsx and tailwind.config.ts. They only consume the hook's outputs.
- The demo pages (src/components/examples/basic.tsx, src/app/page.tsx) are not modelled; their slicing reuses `startIndex`/`endIndex`.
- React scheduling is not modelled. The effect at lines 53-57 is modelled only as an explicit `TotalItemsChanged` call. In the hook, that effect also depends on the `safeSetCurrentPage` callback, whose identity changes with `currentPage` and `pageSize`. So in server mode the effect also re-runs after every page or size change and on mount, which sends the page back to 1. The model does not capture these re-runs.
- Run, RunKeepsRange: each call is applied to the state the previous call left, as if it went through the `actions` of the render that followed. Calls made through one `actions` object see the page, size and page count of the render that created it. For example, with 100 items on page 1 at size 10, `await actions.setPageSize(50); await actions.lastPage();` on one object moves to page 10 of 2 and reports size 10. `StaleActionsLeaveRange` shows this case; the sequence lemmas do not cover such calls.
- The hook's default arguments (`totalItems = 0`, `defaultCurrentPage = 1`, `defaultPageSize = 10`, `mode = 'client'`, lines 5-9) are not modelled; the constructor takes every value explicitly.
- Changes of the props `mode`, `onChange`, `onPageChange` and the external `isLoading` after construction are not modelled. They are fixed fields.
- Overlapping fetches are not modelled. Each action awaits its fetch before returning, so out-of-order completion and last-write-wins on `isLoading` are not captured.
- A throwing `onChange` callback is not modelled.
- JavaScript numbers are unbounded integers here. Non-integer pages, NaN, Infinity (a page size of 0 before clamping) and floating-point rounding in `Math.ceil(totalItems / pageSize)` are not modelled. `totalItems` is a natural number.
- The constructor requires `defaultPageSize >= 1` and `1 <= defaultCurrentPage <= totalPages`. The hook uses these values unchecked, and the model does not cover invalid initial values.
- The interface's optional `isDisabled*` fields of `PaginationInfo` are never set by the hook and are not part of the record.
