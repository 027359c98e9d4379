/** The records of src/types/pagination.ts, and the observable effects of the
    hook: change notifications, loading-flag updates and server fetches. */
module PaginationTypes {

  /** `mode`: 'client' slices locally, 'server' fetches each accepted change. */
  datatype Mode = Client | Server

  /** How an awaited action settles: the promise of the fetch callback either
      resolves or rejects, and a rejection reaches the action's caller. */
  datatype Outcome = Resolved | Rejected

  /** `PaginationState`, the payload of `onChange`. */
  datatype PaginationState = PaginationState(currentPage: int, pageSize: int, totalItems: nat)

  /** `PaginationInfo` as the hook fills it in. The optional disable flags of
      the interface are never set by the hook and are not part of the record. */
  datatype PaginationInfo = PaginationInfo(
    currentPage: int,
    pageSize: int,
    totalItems: nat,
    totalPages: int,
    startIndex: int,
    endIndex: int,
    hasNextPage: bool,
    hasPreviousPage: bool,
    isFirstPage: bool,
    isLastPage: bool,
    isLoading: bool)

  /** The arguments of one call of the `onPageChange(page, pageSize)` callback. */
  datatype FetchCall = FetchCall(page: int, size: int)

  /** One observable effect, in the order the hook performs them. */
  datatype Effect =
    | Notified(state: PaginationState)
    | LoadingSet(loading: bool)
    | Fetched(call: FetchCall)
}

/** Views of a trace of effects: the notification log, the fetch log, and the
    loading flag replayed from the `setIsLoading` calls. */
module Effects {
  import opened PaginationTypes

  /** The `onChange` payloads of a trace, in order. */
  function Notifications(t: seq<Effect>): (ns: seq<PaginationState>)
    ensures |ns| <= |t|
  {
    if t == [] then []
    else
      var last := t[|t| - 1];
      assert t == t[..|t| - 1] + [last];
      Notifications(t[..|t| - 1]) + (if last.Notified? then [last.state] else [])
  }

  /** The `onPageChange` calls of a trace, in order. */
  function Fetches(t: seq<Effect>): (fs: seq<FetchCall>)
    ensures |fs| <= |t|
  {
    if t == [] then []
    else
      var last := t[|t| - 1];
      assert t == t[..|t| - 1] + [last];
      Fetches(t[..|t| - 1]) + (if last.Fetched? then [last.call] else [])
  }

  /** The loading flag after replaying the trace's `setIsLoading` calls from
      `initial`. */
  function LoadingAfter(initial: bool, t: seq<Effect>): bool
  {
    if t == [] then initial
    else if t[|t| - 1].LoadingSet? then t[|t| - 1].loading
    else LoadingAfter(initial, t[..|t| - 1])
  }

  /** Every fetch of the trace starts while the replayed loading flag is set. */
  predicate FetchesWhileLoading(initial: bool, t: seq<Effect>)
  {
    t == [] ||
    (FetchesWhileLoading(initial, t[..|t| - 1]) &&
     (t[|t| - 1].Fetched? ==> LoadingAfter(initial, t[..|t| - 1])))
  }

  /** The effects of one awaited fetch wrapped in `try`/`finally`: the
      loading flag is set before the call and cleared after it. */
  function AwaitedFetch(c: FetchCall): (t: seq<Effect>)
    ensures Notifications(t) == [] && Fetches(t) == [c]
  {
    var acquire := [LoadingSet(true)];
    var called := acquire + [Fetched(c)];
    var t := called + [LoadingSet(false)];
    assert t[..|t| - 1] == called && called[..|called| - 1] == acquire && acquire[..0] == [];
    assert Notifications(acquire) == [] && Notifications(called) == [];
    assert Fetches(acquire) == [] && Fetches(called) == [c];
    t
  }

  /** Whatever the loading flag was, the awaited fetch starts with it set and
      leaves it cleared. */
  lemma AwaitedFetchHoldsLoading(initial: bool, c: FetchCall)
    ensures FetchesWhileLoading(initial, AwaitedFetch(c))
    ensures !LoadingAfter(initial, AwaitedFetch(c))
  {
    var t := AwaitedFetch(c);
    var called := t[..2];
    assert t[..|t| - 1] == called && called[..|called| - 1] == t[..1] && t[..1][..0] == [];
    assert LoadingAfter(initial, t[..1]);
    assert FetchesWhileLoading(initial, t[..1]);
    assert LoadingAfter(initial, called);
  }

  /** The effects of `onChange?.(payload)`: one notification when the
      callback is given, nothing otherwise. */
  function OptionalNotify(given: bool, payload: PaginationState): (t: seq<Effect>)
    ensures Notifications(t) == if given then [payload] else []
    ensures Fetches(t) == []
  {
    if given then
      var t := [Notified(payload)];
      assert t[..0] == [];
      t
    else []
  }

  /** A notification neither fetches nor touches the loading flag. */
  lemma OptionalNotifyKeepsLoading(initial: bool, given: bool, payload: PaginationState)
    ensures FetchesWhileLoading(initial, OptionalNotify(given, payload))
    ensures LoadingAfter(initial, OptionalNotify(given, payload)) == initial
  {
    var t := OptionalNotify(given, payload);
    if given {
      assert t[..0] == [];
    }
  }

  lemma {:induction false} NotificationsAppend(a: seq<Effect>, b: seq<Effect>)
    ensures Notifications(a + b) == Notifications(a) + Notifications(b)
    decreases |b|
  {
    if b == [] {
      assert a + b == a;
    } else {
      var b' := b[..|b| - 1];
      assert (a + b)[..|a + b| - 1] == a + b';
      NotificationsAppend(a, b');
    }
  }

  lemma {:induction false} FetchesAppend(a: seq<Effect>, b: seq<Effect>)
    ensures Fetches(a + b) == Fetches(a) + Fetches(b)
    decreases |b|
  {
    if b == [] {
      assert a + b == a;
    } else {
      var b' := b[..|b| - 1];
      assert (a + b)[..|a + b| - 1] == a + b';
      FetchesAppend(a, b');
    }
  }

  lemma {:induction false} LoadingAfterAppend(initial: bool, a: seq<Effect>, b: seq<Effect>)
    ensures LoadingAfter(initial, a + b) == LoadingAfter(LoadingAfter(initial, a), b)
    decreases |b|
  {
    if b == [] {
      assert a + b == a;
    } else {
      var b' := b[..|b| - 1];
      assert (a + b)[..|a + b| - 1] == a + b';
      LoadingAfterAppend(initial, a, b');
    }
  }

  /** A trace starts its fetches under the loading flag exactly when both of
      its halves do, the second half starting from where the first left it. */
  lemma {:induction false} FetchesWhileLoadingAppend(initial: bool, a: seq<Effect>, b: seq<Effect>)
    ensures FetchesWhileLoading(initial, a + b) <==>
            FetchesWhileLoading(initial, a) && FetchesWhileLoading(LoadingAfter(initial, a), b)
    decreases |b|
  {
    if b == [] {
      assert a + b == a;
    } else {
      var b' := b[..|b| - 1];
      assert (a + b)[..|a + b| - 1] == a + b';
      FetchesWhileLoadingAppend(initial, a, b');
      LoadingAfterAppend(initial, a, b');
    }
  }

  /** The notification log holds exactly the payloads the trace notified. */
  lemma {:induction false} InNotifications(t: seq<Effect>, n: PaginationState)
    ensures n in Notifications(t) <==> Notified(n) in t
    decreases |t|
  {
    if t != [] {
      assert t == t[..|t| - 1] + [t[|t| - 1]];
      InNotifications(t[..|t| - 1], n);
    }
  }

  /** The fetch log holds exactly the calls the trace fetched. */
  lemma {:induction false} InFetches(t: seq<Effect>, f: FetchCall)
    ensures f in Fetches(t) <==> Fetched(f) in t
    decreases |t|
  {
    if t != [] {
      assert t == t[..|t| - 1] + [t[|t| - 1]];
      InFetches(t[..|t| - 1], f);
    }
  }
}
