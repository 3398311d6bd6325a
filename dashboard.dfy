/**
 * The dashboard page controller (`DashboardPage`): the selected
 * conversation, the message list built page by page, and the error banner.
 *
 * Fetching is not modelled: a fetch is split into the request the page
 * issues (`BeginLoadMore`) and the outcome it later receives
 * (`CompleteLoadMore`), and the caller supplies that outcome. Values the
 * page tests with JavaScript truthiness (`!selectedSender`, `!!data.next`)
 * are modelled with their falsy empty string.
 */
module Dashboard {
  import opened Wrappers
  import opened Messages

  // ---------------------------------------------------------------------
  // The error-message chain of the request handlers.

  /** The part of a thrown value the chain inspects. */
  datatype JsValue = Undefined | Str(s: string) | Arr(items: seq<JsValue>)

  predicate IsTruthy(v: JsValue) {
    match v
    case Undefined => false
    case Str(s) => s != ""
    case Arr(_) => true
  }

  /** `error.response.data`, when both `response` and `data` are present. */
  datatype ResponseData = ResponseData(status: JsValue, sender: JsValue, message: JsValue, error: JsValue)

  /** What a `catch` receives. */
  datatype Thrown =
    | ErrorInstance(errorMessage: string)                          // `error instanceof Error`
    | ObjectThrown(data: Option<ResponseData>, message: JsValue)   // any other non-null object
    | Primitive                                                    // null, a string, a number, ...

  /** The field whose array form is tried first: `status` for status updates and paging, `sender` for pinning. */
  datatype ArrayKey = StatusKey | SenderKey

  const UpdateStatusDefault := "Erreur lors de la mise à jour du statut. Veuillez réessayer."
  const PinDefault := "Erreur lors de l'épinglage de l'expéditeur. Veuillez réessayer."
  const UnpinDefault := "Erreur lors du désépinglage de l'expéditeur. Veuillez réessayer."
  const LoadMoreDefault := "Erreur lors du chargement des messages. Veuillez réessayer."

  function ArrayField(d: ResponseData, key: ArrayKey): JsValue {
    match key
    case StatusKey => d.status
    case SenderKey => d.sender
  }

  /** `a[0]`: undefined for an empty array. */
  function First(items: seq<JsValue>): JsValue {
    if items == [] then Undefined else items[0]
  }

  /** The text `setError` receives in a `catch` block. */
  function ErrorMessage(t: Thrown, key: ArrayKey, default: string): JsValue {
    match t
    case ErrorInstance(m) => Str(m)
    case Primitive => Str(default)
    case ObjectThrown(data, m) =>
      if data.Some? && ArrayField(data.value, key).Arr? then First(ArrayField(data.value, key).items)
      else if data.Some? && IsTruthy(data.value.message) then data.value.message
      else if data.Some? && IsTruthy(data.value.error) then data.value.error
      else if IsTruthy(m) then m
      else Str(default)
  }

  /**
   * An independent statement of the chain: the candidate texts in priority
   * order, each present only when its test passes.
   */
  function Candidates(t: Thrown, key: ArrayKey): seq<Option<JsValue>> {
    match t
    case ErrorInstance(m) => [Some(Str(m))]
    case Primitive => []
    case ObjectThrown(data, m) =>
      (if data.Some? then
         [if ArrayField(data.value, key).Arr? then Some(First(ArrayField(data.value, key).items)) else None,
          if IsTruthy(data.value.message) then Some(data.value.message) else None,
          if IsTruthy(data.value.error) then Some(data.value.error) else None]
       else [])
      + [if IsTruthy(m) then Some(m) else None]
  }

  /** The first candidate present, else the default. */
  function FirstPresent(cs: seq<Option<JsValue>>, default: string): JsValue {
    if cs == [] then Str(default)
    else if cs[0].Some? then cs[0].value
    else FirstPresent(cs[1..], default)
  }

  /** The chain picks the first applicable source of text and falls back to the default only when none applies. */
  lemma ErrorMessageIsFirstPresent(t: Thrown, key: ArrayKey, default: string)
    ensures ErrorMessage(t, key, default) == FirstPresent(Candidates(t, key), default)
    ensures (forall i :: 0 <= i < |Candidates(t, key)| ==> Candidates(t, key)[i].None?) ==>
              ErrorMessage(t, key, default) == Str(default)
  {
    var cs := Candidates(t, key);
    match t
    case ErrorInstance(m) =>
    case Primitive =>
    case ObjectThrown(data, m) =>
      if data.Some? {
        var c3 := [cs[3]];
        var c2 := [cs[2]] + c3;
        var c1 := [cs[1]] + c2;
        assert cs == [cs[0]] + c1;
        assert FirstPresent(c3, default) == if cs[3].Some? then cs[3].value else Str(default) by {
          assert c3[1..] == [];
        }
        assert c2[1..] == c3 && c1[1..] == c2 && cs[1..] == c1;
        assert FirstPresent(c2, default) == if cs[2].Some? then cs[2].value else FirstPresent(c3, default);
        assert FirstPresent(c1, default) == if cs[1].Some? then cs[1].value else FirstPresent(c2, default);
        assert FirstPresent(cs, default) == if cs[0].Some? then cs[0].value else FirstPresent(c1, default);
      } else {
        assert cs == [cs[0]];
        assert FirstPresent([cs[0]], default) == if cs[0].Some? then cs[0].value else Str(default);
      }
  }

  /** The status chain and the sender chain differ only in the array they try first. */
  lemma ChainsAgreeWithoutArrays(t: Thrown, default: string)
    requires t.ObjectThrown? && t.data.Some? ==> !t.data.value.status.Arr? && !t.data.value.sender.Arr?
    ensures ErrorMessage(t, StatusKey, default) == ErrorMessage(t, SenderKey, default)
  {
  }

  /** An empty `status` array sets the error to `undefined`, which the page does not show. */
  lemma EmptyStatusArrayClearsError(m: JsValue, other: JsValue)
    ensures ErrorMessage(ObjectThrown(Some(ResponseData(Arr([]), other, Str("x"), Str("y"))), m), StatusKey, LoadMoreDefault)
            == Undefined
  {
  }

  // ---------------------------------------------------------------------
  // The pinned-sender set.

  datatype PinnedSender = PinnedSender(sender: string)
  datatype PinnedSendersResponse = PinnedSendersResponse(pinnedSenders: Option<seq<PinnedSender>>)

  /** `new Set(pinnedSendersData?.pinned_senders?.map(p => p.sender) || [])` */
  function PinnedSet(data: Option<PinnedSendersResponse>): (r: set<string>)
    ensures data.None? || data.value.pinnedSenders.None? ==> r == {}
    ensures data.Some? && data.value.pinnedSenders.Some? ==>
              forall s :: s in r <==> PinnedSender(s) in data.value.pinnedSenders.value
  {
    if data.Some? && data.value.pinnedSenders.Some? then
      set p | p in data.value.pinnedSenders.value :: p.sender
    else {}
  }

  /** The set depends only on which senders the response lists, not on their order or repeats. */
  lemma PinnedSetIgnoresOrder(a: seq<PinnedSender>, b: seq<PinnedSender>)
    requires forall p :: p in a <==> p in b
    ensures PinnedSet(Some(PinnedSendersResponse(Some(a)))) == PinnedSet(Some(PinnedSendersResponse(Some(b))))
  {
  }

  // ---------------------------------------------------------------------
  // Pagination and selection.

  /** What `handleLoadMore` asks the server for, with the list it had when it started. */
  datatype LoadRequest = LoadRequest(page: int, sender: string, waveMode: bool, seen: seq<Message>)

  /** How the request ends. */
  datatype Outcome = Fetched(results: seq<Message>, next: Option<string>) | Failed(thrown: Thrown)

  class Page {
    var allMessages: seq<Message>
    var currentPage: int
    var hasNextPage: bool
    var isLoadingMore: bool
    var error: Option<JsValue>
    var selectedSender: Option<string>
    var isWaveMode: bool

    /** The initial `useState` values. */
    constructor ()
      ensures allMessages == [] && currentPage == 1 && !hasNextPage && !isLoadingMore
      ensures error.None? && selectedSender.None? && !isWaveMode
    {
      allMessages := [];
      currentPage := 1;
      hasNextPage := false;
      isLoadingMore := false;
      error := None;
      selectedSender := None;
      isWaveMode := false;
    }

    /** The guard at the top of `handleLoadMore`. */
    predicate CanLoadMore()
      reads this
    {
      hasNextPage && !isLoadingMore && Truthy(selectedSender)
    }

    /**
     * `handleLoadMore` up to the fetch: nothing happens unless there is a
     * next page, no load is running and a sender is selected; otherwise the
     * load flag is set, the error cleared and page `currentPage + 1` requested.
     */
    method BeginLoadMore() returns (req: Option<LoadRequest>)
      modifies this
      ensures !old(CanLoadMore()) ==> req.None? && unchanged(this)
      ensures old(CanLoadMore()) ==>
        req == Some(LoadRequest(old(currentPage) + 1, old(selectedSender).value, old(isWaveMode), old(allMessages))) &&
        isLoadingMore && error.None? &&
        allMessages == old(allMessages) && currentPage == old(currentPage) && hasNextPage == old(hasNextPage) &&
        selectedSender == old(selectedSender) && isWaveMode == old(isWaveMode)
    {
      if !CanLoadMore() {
        return None;
      }
      isLoadingMore := true;
      error := None;
      req := Some(LoadRequest(currentPage + 1, selectedSender.value, isWaveMode, allMessages));
    }

    /**
     * `handleLoadMore` after the fetch. On success the unseen results are
     * appended to the current list, the requested page becomes current, and
     * `hasNextPage` says whether the results held anything unseen by the
     * list the request started from and the server reported a next page.
     * On failure the error is set and the list and page stay. The load flag
     * is cleared in every case.
     */
    method CompleteLoadMore(req: LoadRequest, outcome: Outcome)
      modifies this
      ensures !isLoadingMore
      ensures selectedSender == old(selectedSender) && isWaveMode == old(isWaveMode)
      ensures outcome.Fetched? ==>
        allMessages == old(allMessages) + Unseen(outcome.results, UidSet(old(allMessages))) &&
        currentPage == req.page &&
        hasNextPage == (Unseen(outcome.results, UidSet(req.seen)) != [] && Truthy(outcome.next)) &&
        error == old(error)
      ensures outcome.Failed? ==>
        allMessages == old(allMessages) && currentPage == old(currentPage) && hasNextPage == old(hasNextPage) &&
        error == Some(ErrorMessage(outcome.thrown, StatusKey, LoadMoreDefault))
    {
      match outcome {
        case Fetched(results, next) =>
          allMessages := allMessages + Unseen(results, UidSet(allMessages));
          currentPage := req.page;
          var newMessages := Unseen(results, UidSet(req.seen));
          if newMessages == [] || !Truthy(next) {
            hasNextPage := false;
          } else {
            hasNextPage := Truthy(next);
          }
        case Failed(thrown) =>
          error := Some(ErrorMessage(thrown, StatusKey, LoadMoreDefault));
      }
      isLoadingMore := false;
    }

    /**
     * The effect on a fresh first page (`messagesData`): the list is
     * replaced, the page is 1 and `hasNextPage` says whether `next` is set.
     */
    method OnFirstPage(results: seq<Message>, next: Option<string>)
      modifies this`allMessages, this`currentPage, this`hasNextPage
      ensures allMessages == results && currentPage == 1 && hasNextPage == Truthy(next)
    {
      allMessages := results;
      currentPage := 1;
      hasNextPage := Truthy(next);
    }

    /**
     * `handleSelectSender(sender, waveMode)`: the list and pagination are
     * reset only when the sender or the mode changes; the new sender and
     * mode are recorded either way.
     */
    method SelectSender(sender: Option<string>, waveMode: bool := false)
      modifies this
      ensures selectedSender == sender && isWaveMode == waveMode && error == old(error)
      ensures old(selectedSender) != sender || old(isWaveMode) != waveMode ==>
        allMessages == [] && currentPage == 1 && !hasNextPage && !isLoadingMore
      ensures old(selectedSender) == sender && old(isWaveMode) == waveMode ==>
        allMessages == old(allMessages) && currentPage == old(currentPage) &&
        hasNextPage == old(hasNextPage) && isLoadingMore == old(isLoadingMore)
    {
      var senderChanged := selectedSender != sender;
      var waveModeChanged := isWaveMode != waveMode;
      if senderChanged || waveModeChanged {
        allMessages := [];
        currentPage := 1;
        hasNextPage := false;
        isLoadingMore := false;
      }
      selectedSender := sender;
      isWaveMode := waveMode;
    }
  }

  // ---------------------------------------------------------------------
  // Whole handler runs.

  /**
   * `handleLoadMore` run to completion with nothing in between: the page
   * advances by exactly one, the list grows by exactly the unseen results
   * in result order, and no uid is repeated when none was before and the
   * results repeat none.
   */
  method LoadMore(p: Page, outcome: Outcome) returns (req: Option<LoadRequest>)
    modifies p
    ensures !old(p.CanLoadMore()) ==> req.None? && unchanged(p)
    ensures old(p.CanLoadMore()) ==> req.Some? && req.value.page == old(p.currentPage) + 1 && !p.isLoadingMore
    ensures old(p.CanLoadMore()) && outcome.Fetched? ==>
      p.currentPage == old(p.currentPage) + 1 &&
      p.allMessages == old(p.allMessages) + Unseen(outcome.results, UidSet(old(p.allMessages))) &&
      p.hasNextPage == (Unseen(outcome.results, UidSet(old(p.allMessages))) != [] && Truthy(outcome.next)) &&
      p.error.None?
    ensures old(p.CanLoadMore()) && outcome.Fetched? && NoDup(Uids(old(p.allMessages))) && NoDup(Uids(outcome.results)) ==>
      NoDup(Uids(p.allMessages))
    ensures old(p.CanLoadMore()) && outcome.Failed? ==>
      p.currentPage == old(p.currentPage) && p.allMessages == old(p.allMessages) &&
      p.error == Some(ErrorMessage(outcome.thrown, StatusKey, LoadMoreDefault))
  {
    req := p.BeginLoadMore();
    if req.Some? {
      p.CompleteLoadMore(req.value, outcome);
      if outcome.Fetched? && NoDup(Uids(old(p.allMessages))) && NoDup(Uids(outcome.results)) {
        AppendUnseenNoDup(old(p.allMessages), outcome.results);
      }
    }
  }

  /** A second `handleLoadMore` while the first is still loading does nothing. */
  method SecondLoadIgnored(p: Page) returns (first: Option<LoadRequest>, second: Option<LoadRequest>)
    modifies p
    ensures old(p.CanLoadMore()) ==> first.Some? && second.None? && p.isLoadingMore
  {
    first := p.BeginLoadMore();
    second := p.BeginLoadMore();
  }

  /**
   * A response that arrives after the user switched sender is still merged:
   * the list of the new sender receives the old sender's unseen results.
   */
  method StaleResponseMerged(p: Page, other: string, results: seq<Message>, next: Option<string>)
    returns (req: Option<LoadRequest>)
    requires p.CanLoadMore() && Some(other) != p.selectedSender
    modifies p
    ensures req.Some? && p.selectedSender == Some(other)
    ensures p.allMessages == Unseen(results, {}) == results
  {
    req := p.BeginLoadMore();
    p.SelectSender(Some(other), p.isWaveMode);
    UnseenExtremes(results, {});
    assert UidSet(p.allMessages) == {};
    p.CompleteLoadMore(req.value, Fetched(results, next));
  }
}
