/**
 * The chat screen's state bookkeeping: the initial state and the two updaters that
 * `loadMessages` hands to the state setter, one for a fetched page and one for a
 * failed fetch. Both rebuild the previous state as a new record.
 */
module ChatStore {
  import opened ChatTypes

  const InitialChatState: ChatState := ChatState("", "", "", [], 0, false, None)

  const LoadFailedMessage: string := "Failed to load messages. Please try again."

  /** JavaScript `fetched || previous` on strings: the empty string is falsy. */
  function OrElse(fetched: string, previous: string): (r: string)
    ensures r == fetched || r == previous
    ensures r != "" <==> fetched != "" || previous != ""
    ensures fetched != "" ==> r == fetched
  {
    if fetched != "" then fetched else previous
  }

  /** The updater applied after a page has been fetched. */
  function ApplySuccess(state: ChatState, page: ChatPage): (next: ChatState)
    ensures |next.messages| == |state.messages| + |page.chats|
    ensures next.messages[..|state.messages|] == state.messages
    ensures next.messages[|state.messages|..] == page.chats
    ensures next.currentPage == state.currentPage + 1
    ensures page.from != "" ==> next.from == page.from
    ensures page.from == "" ==> next.from == state.from
    ensures page.to != "" ==> next.to == page.to
    ensures page.to == "" ==> next.to == state.to
    ensures page.name != "" ==> next.name == page.name
    ensures page.name == "" ==> next.name == state.name
    ensures !next.isLoading && next.error == state.error
  {
    state.(
      from := OrElse(page.from, state.from),
      to := OrElse(page.to, state.to),
      name := OrElse(page.name, state.name),
      messages := state.messages + page.chats,
      currentPage := state.currentPage + 1,
      isLoading := false)
  }

  /** The updater applied when the fetch throws. */
  function ApplyFailure(state: ChatState): (next: ChatState)
    ensures next.error == Some(LoadFailedMessage) && !next.isLoading
    ensures next.messages == state.messages && next.currentPage == state.currentPage
    ensures next.from == state.from && next.to == state.to && next.name == state.name
  {
    state.(isLoading := false, error := Some(LoadFailedMessage))
  }

  /** What a fetch of one page produced: its decoded body, or an exception. */
  datatype FetchOutcome = Fetched(page: ChatPage) | FetchFailed

  /**
   * `loadMessages`: fetch the page numbered `currentPage` and apply the matching
   * updater. The endpoint is a parameter, `fetch(page)`.
   */
  function LoadMessages(state: ChatState, fetch: int -> FetchOutcome): (next: ChatState)
    ensures fetch(state.currentPage).FetchFailed? ==> next == ApplyFailure(state)
    ensures fetch(state.currentPage).Fetched? ==> next == ApplySuccess(state, fetch(state.currentPage).page)
    ensures fetch(state.currentPage).FetchFailed? ==>
              next.messages == state.messages && next.currentPage == state.currentPage
              && next.error == Some(LoadFailedMessage)
              && next.from == state.from && next.to == state.to && next.name == state.name
    ensures fetch(state.currentPage).Fetched? ==>
              next.messages == state.messages + fetch(state.currentPage).page.chats
              && next.currentPage == state.currentPage + 1 && next.error == state.error
              && next.from == OrElse(fetch(state.currentPage).page.from, state.from)
              && next.to == OrElse(fetch(state.currentPage).page.to, state.to)
              && next.name == OrElse(fetch(state.currentPage).page.name, state.name)
    ensures !next.isLoading
  {
    Apply(state, fetch(state.currentPage))
  }

  /** The updater that matches one fetch outcome. */
  function Apply(state: ChatState, outcome: FetchOutcome): ChatState {
    match outcome
    case Fetched(page) => ApplySuccess(state, page)
    case FetchFailed => ApplyFailure(state)
  }

  /** The state after applying the updaters for `outcomes`, in order. */
  function Replay(state: ChatState, outcomes: seq<FetchOutcome>): ChatState
    decreases |outcomes|
  {
    if outcomes == [] then state else Replay(Apply(state, outcomes[0]), outcomes[1..])
  }

  /** The fetched batches of `outcomes`, concatenated in fetch order. */
  function FetchedChats(outcomes: seq<FetchOutcome>): seq<Message> {
    if outcomes == [] then []
    else (if outcomes[0].Fetched? then outcomes[0].page.chats else []) + FetchedChats(outcomes[1..])
  }

  function CountFetched(outcomes: seq<FetchOutcome>): nat {
    if outcomes == [] then 0
    else (if outcomes[0].Fetched? then 1 else 0) + CountFetched(outcomes[1..])
  }

  /** Messages only grow: old ones first, then each fetched batch in fetch order. */
  lemma {:induction false} ReplayAppendsBatches(state: ChatState, outcomes: seq<FetchOutcome>)
    decreases |outcomes|
    ensures Replay(state, outcomes).messages == state.messages + FetchedChats(outcomes)
  {
    if outcomes != [] {
      ReplayAppendsBatches(Apply(state, outcomes[0]), outcomes[1..]);
    }
  }

  /** The page counter advances once per fetched page, empty batches included, never on a failure. */
  lemma {:induction false} ReplayCountsPages(state: ChatState, outcomes: seq<FetchOutcome>)
    decreases |outcomes|
    ensures Replay(state, outcomes).currentPage == state.currentPage + CountFetched(outcomes)
  {
    if outcomes != [] {
      ReplayCountsPages(Apply(state, outcomes[0]), outcomes[1..]);
    }
  }

  /** The error, once set, is never cleared; it is set exactly when some fetch failed. */
  lemma {:induction false} ReplayKeepsError(state: ChatState, outcomes: seq<FetchOutcome>)
    decreases |outcomes|
    ensures Replay(state, outcomes).error
         == if FetchFailed in outcomes then Some(LoadFailedMessage) else state.error
  {
    if outcomes != [] {
      ReplayKeepsError(Apply(state, outcomes[0]), outcomes[1..]);
      assert FetchFailed in outcomes <==> outcomes[0] == FetchFailed || FetchFailed in outcomes[1..] by {
        assert outcomes == [outcomes[0]] + outcomes[1..];
      }
    }
  }

  /** The three header fields that a fetched page may fill in. */
  datatype HeaderField = From | To | Name

  function StateHeader(state: ChatState, field: HeaderField): string {
    match field
    case From => state.from
    case To => state.to
    case Name => state.name
  }

  function PageHeader(page: ChatPage, field: HeaderField): string {
    match field
    case From => page.from
    case To => page.to
    case Name => page.name
  }

  /**
   * A sender, recipient or chat name, once known, is never lost, but a later
   * non-empty value replaces it: the field always holds its starting value or the
   * value of some fetched page.
   */
  lemma {:induction false} ReplayHeader(state: ChatState, outcomes: seq<FetchOutcome>, field: HeaderField)
    decreases |outcomes|
    ensures var next := StateHeader(Replay(state, outcomes), field);
      && (StateHeader(state, field) != "" ==> next != "")
      && (next == StateHeader(state, field)
          || exists i :: 0 <= i < |outcomes| && outcomes[i].Fetched? && PageHeader(outcomes[i].page, field) == next)
  {
    if outcomes != [] {
      var first := Apply(state, outcomes[0]);
      ReplayHeader(first, outcomes[1..], field);
      var next := StateHeader(Replay(state, outcomes), field);
      if next != StateHeader(state, field) && next != StateHeader(first, field) {
        var i :| 0 <= i < |outcomes[1..]| && outcomes[1..][i].Fetched? && PageHeader(outcomes[1..][i].page, field) == next;
        assert outcomes[i + 1] == outcomes[1..][i];
      } else if next != StateHeader(state, field) {
        assert outcomes[0].Fetched? && PageHeader(outcomes[0].page, field) == next;
      }
    }
  }

  /** From the initial state, the messages are exactly the fetched batches. */
  lemma ReplayFromInitialState(outcomes: seq<FetchOutcome>)
    ensures Replay(InitialChatState, outcomes).messages == FetchedChats(outcomes)
    ensures Replay(InitialChatState, outcomes).currentPage == CountFetched(outcomes)
  {
    ReplayAppendsBatches(InitialChatState, outcomes);
    ReplayCountsPages(InitialChatState, outcomes);
  }
}
