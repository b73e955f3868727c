/** The conversation list's UI state: loading, the conversations last
    received from the repository, the search query and a load error, and
    the list filtered by the query. */
module ConversationListViewModel {
  import opened Wrappers
  import opened Seqs
  import opened Text
  import opened ChatModels

  datatype UiState = UiState(isLoading: bool, conversations: seq<Conversation>, query: string, error: Option<string>)

  /** The state before the repository has delivered anything. */
  const InitialState := UiState(true, [], "", None)

  const LoadErrorFallback := "Erro ao carregar"

  /** A list delivered by the repository replaces the shown one and clears
      loading and error; the query is kept. */
  function OnConversations(s: UiState, list: seq<Conversation>): (t: UiState)
    ensures !t.isLoading && t.conversations == list && t.error.None?
    ensures t.query == s.query
  {
    s.(isLoading := false, conversations := list, error := None)
  }

  /** The repository's flow failed: loading stops and the message (or a
      generic one) is shown, over whatever list was already there. */
  function OnLoadError(s: UiState, message: Option<string>): (t: UiState)
    ensures !t.isLoading && t.error.Some?
    ensures message.Some? ==> t.error == message
    ensures message.None? ==> t.error == Some(LoadErrorFallback)
    ensures t.conversations == s.conversations && t.query == s.query
  {
    s.(isLoading := false, error := Some(message.GetOr(LoadErrorFallback)))
  }

  /** The view model's one collection of the repository's flow: each list
      it emits is delivered in order, and a failure, if one comes, is caught
      once and ends the collection, so nothing is delivered after it. */
  function Collect(s: UiState, lists: seq<seq<Conversation>>, failure: Option<Option<string>>): (t: UiState)
    ensures t.query == s.query
    ensures |lists| > 0 ==> t.conversations == lists[|lists| - 1]
    ensures |lists| == 0 ==> t.conversations == s.conversations
    ensures failure.Some? ==> t.error == Some(failure.value.GetOr(LoadErrorFallback))
    ensures failure.None? && |lists| > 0 ==> t.error.None?
    ensures (|lists| > 0 || failure.Some?) ==> !t.isLoading
    decreases |lists|
  {
    if |lists| == 0 then
      if failure.Some? then OnLoadError(s, failure.value) else s
    else Collect(OnConversations(s, lists[0]), lists[1..], failure)
  }

  function OnQueryChanged(s: UiState, newQuery: string): (t: UiState)
    ensures t.query == newQuery
    ensures t.isLoading == s.isLoading && t.conversations == s.conversations && t.error == s.error
  {
    s.(query := newQuery)
  }

  /** The query as compared: trimmed and lower-cased. */
  function NormalizedQuery(query: string): (q: string)
    ensures |q| == 0 <==> IsBlank(query)
  {
    TrimEmptyIffBlank(query);
    Lower(Trim(query))
  }

  predicate PeerMatches(c: Conversation, q: string) {
    Contains(Lower(c.peerUser.name), q)
  }

  /** All conversations for a blank query; otherwise, in order, those whose
      lower-cased peer name contains the normalized query. */
  function FilteredList(s: UiState): (r: seq<Conversation>)
    ensures IsBlank(s.query) ==> r == s.conversations
    ensures !IsBlank(s.query) ==>
      (forall i :: 0 <= i < |r| ==> r[i] in s.conversations && PeerMatches(r[i], NormalizedQuery(s.query)))
    ensures !IsBlank(s.query) ==>
      (forall i :: 0 <= i < |s.conversations| && PeerMatches(s.conversations[i], NormalizedQuery(s.query))
                   ==> s.conversations[i] in r)
  {
    var q := NormalizedQuery(s.query);
    if |q| == 0 then s.conversations
    else Filter(s.conversations, c => PeerMatches(c, q))
  }

  /** The filtered list keeps the conversations' order. */
  lemma FilteredKeepsOrder(s: UiState)
    ensures IsSubsequence(FilteredList(s), s.conversations)
  {
    var q := NormalizedQuery(s.query);
    if |q| == 0 {
      FilterAll(s.conversations, (c: Conversation) => true);
      FilterIsSubsequence(s.conversations, (c: Conversation) => true);
    } else {
      FilterIsSubsequence(s.conversations, c => PeerMatches(c, q));
    }
  }

  /** Filtering an already filtered list changes nothing. */
  lemma FilteredListIdempotent(s: UiState)
    ensures FilteredList(s.(conversations := FilteredList(s))) == FilteredList(s)
  {
    var q := NormalizedQuery(s.query);
    if |q| > 0 {
      FilterAll(Filter(s.conversations, c => PeerMatches(c, q)), c => PeerMatches(c, q));
    }
  }

  /** Typing a peer's whole name, in any letter case and with surrounding
      spaces, lists that conversation. */
  lemma FullPeerNameFindsConversation(s: UiState, i: nat)
    requires i < |s.conversations|
    requires EqualsIgnoreCase(Trim(s.query), s.conversations[i].peerUser.name)
    ensures s.conversations[i] in FilteredList(s)
  {
    var name := Lower(s.conversations[i].peerUser.name);
    assert OccursAt(name, name, 0);
  }

  /** A failure never changes which conversations are listed. */
  lemma LoadErrorKeepsListing(s: UiState, message: Option<string>)
    ensures FilteredList(OnLoadError(s, message)) == FilteredList(s)
  {
  }

  /** Ending the collection with a failure lists the same conversations as
      ending it without one; only the error and loading flag differ. */
  lemma {:induction false} FailureKeepsCollectedListing(s: UiState, lists: seq<seq<Conversation>>, message: Option<string>)
    ensures FilteredList(Collect(s, lists, Some(message))) == FilteredList(Collect(s, lists, None))
    decreases |lists|
  {
    if |lists| == 0 {
      LoadErrorKeepsListing(s, message);
    } else {
      FailureKeepsCollectedListing(OnConversations(s, lists[0]), lists[1..], message);
    }
  }

  /** Receiving a list and changing the query are independent updates. */
  lemma QueryAndDeliveryCommute(s: UiState, list: seq<Conversation>, q: string)
    ensures OnQueryChanged(OnConversations(s, list), q) == OnConversations(OnQueryChanged(s, q), list)
    ensures FilteredList(OnQueryChanged(OnConversations(s, list), q)) == FilteredList(UiState(false, list, q, None))
  {
  }
}
