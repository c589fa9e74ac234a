/** The friends hook: a buffer of user-search results, and sending a friend
    request. */
module UseFriends {
  import opened Wrappers
  import opened Entities

  const SearchFailedMessage := "Failed to search for users"
  const RequestSentMessage := "Friend request sent!"
  const RequestFailedMessage := "Failed to send request"
  const SearchPath := "/friends/search?q="

  /** The search URL: the path followed by the query exactly as typed. The
      query is not passed through `encodeURIComponent`, so a '&', '#', '+' or
      '%' in it reaches the server's query parser as URL syntax. */
  function SearchUrl(query: string): (url: string)
    ensures |url| == |SearchPath| + |query|
    ensures url[..|SearchPath|] == SearchPath && url[|SearchPath|..] == query
  {
    SearchPath + query
  }

  /** The typed "a&b" puts a second parameter separator into the URL: the
      characters after `q=a` start a new parameter instead of continuing the
      query. */
  lemma SearchQueryNotEncoded()
    ensures var url := SearchUrl("a&b");
      url[|SearchPath|] == 'a' && url[|SearchPath| + 1] == '&'
  {
    var url := SearchUrl("a&b");
    assert url[|SearchPath|..] == "a&b";
  }

  /** The toast of a rejected friend request: the server's message when it
      sent a non-empty one, else the fixed text. */
  function RequestErrorText(message: Option<string>): (text: string)
    ensures text != ""
    ensures message.Some? && message.value != "" ==> text == message.value
    ensures (message.None? || message.value == "") ==> text == RequestFailedMessage
  {
    if message.Some? && message.value != "" then message.value else RequestFailedMessage
  }

  class FriendSearch {
    var searchResults: seq<User>

    constructor ()
      ensures searchResults == []
    {
      searchResults := [];
    }

    /** An empty query clears the results without a request. Otherwise the
        server's list replaces them, or on failure they stay and a toast shows. */
    method SearchUsers(query: string, res: Response<seq<User>>) returns (effects: seq<Effect>)
      modifies this`searchResults
      ensures query == "" ==> searchResults == [] && effects == []
      ensures query != "" && res.Ok? ==>
        (searchResults == res.data && effects == [Send(Request.SearchUsers(SearchUrl(query)))])
      ensures query != "" && res.Failed? ==>
        (searchResults == old(searchResults) &&
         effects == [Send(Request.SearchUsers(SearchUrl(query))), ShowToast(ErrorToast(SearchFailedMessage))])
    {
      if query == "" {
        searchResults := [];
        return [];
      }
      effects := [Send(Request.SearchUsers(SearchUrl(query)))];
      if res.Ok? {
        searchResults := res.data;
      } else {
        effects := effects + [ShowToast(ErrorToast(SearchFailedMessage))];
      }
    }

    /** Sends a friend request; the whole store reloads only after the server
        accepted it. */
    method SendRequest(recipientId: Id, res: Response<()>) returns (effects: seq<Effect>)
      ensures |effects| > 0 && effects[0] == Send(SendFriendRequest(recipientId))
      ensures RefetchAll in effects <==> res.Ok?
      ensures res.Ok? ==> effects == [effects[0], ShowToast(SuccessToast(RequestSentMessage)), RefetchAll]
      ensures res.Failed? ==> effects == [effects[0], ShowToast(ErrorToast(RequestErrorText(res.message)))]
    {
      effects := [Send(SendFriendRequest(recipientId))];
      if res.Ok? {
        effects := effects + [ShowToast(SuccessToast(RequestSentMessage)), RefetchAll];
      } else {
        effects := effects + [ShowToast(ErrorToast(RequestErrorText(res.message)))];
      }
    }
  }
}
