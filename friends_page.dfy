/** The friends page: the search form, the incoming requests and the friend
    list, where each friendship is shown by its other party. */
module FriendsPage {
  import opened Wrappers
  import opened Entities
  import opened UseFriends

  /** The party of a friendship to show: the recipient when the signed-in user
      sent the request, the requester otherwise (also when nobody is signed in). */
  function FriendUser(f: Friendship, user: Option<User>): (u: User)
    ensures u == f.requester || u == f.recipient
  {
    if user.Some? && f.requester.id == user.value.id then f.recipient else f.requester
  }

  /** When the signed-in user is one of the two parties and their ids differ,
      the friend shown is the other party, never the user. */
  lemma FriendUserIsOtherParty(f: Friendship, me: User)
    requires f.requester.id != f.recipient.id
    requires me.id == f.requester.id || me.id == f.recipient.id
    ensures var u := FriendUser(f, Some(me));
      u.id != me.id && (me.id == f.requester.id ==> u == f.recipient) &&
      (me.id == f.recipient.id ==> u == f.requester)
  {
  }

  /** A friendship whose requester has the user's id shows the recipient, one
      whose requester has another id shows the requester. */
  lemma FriendUserChoice(f: Friendship, user: Option<User>)
    ensures user.Some? && f.requester.id == user.value.id ==> FriendUser(f, user) == f.recipient
    ensures !(user.Some? && f.requester.id == user.value.id) ==> FriendUser(f, user) == f.requester
  {
  }

  /** The two headings' counts and the friend links, one per friendship. */
  datatype FriendsView = FriendsView(requestCount: nat, friendCount: nat, friendLinks: seq<string>)

  function FriendLinks(friends: seq<Friendship>, user: Option<User>): (links: seq<string>)
    ensures |links| == |friends|
    ensures forall i :: 0 <= i < |friends| ==> links[i] == "/friends/" + FriendUser(friends[i], user).id
  {
    if |friends| == 0 then []
    else ["/friends/" + FriendUser(friends[0], user).id] + FriendLinks(friends[1..], user)
  }

  function View(friends: seq<Friendship>, incomingRequests: seq<Friendship>, user: Option<User>): (v: FriendsView)
    ensures v.requestCount == |incomingRequests| && v.friendCount == |friends|
    ensures |v.friendLinks| == v.friendCount
  {
    FriendsView(|incomingRequests|, |friends|, FriendLinks(friends, user))
  }

  class FriendsPageState {
    var query: string

    constructor ()
      ensures query == ""
    {
      query := "";
    }

    method SetQuery(value: string)
      modifies this`query
      ensures query == value
    {
      query := value;
    }

    /** Submitting the form searches for the query exactly as typed. */
    method HandleSearch(search: FriendSearch, res: Response<seq<User>>) returns (effects: seq<Effect>)
      modifies search`searchResults
      ensures query == "" ==> search.searchResults == [] && effects == []
      ensures query != "" ==> |effects| > 0 && effects[0] == Send(Request.SearchUsers(SearchUrl(query)))
      ensures query != "" && res.Ok? ==> search.searchResults == res.data
      ensures query != "" && res.Failed? ==> search.searchResults == old(search.searchResults)
    {
      effects := search.SearchUsers(query, res);
    }
  }
}
