/** The records the client mirrors from the server, and the side effects the
    UI code emits (requests sent, toasts, windows opened, modals closed). */
module Entities {

  type Id = string

  /** A local calendar day, counted from 1970-01-01 (day 0, a Thursday). */
  type Day = int

  datatype User = User(id: Id, displayName: string, email: string)

  /** One day on which a habit was performed. */
  datatype Completion = Completion(date: Day)

  datatype Habit = Habit(id: Id, name: string, description: string, color: string,
                         completions: seq<Completion>)

  /** The body of a create-habit request. */
  datatype HabitData = HabitData(name: string, description: string, color: string)

  /** A friendship or a pending friend request between two users. */
  datatype Friendship = Friendship(id: Id, requester: User, recipient: User, status: string)

  /** Server-computed analytics, shown as they are. */
  datatype AnalyticsSnapshot = AnalyticsSnapshot(payload: string)

  /** The body of GET /friends. */
  datatype FriendsPayload = FriendsPayload(friends: seq<Friendship>, incomingRequests: seq<Friendship>)

  datatype Toast = SuccessToast(text: string) | ErrorToast(text: string)

  /** The REST calls the core makes, one constructor per endpoint. */
  datatype Request =
    | GetMe                                            // GET /auth/me
    | GetHabits                                        // GET /habits
    | GetFriends                                       // GET /friends
    | GetAnalytics                                     // GET /analytics
    | CreateHabit(data: HabitData)                     // POST /habits
    | ToggleCompletion(habitId: Id, date: string)      // POST /habits/:id/toggle-completion
    | DeleteHabit(habitId: Id)                         // DELETE /habits/:id
    | RespondToRequest(requestId: Id, status: string)  // PUT /friends/request/:id
    | DeleteFriendship(friendshipId: Id)               // DELETE /friends/:id
    | SearchUsers(url: string)                         // GET /friends/search?q=<query>, unencoded
    | SendFriendRequest(recipientId: Id)               // POST /friends/request

  /** What an operation does outside the state it owns, in the order it does it. */
  datatype Effect =
    | Send(request: Request)
    | ShowToast(toast: Toast)
    | RefetchAll
    | OpenWindow(url: string, target: string)
    | CloseModal
    | CallAddHabit(data: HabitData)
}
