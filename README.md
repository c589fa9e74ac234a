# habitFlow front end: a Dafny model of its client-side rules

habitFlow is a single-page habit tracker. Users create habits, mark a habit
done for today, see dashboard figures, add friends and look at their friends'
habits read-only. The browser side is React: contexts hold the state, and
pages and components derive figures from that state and call the REST API.

This project models the parts of that front end that hold rules, one Dafny
module per source file:

- `ReminderModal`: the calendar-reminder modal. It covers weekday selection,
  rejecting an empty selection, the days until the first event (with the
  roll to next week), the 30-minute event, and the weekly recurrence rule of
  section 3.3.10 of RFC 5545. It also covers compacting an ISO timestamp
  into the UTC DATE-TIME form of section 3.3.5 of RFC 5545, and the Google
  Calendar link that puts all of these together.
- `DataContext`: the client store. It is a class whose fields are the
  store's five state variables, with the full load and the six mutations.
  Each method takes the server's answer as a parameter.
- `Dashboard` and `HabitCard`: the figures derived from the habit list
  (completed today, today's rate, total streaks, the empty state) and each
  card's flags.
- `AddHabitModal`, `UseFriends`, `FriendsPage`, `AuthContext` and
  `ThemeContext`: the small state machines. These are the add-habit form,
  the friend-search buffer, the choice of which friend to show, the token and
  user lifecycle, and the theme store with its root-class effect (including
  the header's dark/light switch).
- `Entities`: the records the client mirrors, and an `Effect` log.
- `Wrappers`: `Option`, `Response` (a server answer) and `Result`.
- `Seqs`: sequence helpers (filter-out, index, join and split).

Operations return what they do outside their own state as a `seq<Effect>`,
in order: requests sent, toasts, a window opened, a modal closed, a global
refetch.

Two facts about the code are easy to misread:

- The reminder's start is not always in the future.
  `ReminderModal.tsx:55` keeps today when the current minute equals the
  reminder's minute, so the start can be up to 59.999 seconds in the past.
  `ReminderModal.StartWithinComingWeek` states the real window and
  `ReminderModal.StartMayPrecedeNow` exhibits the case.
- A delete removes every habit with the id (`DataContext.tsx:85`), not just
  one. `DataContext.RemoveByIdContents` states this. `DataContext.DeleteUniqueId`
  shows that exactly one habit goes when ids are distinct.
  `DataContext.MutationsKeepDistinctIds` shows that the three list transforms
  keep ids distinct, but only if the server gives a created habit a fresh id
  and keeps the id in a toggle answer. `DataProvider` itself checks neither:
  the full load stores whatever list the server sends, and add appends the
  server's habit as it is.

## Model

| member | source | states |
|---|---|---|
| ReminderModal.ToggleDay | src/components/habits/ReminderModal.tsx:26-32 | a click selects the day exactly when it was not selected before |
| ReminderModal.ToggleAppends | src/components/habits/ReminderModal.tsx:27-31 | an unselected day is appended after all selected days |
| ReminderModal.ToggleCutsOut | src/components/habits/ReminderModal.tsx:27-31 | in a repeat-free selection, a selected day is cut from its own position and every other day keeps its order |
| ReminderModal.ToggleKeepsOtherDays | src/components/habits/ReminderModal.tsx:27-31 | every other day is selected exactly as often as before the click |
| ReminderModal.ToggleKeepsDistinct | src/components/habits/ReminderModal.tsx:27-31 | a selection without repeats stays without repeats |
| ReminderModal.ToggleTwice | src/components/habits/ReminderModal.tsx:27-31 | clicking an unselected day twice restores the original selection list exactly |
| ReminderModal.DayMapIndex | src/components/habits/ReminderModal.tsx:51-52 | `indexOf` in the Sunday-first code table finds each weekday at its `getDay` number |
| ReminderModal.Weekday | src/components/habits/ReminderModal.tsx:53 | the weekday of a day number lies in 0..6 |
| ReminderModal.DaysAhead | src/components/habits/ReminderModal.tsx:53-57 | the offset formula gives at most a week, and a full week only when the time has passed; `DaysAheadReaches` states where it lands |
| ReminderModal.FirstEventOffset | src/components/habits/ReminderModal.tsx:52-57 | the days until the first event lie in 0..7 |
| ReminderModal.DaysAheadReaches | src/components/habits/ReminderModal.tsx:53-57 | from any day, the offset reaches the target weekday, and it is a full week exactly when the target is today and the time has passed |
| ReminderModal.OffsetLandsOnFirstDay | src/components/habits/ReminderModal.tsx:51-53 | the weekday of today plus the offset is the `getDay` number of the first selected code |
| ReminderModal.OffsetRollsOver | src/components/habits/ReminderModal.tsx:53-57 | the offset is 7 exactly when the first selected day is today and the current hour and minute are strictly later than the reminder's |
| ReminderModal.FirstSelectedNotEarliest | src/components/habits/ReminderModal.tsx:52-53 | the offset follows the first selected day, not the earliest one: Friday then Monday, on a Sunday, gives 5 |
| ReminderModal.ReminderEvent | src/components/habits/ReminderModal.tsx:59-70 | the event ends 30 minutes after it starts; it starts on the offset day at the chosen hour and minute; it has the titled name, the description or the fallback text, an empty location, and the weekly rule for the selection |
| ReminderModal.StartAtChosenTime | src/components/habits/ReminderModal.tsx:59-61 | the start falls on the first event's day at the chosen hour and minute, with seconds and milliseconds zero |
| ReminderModal.StartWithinComingWeek | src/components/habits/ReminderModal.tsx:53-61 | the start is no earlier than the current minute and less than a week after it, and it precedes now only within the current minute |
| ReminderModal.StartMayPrecedeNow | src/components/habits/ReminderModal.tsx:55-61 | at 09:00:30 on a Thursday, a 09:00 Thursday reminder starts 30 seconds in the past |
| ReminderModal.Recurrence | src/components/habits/ReminderModal.tsx:70 | the rule starts with `RRULE:FREQ=WEEKLY;BYDAY=`; `RecurrenceListsSelection` states what follows |
| ReminderModal.Codes | src/components/habits/ReminderModal.tsx:70 | one weekday code per selected day, in selection order |
| ReminderModal.RecurrenceListsSelection | src/components/habits/ReminderModal.tsx:70 | the recurrence is `RRULE:FREQ=WEEKLY;BYDAY=` followed by a comma list that splits back into exactly the selected codes in order |
| ReminderModal.FormatGoogleDate | src/components/habits/ReminderModal.tsx:35-37 | the replacement never lengthens the text and leaves no '-' or ':' |
| ReminderModal.FormatKeepsPlainPrefix | src/components/habits/ReminderModal.tsx:35-37 | a prefix with no '-', ':' or '.' passes through unchanged |
| ReminderModal.FormatIsoUtc | src/components/habits/ReminderModal.tsx:35-37 | a `YYYY-MM-DDTHH:MM:SS.sssZ` timestamp becomes exactly its date and time digits with 'T' and 'Z', in the 16-character UTC form of RFC 5545 |
| ReminderModal.EventDates | src/components/habits/ReminderModal.tsx:69 | when both ends come out of `toISOString` in its usual form, the parameter is two 16-character RFC 5545 UTC timestamps around a '/' |
| ReminderModal.CalendarUrl | src/components/habits/ReminderModal.tsx:65-72 | the link starts with the Google Calendar template URL and ends with `&recur=` and the unencoded rule |
| ReminderModal.ReminderForm.constructor | src/components/habits/ReminderModal.tsx:23-24 | the modal opens at 09:00 with Monday to Friday selected |
| ReminderModal.ReminderForm.SetTime | src/components/habits/ReminderModal.tsx:91 | the time input sets hour and minute |
| ReminderModal.ReminderForm.HandleDayClick | src/components/habits/ReminderModal.tsx:26-32 | the selection becomes the toggled selection and stays free of repeats |
| ReminderModal.ReminderForm.HandleSubmit | src/components/habits/ReminderModal.tsx:39-76 | with no day selected only the error toast is shown; otherwise the link for `ReminderEvent` opens in a new tab and the modal closes |
| Seqs.Without | src/components/habits/ReminderModal.tsx:29 | filtering out a value removes every copy of it and keeps every other element as often as before |
| DataContext.ReplaceById | src/contexts/DataContext.tsx:75 | same length; each habit with the id becomes the returned habit and every other habit keeps its place |
| DataContext.RemoveById | src/contexts/DataContext.tsx:85 | no survivor has the id, and a list without the id is returned unchanged |
| DataContext.RemoveByIdContents | src/contexts/DataContext.tsx:85 | the survivors are exactly the habits with another id, each as often as before |
| DataContext.RemoveByIdConcat | src/contexts/DataContext.tsx:85 | deleting distributes over concatenation, so the survivors keep their order |
| DataContext.AddThenDelete | src/contexts/DataContext.tsx:62-85 | deleting a just-added habit with a fresh id restores the earlier list |
| DataContext.DeleteUniqueId | src/contexts/DataContext.tsx:84-85 | with distinct ids, deleting a present id cuts out exactly that one habit |
| DataContext.RemoveByIdKeepsDistinct | src/contexts/DataContext.tsx:85 | deleting keeps ids distinct |
| DataContext.ReplaceKeepsIds | src/contexts/DataContext.tsx:74-75 | a toggle answer with the same id leaves the id list unchanged |
| DataContext.ReplaceAbsentId | src/contexts/DataContext.tsx:75 | replacing by an id nobody has changes nothing |
| DataContext.DeleteAfterToggle | src/contexts/DataContext.tsx:74-85 | deleting after a toggle gives the same list as deleting straight away |
| DataContext.MutationsKeepDistinctIds | src/contexts/DataContext.tsx:60-91 | add with a fresh id, toggle with an id-keeping answer, and delete all keep ids distinct |
| DataContext.DataProvider.constructor | src/contexts/DataContext.tsx:27-31 | empty collections, no analytics, loading |
| DataContext.DataProvider.FetchAllData | src/contexts/DataContext.tsx:33-54 | no user: nothing is requested or changed; otherwise the three requests go out and either all four collections are set or none is and one error toast shows; `loading` ends false |
| DataContext.DataProvider.AddHabit | src/contexts/DataContext.tsx:60-70 | on success the created habit is appended after the unchanged list; on failure the list is unchanged and one error toast shows |
| DataContext.DataProvider.ToggleCompletion | src/contexts/DataContext.tsx:72-80 | on success every habit with the id is replaced by the answer; on failure nothing changes and one error toast shows |
| DataContext.DataProvider.DeleteHabit | src/contexts/DataContext.tsx:82-91 | on success exactly the habits with the id leave the list; on failure nothing changes and one error toast shows |
| DataContext.DataProvider.AcceptRequest | src/contexts/DataContext.tsx:93-101 | sends status 'accepted' for the id first; a refetch follows exactly when the server agreed |
| DataContext.DataProvider.DeclineRequest | src/contexts/DataContext.tsx:103-111 | sends status 'declined' for the id first; a refetch follows exactly when the server agreed |
| DataContext.DataProvider.RemoveFriendship | src/contexts/DataContext.tsx:113-121 | deletes the friendship first; a refetch follows exactly when the server agreed |
| Dashboard.CompletedToday | src/pages/Dashboard.tsx:23 | the number of habits done today is at most the number of habits; `CompletedTodayBounds` and `CompletedTodayCountsOnce` state the rest |
| Dashboard.DoneToday | src/pages/Dashboard.tsx:23 | the kept habits are each done today and are no more than the habits |
| Dashboard.CompletedTodayBounds | src/pages/Dashboard.tsx:22-23 | completed today is at most the total; it equals the total exactly when all are done and is 0 exactly when none is |
| Dashboard.CompletedTodayCountsOnce | src/pages/Dashboard.tsx:23 | each habit adds one to the count exactly when it is done today |
| Dashboard.TodaysRate | src/pages/Dashboard.tsx:24 | 0 with no habits; for a positive total, 100 times completed over total rounded half up |
| Dashboard.RateAllDone | src/pages/Dashboard.tsx:23-24 | all habits done gives 100 |
| Dashboard.RateNoneDone | src/pages/Dashboard.tsx:23-24 | no habit done, or no habits, gives 0 |
| Dashboard.RateAtMost100 | src/pages/Dashboard.tsx:24 | the rate never exceeds 100 |
| Dashboard.RateMonotone | src/pages/Dashboard.tsx:24 | the rate does not decrease as more habits are done |
| Dashboard.TotalStreaks | src/pages/Dashboard.tsx:25 | the sum of completion counts is at least every single card's streak |
| Dashboard.TotalStreaksConcat | src/pages/Dashboard.tsx:25 | the total streak sums the completion counts across any split of the list |
| Dashboard.TotalStreaksCoverDoneToday | src/pages/Dashboard.tsx:23-25 | the total streak is at least the number completed today |
| Dashboard.View | src/pages/Dashboard.tsx:22-59 | the four figures are the habit count, `CompletedToday`, `TodaysRate` of those two and `TotalStreaks`; the empty state shows exactly when there are no habits; completed ≤ total; the rate is ≤ 100 and 0 with no habits; total streaks ≥ completed |
| HabitCard.IsCompletedToday | src/components/habits/HabitCard.tsx:13 | a habit is done today exactly when one of its completions is dated today |
| HabitCard.AnyOnDay | src/components/habits/HabitCard.tsx:13 | true exactly when some completion falls on today |
| HabitCard.Render | src/components/habits/HabitCard.tsx:12-57 | a friend view hides reminder and delete and disables the toggle; the indicator is green exactly when a completion is today; the streak is the number of completions |
| HabitCard.StreakIsNotConsecutive | src/components/habits/HabitCard.tsx:14 | two completions a week apart, none today, still show a streak of 2 |
| HabitCard.CompletingTodayTurnsGreen | src/components/habits/HabitCard.tsx:45-55 | adding a completion for today makes the indicator green |
| AddHabitModal.AddHabitForm.constructor | src/components/habits/AddHabitModal.tsx:14-16 | empty name and description, colour the first swatch |
| AddHabitModal.AddHabitForm.SetName | src/components/habits/AddHabitModal.tsx:40 | the name input sets the name |
| AddHabitModal.AddHabitForm.SetDescription | src/components/habits/AddHabitModal.tsx:50 | the description input sets the description |
| AddHabitModal.AddHabitForm.PickColor | src/components/habits/AddHabitModal.tsx:57-61 | a swatch click sets that palette colour, so the colour stays a palette entry |
| AddHabitModal.AddHabitForm.HandleSubmit | src/components/habits/AddHabitModal.tsx:18-30 | an empty name does nothing; otherwise `addHabit` is called once with the form's values, the modal closes and the fields reset to '', '' and the first swatch |
| AddHabitModal.AddHabitForm.Cancel | src/components/habits/AddHabitModal.tsx:69 | cancel closes the modal and never calls `addHabit` |
| UseFriends.RequestErrorText | src/hooks/useFriends.ts:29 | the server's message when it is non-empty, else 'Failed to send request' |
| UseFriends.SearchUrl | src/hooks/useFriends.ts:16 | the search URL is the path followed by the query exactly as typed, without URL encoding |
| UseFriends.SearchQueryNotEncoded | src/hooks/useFriends.ts:16 | a typed '&' lands in the URL as a raw parameter separator |
| UseFriends.FriendSearch.constructor | src/hooks/useFriends.ts:8 | no results |
| UseFriends.FriendSearch.SearchUsers | src/hooks/useFriends.ts:10-21 | empty query: results cleared and nothing sent; otherwise the unencoded search URL is requested; success: results replaced by the server's list; failure: results kept and an error toast shown |
| UseFriends.FriendSearch.SendRequest | src/hooks/useFriends.ts:23-31 | sends the request first; a refetch follows exactly when the server agreed; a failure shows `RequestErrorText` |
| FriendsPage.FriendUser | src/pages/Friends.tsx:69 | the friend shown is one of the friendship's two parties |
| FriendsPage.FriendUserChoice | src/pages/Friends.tsx:69 | the recipient when the requester's id is the user's id, else the requester |
| FriendsPage.FriendUserIsOtherParty | src/pages/Friends.tsx:69 | a signed-in party of a friendship between two ids is shown the other party |
| FriendsPage.FriendLinks | src/pages/Friends.tsx:68-72 | one `/friends/<id>` link per friendship, to the friend shown |
| FriendsPage.View | src/pages/Friends.tsx:52-72 | the two headings count the requests and the friends, with one link per friend |
| FriendsPage.FriendsPageState.constructor | src/pages/Friends.tsx:19 | the query starts empty |
| FriendsPage.FriendsPageState.SetQuery | src/pages/Friends.tsx:35 | typing sets the query |
| FriendsPage.FriendsPageState.HandleSearch | src/pages/Friends.tsx:21-24 | the search runs with the query exactly as typed |
| AuthContext.HasToken | src/contexts/AuthContext.tsx:23-24 | a missing entry and an empty string both count as no token, as JavaScript truthiness has it |
| AuthContext.AuthProvider.constructor | src/contexts/AuthContext.tsx:18-19 | no user, loading |
| AuthContext.AuthProvider.Mount | src/contexts/AuthContext.tsx:22-38 | no token: no request and nothing changes; valid token: the user is set; rejected token: the token is removed and the user cleared; `loading` ends false every time |
| AuthContext.AuthProvider.Logout | src/contexts/AuthContext.tsx:41-44 | the token is removed and the user cleared; `loading` is untouched |
| AuthContext.AuthProvider.SetUser | src/contexts/AuthContext.tsx:48 | the exposed setter sets the user |
| ThemeContext.InitialTheme | src/contexts/ThemeContext.tsx:26-28 | the stored string when it is non-empty, unchecked, else the default |
| ThemeContext.SetThemeSurvivesReload | src/contexts/ThemeContext.tsx:53-57 | a theme that was set is the initial theme on the next load |
| ThemeContext.ResolvedClass | src/contexts/ThemeContext.tsx:38-47 | 'system' resolves to the media-query answer, any other theme to its own name |
| ThemeContext.AddToken | src/contexts/ThemeContext.tsx:42-47 | the token is present afterwards; a present token changes nothing and a new one is appended |
| ThemeContext.RemoveModeClasses | src/contexts/ThemeContext.tsx:35 | neither 'light' nor 'dark' remains |
| ThemeContext.ApplyClasses | src/contexts/ThemeContext.tsx:35-47 | the resolved class is on the root afterwards, and 'light' or 'dark' is there only if it is the resolved class |
| ThemeContext.ExactlyOneModeClass | src/contexts/ThemeContext.tsx:35-47 | for the three themes the root ends with the resolved class and exactly one of 'light' and 'dark' |
| ThemeContext.OtherClassesKept | src/contexts/ThemeContext.tsx:35-47 | every other root class stays, as often as before |
| ThemeContext.ApplyIdempotent | src/contexts/ThemeContext.tsx:31-48 | running the effect twice gives the same classes as once |
| ThemeContext.ApplyKeepsDistinct | src/contexts/ThemeContext.tsx:35-47 | a class list without repeats keeps none |
| ThemeContext.ToggledTheme | src/components/layout/MainLayout.tsx:56 | the switch gives 'light' exactly from 'dark', and 'dark' from anything else |
| ThemeContext.ToggleRoundTrip | src/components/layout/MainLayout.tsx:56 | two presses restore 'dark' or 'light', and take 'system' to 'light' |
| ThemeContext.ToggleFlipsModeClass | src/components/layout/MainLayout.tsx:56 | a press leaves 'dark' on the root exactly when the theme was not 'dark' |
| ThemeContext.UseTheme | src/contexts/ThemeContext.tsx:69-78 | the provider's state inside a provider; outside one, the error with its message |
| ThemeContext.ThemeProvider.constructor | src/contexts/ThemeContext.tsx:26-48 | the theme is read from storage and the effect applies it once |
| ThemeContext.ThemeProvider.ApplyTheme | src/contexts/ThemeContext.tsx:31-48 | the root classes become `ApplyClasses` of the old classes |
| ThemeContext.ThemeProvider.SetTheme | src/contexts/ThemeContext.tsx:53-57 | the theme is stored under the key and becomes current; the effect reruns only when the theme changed |

## Left out

- The REST layer (`src/api/index.ts`) is not part of this model. Each server call is a `Response` parameter, and the request it stands for is an `Effect`.
- Toasts, `window.open`, `onClose` and the global refetch are recorded as `Effect` values, not performed.
- JavaScript `Date`, time zones, daylight-saving changes and `setDate` month overflow are not modelled. The clock is a local day number plus a time of day. The submit handler's two `new Date()` readings are one `Clock`, so the model does not capture a day boundary crossed between them.
- `time.split(':')` and `parseInt` are not modelled. The time input is kept as an hour and a minute. `SetTime` requires a valid hour and minute, so the model excludes a cleared time input. In the source a cleared input gives `NaN`, and `toISOString` then throws inside the submit handler.
- UseFriends.FriendSearch.SearchUsers: the query goes into the URL unencoded (`useFriends.ts:16`). The effect records that URL, but how the server splits its parameters is not modelled. So the model does not state that "a&b" searches for "a"; `SearchQueryNotEncoded` only shows the raw '&' in the URL.
- `encodeURIComponent` and `Date.prototype.toISOString` are foreign calls. They are function parameters of `CalendarUrl`. `FormatIsoUtc` states what happens to any string of the ISO form.
- The fire-and-forget analytics refetches after add, toggle and delete are not modelled. They appear only as a `Send(GetAnalytics)` effect, since their answers arrive concurrently and unordered. `Promise.all` parallelism is not modelled either.
- DataContext.DataProvider.FetchAllData: the transient `loading = true` between the start of the load and its end is not observable in the model. Only the final state is stated.
- Dashboard.TodaysRate: the model rounds the exact rational 100·c/t half up. The source rounds a binary double, which can land just below a half (29/200 gives 14.499… and rounds to 14, where the exact value rounds to 15).
- Weekday codes are a datatype. The source keeps strings that can only come from the seven weekday buttons.
- The provider's default props, `'system'` and `'vite-ui-theme'`, are not constants of the model. `ThemeProvider`'s constructor takes the default theme and the storage key as arguments.
- `classList.add` throws on an empty or whitespace token. The model does not, and a theme read from storage is never empty. The root's class list is a `seq<string>`.
- `src/types` is not part of this model. Habits, users and friendships carry the fields the core reads.
- The server's toggle rule (adding or removing today's completion) is server-side. The client replaces the habit with whatever the server returns.
- HabitGrid, Analytics, Profile, FriendProfile, Login, Register, routing and the rest of MainLayout are presentation or I/O plumbing. Only MainLayout's theme switch is modelled.
