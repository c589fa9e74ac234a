/** The client-side store every page reads: the user's habits, friends,
    pending friend requests and analytics, with the operations that keep them
    in step with the server. */
module DataContext {
  import opened Wrappers
  import opened Entities
  import opened Seqs

  const LoadFailedMessage := "Failed to load app data. Please refresh."
  const HabitAddedMessage := "Habit added!"
  const AddFailedMessage := "Failed to add habit"
  const ToggleFailedMessage := "Failed to update completion"
  const HabitDeletedMessage := "Habit deleted!"
  const DeleteFailedMessage := "Failed to delete habit"
  const AcceptedMessage := "Friend request accepted!"
  const AcceptFailedMessage := "Failed to accept request"
  const DeclinedMessage := "Friend request declined"
  const DeclineFailedMessage := "Failed to decline request"
  const FriendshipRemovedMessage := "Friendship removed"
  const RemoveFailedMessage := "Failed to remove friendship"

  /** The three requests of a full load, in the order `Promise.all` is given them. */
  const LoadRequests := [Send(GetHabits), Send(GetFriends), Send(GetAnalytics)]

  // ---------------------------------------------------------------------------
  // The per-call list transforms

  function Ids(hs: seq<Habit>): (ids: seq<Id>)
    ensures |ids| == |hs|
    ensures forall i :: 0 <= i < |hs| ==> ids[i] == hs[i].id
  {
    if |hs| == 0 then [] else [hs[0].id] + Ids(hs[1..])
  }

  /** `prev.map(h => h._id === id ? updated : h)`: every habit with the id is
      swapped for `updated`, each other habit stays where it was. */
  function ReplaceById(hs: seq<Habit>, id: Id, updated: Habit): (r: seq<Habit>)
    ensures |r| == |hs|
    ensures forall i :: 0 <= i < |hs| && hs[i].id == id ==> r[i] == updated
    ensures forall i :: 0 <= i < |hs| && hs[i].id != id ==> r[i] == hs[i]
  {
    if |hs| == 0 then []
    else [if hs[0].id == id then updated else hs[0]] + ReplaceById(hs[1..], id, updated)
  }

  /** `prev.filter(h => h._id !== id)`. */
  function RemoveById(hs: seq<Habit>, id: Id): (r: seq<Habit>)
    ensures |r| <= |hs|
    ensures forall i :: 0 <= i < |r| ==> r[i].id != id
    ensures (forall i :: 0 <= i < |hs| ==> hs[i].id != id) ==> r == hs
  {
    if |hs| == 0 then []
    else if hs[0].id == id then RemoveById(hs[1..], id)
    else
      assert hs == [hs[0]] + hs[1..];
      [hs[0]] + RemoveById(hs[1..], id)
  }

  /** The survivors of a delete are exactly the habits with another id, each
      as many times as before. */
  lemma {:induction false} RemoveByIdContents(hs: seq<Habit>, id: Id, h: Habit)
    ensures multiset(RemoveById(hs, id))[h] == if h.id == id then 0 else multiset(hs)[h]
  {
    if |hs| > 0 {
      var t := RemoveById(hs[1..], id);
      RemoveByIdContents(hs[1..], id, h);
      assert hs == [hs[0]] + hs[1..];
      assert multiset(hs) == multiset([hs[0]]) + multiset(hs[1..]);
      if hs[0].id != id {
        assert RemoveById(hs, id) == [hs[0]] + t;
        assert multiset([hs[0]] + t) == multiset([hs[0]]) + multiset(t);
      }
    }
  }

  /** A survivor of a delete was in the list before. */
  lemma RemovedFrom(hs: seq<Habit>, id: Id, k: int)
    requires 0 <= k < |RemoveById(hs, id)|
    ensures RemoveById(hs, id)[k] in hs
  {
    var r := RemoveById(hs, id);
    RemoveByIdContents(hs, id, r[k]);
    assert r[k] in multiset(r);
  }

  /** Deleting distributes over concatenation, so it keeps the survivors in
      their order. */
  lemma {:induction false} RemoveByIdConcat(a: seq<Habit>, b: seq<Habit>, id: Id)
    ensures RemoveById(a + b, id) == RemoveById(a, id) + RemoveById(b, id)
  {
    if |a| == 0 {
      assert a + b == b;
    } else {
      assert (a + b)[1..] == a[1..] + b;
      RemoveByIdConcat(a[1..], b, id);
    }
  }

  /** Deleting a habit that was just added gives the list from before the add. */
  lemma AddThenDelete(hs: seq<Habit>, h: Habit)
    requires h.id !in Ids(hs)
    ensures RemoveById(hs + [h], h.id) == hs
  {
    RemoveByIdConcat(hs, [h], h.id);
    assert RemoveById([h], h.id) == [];
  }

  /** With distinct ids, deleting a present id cuts out that one habit and no
      other: the list gets one shorter. */
  lemma DeleteUniqueId(hs: seq<Habit>, i: int)
    requires NoDuplicates(Ids(hs)) && 0 <= i < |hs|
    ensures RemoveById(hs, hs[i].id) == hs[..i] + hs[i + 1..]
    ensures |RemoveById(hs, hs[i].id)| == |hs| - 1
  {
    var id, ids := hs[i].id, Ids(hs);
    var a, h, b := hs[..i], hs[i], hs[i + 1..];
    SplitAt(hs, i);
    forall k | 0 <= k < |a| ensures a[k].id != id {
      assert ids[k] == a[k].id && ids[i] == id;
    }
    forall k | 0 <= k < |b| ensures b[k].id != id {
      assert ids[i + 1 + k] == b[k].id && ids[i] == id;
    }
    RemoveByIdConcat(a + [h], b, id);
    RemoveByIdConcat(a, [h], id);
    assert RemoveById([h], id) == [];
  }

  /** Deleting keeps the ids distinct. */
  lemma {:induction false} RemoveByIdKeepsDistinct(hs: seq<Habit>, id: Id)
    requires NoDuplicates(Ids(hs))
    ensures NoDuplicates(Ids(RemoveById(hs, id)))
  {
    if |hs| > 0 {
      var tail := hs[1..];
      var ids := Ids(hs);
      assert ids == [hs[0].id] + Ids(tail);
      assert ids[1..] == Ids(tail);
      TailNoDuplicates(ids);
      RemoveByIdKeepsDistinct(tail, id);
      if hs[0].id != id {
        var r := RemoveById(tail, id);
        UniqueAfter(ids, 0);
        forall k | 0 <= k < |r| ensures Ids(r)[k] != hs[0].id {
          RemovedFrom(tail, id, k);
          var j :| 0 <= j < |tail| && tail[j] == r[k];
          assert Ids(tail)[j] == r[k].id;
        }
        assert RemoveById(hs, id) == [hs[0]] + r;
        assert Ids([hs[0]] + r) == [hs[0].id] + Ids(r);
        ConsNoDuplicates(hs[0].id, Ids(r));
      }
    }
  }

  /** A toggle answer that keeps the habit's id leaves the ids as they were. */
  lemma ReplaceKeepsIds(hs: seq<Habit>, id: Id, updated: Habit)
    requires updated.id == id
    ensures Ids(ReplaceById(hs, id, updated)) == Ids(hs)
  {
  }

  /** Replacing by an id no habit has changes nothing. */
  lemma ReplaceAbsentId(hs: seq<Habit>, id: Id, updated: Habit)
    requires id !in Ids(hs)
    ensures ReplaceById(hs, id, updated) == hs
  {
    var r := ReplaceById(hs, id, updated);
    forall i | 0 <= i < |hs| ensures r[i] == hs[i] {
      assert Ids(hs)[i] == hs[i].id;
    }
  }

  /** Deleting a habit after toggling it gives the same list as deleting it
      straight away. */
  lemma {:induction false} DeleteAfterToggle(hs: seq<Habit>, id: Id, updated: Habit)
    requires updated.id == id
    ensures RemoveById(ReplaceById(hs, id, updated), id) == RemoveById(hs, id)
  {
    if |hs| > 0 {
      DeleteAfterToggle(hs[1..], id, updated);
      var r := ReplaceById(hs, id, updated);
      assert r == [r[0]] + ReplaceById(hs[1..], id, updated);
    }
  }

  // ---------------------------------------------------------------------------
  // The provider

  class DataProvider {
    var habits: seq<Habit>
    var friends: seq<Friendship>
    var incomingRequests: seq<Friendship>
    var analyticsData: Option<AnalyticsSnapshot>
    var loading: bool

    constructor ()
      ensures habits == [] && friends == [] && incomingRequests == []
      ensures analyticsData == None && loading
    {
      habits := [];
      friends := [];
      incomingRequests := [];
      analyticsData := None;
      loading := true;
    }

    /** The full load. Without a signed-in user nothing is requested. With one,
        the three requests go out together: only if all three succeed are the
        four collections set, and otherwise none is and one error toast shows.
        Either way `loading` ends false. */
    method FetchAllData(user: Option<User>, habitsRes: Response<seq<Habit>>,
                        friendsRes: Response<FriendsPayload>,
                        analyticsRes: Response<AnalyticsSnapshot>)
      returns (effects: seq<Effect>)
      modifies this
      ensures !loading
      ensures user.None? ==> (effects == [] &&
        habits == old(habits) && friends == old(friends) &&
        incomingRequests == old(incomingRequests) && analyticsData == old(analyticsData))
      ensures user.Some? && habitsRes.Ok? && friendsRes.Ok? && analyticsRes.Ok? ==>
        (effects == LoadRequests &&
         habits == habitsRes.data && friends == friendsRes.data.friends &&
         incomingRequests == friendsRes.data.incomingRequests &&
         analyticsData == Some(analyticsRes.data))
      ensures user.Some? && !(habitsRes.Ok? && friendsRes.Ok? && analyticsRes.Ok?) ==>
        (effects == LoadRequests + [ShowToast(ErrorToast(LoadFailedMessage))] &&
         habits == old(habits) && friends == old(friends) &&
         incomingRequests == old(incomingRequests) && analyticsData == old(analyticsData))
    {
      if user.None? {
        loading := false;
        return [];
      }
      loading := true;
      effects := LoadRequests;
      if habitsRes.Ok? && friendsRes.Ok? && analyticsRes.Ok? {
        habits := habitsRes.data;
        friends := friendsRes.data.friends;
        incomingRequests := friendsRes.data.incomingRequests;
        analyticsData := Some(analyticsRes.data);
      } else {
        effects := effects + [ShowToast(ErrorToast(LoadFailedMessage))];
      }
      loading := false;
    }

    /** Creates a habit; the one the server returns goes at the end. */
    method AddHabit(data: HabitData, res: Response<Habit>) returns (effects: seq<Effect>)
      modifies this`habits
      ensures res.Ok? ==> (habits == old(habits) + [res.data] &&
        effects == [Send(CreateHabit(data)), ShowToast(SuccessToast(HabitAddedMessage)), Send(GetAnalytics)])
      ensures res.Failed? ==> (habits == old(habits) &&
        effects == [Send(CreateHabit(data)), ShowToast(ErrorToast(AddFailedMessage))])
    {
      effects := [Send(CreateHabit(data))];
      if res.Ok? {
        habits := habits + [res.data];
        effects := effects + [ShowToast(SuccessToast(HabitAddedMessage)), Send(GetAnalytics)];
      } else {
        effects := effects + [ShowToast(ErrorToast(AddFailedMessage))];
      }
    }

    /** Toggles one day of a habit; the server's updated habit takes the place
        of every habit with that id. */
    method ToggleCompletion(habitId: Id, date: string, res: Response<Habit>) returns (effects: seq<Effect>)
      modifies this`habits
      ensures res.Ok? ==> (habits == ReplaceById(old(habits), habitId, res.data) &&
        effects == [Send(Request.ToggleCompletion(habitId, date)), Send(GetAnalytics)])
      ensures res.Failed? ==> (habits == old(habits) &&
        effects == [Send(Request.ToggleCompletion(habitId, date)), ShowToast(ErrorToast(ToggleFailedMessage))])
    {
      effects := [Send(Request.ToggleCompletion(habitId, date))];
      if res.Ok? {
        habits := ReplaceById(habits, habitId, res.data);
        effects := effects + [Send(GetAnalytics)];
      } else {
        effects := effects + [ShowToast(ErrorToast(ToggleFailedMessage))];
      }
    }

    /** Deletes a habit; every habit with that id leaves the list. */
    method DeleteHabit(habitId: Id, res: Response<()>) returns (effects: seq<Effect>)
      modifies this`habits
      ensures res.Ok? ==> (habits == RemoveById(old(habits), habitId) &&
        effects == [Send(Request.DeleteHabit(habitId)), ShowToast(SuccessToast(HabitDeletedMessage)), Send(GetAnalytics)])
      ensures res.Failed? ==> (habits == old(habits) &&
        effects == [Send(Request.DeleteHabit(habitId)), ShowToast(ErrorToast(DeleteFailedMessage))])
    {
      effects := [Send(Request.DeleteHabit(habitId))];
      if res.Ok? {
        habits := RemoveById(habits, habitId);
        effects := effects + [ShowToast(SuccessToast(HabitDeletedMessage)), Send(GetAnalytics)];
      } else {
        effects := effects + [ShowToast(ErrorToast(DeleteFailedMessage))];
      }
    }

    /** Accepts a pending request; the store reloads only if the server agreed. */
    method AcceptRequest(requestId: Id, res: Response<()>) returns (effects: seq<Effect>)
      ensures |effects| > 0 && effects[0] == Send(RespondToRequest(requestId, "accepted"))
      ensures RefetchAll in effects <==> res.Ok?
      ensures res.Ok? ==> effects == [effects[0], ShowToast(SuccessToast(AcceptedMessage)), RefetchAll]
      ensures res.Failed? ==> effects == [effects[0], ShowToast(ErrorToast(AcceptFailedMessage))]
    {
      effects := [Send(RespondToRequest(requestId, "accepted"))];
      if res.Ok? {
        effects := effects + [ShowToast(SuccessToast(AcceptedMessage)), RefetchAll];
      } else {
        effects := effects + [ShowToast(ErrorToast(AcceptFailedMessage))];
      }
    }

    /** Declines a pending request; the store reloads only if the server agreed. */
    method DeclineRequest(requestId: Id, res: Response<()>) returns (effects: seq<Effect>)
      ensures |effects| > 0 && effects[0] == Send(RespondToRequest(requestId, "declined"))
      ensures RefetchAll in effects <==> res.Ok?
      ensures res.Ok? ==> effects == [effects[0], ShowToast(SuccessToast(DeclinedMessage)), RefetchAll]
      ensures res.Failed? ==> effects == [effects[0], ShowToast(ErrorToast(DeclineFailedMessage))]
    {
      effects := [Send(RespondToRequest(requestId, "declined"))];
      if res.Ok? {
        effects := effects + [ShowToast(SuccessToast(DeclinedMessage)), RefetchAll];
      } else {
        effects := effects + [ShowToast(ErrorToast(DeclineFailedMessage))];
      }
    }

    /** Ends a friendship; the store reloads only if the server agreed. */
    method RemoveFriendship(friendshipId: Id, res: Response<()>) returns (effects: seq<Effect>)
      ensures |effects| > 0 && effects[0] == Send(DeleteFriendship(friendshipId))
      ensures RefetchAll in effects <==> res.Ok?
      ensures res.Ok? ==> effects == [effects[0], ShowToast(SuccessToast(FriendshipRemovedMessage)), RefetchAll]
      ensures res.Failed? ==> effects == [effects[0], ShowToast(ErrorToast(RemoveFailedMessage))]
    {
      effects := [Send(DeleteFriendship(friendshipId))];
      if res.Ok? {
        effects := effects + [ShowToast(SuccessToast(FriendshipRemovedMessage)), RefetchAll];
      } else {
        effects := effects + [ShowToast(ErrorToast(RemoveFailedMessage))];
      }
    }
  }

  /** The store's habit list keeps distinct ids through an add of a fresh id,
      a toggle whose answer keeps the id, and any delete. */
  lemma MutationsKeepDistinctIds(hs: seq<Habit>, h: Habit, id: Id, updated: Habit)
    requires NoDuplicates(Ids(hs))
    ensures h.id !in Ids(hs) ==> NoDuplicates(Ids(hs + [h]))
    ensures updated.id == id ==> NoDuplicates(Ids(ReplaceById(hs, id, updated)))
    ensures NoDuplicates(Ids(RemoveById(hs, id)))
  {
    if h.id !in Ids(hs) {
      assert Ids(hs + [h]) == Ids(hs) + [h.id];
      AppendNoDuplicates(Ids(hs), h.id);
    }
    if updated.id == id {
      ReplaceKeepsIds(hs, id, updated);
    }
    RemoveByIdKeepsDistinct(hs, id);
  }
}
