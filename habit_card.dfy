/** One habit's card: whether it is done today, its completion count, and which
    controls it shows. A friend's habits are shown read-only. */
module HabitCard {
  import opened Entities

  /** `isToday(new Date(c.date))`, with the date already read as a local day. */
  predicate IsToday(c: Completion, today: Day) {
    c.date == today
  }

  /** `completions.some(isToday)`. */
  function AnyOnDay(cs: seq<Completion>, today: Day): (b: bool)
    ensures b <==> exists i :: 0 <= i < |cs| && IsToday(cs[i], today)
  {
    if |cs| == 0 then false
    else if IsToday(cs[0], today) then true
    else
      assert forall i :: 1 <= i < |cs| ==> cs[i] == cs[1..][i - 1];
      AnyOnDay(cs[1..], today)
  }

  /** `habit.completions.some(c => isToday(new Date(c.date)))`. */
  predicate IsCompletedToday(h: Habit, today: Day)
    ensures IsCompletedToday(h, today) <==>
      exists i :: 0 <= i < |h.completions| && h.completions[i].date == today
  {
    AnyOnDay(h.completions, today)
  }

  /** What the card shows and enables. */
  datatype CardView = CardView(
    name: string,
    description: string,
    color: string,
    showReminderButton: bool,
    showDeleteButton: bool,
    toggleDisabled: bool,
    cursorNotAllowed: bool,
    indicatorGreen: bool,
    streak: nat)

  function Render(h: Habit, today: Day, isFriendView: bool): (v: CardView)
    ensures v.name == h.name && v.description == h.description && v.color == h.color
    ensures v.showReminderButton == v.showDeleteButton == !isFriendView
    ensures v.toggleDisabled == v.cursorNotAllowed == isFriendView
    ensures v.indicatorGreen <==> exists i :: 0 <= i < |h.completions| && h.completions[i].date == today
    ensures v.streak == |h.completions|
  {
    var completedToday := IsCompletedToday(h, today);
    CardView(h.name, h.description, h.color, !isFriendView, !isFriendView,
             isFriendView, isFriendView, completedToday, |h.completions|)
  }

  /** The card's "streak" counts every completion ever made: two completions a
      week apart, and none today, still show a streak of 2. */
  lemma StreakIsNotConsecutive()
    ensures var v := Render(Habit("h", "Read", "", "#EF4444", [Completion(1), Completion(8)]), 10, false);
      v.streak == 2 && !v.indicatorGreen
  {
    var cs := [Completion(1), Completion(8)];
    assert !IsToday(cs[0], 10) && !IsToday(cs[1], 10);
  }

  /** Completing a habit today turns its indicator green, whatever it held before. */
  lemma CompletingTodayTurnsGreen(h: Habit, today: Day, isFriendView: bool)
    ensures Render(h.(completions := h.completions + [Completion(today)]), today, isFriendView).indicatorGreen
  {
    var cs := h.completions + [Completion(today)];
    assert IsToday(cs[|cs| - 1], today);
  }
}
