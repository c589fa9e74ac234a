/** The dashboard's four figures, derived from the habit list on every render:
    total habits, habits completed today, today's completion rate as a whole
    percentage, and the sum of all completion counts. */
module Dashboard {
  import opened Entities
  import opened HabitCard

  /** `habits.filter(h => h.completions.some(isToday))`. */
  function DoneToday(hs: seq<Habit>, today: Day): (r: seq<Habit>)
    ensures |r| <= |hs|
    ensures forall i :: 0 <= i < |r| ==> IsCompletedToday(r[i], today)
  {
    if |hs| == 0 then []
    else if IsCompletedToday(hs[0], today) then [hs[0]] + DoneToday(hs[1..], today)
    else DoneToday(hs[1..], today)
  }

  /** `completedToday`: how many habits are done today. */
  function CompletedToday(hs: seq<Habit>, today: Day): (n: nat)
    ensures n <= |hs|
  {
    |DoneToday(hs, today)|
  }

  /** Every habit is counted at most once, and the count reaches the number of
      habits exactly when each of them is done today. */
  lemma {:induction false} CompletedTodayBounds(hs: seq<Habit>, today: Day)
    ensures CompletedToday(hs, today) <= |hs|
    ensures CompletedToday(hs, today) == |hs| <==> forall i :: 0 <= i < |hs| ==> IsCompletedToday(hs[i], today)
    ensures CompletedToday(hs, today) == 0 <==> forall i :: 0 <= i < |hs| ==> !IsCompletedToday(hs[i], today)
  {
    if |hs| > 0 {
      CompletedTodayBounds(hs[1..], today);
      assert forall i :: 1 <= i < |hs| ==> hs[i] == hs[1..][i - 1];
    }
  }

  /** Completing one more habit today raises the count by one. */
  lemma {:induction false} CompletedTodayCountsOnce(a: seq<Habit>, h: Habit, b: seq<Habit>, today: Day)
    ensures CompletedToday(a + [h] + b, today) ==
      CompletedToday(a + b, today) + (if IsCompletedToday(h, today) then 1 else 0)
  {
    if |a| == 0 {
      assert a + [h] + b == [h] + b;
      assert ([h] + b)[1..] == b;
      assert a + b == b;
    } else {
      CompletedTodayCountsOnce(a[1..], h, b, today);
      assert (a + [h] + b)[1..] == a[1..] + [h] + b;
      assert (a + b)[1..] == a[1..] + b;
      assert (a + [h] + b)[0] == (a + b)[0] == a[0];
    }
  }

  /** `Math.round(completed / total * 100)` for a positive total, else 0.
      On non-negative values rounding half up is `(200 * c + t) / (2 * t)`:
      the rate is the whole number nearest to 100 * completed / total, with
      halves rounded up, `r - 1/2 <= 100 * c / t < r + 1/2`. */
  function TodaysRate(completed: nat, total: nat): (r: nat)
    ensures total == 0 ==> r == 0
    ensures total > 0 ==> 2 * total * r <= 200 * completed + total < 2 * total * r + 2 * total
  {
    if total > 0 then
      var n, d := 200 * completed + total, 2 * total;
      assert n == d * (n / d) + n % d && 0 <= n % d < d;
      n / d
    else 0
  }

  /** Every habit done gives 100. */
  lemma RateAllDone(total: nat)
    requires total > 0
    ensures TodaysRate(total, total) == 100
  {
    DivUnique(200 * total + total, 2 * total, 100, total);
  }

  /** No habit done gives 0. */
  lemma RateNoneDone(total: nat)
    ensures TodaysRate(0, total) == 0
  {
    if total > 0 {
      DivUnique(total, 2 * total, 0, total);
    }
  }

  /** The rate stays within 0..100. */
  lemma RateAtMost100(completed: nat, total: nat)
    requires completed <= total
    ensures TodaysRate(completed, total) <= 100
  {
    if total > 0 {
      ProductOrder(2 * total, TodaysRate(completed, total), 101);
    }
  }

  /** Euclidean division is determined by quotient and remainder. */
  lemma DivUnique(n: int, d: int, q: int, m: int)
    requires d > 0 && n == d * q + m && 0 <= m < d
    ensures n / d == q
  {
    var q', m' := n / d, n % d;
    assert n == d * q' + m' && 0 <= m' < d;
    if q' < q {
      assert d * (q' + 1) == d * q' + d;
      ProductOrder(d, q' + 1, q);
    } else if q < q' {
      assert d * (q + 1) == d * q + d;
      ProductOrder(d, q + 1, q');
    }
  }

  /** The rate never drops as more habits are completed. */
  lemma RateMonotone(c1: nat, c2: nat, total: nat)
    requires c1 <= c2
    ensures TodaysRate(c1, total) <= TodaysRate(c2, total)
  {
    if total > 0 {
      var r1, r2 := TodaysRate(c1, total), TodaysRate(c2, total);
      ProductOrder(2 * total, r2 + 1, r1);
    }
  }

  /** For a positive factor, products are ordered as their other factors. */
  lemma ProductOrder(k: int, a: int, b: int)
    requires k > 0
    ensures k * a < k * b <==> a < b
    ensures k * a <= k * b <==> a <= b
  {
    if a >= b {
      assert k * a - k * b == k * (a - b);
    }
    if a > b {
      assert k * a - k * b == k * (a - b);
    }
  }

  /** `habits.reduce((acc, h) => acc + h.completions.length, 0)`, folded from
      the left. No card's streak exceeds the total. */
  function TotalStreaks(hs: seq<Habit>): (total: nat)
    ensures forall i :: 0 <= i < |hs| ==> |hs[i].completions| <= total
  {
    if |hs| == 0 then 0
    else TotalStreaks(hs[..|hs| - 1]) + |hs[|hs| - 1].completions|
  }

  /** The sum splits over concatenation, so it is the sum of the cards' streaks
      however the list is cut. */
  lemma {:induction false} TotalStreaksConcat(a: seq<Habit>, b: seq<Habit>)
    ensures TotalStreaks(a + b) == TotalStreaks(a) + TotalStreaks(b)
  {
    if |b| > 0 {
      var b' := b[..|b| - 1];
      assert (a + b)[..|a + b| - 1] == a + b';
      TotalStreaksConcat(a, b');
    } else {
      assert a + b == a;
    }
  }

  /** Each habit done today has at least one completion, so the total streak
      is at least the number done today. */
  lemma {:induction false} TotalStreaksCoverDoneToday(hs: seq<Habit>, today: Day)
    ensures TotalStreaks(hs) >= CompletedToday(hs, today)
  {
    if |hs| > 0 {
      var h, rest := hs[0], hs[1..];
      assert hs == [h] + rest;
      TotalStreaksConcat([h], rest);
      assert TotalStreaks([h]) == |h.completions|;
      TotalStreaksCoverDoneToday(rest, today);
      if IsCompletedToday(h, today) {
        assert |h.completions| > 0;
      }
    }
  }

  /** The dashboard's figures and whether it shows the "no habits yet" message. */
  datatype DashboardView = DashboardView(
    totalHabits: nat,
    completedToday: nat,
    todaysRate: nat,
    totalStreaks: nat,
    showEmptyState: bool)

  function View(hs: seq<Habit>, today: Day): (v: DashboardView)
    ensures v.showEmptyState <==> |hs| == 0
    ensures v.completedToday <= v.totalHabits == |hs|
    ensures v.todaysRate <= 100 && (|hs| == 0 ==> v.todaysRate == 0)
    ensures v.totalStreaks >= v.completedToday
    ensures v.completedToday == CompletedToday(hs, today)
    ensures v.todaysRate == TodaysRate(v.completedToday, v.totalHabits)
    ensures v.totalStreaks == TotalStreaks(hs)
  {
    var totalHabits := |hs|;
    var completedToday := CompletedToday(hs, today);
    CompletedTodayBounds(hs, today);
    RateAtMost100(completedToday, totalHabits);
    TotalStreaksCoverDoneToday(hs, today);
    DashboardView(totalHabits, completedToday, TodaysRate(completedToday, totalHabits),
                  TotalStreaks(hs), |hs| == 0)
  }
}
