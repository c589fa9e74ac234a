/** The calendar-reminder modal: weekday selection, and the Google Calendar
    link built on submit (first occurrence, 30-minute event, weekly RRULE). */
module ReminderModal {
  import opened Entities
  import opened Seqs

  /** The weekday codes of section 3.3.10 of RFC 5545, the only values the
      weekday buttons hand to the selection. */
  datatype WeekDay = SU | MO | TU | WE | TH | FR | SA

  /** The code as the link spells it. */
  function Code(d: WeekDay): string {
    match d
    case SU => "SU" case MO => "MO" case TU => "TU" case WE => "WE"
    case TH => "TH" case FR => "FR" case SA => "SA"
  }

  /** The codes indexed the way `Date.getDay()` numbers days: Sunday is 0. */
  const DayMap: seq<WeekDay> := [SU, MO, TU, WE, TH, FR, SA]
  /** The selection the modal opens with. */
  const DefaultDays: seq<WeekDay> := [MO, TU, WE, TH, FR]

  const NoDaysMessage := "Please select at least one day."
  const BaseUrl := "https://www.google.com/calendar/render?action=TEMPLATE"
  const RRulePrefix := "RRULE:FREQ=WEEKLY;BYDAY="

  const MsPerMinute := 60000
  const MsPerHour := 3600000
  const MsPerDay := 86400000
  /** The event's length: 30 minutes, in milliseconds. */
  const EventDuration := 30 * 60000

  /** The `getDay()` number of a weekday. */
  function DayNumber(d: WeekDay): int {
    match d
    case SU => 0 case MO => 1 case TU => 2 case WE => 3
    case TH => 4 case FR => 5 case SA => 6
  }

  /** `indexOf` in the `getDay()` table finds every day at its day number. */
  lemma DayMapIndex(d: WeekDay)
    ensures IndexOf(DayMap, d) == DayNumber(d)
  {
    IndexOfFirst(DayMap, d, DayNumber(d));
  }

  // ---------------------------------------------------------------------------
  // Weekday selection

  /** A click on a weekday button: a selected day is filtered out, any other
      day is appended. */
  function ToggleDay(prev: seq<WeekDay>, day: WeekDay): (next: seq<WeekDay>)
    ensures day in next <==> day !in prev
  {
    if day in prev then Without(prev, day) else prev + [day]
  }

  /** A click changes nothing about the other days: each is selected as often
      as before. */
  lemma ToggleKeepsOtherDays(prev: seq<WeekDay>, day: WeekDay, other: WeekDay)
    requires other != day
    ensures multiset(ToggleDay(prev, day))[other] == multiset(prev)[other]
  {
  }

  /** An unselected day goes to the end. */
  lemma ToggleAppends(prev: seq<WeekDay>, day: WeekDay)
    requires day !in prev
    ensures ToggleDay(prev, day) == prev + [day]
  {
  }

  /** A selected day is cut out of its place and the other days keep their
      order. */
  lemma ToggleCutsOut(prev: seq<WeekDay>, day: WeekDay)
    requires NoDuplicates(prev) && day in prev
    ensures var i := IndexOf(prev, day);
      0 <= i < |prev| && ToggleDay(prev, day) == prev[..i] + prev[i + 1..]
  {
    WithoutCutsOut(prev, day);
  }

  /** A selection without repeats stays without repeats. */
  lemma ToggleKeepsDistinct(prev: seq<WeekDay>, day: WeekDay)
    requires NoDuplicates(prev)
    ensures NoDuplicates(ToggleDay(prev, day))
  {
    if day in prev {
      WithoutKeepsDistinct(prev, day);
    } else {
      AppendNoDuplicates(prev, day);
    }
  }

  /** Clicking an unselected day twice restores the selection exactly. */
  lemma ToggleTwice(prev: seq<WeekDay>, day: WeekDay)
    requires day !in prev
    ensures ToggleDay(ToggleDay(prev, day), day) == prev
  {
    WithoutAppended(prev, day);
  }

  // ---------------------------------------------------------------------------
  // The clock, as local day numbers and times of day

  /** A local wall-clock reading: day since 1970-01-01 and time of day. */
  datatype Clock = Clock(day: Day, hour: int, minute: int, second: int, milli: int)

  predicate ValidClock(c: Clock) {
    0 <= c.hour < 24 && 0 <= c.minute < 60 && 0 <= c.second < 60 && 0 <= c.milli < 1000
  }

  /** `Date.getDay()` of a local day: 1970-01-01 was a Thursday, day 4 of the week. */
  function Weekday(day: Day): (w: int)
    ensures 0 <= w < 7
  {
    (day + 4) % 7
  }

  /** Milliseconds since the local epoch of a wall-clock reading. */
  function Instant(day: Day, hour: int, minute: int, second: int, milli: int): int {
    day * 86400000 + hour * 3600000 + minute * 60000 + second * 1000 + milli
  }

  /** The start of the minute `now` falls in. */
  function MinuteOf(now: Clock): int {
    Instant(now.day, now.hour, now.minute, 0, 0)
  }

  /** Today's reminder time has already passed: a later hour, or the same hour
      and a later minute. */
  predicate TimePassed(now: Clock, hour: int, minute: int) {
    now.hour > hour || (now.hour == hour && now.minute > minute)
  }

  /** Days from today to the first event: to the next weekday of the FIRST
      selected code (not the earliest one), a week ahead if that is today and
      the time has passed. The dividend of `%` is never negative, so Dafny's
      `%` agrees with JavaScript's here. */
  function FirstEventOffset(selected: seq<WeekDay>, now: Clock, hour: int, minute: int): (offset: int)
    requires |selected| > 0
    ensures 0 <= offset <= 7
  {
    DaysAhead(DayNumber(selected[0]), Weekday(now.day), TimePassed(now, hour, minute))
  }

  /** `(firstDayIndex - today + 7) % 7`, or 7 when that is 0 and the time has
      passed: at most a week, and a full week only when the time has passed. */
  function DaysAhead(firstDayIndex: int, today: int, passed: bool): (days: int)
    ensures 0 <= days <= 7
    ensures days == 7 ==> passed
  {
    var days := (firstDayIndex - today + 7) % 7;
    if days == 0 && passed then 7 else days
  }

  /** Moving `k` days on moves the weekday `k` places round the week. */
  lemma WeekdayShift(day: Day, k: int)
    ensures Weekday(day + k) == (Weekday(day) + k) % 7
  {
    var q := (day + 4) / 7;
    assert day + 4 == 7 * q + Weekday(day);
    assert day + k + 4 == 7 * q + (Weekday(day) + k);
  }

  /** From weekday `today`, `DaysAhead` days on is weekday `idx`, and it is a
      full week exactly when `idx` is today and the time has passed. */
  lemma DaysAheadReaches(day: int, idx: int, passed: bool)
    requires 0 <= idx < 7
    ensures var off := DaysAhead(idx, Weekday(day), passed);
      0 <= off <= 7 && Weekday(day + off) == idx && (off == 7 <==> idx == Weekday(day) && passed)
  {
    var w := Weekday(day);
    var off := DaysAhead(idx, w, passed);
    if idx >= w {
      assert (idx - w + 7) % 7 == idx - w;
    } else {
      assert (idx - w + 7) % 7 == idx - w + 7;
    }
    WeekdayShift(day, off);
    if off == 7 {
      assert idx == w && (w + 7) % 7 == w;
    }
  }

  /** The first event falls on the weekday of the first selected code. */
  lemma OffsetLandsOnFirstDay(selected: seq<WeekDay>, now: Clock, hour: int, minute: int)
    requires |selected| > 0
    ensures Weekday(now.day + FirstEventOffset(selected, now, hour, minute)) == DayNumber(selected[0])
  {
    DaysAheadReaches(now.day, DayNumber(selected[0]), TimePassed(now, hour, minute));
  }

  /** The offset is a full week exactly when the first selected day is today and
      the reminder time has passed; the same minute does not count as passed. */
  lemma OffsetRollsOver(selected: seq<WeekDay>, now: Clock, hour: int, minute: int)
    requires |selected| > 0
    ensures FirstEventOffset(selected, now, hour, minute) == 7 <==>
      DayNumber(selected[0]) == Weekday(now.day) && TimePassed(now, hour, minute)
  {
    DaysAheadReaches(now.day, DayNumber(selected[0]), TimePassed(now, hour, minute));
  }

  /** With Friday then Monday selected on a Sunday, the first event is five days
      away although Monday is one day away. */
  lemma FirstSelectedNotEarliest()
    ensures FirstEventOffset([FR, MO], Clock(3, 8, 0, 0, 0), 9, 0) == 5
  {
    assert Weekday(3) == 0;
  }

  // ---------------------------------------------------------------------------
  // The event and its link

  /** The text fields of the event are raw here; the link encodes them. */
  datatype CalendarEvent = CalendarEvent(title: string, details: string, location: string,
                                         start: int, end: int, recurrence: string)

  /** The recurrence rule of section 3.3.10 of RFC 5545, after the "RRULE:"
      property name: weekly, on the selected weekday codes in selection order. */
  function Recurrence(days: seq<WeekDay>): (rule: string)
    ensures |rule| >= |RRulePrefix| && rule[..|RRulePrefix|] == RRulePrefix
  {
    RRulePrefix + Join(Codes(days), ',')
  }

  function Codes(days: seq<WeekDay>): (codes: seq<string>)
    ensures |codes| == |days|
    ensures forall k :: 0 <= k < |days| ==> codes[k] == Code(days[k])
  {
    if |days| == 0 then [] else [Code(days[0])] + Codes(days[1..])
  }

  /** The event the link describes. */
  function ReminderEvent(habit: Habit, selected: seq<WeekDay>, hour: int, minute: int, now: Clock): (ev: CalendarEvent)
    requires |selected| > 0 && 0 <= hour < 24 && 0 <= minute < 60
    ensures ev.end - ev.start == EventDuration
    ensures ev.start == Instant(now.day + FirstEventOffset(selected, now, hour, minute), hour, minute, 0, 0)
    ensures ev.title == "Habit: " + habit.name
    ensures ev.details == if habit.description != "" then habit.description
                          else "Time to complete your habit: " + habit.name
    ensures ev.location == ""
    ensures ev.recurrence == Recurrence(selected)
  {
    var startDay := now.day + FirstEventOffset(selected, now, hour, minute);
    var start := Instant(startDay, hour, minute, 0, 0);
    CalendarEvent(
      "Habit: " + habit.name,
      if habit.description != "" then habit.description else "Time to complete your habit: " + habit.name,
      "",
      start,
      start + EventDuration,
      Recurrence(selected))
  }

  /** A day number and a time of day within it are read back by `/` and `%`. */
  lemma DayAndTimeOfDay(day: int, hour: int, minute: int)
    requires 0 <= hour < 24 && 0 <= minute < 60
    ensures Instant(day, hour, minute, 0, 0) / 86400000 == day
    ensures Instant(day, hour, minute, 0, 0) % 86400000 == hour * 3600000 + minute * 60000
    ensures Instant(day, hour, minute, 0, 0) % 60000 == 0
  {
    var tod := hour * 3600000 + minute * 60000;
    assert Instant(day, hour, minute, 0, 0) == day * 86400000 + tod;
    assert Instant(day, hour, minute, 0, 0) == 60000 * (day * 1440 + hour * 60 + minute);
  }

  /** The event starts on the day of the first event, at the chosen hour and
      minute with seconds and milliseconds zero. */
  lemma StartAtChosenTime(habit: Habit, selected: seq<WeekDay>, hour: int, minute: int, now: Clock)
    requires |selected| > 0 && 0 <= hour < 24 && 0 <= minute < 60
    ensures var ev := ReminderEvent(habit, selected, hour, minute, now);
      ev.start / MsPerDay == now.day + FirstEventOffset(selected, now, hour, minute) &&
      ev.start % MsPerDay == hour * MsPerHour + minute * MsPerMinute &&
      ev.start % MsPerMinute == 0
  {
    DayAndTimeOfDay(now.day + FirstEventOffset(selected, now, hour, minute), hour, minute);
  }

  /** The first-event window in milliseconds: from the start of the current
      minute, less than a week ahead, and before `now` only within its minute. */
  lemma WindowArithmetic(off: int, hour: int, minute: int, now: Clock)
    requires 0 <= off <= 7 && 0 <= hour < 24 && 0 <= minute < 60 && ValidClock(now)
    requires off == 0 ==> !TimePassed(now, hour, minute)
    requires off == 7 ==> TimePassed(now, hour, minute)
    ensures var start := Instant(now.day + off, hour, minute, 0, 0);
      MinuteOf(now) <= start < MinuteOf(now) + 7 * MsPerDay &&
      (start < Instant(now.day, now.hour, now.minute, now.second, now.milli) ==> start == MinuteOf(now))
  {
  }

  /** The first event starts no earlier than the current minute and less than
      a week after it; it lies before `now` only when it is in the current minute. */
  lemma StartWithinComingWeek(habit: Habit, selected: seq<WeekDay>, hour: int, minute: int, now: Clock)
    requires |selected| > 0 && 0 <= hour < 24 && 0 <= minute < 60 && ValidClock(now)
    ensures var ev := ReminderEvent(habit, selected, hour, minute, now);
      MinuteOf(now) <= ev.start < MinuteOf(now) + 7 * MsPerDay &&
      (ev.start < Instant(now.day, now.hour, now.minute, now.second, now.milli) ==> ev.start == MinuteOf(now))
  {
    WindowArithmetic(FirstEventOffset(selected, now, hour, minute), hour, minute, now);
  }

  /** On the reminder's own minute the event starts up to 59.999 seconds in the past. */
  lemma StartMayPrecedeNow()
    ensures var now := Clock(0, 9, 0, 30, 0);
      ReminderEvent(Habit("h", "Run", "", "#ef4444", []), [TH], 9, 0, now).start
        < Instant(now.day, now.hour, now.minute, now.second, now.milli)
  {
  }

  lemma CodeHasNoComma(d: WeekDay)
    ensures |Code(d)| == 2 && ',' !in Code(d)
  {
  }

  /** The recurrence names exactly the selected codes, in selection order. */
  lemma RecurrenceListsSelection(days: seq<WeekDay>)
    requires |days| >= 1
    ensures Recurrence(days)[..|RRulePrefix|] == RRulePrefix
    ensures Split(Recurrence(days)[|RRulePrefix|..], ',') == Codes(days)
  {
    var codes := Codes(days);
    forall k | 0 <= k < |codes| ensures ',' !in codes[k] {
      CodeHasNoComma(days[k]);
    }
    SplitJoin(codes, ',');
    var joined := Join(codes, ',');
    assert Recurrence(days) == RRulePrefix + joined;
    assert (RRulePrefix + joined)[|RRulePrefix|..] == joined;
  }

  // ---------------------------------------------------------------------------
  // Timestamps

  predicate IsDigit(c: char) {
    '0' <= c <= '9'
  }

  predicate DigitsAt(s: string, lo: int, hi: int)
    requires 0 <= lo <= hi <= |s|
  {
    forall k :: lo <= k < hi ==> IsDigit(s[k])
  }

  /** The form `Date.prototype.toISOString` returns: YYYY-MM-DDTHH:mm:ss.sssZ. */
  predicate IsIsoUtc(s: string) {
    |s| == 24 &&
    DigitsAt(s, 0, 4) && s[4] == '-' && DigitsAt(s, 5, 7) && s[7] == '-' && DigitsAt(s, 8, 10) &&
    s[10] == 'T' &&
    DigitsAt(s, 11, 13) && s[13] == ':' && DigitsAt(s, 14, 16) && s[16] == ':' && DigitsAt(s, 17, 19) &&
    s[19] == '.' && DigitsAt(s, 20, 23) && s[23] == 'Z'
  }

  /** The UTC form of DATE-TIME in section 3.3.5 of RFC 5545: YYYYMMDDTHHMMSSZ. */
  predicate IsBasicUtc(s: string) {
    |s| == 16 && DigitsAt(s, 0, 8) && s[8] == 'T' && DigitsAt(s, 9, 15) && s[15] == 'Z'
  }

  /** The global replacement of /-|:|\.\d{3}/ by the empty string: scanning left
      to right, a '-', a ':', or a '.' followed by three digits is dropped, and
      any other character is kept. */
  function FormatGoogleDate(s: string): (r: string)
    ensures |r| <= |s|
    ensures '-' !in r && ':' !in r
    decreases |s|
  {
    if |s| == 0 then ""
    else if s[0] == '-' || s[0] == ':' then FormatGoogleDate(s[1..])
    else if s[0] == '.' && |s| >= 4 && IsDigit(s[1]) && IsDigit(s[2]) && IsDigit(s[3]) then
      FormatGoogleDate(s[4..])
    else [s[0]] + FormatGoogleDate(s[1..])
  }

  predicate Plain(c: char) {
    c != '-' && c != ':' && c != '.'
  }

  /** A prefix with no '-', ':' or '.' passes through unchanged. */
  lemma {:induction false} FormatKeepsPlainPrefix(s: string, k: int)
    requires 0 <= k <= |s|
    requires forall j :: 0 <= j < k ==> Plain(s[j])
    ensures FormatGoogleDate(s) == s[..k] + FormatGoogleDate(s[k..])
  {
    if k > 0 {
      var t := s[1..];
      FormatPlainHead(s);
      forall j | 0 <= j < k - 1 ensures Plain(t[j]) {
        assert t[j] == s[j + 1];
      }
      FormatKeepsPlainPrefix(t, k - 1);
      PrefixStep(s, k);
    }
  }

  lemma FormatPlainHead(s: string)
    requires |s| > 0 && Plain(s[0])
    ensures FormatGoogleDate(s) == [s[0]] + FormatGoogleDate(s[1..])
  {
  }

  lemma PrefixStep(s: string, k: int)
    requires 0 < k <= |s|
    ensures s[1..][..k - 1] == s[1..k] && s[1..][k - 1..] == s[k..]
    ensures forall u: string :: [s[0]] + (s[1..k] + u) == s[..k] + u
  {
    forall u: string ensures [s[0]] + (s[1..k] + u) == s[..k] + u {
      assert s[..k] == [s[0]] + s[1..k];
    }
  }

  /** From a '-' or ':' at `i`: it is dropped and the `k` plain characters
      after it are kept. */
  lemma FormatDropsSeparator(s: string, i: int, k: int)
    requires 0 <= i && 0 <= k && i + 1 + k <= |s| && (s[i] == '-' || s[i] == ':')
    requires forall j :: i < j <= i + k ==> Plain(s[j])
    ensures FormatGoogleDate(s[i..]) == s[i + 1..i + 1 + k] + FormatGoogleDate(s[i + 1 + k..])
  {
    assert s[i..][1..] == s[i + 1..];
    FormatKeepsPlainPrefix(s[i + 1..], k);
    assert s[i + 1..][..k] == s[i + 1..i + 1 + k] && s[i + 1..][k..] == s[i + 1 + k..];
  }

  /** An ISO timestamp compacts to the RFC 5545 UTC form with the same digits. */
  lemma FormatIsoUtc(s: string)
    requires IsIsoUtc(s)
    ensures FormatGoogleDate(s) == s[..4] + (s[5..7] + (s[8..13] + (s[14..16] + (s[17..19] + "Z"))))
    ensures IsBasicUtc(FormatGoogleDate(s))
  {
    FormatKeepsPlainPrefix(s, 4);
    FormatDropsSeparator(s, 4, 2);
    FormatDropsSeparator(s, 7, 5);
    FormatDropsSeparator(s, 13, 2);
    FormatDropsSeparator(s, 16, 2);
    FormatMillis(s[19..]);
    CompactIsBasic(s);
  }

  /** The milliseconds and the closing 'Z' compact to "Z". */
  lemma FormatMillis(t: string)
    requires |t| == 5 && t[0] == '.' && DigitsAt(t, 1, 4) && t[4] == 'Z'
    ensures FormatGoogleDate(t) == "Z"
  {
    assert t[4..] == "Z";
  }

  /** The digits an ISO timestamp keeps, with its 'T' and a closing 'Z', are
      in the RFC 5545 UTC form. */
  lemma CompactIsBasic(s: string)
    requires IsIsoUtc(s)
    ensures IsBasicUtc(s[..4] + (s[5..7] + (s[8..13] + (s[14..16] + (s[17..19] + "Z")))))
  {
    var r := s[..4] + (s[5..7] + (s[8..13] + (s[14..16] + (s[17..19] + "Z"))));
    assert forall k :: 0 <= k < 4 ==> r[k] == s[k];
    assert forall k :: 4 <= k < 6 ==> r[k] == s[k + 1];
    assert forall k :: 6 <= k < 11 ==> r[k] == s[k + 2];
    assert forall k :: 11 <= k < 13 ==> r[k] == s[k + 3];
    assert forall k :: 13 <= k < 15 ==> r[k] == s[k + 4];
  }

  /** The `dates` parameter: both ends of the event, compacted, around a '/'.
      When `toISOString` gives its usual form, that is two RFC 5545 UTC
      timestamps of 16 characters each. */
  function EventDates(ev: CalendarEvent, toIso: int -> string): (dates: string)
    ensures IsIsoUtc(toIso(ev.start)) && IsIsoUtc(toIso(ev.end)) ==>
      |dates| == 33 && dates[16] == '/' && IsBasicUtc(dates[..16]) && IsBasicUtc(dates[17..])
  {
    var a, b := FormatGoogleDate(toIso(ev.start)), FormatGoogleDate(toIso(ev.end));
    CompactIfIso(toIso(ev.start));
    CompactIfIso(toIso(ev.end));
    assert (a + "/" + b)[..|a|] == a && (a + "/" + b)[|a| + 1..] == b;
    a + "/" + b
  }

  lemma CompactIfIso(s: string)
    ensures IsIsoUtc(s) ==> IsBasicUtc(FormatGoogleDate(s))
  {
    if IsIsoUtc(s) {
      FormatIsoUtc(s);
    }
  }

  /** The Google Calendar template link. `encode` stands for
      `encodeURIComponent`; the dates and the recurrence are not encoded. */
  function CalendarUrl(ev: CalendarEvent, encode: string -> string, toIso: int -> string): (url: string)
    ensures |url| >= |BaseUrl| + 7 + |ev.recurrence|
    ensures url[..|BaseUrl|] == BaseUrl
    ensures url[|url| - |ev.recurrence| - 7..] == "&recur=" + ev.recurrence
  {
    BaseUrl + "&text=" + encode(ev.title) + "&details=" + encode(ev.details) +
    "&location=" + encode(ev.location) + "&dates=" + EventDates(ev, toIso) +
    "&recur=" + ev.recurrence
  }

  // ---------------------------------------------------------------------------
  // The modal's state

  class ReminderForm {
    /** The time input, "HH:MM" read as hour and minute. */
    var hour: int
    var minute: int
    var selectedDays: seq<WeekDay>

    predicate Valid()
      reads this
    {
      0 <= hour < 24 && 0 <= minute < 60 && NoDuplicates(selectedDays)
    }

    constructor ()
      ensures Valid()
      ensures hour == 9 && minute == 0 && selectedDays == DefaultDays
    {
      hour, minute := 9, 0;
      selectedDays := DefaultDays;
    }

    method SetTime(h: int, m: int)
      requires Valid() && 0 <= h < 24 && 0 <= m < 60
      modifies this`hour, this`minute
      ensures Valid() && hour == h && minute == m
    {
      hour, minute := h, m;
    }

    method HandleDayClick(day: WeekDay)
      requires Valid()
      modifies this`selectedDays
      ensures Valid()
      ensures selectedDays == ToggleDay(old(selectedDays), day)
    {
      ToggleKeepsDistinct(selectedDays, day);
      if day in selectedDays {
        selectedDays := Without(selectedDays, day);
      } else {
        selectedDays := selectedDays + [day];
      }
    }

    /** Submitting: with no day selected, one error toast and nothing else;
        otherwise the link opens in a new tab and the modal closes. */
    method HandleSubmit(now: Clock, habit: Habit, encode: string -> string, toIso: int -> string)
      returns (effects: seq<Effect>)
      requires Valid() && ValidClock(now)
      ensures |selectedDays| == 0 ==> effects == [ShowToast(ErrorToast(NoDaysMessage))]
      ensures |selectedDays| > 0 ==> effects == [
        OpenWindow(CalendarUrl(ReminderEvent(habit, selectedDays, hour, minute, now), encode, toIso), "_blank"),
        CloseModal]
    {
      if |selectedDays| == 0 {
        effects := [ShowToast(ErrorToast(NoDaysMessage))];
        return;
      }
      // The position of the first selected code in `DayMap` (see DayMapIndex).
      var firstDayIndex := DayNumber(selectedDays[0]);
      var daysUntilFirstEvent := (firstDayIndex - Weekday(now.day) + 7) % 7;
      if daysUntilFirstEvent == 0 && (now.hour > hour || (now.hour == hour && now.minute > minute)) {
        daysUntilFirstEvent := 7;
      }
      var startDay := now.day + daysUntilFirstEvent;
      var startDate := Instant(startDay, hour, minute, 0, 0);
      var endDate := startDate + EventDuration;
      var title := "Habit: " + habit.name;
      var details := if habit.description != "" then habit.description
                     else "Time to complete your habit: " + habit.name;
      var ev := CalendarEvent(title, details, "", startDate, endDate, Recurrence(selectedDays));
      assert ev == ReminderEvent(habit, selectedDays, hour, minute, now);
      effects := [OpenWindow(CalendarUrl(ev, encode, toIso), "_blank"), CloseModal];
    }
  }
}
