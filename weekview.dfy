/** The week grid of the calendar: seven weekday columns of the current week, eleven
    hour rows, and in each cell the stored visits that occur on that date at that hour
    under their `repeat` rule. "Today" is a parameter (a day number). */
module WeekView {
  import opened Wrappers
  import opened Text
  import opened Lists
  import opened Dates
  import opened Records

  /** The row labels `${i + 8}:00` for i in 0..10: not zero-padded. */
  function Hours(): (hs: seq<string>)
    ensures |hs| == 11
  {
    seq(11, i requires 0 <= i < 11 => NatToString(i + 8) + ":00")
  }

  const Days: seq<string> := ["Sunday", "Monday", "Tuesday", "Wednesday", "Thursday", "Friday", "Saturday"]

  /** `s.indexOf(x)`: the first position of `x`, or -1. */
  function IndexOf(s: seq<string>, x: string): (k: int)
    ensures -1 <= k
    ensures k == -1 <==> x !in s
    ensures 0 <= k ==> k < |s| && s[k] == x && x !in s[..k]
  {
    if s == [] then -1
    else if s[0] == x then 0
    else
      var k := IndexOf(s[1..], x);
      if k == -1 then -1
      else
        assert s[..k + 1] == [s[0]] + s[1..][..k];
        k + 1
  }

  /** The day number of the Sunday that starts the week of `today`. */
  function StartOfWeek(today: int): (d: int)
    ensures Weekday(d) == 0 && d <= today < d + 7
  {
    today - Weekday(today)
  }

  /** `getDateOfCurrentWeekday`: the date in this week whose weekday has the given name. */
  function DateOfCurrentWeekday(today: int, weekday: string): (d: int)
    ensures weekday in Days ==>
      && Weekday(d) == IndexOf(Days, weekday)
      && StartOfWeek(today) <= d < StartOfWeek(today) + 7
  {
    DayOfWeekAt(today, IndexOf(Days, weekday))
  }

  /** The date `k` days after the Sunday that starts the week of `today`. */
  function DayOfWeekAt(today: int, k: int): (d: int)
    ensures 0 <= k < 7 ==> Weekday(d) == k && StartOfWeek(today) <= d < StartOfWeek(today) + 7
  {
    var start := StartOfWeek(today);
    WeekdayFromSunday(start, k);
    start + k
  }

  lemma WeekdayFromSunday(start: int, k: int)
    requires Weekday(start) == 0
    ensures 0 <= k < 7 ==> Weekday(start + k) == k
  {
  }

  /** `event.time || "00:00"`. */
  function EventTime(e: Visit): string
  {
    if e.time == "" then "00:00" else e.time
  }

  /** The hour text of the event, zero-padded to two digits. */
  function EventHour(e: Visit): string
  {
    PadStart2(BeforeColon(EventTime(e)))
  }

  /** `hour.startsWith(eventHour.padStart(2, '0'))`. */
  predicate MatchesHour(slot: string, e: Visit)
  {
    StartsWith(slot, EventHour(e))
  }

  /** `event.repeat || 'none'`. */
  function RepeatOf(e: Visit): string
  {
    if e.repeat == "" then "none" else e.repeat
  }

  /** The `switch (repeat)` on the day difference between cell and event. A multiple of
      7 or 14 has remainder 0 under JavaScript's `%` and Dafny's alike. */
  predicate RepeatRule(repeat: string, cell: int, date: int)
  {
    var diff := cell - date;
    if repeat == "none" then cell == date
    else if repeat == "weekly" then diff % 7 == 0 && diff >= 0
    else if repeat == "biweekly" then diff % 14 == 0 && diff >= 0
    else if repeat == "monthly" then CivilFromDays(cell).day == CivilFromDays(date).day
    else false
  }

  /** The filter predicate of `getEventsForDayAndTime` for the cell on day number `cell`. */
  predicate EventMatches(e: Visit, cell: int, slot: string)
  {
    MatchesHour(slot, e) && Weekday(cell) == Weekday(e.date) && RepeatRule(RepeatOf(e), cell, e.date)
  }

  /** `getEventsForDayAndTime(day, hour)`: the matching visits of the flattened itinerary,
      in their order there. */
  function EventsForDayAndTime(itinerary: seq<Bucket>, today: int, day: string, slot: string): (r: seq<Visit>)
    ensures IsSubsequence(r, Flatten(itinerary))
    ensures forall e :: e in r <==> e in Flatten(itinerary) && EventMatches(e, DateOfCurrentWeekday(today, day), slot)
    ensures var cell := DateOfCurrentWeekday(today, day);
      forall e :: multiset(r)[e] == if EventMatches(e, cell, slot) then multiset(Flatten(itinerary))[e] else 0
  {
    Filter(Flatten(itinerary), (e: Visit) => EventMatches(e, DateOfCurrentWeekday(today, day), slot))
  }

  /** `handleClick`: the route of the account page the visit links to. */
  function ClickPath(e: Visit): (path: string)
    ensures |path| >= 10
    ensures path[..10] == (if e.prospect then "/prospect/" else "/customer/")
    ensures path[10..] == (match e.accountNumber case None => "undefined" case Some(n) => n)
  {
    "/" + (if e.prospect then "prospect" else "customer") + "/"
    + (match e.accountNumber case None => "undefined" case Some(n) => n)
  }

  /** The characters of row label `i`: one digit for 8 and 9, "1" and a digit after. */
  lemma HourLabelChars(i: int)
    requires 0 <= i < 11
    ensures Hours()[i] == NatToString(i + 8) + ":00"
    ensures i < 2 ==> NatToString(i + 8) == [DigitChar(i + 8)]
    ensures 2 <= i ==> NatToString(i + 8) == ['1', DigitChar(i - 2)]
  {
    if 2 <= i {
      assert (i + 8) / 10 == 1 && (i + 8) % 10 == i - 2;
      assert NatToString(1) == ['1'];
    }
  }

  /** The eleven labels, literally. */
  lemma HoursLabels()
    ensures Hours() == ["8:00", "9:00", "10:00", "11:00", "12:00", "13:00", "14:00", "15:00", "16:00", "17:00", "18:00"]
  {
    var hs := Hours();
    var labels := ["8:00", "9:00", "10:00", "11:00", "12:00", "13:00", "14:00", "15:00", "16:00", "17:00", "18:00"];
    forall i | 0 <= i < 11
      ensures hs[i] == labels[i]
    {
      HourLabelChars(i);
    }
  }

  /** A padded hour never has a colon in second place. */
  lemma PaddedHourShape(h: string)
    requires ':' !in h
    ensures |PadStart2(h)| >= 2 && PadStart2(h)[1] != ':'
    ensures |PadStart2(h)| >= 3 ==> PadStart2(h)[2] != ':'
    ensures |h| < 2 ==> PadStart2(h)[0] == '0'
  {
    if |h| >= 2 {
      assert h[1] in h;
      if |h| >= 3 { assert h[2] in h; }
    } else if |h| == 1 {
      assert h[0] in h;
    }
  }

  /** Which row shows an event: none of the rows "8:00" and "9:00", and the row of hour
      i + 8 exactly when the event's hour text is that number written with two digits. */
  lemma SlotMatch(i: int, e: Visit)
    requires 0 <= i < 11
    ensures MatchesHour(Hours()[i], e) <==> 2 <= i && BeforeColon(EventTime(e)) == NatToString(i + 8)
  {
    var slot := Hours()[i];
    var h := BeforeColon(EventTime(e));
    var p := PadStart2(h);
    var n := NatToString(i + 8);
    HourLabelChars(i);
    PaddedHourShape(h);
    if i < 2 {
      assert slot[1] == ':';
    } else {
      assert |n| == 2 && slot[2] == ':' && slot[..2] == n;
      if MatchesHour(slot, e) {
        assert |p| == 2;
        assert p == slot[..2];
      }
      if h == n {
        assert p == n;
      }
    }
  }

  /** Untimed events (shown as "00:00") and events at 08 or 09 appear in no row. */
  lemma UnshownEvents(e: Visit, i: int)
    requires 0 <= i < 11
    requires e.time == "" || BeforeColon(e.time) in ["00", "08", "09", "8", "9"]
    ensures !MatchesHour(Hours()[i], e)
  {
    SlotMatch(i, e);
    if e.time == "" {
      BeforeColonOf("00", ":00");
      assert "00" + ":00" == "00:00";
    }
    if 2 <= i {
      HourLabelChars(i);
    }
  }

  /** `k` steps of `width` days after `anchor`. */
  function Step(anchor: int, width: int, k: nat): int { anchor + width * k }

  /** When a visit occurs, stated independently of the filter: on its date only, on every
      7th or 14th day from its date on, or on days with its weekday and day of month. */
  ghost predicate OccursOn(e: Visit, n: int)
  {
    match RepeatOf(e)
    case "none" => n == e.date
    case "weekly" => exists k: nat :: Step(e.date, 7, k) == n
    case "biweekly" => exists k: nat :: Step(e.date, 14, k) == n
    case "monthly" => Weekday(n) == Weekday(e.date) && CivilFromDays(n).day == CivilFromDays(e.date).day
    case _ => false
  }

  lemma WeekdayPeriodic(a: int, k: int)
    ensures Weekday(a + 7 * k) == Weekday(a)
  {
    assert (a + 4 + 7 * k) % 7 == (a + 4) % 7;
  }

  /** The filter shows an event in a cell exactly when its hour matches the row and it
      occurs on the cell's date; in particular nothing repeats before its first date
      weekly or biweekly, and any other `repeat` value (such as "daily") never shows. */
  lemma MatchesIffOccurs(e: Visit, cell: int, slot: string)
    ensures EventMatches(e, cell, slot) <==> MatchesHour(slot, e) && OccursOn(e, cell)
  {
    if RepeatOf(e) == "weekly" {
      PeriodicIff(e.date, cell, 7);
    } else if RepeatOf(e) == "biweekly" {
      PeriodicIff(e.date, cell, 14);
    }
  }

  /** A day difference that is a non-negative multiple of 7 or 14 is a whole number of steps
      from the anchor, and such a day shares the anchor's weekday. */
  lemma PeriodicIff(date: int, cell: int, w: int)
    requires w == 7 || w == 14
    ensures (cell - date) % w == 0 && cell - date >= 0 <==> exists k: nat :: Step(date, w, k) == cell
    ensures (exists k: nat :: Step(date, w, k) == cell) ==> Weekday(cell) == Weekday(date)
  {
    var diff := cell - date;
    if diff % w == 0 && diff >= 0 {
      var k: nat := diff / w;
      assert Step(date, w, k) == cell;
    }
    if exists k: nat :: Step(date, w, k) == cell {
      var k: nat :| Step(date, w, k) == cell;
      assert diff == w * k;
      WeekdayPeriodic(date, (w / 7) * k);
    }
  }

  /** A monthly event also shows before its first date: in a common year, February 1 and
      March 1 share their weekday and their day of month. */
  lemma MonthlyShowsBeforeAnchor(y: int, e: Visit, slot: string)
    requires !IsLeapYear(y)
    requires e.repeat == "monthly" && e.date == DaysFromCivil(Civil(y, 3, 1))
    requires MatchesHour(slot, e)
    ensures var cell := DaysFromCivil(Civil(y, 2, 1)); cell < e.date && EventMatches(e, cell, slot)
  {
    var cell := DaysFromCivil(Civil(y, 2, 1));
    assert e.date == cell + 28;
    WeekdayPeriodic(cell, 4);
    DaysRoundTrip(Civil(y, 2, 1));
    DaysRoundTrip(Civil(y, 3, 1));
  }

  /** Visits that carry no `repeat` key, which is every visit ItineraryPage writes whatever
      its `recurrence`, show only on their own date. */
  lemma ItineraryVisitsOnTheirDate(itinerary: seq<Bucket>, today: int, day: string, slot: string)
    requires forall e :: e in Flatten(itinerary) ==> e.repeat == ""
    ensures forall e :: e in EventsForDayAndTime(itinerary, today, day, slot) <==>
      e in Flatten(itinerary) && MatchesHour(slot, e) && e.date == DateOfCurrentWeekday(today, day)
  {
  }
}
