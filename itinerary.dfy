/** The itinerary page: a weekday is selected, the day is laid out in half-hour slots,
    and visits are added, ticked off, edited, deleted and repeated at fixed day
    intervals that skip weekends. Dates are day numbers; "today" is a parameter and
    the browser's stored `visitData` entry is the field `stored`. */
module Itinerary {
  import opened Wrappers
  import opened Text
  import opened Lists
  import opened Dates
  import opened Records

  /** `isWeekend`: Sunday or Saturday. */
  predicate IsWeekend(d: int)
  {
    Weekday(d) == 0 || Weekday(d) == 6
  }

  /** `getNextWeekday`: step a day at a time until the date is not a weekend. */
  method GetNextWeekday(date: int) returns (d: int)
    ensures !IsWeekend(d)
    ensures date <= d <= date + 2
    ensures forall k :: date <= k < d ==> IsWeekend(k)
  {
    d := date;
    while IsWeekend(d)
      invariant date <= d <= date + 2
      invariant forall k :: date <= k < d ==> IsWeekend(k)
      invariant d == date + 2 ==> !IsWeekend(d)
      decreases date + 2 - d
    {
      if d + 1 == date + 2 {
        NoThreeWeekendDays(date);
      }
      d := d + 1;
    }
  }

  /** Of three consecutive days at most two are weekend days. */
  lemma NoThreeWeekendDays(a: int)
    requires IsWeekend(a) && IsWeekend(a + 1)
    ensures !IsWeekend(a + 2)
  {
    assert Weekday(a + 1) == (Weekday(a) + 1) % 7;
    assert Weekday(a + 2) == (Weekday(a) + 2) % 7;
  }

  /** The `frequencyDays` table; any other frequency has no interval. */
  function Interval(frequency: string): (r: Option<nat>)
    ensures r.None? <==> frequency !in {"weekly", "biweekly", "monthly", "bimonthly", "quarterly"}
    ensures r.Some? ==> r.value > 0
    ensures frequency == "weekly" ==> r == Some(7)
    ensures frequency == "biweekly" ==> r == Some(14)
    ensures frequency == "monthly" ==> r == Some(30)
    ensures frequency == "bimonthly" ==> r == Some(60)
    ensures frequency == "quarterly" ==> r == Some(90)
  {
    if frequency == "weekly" then Some(7)
    else if frequency == "biweekly" then Some(14)
    else if frequency == "monthly" then Some(30)
    else if frequency == "bimonthly" then Some(60)
    else if frequency == "quarterly" then Some(90)
    else None
  }

  /** The date `j` intervals after `start`. */
  function NthDate(start: int, interval: nat, j: nat): int { start + interval * j }

  /** The copies for steps 1..i of the loop in `addRecurringVisits`: weekend dates dropped,
      each copy not done. */
  function FutureVisits(visit: Visit, interval: nat, i: nat): seq<Visit>
  {
    if i == 0 then []
    else
      var d := NthDate(visit.date, interval, i);
      FutureVisits(visit, interval, i - 1) + (if IsWeekend(d) then [] else [visit.(date := d, done := false)])
  }

  /** What `addRecurringVisits(visit, frequency)` returns. */
  function RecurringVisits(visit: Visit, frequency: string): seq<Visit>
  {
    match Interval(frequency)
    case None => []
    case Some(interval) => FutureVisits(visit, interval, 12)
  }

  /** `addRecurringVisits`, the loop over i = 1..12. */
  method AddRecurringVisits(visit: Visit, frequency: string) returns (future: seq<Visit>)
    ensures future == RecurringVisits(visit, frequency)
  {
    var interval := Interval(frequency);
    if interval.None? {
      return [];
    }
    future := [];
    var i := 1;
    while i <= 12
      invariant 1 <= i <= 13
      invariant future == FutureVisits(visit, interval.value, i - 1)
    {
      var nextDate := visit.date + interval.value * i;
      if !IsWeekend(nextDate) {
        future := future + [visit.(date := nextDate, done := false)];
      }
      i := i + 1;
    }
  }

  /** The copies for steps 1..i: at most i of them, never on a weekend, each the visit
      with another date and `done` false, dated `j` intervals on for some 1 <= j <= i. */
  lemma {:induction false} FutureVisitsShape(visit: Visit, interval: nat, i: nat)
    ensures var r := FutureVisits(visit, interval, i);
      && |r| <= i
      && (forall k :: 0 <= k < |r| ==> !IsWeekend(r[k].date) && r[k] == visit.(date := r[k].date, done := false))
      && (forall k :: 0 <= k < |r| ==> exists j :: 1 <= j <= i && r[k].date == NthDate(visit.date, interval, j))
  {
    if i > 0 {
      FutureVisitsShape(visit, interval, i - 1);
      var p := FutureVisits(visit, interval, i - 1);
      var r := FutureVisits(visit, interval, i);
      forall k | 0 <= k < |r|
        ensures exists j :: 1 <= j <= i && r[k].date == NthDate(visit.date, interval, j)
      {
        if k < |p| {
          assert r[k] == p[k];
        } else {
          assert r[k].date == NthDate(visit.date, interval, i);
        }
      }
    }
  }

  /** The copies for steps 1..i are in strictly increasing date order, none after step i. */
  lemma {:induction false} FutureVisitsAscending(visit: Visit, interval: nat, i: nat)
    requires interval > 0
    ensures forall k :: 0 <= k < |FutureVisits(visit, interval, i)| ==>
      FutureVisits(visit, interval, i)[k].date <= NthDate(visit.date, interval, i)
    ensures forall a, b :: 0 <= a < b < |FutureVisits(visit, interval, i)| ==>
      FutureVisits(visit, interval, i)[a].date < FutureVisits(visit, interval, i)[b].date
  {
    if i > 0 {
      FutureVisitsAscending(visit, interval, i - 1);
      var p := FutureVisits(visit, interval, i - 1);
      var r := FutureVisits(visit, interval, i);
      var d := NthDate(visit.date, interval, i);
      assert NthDate(visit.date, interval, i - 1) < d by {
        assert d - NthDate(visit.date, interval, i - 1) == interval;
      }
      assert r == p + (if IsWeekend(d) then [] else [visit.(date := d, done := false)]);
      forall k | 0 <= k < |r|
        ensures r[k].date <= d
        ensures k < |p| ==> r[k] == p[k] && r[k].date < d
      {
        if k < |p| {
          assert r[k] == p[k];
          assert p[k].date <= NthDate(visit.date, interval, i - 1);
        }
      }
    }
  }

  /** No weekday step among 1..i is missing from the copies. */
  lemma {:induction false} FutureVisitsComplete(visit: Visit, interval: nat, i: nat)
    ensures forall j :: 1 <= j <= i && !IsWeekend(NthDate(visit.date, interval, j)) ==>
      visit.(date := NthDate(visit.date, interval, j), done := false) in FutureVisits(visit, interval, i)
  {
    if i > 0 {
      FutureVisitsComplete(visit, interval, i - 1);
    }
  }

  /** `addRecurringVisits`: nothing for an unknown frequency; otherwise at most twelve
      visits on the weekdays among start + interval * j for j in 1..12, all of them, in
      increasing order, each a copy of the visit not done. "monthly" means every 30 days. */
  lemma RecurringVisitsFacts(visit: Visit, frequency: string)
    ensures Interval(frequency).None? ==> RecurringVisits(visit, frequency) == []
    ensures Interval(frequency) == Some(30) <==> frequency == "monthly"
    ensures var r := RecurringVisits(visit, frequency);
      && |r| <= 12
      && (forall k :: 0 <= k < |r| ==> !IsWeekend(r[k].date) && r[k] == visit.(date := r[k].date, done := false))
      && (forall a, b :: 0 <= a < b < |r| ==> r[a].date < r[b].date)
      && (Interval(frequency).Some? ==>
            && (forall k :: 0 <= k < |r| ==>
                  exists j :: 1 <= j <= 12 && r[k].date == NthDate(visit.date, Interval(frequency).value, j))
            && (forall j :: 1 <= j <= 12 && !IsWeekend(NthDate(visit.date, Interval(frequency).value, j)) ==>
                  visit.(date := NthDate(visit.date, Interval(frequency).value, j), done := false) in r))
  {
    if Interval(frequency).Some? {
      FutureVisitsShape(visit, Interval(frequency).value, 12);
      FutureVisitsAscending(visit, Interval(frequency).value, 12);
      FutureVisitsComplete(visit, Interval(frequency).value, 12);
    }
  }

  /** `to12HourFormat`. `None` from `parseInt` is NaN: it compares false, so the suffix is
      "AM" and the hour shows as "NaN"; a time without a colon has minute "undefined". */
  function To12HourFormat(time: string): string
  {
    var minute := match SecondPiece(time) case None => "undefined" case Some(m) => m;
    match ParseIntPrefix(BeforeColon(time))
    case None => "NaN:" + minute + " AM"
    case Some(h) => NatToString(Display12(h)) + ":" + minute + " " + (if h >= 12 then "PM" else "AM")
  }

  /** The 24-hour clock hour that a 12-hour display hour and suffix stand for. */
  function From12Hour(display: nat, pm: bool): nat
  {
    display % 12 + (if pm then 12 else 0)
  }

  /** A zero-padded hour below 24 and a minute text come out as the 12-hour display hour,
      the minute text unchanged and the suffix. */
  lemma To12HourOfSlot(h: nat, minute: string)
    requires h < 24 && ':' !in minute
    ensures To12HourFormat(PadStart2(NatToString(h)) + ":" + minute)
         == NatToString(Display12(h)) + ":" + minute + " " + (if h >= 12 then "PM" else "AM")
  {
    var hh := PadStart2(NatToString(h));
    var t := hh + ":" + minute;
    ParsePaddedHour(h);
    SplitOfJoin(hh, minute);
  }

  /** The display hour `to12HourFormat` computes from a parsed hour. */
  function Display12(h: nat): nat
  {
    if h % 12 == 0 then 12 else h % 12
  }

  /** The display hour is in 1..12, and with the suffix it gives the hour back. */
  lemma Display12Inverse(h: nat)
    requires h < 24
    ensures 1 <= Display12(h) <= 12
    ensures From12Hour(Display12(h), h >= 12) == h
  {
  }

  /** `parseInt` reads back a two-digit hour, leading zero included. */
  lemma ParsePaddedHour(h: nat)
    requires h < 100
    ensures ':' !in PadStart2(NatToString(h))
    ensures ParseIntPrefix(PadStart2(NatToString(h))) == Some(h)
  {
    var hh := PadStart2(NatToString(h));
    Pad2Digits(h);
    assert hh == [DigitChar(h / 10), DigitChar(h % 10)];
    DigitPrefixOfDigits(hh, []);
    assert hh + [] == hh;
    var c := [DigitChar(h / 10)];
    assert hh[..1] == c;
    assert c[..0] == [];
    assert DigitsValue(c) == h / 10;
    assert DigitsValue(hh) == 10 * (h / 10) + h % 10;
  }

  /** The slot labels: from 07:00 every half hour, 22 of them. */
  function TimeSlots(): (slots: seq<string>)
    ensures |slots| == 22
  {
    seq(22, i requires 0 <= i < 22 => PadStart2(NatToString(7 + i / 2)) + ":" + (if i % 2 == 0 then "00" else "30"))
  }

  /** The five characters of slot `i`: two hour digits, a colon, "00" or "30". */
  function SlotText(i: int): string
    requires 0 <= i < 22
  {
    var h := 7 + i / 2;
    [DigitChar(h / 10), DigitChar(h % 10), ':', if i % 2 == 0 then '0' else '3', '0']
  }

  lemma SlotChars(i: int)
    requires 0 <= i < 22
    ensures TimeSlots()[i] == SlotText(i)
  {
    Pad2Digits(7 + i / 2);
  }

  /** Two strings that agree before position `p` and differ upwards there are in order. */
  lemma {:induction false} LexLtAt(a: string, b: string, p: nat)
    requires p < |a| && p < |b| && a[p] < b[p]
    requires forall q :: 0 <= q < p ==> a[q] == b[q]
    ensures LexLt(a, b)
  {
    if p > 0 {
      assert a[0] == b[0];
      LexLtAt(a[1..], b[1..], p - 1);
    }
    assert a != b by {
      assert a[p] != b[p];
    }
  }

  lemma SlotTextOrder(i: int, j: int)
    requires 0 <= i < j < 22
    ensures LexLt(SlotText(i), SlotText(j))
  {
    var a := SlotText(i);
    var b := SlotText(j);
    var hi := 7 + i / 2;
    var hj := 7 + j / 2;
    assert a[0] == DigitChar(hi / 10) && b[0] == DigitChar(hj / 10);
    assert a[1] == DigitChar(hi % 10) && b[1] == DigitChar(hj % 10);
    if hi / 10 < hj / 10 {
      LexLtAt(a, b, 0);
    } else if hi < hj {
      assert hi / 10 == hj / 10 && hi % 10 < hj % 10;
      LexLtAt(a, b, 1);
    } else {
      assert hi == hj && i % 2 == 0 && j % 2 == 1;
      assert a[3] == '0' && b[3] == '3';
      LexLtAt(a, b, 3);
    }
  }

  lemma SlotOrder(i: int, j: int)
    requires 0 <= i < j < 22
    ensures LexLt(TimeSlots()[i], TimeSlots()[j])
  {
    SlotChars(i);
    SlotChars(j);
    SlotTextOrder(i, j);
  }

  /** `timeSlots` runs from "07:00" to "17:30" in strictly ascending text order, which is
      also the order `localeCompare` sorts the visits' times in. */
  lemma TimeSlotsFacts()
    ensures TimeSlots()[0] == "07:00" && TimeSlots()[21] == "17:30"
    ensures forall i, j :: 0 <= i < j < 22 ==> LexLt(TimeSlots()[i], TimeSlots()[j])
  {
    SlotChars(0);
    SlotChars(21);
    assert SlotText(0) == "07:00" && SlotText(21) == "17:30";
    forall i, j | 0 <= i < j < 22
      ensures LexLt(TimeSlots()[i], TimeSlots()[j])
    {
      SlotOrder(i, j);
    }
  }

  /** The sort key of the day's visits. */
  function TimeOf(v: Visit): string { v.time }

  /** `visitsForSelectedDate`: the visits of that date and no others, ordered by time, and
      visits with the same time in their order in `visitData` (`sort` is stable). */
  function VisitsOn(visits: seq<Visit>, date: int): (r: seq<Visit>)
    ensures forall v :: v in r <==> v in visits && v.date == date
    ensures multiset(r) == multiset(OnDate(visits, date))
    ensures forall i, j :: 0 <= i < j < |r| ==> LexLe(r[i].time, r[j].time)
    ensures forall time :: WithKey(r, TimeOf, time) == WithKey(OnDate(visits, date), TimeOf, time)
  {
    var r := SortBy(OnDate(visits, date), TimeOf, true);
    SameMembers(r, OnDate(visits, date));
    assert forall i, j :: 0 <= i < j < |r| ==> Before(TimeOf, true, r[i], r[j]);
    r
  }

  /** `visitsForSelectedDate.find(v => v.time === slot)`: the visit a slot shows. */
  function SlotVisit(dayVisits: seq<Visit>, slot: string): (r: Option<Visit>)
    ensures r.None? <==> forall v :: v in dayVisits ==> v.time != slot
    ensures r.Some? ==> r.value in dayVisits && r.value.time == slot
  {
    if dayVisits == [] then None
    else if dayVisits[0].time == slot then Some(dayVisits[0])
    else SlotVisit(dayVisits[1..], slot)
  }

  /** `visitData.findIndex(v => v.time === slot && v.date === selectedDate)`: the index the
      slot's edit, toggle and delete controls pass to the handlers. */
  function SlotIndex(visits: seq<Visit>, slot: string, date: int): (k: int)
    ensures -1 <= k < |visits|
    ensures k == -1 <==> forall v :: v in visits ==> !(v.time == slot && v.date == date)
    ensures k >= 0 ==> visits[k].time == slot && visits[k].date == date
    ensures k >= 0 ==> forall j :: 0 <= j < k ==> !(visits[j].time == slot && visits[j].date == date)
  {
    if visits == [] then -1
    else if visits[0].time == slot && visits[0].date == date then 0
    else
      var k := SlotIndex(visits[1..], slot, date);
      if k == -1 then -1 else k + 1
  }

  /** `find` returns the first visit with the slot's time. */
  lemma {:induction false} SlotVisitFirst(dayVisits: seq<Visit>, slot: string)
    ensures SlotVisit(dayVisits, slot)
      == if WithKey(dayVisits, TimeOf, slot) == [] then None else Some(WithKey(dayVisits, TimeOf, slot)[0])
  {
    if dayVisits != [] {
      SlotVisitFirst(dayVisits[1..], slot);
    }
  }

  /** The stored visits of that date at that time, in stored order. */
  function AtSlot(visits: seq<Visit>, date: int, slot: string): seq<Visit>
  {
    if visits == [] then []
    else (if visits[0].date == date && visits[0].time == slot then [visits[0]] else []) + AtSlot(visits[1..], date, slot)
  }

  /** `findIndex` finds nothing exactly when no stored visit is at that date and time. */
  lemma {:induction false} SlotIndexNone(visits: seq<Visit>, slot: string, date: int)
    ensures SlotIndex(visits, slot, date) == -1 <==> AtSlot(visits, date, slot) == []
  {
    if visits != [] && !(visits[0].date == date && visits[0].time == slot) {
      SlotIndexNone(visits[1..], slot, date);
      assert AtSlot(visits, date, slot) == [] + AtSlot(visits[1..], date, slot);
    }
  }

  /** What `findIndex` finds is the first stored visit at that date and time. */
  lemma {:induction false} SlotIndexAtSlot(visits: seq<Visit>, slot: string, date: int)
    requires SlotIndex(visits, slot, date) >= 0
    ensures AtSlot(visits, date, slot) != [] && AtSlot(visits, date, slot)[0] == visits[SlotIndex(visits, slot, date)]
  {
    if !(visits[0].date == date && visits[0].time == slot) {
      var rest := visits[1..];
      var k := SlotIndex(rest, slot, date);
      assert k >= 0 && SlotIndex(visits, slot, date) == k + 1;
      SlotIndexAtSlot(rest, slot, date);
      assert AtSlot(visits, date, slot) == [] + AtSlot(rest, date, slot);
      assert visits[k + 1] == rest[k];
    }
  }

  lemma {:induction false} AtSlotOfDay(visits: seq<Visit>, date: int, slot: string)
    ensures AtSlot(visits, date, slot) == WithKey(OnDate(visits, date), TimeOf, slot)
  {
    if visits != [] {
      var v, rest := visits[0], visits[1..];
      AtSlotOfDay(rest, date, slot);
      OnDateCons(visits, date);
      if v.date == date {
        WithKeyCons(v, OnDate(rest, date), TimeOf, slot);
      } else {
        assert OnDate(visits, date) == OnDate(rest, date);
      }
    }
  }

  /** The visit at `findIndex` is the first visit of the date with the slot's time. */
  lemma SlotIndexFirst(visits: seq<Visit>, slot: string, date: int)
    ensures SlotIndex(visits, slot, date) == -1 <==> WithKey(OnDate(visits, date), TimeOf, slot) == []
    ensures SlotIndex(visits, slot, date) >= 0 ==>
      WithKey(OnDate(visits, date), TimeOf, slot)[0] == visits[SlotIndex(visits, slot, date)]
  {
    SlotIndexNone(visits, slot, date);
    if SlotIndex(visits, slot, date) >= 0 {
      SlotIndexAtSlot(visits, slot, date);
    }
    AtSlotOfDay(visits, date, slot);
  }

  /** The visit a slot shows is the visit at the index its controls act on, and a slot shows
      a visit exactly when that index exists: the time sort keeps equal times in list order,
      so `find` on the sorted list and `findIndex` on `visitData` pick the same visit. */
  lemma SlotShowsIndexedVisit(visits: seq<Visit>, date: int, slot: string)
    ensures SlotVisit(VisitsOn(visits, date), slot).Some? <==> SlotIndex(visits, slot, date) >= 0
    ensures SlotIndex(visits, slot, date) >= 0 ==>
      SlotVisit(VisitsOn(visits, date), slot) == Some(visits[SlotIndex(visits, slot, date)])
  {
    SlotVisitFirst(VisitsOn(visits, date), slot);
    SlotIndexFirst(visits, slot, date);
  }

  /** The visit `handleAddVisit` appends. */
  function NewVisit(time: string, date: int): (v: Visit)
    ensures v.name == "" && v.time == time && v.date == date && !v.done
    ensures v.recurrence == "none" && v.kind == "contact"
    ensures v.repeat == "" && !v.prospect && v.accountNumber.None?
  {
    Visit("", time, date, false, "none", "contact", "", false, None)
  }

  /** The keys `handleChange` is called with. */
  datatype VisitField = Kind | VisitName | Recurrence

  /** `visit[field] = value`. */
  function SetVisitField(v: Visit, f: VisitField, value: string): (r: Visit)
    ensures f == Kind ==> r == v.(kind := value)
    ensures f == VisitName ==> r == v.(name := value)
    ensures f == Recurrence ==> r == v.(recurrence := value)
  {
    match f
    case Kind => v.(kind := value)
    case VisitName => v.(name := value)
    case Recurrence => v.(recurrence := value)
  }

  /** The visit list after `handleChange(index, field, value)`: the field set at the index,
      and for a recurrence other than "none" the recurring copies appended. */
  function Changed(visits: seq<Visit>, index: nat, f: VisitField, value: string): (r: seq<Visit>)
    requires index < |visits|
    ensures |visits| <= |r|
    ensures r[index] == SetVisitField(visits[index], f, value)
    ensures forall k :: 0 <= k < |visits| && k != index ==> r[k] == visits[k]
    ensures !(f == Recurrence && value != "none") ==> |r| == |visits|
    ensures f == Recurrence && value != "none" ==> r[|visits|..] == RecurringVisits(r[index], value)
  {
    var updated := visits[index := SetVisitField(visits[index], f, value)];
    if f == Recurrence && value != "none" then updated + RecurringVisits(updated[index], value) else updated
  }

  class ItineraryPage {
    var visitData: seq<Visit>
    var selectedDate: int
    var editMode: bool
    /** The stored `visitData` entry; `None` when nothing was saved. */
    var stored: Option<seq<Visit>>

    /** The selected date is never a weekend. */
    predicate Valid()
      reads this
    {
      !IsWeekend(selectedDate)
    }

    /** The initial state: today, or the next weekday when today is a weekend; the saved
        visits, or none. */
    constructor(today: int, saved: Option<seq<Visit>>)
      ensures Valid()
      ensures today <= selectedDate <= today + 2 && forall k :: today <= k < selectedDate ==> IsWeekend(k)
      ensures visitData == (match saved case None => [] case Some(vs) => vs)
      ensures stored == saved && !editMode
    {
      var date := today;
      if IsWeekend(today) {
        date := GetNextWeekday(today);
      }
      selectedDate := date;
      visitData := match saved case None => [] case Some(vs) => vs;
      stored := saved;
      editMode := false;
    }

    /** `handleSave`. */
    method HandleSave()
      modifies this
      ensures stored == Some(visitData)
      ensures visitData == old(visitData) && selectedDate == old(selectedDate) && editMode == old(editMode)
    {
      stored := Some(visitData);
    }

    /** `handleToggleDone(index)`: only that visit's `done` flips. */
    method HandleToggleDone(index: nat)
      requires index < |visitData|
      modifies this
      ensures |visitData| == |old(visitData)|
      ensures visitData[index] == old(visitData[index]).(done := !old(visitData[index].done))
      ensures forall k :: 0 <= k < |visitData| && k != index ==> visitData[k] == old(visitData[k])
      ensures selectedDate == old(selectedDate) && editMode == old(editMode) && stored == old(stored)
    {
      var updated := visitData;
      updated := updated[index := updated[index].(done := !updated[index].done)];
      visitData := updated;
    }

    /** `handleAddVisit(time)`: one new visit on the selected date at the end. */
    method HandleAddVisit(time: string)
      modifies this
      ensures visitData == old(visitData) + [NewVisit(time, old(selectedDate))]
      ensures selectedDate == old(selectedDate) && editMode == old(editMode) && stored == old(stored)
    {
      visitData := visitData + [NewVisit(time, selectedDate)];
    }

    /** `handleDeleteVisit(index)`: `splice(index, 1)` on a copy. */
    method HandleDeleteVisit(index: int)
      modifies this
      ensures visitData == Splice1(old(visitData), index)
      ensures selectedDate == old(selectedDate) && editMode == old(editMode) && stored == old(stored)
    {
      visitData := Splice1(visitData, index);
    }

    /** `handleChange(index, field, value)`; a new recurrence is also saved at once. */
    method HandleChange(index: nat, f: VisitField, value: string)
      requires index < |visitData|
      modifies this
      ensures visitData == Changed(old(visitData), index, f, value)
      ensures stored == (if f == Recurrence && value != "none" then Some(visitData) else old(stored))
      ensures selectedDate == old(selectedDate) && editMode == old(editMode)
    {
      var updated := visitData[index := SetVisitField(visitData[index], f, value)];
      if f == Recurrence && value != "none" {
        var recurring := AddRecurringVisits(updated[index], value);
        visitData := updated + recurring;
        stored := Some(visitData);
      } else {
        visitData := updated;
      }
    }

    /** The date input: a weekend date is refused. */
    method ChangeSelectedDate(date: int)
      requires Valid()
      modifies this
      ensures Valid()
      ensures selectedDate == (if IsWeekend(date) then old(selectedDate) else date)
      ensures visitData == old(visitData) && editMode == old(editMode) && stored == old(stored)
    {
      if !IsWeekend(date) {
        selectedDate := date;
      }
    }

    /** The Edit / Done Editing button. */
    method ToggleEditMode()
      modifies this
      ensures editMode == !old(editMode)
      ensures visitData == old(visitData) && selectedDate == old(selectedDate) && stored == old(stored)
    {
      editMode := !editMode;
    }

    /** `visitsForSelectedDate`. */
    function VisitsForSelectedDate(): (r: seq<Visit>)
      reads this
      ensures forall v :: v in r <==> v in visitData && v.date == selectedDate
      ensures multiset(r) == multiset(OnDate(visitData, selectedDate))
      ensures forall i, j :: 0 <= i < j < |r| ==> LexLe(r[i].time, r[j].time)
      ensures forall time :: WithKey(r, TimeOf, time) == WithKey(OnDate(visitData, selectedDate), TimeOf, time)
    {
      VisitsOn(visitData, selectedDate)
    }
  }
}
