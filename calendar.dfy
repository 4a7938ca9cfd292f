/** The calendar page: a view switch, an "add event" form, and the events the form
    materialises, one per occurrence for the first twelve occurrences of a repeating
    event. A date is a day number; the form's empty date is `None`. */
module Calendar {
  import opened Wrappers
  import opened Dates
  import opened Records

  /** The form state `eventData`. */
  datatype EventForm = EventForm(
    name: string,
    notes: string,
    location: string,
    color: string,
    repeat: string,
    date: Option<int>,
    time: string)

  /** The form as it starts and as `addEvent` resets it. */
  const DefaultForm := EventForm("", "", "", "#3498db", "none", None, "08:00")

  /** The text inputs of the form; the date input is handled apart since its value is a date. */
  datatype TextField = Name | Notes | Location | Color | Repeat | Time

  function FormGet(form: EventForm, f: TextField): string
  {
    match f
    case Name => form.name
    case Notes => form.notes
    case Location => form.location
    case Color => form.color
    case Repeat => form.repeat
    case Time => form.time
  }

  /** `{ ...prev, [name]: value }` for a text input. */
  function SetFormText(form: EventForm, f: TextField, v: string): (r: EventForm)
    ensures FormGet(r, f) == v
    ensures forall g :: g != f ==> FormGet(r, g) == FormGet(form, g)
    ensures r.date == form.date
  {
    match f
    case Name => form.(name := v)
    case Notes => form.(notes := v)
    case Location => form.(location := v)
    case Color => form.(color := v)
    case Repeat => form.(repeat := v)
    case Time => form.(time := v)
  }

  /** An event of `customEvents`: the form's fields, an id and a concrete date. */
  datatype CalendarEvent = CalendarEvent(
    id: int,
    date: int,
    name: string,
    notes: string,
    location: string,
    color: string,
    repeat: string,
    time: string)

  /** The event keeps every field of the form other than `id` and `date`. */
  predicate KeepsForm(ev: CalendarEvent, form: EventForm)
  {
    ev.name == form.name && ev.notes == form.notes && ev.location == form.location
    && ev.color == form.color && ev.repeat == form.repeat && ev.time == form.time
  }

  /** How many events one `addEvent` makes. */
  function CopyCount(repeat: string): nat
  {
    if repeat == "none" then 1 else 12
  }

  /** The date of copy `i`: i days, weeks or fortnights after the anchor, the anchor's
      date `i` months on (with `setMonth`'s overflow), or the anchor itself. */
  function CopyDate(repeat: string, anchor: int, i: nat): int
  {
    if repeat == "weekly" then anchor + 7 * i
    else if repeat == "biweekly" then anchor + 14 * i
    else if repeat == "monthly" then ShiftMonths(anchor, i)
    else if repeat == "daily" then anchor + i
    else anchor
  }

  /** The loop of `addEvent`: the events it pushes into `addedEvents`, in loop order. */
  method MaterialiseCopies(form: EventForm, anchor: int, now: int) returns (added: seq<CalendarEvent>)
    ensures |added| == CopyCount(form.repeat)
    ensures forall i :: 0 <= i < |added| ==>
      && added[i].id == now + i
      && added[i].date == CopyDate(form.repeat, anchor, i)
      && KeepsForm(added[i], form)
    ensures forall i, j :: 0 <= i < j < |added| ==> added[i].id < added[j].id
  {
    added := [];
    var i := 0;
    while i < (if form.repeat == "none" then 1 else 12)
      invariant 0 <= i <= CopyCount(form.repeat)
      invariant |added| == i
      invariant forall j :: 0 <= j < i ==>
        && added[j].id == now + j
        && added[j].date == CopyDate(form.repeat, anchor, j)
        && KeepsForm(added[j], form)
    {
      var newDate := anchor;
      if form.repeat == "weekly" {
        newDate := anchor + 7 * i;
      } else if form.repeat == "biweekly" {
        newDate := anchor + 14 * i;
      } else if form.repeat == "monthly" {
        newDate := ShiftMonths(anchor, i);
      } else if form.repeat == "daily" {
        newDate := anchor + i;
      }
      assert newDate == CopyDate(form.repeat, anchor, i);
      var ev := CalendarEvent(now + i, newDate, form.name, form.notes, form.location,
                              form.color, form.repeat, form.time);
      assert KeepsForm(ev, form);
      added := added + [ev];
      if form.repeat == "none" {
        break;
      }
      i := i + 1;
    }
  }

  /** The first copy is always on the anchor date; for "monthly" this needs `setMonth`
      by zero months to leave a date alone. */
  lemma FirstCopyOnAnchor(repeat: string, anchor: int)
    ensures CopyDate(repeat, anchor, 0) == anchor
  {
    if repeat == "monthly" {
      ShiftMonthsZero(anchor);
    }
  }

  /** Monthly copy `i` is the anchor's civil date `i` months on; when that month has the
      anchor's day it is exactly that day, otherwise the day rolls into the next month. */
  lemma MonthlyCopy(anchor: int, i: nat)
    ensures var c := CivilFromDays(anchor);
            var t := ShiftedMonth(c, i);
            && CivilFromDays(CopyDate("monthly", anchor, i)) == Normalize(t)
            && (c.day <= DaysInMonth(t.year, t.month) ==> CivilFromDays(CopyDate("monthly", anchor, i)) == t)
  {
    ShiftMonthsCivil(anchor, i);
  }

  /** Daily, weekly and biweekly copies are evenly spaced, later copies later. */
  lemma PeriodicCopiesAscend(repeat: string, anchor: int, i: nat, j: nat)
    requires repeat in ["daily", "weekly", "biweekly"]
    requires i < j
    ensures CopyDate(repeat, anchor, i) < CopyDate(repeat, anchor, j)
    ensures CopyDate(repeat, anchor, j) - CopyDate(repeat, anchor, i) ==
      (j - i) * (if repeat == "daily" then 1 else if repeat == "weekly" then 7 else 14)
  {
  }

  /** What `renderView` returns. WeekView is given only the itinerary; without one, its
      first cell's `Object.values(undefined)` throws a TypeError and nothing is shown. */
  datatype Rendered = DayView | MonthView | WeekView(itinerary: seq<Bucket>) | WeekViewTypeError

  class CalendarPage {
    var view: string
    var showAddModal: bool
    var customEvents: seq<CalendarEvent>
    var eventData: EventForm

    constructor()
      ensures view == "week" && !showAddModal && customEvents == [] && eventData == DefaultForm
    {
      view := "week";
      showAddModal := false;
      customEvents := [];
      eventData := DefaultForm;
    }

    /** The Day, Week and Month buttons. */
    method SetView(v: string)
      modifies this
      ensures view == v
      ensures showAddModal == old(showAddModal) && customEvents == old(customEvents) && eventData == old(eventData)
    {
      view := v;
    }

    /** The "+ Event" button opens the form, Cancel closes it; neither touches the form. */
    method SetShowAddModal(show: bool)
      modifies this
      ensures showAddModal == show
      ensures view == old(view) && customEvents == old(customEvents) && eventData == old(eventData)
    {
      showAddModal := show;
    }

    /** `handleInputChange` for a text input: only that field of the form changes. */
    method HandleInputChange(f: TextField, value: string)
      modifies this
      ensures eventData == SetFormText(old(eventData), f, value)
      ensures view == old(view) && showAddModal == old(showAddModal) && customEvents == old(customEvents)
    {
      eventData := SetFormText(eventData, f, value);
    }

    /** `handleInputChange` for the date input; `None` is the cleared input. */
    method HandleDateChange(date: Option<int>)
      modifies this
      ensures eventData == old(eventData).(date := date)
      ensures view == old(view) && showAddModal == old(showAddModal) && customEvents == old(customEvents)
    {
      eventData := eventData.(date := date);
    }

    /** A click on a colour dot. */
    method PickColor(color: string)
      modifies this
      ensures eventData == SetFormText(old(eventData), Color, color)
      ensures view == old(view) && showAddModal == old(showAddModal) && customEvents == old(customEvents)
    {
      eventData := SetFormText(eventData, Color, color);
    }

    /** `addEvent`, with `Date.now()` as `now`. Without a date the first `toISOString`
        throws and nothing changes. Otherwise the copies are appended after the existing
        events, the form closes and is reset. */
    method AddEvent(now: int)
      modifies this
      ensures old(eventData.date).None? ==>
        view == old(view) && showAddModal == old(showAddModal)
        && customEvents == old(customEvents) && eventData == old(eventData)
      ensures old(eventData.date).Some? ==>
        var n := |old(customEvents)|;
        && |customEvents| == n + CopyCount(old(eventData.repeat))
        && customEvents[..n] == old(customEvents)
        && (forall i :: 0 <= i < CopyCount(old(eventData.repeat)) ==>
              && customEvents[n + i].id == now + i
              && customEvents[n + i].date == CopyDate(old(eventData.repeat), old(eventData.date.value), i)
              && KeepsForm(customEvents[n + i], old(eventData)))
        && !showAddModal && eventData == DefaultForm && view == old(view)
    {
      if eventData.date.None? {
        return;
      }
      var added := MaterialiseCopies(eventData, eventData.date.value, now);
      customEvents := customEvents + added;
      showAddModal := false;
      eventData := DefaultForm;
    }

    /** `renderView`: "day" and "month" show placeholders, any other view the week grid,
        which reads the itinerary and ignores `customEvents`. `None` is the itinerary prop
        left out, as the application's route to this page does. */
    function RenderView(itinerary: Option<seq<Bucket>>): (r: Rendered)
      reads this
      ensures r.DayView? <==> view == "day"
      ensures r.MonthView? <==> view == "month"
      ensures r.WeekView? <==> view != "day" && view != "month" && itinerary.Some?
      ensures r.WeekView? ==> r.itinerary == itinerary.value
      ensures r.WeekViewTypeError? <==> view != "day" && view != "month" && itinerary.None?
    {
      if view == "day" then DayView
      else if view == "month" then MonthView
      else if itinerary.None? then WeekViewTypeError
      else WeekView(itinerary.value)
    }
  }
}
