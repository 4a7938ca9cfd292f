# Crumb CRM — verified model of the scheduling and record-list core

Crumb is a small React CRM for a sales representative. It keeps:

- a list of customer accounts and a list of prospects, each with contacts, delivery days and notes;
- a daily itinerary of visits, stored in the browser;
- a calendar page with a week grid and its own "add event" form.

This project models the parts of it that compute something:

- **Week grid** (`weekview.dfy`). The week grid has seven weekday columns for the current week and eleven hour rows. For each cell it selects the visits that occur on that date under their `repeat` rule and whose hour matches the row.
- **Calendar page** (`calendar.dfy`). The calendar page switches views and holds an "add event" form. From the form it creates one event, or twelve events when the form's repeat is set. A monthly repeat uses the `setMonth` overflow rules.
- **Itinerary page** (`itinerary.dfy`).
  - The selected date always skips weekends.
  - There are half-hour slots from 07:00 to 17:30, and a 12-hour clock display.
  - Visits can be added, ticked off, edited and deleted.
  - Recurring copies of a visit are made at fixed day intervals, dropping weekend dates.
- **Application shell** (`app.dfy`).
  - Note handlers for customers and prospects: append, replace at an index, and `splice` delete.
  - Lookup of a record by the text of its id in the route.
  - The itinerary object built by grouping the stored visits by date.
- **Customers and prospects pages** (`customers.dfy`, `prospects.dfy`, and the shared list updates in `records.dfy`).
  - Editing fields and contacts, adding contacts, and toggling delivery days (edit mode only).
  - Adding and deleting records.
  - The searched, sorted list the page shows.

A date is a day number counted from 1970-01-01; `dates.dfy` converts it to and from civil dates.

The JavaScript built-ins the code relies on are written out in `text.dfy` and `lists.dfy`:

- `String(n)`, `parseInt`, `padStart`, `startsWith`, `includes`, `toLowerCase` and `split(':')`;
- `localeCompare`, modelled as character order;
- `filter`, `splice(k, 1)` with negative `k`, and `sort`.

A few behaviours of the code are kept as they are:

- **Week grid and itinerary disagree.** The week grid reads a visit's `repeat` key, but the visits the itinerary page makes carry `recurrence`. Such a visit, given to the grid, shows only on its own date (`ItineraryVisitsOnTheirDate`). As the application is wired, no visit reaches the grid at all (see the last item).
- **Week grid and calendar events.** The calendar page passes its events to the week grid as `customEvents` (src/CalendarPage.jsx:89). The grid reads only `itinerary` (src/WeekView.jsx:9), so an event added on the calendar page never shows.
- **Unreachable rows.** The row labels are not zero-padded ("8:00") while the event hour is ("08"). No event ever shows in the 8:00 and 9:00 rows (`SlotMatch`, `UnshownEvents`).
- **Monthly events in the grid.** A monthly event must share both the weekday and the day of the month with the cell. It can also show before its own date (`MonthlyShowsBeforeAnchor`).
- **Calendar and itinerary "monthly" differ.** On the calendar it means the same day in later months, rolling over as `setMonth` does (`MonthlyCopy`, `Jan31PlusOneMonth`). In the itinerary it means every 30 days.
- **Calendar without an itinerary.** The application routes to the calendar page without an `itinerary` prop (src/App.jsx:161), and the page starts in the week view (src/CalendarPage.jsx:23).
  - The grid's first cell calls `Object.values(undefined)` (src/WeekView.jsx:20), which throws a TypeError, so the calendar page does not render. `RenderView` takes the prop as an `Option` and gives `WeekViewTypeError` for `None` in the week view.
  - The grouped itinerary the application shell builds (src/App.jsx:131-142) is passed to no page, and the itinerary page is given `[]` (src/App.jsx:162). `GroupByDate` models that computation on its own.

## Model

| member | source | states |
|---|---|---|
| Dates.Weekday | src/WeekView.jsx:27 | `getDay()` of a day number is in 0..6 (0 is Sunday) |
| Dates.CivilRoundTrip | src/WeekView.jsx:41 | every day number has a valid civil date (year, month, day) that converts back to it |
| Dates.DaysRoundTrip | src/WeekView.jsx:41 | a valid civil date is recovered from its day number, so `getDate()` is well defined |
| Dates.ShiftMonthsCivil | src/CalendarPage.jsx:56 | `setMonth(getMonth() + k)` gives the date `k` months on, with a day past the month's end rolled into the next month |
| Dates.ShiftMonthsZero | src/CalendarPage.jsx:56 | moving a date by zero months leaves it where it is |
| Dates.Jan31PlusOneMonth | src/CalendarPage.jsx:56 | January 31 plus one month is March 3, or March 2 in a leap year |
| Text.NatToString | src/ItineraryPage.jsx:136 | `String(n)` of a natural number is a non-empty digit string, one digit exactly below 10, no leading zero |
| Text.NatToStringValue | src/ItineraryPage.jsx:136 | the digits `String(n)` writes have the value `n` |
| Text.IntToString | src/App.jsx:17 | `String(id)` is non-empty and starts with a minus sign exactly for a negative number |
| Text.IntToStringRoundTrip | src/App.jsx:17 | the text of an id reads back as that id |
| Text.IntToStringInjective | src/App.jsx:17 | different ids have different texts |
| Text.DigitPrefix | src/ItineraryPage.jsx:127 | the leading digits of a string: a digit prefix followed by a non-digit or the end |
| Text.ParseIntPrefix | src/ItineraryPage.jsx:127 | `parseInt` is NaN exactly when the text does not start with a digit |
| Text.ParseNatToString | src/ItineraryPage.jsx:127 | `parseInt` reads back a written number when no digit follows it |
| Text.DigitPrefixOfDigits | src/ItineraryPage.jsx:127 | the digit prefix of digits followed by a non-digit is those digits |
| Text.PadStart2 | src/WeekView.jsx:26 | `padStart(2, '0')` leaves a long string alone and left-pads a short one with zeros to length 2 |
| Text.Pad2Digits | src/ItineraryPage.jsx:136 | a padded number below 100 is its tens digit then its units digit |
| Text.ContainsAt | src/CustomersPage.jsx:83 | `includes` holds exactly when the pattern occurs at some position |
| Text.ToLower | src/CustomersPage.jsx:83 | `toLowerCase` keeps the length and lowers each character |
| Text.BeforeColon | src/WeekView.jsx:23 | `split(':')[0]` is the longest colon-free prefix |
| Text.SecondPiece | src/ItineraryPage.jsx:126 | `split(':')[1]` is missing exactly when there is no colon |
| Text.SplitOfJoin | src/ItineraryPage.jsx:126 | splitting `h:m` with colon-free `h` and `m` gives `h` and `m` back |
| Text.BeforeColonOf | src/WeekView.jsx:23 | the text before the colon of `h + rest` is `h` when `rest` starts with a colon |
| Text.LexLeTotal | src/CustomersPage.jsx:86-88 | any two names are comparable |
| Text.LexLeTrans | src/CustomersPage.jsx:86-88 | the name order is transitive |
| Text.LexLeAntisym | src/CustomersPage.jsx:86-88 | two names ordered both ways are equal |
| Lists.Filter | src/CustomersPage.jsx:75 | `filter` keeps exactly the elements satisfying the predicate, each as many times as in the input, in their order |
| Lists.FilterAll | src/CustomersPage.jsx:75 | a filter every element passes returns the list unchanged |
| Lists.Splice1 | src/App.jsx:41 | `splice(k, 1)` removes the one element at `k`, counted from the end when negative, and nothing past the end |
| Lists.SortBy | src/CustomersPage.jsx:86-88 | sorting with the comparator gives a permutation of the input in comparator order; it is stable: elements with the same key keep their order |
| Lists.Insert | src/CustomersPage.jsx:86-88 | one insertion step adds exactly that element |
| Lists.InsertSorted | src/CustomersPage.jsx:86-88 | inserting into a sorted list keeps it sorted |
| Lists.InsertWithKey | src/CustomersPage.jsx:86-88 | one insertion step puts the element behind those with its key and keeps the order of every key's elements |
| Lists.BeforeTotal | src/CustomersPage.jsx:86-88 | the comparator relates any two elements one way or the other |
| Lists.BeforeTrans | src/CustomersPage.jsx:86-88 | the comparator is transitive in both directions |
| Records.ContactSet | src/CustomersPage.jsx:24 | `contact[field] = value` sets that field and leaves the other three alone |
| Records.AccountSet | src/CustomersPage.jsx:14 | `{ ...a, [field]: value }` sets that field and nothing else |
| Records.UpdateAccountField | src/CustomersPage.jsx:11-17 | only accounts with that id change, and only in that field |
| Records.UpdateContactField | src/CustomersPage.jsx:19-30 | only the contact at that index of accounts with that id changes, and only in that field |
| Records.AddEmptyContact | src/CustomersPage.jsx:32-42 | accounts with that id get one empty contact at the end; the others are untouched |
| Records.ToggledDays | src/CustomersPage.jsx:49-51 | the toggled day is in the result exactly when it was not before; other days are kept; a new day goes at the end |
| Records.ToggleTwice | src/CustomersPage.jsx:49-51 | toggling a day twice gives the same set of days |
| Records.ToggleDayOf | src/CustomersPage.jsx:46-56 | only the accounts with that id have that day toggled |
| Records.DeleteAccount | src/CustomersPage.jsx:75 | no account with the id remains; every other account stays, as many times as it was there, in order |
| Records.DeleteAbsentId | src/CustomersPage.jsx:75 | deleting an id no account has changes nothing |
| Records.SortByName | src/CustomersPage.jsx:86-88 | the sort keeps the same accounts, orders names A to Z or Z to A, and keeps accounts with the same name in their order |
| Records.NewCustomer | src/CustomersPage.jsx:60-68 | a new customer has the clock as id, empty text fields (number included) and empty lists |
| Records.NewProspect | src/ProspectsPage.jsx:60-67 | a new prospect is the same but has no account number |
| Records.Flatten | src/WeekView.jsx:20 | `Object.values(itinerary).flat()` holds exactly the visits of the buckets: each bucket's visits are in it, and each of its visits comes from a bucket |
| Records.OnDate | src/ItineraryPage.jsx:122 | the visits of a date: exactly those with that date, in order |
| Records.OnDateSnoc | src/ItineraryPage.jsx:122 | one more visit at the end is selected exactly when it has that date |
| Records.OnDateEmpty | src/ItineraryPage.jsx:122 | a date no visit has selects nothing |
| WeekView.Hours | src/WeekView.jsx:6 | there are eleven hour rows |
| WeekView.HoursLabels | src/WeekView.jsx:6 | the rows are "8:00" through "18:00", unpadded |
| WeekView.IndexOf | src/WeekView.jsx:15 | `indexOf` is -1 exactly for a missing name, otherwise the first position |
| WeekView.StartOfWeek | src/WeekView.jsx:14 | the week starts on the Sunday on or before today, within six days |
| WeekView.DateOfCurrentWeekday | src/WeekView.jsx:12-17 | a day name gives the date of this week with that weekday |
| WeekView.DayOfWeekAt | src/WeekView.jsx:14-16 | the day `k` places after the week's Sunday has weekday `k` and lies in the current week |
| WeekView.EventsForDayAndTime | src/WeekView.jsx:19-46 | a cell holds exactly the itinerary's visits that match its row and date, each as many times as in the itinerary, in itinerary order |
| WeekView.MatchesIffOccurs | src/WeekView.jsx:26-44 | the cell filter is the row match plus an independent rule: on the date; every 7th or 14th day from the date on; same weekday and day of month; never for other repeats |
| WeekView.PeriodicIff | src/WeekView.jsx:36-39 | a day difference passes the weekly or biweekly test exactly when the day is a whole number of 7- or 14-day steps on from the date, and then shares its weekday |
| WeekView.SlotMatch | src/WeekView.jsx:22-26 | the 8:00 and 9:00 rows match nothing; the row of hour h shows an event exactly when its hour text is h |
| WeekView.UnshownEvents | src/WeekView.jsx:22-26 | untimed events and events at 08 or 09 appear in no row |
| WeekView.MonthlyShowsBeforeAnchor | src/WeekView.jsx:40-41 | in a common year a monthly event on March 1 also shows on February 1 |
| WeekView.ItineraryVisitsOnTheirDate | src/WeekView.jsx:29 | visits without a `repeat` key show only on their own date |
| WeekView.ClickPath | src/WeekView.jsx:48-52 | a click leads to `/prospect/` or `/customer/` followed by the account number, or "undefined" |
| WeekView.PaddedHourShape | src/WeekView.jsx:26 | a padded hour has at least two characters and no colon at positions 1 and 2 |
| Calendar.SetFormText | src/CalendarPage.jsx:41-44 | a text input changes only its field of the form |
| Calendar.MaterialiseCopies | src/CalendarPage.jsx:52-66 | one copy for "none", else twelve; copy i has id now+i and date i days, weeks, fortnights or months on, or the anchor; every other field is the form's |
| Calendar.FirstCopyOnAnchor | src/CalendarPage.jsx:53-57 | the first copy is on the chosen date for every repeat |
| Calendar.MonthlyCopy | src/CalendarPage.jsx:56 | monthly copy i is the same day i months on, rolled over when that month is too short |
| Calendar.PeriodicCopiesAscend | src/CalendarPage.jsx:54-57 | daily, weekly and biweekly copies are evenly spaced and ascending |
| Calendar.CalendarPage.constructor | src/CalendarPage.jsx:23-34 | the page starts in week view, form closed, no events, default form |
| Calendar.CalendarPage.SetView | src/CalendarPage.jsx:97-99 | the view buttons change only the view |
| Calendar.CalendarPage.SetShowAddModal | src/CalendarPage.jsx:138 | opening and cancelling the form change only its visibility |
| Calendar.CalendarPage.HandleInputChange | src/CalendarPage.jsx:41-44 | a text input changes only that form field |
| Calendar.CalendarPage.HandleDateChange | src/CalendarPage.jsx:41-44 | the date input changes only the form's date |
| Calendar.CalendarPage.PickColor | src/CalendarPage.jsx:132 | a colour dot sets only the form's colour |
| Calendar.CalendarPage.AddEvent | src/CalendarPage.jsx:46-79 | without a date nothing changes; otherwise the copies are appended after the existing events, and the form closes and resets |
| Calendar.CalendarPage.RenderView | src/CalendarPage.jsx:81-91 | "day" and "month" give their views; any other view gives the week grid with the itinerary, or the grid's TypeError when no itinerary is passed |
| Itinerary.GetNextWeekday | src/ItineraryPage.jsx:19-25 | the result is the first weekday on or after the date, at most two days later |
| Itinerary.NoThreeWeekendDays | src/ItineraryPage.jsx:14-17 | of three consecutive days at most two are weekend days |
| Itinerary.Interval | src/ItineraryPage.jsx:28-37 | exactly the five frequency names have an interval: weekly 7, biweekly 14, monthly 30, bimonthly 60 and quarterly 90 days |
| Itinerary.AddRecurringVisits | src/ItineraryPage.jsx:27-51 | the loop returns the recurring copies as specified |
| Itinerary.FutureVisitsShape | src/ItineraryPage.jsx:42-49 | after i steps: at most i copies, none on a weekend, each a not-done copy dated j intervals on for some 1 <= j <= i |
| Itinerary.FutureVisitsAscending | src/ItineraryPage.jsx:42-49 | the copies are in strictly increasing date order |
| Itinerary.FutureVisitsComplete | src/ItineraryPage.jsx:42-49 | every weekday step appears among the copies |
| Itinerary.RecurringVisitsFacts | src/ItineraryPage.jsx:27-51 | unknown frequency gives nothing; otherwise at most twelve ascending, not-done weekday copies, exactly the weekday steps 1..12; "monthly" is 30 days |
| Itinerary.To12HourOfSlot | src/ItineraryPage.jsx:125-131 | a padded slot hour below 24 shows as its 12-hour hour, the minute unchanged, and AM or PM |
| Itinerary.Display12Inverse | src/ItineraryPage.jsx:129 | the display hour is 1..12 and with the suffix gives the 24-hour hour back |
| Itinerary.ParsePaddedHour | src/ItineraryPage.jsx:127 | `parseInt` reads a zero-padded hour back |
| Itinerary.TimeSlots | src/ItineraryPage.jsx:133-137 | there are 22 slots |
| Itinerary.TimeSlotsFacts | src/ItineraryPage.jsx:133-137 | the slots run from "07:00" to "17:30" in strictly ascending text order |
| Itinerary.SlotOrder | src/ItineraryPage.jsx:133-137 | an earlier slot sorts before a later one |
| Itinerary.VisitsOn | src/ItineraryPage.jsx:121-123 | the selected date's visits: exactly those of that date, the same multiset as the filter, ordered by time, visits at the same time in stored order |
| Itinerary.NewVisit | src/ItineraryPage.jsx:86-98 | a new visit is unnamed, at the given time and date, not done, with no recurrence and kind "contact" |
| Itinerary.SetVisitField | src/ItineraryPage.jsx:109 | `visit[field] = value` sets that one field |
| Itinerary.Changed | src/ItineraryPage.jsx:106-119 | only the visit at that index changes; a recurrence other than "none" appends the recurring copies of the changed visit |
| Itinerary.ItineraryPage.constructor | src/ItineraryPage.jsx:53-62 | the selected date is today or the next weekday after it; the saved visits or none |
| Itinerary.ItineraryPage.HandleSave | src/ItineraryPage.jsx:75-78 | saving stores the current visits |
| Itinerary.ItineraryPage.HandleToggleDone | src/ItineraryPage.jsx:80-84 | only that visit's done flag flips |
| Itinerary.ItineraryPage.HandleAddVisit | src/ItineraryPage.jsx:86-98 | a new visit on the selected date is appended |
| Itinerary.ItineraryPage.HandleDeleteVisit | src/ItineraryPage.jsx:100-104 | the visit at the index is spliced out |
| Itinerary.ItineraryPage.HandleChange | src/ItineraryPage.jsx:106-119 | the visits become the changed list; a new recurrence is stored at once |
| Itinerary.ItineraryPage.ChangeSelectedDate | src/ItineraryPage.jsx:147-150 | a weekend date is refused, so the selected date stays a weekday |
| Itinerary.ItineraryPage.ToggleEditMode | src/ItineraryPage.jsx:152 | the button flips edit mode only |
| Itinerary.ItineraryPage.VisitsForSelectedDate | src/ItineraryPage.jsx:121-123 | the shown visits are exactly those of the selected date, each as often as stored, ordered by time, visits at the same time in stored order |
| Itinerary.SlotVisit | src/ItineraryPage.jsx:161 | a slot shows a visit exactly when one of the day's visits has the slot's time, and then one with that time |
| Itinerary.SlotVisitFirst | src/ItineraryPage.jsx:161 | the visit shown is the first of the day's visits at that time |
| Itinerary.SlotIndex | src/ItineraryPage.jsx:162 | `findIndex` is -1 exactly when no visit has that time and date, otherwise the first index of one that does |
| Itinerary.SlotIndexFirst | src/ItineraryPage.jsx:162 | the index found is that of the first stored visit of the date at that time |
| Itinerary.SlotShowsIndexedVisit | src/ItineraryPage.jsx:161-162 | a slot shows a visit exactly when its buttons have an index, and the visit shown is the visit at that index |
| App.AddNote | src/App.jsx:19-34 | without an index the note is appended, with one it replaces that note; only records with that id change |
| App.AppendNote | src/App.jsx:66-76 | the prospect handler changes only records with the id, and those only by the note appended at the end |
| App.AppendNoteIsAddNote | src/App.jsx:66-76 | the prospect handler is the customer handler without an index |
| App.DeleteNote | src/App.jsx:36-47 | the record with that id has its notes spliced at the index; nothing else changes |
| App.DeleteNoteInRange | src/App.jsx:41 | deleting an index in range removes exactly that note |
| App.AppendThenDeleteLast | src/App.jsx:19-47 | appending a note then deleting index -1 restores the records |
| App.FindById | src/App.jsx:17 | the found record's id reads as the route parameter; nothing is found exactly when no id does |
| App.FindByIdFirst | src/App.jsx:17 | the record found is the first whose id reads as the route parameter |
| App.FindByNumber | src/App.jsx:17 | the route of a number finds a record exactly when one has that id, and then one with that id |
| App.BucketOf | src/App.jsx:138 | `acc[date]` is missing exactly when no bucket has the date, otherwise it is a bucket of that date |
| App.AddToBucket | src/App.jsx:137-139 | one reduce step opens a key only for a new date, keeps every existing key, and leaves the visit's date with a bucket |
| App.Group | src/App.jsx:136-141 | there are at most as many buckets as visits, and some exactly when there is a visit |
| App.GroupByDate | src/App.jsx:131-142 | nothing saved gives no buckets; otherwise the loop builds the grouping of the visits |
| App.GroupKeysDistinct | src/App.jsx:136-141 | no two buckets have the same date |
| App.GroupKeyOrder | src/App.jsx:136-141 | the buckets come in the order in which their dates first occur among the visits, as `Object.values` lists non-index keys |
| App.GroupDatesFromVisits | src/App.jsx:136-141 | every bucket's date is the date of some visit |
| App.GroupCoversDates | src/App.jsx:136-141 | every visit's date has a bucket |
| App.GroupBucketsAreFilters | src/App.jsx:136-141 | each bucket holds exactly the visits of its date, in input order |
| App.GroupKeepsVisits | src/App.jsx:136-141 | the buckets together hold the visits, each once |
| App.AddToBucketFilters | src/App.jsx:137-139 | one reduce step keeps every bucket equal to the visits of its date |
| App.FlattenSnoc | src/WeekView.jsx:20 | flattening a new last bucket appends its visits |
| App.FlattenPush | src/App.jsx:139 | pushing a visit into a bucket adds it once to the flattened visits |
| Customers.SortedContacts | src/CustomersPage.jsx:81-88 | the shown accounts are exactly those whose name or number matches, ordered by name in the chosen direction, accounts with the same name in list order |
| Customers.EmptySearchShowsAll | src/CustomersPage.jsx:81-85 | an empty search shows every account |
| Customers.NewCustomerShown | src/CustomersPage.jsx:59-71 | a new account is listed only while the search is empty |
| Customers.CustomersPage.constructor | src/CustomersPage.jsx:5-8 | the page starts out of edit mode, A to Z, with an empty search |
| Customers.CustomersPage.HandleInputChange | src/CustomersPage.jsx:11-17 | the list becomes the field update |
| Customers.CustomersPage.HandleContactChange | src/CustomersPage.jsx:19-30 | the list becomes the contact update |
| Customers.CustomersPage.HandleAddContact | src/CustomersPage.jsx:32-42 | the list gets the empty contact |
| Customers.CustomersPage.ToggleDay | src/CustomersPage.jsx:44-57 | outside edit mode nothing changes; in it the day is toggled |
| Customers.CustomersPage.HandleAddAccount | src/CustomersPage.jsx:59-71 | a new customer is appended and edit mode turns on |
| Customers.CustomersPage.HandleDeleteAccount | src/CustomersPage.jsx:73-77 | when confirmed, the account is deleted; otherwise nothing changes |
| Customers.CustomersPage.ToggleEditMode | src/CustomersPage.jsx:101 | the button flips edit mode only |
| Customers.CustomersPage.ToggleSortOrder | src/CustomersPage.jsx:104 | the button flips the sort direction only |
| Customers.CustomersPage.SetSearch | src/CustomersPage.jsx:97 | the box sets the search only |
| Prospects.SortedProspects | src/ProspectsPage.jsx:80-86 | the shown prospects are exactly those whose name matches, ordered by name in the chosen direction, prospects with the same name in list order |
| Prospects.EmptySearchShowsAll | src/ProspectsPage.jsx:80-83 | an empty search shows every prospect |
| Prospects.NewProspectShown | src/ProspectsPage.jsx:59-70 | a new prospect is listed only while the search is empty |
| Prospects.ProspectsPage.constructor | src/ProspectsPage.jsx:5-8 | the page starts out of edit mode, A to Z, with an empty search |
| Prospects.ProspectsPage.HandleInputChange | src/ProspectsPage.jsx:11-17 | the list becomes the field update |
| Prospects.ProspectsPage.HandleContactChange | src/ProspectsPage.jsx:19-30 | the list becomes the contact update |
| Prospects.ProspectsPage.HandleAddContact | src/ProspectsPage.jsx:32-42 | the list gets the empty contact |
| Prospects.ProspectsPage.ToggleDay | src/ProspectsPage.jsx:44-57 | outside edit mode nothing changes; in it the day is toggled |
| Prospects.ProspectsPage.HandleAddProspect | src/ProspectsPage.jsx:59-70 | a new prospect is appended and edit mode turns on |
| Prospects.ProspectsPage.HandleDeleteProspect | src/ProspectsPage.jsx:72-76 | when confirmed, the prospect is deleted; otherwise nothing changes |
| Prospects.ProspectsPage.ToggleEditMode | src/ProspectsPage.jsx:99 | the button flips edit mode only |
| Prospects.ProspectsPage.ToggleSortOrder | src/ProspectsPage.jsx:102 | the button flips the sort direction only |
| Prospects.ProspectsPage.SetSearch | src/ProspectsPage.jsx:95 | the box sets the search only |

## Left out

- Time zones are not modelled.
  - The code parses "YYYY-MM-DD" as UTC midnight (`new Date(date)`) in some places and as local midnight (`T00:00`) in others.
  - It converts back with `toISOString`, which is UTC.
  - Day numbers stand for all of these as if the browser ran at UTC.
- Dates are not bounded. The JavaScript `Date` range and Invalid Date are not modelled, except where the calendar form has no date.
- Dates are not strings. A date is a day number, not its "YYYY-MM-DD" text, so `toDateString` comparison is day-number equality.
- The clock is not modelled. `new Date()` and `Date.now()` are the parameters `today` and `now`.
- Calendar.MaterialiseCopies: takes one clock reading for all copies. The code reads `Date.now()` again for each copy, so its ids are at least `now + i` and need not be consecutive.
- `parseInt` is not fully modelled. Leading whitespace, signs and other radixes are left out; the code only parses hour texts.
- `toLowerCase` covers ASCII letters only, and `localeCompare` is character order rather than the locale's collation.
- Shared objects are not modelled. Some handlers change an object that the old list shares with the new one: `handleContactChange` (src/CustomersPage.jsx:24), `handleToggleDone` (src/ItineraryPage.jsx:82) and `handleChange` (src/ItineraryPage.jsx:109). The model builds a new list with a new record, so the old state is not seen to change.
- App.AddNote: requires an index that exists in the record's notes. The code would make a sparse array for an index past the end, and the note page never passes one.
- Itinerary.ItineraryPage.ChangeSelectedDate: takes a day number only. A cleared date input ('') would pass the weekend test in the code and become the selected date.
- Itinerary.Interval: takes only the five frequency names. Inherited object keys such as "constructor" would look up a non-number in the code; the page offers only the five names and "none".
- Customers.SortedContacts: requires each account to have a number or a matching name. The code throws on an account with neither, and customer accounts are created with a number.
- Storage is partly modelled.
  - Browser storage is modelled only for the itinerary's `visitData` entry, as the field `stored`.
  - The prospects' storage effect (src/App.jsx:127-129) and `JSON` round trips are not modelled.
  - `alert` and `window.confirm` are not modelled; a confirmation is the parameter `confirmed`.
- The itinerary page's `useEffect` (src/ItineraryPage.jsx:64-73) is not modelled. It takes visits from the `itinerary` prop when nothing is saved. The application always passes an empty list, so the effect never changes anything.
- Routing, navigation, rendering markup, `formatDate` (locale formatting) and the day and month placeholder views are not modelled.
- The notes, prospect notes and home pages are not part of this model.
