# Pinta Barber Shop: booking and ledger logic

A Dafny model of the logic inside `script.js` of a browser-only booking
widget for a barbershop. Clients pick a service, a barber, a date and one
of the fifty-minute slots between 08:00 and 20:00. The page offers only the
slots that barber is still free at and, on today's date, only the ones
still ahead of the clock. On reserve it validates the form, re-reads the
stored bookings, refuses a slot already taken for that barber, and
otherwise appends one booking. On the barber page completed services are
appended to a record list, and the day's total is the sum of today's
prices. The bookings list is shown sorted by date, time and barber.

Modules, one per component:

- `Wrappers`: the `Option` type.
- `Text`: `String.prototype.trim` and the two- and four-digit zero padding.
- `Clock`: `HH:MM` times of day as minutes since midnight, `YYYY-MM-DD` dates, and `isPastDate`.
- `Slots`: the slot catalog and the `generateTimeSlots` loop.
- `Bookings`: the booking record, the occupancy check, and `BookingStore` (the stored collection and the reserve commit).
- `Availability`: the time-picker filter of `refresh`.
- `BookingOrder`: the comparator of the bookings list, and a sort built on it.
- `Ledger`: service records, `RecordStore` (register and daily total).

The clock, the storage and the DOM are replaced by values. "Today" is a
`CalendarDay` parameter. "Now" is a `Minute`: whole minutes since midnight,
rounded down. That rounding is exact for the source's test `t <= new Date()`,
because a slot's seconds are zero. The time-derived ids (`'b' + Date.now()`,
`'r' + Date.now()`) are parameters too. Each storage key is a class field
`stored: Option<seq<...>>`: `None` stands for a missing key or one holding
data that does not parse, and `Load()` returns the empty sequence for it.
Saving assigns the whole new sequence to the field.

`Bookings.DoubleBookingScenario` and `Ledger.RegisterScenario` are client
methods. They show that the contracts alone decide two worked cases. A
second request for the same slot and barber is a conflict, whatever the
name, phone or service. A price of 0 is refused and leaves the day's total
at 15000.

## Model

| member | source | states |
|---|---|---|
| `Text.TrimStart` | script.js:152 | the result is the suffix of the input left after dropping only white space, and it does not start with white space |
| `Text.TrimEnd` | script.js:152 | the result is the prefix left after dropping only white space, and it does not end with white space |
| `Text.TrimIsCore` | script.js:183-184 | the trimmed value is a contiguous piece of the input with only white space cut on either side, and it neither starts nor ends with white space |
| `Text.Trim` | script.js:152 | `trim()` never lengthens a field; the result is empty exactly when the field is all white space, and otherwise it neither starts nor ends with white space |
| `Text.TwoDigits` | script.js:18-19 | `padStart(2, '0')` gives two digits whose decimal value is the number |
| `Text.TwoDigitsOfValue` | script.js:18-19 | two digits read as a number and padded back to two digits give the same two characters |
| `Text.FourDigits` | script.js:296 | a year below 10000 prints as four digits whose decimal value is the year |
| `Clock.FormatHHMM` | script.js:18-20 | a time of day prints as `HH:MM`, the first field reading as the hours and the second as the minutes |
| `Clock.ParseHHMM` | script.js:72-74 | a slot string has a time-of-day value exactly when it is two digits, a colon and two digits |
| `Clock.ParseFormatHHMM` | script.js:72-74 | reading a formatted slot back gives the same minute of the day |
| `Clock.FormatHHMMInjective` | script.js:18-20 | two different minutes never print as the same slot string |
| `Clock.FormatIsoDate` | script.js:59 | today's date prints as ten characters, `YYYY-MM-DD`, with dashes at positions 4 and 7; the four leading digits read as the year, the next two as the month and the last two as the day |
| `Clock.ParseIsoDate` | script.js:38 | only a string of the `YYYY-MM-DD` shape can name a valid date, and the string read is exactly that date printed back |
| `Clock.IsoDateOfFields` | script.js:38 | a `YYYY-MM-DD` string is the printed form of the date built from its three fields |
| `Clock.ParseFormatIsoDate` | script.js:38-39 | reading a formatted date back gives the same date |
| `Clock.IsPastDate` | script.js:36-41 | a date string is past exactly when it is the printed form of a calendar day strictly before today; any other string is never past |
| `Clock.IsPastDateIffBefore` | script.js:36-41 | a date is past exactly when it lies strictly before today, comparing dates only, so today itself is never past |
| `Slots.Catalog` | script.js:10-24 | the catalog is not empty, slot k reads back as 08:00 plus 50·k minutes, the last slot is not after 20:00 and the next step would be |
| `Slots.CatalogShape` | script.js:10-24 | the catalog has 15 slots; slot k is 08:00 plus 50·k minutes; the last slot is not after 20:00 and the next one would be |
| `Slots.CatalogAscending` | script.js:12-22 | the catalog starts at 08:00, consecutive slots are exactly 50 minutes apart, it is strictly ascending, no slot is after 20:00 and none repeats |
| `Slots.GenerateTimeSlots` | script.js:10-24 | the loop that steps a clock from 08:00 by 50 minutes while it is not past 20:00 yields exactly the catalog |
| `Bookings.OrDefault` | script.js:147-148 | a field that is set keeps its value; an empty one becomes exactly the fallback, so a non-empty fallback never leaves it empty |
| `Bookings.Incomplete` | script.js:152 | the form is incomplete exactly when the name or the phone is all white space, or no date or no time is set |
| `Bookings.Occupied` | script.js:63-67 | a slot is taken for a barber on a date exactly when that date, time and barber is among the slots the stored bookings hold |
| `Bookings.HeldSlotsAt` | script.js:167-171 | a date, time and barber is among the held slots exactly when some stored booking has that date, time and barber |
| `Bookings.BookingStore.Load` | script.js:27-30 | a missing or unreadable bookings key loads as the empty list, a saved list as itself |
| `Bookings.BookingStore.Save` | script.js:31-33 | saving stores the given list, and the next load returns exactly that list |
| `Bookings.AppendKeepsUnique` | script.js:166-190 | after an append, no two bookings share date, time and barber exactly when that held before and the new booking's slot was free for its barber |
| `Bookings.OccupiedAfterAppend` | script.js:167-171 | after an append, a slot is taken for a barber exactly when it was taken before or the new booking holds it; name, phone and service play no part, and a booking for another barber changes nothing |
| `Bookings.BookingStore.Reserve` | script.js:142-190 | missing fields when the trimmed name or phone is empty or no date or time is set; otherwise past date when the date is strictly before today; otherwise conflict when the freshly loaded store already holds that date, time and barber; otherwise exactly one booking with trimmed name and phone and defaulted service and barber is appended to the loaded store. Every refusal leaves the store untouched, and unique slots stay unique |
| `Availability.AlreadyPast` | script.js:72-75 | only a readable slot can be past, and a slot printed from a minute of the day is past exactly when that minute is not after now |
| `Availability.OfferedSlots` | script.js:61-76 | the filter never lengthens the list and keeps only slots of the list that are offerable: free for that barber on that date and, on today's date, not at or before now |
| `Availability.OfferedStep` | script.js:61-76 | `OfferedSlots` unfolded one step on a prefix (the loop step of `Refresh`): one more slot is appended to the offer exactly when it is offerable |
| `Availability.Refresh` | script.js:55-90 | the picker lists exactly the offerable slots in order, each with the slot as value and as text, or else the single placeholder with an empty value |
| `Availability.OfferedMembership` | script.js:61-76 | a slot is offered exactly when it is in the slot list, it is not booked for that barber on that date, and, when the date is today, it is not at or before now |
| `Availability.OfferedInOrder` | script.js:61-81 | the offered slots are picked from the catalog at strictly increasing positions, so they form a subsequence in catalog order |
| `Availability.OtherBookingKeepsSlots` | script.js:63-67 | a booking for another barber, or for another date, leaves the offered slots unchanged |
| `Availability.OtherDayIgnoresClock` | script.js:59 | on a date other than today the offer is the same at every moment: no time filtering |
| `Availability.CatalogOffer` | script.js:70-76 | from the catalog, on today's date every offered slot is strictly later than now; on another date the offered slots are exactly the catalog slots the barber is free at |
| `Availability.OfferedSlotIsReservable` | script.js:152-171 | an offered catalog slot, with a name and phone that are not blank and a date set, passes the missing-fields check and is not taken for that barber in the same `bookings`, nor for the barber the reserve handler defaults to when the picker's value is not empty; so, while the store still holds those bookings, `Reserve`'s contract makes a booking of it on a date that is not past succeed. An empty picker value is defaulted to Jhon Reales by the handler, and that barber's slots are not covered |
| `Availability.BookedSlotScenario` | script.js:61-68 | with 08:50 on 2024-06-01 booked for Jhon Reales and another day being today, that barber is not offered 08:50 |
| `Availability.FreeSlotsScenario` | script.js:61-76 | in the same case that barber is still offered 08:00 and 09:40 |
| `BookingOrder.CompareStrings` | script.js:214-218 | string comparison is zero exactly for equal strings and otherwise -1 or 1 |
| `BookingOrder.CompareStringsAntisymmetric` | script.js:214-218 | swapping the operands negates the string comparison |
| `BookingOrder.CompareStringsTransitive` | script.js:214-218 | the strict string order is transitive |
| `BookingOrder.CompareBookings` | script.js:211-219 | the booking comparator is -1, 0 or 1, and it is zero exactly when the two bookings have the same date, time and barber |
| `BookingOrder.CompareBookingsOrder` | script.js:211-219 | the booking comparator is antisymmetric and transitive, and it ties exactly the bookings with the same date, time and barber |
| `BookingOrder.Insert` | script.js:211-219 | inserting into a sorted list keeps it sorted and adds exactly that booking |
| `BookingOrder.SortBookings` | script.js:211-219 | the sorted bookings list is a permutation of the loaded one, ordered by date, then time, then barber |
| `Ledger.RecordsOn` | script.js:317 | the day's filter keeps only records of that day, taken from the list |
| `Ledger.SumPrices` | script.js:319-328 | with positive prices the sum is never negative, and it is zero exactly for no records |
| `Ledger.TotalOn` | script.js:316-328 | with positive prices a day's total is never negative |
| `Ledger.RecordsOnKeepsDay` | script.js:317 | every record of that day passes the filter |
| `Ledger.SumPricesAppend` | script.js:319-328 | the running sum over two lists laid end to end is the sum of the two sums |
| `Ledger.RecordsOnAppend` | script.js:298 | filtering a list with one more record adds that record at the end when it is of that day, and nothing otherwise |
| `Ledger.TotalAfterAppend` | script.js:298 | appending a record raises its own day's total by its price and leaves every other day's total unchanged |
| `Ledger.TotalSign` | script.js:316-328 | with positive prices, a day's total is never negative, and it is positive exactly when that day has a record |
| `Ledger.RecordStore.Load` | script.js:287-289 | a missing or unreadable records key loads as the empty list, a saved list as itself; the same read is repeated at script.js:313-315 |
| `Ledger.RecordStore.Register` | script.js:275-299 | a price that is not positive is refused and nothing is stored; otherwise exactly one record, stamped with the time and date of the clock, is appended; today's total grows by the price exactly when it is accepted, and positive prices stay positive |
| `Ledger.RecordStore.DailyTotal` | script.js:312-329 | the running sum equals the sum of the prices of the records dated today |

## Left out

- Rendering: option and list elements, message texts and colours, form clearing, the clock display. This is presentation.
- Storage and JSON: `localStorage` and `JSON.parse`/`JSON.stringify` are a class field. A missing or unparsable value loads as the empty sequence. A value that parses as JSON of a different shape is not modelled.
- Clock: `new Date()`, `toISOString` and `setHours` are not modelled; "today" and "now" are parameters. The source reads two different "todays". `isPastDate` builds today from the local calendar date (`getFullYear`/`getMonth`/`getDate`, script.js:37-39), so `Reserve`'s past-date check uses local time. The UTC date from `toISOString().slice(0,10)` is used by the `isToday` test of `refresh` (script.js:59), the default date input (script.js:100), the lower bound (`min`) of the client page's date input (script.js:136-137), the record date in `Register` (script.js:296) and the day of `DailyTotal` (script.js:316). The slot clock of `refresh` (script.js:73-75) is local. The model passes one `today` and one `now`, so it does not capture the hours around midnight when the local and UTC dates differ.
- Ids: `'b' + Date.now()` and `'r' + Date.now()` are parameters. Two bookings made in the same millisecond would receive the same id, so uniqueness of ids is not claimed.
- Snapshot: `fillTimeOptions` loads the bookings once and `refresh` reuses that snapshot on every date or barber change. `Availability.Refresh` takes the bookings as a parameter, so which snapshot is passed is up to the caller.
- Defaults: the barber picker defaults to `Jhon Reales` only when it is absent (script.js:57). The reserve handler also defaults an empty value (script.js:148). `Refresh` takes the barber as given; `Reserve` applies `OrDefault`.
- Page wiring: URL query parsing and preselection, the periodic clock refresh, the price preset from the service option, and the page dispatch on load.
- The time list shown again after a conflict (script.js:176) is presentation; the store is untouched.
- Number coercion: prices are integers. `Number('abc')` gives NaN, which the source refuses (`!price`); arbitrary text in the price field is not modelled. Floating-point prices and `toLocaleString` formatting are not modelled.
- `Clock.ParseHHMM`: reads only the two-digit `HH:MM` shape that the catalog produces. Other strings, which `split(':').map(Number)` would still read, count as unreadable, and unreadable slots are never considered past.
- `Clock.ParseIsoDate`: reads only the `YYYY-MM-DD` shape and accepts any day from 1 to 31 in any month. JavaScript engines differ on impossible dates such as `2024-02-31`. For strings of any other shape, such as an unpadded `2024-6-1`, the date-time string format of ECMA-262 (section 21.4.3.2, `Date.parse`) lets each engine fall back to its own formats. The model counts all such strings as invalid dates; a date input produces neither kind.
- `BookingOrder.CompareStrings`: compares characters by code point; the locale rules of `localeCompare` are not modelled.
- `BookingOrder.SortBookings`: stands for the engine's `Array.prototype.sort`, as an insertion sort. It is proved sorted and a permutation; stability is not proved.
