/**
 * Client reservations: the booking record, the "is this slot taken"
 * question the page asks of the stored bookings, and the reserve button's
 * commit, which checks its input, re-reads the store and appends exactly one
 * booking or leaves the store as it was.
 */
module Bookings {
  import opened Wrappers
  import opened Text
  import opened Clock

  const DEFAULT_SERVICE := "Corte"
  const DEFAULT_BARBER := "Jhon Reales"

  /** One reservation, as the page stores it. */
  datatype Booking = Booking(
    id: string,
    name: string,
    phone: string,
    date: string,
    time: string,
    service: string,
    barbero: string)

  /**
   * A form value, or the fallback when the value is empty (`value || fallback`):
   * a non-empty value is kept, an empty one is replaced by exactly the fallback,
   * and with a non-empty fallback the result is never empty.
   */
  function OrDefault(value: string, fallback: string): (r: string)
    ensures value != [] ==> r == value
    ensures value == [] ==> r == fallback
    ensures fallback != [] ==> r != []
  {
    if value == [] then fallback else value
  }

  /** The booking holds the slot `time` on `date` with `barber`. */
  predicate Holds(b: Booking, date: string, time: string, barber: string)
  {
    b.date == date && b.time == time && b.barbero == barber
  }

  /**
   * `bookings.some(b => b.date === date && b.time === time && b.barbero === barber)`:
   * the slot is taken for that barber. Name, phone and service play no part.
   */
  predicate Occupied(bookings: seq<Booking>, date: string, time: string, barber: string): (taken: bool)
    ensures taken <==> (date, time, barber) in HeldSlots(bookings)
  {
    HeldSlotsAt(bookings, date, time, barber);
    exists i :: 0 <= i < |bookings| && Holds(bookings[i], date, time, barber)
  }

  /** The (date, time, barber) triple a booking holds. */
  function SlotOf(b: Booking): (string, string, string)
  {
    (b.date, b.time, b.barbero)
  }

  /** The (date, time, barber) triples the bookings hold. */
  function HeldSlots(bookings: seq<Booking>): set<(string, string, string)>
  {
    set b | b in bookings :: SlotOf(b)
  }

  lemma HeldSlotsAt(bookings: seq<Booking>, date: string, time: string, barber: string)
    ensures (date, time, barber) in HeldSlots(bookings)
            <==> exists i :: 0 <= i < |bookings| && Holds(bookings[i], date, time, barber)
  {
    if (date, time, barber) in HeldSlots(bookings) {
      var b :| b in bookings && SlotOf(b) == (date, time, barber);
      var i :| 0 <= i < |bookings| && bookings[i] == b;
      assert Holds(bookings[i], date, time, barber);
    }
    if exists i :: 0 <= i < |bookings| && Holds(bookings[i], date, time, barber) {
      var i :| 0 <= i < |bookings| && Holds(bookings[i], date, time, barber);
      assert SlotOf(bookings[i]) in HeldSlots(bookings);
    }
  }

  /** No two bookings share a date, a time and a barber. */
  predicate UniqueSlots(bookings: seq<Booking>)
  {
    forall i, j :: 0 <= i < j < |bookings| ==> SlotOf(bookings[i]) != SlotOf(bookings[j])
  }

  /**
   * Appending a booking keeps the (date, time, barber) triples unique
   * exactly when they were unique before and the new booking's slot was not
   * already taken for its barber.
   */
  lemma AppendKeepsUnique(bookings: seq<Booking>, b: Booking)
    ensures UniqueSlots(bookings + [b]) <==> UniqueSlots(bookings) && !Occupied(bookings, b.date, b.time, b.barbero)
  {
    var after := bookings + [b];
    if UniqueSlots(after) {
      forall i, j | 0 <= i < j < |bookings|
        ensures SlotOf(bookings[i]) != SlotOf(bookings[j])
      {
        assert after[i] == bookings[i] && after[j] == bookings[j];
      }
      forall i | 0 <= i < |bookings| ensures !Holds(bookings[i], b.date, b.time, b.barbero) {
        assert after[i] == bookings[i] && after[|bookings|] == b;
      }
    }
  }

  /**
   * After an append, a slot is taken for a barber exactly when it was taken
   * before or the new booking holds it; a booking for another barber or
   * another date or time changes nothing.
   */
  lemma OccupiedAfterAppend(bookings: seq<Booking>, b: Booking, date: string, time: string, barber: string)
    ensures Occupied(bookings + [b], date, time, barber) <==> Occupied(bookings, date, time, barber) || Holds(b, date, time, barber)
  {
    var after := bookings + [b];
    assert after[|bookings|] == b;
    if Occupied(after, date, time, barber) {
      var i :| 0 <= i < |after| && Holds(after[i], date, time, barber);
      if i < |bookings| {
        assert after[i] == bookings[i];
      }
    }
    if Occupied(bookings, date, time, barber) {
      var i :| 0 <= i < |bookings| && Holds(bookings[i], date, time, barber);
      assert after[i] == bookings[i];
    }
  }

  /**
   * A required field of the form is blank: trimmed name or phone empty, or
   * no date or time; that is, name or phone is all white space, or date or
   * time is empty.
   */
  predicate Incomplete(name: string, phone: string, date: string, time: string): (blank: bool)
    ensures blank <==> AllSpace(name) || AllSpace(phone) || date == [] || time == []
  {
    Trim(name) == [] || Trim(phone) == [] || date == [] || time == []
  }

  /** The outcome of pressing the reserve button. */
  datatype ReserveResult = MissingFields | PastDate | Conflict | Ok(booking: Booking)

  /** The booking collection kept under the page's storage key. */
  class BookingStore {
    /** What the storage key holds; `None` when it is missing or does not parse. */
    var stored: Option<seq<Booking>>

    constructor ()
      ensures stored == None
    {
      stored := None;
    }

    /** `loadBookings`: a missing or unreadable collection loads as empty, a saved one as saved. */
    function Load(): (bookings: seq<Booking>)
      reads this
      ensures stored.None? ==> bookings == []
      ensures stored.Some? ==> bookings == stored.value
    {
      if stored.Some? then stored.value else []
    }

    /** `saveBookings`: the whole collection replaces what the key held, and loads back unchanged. */
    method Save(bookings: seq<Booking>)
      modifies this
      ensures stored == Some(bookings)
      ensures Load() == bookings
    {
      stored := Some(bookings);
    }

    /**
     * The reserve button: validate, re-load, re-check the slot, then append
     * one booking and save the whole collection. `today` and `id` stand for
     * the clock and the time-derived identifier.
     */
    method Reserve(name: string, phone: string, date: string, time: string,
                   service: string, barbero: string, id: string, today: CalendarDay)
      returns (r: ReserveResult)
      modifies this
      ensures r.MissingFields? <==> Incomplete(name, phone, date, time)
      ensures r.PastDate? <==> !Incomplete(name, phone, date, time) && IsPastDate(date, today)
      ensures r.Conflict? <==>
                !Incomplete(name, phone, date, time) && !IsPastDate(date, today)
                && Occupied(old(Load()), date, time, OrDefault(barbero, DEFAULT_BARBER))
      ensures !r.Ok? ==> stored == old(stored)
      ensures r.Ok? ==>
                && r.booking == Booking(id, Trim(name), Trim(phone), date, time,
                                        OrDefault(service, DEFAULT_SERVICE), OrDefault(barbero, DEFAULT_BARBER))
                && stored == Some(old(Load()) + [r.booking])
      ensures UniqueSlots(old(Load())) ==> UniqueSlots(Load())
    {
      var barber := OrDefault(barbero, DEFAULT_BARBER);
      var svc := OrDefault(service, DEFAULT_SERVICE);
      if Incomplete(name, phone, date, time) {
        return MissingFields;
      }
      if IsPastDate(date, today) {
        return PastDate;
      }
      var bookings := Load();
      if Occupied(bookings, date, time, barber) {
        return Conflict;
      }
      var b := Booking(id, Trim(name), Trim(phone), date, time, svc, barber);
      AppendKeepsUnique(bookings, b);
      bookings := bookings + [b];
      Save(bookings);
      r := Ok(b);
    }
  }

  /**
   * Once a slot is booked for a barber, a second request for it is a
   * conflict, whoever makes it and for whatever service.
   */
  method DoubleBookingScenario(name: string, phone: string, otherName: string, otherPhone: string,
                               date: string, time: string, today: CalendarDay)
    requires !Incomplete(name, phone, date, time) && !Incomplete(otherName, otherPhone, date, time)
    requires !IsPastDate(date, today)
  {
    var store := new BookingStore();
    var first := store.Reserve(name, phone, date, time, "Corte", "Jhon Reales", "b1", today);
    assert first.Ok?;
    OccupiedAfterAppend([], first.booking, date, time, "Jhon Reales");
    var second := store.Reserve(otherName, otherPhone, date, time, "Barba", "", "b2", today);
    assert second.Conflict?;
  }
}
