/**
 * The time picker of the booking page: from the slot catalog, keep the
 * slots the selected barber has not been booked for on the selected date
 * and, when that date is today, only those still ahead of the clock; offer
 * a single empty placeholder when nothing is left.
 */
module Availability {
  import opened Wrappers
  import opened Text
  import opened Clock
  import opened Slots
  import opened Bookings

  /** One entry of the time picker: the value submitted and the text shown. */
  datatype SlotOption = SlotOption(value: string, text: string)

  /** The entry shown when no slot can be offered; its value is empty. */
  const NO_SLOTS := SlotOption("", "No hay horarios disponibles")

  /**
   * The slot's time of day is at or before `now` (`t <= new Date()`); an
   * unreadable slot never is. For a slot printed from a minute of the day,
   * that is exactly "the minute is not after now".
   */
  predicate AlreadyPast(s: string, now: Minute): (past: bool)
    ensures past ==> ParseHHMM(s).Some?
    ensures forall m: Minute :: s == FormatHHMM(m) ==> (past <==> m <= now)
  {
    ParseFormatHHMMAll();
    match ParseHHMM(s)
    case None => false
    case Some(m) => m <= now
  }

  /** The slot may be offered for this date and barber at this moment. */
  predicate Offerable(s: string, bookings: seq<Booking>, date: string, barber: string,
                      today: CalendarDay, now: Minute)
  {
    !Occupied(bookings, date, s, barber) && !(date == FormatIsoDate(today) && AlreadyPast(s, now))
  }

  /** The offerable slots, in the order of `slots`: only slots of `slots`, and only offerable ones. */
  function OfferedSlots(slots: seq<string>, bookings: seq<Booking>, date: string, barber: string,
                        today: CalendarDay, now: Minute): (offered: seq<string>)
    ensures |offered| <= |slots|
    ensures forall s :: s in offered ==> s in slots && Offerable(s, bookings, date, barber, today, now)
    decreases |slots|
  {
    if slots == [] then []
    else
      var earlier := OfferedSlots(slots[..|slots| - 1], bookings, date, barber, today, now);
      var s := slots[|slots| - 1];
      if Offerable(s, bookings, date, barber, today, now) then earlier + [s] else earlier
  }

  /** One picker entry per slot, showing the slot itself. */
  function AsOptions(slots: seq<string>): (opts: seq<SlotOption>)
  {
    seq(|slots|, k requires 0 <= k < |slots| => SlotOption(slots[k], slots[k]))
  }

  /**
   * `refresh`: walks the slots once, skipping those taken for the barber
   * and, on today's date, those already past; falls back to the placeholder.
   */
  method Refresh(slots: seq<string>, bookings: seq<Booking>, date: string, barber: string,
                 today: CalendarDay, now: Minute)
    returns (options: seq<SlotOption>)
    ensures OfferedSlots(slots, bookings, date, barber, today, now) == [] ==> options == [NO_SLOTS]
    ensures OfferedSlots(slots, bookings, date, barber, today, now) != [] ==>
              |options| == |OfferedSlots(slots, bookings, date, barber, today, now)|
              && forall k :: 0 <= k < |options| ==>
                   options[k].value == options[k].text == OfferedSlots(slots, bookings, date, barber, today, now)[k]
  {
    var isToday := date == FormatIsoDate(today);
    ghost var offered: seq<string> := [];
    options := [];
    var i := 0;
    while i < |slots|
      invariant 0 <= i <= |slots|
      invariant offered == OfferedSlots(slots[..i], bookings, date, barber, today, now)
      invariant options == AsOptions(offered)
    {
      var s := slots[i];
      OfferedStep(slots, i, bookings, date, barber, today, now);
      if Occupied(bookings, date, s, barber) {
        i := i + 1;
        continue;
      }
      if isToday && AlreadyPast(s, now) {
        i := i + 1;
        continue;
      }
      offered := offered + [s];
      options := options + [SlotOption(s, s)];
      i := i + 1;
    }
    assert slots[..|slots|] == slots;
    if |options| == 0 {
      options := [NO_SLOTS];
    }
  }

  /** Looking at one more slot adds it to the offer exactly when it is offerable. */
  lemma OfferedStep(slots: seq<string>, i: nat, bookings: seq<Booking>, date: string, barber: string,
                    today: CalendarDay, now: Minute)
    requires i < |slots|
    ensures OfferedSlots(slots[..i + 1], bookings, date, barber, today, now)
            == OfferedSlots(slots[..i], bookings, date, barber, today, now)
               + (if Offerable(slots[i], bookings, date, barber, today, now) then [slots[i]] else [])
  {
    assert slots[..i + 1][..i] == slots[..i];
  }

  /** A slot is offered exactly when it is one of `slots` and offerable. */
  lemma {:induction false} OfferedMembership(slots: seq<string>, bookings: seq<Booking>, date: string,
                                             barber: string, today: CalendarDay, now: Minute, s: string)
    ensures s in OfferedSlots(slots, bookings, date, barber, today, now)
            <==> s in slots && Offerable(s, bookings, date, barber, today, now)
    decreases |slots|
  {
    if slots != [] {
      var init := slots[..|slots| - 1];
      OfferedMembership(init, bookings, date, barber, today, now, s);
      assert slots == init + [slots[|slots| - 1]];
    }
  }

  /** `idx` picks the elements of `sub` out of `full`, at strictly increasing positions. */
  predicate Embeds(idx: seq<nat>, sub: seq<string>, full: seq<string>)
  {
    && |idx| == |sub|
    && (forall k :: 0 <= k < |idx| ==> idx[k] < |full| && sub[k] == full[idx[k]])
    && (forall k, l :: 0 <= k < l < |idx| ==> idx[k] < idx[l])
  }

  /** The offered slots are a subsequence of `slots`: same order, nothing added. */
  lemma {:induction false} OfferedInOrder(slots: seq<string>, bookings: seq<Booking>, date: string,
                                          barber: string, today: CalendarDay, now: Minute)
    returns (idx: seq<nat>)
    ensures Embeds(idx, OfferedSlots(slots, bookings, date, barber, today, now), slots)
    decreases |slots|
  {
    if slots == [] {
      idx := [];
    } else {
      var init := slots[..|slots| - 1];
      var s := slots[|slots| - 1];
      idx := OfferedInOrder(init, bookings, date, barber, today, now);
      if Offerable(s, bookings, date, barber, today, now) {
        idx := idx + [|slots| - 1];
      }
    }
  }

  /** A booking for another barber or another date leaves the offered slots as they were. */
  lemma {:induction false} OtherBookingKeepsSlots(slots: seq<string>, bookings: seq<Booking>, b: Booking,
                                                  date: string, barber: string, today: CalendarDay, now: Minute)
    requires b.barbero != barber || b.date != date
    ensures OfferedSlots(slots, bookings + [b], date, barber, today, now)
            == OfferedSlots(slots, bookings, date, barber, today, now)
    decreases |slots|
  {
    if slots != [] {
      var s := slots[|slots| - 1];
      OtherBookingKeepsSlots(slots[..|slots| - 1], bookings, b, date, barber, today, now);
      OccupiedAfterAppend(bookings, b, date, s, barber);
    }
  }

  /** On any date but today the clock plays no part: the offer is the same at every moment. */
  lemma {:induction false} OtherDayIgnoresClock(slots: seq<string>, bookings: seq<Booking>, date: string,
                                                barber: string, today: CalendarDay, now: Minute, later: Minute)
    requires date != FormatIsoDate(today)
    ensures OfferedSlots(slots, bookings, date, barber, today, now)
            == OfferedSlots(slots, bookings, date, barber, today, later)
    decreases |slots|
  {
    if slots != [] {
      OtherDayIgnoresClock(slots[..|slots| - 1], bookings, date, barber, today, now, later);
    }
  }

  /**
   * What the picker offers from the catalog: on today's date only slots
   * strictly later than `now`; on any other date every slot the barber is
   * free at.
   */
  lemma CatalogOffer(bookings: seq<Booking>, date: string, barber: string, today: CalendarDay, now: Minute)
    ensures date == FormatIsoDate(today) ==>
              forall s :: s in OfferedSlots(Catalog(), bookings, date, barber, today, now) ==>
                ParseHHMM(s).Some? && ParseHHMM(s).value > now
    ensures date != FormatIsoDate(today) ==>
              forall s :: s in OfferedSlots(Catalog(), bookings, date, barber, today, now) <==>
                s in Catalog() && !Occupied(bookings, date, s, barber)
  {
    CatalogAscending();
    forall s | true
      ensures s in OfferedSlots(Catalog(), bookings, date, barber, today, now)
              <==> s in Catalog() && Offerable(s, bookings, date, barber, today, now)
    {
      OfferedMembership(Catalog(), bookings, date, barber, today, now, s);
    }
  }

  /**
   * A worked case: with 08:50 on 2024-06-01 booked for Jhon Reales, asking
   * for that barber on that date, when it is not today, drops 08:50 ...
   */
  lemma BookedSlotScenario(b: Booking, today: CalendarDay, now: Minute)
    requires Holds(b, "2024-06-01", "08:50", "Jhon Reales")
    requires FormatIsoDate(today) != "2024-06-01"
    ensures "08:50" !in OfferedSlots(Catalog(), [b], "2024-06-01", "Jhon Reales", today, now)
  {
    assert [b][0] == b;
    OfferedMembership(Catalog(), [b], "2024-06-01", "Jhon Reales", today, now, "08:50");
  }

  /** ... and keeps the slots beside it, 08:00 and 09:40. */
  lemma FreeSlotsScenario(b: Booking, today: CalendarDay, now: Minute)
    requires Holds(b, "2024-06-01", "08:50", "Jhon Reales")
    requires FormatIsoDate(today) != "2024-06-01"
    ensures "08:00" in OfferedSlots(Catalog(), [b], "2024-06-01", "Jhon Reales", today, now)
    ensures "09:40" in OfferedSlots(Catalog(), [b], "2024-06-01", "Jhon Reales", today, now)
  {
    CatalogShape();
    CatalogAscending();
    assert Catalog()[2] == FormatHHMM(580) == "09:40";
    assert [b][0] == b;
    OfferedMembership(Catalog(), [b], "2024-06-01", "Jhon Reales", today, now, "08:00");
    OfferedMembership(Catalog(), [b], "2024-06-01", "Jhon Reales", today, now, "09:40");
  }

  /**
   * A slot the picker offers from the catalog passes every check of the
   * reserve button for that barber except the past-date one, which looks at
   * the date alone: it parses as a time, it is set, and it is not taken.
   */
  lemma OfferedSlotIsReservable(bookings: seq<Booking>, date: string, barber: string,
                                today: CalendarDay, now: Minute, name: string, phone: string, s: string)
    requires s in OfferedSlots(Catalog(), bookings, date, barber, today, now)
    requires Trim(name) != [] && Trim(phone) != [] && date != []
    ensures !Incomplete(name, phone, date, s)
    ensures !Occupied(bookings, date, s, barber)
    ensures barber != [] ==> !Occupied(bookings, date, s, OrDefault(barber, DEFAULT_BARBER))
  {
    OfferedMembership(Catalog(), bookings, date, barber, today, now, s);
    CatalogShape();
  }
}
