/**
 * The barber's side: completed services are appended to a record list, and
 * the day's history shows the records of today with the sum of their prices.
 */
module Ledger {
  import opened Wrappers
  import opened Clock

  /** One registered service; `time` and `date` are taken from the clock at registration. */
  datatype ServiceRecord = ServiceRecord(id: string, service: string, price: int, time: string, date: string)

  /** `records.filter(r => r.date === day)`. */
  function RecordsOn(records: seq<ServiceRecord>, day: string): (r: seq<ServiceRecord>)
    ensures |r| <= |records|
    ensures forall x :: x in r ==> x in records && x.date == day
  {
    if records == [] then []
    else if records[0].date == day then [records[0]] + RecordsOn(records[1..], day)
    else RecordsOn(records[1..], day)
  }

  /** The prices added up; with positive prices, zero exactly for no records and positive otherwise. */
  function SumPrices(records: seq<ServiceRecord>): (total: int)
    ensures AllPricesPositive(records) ==> total >= 0
    ensures AllPricesPositive(records) ==> (total == 0 <==> records == [])
  {
    assert AllPricesPositive(records) && records != [] ==> AllPricesPositive(records[1..]);
    if records == [] then 0 else records[0].price + SumPrices(records[1..])
  }

  /** The total shown for a day: the prices of that day's records, added up; never negative with positive prices. */
  function TotalOn(records: seq<ServiceRecord>, day: string): (total: int)
    ensures AllPricesPositive(records) ==> total >= 0
  {
    assert AllPricesPositive(records) ==> AllPricesPositive(RecordsOn(records, day));
    SumPrices(RecordsOn(records, day))
  }

  /** Every record of the day is kept by the filter (the other direction is in its contract). */
  lemma {:induction false} RecordsOnKeepsDay(records: seq<ServiceRecord>, day: string, x: ServiceRecord)
    requires x in records && x.date == day
    ensures x in RecordsOn(records, day)
  {
    if records[0] != x {
      RecordsOnKeepsDay(records[1..], day, x);
    }
  }

  lemma {:induction false} SumPricesAppend(a: seq<ServiceRecord>, b: seq<ServiceRecord>)
    ensures SumPrices(a + b) == SumPrices(a) + SumPrices(b)
  {
    if a != [] {
      SumPricesAppend(a[1..], b);
      assert (a + b)[1..] == a[1..] + b;
    } else {
      assert a + b == b;
    }
  }

  lemma {:induction false} RecordsOnAppend(records: seq<ServiceRecord>, r: ServiceRecord, day: string)
    ensures RecordsOn(records + [r], day) == RecordsOn(records, day) + (if r.date == day then [r] else [])
  {
    if records != [] {
      RecordsOnAppend(records[1..], r, day);
      assert (records + [r])[1..] == records[1..] + [r];
    }
  }

  /**
   * Appending a record raises the total of its own day by its price and
   * leaves the total of every other day unchanged.
   */
  lemma TotalAfterAppend(records: seq<ServiceRecord>, r: ServiceRecord, day: string)
    ensures TotalOn(records + [r], day) == TotalOn(records, day) + (if r.date == day then r.price else 0)
  {
    RecordsOnAppend(records, r, day);
    SumPricesAppend(RecordsOn(records, day), if r.date == day then [r] else []);
  }

  predicate AllPricesPositive(records: seq<ServiceRecord>)
  {
    forall r :: r in records ==> r.price > 0
  }

  /** With positive prices, a day's total is positive exactly when that day has a record, and zero otherwise. */
  lemma {:induction false} TotalSign(records: seq<ServiceRecord>, day: string)
    requires AllPricesPositive(records)
    ensures TotalOn(records, day) >= 0
    ensures TotalOn(records, day) > 0 <==> exists i :: 0 <= i < |records| && records[i].date == day
  {
    if records != [] {
      assert AllPricesPositive(records[1..]);
      TotalSign(records[1..], day);
      if exists i :: 0 <= i < |records[1..]| && records[1..][i].date == day {
        var i :| 0 <= i < |records[1..]| && records[1..][i].date == day;
        assert records[i + 1].date == day;
      }
      if exists i :: 0 <= i < |records| && records[i].date == day {
        var i :| 0 <= i < |records| && records[i].date == day;
        if i > 0 { assert records[1..][i - 1].date == day; }
      }
    }
  }

  /** The record list kept under the barber page's storage key. */
  class RecordStore {
    /** What the storage key holds; `None` when it is missing or does not parse. */
    var stored: Option<seq<ServiceRecord>>

    constructor ()
      ensures stored == None
    {
      stored := None;
    }

    /** A missing or unreadable record list loads as empty, a saved one as saved. */
    function Load(): (records: seq<ServiceRecord>)
      reads this
      ensures stored.None? ==> records == []
      ensures stored.Some? ==> records == stored.value
    {
      if stored.Some? then stored.value else []
    }

    /**
     * The register button: a price that is not positive is refused and
     * nothing is stored; otherwise one record, stamped with the clock's time
     * and date, is appended and the list saved.
     */
    method Register(service: string, price: int, id: string, today: CalendarDay, now: Minute)
      returns (ok: bool)
      modifies this
      ensures ok <==> price > 0
      ensures !ok ==> stored == old(stored)
      ensures ok ==> stored == Some(old(Load()) + [ServiceRecord(id, service, price, FormatHHMM(now), FormatIsoDate(today))])
      ensures TotalOn(Load(), FormatIsoDate(today)) == TotalOn(old(Load()), FormatIsoDate(today)) + (if ok then price else 0)
      ensures AllPricesPositive(old(Load())) ==> AllPricesPositive(Load())
    {
      var hora := FormatHHMM(now);
      if price <= 0 {
        return false;
      }
      var records := Load();
      var record := ServiceRecord(id, service, price, hora, FormatIsoDate(today));
      TotalAfterAppend(records, record, FormatIsoDate(today));
      records := records + [record];
      stored := Some(records);
      ok := true;
    }

    /** `renderHistory`'s running sum over today's records. */
    method DailyTotal(today: CalendarDay) returns (total: int)
      ensures total == TotalOn(Load(), FormatIsoDate(today))
    {
      var todayRecords := RecordsOn(Load(), FormatIsoDate(today));
      total := 0;
      var i := 0;
      while i < |todayRecords|
        invariant 0 <= i <= |todayRecords|
        invariant total == SumPrices(todayRecords[..i])
      {
        SumPricesAppend(todayRecords[..i], [todayRecords[i]]);
        assert todayRecords[..i + 1] == todayRecords[..i] + [todayRecords[i]];
        total := total + todayRecords[i].price;
        i := i + 1;
      }
      assert todayRecords[..|todayRecords|] == todayRecords;
    }
  }

  /** Registering a 15000 cut shows 15000 for the day; a price of 0 is refused and the total stays. */
  method RegisterScenario(today: CalendarDay, now: Minute)
  {
    var ledger := new RecordStore();
    var first := ledger.Register("Corte", 15000, "r1", today, now);
    var total := ledger.DailyTotal(today);
    assert first && total == 15000;
    var second := ledger.Register("Corte", 0, "r2", today, now);
    total := ledger.DailyTotal(today);
    assert !second && total == 15000;
  }
}
