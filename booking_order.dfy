/**
 * The order of the bookings list: by date, then time, then barber, each
 * compared as a string, character by character.
 */
module BookingOrder {
  import opened Bookings

  /**
   * Plain lexicographic comparison (`localeCompare` without locale rules):
   * zero exactly for equal strings, otherwise -1 or 1.
   */
  function CompareStrings(a: string, b: string): (c: int)
    ensures -1 <= c <= 1
    ensures c == 0 <==> a == b
  {
    if a == [] && b == [] then 0
    else if a == [] then -1
    else if b == [] then 1
    else if a[0] < b[0] then -1
    else if a[0] > b[0] then 1
    else CompareStrings(a[1..], b[1..])
  }

  lemma {:induction false} CompareStringsAntisymmetric(a: string, b: string)
    ensures CompareStrings(a, b) == -CompareStrings(b, a)
  {
    if a != [] && b != [] && a[0] == b[0] {
      CompareStringsAntisymmetric(a[1..], b[1..]);
    }
  }

  lemma {:induction false} CompareStringsTransitive(a: string, b: string, c: string)
    requires CompareStrings(a, b) < 0 && CompareStrings(b, c) < 0
    ensures CompareStrings(a, c) < 0
  {
    if a != [] && b != [] && c != [] && a[0] == b[0] == c[0] {
      CompareStringsTransitive(a[1..], b[1..], c[1..]);
    }
  }

  /**
   * The comparator of the bookings list: -1, 0 or 1, and 0 exactly for two
   * bookings of the same date, time and barber.
   */
  function CompareBookings(a: Booking, b: Booking): (c: int)
    ensures -1 <= c <= 1
    ensures c == 0 <==> Holds(a, b.date, b.time, b.barbero)
  {
    if a.date == b.date then
      if a.time == b.time then CompareStrings(a.barbero, b.barbero)
      else CompareStrings(a.time, b.time)
    else CompareStrings(a.date, b.date)
  }

  /**
   * The comparator is a total preorder on the (date, time, barber) triple:
   * it is antisymmetric, transitive, and ties exactly the bookings that hold
   * the same slot with the same barber.
   */
  lemma CompareBookingsOrder(a: Booking, b: Booking, c: Booking)
    ensures CompareBookings(a, b) == -CompareBookings(b, a)
    ensures CompareBookings(a, b) == 0 <==> Holds(a, b.date, b.time, b.barbero)
    ensures CompareBookings(a, b) <= 0 && CompareBookings(b, c) <= 0 ==> CompareBookings(a, c) <= 0
  {
    CompareStringsAntisymmetric(a.date, b.date);
    CompareStringsAntisymmetric(a.time, b.time);
    CompareStringsAntisymmetric(a.barbero, b.barbero);
    if CompareBookings(a, b) <= 0 && CompareBookings(b, c) <= 0 {
      if a.date != b.date || b.date != c.date {
        if a.date != b.date && b.date != c.date {
          CompareStringsTransitive(a.date, b.date, c.date);
        }
      } else if a.time != b.time || b.time != c.time {
        if a.time != b.time && b.time != c.time {
          CompareStringsTransitive(a.time, b.time, c.time);
        }
      } else if a.barbero != b.barbero && b.barbero != c.barbero {
        CompareStringsTransitive(a.barbero, b.barbero, c.barbero);
      }
    }
  }

  predicate Sorted(bs: seq<Booking>)
  {
    forall i, j :: 0 <= i < j < |bs| ==> CompareBookings(bs[i], bs[j]) <= 0
  }

  /** Places `b` before the first booking that sorts strictly after it. */
  function Insert(b: Booking, sorted: seq<Booking>): (r: seq<Booking>)
    requires Sorted(sorted)
    ensures multiset(r) == multiset(sorted) + multiset{b}
    ensures Sorted(r)
  {
    if sorted == [] then [b]
    else if CompareBookings(sorted[0], b) > 0 then
      InsertFirst(b, sorted);
      [b] + sorted
    else
      var rest := Insert(b, sorted[1..]);
      assert sorted == [sorted[0]] + sorted[1..];
      InsertLater(b, sorted, rest);
      [sorted[0]] + rest
  }

  lemma InsertFirst(b: Booking, sorted: seq<Booking>)
    requires Sorted(sorted) && sorted != [] && CompareBookings(sorted[0], b) > 0
    ensures Sorted([b] + sorted)
  {
    var r := [b] + sorted;
    CompareBookingsOrder(sorted[0], b, b);
    forall i, j | 0 <= i < j < |r| ensures CompareBookings(r[i], r[j]) <= 0 {
      if i == 0 {
        CompareBookingsOrder(b, sorted[0], sorted[j - 1]);
      } else {
        assert r[i] == sorted[i - 1] && r[j] == sorted[j - 1];
      }
    }
  }

  lemma InsertLater(b: Booking, sorted: seq<Booking>, rest: seq<Booking>)
    requires Sorted(sorted) && sorted != [] && CompareBookings(sorted[0], b) <= 0
    requires Sorted(rest) && multiset(rest) == multiset(sorted[1..]) + multiset{b}
    ensures Sorted([sorted[0]] + rest)
  {
    var r := [sorted[0]] + rest;
    forall i, j | 0 <= i < j < |r| ensures CompareBookings(r[i], r[j]) <= 0 {
      if i == 0 {
        var y := rest[j - 1];
        assert y in multiset(rest);
        if y != b {
          assert y in sorted[1..];
          var k :| 0 <= k < |sorted[1..]| && sorted[1..][k] == y;
          assert sorted[k + 1] == y;
        }
      } else {
        assert r[i] == rest[i - 1] && r[j] == rest[j - 1];
      }
    }
  }

  /**
   * The bookings list, sorted by the comparator: a permutation of the
   * loaded bookings, in (date, time, barber) order.
   */
  function SortBookings(bs: seq<Booking>): (r: seq<Booking>)
    ensures multiset(r) == multiset(bs)
    ensures Sorted(r)
  {
    if bs == [] then []
    else
      assert bs == bs[..|bs| - 1] + [bs[|bs| - 1]];
      Insert(bs[|bs| - 1], SortBookings(bs[..|bs| - 1]))
  }
}
