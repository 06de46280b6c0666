/**
 * The slot catalog of the booking page: one `HH:MM` slot every fifty
 * minutes from opening at 08:00, for as long as the slot does not lie past
 * closing at 20:00.
 */
module Slots {
  import opened Wrappers
  import opened Clock

  const OPENING: Minute := 480
  const CLOSING: Minute := 1200
  const STEP: nat := 50
  const SLOT_COUNT: nat := 15

  /** The `k`-th slot of the day, in minutes since midnight. */
  function SlotMinute(k: nat): nat
  {
    OPENING + STEP * k
  }

  /**
   * The catalog, as `generateTimeSlots` builds it: every step from opening
   * that is not past closing.
   */
  function Catalog(): (c: seq<string>)
    ensures |c| > 0 && SlotMinute(|c| - 1) <= CLOSING < SlotMinute(|c|)
    ensures forall k :: 0 <= k < |c| ==> ParseHHMM(c[k]) == Some(SlotMinute(k))
  {
    ParseFormatHHMMAll();
    seq(SLOT_COUNT, k requires 0 <= k < SLOT_COUNT => FormatHHMM(SlotMinute(k)))
  }

  /**
   * The catalog holds the fifteen slots 08:00, 08:50, ..., 19:40: slot `k`
   * lies `50 * k` minutes after opening, the last one is not past closing
   * and the next one would be.
   */
  lemma CatalogShape()
    ensures |Catalog()| == SLOT_COUNT
    ensures forall k :: 0 <= k < SLOT_COUNT ==> SlotMinute(k) < MINUTES_PER_DAY
    ensures forall k :: 0 <= k < SLOT_COUNT ==> Catalog()[k] == FormatHHMM(SlotMinute(k))
    ensures SlotMinute(SLOT_COUNT - 1) <= CLOSING < SlotMinute(SLOT_COUNT)
  {
  }

  /**
   * Read as times of day, the catalog starts at 08:00, consecutive slots
   * are exactly fifty minutes apart, it is strictly ascending, no slot lies
   * past 20:00 and no slot appears twice.
   */
  lemma CatalogAscending()
    ensures Catalog() != [] && Catalog()[0] == "08:00"
    ensures forall k :: 0 <= k < |Catalog()| ==> ParseHHMM(Catalog()[k]) == Some(SlotMinute(k))
    ensures forall k :: 0 <= k < |Catalog()| ==> ParseHHMM(Catalog()[k]).value <= CLOSING
    ensures forall k :: 0 < k < |Catalog()| ==>
              ParseHHMM(Catalog()[k]).value == ParseHHMM(Catalog()[k - 1]).value + STEP
    ensures forall i, j :: 0 <= i < j < |Catalog()| ==>
              ParseHHMM(Catalog()[i]).value < ParseHHMM(Catalog()[j]).value
    ensures forall i, j :: 0 <= i < j < |Catalog()| ==> Catalog()[i] != Catalog()[j]
  {
  }

  /** `generateTimeSlots`: advances a clock from opening in fifty-minute steps, collecting slots. */
  method GenerateTimeSlots() returns (slots: seq<string>)
    ensures slots == Catalog()
  {
    slots := [];
    var cur: nat := OPENING;
    while cur <= CLOSING
      invariant |slots| <= SLOT_COUNT
      invariant cur == SlotMinute(|slots|)
      invariant slots == Catalog()[..|slots|]
      decreases CLOSING + STEP - cur
    {
      slots := slots + [FormatHHMM(cur)];
      cur := cur + STEP;
    }
  }
}
