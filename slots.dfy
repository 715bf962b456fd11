/** The fixed weekly grid: five named days and eight one-hour slots from
    09:00 to 17:00, and the time label an entry carries. */
module Slots {

  const DAYS: seq<string> := ["Monday", "Tuesday", "Wednesday", "Thursday", "Friday"]

  const SLOT_TIMINGS: seq<string> := [
    "09:00 AM - 10:00 AM",
    "10:00 AM - 11:00 AM",
    "11:00 AM - 12:00 PM",
    "12:00 PM - 01:00 PM",
    "01:00 PM - 02:00 PM",
    "02:00 PM - 03:00 PM",
    "03:00 PM - 04:00 PM",
    "04:00 PM - 05:00 PM"
  ]

  const DAY_COUNT: int := 5
  const SLOT_COUNT: int := 8

  /** The separator `split(' - ')` cuts a slot label at. */
  const SEPARATOR: string := " - "

  /** `SLOT_TIMINGS[i].split(' - ')[0]`: every label is "hh:mm XM - hh:mm XM". */
  function StartTime(i: int): string
    requires 0 <= i < SLOT_COUNT
  {
    SLOT_TIMINGS[i][..8]
  }

  /** `SLOT_TIMINGS[i].split(' - ')[1]`. */
  function EndTime(i: int): string
    requires 0 <= i < SLOT_COUNT
  {
    SLOT_TIMINGS[i][11..]
  }

  /** Every slot label is its start time, the separator and its end time. */
  lemma SlotLabelSplits(i: int)
    requires 0 <= i < SLOT_COUNT
    ensures SLOT_TIMINGS[i] == StartTime(i) + SEPARATOR + EndTime(i)
    ensures |StartTime(i)| == 8 && |EndTime(i)| == 8
  {
  }

  /** `getBlockTimeString(startIndex, duration)`: the label of a block of
      `duration` slots starting at `start`. */
  function BlockTime(start: int, duration: int): (r: string)
    requires 0 <= start && 1 <= duration
    ensures start + duration > SLOT_COUNT <==> r == "Invalid Time"
  {
    if start + duration > SLOT_COUNT then "Invalid Time"
    else StartTime(start) + SEPARATOR + EndTime(start + duration - 1)
  }

  /** A one-slot block is labelled exactly like its slot. */
  lemma BlockOfOneSlot(i: int)
    requires 0 <= i < SLOT_COUNT
    ensures BlockTime(i, 1) == SLOT_TIMINGS[i]
  {
    SlotLabelSplits(i);
  }

  /** A block that fits begins at its first slot's start and ends at its last
      slot's end. */
  lemma BlockSpansItsSlots(start: int, duration: int)
    requires 0 <= start && 1 <= duration && start + duration <= SLOT_COUNT
    ensures BlockTime(start, duration)[..8] == SLOT_TIMINGS[start][..8]
    ensures BlockTime(start, duration)[11..] == SLOT_TIMINGS[start + duration - 1][11..]
  {
    var r := BlockTime(start, duration);
    assert r == StartTime(start) + SEPARATOR + EndTime(start + duration - 1);
    SlotLabelSplits(start);
    SlotLabelSplits(start + duration - 1);
    assert r[..8] == StartTime(start);
    assert r[11..] == EndTime(start + duration - 1);
  }

  /** `dayOrder[day]` of the final sort: Monday is 1, Friday 5. */
  function DayRank(day: string): (r: int)
    ensures day in DAYS <==> 1 <= r <= DAY_COUNT
    ensures forall i :: 0 <= i < DAY_COUNT && DAYS[i] == day ==> r == i + 1
  {
    if day == "Monday" then 1
    else if day == "Tuesday" then 2
    else if day == "Wednesday" then 3
    else if day == "Thursday" then 4
    else if day == "Friday" then 5
    else 0
  }
}
