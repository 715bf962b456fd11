# Timetable engine model

A Dafny model of `generateTimetable` in `server/aiEngine.js`, the greedy timetable engine of the
school-scheduling application, together with its helpers `shuffle`, `getBlockTimeString` and
`normalize`.

The engine takes sections, subjects, teachers and rooms and expands them into lesson units. It
fills a week of 5 days × 8 one-hour slots one lesson at a time. For each lesson it tries the days in
a shuffled order and, on each day, the first slots in order. It books the first window where:

- the section is free;
- the daily-repeat guard lets the lesson through;
- a suitable room is free;
- a qualified teacher is free and not locked to another subject of the section.

It reports the lessons it could not place, and returns the schedule sorted by day, section and slot.

Modules, one per file:

| file | module | what it holds |
|---|---|---|
| `text.dfy` | `Text` | `normalize` (ASCII upper-casing, `trim`, the "General" default) and the lexicographic order that stands for `localeCompare` |
| `slots.dfy` | `Slots` | `DAYS`, `SLOT_TIMINGS`, `getBlockTimeString`, the day ranks of the final sort |
| `domain.dfy` | `Domain` | the records: sections, subjects, teachers, rooms, lessons, bookings, entries, the shortage report, the result |
| `shuffle.dfy` | `Shuffling` | the in-place Fisher–Yates pass on an `array`, and the shuffled day order |
| `workload.dfy` | `Workloads` | the workload expansion (the nested loop over sections and subjects) and the duration order of the queue |
| `teachers.dfy` | `TeacherIndex` | the `teacherMap` loop |
| `feasibility.dfy` | `Feasibility` | the window test of the slot loop, and the day and slot scan as functions over a snapshot of the trackers |
| `ledger.dfy` | `Ledger` | the rules every booking keeps, stated over the sequence of bookings, and the proof that a booking that passed the test keeps them |
| `shortage.dfy` | `Shortages` | the conflict count and the shortage report |
| `scheduler.dfy` | `Booking` | class `Scheduler`: the mutable state (three occupancy sets, `dailySubjectTracker`, `teacherSectionSubjectMap`, the timetable, `conflictCount`, `shortageReport`) and the methods of the main loop |
| `ordering.dfy` | `Ordering` | the comparator of the final sort and the sort |
| `engine.dfy` | `Engine` | `generateTimetable` itself: the input checks, the queue, the main loop, the result |

Some modelling choices:

- **Keys and state.** A tracker key `` `${day}-${slot}-${id}` `` is the tuple `(day index, slot, id)`.
  The class `Scheduler` keeps the three sets and two maps as fields. Every operation of the main loop
  is a method that updates them in place.
- **The lessons tried.** Each method ties what it does to a pure function of the state before it.
  `Search` is the scan, `Apply` the booking, and `Charge` the report update. `Valid()` keeps the
  fields equal to what the lunch reservation and the bookings made so far put there.
- **Randomness.** `Math.random` (the swap partner in `shuffle` and the lunch slot) is a
  nondeterministic choice (`:|`). Every property holds for every choice.
- **Missing values.** A missing text field is `""` and a missing `credits` is `0`, as
  `str || "General"` and `credits || 3` treat them.

The model follows the code on these points:

- Session halving above 50 sections rounds down: `max(1, floor(n/2))`.
- The failure flags are sticky over every window of every day tried for one lesson.
- Only an empty section list and a missing school id are fatal. Empty teacher, subject or room lists
  are not checked.
- The department wildcard is one-sided for rooms: only the room's department may be `GENERAL`.
- The teacher's own department plays no part.

## Model

| member | source | states |
|---|---|---|
| Text.Normalize | server/aiEngine.js:36 | its contract is stated by `NormalizeMatchesSource`, `NormalizeShape`, `NormalizeIdempotent`, `NormalizeBlank` and `NormalizeIgnoresCase` below |
| Text.Upper | server/aiEngine.js:36 | `toUpperCase` on ASCII letters; `NormalizeShape` and `NormalizeIgnoresCase` state what it guarantees |
| Text.Trim | server/aiEngine.js:36 | `trim`; `TrimSpec` states it |
| Text.NormalizeMatchesSource | server/aiEngine.js:36 | `Normalize` is the trim of the upper-cased value, with "General" standing in for a missing one |
| Text.UpperTrimCommute | server/aiEngine.js:36 | upper-casing and trimming commute |
| Text.TrimSpec | server/aiEngine.js:36 | `trim` returns a contiguous slice that neither starts nor ends with white space, and removes only white space |
| Text.NormalizeShape | server/aiEngine.js:36 | a normalised value has no lower-case ASCII letter and no white space at either end |
| Text.NormalizeIdempotent | server/aiEngine.js:36 | normalising a non-empty normalised value changes nothing |
| Text.NormalizeBlank | server/aiEngine.js:36 | a department of white space only normalises to "", which is not the wildcard |
| Text.NormalizeIgnoresCase | server/aiEngine.js:36 | two values that agree up to ASCII case normalise alike |
| Text.LexTotal | server/aiEngine.js:248 | of two different texts exactly one is lexicographically smaller |
| Text.LexTransitive | server/aiEngine.js:248 | lexicographic order is transitive |
| Text.StrCompareAntisymmetric | server/aiEngine.js:248 | the string comparison is antisymmetric and is 0 exactly on equal texts |
| Slots.StartTime | server/aiEngine.js:31 | the start half of a slot label; `SlotLabelSplits` states it |
| Slots.EndTime | server/aiEngine.js:32 | the end half of a slot label; `SlotLabelSplits` states it |
| Slots.BlockTime | server/aiEngine.js:29-34 | the label is "Invalid Time" exactly when the block runs past the last slot |
| Slots.SlotLabelSplits | server/aiEngine.js:10-19 | every slot label is its start time, " - " and its end time |
| Slots.BlockOfOneSlot | server/aiEngine.js:29-34 | a one-slot block is labelled exactly like its slot |
| Slots.BlockSpansItsSlots | server/aiEngine.js:31-33 | a block that fits starts at its first slot's start time and ends at its last slot's end time |
| Slots.DayRank | server/aiEngine.js:245 | day `i` of `DAYS` has rank `i + 1`, and only the five day names have a rank in 1..5 |
| Shuffling.Shuffle | server/aiEngine.js:21-26 | the array afterwards is a permutation of the array before |
| Shuffling.DaysMembership | server/aiEngine.js:137-138 | a permutation of the day indices has five elements, and they are exactly 0..4 |
| Shuffling.ShuffledDays | server/aiEngine.js:137-138 | the shuffled day order is a permutation of 0..4 |
| Workloads.LessonFor | server/aiEngine.js:104-118 | a lesson unit lasts 2 slots when practical and 1 otherwise |
| Workloads.ExpandSubject | server/aiEngine.js:102-119 | one subject appends exactly its block of lessons to the queue |
| Workloads.ExpandSection | server/aiEngine.js:91-121 | one section appends its subjects' blocks, in subject order |
| Workloads.ExpandWorkload | server/aiEngine.js:90-121 | the queue is the workload of all sections in order, halved above 50 sections |
| Workloads.EffectiveCredits | server/aiEngine.js:103 | `credits || 3`; `SessionHours` states the sessions it leads to |
| Workloads.IsPracticalSubject | server/aiEngine.js:104 | the subject's type normalises to PRACTICAL; `LessonFor` and `SessionHours` state its effect |
| Workloads.DeptMatches | server/aiEngine.js:95-98 | the department filter; `WorkloadMembership` states that exactly the matching pairs contribute |
| Workloads.Sessions | server/aiEngine.js:102-108 | the session count of a subject; `SessionHours` and `HalvingPolicy` state it |
| Workloads.Block | server/aiEngine.js:102-119 | the lessons one subject adds for one section; `BlockMembers` and `ExpandSubject` state it |
| Workloads.Workload | server/aiEngine.js:89-121 | the expanded queue; `WorkloadMembership` states which lessons it holds and `ExpandWorkload` that the loops build it |
| Workloads.LongestFirst | server/aiEngine.js:124 | the queue in duration order; `LongestFirstOrdered` states it is a permutation with the two-slot lessons first |
| Workloads.SessionHours | server/aiEngine.js:103-106 | a theory subject gets `credits` sessions; a practical one gets `ceil(credits/2)` sessions, which cover its credits |
| Workloads.HalvingPolicy | server/aiEngine.js:108 | a halved count is at least 1 and is `floor(n/2)` when `n >= 2` |
| Workloads.HalvingShrinks | server/aiEngine.js:108 | halving never lengthens the queue while every subject has a session |
| Workloads.FlatMapMembers | server/aiEngine.js:91-121 | an element is in the concatenation exactly when it is in one of the parts |
| Workloads.WorkloadMembership | server/aiEngine.js:91-121 | a lesson is in the workload exactly when it is the unit of a section and a subject whose departments match and which has a session; every such unit is well formed |
| Workloads.LongestFirstOrdered | server/aiEngine.js:124 | the duration sort yields a permutation with every 2-slot lesson before every 1-slot lesson |
| TeacherIndex.Qualified | server/aiEngine.js:52-58 | the teachers listing a subject, in input order; `QualifiedMembers` states it and `BuildTeacherMap` builds it |
| TeacherIndex.Capable | server/aiEngine.js:176 | `teacherMap[lesson.id] || []`; `BuildTeacherMap` states that it is `Qualified` for every subject |
| TeacherIndex.CopiesMembers | server/aiEngine.js:54-57 | a teacher appears among its own entries for a subject exactly when it lists that subject |
| TeacherIndex.QualifiedMembers | server/aiEngine.js:52-58 | a teacher is on a subject's list exactly when it is one of the teachers and lists the subject |
| TeacherIndex.AddTeacher | server/aiEngine.js:54-57 | the inner loop appends the teacher to the list of each subject it lists, once per listing |
| TeacherIndex.BuildTeacherMap | server/aiEngine.js:52-58 | each subject's list is its qualified teachers in input order, and no list is empty |
| Feasibility.WindowMembers | server/aiEngine.js:147-149 | the keys of a window are exactly its day, the slots `start..start+duration-1` and the owner |
| Feasibility.Find | server/aiEngine.js:169-171 | `find` returns an element that passes, or none when no element passes |
| Feasibility.FindFirst | server/aiEngine.js:169-171 | what `find` returns is preceded only by elements that fail |
| Feasibility.RoomSuits | server/aiEngine.js:160-167 | the room filter; `ProbeMeaning` states that a fit's room passes it |
| Feasibility.FreeRoom | server/aiEngine.js:169-171 | the first suitable room free for the window; `Find`, `FindFirst` and `ProbeMeaning` state it |
| Feasibility.LockBlocks | server/aiEngine.js:182-185 | a non-empty lock with another subject name; `ProbeMeaning` and `Ledger.LocksSnoc` state its effect |
| Feasibility.TeacherAvailable | server/aiEngine.js:178-188 | the teacher is free for the window and not locked to another subject of the section; `ProbeMeaning` states it |
| Feasibility.FreeTeacher | server/aiEngine.js:176-201 | the first capable available teacher; `Find`, `FindFirst` and `ProbeMeaning` state it |
| Feasibility.Probe | server/aiEngine.js:151-203 | the window test; `ProbeMeaning` states what each outcome means |
| Feasibility.ProbeMeaning | server/aiEngine.js:151-203 | a window fits exactly when the section is free, the daily guard passes, and a suitable free room and an available capable teacher exist; a room failure means no room, and a teacher failure means a room but no teacher |
| Feasibility.ScanSlots | server/aiEngine.js:145-230 | the slot loop of one day; `ScanSlotsMeaning` states it |
| Feasibility.ScanDays | server/aiEngine.js:140-231 | the day loop; `ScanDaysMeaning` states it |
| Feasibility.Search | server/aiEngine.js:131-231 | the search for one lesson from no flags; `SearchPlaced` and `Engine.WeekMeaning` state it |
| Feasibility.ScanSlotsMeaning | server/aiEngine.js:145-230 | the slot loop stops at the first fitting start; when none fits, each flag is set exactly when some start failed for that reason |
| Feasibility.ScanDaysMeaning | server/aiEngine.js:140-231 | the lesson goes to the first day, in the shuffled order, that has a fitting window, at its first one; unplaced means no window of any day fits, with sticky flags |
| Feasibility.SearchPlaced | server/aiEngine.js:140-231 | a placed result names one of the given days, a start in range, and a room and teacher the test accepted |
| Ledger.CellsMembers | server/aiEngine.js:206-210 | the cells of every booking are among the tracked cells |
| Ledger.DailyNamesMembers | server/aiEngine.js:216 | every booked name is on its section's list for its day |
| Ledger.LastLockAgrees | server/aiEngine.js:213-214 | under the lock rule, a teacher's lock for a section holds the name of every earlier non-empty booking |
| Ledger.FreeDisjoint | server/aiEngine.js:152 | a window free of busy keys is disjoint from the busy set |
| Ledger.ApartSnoc | server/aiEngine.js:206-210 | a booking whose window is disjoint from the tracked cells keeps bookings apart |
| Ledger.DailySnoc | server/aiEngine.js:155-157 | the daily push keeps the tracker equal to the booked names, and the guard keeps theory names unrepeated per section and day |
| Ledger.LocksSnoc | server/aiEngine.js:182-188 | the lock update keeps the lock map equal to the last booking per teacher and section, and the lock check keeps each teacher on one subject per section |
| Ledger.FitIsAdmissible | server/aiEngine.js:151-203 | a window that passed the test satisfies everything a booking needs |
| Ledger.Apply | server/aiEngine.js:205-216 | the trackers after one booking; `BookKeepsConsistent` states that they stay consistent with the bookings |
| Ledger.BookKeepsConsistent | server/aiEngine.js:205-216 | booking an admissible window keeps the trackers equal to the bookings' cells, with no double booking, the lunch slots untouched, no theory repeat and the locks held |
| Shortages.Charge | server/aiEngine.js:233-240 | the report update of one failure; `ReportCounts` and `ReportTotal` state what the charged report holds |
| Shortages.Report | server/aiEngine.js:233-240 | the report of a sequence of failures; `ReportCounts`, `ReportSnoc` and `ReportTotal` state it |
| Shortages.ReportSnoc | server/aiEngine.js:233-240 | recording one more failure charges the report once more |
| Shortages.Blamed | server/aiEngine.js:233-240 | at most one charge per failure |
| Shortages.ReportCounts | server/aiEngine.js:235-238 | a subject's teacher count is its failures with a teacher flag; the Lab and LectureHall counters are the practical and theory failures with only a room flag |
| Shortages.TotalBump | server/aiEngine.js:235 | bumping one subject's count raises the sum of the counts by one |
| Shortages.ReportTotal | server/aiEngine.js:233-240 | all teacher counts and both room counters add up to the failures with a flag set, at most the number of failures |
| Booking.PlacedBooking | server/aiEngine.js:140-203 | the booking of a placed result is admissible and uses a suitable listed room and an offered teacher |
| Booking.LunchGrow | server/aiEngine.js:76-87 | reserving one more section keeps the lunch shape |
| Booking.Scheduler.constructor | server/aiEngine.js:61-71 | the trackers, timetable and report start empty |
| Booking.Scheduler.ReserveSection | server/aiEngine.js:77-86 | blocks slot 3 or 4 of the section on every day, and nothing else |
| Booking.Scheduler.ReserveLunch | server/aiEngine.js:76-87 | every section has slot 3 or 4 blocked on every day, only those cells are blocked, and never both when names are distinct |
| Booking.Scheduler.TrySlot | server/aiEngine.js:147-203 | the loop body returns the outcome of the window test on the current trackers |
| Booking.Scheduler.ScanDay | server/aiEngine.js:145-230 | the slot loop returns the slot scan of the current trackers |
| Booking.Scheduler.FindSlot | server/aiEngine.js:131-231 | the day and slot loops return the search over the current trackers |
| Booking.CoverWindow | server/aiEngine.js:206-210 | walking the window's keys adds exactly the window's cells for the section, the room and the teacher to the three sets |
| Booking.Scheduler.MarkBusy | server/aiEngine.js:206-210 | the window is added to the three occupancy sets, which are the only fields that change |
| Booking.Scheduler.Commit | server/aiEngine.js:212-227 | the lock is set, the name pushed for the day, and the booking appended |
| Booking.Scheduler.Book | server/aiEngine.js:205-228 | the trackers become the booking applied to them, the booking is appended, and the invariant holds |
| Booking.Scheduler.RecordFailure | server/aiEngine.js:233-240 | the conflict count rises by one, the report is charged, and the trackers stay as they were |
| Booking.Scheduler.PlaceLesson | server/aiEngine.js:129-240 | one turn searches the trackers as they were over a shuffle of the days; it books the result and applies it to the trackers when placed, else records the failure with its flags and leaves the trackers, keeping the invariant |
| Ordering.Compare | server/aiEngine.js:245-249 | the comparator; `CompareFlip`, `CompareTransitive` and `NoLaterTotalPreorder` state it |
| Ordering.SortSchedule | server/aiEngine.js:246-250 | the sorted schedule; `SortScheduleSpec` states it is sorted and a permutation, and `Engine.ScheduleUnique` that it is the only such sequence |
| Ordering.CompareFlip | server/aiEngine.js:246-249 | swapping the entries flips the comparator's sign; it is 0 exactly on the same day rank, section and slot |
| Ordering.CompareTransitive | server/aiEngine.js:246-249 | the comparator's order is transitive |
| Ordering.InsertByPermutation | server/aiEngine.js:246 | inserting adds exactly the one element, for any order |
| Ordering.ConsSorted | server/aiEngine.js:246-249 | an element no later than the head of a sorted sequence can go in front of it |
| Ordering.InsertBySorted | server/aiEngine.js:246-249 | under a total preorder, inserting into a sorted sequence keeps it sorted |
| Ordering.SortBySpec | server/aiEngine.js:246-249 | under a total preorder, the insertion sort returns a sorted permutation of its input |
| Ordering.NoLaterTotalPreorder | server/aiEngine.js:246-249 | "no later than" under the comparator is total and transitive |
| Ordering.SortScheduleSpec | server/aiEngine.js:246-250 | the sorted schedule is in comparator order and holds exactly the entries |
| Ordering.SortedByUnique | server/aiEngine.js:246-249 | two sorted arrangements of the same elements are equal when only equal elements are ordered both ways |
| Ordering.SortedUnique | server/aiEngine.js:246-249 | two schedules in comparator order holding the same entries, no two of which compare equal unless equal, are the same sequence |
| Engine.ToEntry | server/aiEngine.js:218-227 | an entry shows the booking's day name and first slot and a valid time label |
| Engine.Entries | server/aiEngine.js:218-227 | the entries pushed for the bookings; `EntriesDistinct` states that no two of them compare equal |
| Engine.EntriesDistinct | server/aiEngine.js:206-227 | since no two bookings of a section share a day and slot, no two entries agree on day, section and first slot, so none compare equal |
| Engine.ScheduleUnique | server/aiEngine.js:246-250 | every arrangement of the entries in comparator order is the model's sorted schedule, so the result does not depend on the sorting algorithm |
| Engine.LunchGapKept | server/aiEngine.js:76-87 | every section keeps slot 3 or slot 4 free from bookings on every day |
| Engine.StaffedFromIndex | server/aiEngine.js:176 | every booked teacher is one of the teachers and lists the subject; every room is a listed, suitable room |
| Engine.OrderedWorkload | server/aiEngine.js:123-124 | the shuffled and sorted queue is a permutation of the workload of well-formed lessons, longest first |
| Engine.Progress | server/aiEngine.js:242 | the progress percentage lies in 10..89 |
| Engine.ProgressMonotone | server/aiEngine.js:242 | the progress percentage never decreases along the loop |
| Engine.Conclude | server/aiEngine.js:245-256 | a consistent final state yields bookings that keep every rule, and a result that is the sorted entries with an alert exactly when a lesson failed |
| Engine.FinalTimetable | server/aiEngine.js:245-256 | the result; `Conclude` states what it holds |
| Engine.WeekMeaning | server/aiEngine.js:131-231 | over a shuffle of the five days, the search books a window of the week that passes the test with the room and teacher it found; it fails exactly when no window of the week passes, and each flag then says whether some window lacked a room or a teacher |
| Engine.TurnMeaning | server/aiEngine.js:131-240 | every turn's verdict has that meaning for the trackers the turn found |
| Engine.ChainSnoc | server/aiEngine.js:128-243 | a turn that found the trackers the turns so far left extends the chain, adding its booking or its failure |
| Engine.RanSnoc | server/aiEngine.js:128-243 | the same, for turns that also searched what they found |
| Engine.Tally | server/aiEngine.js:128-243 | over the turns, the booked and the failed lessons together are the turns' lessons |
| Engine.PrepareQueue | server/aiEngine.js:90-124 | the queue holds the workload, well formed and longest first |
| Engine.PlaceNext | server/aiEngine.js:129-243 | one turn searches the trackers as they were with the lesson's qualified teachers over a shuffle of the days, leaves the trackers that search's booking makes, and adds exactly that booking or that failure with its flags |
| Engine.PlaceAll | server/aiEngine.js:128-243 | one turn per queued lesson, in queue order, each searching the trackers the one before left; the timetable is the turns' bookings and the failures their failures |
| Engine.Generate | server/aiEngine.js:39-256 | an empty section list or a missing school id is an error. Otherwise the queue is the workload, longest first, and there is one turn per lesson in queue order. The first turn starts from the lunch reservation alone, and each later turn searches the trackers the one before left. The bookings are exactly the placed verdicts and the failures exactly the unplaced verdicts with their flags. Every lesson is booked or reported once, and the schedule length plus the conflict count is the queue length. No booking covers a section's reserved lunch cell, and bookings keep the no-double-booking, daily and lock rules, with suitable rooms and qualified teachers. The schedule is sorted, and the alert is present exactly when some lesson failed, with a report that charges each failure at most once |

## Left out

- Database reads (`Teacher.find`, `Subject.find`, `Classroom.find`, `.populate`): the records are parameters of `Generate`, and ids are abstract strings.
- Progress events and logging (`io.emit`, `console.log`): socket I/O. Only the percentage is modelled, as `Engine.Progress`.
- The progress message at line 242 reads `lesson.subject`, a field lessons do not have: it belongs to the I/O left out above.
- Engine.Progress: computed on integers, `floor(i*80/total)+10`. The source divides in floating point first; the two can differ by rounding.
- `Math.random`: a nondeterministic choice. Nothing is said about the distribution of lunch slots or permutations.
- `localeCompare`: modelled as lexicographic order on code points. Locale collation is not modelled.
- `toUpperCase`: modelled on ASCII letters only; full Unicode case mapping is not modelled. `trim` removes JavaScript's full set of white-space and line-terminator characters.
- Shortages.Charge: subject names that are `Object.prototype` properties (`constructor`, `toString`, `valueOf`, `__proto__`, …) are counted as ordinary keys. The source's `shortageReport.teachers` is a plain object, so for those names it reads the inherited property (yielding a string such as `"function Object() { [native code] }1"`, or no entry at all for `__proto__`).
- Shortages.ReportCounts: states the count of every subject name as an ordinary key, so it is weaker than the source for the `Object.prototype` names above.
- Non-integer or non-numeric `credits`: credits are integers, and 0 stands for a missing value.
- The empty `dailySubjectTracker` entry created at line 156 before the guard: an absent key reads as the empty list, so it is not modelled.
- Workloads.LongestFirst: `lessonQueue.sort` runs in place on the array. It is modelled on values, as the stable partition into two-slot and one-slot lessons, which is what a stable sort by duration gives when every duration is 1 or 2.
- Ordering.SortSchedule: `masterTimetable.sort` runs in place. It is modelled on values, as a stable insertion sort. The model builds the entries from the bookings at the end instead of pushing each entry at booking time. The sequence is the same: no two entries compare equal (`Engine.EntriesDistinct`), so any sort in comparator order gives this one (`Engine.ScheduleUnique`).
- Booking.Scheduler.TrySlot: the "relaxed" fallback teacher search is the same test as the strict one. It is modelled as a second call of the same function, so it always returns what the first call returned.
- HTTP routes, import, authentication, the Mongoose models and the client: outside the engine.
