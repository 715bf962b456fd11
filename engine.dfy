/** `generateTimetable`: check the input, index the teachers, reserve the
    lunch slots, expand and order the workload, place every lesson in
    turn, and return the sorted schedule with an alert when some lesson
    could not be placed. */
module Engine {
  import opened Domain
  import opened Slots
  import opened Feasibility
  import opened Ledger
  import opened Shortages
  import opened TeacherIndex
  import opened Shuffling
  import opened Workloads
  import opened Booking
  import opened Ordering

  /** A booking that can be shown: a day of the week and a block that fits. */
  predicate Shown(p: Placement) {
    0 <= p.day < DAY_COUNT && 0 <= p.start && 1 <= p.lesson.duration
    && p.start + p.lesson.duration <= SLOT_COUNT
  }

  /** The `masterTimetable` entry pushed for a booking. */
  function ToEntry(p: Placement): (e: Entry)
    requires Shown(p)
    ensures e.day in DAYS && DayRank(e.day) == p.day + 1
    ensures e.slotIndex == p.start && e.className == p.lesson.className
    ensures e.time != "Invalid Time"
  {
    var l := p.lesson;
    Entry(DAYS[p.day], p.start, l.className, l.department, l.name, p.teacher.name, p.room.name,
          KindName(l.kind), BlockTime(p.start, l.duration))
  }

  /** The entries pushed onto `masterTimetable`, one per booking, in
      booking order. */
  function Entries(ps: seq<Placement>): seq<Entry>
    requires forall i :: 0 <= i < |ps| ==> Shown(ps[i])
  {
    seq(|ps|, i requires 0 <= i < |ps| => ToEntry(ps[i]))
  }

  /** No two bookings of a section share a day and slot, so no two of
      their entries compare equal. */
  lemma EntriesDistinct(ps: seq<Placement>)
    requires forall i :: 0 <= i < |ps| ==> Shown(ps[i])
    requires Apart(ps, BySection)
    ensures forall i, j :: 0 <= i < |ps| && 0 <= j < |ps| && i != j ==> Compare(Entries(ps)[i], Entries(ps)[j]) != 0
  {
    var es := Entries(ps);
    forall i, j | 0 <= i < |ps| && 0 <= j < |ps| && i != j
      ensures Compare(es[i], es[j]) != 0
    {
      CompareFlip(es[i], es[j]);
      var c := (ps[i].day, ps[i].start, ps[i].lesson.className);
      WindowMembers(ps[i].day, ps[i].start, ps[i].lesson.duration, ps[i].lesson.className, c);
      WindowMembers(ps[j].day, ps[j].start, ps[j].lesson.duration, ps[j].lesson.className, c);
      if i < j {
        assert Covers(ps[i], BySection) !! Covers(ps[j], BySection);
      } else {
        assert Covers(ps[j], BySection) !! Covers(ps[i], BySection);
      }
    }
  }

  /** Any arrangement of the entries in comparator order is the sorted
      schedule, so a different sorting algorithm gives the same sequence. */
  lemma ScheduleUnique(ps: seq<Placement>, t: seq<Entry>)
    requires forall i :: 0 <= i < |ps| ==> Shown(ps[i])
    requires Apart(ps, BySection)
    requires Sorted(t) && multiset(t) == multiset(Entries(ps))
    ensures t == SortSchedule(Entries(ps))
  {
    var es := Entries(ps);
    EntriesDistinct(ps);
    SortScheduleSpec(es);
    forall x, y | x in t && y in t && Compare(x, y) == 0
      ensures x == y
    {
      assert x in multiset(es) && y in multiset(es);
      var i :| 0 <= i < |es| && es[i] == x;
      var j :| 0 <= j < |es| && es[j] == y;
    }
    SortedUnique(t, SortSchedule(es));
  }

  function Lessons(ps: seq<Placement>): seq<Lesson> {
    seq(|ps|, i requires 0 <= i < |ps| => ps[i].lesson)
  }

  function FailedLessons(fs: seq<Failure>): seq<Lesson> {
    seq(|fs|, i requires 0 <= i < |fs| => fs[i].0)
  }

  /** No booking covers slot `h` of section `name` on day `d`. */
  ghost predicate Uncovered(ps: seq<Placement>, d: int, h: int, name: string) {
    forall k :: 0 <= k < |ps| ==> (d, h, name) !in Covers(ps[k], BySection)
  }

  /** Every section keeps slot 3 or slot 4 free on every day. */
  ghost predicate LunchGap(ps: seq<Placement>, sections: seq<Section>) {
    forall i, d :: 0 <= i < |sections| && 0 <= d < DAY_COUNT ==>
                     Uncovered(ps, d, 3, sections[i].name) || Uncovered(ps, d, 4, sections[i].name)
  }

  /** Every booking's teacher is one of the teachers and lists the
      booking's subject among its qualified subjects. */
  predicate Staffed(ps: seq<Placement>, teachers: seq<Teacher>) {
    forall i :: 0 <= i < |ps| ==> ps[i].teacher in teachers && ps[i].lesson.subjectId in ps[i].teacher.qualified
  }

  /** Every booking's room is one of the rooms and passes the room filter. */
  predicate Housed(ps: seq<Placement>, rooms: seq<Room>) {
    forall i :: 0 <= i < |ps| ==> ps[i].room in rooms && RoomSuits(ps[i].room, ps[i].lesson)
  }

  /** The lunch reservation and the bookings that never touch it leave a
      lunch slot free for every section on every day. */
  lemma LunchGapKept(lunch: set<Cell>, sections: seq<Section>, ps: seq<Placement>)
    requires LunchShape(lunch, sections) && LunchKept(ps, lunch)
    ensures LunchGap(ps, sections)
  {
    forall i, d | 0 <= i < |sections| && 0 <= d < DAY_COUNT
      ensures Uncovered(ps, d, 3, sections[i].name) || Uncovered(ps, d, 4, sections[i].name)
    {
      var h := if (d, 3, sections[i].name) in lunch then 3 else 4;
      forall k | 0 <= k < |ps|
        ensures (d, h, sections[i].name) !in Covers(ps[k], BySection)
      {
        assert (d, h, sections[i].name) in lunch;
      }
    }
  }

  /** The bookings' teachers, drawn from the teacher index, are qualified. */
  lemma StaffedFromIndex(ps: seq<Placement>, rooms: seq<Room>, teacherMap: map<Id, seq<Teacher>>,
                         teachers: seq<Teacher>)
    requires AllSuited(ps, rooms, teacherMap)
    requires forall id :: Capable(teacherMap, id) == Qualified(teachers, id)
    ensures Staffed(ps, teachers) && Housed(ps, rooms)
  {
    forall i | 0 <= i < |ps|
      ensures ps[i].teacher in teachers && ps[i].lesson.subjectId in ps[i].teacher.qualified
    {
      QualifiedMembers(teachers, ps[i].lesson.subjectId, ps[i].teacher);
    }
  }

  lemma LessonsSnoc(ps: seq<Placement>, p: Placement)
    ensures Lessons(ps + [p]) == Lessons(ps) + [p.lesson]
  {
  }

  lemma FailedLessonsSnoc(fs: seq<Failure>, f: Failure)
    ensures FailedLessons(fs + [f]) == FailedLessons(fs) + [f.0]
  {
  }

  /** The queue after the shuffle and the duration sort holds the workload,
      every lesson well formed, the two-slot lessons first. */
  lemma OrderedWorkload(sections: seq<Section>, subjects: seq<Subject>, shuffled: seq<Lesson>)
    requires multiset(shuffled) == multiset(Workload(sections, subjects))
    ensures multiset(LongestFirst(shuffled)) == multiset(Workload(sections, subjects))
    ensures forall l :: l in LongestFirst(shuffled) ==> LessonOk(l)
    ensures forall i, j :: 0 <= i < j < |LongestFirst(shuffled)| ==>
              LongestFirst(shuffled)[i].duration >= LongestFirst(shuffled)[j].duration
  {
    forall l | l in shuffled
      ensures LessonOk(l)
    {
      assert l in multiset(Workload(sections, subjects));
      WorkloadMembership(sections, subjects, l);
    }
    LongestFirstOrdered(shuffled);
    forall l | l in LongestFirst(shuffled)
      ensures LessonOk(l)
    {
      assert l in multiset(shuffled);
    }
  }

  /** `Math.floor((i / totalLessons) * 80) + 10`, on exact rationals. */
  function Progress(i: int, total: int): (r: int)
    requires 0 <= i < total
    ensures 10 <= r < 90
  {
    i * 80 / total + 10
  }

  /** The progress figure never goes down as the loop advances. */
  lemma ProgressMonotone(i: int, j: int, total: int)
    requires 0 <= i <= j < total
    ensures Progress(i, total) <= Progress(j, total)
  {
    var a, b := i * 80, j * 80;
    var qa, qb := a / total, b / total;
    assert a == qa * total + a % total && b == qb * total + b % total;
    if qa > qb {
      MulMonotone(qb + 1, qa, total);
      assert false;
    }
  }

  lemma MulMonotone(x: int, y: int, c: int)
    requires x <= y && 0 < c
    ensures x * c <= y * c
  {
  }

  /** The bookings keep every rule of the engine: no section, room or
      teacher is booked twice in a slot, every section keeps a lunch slot
      free every day, a theory subject is booked once per section and day,
      a teacher teaches one subject per section, each room is suitable and
      each teacher qualified, and every block fits in the day. */
  ghost predicate Scheduled(ps: seq<Placement>, sections: seq<Section>, rooms: seq<Room>, teachers: seq<Teacher>) {
    && Apart(ps, BySection) && Apart(ps, ByRoom) && Apart(ps, ByTeacher)
    && LunchGap(ps, sections) && NoTheoryRepeat(ps) && LocksHeld(ps)
    && Housed(ps, rooms) && Staffed(ps, teachers)
    && (forall i :: 0 <= i < |ps| ==> Shown(ps[i]))
  }

  /** The result shows the bookings' entries in comparator order, and an
      alert exactly when some lesson failed, counting the failures and
      charging each at most once. */
  ghost predicate Presented(t: Timetable, ps: seq<Placement>, fs: seq<Failure>)
    requires forall i :: 0 <= i < |ps| ==> Shown(ps[i])
  {
    && Sorted(t.schedule) && multiset(t.schedule) == multiset(Entries(ps))
    && (t.alert == None <==> fs == [])
    && (t.alert.Some? ==>
          && t.alert.value.count == |fs| && t.alert.value.details == Report(fs)
          && Total(Report(fs).teachers) + Report(fs).lectureHall + Report(fs).lab <= |fs|)
  }

  /** The result the trackers and the report lead to. */
  function FinalTimetable(ps: seq<Placement>, conflictCount: nat, shortage: Shortage): Timetable
    requires forall i :: 0 <= i < |ps| ==> Shown(ps[i])
  {
    Timetable(SortSchedule(Entries(ps)), if conflictCount > 0 then Some(Alert(conflictCount, shortage)) else None)
  }

  /** What a consistent final state delivers. */
  lemma Conclude(g: Grid, lunch: set<Cell>, ps: seq<Placement>, fs: seq<Failure>, conflictCount: nat,
                 shortage: Shortage, teacherMap: map<Id, seq<Teacher>>, sections: seq<Section>,
                 rooms: seq<Room>, teachers: seq<Teacher>)
    requires Consistent(g, lunch, ps) && AllSuited(ps, rooms, teacherMap)
    requires Accounted(fs, conflictCount, shortage) && LunchShape(lunch, sections)
    requires forall id :: Capable(teacherMap, id) == Qualified(teachers, id)
    ensures Scheduled(ps, sections, rooms, teachers)
    ensures Presented(FinalTimetable(ps, conflictCount, shortage), ps, fs)
  {
    SortScheduleSpec(Entries(ps));
    LunchGapKept(lunch, sections, ps);
    StaffedFromIndex(ps, rooms, teacherMap, teachers);
    ReportTotal(fs);
  }

  // ---------------------------------------------------------------------
  // The turns of the main loop.

  /** One turn of the main loop: the lesson, the trackers as the turn found
      them, the order the shuffled days were tried in, and the verdict of
      the search. */
  datatype Turn = Turn(lesson: Lesson, before: Grid, days: seq<int>, verdict: Verdict)

  /** The booking a placed turn makes. */
  function Made(t: Turn): seq<Placement> {
    match t.verdict
    case Placed(day, start, room, teacher) => [Placement(t.lesson, day, start, room, teacher)]
    case Unplaced(_) => []
  }

  /** The failure an unplaced turn records, with the flags of its search. */
  function Missed(t: Turn): seq<Failure> {
    match t.verdict
    case Placed(_, _, _, _) => []
    case Unplaced(flags) => [(t.lesson, flags)]
  }

  /** The trackers a turn leaves behind. */
  function After(t: Turn): Grid {
    match t.verdict
    case Placed(day, start, room, teacher) => Apply(t.before, Placement(t.lesson, day, start, room, teacher))
    case Unplaced(_) => t.before
  }

  /** The bookings of the turns, in turn order. */
  function Bookings(ts: seq<Turn>): seq<Placement> {
    if ts == [] then [] else Bookings(ts[..|ts| - 1]) + Made(ts[|ts| - 1])
  }

  /** The failures of the turns, in turn order. */
  function Misses(ts: seq<Turn>): seq<Failure> {
    if ts == [] then [] else Misses(ts[..|ts| - 1]) + Missed(ts[|ts| - 1])
  }

  function TurnLessons(ts: seq<Turn>): seq<Lesson> {
    seq(|ts|, i requires 0 <= i < |ts| => ts[i].lesson)
  }

  /** The trackers after the turns, starting from `g`. */
  function Final(ts: seq<Turn>, g: Grid): Grid {
    if ts == [] then g else After(ts[|ts| - 1])
  }

  /** The turn searched the trackers it found, over a shuffle of the five
      days, with the teachers qualified for the lesson's subject. */
  ghost predicate Searched(t: Turn, rooms: seq<Room>, teachers: seq<Teacher>) {
    && multiset(t.days) == multiset{0, 1, 2, 3, 4}
    && t.verdict == Search(t.before, t.lesson, rooms, Qualified(teachers, t.lesson.subjectId), t.days)
  }

  /** Each turn found the trackers the one before it left, the first
      finding `g`. */
  predicate Chained(ts: seq<Turn>, g: Grid) {
    && (ts != [] ==> ts[0].before == g)
    && forall i :: 0 < i < |ts| ==> ts[i].before == After(ts[i - 1])
  }

  /** The turns ran one after another from the trackers `g`, each
      searching the trackers it found. */
  ghost predicate Ran(ts: seq<Turn>, g: Grid, rooms: seq<Room>, teachers: seq<Teacher>) {
    Chained(ts, g) && forall i :: 0 <= i < |ts| ==> Searched(ts[i], rooms, teachers)
  }

  /** What a verdict of the search over the week means, with `probe` the
      window test: a booked window is a window of the week that passes
      every check, with the room and teacher the check found; the lesson
      fails exactly when no window of the week passes, and then the room
      flag is set exactly when some window found the section free but no
      suitable room, and the teacher flag exactly when some window found a
      room but no available teacher. */
  ghost predicate WeekVerdict(probe: (int, int) -> Outcome, last: int, r: Verdict) {
    && (r.Placed? ==> 0 <= r.day < DAY_COUNT && 0 <= r.start <= last
                      && probe(r.day, r.start) == Fit(r.room, r.teacher))
    && (r.Unplaced? <==> forall d, s :: 0 <= d < DAY_COUNT && 0 <= s <= last ==> !probe(d, s).Fit?)
    && (r.Unplaced? ==>
          && (r.flags.room <==> exists d, s :: 0 <= d < DAY_COUNT && 0 <= s <= last && probe(d, s).NoRoom?)
          && (r.flags.teacher <==> exists d, s :: 0 <= d < DAY_COUNT && 0 <= s <= last && probe(d, s).NoTeacher?))
  }

  /** Scanning a shuffle of the five days from no flags yields a verdict
      with that meaning. */
  lemma WeekMeaning(probe: (int, int) -> Outcome, last: int, days: seq<int>, r: Verdict)
    requires multiset(days) == multiset{0, 1, 2, 3, 4}
    requires r == ScanDays(probe, last, days, NO_FLAGS)
    ensures WeekVerdict(probe, last, r)
  {
    ScanDaysMeaning(probe, last, days, NO_FLAGS);
    DaysMembership(days);
    if r.Placed? {
      var k :| 0 <= k < |days| && days[k] == r.day
               && (forall k', s :: 0 <= k' < k && 0 <= s <= last ==> !probe(days[k'], s).Fit?);
      assert days[k] in days;
    } else {
      forall d, s | 0 <= d < DAY_COUNT && 0 <= s <= last
        ensures !probe(d, s).Fit?
      {
        assert d in days;
        var k :| 0 <= k < |days| && days[k] == d;
      }
      WeekFlag(probe, last, days, (o: Outcome) => o.NoRoom?);
      WeekFlag(probe, last, days, (o: Outcome) => o.NoTeacher?);
    }
  }

  /** Some window of the shuffled days has a property exactly when some
      window of the week has it. */
  lemma WeekFlag(probe: (int, int) -> Outcome, last: int, days: seq<int>, bad: Outcome -> bool)
    requires forall d :: d in days <==> 0 <= d < DAY_COUNT
    ensures (exists k, s :: 0 <= k < |days| && 0 <= s <= last && bad(probe(days[k], s)))
            <==> (exists d, s :: 0 <= d < DAY_COUNT && 0 <= s <= last && bad(probe(d, s)))
  {
    if exists d, s :: 0 <= d < DAY_COUNT && 0 <= s <= last && bad(probe(d, s)) {
      var d, s :| 0 <= d < DAY_COUNT && 0 <= s <= last && bad(probe(d, s));
      assert d in days;
      var k :| 0 <= k < |days| && days[k] == d;
      assert bad(probe(days[k], s));
    }
    if exists k, s :: 0 <= k < |days| && 0 <= s <= last && bad(probe(days[k], s)) {
      var k, s :| 0 <= k < |days| && 0 <= s <= last && bad(probe(days[k], s));
      assert days[k] in days;
    }
  }

  /** Every turn's verdict has that meaning for the window test of its
      lesson, its rooms and the lesson's qualified teachers on the trackers
      the turn found. */
  lemma TurnMeaning(t: Turn, rooms: seq<Room>, teachers: seq<Teacher>)
    requires Searched(t, rooms, teachers)
    ensures WeekVerdict(ProbeOf(t.before, t.lesson, rooms, Qualified(teachers, t.lesson.subjectId)),
                        LastStart(t.lesson), t.verdict)
  {
    WeekMeaning(ProbeOf(t.before, t.lesson, rooms, Qualified(teachers, t.lesson.subjectId)), LastStart(t.lesson), t.days,
                t.verdict);
  }

  /** One more turn that found the trackers the turns so far left. */
  lemma ChainSnoc(ts: seq<Turn>, t: Turn, g: Grid)
    requires Chained(ts, g) && t.before == Final(ts, g)
    ensures Chained(ts + [t], g) && Final(ts + [t], g) == After(t)
    ensures Bookings(ts + [t]) == Bookings(ts) + Made(t) && Misses(ts + [t]) == Misses(ts) + Missed(t)
    ensures TurnLessons(ts + [t]) == TurnLessons(ts) + [t.lesson]
  {
    var us := ts + [t];
    assert us[..|ts|] == ts;
    forall i | 0 < i < |us|
      ensures us[i].before == After(us[i - 1])
    {
      assert us[i - 1] == ts[i - 1];
      if i < |ts| {
        assert us[i] == ts[i];
      }
    }
  }

  /** One more turn that searched the trackers the turns so far left. */
  lemma RanSnoc(ts: seq<Turn>, t: Turn, g: Grid, rooms: seq<Room>, teachers: seq<Teacher>)
    requires Ran(ts, g, rooms, teachers) && Searched(t, rooms, teachers) && t.before == Final(ts, g)
    ensures Ran(ts + [t], g, rooms, teachers) && Final(ts + [t], g) == After(t)
    ensures Bookings(ts + [t]) == Bookings(ts) + Made(t) && Misses(ts + [t]) == Misses(ts) + Missed(t)
    ensures TurnLessons(ts + [t]) == TurnLessons(ts) + [t.lesson]
  {
    ChainSnoc(ts, t, g);
    var us := ts + [t];
    forall i | 0 <= i < |us|
      ensures Searched(us[i], rooms, teachers)
    {
      if i < |ts| {
        assert us[i] == ts[i];
      }
    }
  }

  /** Every turn's lesson is booked or reported, exactly once. */
  lemma {:induction false} Tally(ts: seq<Turn>)
    ensures multiset(Lessons(Bookings(ts))) + multiset(FailedLessons(Misses(ts))) == multiset(TurnLessons(ts))
  {
    if ts != [] {
      var n := |ts| - 1;
      var t := ts[n];
      Tally(ts[..n]);
      assert TurnLessons(ts) == TurnLessons(ts[..n]) + [t.lesson];
      if t.verdict.Placed? {
        assert Bookings(ts) == Bookings(ts[..n]) + [Made(t)[0]] && Misses(ts) == Misses(ts[..n]);
        LessonsSnoc(Bookings(ts[..n]), Made(t)[0]);
      } else {
        assert Misses(ts) == Misses(ts[..n]) + [Missed(t)[0]] && Bookings(ts) == Bookings(ts[..n]);
        FailedLessonsSnoc(Misses(ts[..n]), Missed(t)[0]);
      }
    }
  }

  /** Step 4 and the queue order: expand the workload, shuffle it, and put
      the two-slot lessons first. */
  method PrepareQueue(sections: seq<Section>, subjects: seq<Subject>) returns (ordered: seq<Lesson>)
    ensures multiset(ordered) == multiset(Workload(sections, subjects))
    ensures forall l :: l in ordered ==> LessonOk(l)
    ensures forall i, j :: 0 <= i < j < |ordered| ==> ordered[i].duration >= ordered[j].duration
  {
    var queue := ExpandWorkload(sections, subjects);
    var a := new Lesson[|queue|](i requires 0 <= i < |queue| => queue[i]);
    assert a[..] == queue;
    Shuffle(a);
    ordered := LongestFirst(a[..]);
    OrderedWorkload(sections, subjects, a[..]);
  }

  /** Step 5, the main loop: place every lesson of the queue in turn.
      The turns it yields run one after another from the trackers it
      started with, one per lesson in queue order; their bookings are the
      timetable and their failures the failure record. */
  method PlaceAll(s: Scheduler, ordered: seq<Lesson>, ghost teachers: seq<Teacher>) returns (ghost turns: seq<Turn>)
    modifies s
    requires s.Valid() && s.booked == [] && s.failures == []
    requires forall l :: l in ordered ==> LessonOk(l)
    requires forall id :: Capable(s.teacherMap, id) == Qualified(teachers, id)
    ensures s.Valid() && s.lunch == old(s.lunch)
    ensures TurnLessons(turns) == ordered
    ensures Ran(turns, old(s.Snapshot()), s.rooms, teachers)
    ensures s.booked == Bookings(turns) && s.failures == Misses(turns)
  {
    ghost var g := s.Snapshot();
    turns := [];
    for i := 0 to |ordered|
      invariant s.Valid() && s.lunch == old(s.lunch)
      invariant TurnLessons(turns) == ordered[..i]
      invariant Ran(turns, g, s.rooms, teachers) && s.Snapshot() == Final(turns, g)
      invariant s.booked == Bookings(turns) && s.failures == Misses(turns)
    {
      assert ordered[i] in ordered;
      ghost var t := PlaceNext(s, ordered[i], teachers);
      RanSnoc(turns, t, g, s.rooms, teachers);
      TakeSnoc(ordered, i);
      turns := turns + [t];
    }
    assert ordered[..|ordered|] == ordered;
  }

  /** One turn of the main loop, as a record: it searched the trackers as
      they were, and its booking or failure is what it added. */
  method PlaceNext(s: Scheduler, l: Lesson, ghost teachers: seq<Teacher>) returns (ghost t: Turn)
    modifies s
    requires s.Valid() && LessonOk(l)
    requires forall id :: Capable(s.teacherMap, id) == Qualified(teachers, id)
    ensures s.Valid() && s.lunch == old(s.lunch)
    ensures t.lesson == l && t.before == old(s.Snapshot()) && Searched(t, s.rooms, teachers)
    ensures s.Snapshot() == After(t)
    ensures s.booked == old(s.booked) + Made(t) && s.failures == old(s.failures) + Missed(t)
  {
    ghost var g := s.Snapshot();
    var days, v := s.PlaceLesson(l);
    t := Turn(l, g, days, v);
  }

  /** The whole run.  Besides the result it yields, as ghost values, the
      order the lessons were tried in, the bookings in the order they were
      made, the lessons that could not be placed with their flags, the
      lunch reservation, and the record of every turn of the main loop. */
  method Generate(sections: seq<Section>, subjects: seq<Subject>, teachers: seq<Teacher>,
                  rooms: seq<Room>, schoolId: string)
    returns (res: Result<Timetable, InputError>, ghost order: seq<Lesson>,
             ghost placements: seq<Placement>, ghost failed: seq<Failure>,
             ghost lunch: set<Cell>, ghost turns: seq<Turn>)
    ensures sections == [] <==> res == Err(NoSections)
    ensures sections != [] && schoolId == "" <==> res == Err(MissingSchoolId)
    ensures res.Ok? ==>
              // the queue: the workload, two-slot lessons first
              && multiset(order) == multiset(Workload(sections, subjects))
              && (forall i, j :: 0 <= i < j < |order| ==> order[i].duration >= order[j].duration)
              // one turn per lesson, in queue order, each searching the trackers
              // the one before left, from the lunch reservation alone
              && TurnLessons(turns) == order && LunchShape(lunch, sections)
              // no booking covers a section's lunch cell
              && LunchKept(placements, lunch)
              && Ran(turns, Grid(lunch, {}, {}, map[], map[]), rooms, teachers)
              && placements == Bookings(turns) && failed == Misses(turns)
              // every lesson is either booked or reported, once
              && multiset(Lessons(placements)) + multiset(FailedLessons(failed)) == multiset(order)
              && |res.value.schedule| + |failed| == |order|
              && Scheduled(placements, sections, rooms, teachers)
              && Presented(res.value, placements, failed)
  {
    order, placements, failed, lunch, turns := [], [], [], {}, [];
    if |sections| == 0 {
      return Err(NoSections), order, placements, failed, lunch, turns;
    }
    if schoolId == "" {
      return Err(MissingSchoolId), order, placements, failed, lunch, turns;
    }
    var teacherMap := BuildTeacherMap(teachers);
    var s := new Scheduler(rooms, teacherMap);
    s.ReserveLunch(sections);
    lunch := s.lunch;
    assert s.Snapshot() == Grid(lunch, {}, {}, map[], map[]);
    var ordered := PrepareQueue(sections, subjects);
    turns := PlaceAll(s, ordered, teachers);
    Tally(turns);
    Conclude(s.Snapshot(), s.lunch, s.booked, s.failures, s.conflictCount, s.shortage, teacherMap,
             sections, rooms, teachers);
    order, placements, failed := ordered, s.booked, s.failures;
    res := Ok(FinalTimetable(s.booked, s.conflictCount, s.shortage));
    assert |multiset(res.value.schedule)| == |multiset(Entries(placements))|;
    assert |multiset(Lessons(placements)) + multiset(FailedLessons(failed))| == |multiset(order)|;
  }
}
