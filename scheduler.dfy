/** The state of one run of the engine: the three occupancy trackers, the
    two rule tables, the timetable built so far, the conflict count and the
    shortage report, together with the operations of the main loop that
    change them. */
module Booking {
  import opened Domain
  import opened Slots
  import opened Feasibility
  import opened Ledger
  import opened Shortages
  import opened TeacherIndex
  import opened Shuffling

  predicate NamesDistinct(sections: seq<Section>) {
    forall i, j :: 0 <= i < j < |sections| ==> sections[i].name != sections[j].name
  }

  /** The lunch reservation blocks slot 3 or slot 4 of every section on
      every day, nothing else, and (when section names are distinct) not
      both. */
  ghost predicate LunchShape(lunch: set<Cell>, sections: seq<Section>) {
    && (forall i, d :: 0 <= i < |sections| && 0 <= d < DAY_COUNT ==>
                         (d, 3, sections[i].name) in lunch || (d, 4, sections[i].name) in lunch)
    && (forall c :: c in lunch ==> 0 <= c.0 < DAY_COUNT && (c.1 == 3 || c.1 == 4)
                                   && exists i :: 0 <= i < |sections| && sections[i].name == c.2)
    && (NamesDistinct(sections) ==> forall n, d :: !((d, 3, n) in lunch && (d, 4, n) in lunch))
  }

  /** A booking of a well-formed lesson sits inside the week, its room is
      one of the rooms and passes the room filter, and its teacher is
      offered for its subject. */
  predicate Suited(p: Placement, rooms: seq<Room>, teacherMap: map<Id, seq<Teacher>>) {
    && LessonOk(p.lesson)
    && 0 <= p.day < DAY_COUNT && 0 <= p.start <= LastStart(p.lesson)
    && p.room in rooms && RoomSuits(p.room, p.lesson)
    && p.teacher in Capable(teacherMap, p.lesson.subjectId)
  }

  predicate AllSuited(ps: seq<Placement>, rooms: seq<Room>, teacherMap: map<Id, seq<Teacher>>) {
    forall i :: 0 <= i < |ps| ==> Suited(ps[i], rooms, teacherMap)
  }

  /** The conflict count is the number of failures and the report charges
      exactly them. */
  ghost predicate Accounted(failures: seq<Failure>, conflictCount: nat, shortage: Shortage) {
    conflictCount == |failures| && shortage == Report(failures)
  }

  /** The booking a placed search yields passes the probe's checks and
      suits the rooms and the teacher map. */
  lemma PlacedBooking(g: Grid, l: Lesson, rooms: seq<Room>, teacherMap: map<Id, seq<Teacher>>, days: seq<int>)
    requires LessonOk(l) && Search(g, l, rooms, Capable(teacherMap, l.subjectId), days).Placed?
    requires forall d :: d in days ==> 0 <= d < DAY_COUNT
    ensures var v := Search(g, l, rooms, Capable(teacherMap, l.subjectId), days);
            var p := Placement(l, v.day, v.start, v.room, v.teacher);
            Admissible(g, p) && Suited(p, rooms, teacherMap)
  {
    var capable := Capable(teacherMap, l.subjectId);
    var v := Search(g, l, rooms, capable, days);
    var p := Placement(l, v.day, v.start, v.room, v.teacher);
    SearchPlaced(g, l, rooms, capable, days);
    FitIsAdmissible(g, p, rooms, capable);
    ProbeMeaning(g, l, rooms, capable, v.day, v.start);
  }

  lemma AllSuitedSnoc(ps: seq<Placement>, p: Placement, rooms: seq<Room>, teacherMap: map<Id, seq<Teacher>>)
    requires AllSuited(ps, rooms, teacherMap) && Suited(p, rooms, teacherMap)
    ensures AllSuited(ps + [p], rooms, teacherMap)
  {
  }

  lemma LunchGrow(lunch: set<Cell>, lunch': set<Cell>, sections: seq<Section>, i: int)
    requires 0 <= i < |sections|
    requires LunchShape(lunch, sections[..i])
    requires lunch <= lunch'
    requires forall d :: 0 <= d < DAY_COUNT ==> (d, 3, sections[i].name) in lunch' || (d, 4, sections[i].name) in lunch'
    requires forall c :: c in lunch' && c !in lunch ==>
                           0 <= c.0 < DAY_COUNT && (c.1 == 3 || c.1 == 4) && c.2 == sections[i].name
    requires forall d :: !((d, 3, sections[i].name) in lunch' && (d, 3, sections[i].name) !in lunch
                           && (d, 4, sections[i].name) in lunch' && (d, 4, sections[i].name) !in lunch)
    ensures LunchShape(lunch', sections[..i + 1])
  {
    var secs := sections[..i + 1];
    assert secs[..i] == sections[..i];
    forall c | c in lunch'
      ensures exists j :: 0 <= j < |secs| && secs[j].name == c.2
    {
      if c in lunch {
        var j :| 0 <= j < i && sections[..i][j].name == c.2;
        assert secs[j].name == c.2;
      } else {
        assert secs[i].name == c.2;
      }
    }
    if NamesDistinct(secs) {
      assert NamesDistinct(sections[..i]);
      assert forall n, d :: !((d, 3, n) in lunch' && (d, 4, n) in lunch');
    }
  }

  /** The `timeKeys.forEach` loop: add every key of the booking's window
      to the section, room and teacher sets. */
  method CoverWindow(sections: set<Cell>, rooms: set<Cell>, teachers: set<Cell>, p: Placement)
    returns (sections': set<Cell>, rooms': set<Cell>, teachers': set<Cell>)
    requires LessonOk(p.lesson)
    ensures sections' == sections + Covers(p, BySection)
    ensures rooms' == rooms + Covers(p, ByRoom)
    ensures teachers' == teachers + Covers(p, ByTeacher)
  {
    var l := p.lesson;
    sections', rooms', teachers' := sections, rooms, teachers;
    for k := 0 to l.duration
      invariant sections' == sections + Window(p.day, p.start, k, l.className)
      invariant rooms' == rooms + Window(p.day, p.start, k, p.room.id)
      invariant teachers' == teachers + Window(p.day, p.start, k, p.teacher.id)
    {
      var idx := p.start + k;
      sections' := sections' + {(p.day, idx, l.className)};
      rooms' := rooms' + {(p.day, idx, p.room.id)};
      teachers' := teachers' + {(p.day, idx, p.teacher.id)};
      WindowGrow(p.day, p.start, k, l.className);
      WindowGrow(p.day, p.start, k, p.room.id);
      WindowGrow(p.day, p.start, k, p.teacher.id);
    }
  }

  class Scheduler {
    const rooms: seq<Room>
    const teacherMap: map<Id, seq<Teacher>>

    var busySections: set<Cell>
    var busyRooms: set<Cell>
    var busyTeachers: set<Cell>
    /** `dailySubjectTracker`. */
    var dailySubjects: map<(string, int), seq<string>>
    /** `teacherSectionSubjectMap`. */
    var locks: map<(Id, string), string>
    /** The bookings in the order they were made (`masterTimetable`). */
    var booked: seq<Placement>
    var conflictCount: nat
    var shortage: Shortage

    /** The cells the lunch reservation blocked. */
    ghost var lunch: set<Cell>
    /** The lessons that could not be placed, with their flags. */
    ghost var failures: seq<Failure>

    function Snapshot(): Grid
      reads this`busySections, this`busyRooms, this`busyTeachers, this`dailySubjects, this`locks
    {
      Grid(busySections, busyRooms, busyTeachers, dailySubjects, locks)
    }

    ghost predicate Valid()
      reads this
    {
      Tracked() && Accounted(failures, conflictCount, shortage)
    }

    /** The trackers agree with the bookings, and every booking is suited. */
    ghost predicate Tracked()
      reads this`busySections, this`busyRooms, this`busyTeachers, this`dailySubjects, this`locks
      reads this`lunch, this`booked
    {
      Consistent(Snapshot(), lunch, booked) && AllSuited(booked, rooms, teacherMap)
    }

    /** The trackers, the timetable and the report before the run. */
    constructor(rooms: seq<Room>, teacherMap: map<Id, seq<Teacher>>)
      ensures Valid()
      ensures this.rooms == rooms && this.teacherMap == teacherMap
      ensures busySections == {} && lunch == {} && booked == [] && failures == []
      ensures Snapshot() == Grid({}, {}, {}, map[], map[])
    {
      this.rooms := rooms;
      this.teacherMap := teacherMap;
      busySections, busyRooms, busyTeachers := {}, {}, {};
      dailySubjects, locks := map[], map[];
      booked := [];
      conflictCount := 0;
      shortage := EMPTY_REPORT;
      lunch := {};
      failures := [];
    }

    /** Step 3: block a lunch slot, 3 or 4 at random, for every section on
        every day. */
    method ReserveLunch(sections: seq<Section>)
      modifies this`busySections, this`lunch
      requires Valid() && booked == [] && lunch == {} && busySections == {}
      ensures Valid() && LunchShape(lunch, sections) && busySections == lunch
      ensures booked == [] && failures == old(failures)
    {
      for i := 0 to |sections|
        invariant Valid() && booked == [] && failures == old(failures) && busySections == lunch
        invariant LunchShape(lunch, sections[..i])
      {
        ghost var before := lunch;
        ReserveSection(sections[i]);
        LunchGrow(before, lunch, sections, i);
      }
      assert sections[..|sections|] == sections;
    }

    /** The day loop of the reservation for one section. */
    method ReserveSection(sec: Section)
      modifies this`busySections, this`lunch
      requires Valid() && booked == [] && busySections == lunch
      ensures Valid() && booked == [] && failures == old(failures) && busySections == lunch
      ensures old(lunch) <= lunch
      ensures forall d :: 0 <= d < DAY_COUNT ==> (d, 3, sec.name) in lunch || (d, 4, sec.name) in lunch
      ensures forall c :: c in lunch && c !in old(lunch) ==>
                            0 <= c.0 < DAY_COUNT && (c.1 == 3 || c.1 == 4) && c.2 == sec.name
      ensures forall d :: !((d, 3, sec.name) in lunch && (d, 3, sec.name) !in old(lunch)
                            && (d, 4, sec.name) in lunch && (d, 4, sec.name) !in old(lunch))
    {
      for d := 0 to DAY_COUNT
        invariant Valid() && booked == [] && failures == old(failures) && busySections == lunch
        invariant old(lunch) <= lunch
        invariant forall d' :: 0 <= d' < d ==> (d', 3, sec.name) in lunch || (d', 4, sec.name) in lunch
        invariant forall c :: c in lunch && c !in old(lunch) ==>
                                0 <= c.0 < d && (c.1 == 3 || c.1 == 4) && c.2 == sec.name
        invariant forall d' :: !((d', 3, sec.name) in lunch && (d', 3, sec.name) !in old(lunch)
                                 && (d', 4, sec.name) in lunch && (d', 4, sec.name) !in old(lunch))
      {
        var coin: bool :| true;
        var lunchIndex := if coin then 3 else 4;
        busySections := busySections + {(d, lunchIndex, sec.name)};
        lunch := lunch + {(d, lunchIndex, sec.name)};
      }
    }

    /** The day and slot loops for one lesson, up to the booking: try the
        days in the given order and, on each, the window starts in order;
        stop at the first window that passes every check. */
    method FindSlot(l: Lesson, days: seq<int>) returns (v: Verdict)
      ensures v == Search(Snapshot(), l, rooms, Capable(teacherMap, l.subjectId), days)
    {
      var capable := Capable(teacherMap, l.subjectId);
      ghost var probe := ProbeOf(Snapshot(), l, rooms, capable);
      var flags := NO_FLAGS;
      for i := 0 to |days|
        invariant Search(Snapshot(), l, rooms, capable, days) == ScanDays(probe, LastStart(l), days[i..], flags)
      {
        assert days[i..][1..] == days[i + 1..];
        var r := ScanDay(l, capable, days[i], flags);
        if r.Placed? {
          return r;
        }
        flags := r.flags;
      }
      v := Unplaced(flags);
    }

    /** The slot loop of one day: try the window starts in order, noting
        why each one failed, and stop at the first that fits. */
    method ScanDay(l: Lesson, capable: seq<Teacher>, day: int, f: Flags) returns (r: Verdict)
      ensures r == ScanSlots(ProbeOf(Snapshot(), l, rooms, capable), LastStart(l), day, 0, f)
    {
      ghost var probe := ProbeOf(Snapshot(), l, rooms, capable);
      var last := SLOT_COUNT - l.duration;
      var failedDueToRoom, failedDueToTeacher := f.room, f.teacher;
      var slotIndex := 0;
      while slotIndex <= last
        invariant ScanSlots(probe, last, day, 0, f)
                  == ScanSlots(probe, last, day, slotIndex, Flags(failedDueToRoom, failedDueToTeacher))
        decreases last - slotIndex
      {
        var o := TrySlot(l, capable, day, slotIndex);
        if o.Fit? {
          return Placed(day, slotIndex, o.room, o.teacher);
        }
        if o.NoRoom? {
          failedDueToRoom := true;
        } else if o.NoTeacher? {
          failedDueToTeacher := true;
        }
        slotIndex := slotIndex + 1;
      }
      r := Unplaced(Flags(failedDueToRoom, failedDueToTeacher));
    }

    /** The body of the slot loop, up to the booking: the section check, the
        daily guard, the room search and the teacher search. */
    method TrySlot(l: Lesson, capable: seq<Teacher>, day: int, start: int) returns (o: Outcome)
      ensures o == ProbeOf(Snapshot(), l, rooms, capable)(day, start)
    {
      if !Free(busySections, day, start, l.duration, l.className) {
        return SectionBusy;
      }
      if l.kind != Practical && l.name in DailyOf(dailySubjects, l.className, day) {
        return Repeated;
      }
      var freeRoom := FreeRoom(rooms, l, busyRooms, day, start);
      if freeRoom.None? {
        return NoRoom;
      }
      var freeTeacher := FreeTeacher(capable, l, Snapshot(), day, start);
      if freeTeacher.None? {
        // the "relaxed" fallback applies the very same test
        freeTeacher := FreeTeacher(capable, l, Snapshot(), day, start);
      }
      if freeTeacher.None? {
        return NoTeacher;
      }
      return Fit(freeRoom.value, freeTeacher.value);
    }

    /** "BOOK IT": mark the window busy for the section, the room and the
        teacher, lock the teacher to the subject for the section, record
        the name for the day, and push the booking. */
    method Book(p: Placement)
      modifies this
      requires Valid() && Admissible(Snapshot(), p) && Suited(p, rooms, teacherMap)
      ensures Valid()
      ensures Snapshot() == Apply(old(Snapshot()), p)
      ensures booked == old(booked) + [p]
      ensures failures == old(failures) && lunch == old(lunch)
      ensures conflictCount == old(conflictCount) && shortage == old(shortage)
    {
      ghost var g := Snapshot();
      BookKeepsConsistent(g, lunch, booked, p);
      AllSuitedSnoc(booked, p, rooms, teacherMap);
      MarkBusy(p);
      Commit(p);
    }

    /** The lock, the daily push and the push onto the timetable. */
    method Commit(p: Placement)
      modifies this
      ensures locks == old(locks)[(p.teacher.id, p.lesson.className) := p.lesson.name]
      ensures dailySubjects == old(dailySubjects)[(p.lesson.className, p.day) :=
                                 DailyOf(old(dailySubjects), p.lesson.className, p.day) + [p.lesson.name]]
      ensures booked == old(booked) + [p]
      ensures busySections == old(busySections) && busyRooms == old(busyRooms)
      ensures busyTeachers == old(busyTeachers)
      ensures failures == old(failures) && lunch == old(lunch)
      ensures conflictCount == old(conflictCount) && shortage == old(shortage)
    {
      var l := p.lesson;
      locks := locks[(p.teacher.id, l.className) := l.name];
      dailySubjects := dailySubjects[(l.className, p.day) := DailyOf(dailySubjects, l.className, p.day) + [l.name]];
      booked := booked + [p];
    }

    /** `timeKeys.forEach`: add every key of the window to the three
        occupancy sets. */
    method MarkBusy(p: Placement)
      modifies this`busySections, this`busyRooms, this`busyTeachers
      requires LessonOk(p.lesson)
      ensures busySections == old(busySections) + Covers(p, BySection)
      ensures busyRooms == old(busyRooms) + Covers(p, ByRoom)
      ensures busyTeachers == old(busyTeachers) + Covers(p, ByTeacher)
    {
      busySections, busyRooms, busyTeachers := CoverWindow(busySections, busyRooms, busyTeachers, p);
    }

    /** The `if (!placed)` block: count the conflict and charge the report. */
    method RecordFailure(l: Lesson, f: Flags)
      modifies this
      requires Valid()
      ensures Valid()
      ensures failures == old(failures) + [(l, f)]
      ensures conflictCount == old(conflictCount) + 1 && shortage == Charge(old(shortage), l, f)
      ensures Snapshot() == old(Snapshot()) && booked == old(booked) && lunch == old(lunch)
    {
      conflictCount := conflictCount + 1;
      shortage := Charge(shortage, l, f);
      failures := failures + [(l, f)];
      ReportSnoc(old(failures), l, f);
      assert Snapshot() == old(Snapshot()) && booked == old(booked) && lunch == old(lunch);
    }

    /** One turn of the main loop: shuffle the days, search, and either book
        the window found or record the failure. */
    method PlaceLesson(l: Lesson) returns (days: seq<int>, v: Verdict)
      modifies this
      requires Valid() && LessonOk(l)
      ensures Valid() && lunch == old(lunch)
      ensures multiset(days) == multiset{0, 1, 2, 3, 4}
      ensures v == Search(old(Snapshot()), l, rooms, Capable(teacherMap, l.subjectId), days)
      ensures v.Placed? ==> booked == old(booked) + [Placement(l, v.day, v.start, v.room, v.teacher)]
                            && failures == old(failures)
      ensures v.Unplaced? ==> booked == old(booked) && failures == old(failures) + [(l, v.flags)]
      ensures Snapshot() == if v.Placed? then Apply(old(Snapshot()), Placement(l, v.day, v.start, v.room, v.teacher))
                            else old(Snapshot())
    {
      days := ShuffledDays();
      v := FindSlot(l, days);
      if v.Placed? {
        var p := Placement(l, v.day, v.start, v.room, v.teacher);
        PlacedBooking(Snapshot(), l, rooms, teacherMap, days);
        Book(p);
      } else {
        RecordFailure(l, v.flags);
      }
    }
  }
}
