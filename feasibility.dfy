/** The test the placement loop applies to one lesson at one window (a day
    and a first slot), and the scan over the shuffled days and the slots in
    order that stops at the first window that passes.  Everything here reads
    a snapshot of the trackers and changes nothing. */
module Feasibility {
  import opened Text
  import opened Domain
  import opened Slots

  /** A tracker key `${day}-${slot}-${who}`: the day index, the slot index,
      and a section name, room id or teacher id. */
  type Cell = (int, int, string)

  /** None of the `duration` slots from `start` on `day` is taken by `who`. */
  predicate Free(busy: set<Cell>, day: int, start: int, duration: int, who: string) {
    forall k :: start <= k < start + duration ==> (day, k, who) !in busy
  }

  /** The keys `timeKeys` makes for `who`. */
  function Window(day: int, start: int, duration: int, who: string): set<Cell> {
    set k | start <= k < start + duration :: (day, k, who)
  }

  lemma WindowMembers(day: int, start: int, duration: int, who: string, c: Cell)
    ensures c in Window(day, start, duration, who) <==>
              c.0 == day && start <= c.1 < start + duration && c.2 == who
  {
    if c.0 == day && start <= c.1 < start + duration && c.2 == who {
      assert c == (day, c.1, who);
    }
  }

  /** One more slot of a window is one more key. */
  lemma WindowGrow(day: int, start: int, n: int, who: string)
    requires n >= 0
    ensures Window(day, start, n + 1, who) == Window(day, start, n, who) + {(day, start + n, who)}
  {
    forall c
      ensures c in Window(day, start, n + 1, who) <==> c in Window(day, start, n, who) || c == (day, start + n, who)
    {
      WindowMembers(day, start, n + 1, who, c);
      WindowMembers(day, start, n, who, c);
    }
  }

  /** The trackers at one moment: the three occupancy sets,
      `dailySubjectTracker` keyed by (section name, day index) and
      `teacherSectionSubjectMap` keyed by (teacher id, section name). */
  datatype Grid = Grid(sections: set<Cell>, rooms: set<Cell>, teachers: set<Cell>,
                       daily: map<(string, int), seq<string>>,
                       locks: map<(Id, string), string>)

  /** `dailySubjectTracker[key]`, which the loop creates empty on first use. */
  function DailyOf(daily: map<(string, int), seq<string>>, cls: string, day: int): seq<string> {
    if (cls, day) in daily then daily[(cls, day)] else []
  }

  function LockOf(locks: map<(Id, string), string>, teacher: Id, cls: string): Option<string> {
    if (teacher, cls) in locks then Some(locks[(teacher, cls)]) else None
  }

  /** `lockedSubject && lockedSubject !== lesson.name`: an empty locked name
      is no lock. */
  predicate LockBlocks(locks: map<(Id, string), string>, teacher: Id, cls: string, name: string) {
    LockOf(locks, teacher, cls).Some? && LockOf(locks, teacher, cls).value != ""
    && LockOf(locks, teacher, cls).value != name
  }

  /** A room counts as a lab when its normalised type is "LAB" and as a
      lecture hall otherwise. */
  predicate IsLabRoom(r: Room) {
    Normalize(r.kind) == "LAB"
  }

  /** The room filter: the required type, and the room's department equal to
      the lesson's or the wildcard (a wildcard lesson department matches only
      wildcard rooms). */
  predicate RoomSuits(r: Room, l: Lesson) {
    IsLabRoom(r) == (l.kind == Practical)
    && (Normalize(r.department) == Normalize(l.department) || Normalize(r.department) == GENERAL)
  }

  /** `Array.prototype.find`: the first element that passes. */
  function Find<T>(xs: seq<T>, p: T -> bool): (r: Option<T>)
    ensures r.Some? ==> r.value in xs && p(r.value)
    ensures r.None? ==> forall x :: x in xs ==> !p(x)
  {
    if xs == [] then None else if p(xs[0]) then Some(xs[0]) else Find(xs[1..], p)
  }

  /** What `find` returns is the first passing element. */
  lemma {:induction false} FindFirst<T>(xs: seq<T>, p: T -> bool)
    ensures Find(xs, p).Some? ==>
              exists i :: 0 <= i < |xs| && xs[i] == Find(xs, p).value
                          && forall j :: 0 <= j < i ==> !p(xs[j])
  {
    if xs != [] && !p(xs[0]) {
      FindFirst(xs[1..], p);
      if Find(xs[1..], p).Some? {
        var i :| 0 <= i < |xs| - 1 && xs[1..][i] == Find(xs[1..], p).value
                 && forall j :: 0 <= j < i ==> !p(xs[1..][j]);
        assert xs[i + 1] == Find(xs, p).value;
        forall j | 0 <= j < i + 1
          ensures !p(xs[j])
        {
          if j > 0 {
            assert xs[j] == xs[1..][j - 1];
          }
        }
      }
    }
  }

  /** `freeRoom`: the first suitable room none of whose window slots is taken. */
  function FreeRoom(rooms: seq<Room>, l: Lesson, busy: set<Cell>, day: int, start: int): Option<Room> {
    Find(rooms, (r: Room) => RoomSuits(r, l) && Free(busy, day, start, l.duration, r.id))
  }

  /** The test the strict teacher search (and its identical fallback)
      applies: the teacher is free for the whole window, and no lock ties
      it to another subject in this section. */
  predicate TeacherAvailable(t: Teacher, l: Lesson, g: Grid, day: int, start: int) {
    Free(g.teachers, day, start, l.duration, t.id) && !LockBlocks(g.locks, t.id, l.className, l.name)
  }

  function FreeTeacher(capable: seq<Teacher>, l: Lesson, g: Grid, day: int, start: int): Option<Teacher> {
    Find(capable, (t: Teacher) => TeacherAvailable(t, l, g, day, start))
  }

  /** How one window turned out, in the order the loop body tests. */
  datatype Outcome = SectionBusy | Repeated | NoRoom | NoTeacher | Fit(room: Room, teacher: Teacher)

  /** The body of the slot loop, up to the booking. */
  function Probe(g: Grid, l: Lesson, rooms: seq<Room>, capable: seq<Teacher>, day: int, start: int): Outcome {
    if !Free(g.sections, day, start, l.duration, l.className) then SectionBusy
    else if l.kind != Practical && l.name in DailyOf(g.daily, l.className, day) then Repeated
    else
      var room := FreeRoom(rooms, l, g.rooms, day, start);
      if room.None? then NoRoom
      else
        var teacher := FreeTeacher(capable, l, g, day, start);
        if teacher.None? then NoTeacher
        else Fit(room.value, teacher.value)
  }

  /** A window fits exactly when the section is free, the daily guard lets
      the lesson through, and a suitable free room and a capable available
      teacher exist; what it fits with is such a room and such a teacher.
      A room failure means no suitable room was free, a teacher failure
      that a room was found but no capable teacher was available. */
  lemma ProbeMeaning(g: Grid, l: Lesson, rooms: seq<Room>, capable: seq<Teacher>, day: int, start: int)
    ensures var o := Probe(g, l, rooms, capable, day, start);
            var open := Free(g.sections, day, start, l.duration, l.className)
                        && (l.kind == Practical || l.name !in DailyOf(g.daily, l.className, day));
            var someRoom := exists r :: r in rooms && RoomSuits(r, l) && Free(g.rooms, day, start, l.duration, r.id);
            var someTeacher := exists t :: t in capable && TeacherAvailable(t, l, g, day, start);
            && (o.Fit? <==> open && someRoom && someTeacher)
            && (o.Fit? ==> o.room in rooms && RoomSuits(o.room, l) && Free(g.rooms, day, start, l.duration, o.room.id)
                           && o.teacher in capable && TeacherAvailable(o.teacher, l, g, day, start))
            && (o.NoRoom? <==> open && !someRoom)
            && (o.NoTeacher? <==> open && someRoom && !someTeacher)
  {
  }

  // ---------------------------------------------------------------------
  // The scan.  `failedDueToRoom` and `failedDueToTeacher` are set by any
  // window of any day and never cleared.

  datatype Flags = Flags(room: bool, teacher: bool)

  const NO_FLAGS: Flags := Flags(false, false)

  datatype Verdict = Placed(day: int, start: int, room: Room, teacher: Teacher) | Unplaced(flags: Flags)

  function Note(f: Flags, o: Outcome): Flags {
    if o.NoRoom? then f.(room := true) else if o.NoTeacher? then f.(teacher := true) else f
  }

  /** The last window start of the slot loop, `SLOT_TIMINGS.length - duration`. */
  function LastStart(l: Lesson): int {
    SLOT_COUNT - l.duration
  }

  /** The slot loop of one day from `start` to `last`, carrying the flags;
      `probe` is the window test. */
  function ScanSlots(probe: (int, int) -> Outcome, last: int, day: int, start: int, f: Flags): Verdict
    decreases last - start
  {
    if start > last then Unplaced(f)
    else
      var o := probe(day, start);
      if o.Fit? then Placed(day, start, o.room, o.teacher)
      else ScanSlots(probe, last, day, start + 1, Note(f, o))
  }

  /** The day loop over `days` in their (shuffled) order. */
  function ScanDays(probe: (int, int) -> Outcome, last: int, days: seq<int>, f: Flags): Verdict
    decreases |days|
  {
    if days == [] then Unplaced(f)
    else
      var r := ScanSlots(probe, last, days[0], 0, f);
      if r.Placed? then r else ScanDays(probe, last, days[1..], r.flags)
  }

  /** The slot scan stops at the first window of the day from `start` on
      that fits; when none fits, each flag is set exactly when it was set
      before or some window failed for that reason. */
  lemma {:induction false} ScanSlotsMeaning(probe: (int, int) -> Outcome, last: int, day: int, start: int, f: Flags)
    ensures var r := ScanSlots(probe, last, day, start, f);
            && (r.Placed? ==> r.day == day && start <= r.start <= last
                              && probe(day, r.start) == Fit(r.room, r.teacher)
                              && forall s :: start <= s < r.start ==> !probe(day, s).Fit?)
            && (r.Unplaced? ==>
                  && (forall s :: start <= s <= last ==> !probe(day, s).Fit?)
                  && (r.flags.room <==> f.room || exists s :: start <= s <= last && probe(day, s).NoRoom?)
                  && (r.flags.teacher <==> f.teacher || exists s :: start <= s <= last && probe(day, s).NoTeacher?))
    decreases last - start
  {
    if start <= last && !probe(day, start).Fit? {
      ScanSlotsMeaning(probe, last, day, start + 1, Note(f, probe(day, start)));
    }
  }

  /** The day scan places the lesson on the first day (in the given order)
      that has a fitting window, at that day's first fitting window; when it
      does not place it, no window of any of the days fits, and each flag
      says whether some window of some day failed for that reason. */
  lemma {:induction false} ScanDaysMeaning(probe: (int, int) -> Outcome, last: int, days: seq<int>, f: Flags)
    ensures var r := ScanDays(probe, last, days, f);
            && (r.Placed? ==>
                  && 0 <= r.start <= last
                  && probe(r.day, r.start) == Fit(r.room, r.teacher)
                  && (exists k :: 0 <= k < |days| && days[k] == r.day
                                  && (forall k', s :: 0 <= k' < k && 0 <= s <= last ==> !probe(days[k'], s).Fit?))
                  && forall s :: 0 <= s < r.start ==> !probe(r.day, s).Fit?)
            && (r.Unplaced? ==>
                  && (forall k, s :: 0 <= k < |days| && 0 <= s <= last ==> !probe(days[k], s).Fit?)
                  && (r.flags.room <==> f.room || exists k, s :: 0 <= k < |days| && 0 <= s <= last
                                                                 && probe(days[k], s).NoRoom?)
                  && (r.flags.teacher <==> f.teacher || exists k, s :: 0 <= k < |days| && 0 <= s <= last
                                                                       && probe(days[k], s).NoTeacher?))
    decreases |days|
  {
    if days != [] {
      var first := ScanSlots(probe, last, days[0], 0, f);
      ScanSlotsMeaning(probe, last, days[0], 0, f);
      if first.Unplaced? {
        var rest := days[1..];
        ScanDaysMeaning(probe, last, rest, first.flags);
        var r := ScanDays(probe, last, days, f);
        assert r == ScanDays(probe, last, rest, first.flags);
        if r.Placed? {
          var k :| 0 <= k < |rest| && rest[k] == r.day
                   && (forall k', s :: 0 <= k' < k && 0 <= s <= last ==> !probe(rest[k'], s).Fit?);
          assert days[k + 1] == r.day;
          forall k', s | 0 <= k' < k + 1 && 0 <= s <= last
            ensures !probe(days[k'], s).Fit?
          {
            if k' > 0 {
              assert days[k'] == rest[k' - 1];
            }
          }
        } else {
          forall k, s | 0 <= k < |days| && 0 <= s <= last
            ensures !probe(days[k], s).Fit?
          {
            if k > 0 {
              assert days[k] == rest[k - 1];
            }
          }
          if exists k, s :: 0 <= k < |days| && 0 <= s <= last && probe(days[k], s).NoRoom? {
            var k, s :| 0 <= k < |days| && 0 <= s <= last && probe(days[k], s).NoRoom?;
            if k > 0 {
              assert days[k] == rest[k - 1];
            }
          }
          if exists k, s :: 0 <= k < |rest| && 0 <= s <= last && probe(rest[k], s).NoRoom? {
            var k, s :| 0 <= k < |rest| && 0 <= s <= last && probe(rest[k], s).NoRoom?;
            assert rest[k] == days[k + 1];
          }
          if exists k, s :: 0 <= k < |days| && 0 <= s <= last && probe(days[k], s).NoTeacher? {
            var k, s :| 0 <= k < |days| && 0 <= s <= last && probe(days[k], s).NoTeacher?;
            if k > 0 {
              assert days[k] == rest[k - 1];
            }
          }
          if exists k, s :: 0 <= k < |rest| && 0 <= s <= last && probe(rest[k], s).NoTeacher? {
            var k, s :| 0 <= k < |rest| && 0 <= s <= last && probe(rest[k], s).NoTeacher?;
            assert rest[k] == days[k + 1];
          }
        }
      }
    }
  }

  /** The window test of one lesson against one snapshot. */
  function ProbeOf(g: Grid, l: Lesson, rooms: seq<Room>, capable: seq<Teacher>): (int, int) -> Outcome {
    (day: int, start: int) => Probe(g, l, rooms, capable, day, start)
  }

  /** The search for one lesson: all days in the given order, no flag set yet. */
  function Search(g: Grid, l: Lesson, rooms: seq<Room>, capable: seq<Teacher>, days: seq<int>): Verdict {
    ScanDays(ProbeOf(g, l, rooms, capable), LastStart(l), days, NO_FLAGS)
  }

  /** A placed search result names one of the given days, a window start
      in range, and a room and teacher the probe accepted there. */
  lemma SearchPlaced(g: Grid, l: Lesson, rooms: seq<Room>, capable: seq<Teacher>, days: seq<int>)
    requires Search(g, l, rooms, capable, days).Placed?
    ensures var v := Search(g, l, rooms, capable, days);
            && v.day in days && 0 <= v.start <= LastStart(l)
            && Probe(g, l, rooms, capable, v.day, v.start) == Fit(v.room, v.teacher)
  {
    var probe := ProbeOf(g, l, rooms, capable);
    ScanDaysMeaning(probe, LastStart(l), days, NO_FLAGS);
    var v := Search(g, l, rooms, capable, days);
    assert probe(v.day, v.start) == Fit(v.room, v.teacher);
  }
}
