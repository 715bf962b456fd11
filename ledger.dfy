/** What the trackers record, stated over the sequence of bookings made so
    far, and the rules every booking keeps: no double booking of a section,
    room or teacher, the lunch gap, the daily-repeat guard and the teacher
    lock.  `Consistent` ties a tracker snapshot to the bookings; booking a
    window that passed the probe keeps it. */
module Ledger {
  import opened Domain
  import opened Feasibility

  /** Which occupancy set a key belongs to. */
  datatype Tracker = BySection | ByRoom | ByTeacher

  function Key(p: Placement, tr: Tracker): string {
    match tr
    case BySection => p.lesson.className
    case ByRoom => p.room.id
    case ByTeacher => p.teacher.id
  }

  /** The cells a booking adds to one tracker. */
  function Covers(p: Placement, tr: Tracker): set<Cell> {
    Window(p.day, p.start, p.lesson.duration, Key(p, tr))
  }

  /** The cells all bookings add to one tracker. */
  function Cells(ps: seq<Placement>, tr: Tracker): set<Cell> {
    if ps == [] then {} else Cells(ps[..|ps| - 1], tr) + Covers(ps[|ps| - 1], tr)
  }

  lemma {:induction false} CellsMembers(ps: seq<Placement>, tr: Tracker, i: int)
    requires 0 <= i < |ps|
    ensures Covers(ps[i], tr) <= Cells(ps, tr)
  {
    var n := |ps| - 1;
    if i < n {
      CellsMembers(ps[..n], tr, i);
    }
  }

  /** No two bookings share a (day, slot) with the same key. */
  predicate Apart(ps: seq<Placement>, tr: Tracker) {
    forall i, j :: 0 <= i < j < |ps| ==> Covers(ps[i], tr) !! Covers(ps[j], tr)
  }

  /** No booking covers a reserved lunch slot of its section. */
  predicate LunchKept(ps: seq<Placement>, lunch: set<Cell>) {
    forall i :: 0 <= i < |ps| ==> Covers(ps[i], BySection) !! lunch
  }

  /** The names booked for a section on a day, in booking order. */
  function DailyNames(ps: seq<Placement>, cls: string, day: int): seq<string> {
    if ps == [] then []
    else
      var p := ps[|ps| - 1];
      DailyNames(ps[..|ps| - 1], cls, day)
      + (if p.lesson.className == cls && p.day == day then [p.lesson.name] else [])
  }

  lemma {:induction false} DailyNamesMembers(ps: seq<Placement>, i: int)
    requires 0 <= i < |ps|
    ensures ps[i].lesson.name in DailyNames(ps, ps[i].lesson.className, ps[i].day)
  {
    var n := |ps| - 1;
    if i < n {
      DailyNamesMembers(ps[..n], i);
      assert ps[..n][i] == ps[i];
    }
  }

  /** A theory lesson is never booked for a section on a day that already
      has a lesson of the same name. */
  predicate NoTheoryRepeat(ps: seq<Placement>) {
    forall i, j :: 0 <= i < j < |ps| && ps[j].lesson.kind == Theory
                   && ps[i].lesson.className == ps[j].lesson.className && ps[i].day == ps[j].day
                   ==> ps[i].lesson.name != ps[j].lesson.name
  }

  /** The name of the last booking of teacher `t` for section `cls`. */
  function LastLock(ps: seq<Placement>, t: Id, cls: string): Option<string> {
    if ps == [] then None
    else
      var p := ps[|ps| - 1];
      if p.teacher.id == t && p.lesson.className == cls then Some(p.lesson.name)
      else LastLock(ps[..|ps| - 1], t, cls)
  }

  /** Once a teacher is booked for a section with a (non-empty) subject
      name, every later booking of that teacher for that section has the
      same name. */
  predicate LocksHeld(ps: seq<Placement>) {
    forall i, j :: 0 <= i < j < |ps| && ps[i].teacher.id == ps[j].teacher.id
                   && ps[i].lesson.className == ps[j].lesson.className && ps[i].lesson.name != ""
                   ==> ps[j].lesson.name == ps[i].lesson.name
  }

  /** Under the lock rule the lock of a pair holds the name of any earlier
      booking of that pair with a non-empty name. */
  lemma {:induction false} LastLockAgrees(ps: seq<Placement>, i: int)
    requires LocksHeld(ps) && 0 <= i < |ps| && ps[i].lesson.name != ""
    ensures LastLock(ps, ps[i].teacher.id, ps[i].lesson.className) == Some(ps[i].lesson.name)
  {
    var n := |ps| - 1;
    var p := ps[n];
    if !(p.teacher.id == ps[i].teacher.id && p.lesson.className == ps[i].lesson.className) {
      assert ps[..n][i] == ps[i];
      LastLockAgrees(ps[..n], i);
    }
  }

  /** The trackers of `g` are exactly what the lunch reservation and the
      bookings `ps` put there, and the bookings keep every rule. */
  ghost predicate Consistent(g: Grid, lunch: set<Cell>, ps: seq<Placement>) {
    && g.sections == lunch + Cells(ps, BySection)
    && g.rooms == Cells(ps, ByRoom)
    && g.teachers == Cells(ps, ByTeacher)
    && (forall cls, day :: DailyOf(g.daily, cls, day) == DailyNames(ps, cls, day))
    && (forall t, cls :: LockOf(g.locks, t, cls) == LastLock(ps, t, cls))
    && Apart(ps, BySection) && Apart(ps, ByRoom) && Apart(ps, ByTeacher)
    && LunchKept(ps, lunch) && NoTheoryRepeat(ps) && LocksHeld(ps)
  }

  /** The trackers after booking `p` ("BOOK IT", "Apply Lock" and the daily
      push). */
  function Apply(g: Grid, p: Placement): Grid {
    var cls := p.lesson.className;
    Grid(g.sections + Covers(p, BySection), g.rooms + Covers(p, ByRoom), g.teachers + Covers(p, ByTeacher),
         g.daily[(cls, p.day) := DailyOf(g.daily, cls, p.day) + [p.lesson.name]],
         g.locks[(p.teacher.id, cls) := p.lesson.name])
  }

  lemma FreeDisjoint(busy: set<Cell>, day: int, start: int, duration: int, who: string)
    requires Free(busy, day, start, duration, who)
    ensures Window(day, start, duration, who) !! busy
  {
    forall c | c in Window(day, start, duration, who)
      ensures c !in busy
    {
      WindowMembers(day, start, duration, who, c);
    }
  }

  lemma ApartSnoc(ps: seq<Placement>, p: Placement, tr: Tracker)
    requires Apart(ps, tr) && Covers(p, tr) !! Cells(ps, tr)
    ensures Apart(ps + [p], tr)
    ensures Cells(ps + [p], tr) == Cells(ps, tr) + Covers(p, tr)
  {
    var qs := ps + [p];
    assert qs[..|ps|] == ps;
    forall i, j | 0 <= i < j < |qs|
      ensures Covers(qs[i], tr) !! Covers(qs[j], tr)
    {
      if j == |ps| {
        CellsMembers(ps, tr, i);
      }
    }
  }

  lemma DailySnoc(g: Grid, lunch: set<Cell>, ps: seq<Placement>, p: Placement)
    requires Consistent(g, lunch, ps)
    requires p.lesson.kind == Theory ==> p.lesson.name !in DailyOf(g.daily, p.lesson.className, p.day)
    ensures forall cls, day :: DailyOf(Apply(g, p).daily, cls, day) == DailyNames(ps + [p], cls, day)
    ensures NoTheoryRepeat(ps + [p])
  {
    var qs := ps + [p];
    assert qs[..|ps|] == ps;
    forall i, j | 0 <= i < j < |qs| && qs[j].lesson.kind == Theory
                  && qs[i].lesson.className == qs[j].lesson.className && qs[i].day == qs[j].day
      ensures qs[i].lesson.name != qs[j].lesson.name
    {
      if j == |ps| {
        DailyNamesMembers(ps, i);
      }
    }
  }

  lemma LocksSnoc(g: Grid, lunch: set<Cell>, ps: seq<Placement>, p: Placement)
    requires Consistent(g, lunch, ps)
    requires !LockBlocks(g.locks, p.teacher.id, p.lesson.className, p.lesson.name)
    ensures forall t, cls :: LockOf(Apply(g, p).locks, t, cls) == LastLock(ps + [p], t, cls)
    ensures LocksHeld(ps + [p])
  {
    var qs := ps + [p];
    assert qs[..|ps|] == ps;
    forall i, j | 0 <= i < j < |qs| && qs[i].teacher.id == qs[j].teacher.id
                  && qs[i].lesson.className == qs[j].lesson.className && qs[i].lesson.name != ""
      ensures qs[j].lesson.name == qs[i].lesson.name
    {
      if j == |ps| {
        LastLockAgrees(ps, i);
        assert LockOf(g.locks, p.teacher.id, p.lesson.className) == Some(ps[i].lesson.name);
      }
    }
  }

  /** What the probe checks before a booking, in terms of the booking:
      its section, room and teacher are free for the window, the daily guard
      lets it through, and no lock ties the teacher to another subject of
      the section. */
  predicate Admissible(g: Grid, p: Placement) {
    var l := p.lesson;
    && Free(g.sections, p.day, p.start, l.duration, l.className)
    && (l.kind == Practical || l.name !in DailyOf(g.daily, l.className, p.day))
    && Free(g.rooms, p.day, p.start, l.duration, p.room.id)
    && TeacherAvailable(p.teacher, l, g, p.day, p.start)
  }

  lemma FitIsAdmissible(g: Grid, p: Placement, rooms: seq<Room>, capable: seq<Teacher>)
    requires Probe(g, p.lesson, rooms, capable, p.day, p.start) == Fit(p.room, p.teacher)
    ensures Admissible(g, p)
  {
    ProbeMeaning(g, p.lesson, rooms, capable, p.day, p.start);
  }

  /** Booking an admissible window keeps the trackers consistent with the
      bookings, now one longer. */
  lemma BookKeepsConsistent(g: Grid, lunch: set<Cell>, ps: seq<Placement>, p: Placement)
    requires Consistent(g, lunch, ps) && Admissible(g, p)
    ensures Consistent(Apply(g, p), lunch, ps + [p])
  {
    var l := p.lesson;
    FreeDisjoint(g.sections, p.day, p.start, l.duration, l.className);
    FreeDisjoint(g.rooms, p.day, p.start, l.duration, p.room.id);
    FreeDisjoint(g.teachers, p.day, p.start, l.duration, p.teacher.id);
    ApartSnoc(ps, p, BySection);
    ApartSnoc(ps, p, ByRoom);
    ApartSnoc(ps, p, ByTeacher);
    DailySnoc(g, lunch, ps, p);
    LocksSnoc(g, lunch, ps, p);
    var qs := ps + [p];
    assert qs[..|ps|] == ps;
  }
}
