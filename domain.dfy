/** The values the engine reads and produces.  Identifiers are the database
    ids of the records, kept abstract; a missing text field is "" (the
    engine treats `undefined`, `null` and "" alike). */
module Domain {

  type Id = string

  datatype Option<T> = None | Some(value: T)

  datatype Result<T, E> = Ok(value: T) | Err(error: E)

  /** A section to schedule: identified by its name everywhere in the engine. */
  datatype Section = Section(name: string, department: string)

  /** `credits` 0 stands for a missing value; `kind` is the raw type text. */
  datatype Subject = Subject(id: Id, name: string, credits: int, kind: string, department: string)

  /** `qualified` holds the ids of the populated qualified subjects.  The
      engine never reads `department`. */
  datatype Teacher = Teacher(id: Id, name: string, department: string, qualified: seq<Id>)

  /** `kind` is the raw type text ("LectureHall" or "Lab"); capacity is never read. */
  datatype Room = Room(id: Id, name: string, kind: string, department: string)

  datatype LessonType = Theory | Practical

  /** One entry of `lessonQueue`: one session of one subject for one section. */
  datatype Lesson = Lesson(subjectId: Id, name: string, kind: LessonType, duration: int,
                           className: string, department: string)

  /** A committed booking: the lesson, the day index, the first slot, and the
      room and teacher records it was booked with. */
  datatype Placement = Placement(lesson: Lesson, day: int, start: int, room: Room, teacher: Teacher)

  /** One entry of the returned schedule (no duration: it follows from `kind`). */
  datatype Entry = Entry(day: string, slotIndex: int, className: string, department: string,
                         subject: string, teacher: string, room: string, kind: string, time: string)

  /** `shortageReport`: teacher-caused failures per subject name, room-caused
      failures per room type. */
  datatype Shortage = Shortage(teachers: map<string, nat>, lectureHall: nat, lab: nat)

  datatype Alert = Alert(count: nat, details: Shortage)

  /** `{ schedule, alert }`; `alert` is null when every lesson was placed. */
  datatype Timetable = Timetable(schedule: seq<Entry>, alert: Option<Alert>)

  /** The fatal input errors. */
  datatype InputError = NoSections | MissingSchoolId

  /** Every lesson lasts two slots when practical and one slot otherwise. */
  predicate LessonOk(l: Lesson) {
    l.duration == (if l.kind == Practical then 2 else 1)
  }

  function KindName(k: LessonType): string {
    if k == Practical then "practical" else "theory"
  }

  /** Regrouping a concatenation, for the loops that append to a queue. */
  lemma Associative<T>(a: seq<T>, b: seq<T>, c: seq<T>)
    ensures (a + b) + c == a + (b + c)
  {
  }

  /** A prefix one longer is the prefix and the next element. */
  lemma TakeSnoc<T>(s: seq<T>, i: int)
    requires 0 <= i < |s|
    ensures s[..i + 1] == s[..i] + [s[i]]
  {
  }
}
