/** `shortageReport`: every lesson that could not be placed is charged to
    its subject name when some window failed for want of a teacher, else to
    the room type it needed when some window failed for want of a room, and
    to neither otherwise. */
module Shortages {
  import opened Domain
  import opened Feasibility

  /** An unplaced lesson with the flags its search ended with. */
  type Failure = (Lesson, Flags)

  const EMPTY_REPORT: Shortage := Shortage(map[], 0, 0)

  /** `shortageReport.teachers[name] || 0`. */
  function Count(m: map<string, nat>, name: string): nat {
    if name in m then m[name] else 0
  }

  /** The report update of the `if (!placed)` block. */
  function Charge(sh: Shortage, l: Lesson, f: Flags): Shortage {
    if f.teacher then sh.(teachers := sh.teachers[l.name := Count(sh.teachers, l.name) + 1])
    else if f.room then
      (if l.kind == Practical then sh.(lab := sh.lab + 1) else sh.(lectureHall := sh.lectureHall + 1))
    else sh
  }

  /** The report after the failures `fs`, in order. */
  function Report(fs: seq<Failure>): Shortage {
    if fs == [] then EMPTY_REPORT else Charge(Report(fs[..|fs| - 1]), fs[|fs| - 1].0, fs[|fs| - 1].1)
  }

  lemma ReportSnoc(fs: seq<Failure>, l: Lesson, f: Flags)
    ensures Report(fs + [(l, f)]) == Charge(Report(fs), l, f)
  {
    assert (fs + [(l, f)])[..|fs|] == fs;
  }

  // Independent counts of the failures, by the reason they are charged to.

  function TeacherBlamed(fs: seq<Failure>, name: string): nat {
    if fs == [] then 0
    else TeacherBlamed(fs[..|fs| - 1], name)
         + (if fs[|fs| - 1].1.teacher && fs[|fs| - 1].0.name == name then 1 else 0)
  }

  function RoomBlamed(fs: seq<Failure>, kind: LessonType): nat {
    if fs == [] then 0
    else RoomBlamed(fs[..|fs| - 1], kind)
         + (if !fs[|fs| - 1].1.teacher && fs[|fs| - 1].1.room && fs[|fs| - 1].0.kind == kind then 1 else 0)
  }

  function Blamed(fs: seq<Failure>): (n: nat)
    ensures n <= |fs|
  {
    if fs == [] then 0
    else Blamed(fs[..|fs| - 1]) + (if fs[|fs| - 1].1.teacher || fs[|fs| - 1].1.room then 1 else 0)
  }

  /** Each subject's teacher-shortage count is the number of its failures
      with a teacher failure; the Lab and LectureHall counters are the
      numbers of practical and theory failures with a room failure and no
      teacher failure; a name is in the report only once it was charged. */
  lemma {:induction false} ReportCounts(fs: seq<Failure>)
    ensures forall n :: Count(Report(fs).teachers, n) == TeacherBlamed(fs, n)
    ensures forall n :: n in Report(fs).teachers ==> Report(fs).teachers[n] > 0
    ensures Report(fs).lab == RoomBlamed(fs, Practical)
    ensures Report(fs).lectureHall == RoomBlamed(fs, Theory)
  {
    if fs != [] {
      ReportCounts(fs[..|fs| - 1]);
    }
  }

  /** The sum of a map's counts. */
  ghost function Total(m: map<string, nat>): nat
    decreases |m.Keys|
  {
    if m == map[] then 0
    else
      var k :| k in m;
      assert (m - {k}).Keys == m.Keys - {k};
      m[k] + Total(m - {k})
  }

  lemma {:induction false} TotalRemove(m: map<string, nat>, k: string)
    requires k in m
    ensures Total(m) == m[k] + Total(m - {k})
    decreases |m.Keys|
  {
    var j :| j in m && Total(m) == m[j] + Total(m - {j});
    if j != k {
      assert (m - {j}).Keys == m.Keys - {j};
      assert (m - {k}).Keys == m.Keys - {k};
      TotalRemove(m - {j}, k);
      TotalRemove(m - {k}, j);
      assert m - {j} - {k} == m - {k} - {j};
    }
  }

  lemma TotalBump(m: map<string, nat>, k: string)
    ensures Total(m[k := Count(m, k) + 1]) == Total(m) + 1
  {
    var m' := m[k := Count(m, k) + 1];
    TotalRemove(m', k);
    if k in m {
      TotalRemove(m, k);
      assert m' - {k} == m - {k};
    } else {
      assert m' - {k} == m;
    }
  }

  /** Every failure is charged at most once: the teacher counts and the two
      room counters add up to the number of failures with a flag set, which
      is at most the number of failures. */
  lemma {:induction false} ReportTotal(fs: seq<Failure>)
    ensures Total(Report(fs).teachers) + Report(fs).lectureHall + Report(fs).lab == Blamed(fs)
    ensures Blamed(fs) <= |fs|
  {
    if fs != [] {
      var init := fs[..|fs| - 1];
      ReportTotal(init);
      if fs[|fs| - 1].1.teacher {
        TotalBump(Report(init).teachers, fs[|fs| - 1].0.name);
      }
    } else {
      assert Report(fs).teachers == map[];
    }
  }
}
