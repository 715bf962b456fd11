/** `teacherMap`: for every subject id, the teachers qualified to teach it,
    built from each teacher's populated `qualifiedSubjects`.  A teacher's
    own department plays no part. */
module TeacherIndex {
  import opened Domain

  /** `teacherMap[id] || []`. */
  function Capable(m: map<Id, seq<Teacher>>, id: Id): seq<Teacher> {
    if id in m then m[id] else []
  }

  /** `t` once for every occurrence of `id` among `qs`, in order. */
  function Copies(t: Teacher, id: Id, qs: seq<Id>): seq<Teacher> {
    if qs == [] then [] else Copies(t, id, qs[..|qs| - 1]) + (if qs[|qs| - 1] == id then [t] else [])
  }

  /** The list the map holds for `id`: teachers in their given order, each
      as often as it lists the subject. */
  function Qualified(ts: seq<Teacher>, id: Id): seq<Teacher> {
    if ts == [] then [] else Qualified(ts[..|ts| - 1], id) + Copies(ts[|ts| - 1], id, ts[|ts| - 1].qualified)
  }

  lemma {:induction false} CopiesMembers(t: Teacher, id: Id, qs: seq<Id>, x: Teacher)
    ensures x in Copies(t, id, qs) <==> x == t && id in qs
  {
    if qs != [] {
      var n := |qs| - 1;
      CopiesMembers(t, id, qs[..n], x);
      assert qs == qs[..n] + [qs[n]];
    }
  }

  /** A teacher is offered for a subject exactly when it lists that subject. */
  lemma {:induction false} QualifiedMembers(ts: seq<Teacher>, id: Id, x: Teacher)
    ensures x in Qualified(ts, id) <==> x in ts && id in x.qualified
  {
    if ts != [] {
      var n := |ts| - 1;
      QualifiedMembers(ts[..n], id, x);
      CopiesMembers(ts[n], id, ts[n].qualified, x);
      assert ts == ts[..n] + [ts[n]];
    }
  }

  lemma CopiesSnoc(t: Teacher, id: Id, qs: seq<Id>, j: int)
    requires 0 <= j < |qs|
    ensures Copies(t, id, qs[..j + 1]) == Copies(t, id, qs[..j]) + (if qs[j] == id then [t] else [])
  {
    assert qs[..j + 1][..j] == qs[..j];
  }

  /** Pushing `t` onto the list of its `j`-th subject extends the lists by
      one more of its copies. */
  lemma PushKeeps(m0: map<Id, seq<Teacher>>, m: map<Id, seq<Teacher>>, t: Teacher, j: int)
    requires 0 <= j < |t.qualified|
    requires forall id :: Capable(m, id) == Capable(m0, id) + Copies(t, id, t.qualified[..j])
    ensures var sub := t.qualified[j];
            forall id :: Capable(m[sub := Capable(m, sub) + [t]], id)
                         == Capable(m0, id) + Copies(t, id, t.qualified[..j + 1])
  {
    var sub := t.qualified[j];
    forall id
      ensures Capable(m[sub := Capable(m, sub) + [t]], id) == Capable(m0, id) + Copies(t, id, t.qualified[..j + 1])
    {
      CopiesSnoc(t, id, t.qualified, j);
      Associative(Capable(m0, id), Copies(t, id, t.qualified[..j]), if sub == id then [t] else []);
    }
  }

  /** The nested `forEach` that fills `teacherMap`. */
  method BuildTeacherMap(teachers: seq<Teacher>) returns (m: map<Id, seq<Teacher>>)
    ensures forall id :: Capable(m, id) == Qualified(teachers, id)
    ensures forall id :: id in m ==> m[id] != []
  {
    m := map[];
    for i := 0 to |teachers|
      invariant forall id :: Capable(m, id) == Qualified(teachers[..i], id)
      invariant forall id :: id in m ==> m[id] != []
    {
      ghost var before := m;
      m := AddTeacher(m, teachers[i]);
      assert teachers[..i + 1][..i] == teachers[..i];
    }
    assert teachers[..|teachers|] == teachers;
  }

  /** The inner `forEach`: push `t` onto the list of each subject it lists. */
  method AddTeacher(m0: map<Id, seq<Teacher>>, t: Teacher) returns (m: map<Id, seq<Teacher>>)
    requires forall id :: id in m0 ==> m0[id] != []
    ensures forall id :: Capable(m, id) == Capable(m0, id) + Copies(t, id, t.qualified)
    ensures forall id :: id in m ==> m[id] != []
  {
    m := m0;
    for j := 0 to |t.qualified|
      invariant forall id :: Capable(m, id) == Capable(m0, id) + Copies(t, id, t.qualified[..j])
      invariant forall id :: id in m ==> m[id] != []
    {
      var sub := t.qualified[j];
      var list := if sub in m then m[sub] else [];
      PushKeeps(m0, m, t, j);
      m := m[sub := list + [t]];
    }
    assert t.qualified[..|t.qualified|] == t.qualified;
  }
}
