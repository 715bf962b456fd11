/** Workload expansion: every (section, subject) pair whose departments
    match becomes a run of lesson units, one per session; then the queue is
    ordered with the two-slot lessons first. */
module Workloads {
  import opened Text
  import opened Domain

  /** Above this many sections every session count is halved. */
  const HALVING_THRESHOLD: int := 50

  /** `sub.credits || 3`. */
  function EffectiveCredits(sub: Subject): int {
    if sub.credits == 0 then 3 else sub.credits
  }

  predicate IsPracticalSubject(sub: Subject) {
    Normalize(sub.kind) == "PRACTICAL"
  }

  /** The strict branch filter: same normalised department, or a subject of
      the wildcard department. */
  predicate DeptMatches(sub: Subject, sec: Section) {
    Normalize(sub.department) == Normalize(sec.department) || Normalize(sub.department) == GENERAL
  }

  /** `numberOfSessions`: `credits` for theory, `ceil(credits / 2)` for
      practicals, then `max(1, floor(n / 2))` when halving. */
  function Sessions(sub: Subject, halve: bool): int {
    var c := EffectiveCredits(sub);
    var n := if IsPracticalSubject(sub) then (c + 1) / 2 else c;
    if halve then (if n / 2 > 1 then n / 2 else 1) else n
  }

  /** The lesson unit pushed for one session of `sub` in `sec`. */
  function LessonFor(sec: Section, sub: Subject): (l: Lesson)
    ensures LessonOk(l)
  {
    var lab := IsPracticalSubject(sub);
    Lesson(sub.id, sub.name, if lab then Practical else Theory, if lab then 2 else 1,
           sec.name, sec.department)
  }

  function Repeat(l: Lesson, n: int): (r: seq<Lesson>)
    ensures |r| == if n <= 0 then 0 else n
  {
    if n <= 0 then [] else Repeat(l, n - 1) + [l]
  }

  lemma {:induction false} RepeatMembers(l: Lesson, n: int, x: Lesson)
    ensures x in Repeat(l, n) <==> n >= 1 && x == l
  {
    if n > 0 {
      RepeatMembers(l, n - 1, x);
    }
  }

  /** The concatenation of `f(x)` over `xs`, in order. */
  function FlatMap<A, B>(xs: seq<A>, f: A -> seq<B>): seq<B> {
    if xs == [] then [] else FlatMap(xs[..|xs| - 1], f) + f(xs[|xs| - 1])
  }

  lemma {:induction false} FlatMapMembers<A, B>(xs: seq<A>, f: A -> seq<B>, y: B)
    ensures y in FlatMap(xs, f) <==> exists j :: 0 <= j < |xs| && y in f(xs[j])
  {
    if xs != [] {
      var n := |xs| - 1;
      var init := xs[..n];
      FlatMapMembers(init, f, y);
      if y in f(xs[n]) {
        // xs[n] is the witness
      } else if y in FlatMap(init, f) {
        var j :| 0 <= j < n && y in f(init[j]);
        assert init[j] == xs[j];
      } else {
        forall j | 0 <= j < |xs|
          ensures y !in f(xs[j])
        {
          if j < n {
            assert init[j] == xs[j];
          }
        }
      }
    }
  }

  /** The lessons `sub` contributes to `sec`: none unless the departments
      match, otherwise one per session. */
  function Block(sec: Section, sub: Subject, halve: bool): seq<Lesson> {
    if DeptMatches(sub, sec) then Repeat(LessonFor(sec, sub), Sessions(sub, halve)) else []
  }

  /** The lessons one section contributes, subjects in their given order. */
  function SectionLoad(sec: Section, subs: seq<Subject>, halve: bool): seq<Lesson> {
    FlatMap(subs, sub => Block(sec, sub, halve))
  }

  function Load(secs: seq<Section>, subs: seq<Subject>, halve: bool): seq<Lesson> {
    FlatMap(secs, sec => SectionLoad(sec, subs, halve))
  }

  lemma SectionLoadSnoc(sec: Section, subs: seq<Subject>, sub: Subject, halve: bool)
    ensures SectionLoad(sec, subs + [sub], halve) == SectionLoad(sec, subs, halve) + Block(sec, sub, halve)
  {
    assert (subs + [sub])[..|subs|] == subs;
  }

  lemma LoadSnoc(secs: seq<Section>, sec: Section, subs: seq<Subject>, halve: bool)
    ensures Load(secs + [sec], subs, halve) == Load(secs, subs, halve) + SectionLoad(sec, subs, halve)
  {
    assert (secs + [sec])[..|secs|] == secs;
  }

  /** The expanded workload of one run. */
  function Workload(secs: seq<Section>, subs: seq<Subject>): seq<Lesson> {
    Load(secs, subs, |secs| > HALVING_THRESHOLD)
  }

  /** Step 4 of `generateTimetable`: the loop over sections that fills
      `lessonQueue`. */
  method ExpandWorkload(sections: seq<Section>, subjects: seq<Subject>) returns (queue: seq<Lesson>)
    ensures queue == Workload(sections, subjects)
  {
    var halve := |sections| > HALVING_THRESHOLD;
    queue := [];
    for i := 0 to |sections|
      invariant queue == Load(sections[..i], subjects, halve)
    {
      var sec := sections[i];
      queue := ExpandSection(queue, sec, subjects, halve);
      assert sections[..i + 1] == sections[..i] + [sec];
      LoadSnoc(sections[..i], sec, subjects, halve);
    }
    assert sections[..|sections|] == sections;
  }

  /** The body of that loop for one section: every subject in turn. */
  method ExpandSection(queue: seq<Lesson>, sec: Section, subjects: seq<Subject>, halve: bool)
    returns (queue': seq<Lesson>)
    ensures queue' == queue + SectionLoad(sec, subjects, halve)
  {
    queue' := queue;
    for j := 0 to |subjects|
      invariant queue' == queue + SectionLoad(sec, subjects[..j], halve)
    {
      var sub := subjects[j];
      queue' := ExpandSubject(queue', sec, sub, halve);
      assert subjects[..j + 1] == subjects[..j] + [sub];
      SectionLoadSnoc(sec, subjects[..j], sub, halve);
      Associative(queue, SectionLoad(sec, subjects[..j], halve), Block(sec, sub, halve));
    }
    assert subjects[..|subjects|] == subjects;
  }

  /** One subject for one section: skip it unless the departments match,
      otherwise work out its session count and push one lesson per session. */
  method ExpandSubject(queue: seq<Lesson>, sec: Section, sub: Subject, halve: bool)
    returns (queue': seq<Lesson>)
    ensures queue' == queue + Block(sec, sub, halve)
  {
    queue' := queue;
    if DeptMatches(sub, sec) {
      var credits := if sub.credits == 0 then 3 else sub.credits;
      var isLab := Normalize(sub.kind) == "PRACTICAL";
      var duration := if isLab then 2 else 1;
      var numberOfSessions := if isLab then (credits + 1) / 2 else credits;
      if halve {
        numberOfSessions := if numberOfSessions / 2 > 1 then numberOfSessions / 2 else 1;
      }
      var lesson := Lesson(sub.id, sub.name, if isLab then Practical else Theory, duration,
                           sec.name, sec.department);
      for k := 0 to if numberOfSessions < 0 then 0 else numberOfSessions
        invariant queue' == queue + Repeat(lesson, k)
      {
        queue' := queue' + [lesson];
      }
    }
  }

  // ---------------------------------------------------------------------
  // What the expansion promises.

  /** A practical subject's sessions cover its credits rounded up to an even
      number of hours; a theory subject's sessions are its credits. */
  lemma SessionHours(sub: Subject)
    requires EffectiveCredits(sub) >= 1
    ensures IsPracticalSubject(sub) ==>
              EffectiveCredits(sub) <= 2 * Sessions(sub, false) <= EffectiveCredits(sub) + 1
    ensures !IsPracticalSubject(sub) ==> Sessions(sub, false) == EffectiveCredits(sub)
  {
  }

  /** Halving rounds down and keeps at least one session. */
  lemma HalvingPolicy(sub: Subject)
    ensures Sessions(sub, true) >= 1
    ensures Sessions(sub, false) >= 2 ==>
              Sessions(sub, false) - 1 <= 2 * Sessions(sub, true) <= Sessions(sub, false)
    ensures Sessions(sub, false) <= 3 ==> Sessions(sub, true) == 1
  {
  }

  lemma BlockMembers(sec: Section, sub: Subject, halve: bool, l: Lesson)
    ensures l in Block(sec, sub, halve) <==>
              DeptMatches(sub, sec) && Sessions(sub, halve) >= 1 && l == LessonFor(sec, sub)
  {
    RepeatMembers(LessonFor(sec, sub), Sessions(sub, halve), l);
  }

  /** A lesson is in the workload exactly when it is the lesson of a section
      and a subject whose departments match and which has a session; so each
      lesson is well formed and its subject's department is the section's or
      the wildcard. */
  lemma WorkloadMembership(secs: seq<Section>, subs: seq<Subject>, l: Lesson)
    ensures l in Workload(secs, subs) <==>
              exists i, j :: 0 <= i < |secs| && 0 <= j < |subs| && DeptMatches(subs[j], secs[i])
                             && Sessions(subs[j], |secs| > HALVING_THRESHOLD) >= 1
                             && l == LessonFor(secs[i], subs[j])
    ensures l in Workload(secs, subs) ==> LessonOk(l)
  {
    var halve := |secs| > HALVING_THRESHOLD;
    FlatMapMembers(secs, sec => SectionLoad(sec, subs, halve), l);
    forall i | 0 <= i < |secs|
      ensures l in SectionLoad(secs[i], subs, halve) <==>
                exists j :: 0 <= j < |subs| && DeptMatches(subs[j], secs[i])
                            && Sessions(subs[j], halve) >= 1 && l == LessonFor(secs[i], subs[j])
    {
      FlatMapMembers(subs, sub => Block(secs[i], sub, halve), l);
      forall j | 0 <= j < |subs| {
        BlockMembers(secs[i], subs[j], halve, l);
      }
    }
  }

  /** Halving never adds work while every subject has a session. */
  lemma {:induction false} FlatMapNoLonger<A, B>(xs: seq<A>, f: A -> seq<B>, g: A -> seq<B>)
    requires forall j :: 0 <= j < |xs| ==> |f(xs[j])| <= |g(xs[j])|
    ensures |FlatMap(xs, f)| <= |FlatMap(xs, g)|
  {
    if xs != [] {
      var n := |xs| - 1;
      assert forall j :: 0 <= j < n ==> xs[..n][j] == xs[j];
      FlatMapNoLonger(xs[..n], f, g);
    }
  }

  /** Halving never adds work while every subject has a session (it can when
      a subject's credits are negative: it then gets one session). */
  lemma HalvingShrinks(secs: seq<Section>, subs: seq<Subject>)
    requires forall j :: 0 <= j < |subs| ==> Sessions(subs[j], false) >= 1
    ensures |Load(secs, subs, true)| <= |Load(secs, subs, false)|
  {
    forall i | 0 <= i < |secs|
      ensures |SectionLoad(secs[i], subs, true)| <= |SectionLoad(secs[i], subs, false)|
    {
      FlatMapNoLonger(subs, sub => Block(secs[i], sub, true), sub => Block(secs[i], sub, false));
    }
    FlatMapNoLonger(secs, sec => SectionLoad(sec, subs, true), sec => SectionLoad(sec, subs, false));
  }

  // ---------------------------------------------------------------------
  // Queue order: `lessonQueue.sort((a, b) => b.duration - a.duration)`.
  // The sort is stable and every duration is 1 or 2, so it keeps the
  // shuffled order within the two-slot lessons and within the rest.

  function Doubles(q: seq<Lesson>): (r: seq<Lesson>)
    ensures forall l :: l in r ==> l in q && l.duration == 2
  {
    if q == [] then [] else (if q[0].duration == 2 then [q[0]] else []) + Doubles(q[1..])
  }

  function Singles(q: seq<Lesson>): (r: seq<Lesson>)
    ensures forall l :: l in r ==> l in q && l.duration != 2
  {
    if q == [] then [] else (if q[0].duration == 2 then [] else [q[0]]) + Singles(q[1..])
  }

  function LongestFirst(q: seq<Lesson>): seq<Lesson> {
    Doubles(q) + Singles(q)
  }

  lemma {:induction false} SplitIsPermutation(q: seq<Lesson>)
    ensures multiset(Doubles(q)) + multiset(Singles(q)) == multiset(q)
  {
    if q != [] {
      SplitIsPermutation(q[1..]);
      assert q == [q[0]] + q[1..];
    }
  }

  /** The ordered queue is a permutation of the shuffled one, and every
      two-slot lesson comes before every one-slot lesson. */
  lemma LongestFirstOrdered(q: seq<Lesson>)
    requires forall l :: l in q ==> l.duration == 1 || l.duration == 2
    ensures multiset(LongestFirst(q)) == multiset(q)
    ensures forall i, j :: 0 <= i < j < |LongestFirst(q)| ==>
              LongestFirst(q)[i].duration >= LongestFirst(q)[j].duration
  {
    SplitIsPermutation(q);
    var r := LongestFirst(q);
    forall i, j | 0 <= i < j < |r|
      ensures r[i].duration >= r[j].duration
    {
      if i < |Doubles(q)| {
        assert r[i] in Doubles(q);
      } else {
        assert r[i] in Singles(q) && r[j] in Singles(q);
      }
    }
  }
}
