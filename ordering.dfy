/** The final `masterTimetable.sort`: by day of the week, then by section
    name, then by first slot.  `localeCompare` is modelled as lexicographic
    order on code points, and the sort as a stable insertion sort. */
module Ordering {
  import opened Domain
  import opened Slots
  import opened Text

  /** The comparator: negative when `a` goes first, positive when `b` does. */
  function Compare(a: Entry, b: Entry): int {
    if DayRank(a.day) != DayRank(b.day) then DayRank(a.day) - DayRank(b.day)
    else if a.className != b.className then StrCompare(a.className, b.className)
    else a.slotIndex - b.slotIndex
  }

  /** Swapping the arguments flips the sign, and two entries compare equal
      exactly when they agree on day rank, section and first slot. */
  lemma CompareFlip(a: Entry, b: Entry)
    ensures Compare(b, a) == -Compare(a, b)
    ensures Compare(a, b) == 0 <==>
              DayRank(a.day) == DayRank(b.day) && a.className == b.className && a.slotIndex == b.slotIndex
  {
    StrCompareAntisymmetric(a.className, b.className);
  }

  /** "Goes no later than" is transitive. */
  lemma CompareTransitive(a: Entry, b: Entry, c: Entry)
    requires Compare(a, b) <= 0 && Compare(b, c) <= 0
    ensures Compare(a, c) <= 0
  {
    StrCompareAntisymmetric(a.className, b.className);
    StrCompareAntisymmetric(b.className, c.className);
    StrCompareAntisymmetric(a.className, c.className);
    if DayRank(a.day) == DayRank(b.day) == DayRank(c.day)
       && a.className != b.className && b.className != c.className && a.className != c.className {
      LexTransitive(a.className, b.className, c.className);
    }
  }

  predicate Sorted(s: seq<Entry>) {
    forall i, j :: 0 <= i < j < |s| ==> Compare(s[i], s[j]) <= 0
  }

  // ---------------------------------------------------------------------
  // A stable insertion sort, for any "goes no later than" relation `le`.

  /** Insert `x` after every element that goes no later than it. */
  function InsertBy<T>(le: (T, T) -> bool, x: T, ys: seq<T>): seq<T> {
    if ys == [] then [x]
    else if !le(ys[0], x) then [x] + ys
    else [ys[0]] + InsertBy(le, x, ys[1..])
  }

  /** The elements inserted one by one in their given order. */
  function SortBy<T>(le: (T, T) -> bool, s: seq<T>): seq<T> {
    if s == [] then [] else InsertBy(le, s[|s| - 1], SortBy(le, s[..|s| - 1]))
  }

  predicate SortedBy<T>(le: (T, T) -> bool, s: seq<T>) {
    forall i, j :: 0 <= i < j < |s| ==> le(s[i], s[j])
  }

  /** Any two elements are related one way or the other, and the relation
      is transitive. */
  ghost predicate TotalPreorder<T(!new)>(le: (T, T) -> bool) {
    && (forall a, b :: le(a, b) || le(b, a))
    && (forall a, b, c :: le(a, b) && le(b, c) ==> le(a, c))
  }

  lemma {:induction false} InsertByPermutation<T>(le: (T, T) -> bool, x: T, ys: seq<T>)
    ensures multiset(InsertBy(le, x, ys)) == multiset(ys) + multiset{x}
  {
    if ys != [] && le(ys[0], x) {
      InsertByPermutation(le, x, ys[1..]);
      assert ys == [ys[0]] + ys[1..];
    }
  }

  lemma ConsSorted<T>(le: (T, T) -> bool, h: T, rest: seq<T>)
    requires SortedBy(le, rest)
    requires forall z :: z in rest ==> le(h, z)
    ensures SortedBy(le, [h] + rest)
  {
    var r := [h] + rest;
    forall i, j | 0 <= i < j < |r|
      ensures le(r[i], r[j])
    {
      assert r[j] == rest[j - 1];
      if i > 0 {
        assert r[i] == rest[i - 1];
      }
    }
  }

  lemma {:induction false} InsertBySorted<T(!new)>(le: (T, T) -> bool, x: T, ys: seq<T>)
    requires TotalPreorder(le) && SortedBy(le, ys)
    ensures SortedBy(le, InsertBy(le, x, ys))
  {
    if ys == [] {
    } else if !le(ys[0], x) {
      forall z | z in ys
        ensures le(x, z)
      {
        var j :| 0 <= j < |ys| && ys[j] == z;
        if j > 0 {
          assert le(ys[0], ys[j]);
        }
      }
      ConsSorted(le, x, ys);
    } else {
      var tail := ys[1..];
      assert SortedBy(le, tail) by {
        forall i, j | 0 <= i < j < |tail|
          ensures le(tail[i], tail[j])
        {
          assert tail[i] == ys[i + 1] && tail[j] == ys[j + 1];
        }
      }
      InsertBySorted(le, x, tail);
      InsertByPermutation(le, x, tail);
      forall z | z in InsertBy(le, x, tail)
        ensures le(ys[0], z)
      {
        assert z in multiset(InsertBy(le, x, tail));
        if z != x {
          var j :| 0 <= j < |tail| && tail[j] == z;
          assert ys[j + 1] == z;
        }
      }
      ConsSorted(le, ys[0], InsertBy(le, x, tail));
    }
  }

  /** Sorting by a total preorder yields a sorted permutation. */
  lemma {:induction false} SortBySpec<T(!new)>(le: (T, T) -> bool, s: seq<T>)
    requires TotalPreorder(le)
    ensures SortedBy(le, SortBy(le, s))
    ensures multiset(SortBy(le, s)) == multiset(s)
  {
    if s != [] {
      var n := |s| - 1;
      SortBySpec(le, s[..n]);
      InsertBySorted(le, s[n], SortBy(le, s[..n]));
      InsertByPermutation(le, s[n], SortBy(le, s[..n]));
      assert s == s[..n] + [s[n]];
    }
  }

  // ---------------------------------------------------------------------
  // The schedule sort.

  /** Entry `a` goes no later than entry `b`. */
  function NoLater(a: Entry, b: Entry): bool {
    Compare(a, b) <= 0
  }

  /** The sorted schedule: the entries inserted one by one in the order
      they were booked. */
  function SortSchedule(s: seq<Entry>): seq<Entry> {
    SortBy(NoLater, s)
  }

  lemma NoLaterTotalPreorder()
    ensures TotalPreorder(NoLater)
  {
    forall a, b
      ensures NoLater(a, b) || NoLater(b, a)
    {
      CompareFlip(a, b);
    }
    forall a, b, c | NoLater(a, b) && NoLater(b, c)
      ensures NoLater(a, c)
    {
      CompareTransitive(a, b, c);
    }
  }

  /** The schedule comes out in comparator order and holds exactly the
      booked entries. */
  lemma SortScheduleSpec(s: seq<Entry>)
    ensures Sorted(SortSchedule(s))
    ensures multiset(SortSchedule(s)) == multiset(s)
  {
    NoLaterTotalPreorder();
    SortBySpec(NoLater, s);
  }

  lemma SortedByTail<T>(le: (T, T) -> bool, s: seq<T>)
    requires SortedBy(le, s) && s != []
    ensures SortedBy(le, s[1..])
  {
    forall p, q | 0 <= p < q < |s| - 1
      ensures le(s[1..][p], s[1..][q])
    {
      assert s[1..][p] == s[p + 1] && s[1..][q] == s[q + 1];
    }
  }

  lemma MultisetTail<T>(s: seq<T>)
    requires s != []
    ensures multiset(s[1..]) == multiset(s) - multiset{s[0]}
  {
    assert s == [s[0]] + s[1..];
  }

  lemma HeadsAgree<T>(le: (T, T) -> bool, a: seq<T>, b: seq<T>)
    requires SortedBy(le, a) && SortedBy(le, b) && a != [] && b != []
    requires b[0] in a && a[0] in b
    requires forall x, y :: x in a && y in a && le(x, y) && le(y, x) ==> x == y
    ensures a[0] == b[0]
  {
    var i :| 0 <= i < |a| && a[i] == b[0];
    var j :| 0 <= j < |b| && b[j] == a[0];
    if i != 0 && j != 0 {
      assert le(a[0], a[i]) && le(b[0], b[j]);
    }
  }

  lemma HeadTail<T>(a: seq<T>, b: seq<T>)
    requires a != [] && b != [] && a[0] == b[0] && a[1..] == b[1..]
    ensures a == b
  {
    assert a == [a[0]] + a[1..] && b == [b[0]] + b[1..];
  }

  /** Two sorted arrangements of the same elements, among which only equal
      elements go no later than each other both ways, are the same
      sequence. */
  lemma {:induction false} SortedByUnique<T>(le: (T, T) -> bool, a: seq<T>, b: seq<T>)
    requires SortedBy(le, a) && SortedBy(le, b) && multiset(a) == multiset(b)
    requires forall x, y :: x in a && y in a && le(x, y) && le(y, x) ==> x == y
    ensures a == b
    decreases |a|
  {
    assert |a| == |multiset(a)| == |multiset(b)| == |b|;
    if a != [] {
      assert b[0] in multiset(a) && a[0] in multiset(b);
      HeadsAgree(le, a, b);
      MultisetTail(a);
      MultisetTail(b);
      SortedByTail(le, a);
      SortedByTail(le, b);
      forall x, y | x in a[1..] && y in a[1..] && le(x, y) && le(y, x)
        ensures x == y
      {
        assert x in a && y in a;
      }
      SortedByUnique(le, a[1..], b[1..]);
      HeadTail(a, b);
    }
  }

  /** Two schedules in comparator order holding the same entries, no two of
      which compare equal unless they are equal, are the same: the sorted
      schedule does not depend on how the sort proceeds. */
  lemma SortedUnique(a: seq<Entry>, b: seq<Entry>)
    requires Sorted(a) && Sorted(b) && multiset(a) == multiset(b)
    requires forall x, y :: x in a && y in a && Compare(x, y) == 0 ==> x == y
    ensures a == b
  {
    assert SortedBy(NoLater, a) && SortedBy(NoLater, b);
    forall x, y | x in a && y in a && NoLater(x, y) && NoLater(y, x)
      ensures x == y
    {
      CompareFlip(x, y);
    }
    SortedByUnique(NoLater, a, b);
  }
}
