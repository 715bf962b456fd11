/** `shuffle`: the Fisher-Yates pass the engine runs on the lesson queue and
    on the day order.  `Math.random` is a nondeterministic choice of the swap
    partner; nothing is claimed about the distribution. */
module Shuffling {

  method Shuffle<T>(a: array<T>)
    modifies a
    ensures multiset(a[..]) == multiset(old(a[..]))
  {
    var i := a.Length - 1;
    while i > 0
      invariant -1 <= i < a.Length
      invariant multiset(a[..]) == multiset(old(a[..]))
    {
      var j :| 0 <= j <= i;
      a[i], a[j] := a[j], a[i];
      i := i - 1;
    }
  }

  lemma DaysMembership(days: seq<int>)
    requires multiset(days) == multiset{0, 1, 2, 3, 4}
    ensures |days| == 5
    ensures forall d :: d in days <==> 0 <= d < 5
  {
    calc {
      |days|;
      |multiset(days)|;
      |multiset{0, 1, 2, 3, 4}|;
      5;
    }
    forall d
      ensures d in days <==> 0 <= d < 5
    {
      calc {
        d in days;
        d in multiset(days);
        d in multiset{0, 1, 2, 3, 4};
        0 <= d < 5;
      }
    }
  }

  /** Shuffling the day indices yields some order of the five days. */
  method ShuffledDays() returns (days: seq<int>)
    ensures multiset(days) == multiset{0, 1, 2, 3, 4}
    ensures |days| == 5
    ensures forall d :: d in days <==> 0 <= d < 5
  {
    var a := new int[5];
    a[0], a[1], a[2], a[3], a[4] := 0, 1, 2, 3, 4;
    assert a[..] == [0, 1, 2, 3, 4];
    Shuffle(a);
    days := a[..];
    DaysMembership(days);
  }
}
