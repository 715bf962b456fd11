/** String helpers used by the engine: the `normalize` helper that every
    department and type comparison goes through, and the ordering the final
    sort uses on class names. */
module Text {

  /** JavaScript's `trim` removes white space and line terminators. */
  predicate IsSpace(c: char) {
    c == ' ' || c == '\t' || c == '\n' || c == '\r' || c == '\U{000B}' || c == '\U{000C}'
    || c == '\U{00A0}' || c == '\U{1680}' || ('\U{2000}' <= c <= '\U{200A}')
    || c == '\U{2028}' || c == '\U{2029}' || c == '\U{202F}' || c == '\U{205F}'
    || c == '\U{3000}' || c == '\U{FEFF}'
  }

  predicate IsLower(c: char) { 'a' <= c <= 'z' }

  function UpperChar(c: char): (u: char)
    ensures !IsLower(u)
    ensures IsSpace(u) <==> IsSpace(c)
    ensures !IsLower(c) ==> u == c
  {
    if IsLower(c) then c - 'a' + 'A' else c
  }

  /** `toUpperCase` on the ASCII letters. */
  function Upper(s: string): (r: string) {
    seq(|s|, i requires 0 <= i < |s| => UpperChar(s[i]))
  }

  predicate HasNoLower(s: string) {
    forall i :: 0 <= i < |s| ==> !IsLower(s[i])
  }

  function LeadingSpaces(s: string): (n: nat)
    ensures n <= |s|
  {
    if s != [] && IsSpace(s[0]) then 1 + LeadingSpaces(s[1..]) else 0
  }

  function TrailingSpaces(s: string): (n: nat)
    ensures n <= |s|
  {
    if s != [] && IsSpace(s[|s| - 1]) then 1 + TrailingSpaces(s[..|s| - 1]) else 0
  }

  /** `trim`: drop the white space at both ends. */
  function Trim(s: string): string {
    var t := s[LeadingSpaces(s)..];
    t[..|t| - TrailingSpaces(t)]
  }

  /** The wildcard department, as `normalize` returns it. */
  const GENERAL: string := "GENERAL"

  /** `normalize(str)`: a missing or empty value stands for "General"; the
      text is upper-cased and trimmed (in either order, see
      NormalizeMatchesSource). */
  function Normalize(s: string): string {
    if s == "" then GENERAL else Upper(Trim(s))
  }

  lemma {:induction false} LeadingSpacesSpec(s: string)
    ensures forall i :: 0 <= i < LeadingSpaces(s) ==> IsSpace(s[i])
    ensures LeadingSpaces(s) < |s| ==> !IsSpace(s[LeadingSpaces(s)])
  {
    if s != [] && IsSpace(s[0]) {
      LeadingSpacesSpec(s[1..]);
    }
  }

  lemma {:induction false} TrailingSpacesSpec(s: string)
    ensures forall i :: |s| - TrailingSpaces(s) <= i < |s| ==> IsSpace(s[i])
    ensures TrailingSpaces(s) < |s| ==> !IsSpace(s[|s| - 1 - TrailingSpaces(s)])
  {
    if s != [] && IsSpace(s[|s| - 1]) {
      TrailingSpacesSpec(s[..|s| - 1]);
    }
  }

  /** What `trim` leaves: the text is the trimmed text with white space only
      before and after it, and the trimmed text neither starts nor ends with
      white space. */
  lemma TrimSpec(s: string)
    ensures exists i, j :: 0 <= i <= j <= |s| && Trim(s) == s[i..j]
                           && (forall k :: 0 <= k < i ==> IsSpace(s[k]))
                           && (forall k :: j <= k < |s| ==> IsSpace(s[k]))
    ensures Trim(s) == [] || (!IsSpace(Trim(s)[0]) && !IsSpace(Trim(s)[|Trim(s)| - 1]))
  {
    var i := LeadingSpaces(s);
    var t := s[i..];
    var j := i + |t| - TrailingSpaces(t);
    LeadingSpacesSpec(s);
    TrailingSpacesSpec(t);
    assert Trim(s) == s[i..j];
    forall k | j <= k < |s|
      ensures IsSpace(s[k])
    {
      assert s[k] == t[k - i];
    }
  }

  lemma {:induction false} LeadingSpacesOfUpper(s: string)
    ensures LeadingSpaces(Upper(s)) == LeadingSpaces(s)
  {
    if s != [] {
      assert Upper(s)[1..] == Upper(s[1..]);
      LeadingSpacesOfUpper(s[1..]);
    }
  }

  lemma {:induction false} TrailingSpacesOfUpper(s: string)
    ensures TrailingSpaces(Upper(s)) == TrailingSpaces(s)
  {
    if s != [] {
      assert Upper(s)[..|s| - 1] == Upper(s[..|s| - 1]);
      TrailingSpacesOfUpper(s[..|s| - 1]);
    }
  }

  /** Upper-casing and trimming commute. */
  lemma UpperTrimCommute(s: string)
    ensures Upper(Trim(s)) == Trim(Upper(s))
  {
    var i := LeadingSpaces(s);
    LeadingSpacesOfUpper(s);
    assert Upper(s)[i..] == Upper(s[i..]);
    TrailingSpacesOfUpper(s[i..]);
  }

  /** `Normalize` is the source's one expression, `(str || "General")`
      upper-cased and then trimmed. */
  lemma NormalizeMatchesSource(s: string)
    ensures Normalize(s) == Trim(Upper(if s == "" then "General" else s))
  {
    if s == "" {
      assert Upper("General") == GENERAL;
      assert LeadingSpaces(GENERAL) == 0;
      assert TrailingSpaces(GENERAL) == 0;
    } else {
      UpperTrimCommute(s);
    }
  }

  lemma {:induction false} UpperFixed(s: string)
    requires HasNoLower(s)
    ensures Upper(s) == s
  {
  }

  lemma TrimFixed(s: string)
    requires s == [] || (!IsSpace(s[0]) && !IsSpace(s[|s| - 1]))
    ensures Trim(s) == s
  {
    assert s[0..] == s;
    if s != [] {
      assert s[..|s|] == s;
    }
  }

  /** The result of `normalize` has no lower-case ASCII letter and no white
      space at either end. */
  lemma NormalizeShape(s: string)
    ensures HasNoLower(Normalize(s))
    ensures Normalize(s) == [] || (!IsSpace(Normalize(s)[0]) && !IsSpace(Normalize(s)[|Normalize(s)| - 1]))
  {
    if s != "" {
      TrimSpec(s);
    }
  }

  /** A value that does not normalise to the empty text normalises to itself
      again.  (A value made only of white space normalises to "", and ""
      normalises to the wildcard, so `normalize` is not idempotent there.) */
  lemma NormalizeIdempotent(s: string)
    requires Normalize(s) != ""
    ensures Normalize(Normalize(s)) == Normalize(s)
  {
    var n := Normalize(s);
    NormalizeShape(s);
    TrimFixed(n);
    UpperFixed(n);
  }

  /** A department made only of white space is not the wildcard: it
      normalises to the empty text. */
  lemma NormalizeBlank(s: string)
    requires s != "" && forall i :: 0 <= i < |s| ==> IsSpace(s[i])
    ensures Normalize(s) == ""
    ensures Normalize(Normalize(s)) == GENERAL
  {
    TrimSpec(s);
  }

  /** Departments are compared without regard to ASCII case. */
  lemma NormalizeIgnoresCase(a: string, b: string)
    requires a != "" && b != ""
    requires Upper(a) == Upper(b)
    ensures Normalize(a) == Normalize(b)
  {
    UpperTrimCommute(a);
    UpperTrimCommute(b);
  }

  // ---------------------------------------------------------------------
  // Ordering of class names in the final sort (`localeCompare`, taken here
  // as lexicographic order on code points).

  predicate LexLess(a: string, b: string)
    decreases |a|
  {
    if a == [] then b != []
    else if b == [] then false
    else if a[0] != b[0] then a[0] < b[0]
    else LexLess(a[1..], b[1..])
  }

  /** -1, 0 or 1, as a comparator returns. */
  function StrCompare(a: string, b: string): int {
    if a == b then 0 else if LexLess(a, b) then -1 else 1
  }

  /** Two different texts are ordered one way and not the other. */
  lemma {:induction false} LexTotal(a: string, b: string)
    requires a != b
    ensures LexLess(a, b) != LexLess(b, a)
    decreases |a|
  {
    if a != [] && b != [] && a[0] == b[0] {
      assert a == [a[0]] + a[1..] && b == [b[0]] + b[1..];
      LexTotal(a[1..], b[1..]);
    }
  }

  lemma LexIrreflexive(a: string)
    ensures !LexLess(a, a)
  {
    if a != [] {
      LexIrreflexive(a[1..]);
    }
  }

  lemma StrCompareAntisymmetric(a: string, b: string)
    ensures StrCompare(a, b) == -StrCompare(b, a)
    ensures StrCompare(a, b) == 0 <==> a == b
  {
    if a != b {
      LexTotal(a, b);
    }
  }

  /** Lexicographic order is transitive. */
  lemma {:induction false} LexTransitive(a: string, b: string, c: string)
    requires LexLess(a, b) && LexLess(b, c)
    ensures LexLess(a, c)
    decreases |a|
  {
    if a != [] && a[0] == b[0] && b[0] == c[0] {
      LexTransitive(a[1..], b[1..], c[1..]);
    }
  }
}
