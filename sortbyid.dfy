/**
 * `SolarNodeImageInfoSortById`: a null-safe comparator on image ids that
 * puts null ids first and compares the rest with Java's
 * `String.compareToIgnoreCase`.
 */
module SortById {
  import opened Common

  /**
   * `String.compareToIgnoreCase`: the difference of the first pair of
   * characters that differ after case folding, else the length difference.
   */
  function CompareIgnoreCase(a: string, b: string): (r: int)
    ensures (a == [] || b == []) ==> r == |a| - |b|
  {
    if a == [] || b == [] then |a| - |b|
    else if LowerChar(a[0]) != LowerChar(b[0]) then LowerChar(a[0]) as int - LowerChar(b[0]) as int
    else CompareIgnoreCase(a[1..], b[1..])
  }

  /** `compare(o1, o2)` on the two ids (a null info has a null id). */
  function Compare(l: Option<string>, r: Option<string>): (c: int)
    ensures l.None? && r.None? ==> c == 0
    ensures l.None? && r.Some? ==> c == -1
    ensures l.Some? && r.None? ==> c == 1
    ensures l.Some? && r.Some? ==> c == CompareIgnoreCase(l.value, r.value)
  {
    match (l, r)
    case (None, None) => 0
    case (None, Some(_)) => -1
    case (Some(_), None) => 1
    case (Some(x), Some(y)) => CompareIgnoreCase(x, y)
  }

  /** Swapping the arguments negates the case-insensitive comparison. */
  lemma {:induction false} CompareIgnoreCaseAntisymmetric(a: string, b: string)
    ensures CompareIgnoreCase(b, a) == -CompareIgnoreCase(a, b)
  {
    if a != [] && b != [] && LowerChar(a[0]) == LowerChar(b[0]) {
      CompareIgnoreCaseAntisymmetric(a[1..], b[1..]);
    }
  }

  /** The comparison is 0 exactly when the ids are equal after case folding. */
  lemma {:induction false} CompareIgnoreCaseZero(a: string, b: string)
    ensures CompareIgnoreCase(a, b) == 0 <==> Lower(a) == Lower(b)
  {
    if a == [] || b == [] {
      if Lower(a) == Lower(b) {
        assert |a| == |b|;
      }
    } else if LowerChar(a[0]) != LowerChar(b[0]) {
      assert Lower(a)[0] != Lower(b)[0];
    } else {
      CompareIgnoreCaseZero(a[1..], b[1..]);
      assert Lower(a) == [LowerChar(a[0])] + Lower(a[1..]);
      assert Lower(b) == [LowerChar(b[0])] + Lower(b[1..]);
      if Lower(a) == Lower(b) {
        assert Lower(a)[1..] == Lower(a[1..]);
        assert Lower(b)[1..] == Lower(b[1..]);
      }
    }
  }

  /** The case-insensitive comparison is transitive in its sign. */
  lemma {:induction false} CompareIgnoreCaseTransitive(a: string, b: string, c: string)
    requires CompareIgnoreCase(a, b) < 0 && CompareIgnoreCase(b, c) < 0
    ensures CompareIgnoreCase(a, c) < 0
  {
    if a != [] && b != [] && c != [] {
      if LowerChar(a[0]) == LowerChar(b[0]) && LowerChar(b[0]) == LowerChar(c[0]) {
        CompareIgnoreCaseTransitive(a[1..], b[1..], c[1..]);
      }
    }
  }

  /** Two null ids compare as equal, and ids differing only in case compare as 0. */
  lemma CompareEqualIds(l: Option<string>, r: Option<string>)
    ensures Compare(l, r) == 0 <==>
              (l.None? && r.None?) || (l.Some? && r.Some? && Lower(l.value) == Lower(r.value))
  {
    if l.Some? && r.Some? {
      CompareIgnoreCaseZero(l.value, r.value);
    }
  }

  /** compare(a, b) and compare(b, a) have opposite signs or are both 0. */
  lemma CompareAntisymmetric(l: Option<string>, r: Option<string>)
    ensures Compare(r, l) == -Compare(l, r)
  {
    if l.Some? && r.Some? {
      CompareIgnoreCaseAntisymmetric(l.value, r.value);
    }
  }

  /** The ordering is transitive, so it can drive a sort. */
  lemma CompareTransitive(a: Option<string>, b: Option<string>, c: Option<string>)
    requires Compare(a, b) < 0 && Compare(b, c) < 0
    ensures Compare(a, c) < 0
  {
    if a.Some? && b.Some? && c.Some? {
      CompareIgnoreCaseTransitive(a.value, b.value, c.value);
    }
  }

  /** Equal-comparing ids are interchangeable: they compare alike against any third id. */
  lemma {:induction false} CompareIgnoreCaseCongruent(a: string, b: string, c: string)
    requires CompareIgnoreCase(a, b) == 0
    ensures CompareIgnoreCase(a, c) == CompareIgnoreCase(b, c)
  {
    if a != [] && b != [] {
      assert LowerChar(a[0]) == LowerChar(b[0]);
      if c == [] {
        CompareIgnoreCaseZero(a, b);
      } else if LowerChar(a[0]) == LowerChar(c[0]) {
        CompareIgnoreCaseCongruent(a[1..], b[1..], c[1..]);
      }
    }
  }
}
