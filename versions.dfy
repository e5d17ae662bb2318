/** Server versions and their order. ADCM advertises date-coded dotted
    versions such as 2020.09.25.13; the client compares them with
    `rpm.compare_versions`, which for such versions compares the numeric
    segments from the left and treats a version that is a proper prefix of
    another as the older one. */
module Versions {

  /** A dotted version as its numeric segments: 2020.09.25.13 is [2020, 9, 25, 13]. */
  type Version = seq<nat>

  /** `rpm.compare_versions(a, b)`: -1 when `a` is older, 0 when equal, 1 when newer. */
  function Compare(a: Version, b: Version): (r: int)
    ensures -1 <= r <= 1
    decreases |a|
  {
    if a == [] && b == [] then 0
    else if a == [] then -1
    else if b == [] then 1
    else if a[0] < b[0] then -1
    else if a[0] > b[0] then 1
    else Compare(a[1..], b[1..])
  }

  /** `a` is strictly older than `b`. */
  predicate Older(a: Version, b: Version) {
    Compare(a, b) < 0
  }

  lemma {:induction false} CompareAntisymmetric(a: Version, b: Version)
    ensures Compare(b, a) == -Compare(a, b)
    decreases |a|
  {
    if a != [] && b != [] && a[0] == b[0] {
      CompareAntisymmetric(a[1..], b[1..]);
    }
  }

  lemma {:induction false} CompareZeroIffEqual(a: Version, b: Version)
    ensures Compare(a, b) == 0 <==> a == b
    decreases |a|
  {
    if a != [] && b != [] && a[0] == b[0] {
      CompareZeroIffEqual(a[1..], b[1..]);
      assert a == [a[0]] + a[1..] && b == [b[0]] + b[1..];
    }
  }

  lemma {:induction false} OlderTransitive(a: Version, b: Version, c: Version)
    requires Older(a, b) && Older(b, c)
    ensures Older(a, c)
    decreases |a|
  {
    if a != [] && b != [] && c != [] && a[0] == b[0] == c[0] {
      OlderTransitive(a[1..], b[1..], c[1..]);
    }
  }

  /** Any two versions are equal or one of them is older: the order is total. */
  lemma OlderTotal(a: Version, b: Version)
    ensures a == b || Older(a, b) || Older(b, a)
  {
    CompareZeroIffEqual(a, b);
    CompareAntisymmetric(a, b);
  }

  /** A version not older than one that is not older than a third is not older than it. */
  lemma NotOlderTransitive(a: Version, b: Version, c: Version)
    requires !Older(b, a) && !Older(c, b)
    ensures !Older(c, a)
  {
    CompareAntisymmetric(a, b);
    CompareAntisymmetric(b, c);
    CompareZeroIffEqual(a, b);
    CompareZeroIffEqual(b, c);
    if a != b && b != c {
      OlderTransitive(a, b, c);
      CompareAntisymmetric(a, c);
    }
  }
}
