/** String helpers with the meaning Python gives them: `sub in s`,
    `s.split(sep)[0]`, `sep.join(parts)`, `os.path.join(a, b)` and the
    decimal rendering of a natural number. */
module Text {

  predicate IsPrefix(p: string, s: string) {
    |p| <= |s| && s[..|p|] == p
  }

  /** `sub` occurs in `s` starting at index `i`. */
  predicate OccursAt(s: string, sub: string, i: int) {
    0 <= i && i + |sub| <= |s| && s[i..i + |sub|] == sub
  }

  /** Python's `sub in s` on two strings. */
  function Contains(s: string, sub: string): bool
    decreases |s|
  {
    if IsPrefix(sub, s) then true
    else if s == [] then false
    else Contains(s[1..], sub)
  }

  lemma {:induction false} ContainsIff(s: string, sub: string)
    ensures Contains(s, sub) <==> exists i :: OccursAt(s, sub, i)
    decreases |s|
  {
    assert OccursAt(s, sub, 0) <==> IsPrefix(sub, s) by {
      assert |sub| <= |s| ==> s[0..|sub|] == s[..|sub|];
    }
    if IsPrefix(sub, s) {
    } else if s == [] {
      assert |sub| > 0;
    } else {
      ContainsIff(s[1..], sub);
      if Contains(s[1..], sub) {
        var i :| OccursAt(s[1..], sub, i);
        assert s[i + 1..i + 1 + |sub|] == s[1..][i..i + |sub|];
        assert OccursAt(s, sub, i + 1);
      }
      forall i | OccursAt(s, sub, i)
        ensures OccursAt(s[1..], sub, i - 1)
      {
        assert s[1..][i - 1..i - 1 + |sub|] == s[i..i + |sub|];
      }
    }
  }

  /** `s.split(sep)[0]` for a non-empty separator: the part of `s` before the
      first occurrence of `sep`, or all of `s` when `sep` does not occur. */
  function Before(s: string, sep: string): (r: string)
    requires sep != ""
    ensures IsPrefix(r, s)
    ensures forall i :: 0 <= i < |r| ==> !OccursAt(s, sep, i)
    ensures |r| == |s| || OccursAt(s, sep, |r|)
    decreases |s|
  {
    if IsPrefix(sep, s) then
      assert OccursAt(s, sep, 0) by { assert s[0..|sep|] == s[..|sep|]; }
      ""
    else if s == [] then ""
    else
      var rest := Before(s[1..], sep);
      assert forall i :: 1 <= i <= |s| ==> (OccursAt(s, sep, i) <==> OccursAt(s[1..], sep, i - 1)) by {
        forall i | 1 <= i <= |s|
          ensures OccursAt(s, sep, i) <==> OccursAt(s[1..], sep, i - 1)
        {
          if i + |sep| <= |s| {
            assert s[1..][i - 1..i - 1 + |sep|] == s[i..i + |sep|];
          }
        }
      }
      assert !OccursAt(s, sep, 0) by { assert |sep| > |s| || s[0..|sep|] == s[..|sep|]; }
      [s[0]] + rest
  }

  /** `sep.join(parts)`. */
  function Join(parts: seq<string>, sep: string): string
    decreases |parts|
  {
    if |parts| == 0 then ""
    else if |parts| == 1 then parts[0]
    else parts[0] + sep + Join(parts[1..], sep)
  }

  /** `os.path.join(a, b)` on POSIX: an absolute `b` wins, otherwise `b` is
      appended after a single separator. */
  function PathJoin(a: string, b: string): (r: string)
    ensures |b| > 0 && b[0] == '/' ==> r == b
    ensures (|b| == 0 || b[0] != '/') ==> IsPrefix(a, r) && |b| <= |r| && r[|r| - |b|..] == b
  {
    if |b| > 0 && b[0] == '/' then b
    else if a == "" || a[|a| - 1] == '/' then a + b
    else a + "/" + b
  }

  function DigitChar(d: nat): char
    requires d < 10
  {
    "0123456789"[d]
  }

  /** `str(n)` for a natural number. */
  function NatToString(n: nat): string
    decreases n
  {
    if n < 10 then [DigitChar(n)] else NatToString(n / 10) + [DigitChar(n % 10)]
  }
}

/** Sequence helpers: the order-keeping deduplication `list(dict.fromkeys(xs))`. */
module Lists {

  predicate NoDup<T(==)>(s: seq<T>) {
    forall i, j :: 0 <= i < j < |s| ==> s[i] != s[j]
  }

  /** Index of the first occurrence of `x` in `xs`. */
  function IndexOf<T(==)>(xs: seq<T>, x: T): (i: nat)
    requires x in xs
    ensures i < |xs| && xs[i] == x && x !in xs[..i]
  {
    if xs[0] == x then 0 else 1 + IndexOf(xs[1..], x)
  }

  /** `list(dict.fromkeys(xs))`: the distinct elements of `xs`, each kept at its
      first occurrence. */
  function Dedup<T(==)>(xs: seq<T>): (r: seq<T>)
    ensures NoDup(r)
    ensures forall i :: 0 <= i < |r| ==> r[i] in xs
    ensures forall i :: 0 <= i < |xs| ==> xs[i] in r
    decreases |xs|
  {
    if xs == [] then []
    else
      var init := xs[..|xs| - 1];
      assert xs == init + [xs[|xs| - 1]];
      var r := Dedup(init);
      if xs[|xs| - 1] in r then r else r + [xs[|xs| - 1]]
  }

  lemma {:induction false} IndexOfInPrefix<T>(xs: seq<T>, p: nat, x: T)
    requires p <= |xs| && x in xs[..p]
    ensures IndexOf(xs, x) == IndexOf(xs[..p], x)
  {
    if xs[0] != x {
      assert xs[1..][..p - 1] == xs[..p][1..];
      IndexOfInPrefix(xs[1..], p - 1, x);
    }
  }

  /** The elements `Dedup` keeps appear in the order of their first occurrences. */
  lemma {:induction false} DedupKeepsFirstOccurrenceOrder<T>(xs: seq<T>, i: nat, j: nat)
    requires i < j < |Dedup(xs)|
    ensures IndexOf(xs, Dedup(xs)[i]) < IndexOf(xs, Dedup(xs)[j])
    decreases |xs|
  {
    var init := xs[..|xs| - 1];
    var last := xs[|xs| - 1];
    assert xs == init + [last];
    var r := Dedup(init);
    var a, b := Dedup(xs)[i], Dedup(xs)[j];
    assert a in init by { assert a == r[i]; }
    IndexOfInPrefix(xs, |xs| - 1, a);
    if j < |r| {
      assert b == r[j];
      IndexOfInPrefix(xs, |xs| - 1, b);
      DedupKeepsFirstOccurrenceOrder(init, i, j);
    } else {
      assert b == last && last !in init;
      assert IndexOf(xs, b) == |xs| - 1;
    }
  }

  /** A sequence without repetitions is its own deduplication. */
  lemma {:induction false} DedupOfNoDup<T>(xs: seq<T>)
    requires NoDup(xs)
    ensures Dedup(xs) == xs
    decreases |xs|
  {
    if xs != [] {
      var init := xs[..|xs| - 1];
      assert NoDup(init);
      DedupOfNoDup(init);
      assert xs[|xs| - 1] !in init;
      assert xs == init + [xs[|xs| - 1]];
    }
  }

  lemma DedupIdempotent<T>(xs: seq<T>)
    ensures Dedup(Dedup(xs)) == Dedup(xs)
  {
    DedupOfNoDup(Dedup(xs));
  }
}
