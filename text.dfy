/** String operations the services and pages use: prefix tests, `split(sep).pop()`
    and ASCII upper-casing. */
module Text {
  import opened Wrappers

  predicate StartsWith(s: string, prefix: string) {
    |prefix| <= |s| && s[..|prefix|] == prefix
  }

  /** `sep` occurs in `s` starting at position `j`. */
  predicate OccursAt(s: string, sep: string, j: int) {
    0 <= j && j + |sep| <= |s| && s[j..j + |sep|] == sep
  }

  /** Position of the first occurrence of `sep` in `s`, scanning from the left,
      as JavaScript's `indexOf` finds it. */
  function IndexOf(s: string, sep: string): (r: Option<nat>)
    requires |sep| > 0
    ensures r.Some? ==> OccursAt(s, sep, r.value)
    decreases |s|
  {
    if |s| < |sep| then None
    else if s[..|sep|] == sep then Some(0)
    else
      match IndexOf(s[1..], sep)
      case None => None
      case Some(i) => OccursShift(s, sep, i + 1); Some(i + 1)
  }

  lemma OccursShift(s: string, sep: string, j: int)
    requires |s| > 0 && 1 <= j
    ensures OccursAt(s, sep, j) <==> OccursAt(s[1..], sep, j - 1)
  {
    if j + |sep| <= |s| {
      var a, b := s[j..j + |sep|], s[1..][j - 1..j - 1 + |sep|];
      forall k | 0 <= k < |sep| ensures a[k] == b[k] {
        assert a[k] == s[j + k] && b[k] == s[j + k];
      }
      assert a == b;
    }
  }

  /** No occurrence is missed and none comes before the one found: together with the
      postcondition of `IndexOf`, the result is exactly the first occurrence. */
  lemma {:induction false} IndexOfFirst(s: string, sep: string, j: int)
    requires |sep| > 0 && OccursAt(s, sep, j)
    ensures IndexOf(s, sep).Some? && IndexOf(s, sep).value <= j
    decreases |s|
  {
    if s[..|sep|] != sep {
      assert j != 0 by { assert s[0..|sep|] == s[..|sep|]; }
      OccursShift(s, sep, j);
      IndexOfFirst(s[1..], sep, j - 1);
    }
  }

  /** The last piece of `s.split(sep)`: JavaScript splits at the occurrences of `sep`
      found left to right without overlap, and `pop()` returns the final piece, which
      holds no `sep`. */
  function SplitLast(s: string, sep: string): (r: string)
    requires |sep| > 0
    ensures IndexOf(r, sep).None?
    decreases |s|
  {
    match IndexOf(s, sep)
    case None => s
    case Some(i) => SplitLast(s[i + |sep|..], sep)
  }

  /** The last piece is a suffix of the input. */
  lemma {:induction false} SplitLastSuffix(s: string, sep: string)
    requires |sep| > 0
    ensures var r := SplitLast(s, sep); |r| <= |s| && r == s[|s| - |r|..]
    decreases |s|
  {
    match IndexOf(s, sep)
    case None =>
    case Some(i) =>
      var t := s[i + |sep|..];
      SplitLastSuffix(t, sep);
      var r := SplitLast(t, sep);
      assert SplitLast(s, sep) == r;
      SuffixOfSuffix(s, i + |sep|, |r|);
  }

  lemma SuffixOfSuffix(s: string, a: nat, k: nat)
    requires a <= |s| && k <= |s| - a
    ensures s[a..][|s| - a - k..] == s[|s| - k..]
  {
    var x, y := s[a..][|s| - a - k..], s[|s| - k..];
    assert |x| == |y|;
    forall m | 0 <= m < k ensures x[m] == y[m] {
      assert x[m] == s[|s| - k + m];
    }
  }

  /** A one-character separator occurs exactly where that character does. */
  lemma IndexOfChar(s: string, c: char)
    ensures IndexOf(s, [c]).None? <==> c !in s
  {
    if c in s {
      var j :| 0 <= j < |s| && s[j] == c;
      assert OccursAt(s, [c], j);
      IndexOfFirst(s, [c], j);
    }
    var r := IndexOf(s, [c]);
    if r.Some? {
      OccursChar(s, c, r.value);
    }
  }

  lemma OccursChar(s: string, c: char, j: int)
    requires OccursAt(s, [c], j)
    ensures s[j] == c
  {
    assert s[j..j + 1][0] == s[j];
  }

  /** Splitting `p + c + q` at the character `c`, when `q` holds no `c`, yields `q`
      whatever `p` holds. */
  lemma {:induction false} SplitLastAfterChar(p: string, c: char, q: string)
    requires c !in q
    ensures SplitLast(p + [c] + q, [c]) == q
    decreases |p|
  {
    var s := p + [c] + q;
    assert OccursAt(s, [c], |p|) by { assert s[|p|..|p| + 1] == [c]; }
    IndexOfFirst(s, [c], |p|);
    var i := IndexOf(s, [c]).value;
    assert s[i] == c by { assert s[i..i + 1][0] == s[i]; }
    if i == |p| {
      assert s[i + 1..] == q;
      IndexOfChar(q, c);
    } else {
      assert i < |p|;
      assert s[i + 1..] == p[i + 1..] + [c] + q;
      SplitLastAfterChar(p[i + 1..], c, q);
    }
  }

  /** Splitting `p + sep + q` at `sep` yields `q` when `q` holds no `sep` and no
      occurrence of `sep` starts inside `p`; the second condition is needed because
      a separator such as "/hero-images/" can overlap itself. */
  lemma SplitLastAfterMarker(p: string, sep: string, q: string)
    requires |sep| > 0
    requires IndexOf(p + sep[..|sep| - 1], sep).None?
    requires IndexOf(q, sep).None?
    ensures SplitLast(p + sep + q, sep) == q
  {
    var s := p + sep + q;
    var early := p + sep[..|sep| - 1];
    assert OccursAt(s, sep, |p|) by { assert s[|p|..|p| + |sep|] == sep; }
    IndexOfFirst(s, sep, |p|);
    var j := IndexOf(s, sep).value;
    if j < |p| {
      assert s[..|early|] == early;
      OccursInPrefix(s, early, sep, j);
      IndexOfFirst(early, sep, j);
    }
    assert s[|p| + |sep|..] == q;
  }

  /** An occurrence that ends within a prefix is an occurrence in that prefix. */
  lemma OccursInPrefix(s: string, t: string, sep: string, j: int)
    requires |t| <= |s| && s[..|t|] == t
    requires OccursAt(s, sep, j) && j + |sep| <= |t|
    ensures OccursAt(t, sep, j)
  {
    assert t[j..j + |sep|] == s[j..j + |sep|];
  }

  /** A separator that contains `c` cannot occur in a string without `c`. */
  lemma NoMarkerWithoutChar(q: string, sep: string, c: char)
    requires |sep| > 0 && c in sep && c !in q
    ensures IndexOf(q, sep).None?
  {
  }

  /** The characters of the last piece all come from `s`. */
  lemma SplitLastChars(s: string, sep: string, c: char)
    requires |sep| > 0 && c !in s
    ensures c !in SplitLast(s, sep)
  {
    var r := SplitLast(s, sep);
    SplitLastSuffix(s, sep);
    forall k | 0 <= k < |r| ensures r[k] != c {
      assert r[k] == s[|s| - |r| + k];
    }
  }

  /** ASCII upper-casing, as `toUpperCase` does for ASCII letters. */
  function UpperChar(c: char): (u: char) {
    if 'a' <= c <= 'z' then (c as int - 'a' as int + 'A' as int) as char else c
  }

  function Upper(s: string): (r: string)
    ensures |r| == |s|
    ensures forall i :: 0 <= i < |s| ==> r[i] == UpperChar(s[i])
  {
    seq(|s|, i requires 0 <= i < |s| => UpperChar(s[i]))
  }

  lemma UpperIdempotent(s: string)
    ensures Upper(Upper(s)) == Upper(s)
  {
  }
}
