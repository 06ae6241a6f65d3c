/** Sequence operations shared by the listings and the forms: `Array.filter`, removal
    by index, and the stable ordering a backend `order by` produces. */
module Seqs {

  function SetOf<T>(s: seq<T>): set<T> {
    set x | x in s
  }

  lemma SetOfSingleton<T>(x: T)
    ensures SetOf([x]) == {x}
  {
    assert x in [x];
  }

  lemma SetOfSnoc<T>(s: seq<T>, x: T)
    ensures SetOf(s + [x]) == SetOf(s) + {x}
  {
  }

  predicate Distinct<T(==)>(s: seq<T>) {
    forall i, j :: 0 <= i < j < |s| ==> s[i] != s[j]
  }

  lemma DistinctSnoc<T>(s: seq<T>, x: T)
    requires Distinct(s) && x !in s
    ensures Distinct(s + [x])
  {
  }

  /** `s.filter(keep)`. */
  function Filter<T>(s: seq<T>, keep: T -> bool): (r: seq<T>)
    ensures |r| <= |s|
  {
    if s == [] then []
    else if keep(s[0]) then [s[0]] + Filter(s[1..], keep)
    else Filter(s[1..], keep)
  }

  /** An element survives the filter exactly when it is in the input and kept. */
  lemma {:induction false} FilterKeeps<T>(s: seq<T>, keep: T -> bool, x: T)
    ensures x in Filter(s, keep) <==> x in s && keep(x)
  {
    if s != [] {
      FilterKeeps(s[1..], keep, x);
      assert s == [s[0]] + s[1..];
    }
  }

  /** Filtering distributes over concatenation, so it keeps the input order. */
  lemma {:induction false} FilterAppend<T>(a: seq<T>, b: seq<T>, keep: T -> bool)
    ensures Filter(a + b, keep) == Filter(a, keep) + Filter(b, keep)
  {
    if a == [] {
      assert a + b == b;
    } else {
      var x, t := a[0], a[1..];
      FilterAppend(t, b, keep);
      assert a + b == [x] + (t + b);
      FilterCons(x, t + b, keep);
      assert a == [x] + t;
      FilterCons(x, t, keep);
      if keep(x) {
        AppendAssoc([x], Filter(t, keep), Filter(b, keep));
      }
    }
  }

  lemma AppendAssoc<T>(p: seq<T>, q: seq<T>, r: seq<T>)
    ensures (p + q) + r == p + (q + r)
  {
  }

  /** Filtering with a test every element passes returns the input unchanged. */
  lemma {:induction false} FilterKeepsAll<T>(s: seq<T>, keep: T -> bool)
    requires forall x :: x in s ==> keep(x)
    ensures Filter(s, keep) == s
  {
    if s != [] {
      FilterKeepsAll(s[1..], keep);
      assert s == [s[0]] + s[1..];
    }
  }

  /** `s.filter((_, i) => i !== index)`: every element whose position differs from `index`. */
  function Without<T>(s: seq<T>, index: int): (r: seq<T>)
    ensures |r| == if 0 <= index < |s| then |s| - 1 else |s|
  {
    if s == [] then []
    else Without(s[..|s| - 1], index) + (if |s| - 1 != index then [s[|s| - 1]] else [])
  }

  /** Dropping a position in range splices it out; any other index changes nothing. */
  lemma {:induction false} WithoutSplices<T>(s: seq<T>, index: int)
    ensures 0 <= index < |s| ==> Without(s, index) == s[..index] + s[index + 1..]
    ensures !(0 <= index < |s|) ==> Without(s, index) == s
  {
    if s != [] {
      var init := s[..|s| - 1];
      WithoutSplices(init, index);
      if index == |s| - 1 {
        assert init == s[..index] + s[index + 1..];
      } else if 0 <= index < |s| - 1 {
        assert init[..index] == s[..index];
        assert init[index + 1..] + [s[|s| - 1]] == s[index + 1..];
      } else {
        assert init + [s[|s| - 1]] == s;
      }
    }
  }

  /** Position `k` after dropping `index` holds what position `k` or `k + 1` held before,
      the same for every sequence: two parallel lists stay aligned. */
  lemma WithoutAt<T>(s: seq<T>, index: int, k: int)
    requires 0 <= index < |s| && 0 <= k < |s| - 1
    ensures Without(s, index)[k] == s[if k < index then k else k + 1]
  {
    WithoutSplices(s, index);
  }

  /** `key` never decreases along `s`. */
  ghost predicate SortedBy<T>(s: seq<T>, key: T -> int) {
    forall i, j :: 0 <= i < j < |s| ==> key(s[i]) <= key(s[j])
  }

  /** Puts `x` before the first element whose key is not smaller. */
  function InsertBy<T>(x: T, s: seq<T>, key: T -> int): seq<T> {
    if s == [] || key(x) <= key(s[0]) then [x] + s
    else [s[0]] + InsertBy(x, s[1..], key)
  }

  lemma {:induction false} InsertByElements<T>(x: T, s: seq<T>, key: T -> int)
    ensures multiset(InsertBy(x, s, key)) == multiset(s) + multiset{x}
  {
    if s != [] && key(x) > key(s[0]) {
      InsertByElements(x, s[1..], key);
      assert s == [s[0]] + s[1..];
    }
  }

  /** Stable sort by `key`, ascending: elements with equal keys keep their input order. */
  function SortBy<T>(s: seq<T>, key: T -> int): seq<T> {
    if s == [] then [] else InsertBy(s[0], SortBy(s[1..], key), key)
  }

  /** The listing is a permutation of the input. */
  lemma {:induction false} SortByPermutes<T>(s: seq<T>, key: T -> int)
    ensures multiset(SortBy(s, key)) == multiset(s)
  {
    if s != [] {
      SortByPermutes(s[1..], key);
      InsertByElements(s[0], SortBy(s[1..], key), key);
      assert s == [s[0]] + s[1..];
    }
  }

  /** The insertion adds `x` and loses nothing. */
  lemma {:induction false} InsertByMembers<T>(x: T, s: seq<T>, key: T -> int, y: T)
    ensures y in InsertBy(x, s, key) <==> y == x || y in s
  {
    if s != [] && key(x) > key(s[0]) {
      InsertByMembers(x, s[1..], key, y);
      assert s == [s[0]] + s[1..];
    }
  }

  lemma {:induction false} InsertBySorted<T>(x: T, s: seq<T>, key: T -> int)
    requires SortedBy(s, key)
    ensures SortedBy(InsertBy(x, s, key), key)
  {
    if s == [] || key(x) <= key(s[0]) {
      var r := [x] + s;
      forall i, j | 0 <= i < j < |r| ensures key(r[i]) <= key(r[j]) {
        assert r[j] == s[j - 1];
        if i > 0 {
          assert r[i] == s[i - 1];
        }
      }
    } else {
      SortedTail(s, key);
      var t := InsertBy(x, s[1..], key);
      InsertBySorted(x, s[1..], key);
      forall y | y in t ensures key(s[0]) <= key(y) {
        InsertByMembers(x, s[1..], key, y);
        if y != x {
          SortedHead(s, key, y);
        }
      }
      var r := [s[0]] + t;
      forall i, j | 0 <= i < j < |r| ensures key(r[i]) <= key(r[j]) {
        assert r[j] == t[j - 1] && r[j] in t;
        if i > 0 {
          assert r[i] == t[i - 1];
        }
      }
    }
  }

  /** The listing is in key order. */
  lemma {:induction false} SortBySorted<T>(s: seq<T>, key: T -> int)
    ensures SortedBy(SortBy(s, key), key)
  {
    if s != [] {
      SortBySorted(s[1..], key);
      InsertBySorted(s[0], SortBy(s[1..], key), key);
    }
  }

  /** The listing holds exactly the input's elements. */
  lemma SortByElements<T>(s: seq<T>, key: T -> int, x: T)
    ensures x in SortBy(s, key) <==> x in s
  {
    SortByPermutes(s, key);
    assert x in multiset(SortBy(s, key)) <==> x in multiset(s);
  }

  lemma FilterCons<T>(a: T, r: seq<T>, keep: T -> bool)
    ensures keep(a) ==> Filter([a] + r, keep) == [a] + Filter(r, keep)
    ensures !keep(a) ==> Filter([a] + r, keep) == Filter(r, keep)
  {
    assert ([a] + r)[1..] == r;
  }

  lemma SortedTail<T>(t: seq<T>, key: T -> int)
    requires t != [] && SortedBy(t, key)
    ensures SortedBy(t[1..], key)
  {
    forall i, j | 0 <= i < j < |t| - 1 ensures key(t[1..][i]) <= key(t[1..][j]) {
      assert t[1..][i] == t[i + 1] && t[1..][j] == t[j + 1];
    }
  }

  /** The head of a sorted sequence has the least key. */
  lemma SortedHead<T>(t: seq<T>, key: T -> int, y: T)
    requires t != [] && SortedBy(t, key) && y in t
    ensures key(t[0]) <= key(y)
  {
  }

  lemma InsertByFront<T>(x: T, a: T, r: seq<T>, key: T -> int)
    requires key(x) > key(a)
    ensures InsertBy(x, [a] + r, key) == [a] + InsertBy(x, r, key)
  {
    assert ([a] + r)[1..] == r;
  }

  /** Filtering after an insertion equals inserting into the filtered sequence, when the
      sequence is sorted. */
  lemma {:induction false} FilterInsertBy<T>(x: T, t: seq<T>, key: T -> int, keep: T -> bool)
    requires SortedBy(t, key)
    ensures keep(x) ==> Filter(InsertBy(x, t, key), keep) == InsertBy(x, Filter(t, keep), key)
    ensures !keep(x) ==> Filter(InsertBy(x, t, key), keep) == Filter(t, keep)
  {
    if t == [] {
      FilterCons(x, [], keep);
    } else if key(x) <= key(t[0]) {
      FilterCons(x, t, keep);
      var ft := Filter(t, keep);
      if keep(x) && ft != [] {
        FilterKeeps(t, keep, ft[0]);
        SortedHead(t, key, ft[0]);
      }
    } else {
      var t1 := t[1..];
      var rest := InsertBy(x, t1, key);
      assert t == [t[0]] + t1;
      InsertByFront(x, t[0], t1, key);
      FilterCons(t[0], rest, keep);
      FilterCons(t[0], t1, keep);
      SortedTail(t, key);
      FilterInsertBy(x, t1, key, keep);
      var f1 := Filter(t1, keep);
      if keep(t[0]) {
        InsertByFront(x, t[0], f1, key);
        if keep(x) {
          assert InsertBy(x, Filter(t, keep), key) == [t[0]] + InsertBy(x, f1, key);
        }
      }
    }
  }

  /** Sorting then filtering equals filtering then sorting: a filtered `order by` query
      returns exactly the matching subsequence of the unfiltered one. */
  lemma {:induction false} SortFilterCommute<T>(s: seq<T>, key: T -> int, keep: T -> bool)
    ensures SortBy(Filter(s, keep), key) == Filter(SortBy(s, key), keep)
  {
    if s != [] {
      var s1 := s[1..];
      SortFilterCommute(s1, key, keep);
      SortBySorted(s1, key);
      FilterInsertBy(s[0], SortBy(s1, key), key, keep);
      FilterCons(s[0], s1, keep);
      assert s == [s[0]] + s1;
      var f := Filter(s1, keep);
      if keep(s[0]) {
        assert ([s[0]] + f)[1..] == f;
        assert SortBy([s[0]] + f, key) == InsertBy(s[0], SortBy(f, key), key);
      }
    }
  }
}
