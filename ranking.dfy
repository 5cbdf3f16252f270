/**
 * The sequence operations the views chain after grouping: `filter`, a stable
 * descending `sort` on a numeric key (JavaScript's `Array.prototype.sort` is
 * stable), `slice(0, n)` and summing. The sort is specified by a stable
 * insertion sort; `SortDescUnique` shows that every stable descending sort
 * gives the same sequence.
 */
module Ranking {

  /** Sum of `w` over `s`. */
  function SumSeq<T>(s: seq<T>, w: T -> int): int {
    if s == [] then 0 else SumSeq(s[..|s| - 1], w) + w(s[|s| - 1])
  }

  /** `Array.prototype.filter`. */
  function Filter<T>(s: seq<T>, p: T -> bool): seq<T> {
    if s == [] then [] else Filter(s[..|s| - 1], p) + (if p(s[|s| - 1]) then [s[|s| - 1]] else [])
  }

  /** `Array.prototype.slice(0, n)`. */
  function Take<T>(s: seq<T>, n: nat): (r: seq<T>)
    ensures |r| <= n && |r| <= |s|
    ensures |r| == n || |r| == |s|
    ensures r == s[..|r|]
  {
    if |s| <= n then s else s[..n]
  }

  /** Non-increasing by `key`. */
  predicate SortedDesc<T>(s: seq<T>, key: T -> int) {
    forall i, j :: 0 <= i < j < |s| ==> key(s[i]) >= key(s[j])
  }

  /** The elements of `s` whose key is `v`, in their order in `s`. */
  function WithKey<T>(s: seq<T>, key: T -> int, v: int): seq<T> {
    if s == [] then [] else WithKey(s[..|s| - 1], key, v) + (if key(s[|s| - 1]) == v then [s[|s| - 1]] else [])
  }

  /**
   * Inserts `x` into `s` after every element whose key is at least `key(x)`,
   * scanning from the back, as one step of an insertion sort does.
   */
  function InsertDesc<T>(s: seq<T>, x: T, key: T -> int): seq<T> {
    if s == [] || key(s[|s| - 1]) >= key(x) then s + [x]
    else InsertDesc(s[..|s| - 1], x, key) + [s[|s| - 1]]
  }

  /** The stable descending sort by `key`. */
  function SortDesc<T>(s: seq<T>, key: T -> int): seq<T> {
    if s == [] then [] else InsertDesc(SortDesc(s[..|s| - 1], key), s[|s| - 1], key)
  }

  // ---------------------------------------------------------------------------
  // Filter

  /** A loop's processed prefix grows by the element at the loop index. */
  lemma PrefixStep<T>(s: seq<T>, i: nat)
    requires i < |s|
    ensures s[..i] + [s[i]] == s[..i + 1]
  {
  }

  /** Sequences of equal length with equal elements are equal. */
  lemma SamePointwise<T>(a: seq<T>, b: seq<T>)
    requires |a| == |b| && forall j :: 0 <= j < |a| ==> a[j] == b[j]
    ensures a == b
  {
  }

  /** A sequence that agrees with `s` and then ends in `x` is `s + [x]`. */
  lemma AppendPointwise<T>(a: seq<T>, s: seq<T>, x: T)
    requires |a| == |s| + 1 && a[|s|] == x
    requires forall j :: 0 <= j < |s| ==> a[j] == s[j]
    ensures a == s + [x]
  {
  }

  lemma {:induction false} FilterMembers<T>(s: seq<T>, p: T -> bool)
    ensures |Filter(s, p)| <= |s|
    ensures forall x :: x in Filter(s, p) <==> x in s && p(x)
  {
    if s != [] {
      FilterMembers(s[..|s| - 1], p);
      assert s == s[..|s| - 1] + [s[|s| - 1]];
    }
  }

  /** Filtering distributes over concatenation, so the kept elements stay in their order. */
  lemma {:induction false} FilterConcat<T>(a: seq<T>, b: seq<T>, p: T -> bool)
    ensures Filter(a + b, p) == Filter(a, p) + Filter(b, p)
  {
    if b != [] {
      assert (a + b)[..|a + b| - 1] == a + b[..|b| - 1];
      FilterConcat(a, b[..|b| - 1], p);
    } else {
      assert a + b == a;
    }
  }

  // ---------------------------------------------------------------------------
  // The insertion step

  lemma {:induction false} InsertDescMultiset<T>(s: seq<T>, x: T, key: T -> int)
    ensures multiset(InsertDesc(s, x, key)) == multiset(s) + multiset{x}
  {
    if !(s == [] || key(s[|s| - 1]) >= key(x)) {
      InsertDescMultiset(s[..|s| - 1], x, key);
      assert s == s[..|s| - 1] + [s[|s| - 1]];
    }
  }

  lemma {:induction false} InsertDescSorted<T>(s: seq<T>, x: T, key: T -> int)
    requires SortedDesc(s, key)
    ensures SortedDesc(InsertDesc(s, x, key), key)
  {
    if !(s == [] || key(s[|s| - 1]) >= key(x)) {
      var init, last := s[..|s| - 1], s[|s| - 1];
      InsertDescSorted(init, x, key);
      var r := InsertDesc(init, x, key);
      InsertDescMultiset(init, x, key);
      forall y | y in r ensures key(y) >= key(last) {
        assert y in multiset(r);
      }
    }
  }

  lemma {:induction false} InsertDescWithKey<T>(s: seq<T>, x: T, key: T -> int, v: int)
    ensures WithKey(InsertDesc(s, x, key), key, v) == WithKey(s, key, v) + (if key(x) == v then [x] else [])
  {
    if s == [] || key(s[|s| - 1]) >= key(x) {
      assert (s + [x])[..|s|] == s;
    } else {
      var init, last := s[..|s| - 1], s[|s| - 1];
      InsertDescWithKey(init, x, key, v);
      var r := InsertDesc(init, x, key);
      assert (r + [last])[..|r|] == r;
    }
  }

  lemma {:induction false} InsertDescSum<T>(s: seq<T>, x: T, key: T -> int, w: T -> int)
    ensures SumSeq(InsertDesc(s, x, key), w) == SumSeq(s, w) + w(x)
  {
    if s == [] || key(s[|s| - 1]) >= key(x) {
      assert (s + [x])[..|s|] == s;
    } else {
      var init, last := s[..|s| - 1], s[|s| - 1];
      InsertDescSum(init, x, key, w);
      var r := InsertDesc(init, x, key);
      assert (r + [last])[..|r|] == r;
    }
  }

  /**
   * Where the insertion lands: after position `j` when the element before it
   * has a key at least `key(x)` (or `j` is 0) and every element from `j` on
   * has a smaller key.
   */
  lemma {:induction false} InsertDescAt<T>(s: seq<T>, x: T, key: T -> int, j: nat)
    requires j <= |s| && (j == 0 || key(s[j - 1]) >= key(x))
    requires forall k :: j <= k < |s| ==> key(s[k]) < key(x)
    ensures InsertDesc(s, x, key) == s[..j] + [x] + s[j..]
    decreases |s|
  {
    if j == |s| {
      assert s[..j] == s && s[j..] == [];
    } else {
      var init, last := s[..|s| - 1], s[|s| - 1];
      InsertDescAt(init, x, key, j);
      assert init[..j] == s[..j];
      assert init[j..] + [last] == s[j..];
    }
  }

  // ---------------------------------------------------------------------------
  // The sort

  /** The result is ordered: non-increasing by key. */
  lemma {:induction false} SortDescSorted<T>(s: seq<T>, key: T -> int)
    ensures SortedDesc(SortDesc(s, key), key)
  {
    if s != [] {
      SortDescSorted(s[..|s| - 1], key);
      InsertDescSorted(SortDesc(s[..|s| - 1], key), s[|s| - 1], key);
    }
  }

  /** The result is a permutation of the input. */
  lemma {:induction false} SortDescPermutation<T>(s: seq<T>, key: T -> int)
    ensures multiset(SortDesc(s, key)) == multiset(s)
    ensures |SortDesc(s, key)| == |s|
  {
    if s != [] {
      SortDescPermutation(s[..|s| - 1], key);
      InsertDescMultiset(SortDesc(s[..|s| - 1], key), s[|s| - 1], key);
      assert s == s[..|s| - 1] + [s[|s| - 1]];
    }
    assert |multiset(SortDesc(s, key))| == |SortDesc(s, key)|;
  }

  /** The sort is stable: elements with equal keys keep their relative order. */
  lemma {:induction false} SortDescStable<T>(s: seq<T>, key: T -> int, v: int)
    ensures WithKey(SortDesc(s, key), key, v) == WithKey(s, key, v)
  {
    if s != [] {
      SortDescStable(s[..|s| - 1], key, v);
      InsertDescWithKey(SortDesc(s[..|s| - 1], key), s[|s| - 1], key, v);
    }
  }

  /** Sorting does not change a sum over the sequence. */
  lemma {:induction false} SortDescSum<T>(s: seq<T>, key: T -> int, w: T -> int)
    ensures SumSeq(SortDesc(s, key), w) == SumSeq(s, w)
  {
    if s != [] {
      SortDescSum(s[..|s| - 1], key, w);
      InsertDescSum(SortDesc(s[..|s| - 1], key), s[|s| - 1], key, w);
    }
  }

  /** The elements with key `v` are exactly the members of `s` whose key is `v`. */
  lemma {:induction false} WithKeyMembers<T>(s: seq<T>, key: T -> int, v: int)
    ensures forall x :: x in WithKey(s, key, v) <==> x in s && key(x) == v
  {
    if s != [] {
      WithKeyMembers(s[..|s| - 1], key, v);
      assert s == s[..|s| - 1] + [s[|s| - 1]];
    }
  }

  /** The last element of a sorted sequence has the least key. */
  lemma SortedLastLeast<T>(t: seq<T>, key: T -> int)
    requires SortedDesc(t, key) && t != []
    ensures forall z <- t :: key(z) >= key(t[|t| - 1])
  {
    forall z <- t ensures key(z) >= key(t[|t| - 1]) {
      var i :| 0 <= i < |t| && t[i] == z;
    }
  }

  /** Appending `x` appends it to the elements of its key and to no other. */
  lemma WithKeyAppend<T>(s: seq<T>, x: T, key: T -> int, v: int)
    ensures key(x) == v ==> WithKey(s + [x], key, v) == WithKey(s, key, v) + [x]
    ensures key(x) != v ==> WithKey(s + [x], key, v) == WithKey(s, key, v)
  {
    assert (s + [x])[..|s|] == s;
    assert WithKey(s, key, v) + [] == WithKey(s, key, v);
  }

  /** Two sequences ending in one element each are equal only if their fronts and ends are. */
  lemma SameFrontAndEnd<T>(a: seq<T>, x: T, b: seq<T>, y: T)
    requires a + [x] == b + [y]
    ensures a == b && x == y
  {
    assert |a| == |b|;
    assert x == (a + [x])[|a|] && y == (b + [y])[|b|];
    assert a == (a + [x])[..|a|] && b == (b + [y])[..|b|];
  }

  /** Two sorted sequences that agree key by key end in elements of the same key. */
  lemma SortedLastKeys<T>(t: seq<T>, x: T, u: seq<T>, y: T, key: T -> int)
    requires SortedDesc(t + [x], key) && SortedDesc(u + [y], key)
    requires forall v :: WithKey(t + [x], key, v) == WithKey(u + [y], key, v)
    ensures key(x) == key(y)
  {
    WithKeyMembers(t + [x], key, key(y));
    WithKeyMembers(u + [y], key, key(x));
    SortedLastLeast(t + [x], key);
    SortedLastLeast(u + [y], key);
    assert y in WithKey(u + [y], key, key(y));
    assert x in WithKey(t + [x], key, key(x));
  }

  /**
   * Two sorted sequences that agree key by key end in the same element, and
   * still agree key by key without it.
   */
  lemma SortedSameLast<T>(t: seq<T>, x: T, u: seq<T>, y: T, key: T -> int)
    requires SortedDesc(t + [x], key) && SortedDesc(u + [y], key)
    requires forall v :: WithKey(t + [x], key, v) == WithKey(u + [y], key, v)
    ensures x == y
    ensures forall v :: WithKey(t, key, v) == WithKey(u, key, v)
  {
    SortedLastKeys(t, x, u, y, key);
    forall v ensures WithKey(t, key, v) == WithKey(u, key, v) {
      WithKeyAppend(t, x, key, v);
      WithKeyAppend(u, y, key, v);
      assert WithKey(t + [x], key, v) == WithKey(u + [y], key, v);
      if v == key(x) {
        SameFrontAndEnd(WithKey(t, key, v), x, WithKey(u, key, v), y);
      }
    }
    var w := key(x);
    WithKeyAppend(t, x, key, w);
    WithKeyAppend(u, y, key, w);
    assert WithKey(t + [x], key, w) == WithKey(u + [y], key, w);
    SameFrontAndEnd(WithKey(t, key, w), x, WithKey(u, key, w), y);
  }

  /**
   * A sorted sequence is determined by its elements of each key: two sorted
   * sequences that agree, key by key, on which elements they hold and in what
   * order are equal.
   */
  lemma {:induction false} SortedStableUnique<T>(t: seq<T>, u: seq<T>, key: T -> int)
    requires SortedDesc(t, key) && SortedDesc(u, key)
    requires forall v :: WithKey(t, key, v) == WithKey(u, key, v)
    ensures t == u
    decreases |t| + |u|
  {
    if t == [] && u == [] {
    } else if t == [] || u == [] {
      var z := if t == [] then u[|u| - 1] else t[|t| - 1];
      WithKeyMembers(t, key, key(z));
      WithKeyMembers(u, key, key(z));
      assert false;
    } else {
      var t', u' := t[..|t| - 1], u[..|u| - 1];
      assert t == t' + [t[|t| - 1]] && u == u' + [u[|u| - 1]];
      SortedSameLast(t', t[|t| - 1], u', u[|u| - 1], key);
      SortedStableUnique(t', u', key);
    }
  }

  /**
   * Every stable descending sort of `s` gives `SortDesc(s, key)`: whatever
   * algorithm the runtime uses, a sorted result that keeps the elements of
   * each key in their input order is this one.
   */
  lemma SortDescUnique<T>(s: seq<T>, t: seq<T>, key: T -> int)
    requires SortedDesc(t, key)
    requires forall v :: WithKey(t, key, v) == WithKey(s, key, v)
    ensures t == SortDesc(s, key)
  {
    SortDescSorted(s, key);
    forall v ensures WithKey(SortDesc(s, key), key, v) == WithKey(s, key, v) {
      SortDescStable(s, key, v);
    }
    SortedStableUnique(t, SortDesc(s, key), key);
  }

  /**
   * The top `n` of the ranking: at most `n` elements, a prefix of the full
   * descending ranking, sorted, and no element left out outranks one kept.
   */
  lemma TopN<T>(s: seq<T>, key: T -> int, n: nat)
    ensures var full := SortDesc(s, key); var top := Take(full, n);
      && |top| <= n && |top| == (if |s| <= n then |s| else n)
      && top == full[..|top|]
      && SortedDesc(top, key)
      && (forall i, j :: 0 <= i < |top| <= j < |full| ==> key(full[i]) >= key(full[j]))
      && multiset(top) <= multiset(s)
  {
    var full := SortDesc(s, key);
    SortDescSorted(s, key);
    SortDescPermutation(s, key);
    var top := Take(full, n);
    assert full == top + full[|top|..];
    assert multiset(full) == multiset(top) + multiset(full[|top|..]);
  }

  /** Every element of the head of the ranking is an element of the input. */
  lemma TopMember<T>(s: seq<T>, key: T -> int, n: nat, x: T)
    requires x in Take(SortDesc(s, key), n)
    ensures x in s
  {
    TopN(s, key, n);
    assert x in multiset(Take(SortDesc(s, key), n));
  }
}
