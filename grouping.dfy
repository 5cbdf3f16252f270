/**
 * Grouping rows by a string key, as every view does with a dictionary
 * (`acc[key]`, `groupedData[key]`) or with `d3.rollup`: one group per distinct
 * key, groups in order of first appearance, each holding sums over its rows.
 * Object keys are assumed not to look like array indices, so that the
 * dictionaries enumerate in insertion order, and not to name a member of
 * `Object.prototype`, whose inherited value would make `!acc[key]` false.
 */
module Grouping {
  import opened Wrappers
  import opened Petitions
  import opened Ranking

  /** The key of every row, in row order. */
  function KeysOf(rows: seq<Row>, keyOf: Row -> string): (ks: seq<string>)
    ensures |ks| == |rows|
    ensures forall i :: 0 <= i < |rows| ==> ks[i] == keyOf(rows[i])
  {
    if rows == [] then [] else KeysOf(rows[..|rows| - 1], keyOf) + [keyOf(rows[|rows| - 1])]
  }

  predicate Distinct(ks: seq<string>) {
    forall i, j :: 0 <= i < j < |ks| ==> ks[i] != ks[j]
  }

  /** The distinct keys of `ks` in order of first appearance. */
  function FirstSeen(ks: seq<string>): seq<string> {
    if ks == [] then []
    else
      var seen := FirstSeen(ks[..|ks| - 1]);
      if ks[|ks| - 1] in seen then seen else seen + [ks[|ks| - 1]]
  }

  /** The filter keeping the rows whose key is `k`. */
  function KeyIs(keyOf: Row -> string, k: string): Row -> bool {
    r => keyOf(r) == k
  }

  /** Sum of `w` over the rows whose key is `k`. */
  function SumWhere(rows: seq<Row>, keyOf: Row -> string, k: string, w: Row -> int): int {
    if rows == [] then 0
    else SumWhere(rows[..|rows| - 1], keyOf, k, w) + (if keyOf(rows[|rows| - 1]) == k then w(rows[|rows| - 1]) else 0)
  }

  /** The four count fields summed over the rows whose key is `k`. */
  function CountsWhere(rows: seq<Row>, keyOf: Row -> string, k: string): Counts {
    Counts(SumWhere(rows, keyOf, k, InitialApprovalOf), SumWhere(rows, keyOf, k, InitialDenialOf),
           SumWhere(rows, keyOf, k, ContinuingApprovalOf), SumWhere(rows, keyOf, k, ContinuingDenialOf))
  }

  /** The first row whose key is `k`. */
  function FirstRow(rows: seq<Row>, keyOf: Row -> string, k: string): Row
    requires k in KeysOf(rows, keyOf)
  {
    var init := rows[..|rows| - 1];
    if k in KeysOf(init, keyOf) then FirstRow(init, keyOf, k) else rows[|rows| - 1]
  }

  /** One group: a key and the four counts summed over its rows. */
  datatype Group = Group(key: string, counts: Counts)

  /** Group by `keyOf` and sum the four counts, groups in order of first appearance. */
  function Groups(rows: seq<Row>, keyOf: Row -> string): seq<Group> {
    var keys := FirstSeen(KeysOf(rows, keyOf));
    seq(|keys|, j requires 0 <= j < |keys| => Group(keys[j], CountsWhere(rows, keyOf, keys[j])))
  }

  function GroupTotal(g: Group): int { g.counts.Total() }
  function GroupInitial(g: Group): int { g.counts.Initial() }
  function GroupInitialApproval(g: Group): int { g.counts.initialApproval }
  function GroupInitialDenial(g: Group): int { g.counts.initialDenial }
  function GroupContinuingApproval(g: Group): int { g.counts.continuingApproval }
  function GroupContinuingDenial(g: Group): int { g.counts.continuingDenial }

  /** Sum over the keys `keys` of the per-key sums of `w`. */
  function SumKeys(keys: seq<string>, rows: seq<Row>, keyOf: Row -> string, w: Row -> int): int {
    if keys == [] then 0
    else SumKeys(keys[..|keys| - 1], rows, keyOf, w) + SumWhere(rows, keyOf, keys[|keys| - 1], w)
  }

  /** `d3.max` of the four-field totals: absent for no groups, else the largest total. */
  function MaxTotal(gs: seq<Group>): (m: Option<int>)
    ensures m.None? <==> gs == []
    ensures m.Some? ==> forall g <- gs :: g.counts.Total() <= m.value
    ensures m.Some? ==> exists g <- gs :: g.counts.Total() == m.value
  {
    if gs == [] then None
    else
      var last := gs[|gs| - 1];
      assert gs == gs[..|gs| - 1] + [last];
      match MaxTotal(gs[..|gs| - 1])
      case None => Some(last.counts.Total())
      case Some(m) => Some(if m < last.counts.Total() then last.counts.Total() else m)
  }

  /** `Object.values` of a dictionary whose keys were inserted in the order `order`. */
  function Values<V>(acc: map<string, V>, order: seq<string>): (vs: seq<V>)
    requires forall k <- order :: k in acc
    ensures |vs| == |order| && forall j :: 0 <= j < |order| ==> vs[j] == acc[order[j]]
  {
    seq(|order|, j requires 0 <= j < |order| => acc[order[j]])
  }

  /**
   * The dictionary a grouping loop has built after the rows `rows`: the entry
   * of each row's key, created with zero counts if new, plus that row's counts.
   */
  function CountsMap(rows: seq<Row>, keyOf: Row -> string): map<string, Group> {
    if rows == [] then map[]
    else
      var acc := CountsMap(rows[..|rows| - 1], keyOf);
      var r := rows[|rows| - 1];
      var k := keyOf(r);
      if k in acc then acc[k := Group(k, acc[k].counts.Plus(CountsOf(r)))] else acc[k := Group(k, CountsOf(r))]
  }

  /** The dictionary has exactly the keys of the rows, each entry the sums over that key's rows. */
  lemma {:induction false} CountsMapSpec(rows: seq<Row>, keyOf: Row -> string)
    ensures forall k :: k in CountsMap(rows, keyOf) <==> k in KeysOf(rows, keyOf)
    ensures forall k :: k in CountsMap(rows, keyOf) ==> CountsMap(rows, keyOf)[k] == Group(k, CountsWhere(rows, keyOf, k))
  {
    if rows != [] {
      var pre, r := rows[..|rows| - 1], rows[|rows| - 1];
      assert rows == pre + [r];
      CountsMapSpec(pre, keyOf);
      KeysStep(pre, r, keyOf);
      var acc := CountsMap(pre, keyOf);
      if keyOf(r) !in acc {
        CountsWhereAbsent(pre, keyOf, keyOf(r));
      }
      forall k | k in CountsMap(rows, keyOf) ensures CountsMap(rows, keyOf)[k] == Group(k, CountsWhere(rows, keyOf, k)) {
        CountsWhereStep(pre, r, keyOf, k);
      }
    }
  }

  /** One more row: a new key joins the key order, and its entry adds the row's counts to zero or to the old entry. */
  lemma CountsMapStep(pre: seq<Row>, r: Row, keyOf: Row -> string)
    ensures var acc, k := CountsMap(pre, keyOf), keyOf(r);
      && (k in acc <==> k in FirstSeen(KeysOf(pre, keyOf)))
      && CountsMap(pre + [r], keyOf) ==
           (if k in acc then acc[k := Group(k, acc[k].counts.Plus(CountsOf(r)))] else acc[k := Group(k, CountsOf(r))])
      && FirstSeen(KeysOf(pre + [r], keyOf)) ==
           (if k in acc then FirstSeen(KeysOf(pre, keyOf)) else FirstSeen(KeysOf(pre, keyOf)) + [k])
  {
    assert (pre + [r])[..|pre|] == pre;
    KeysStep(pre, r, keyOf);
    CountsMapSpec(pre, keyOf);
    FirstSeenKeys(KeysOf(pre, keyOf));
  }

  /** `Object.values` of the finished dictionary, keys in insertion order, is `Groups`. */
  lemma CountsMapValues(rows: seq<Row>, keyOf: Row -> string)
    ensures forall k <- FirstSeen(KeysOf(rows, keyOf)) :: k in CountsMap(rows, keyOf)
    ensures Values(CountsMap(rows, keyOf), FirstSeen(KeysOf(rows, keyOf))) == Groups(rows, keyOf)
  {
    var keys := FirstSeen(KeysOf(rows, keyOf));
    var m := CountsMap(rows, keyOf);
    assert forall k <- keys :: k in m && m[k] == Group(k, CountsWhere(rows, keyOf, k)) by {
      CountsMapSpec(rows, keyOf);
      FirstSeenKeys(KeysOf(rows, keyOf));
    }
    var vs := Values(m, keys);
    var gs := Groups(rows, keyOf);
    forall j | 0 <= j < |vs| ensures vs[j] == gs[j] {
      assert keys[j] in keys;
    }
    SamePointwise(vs, gs);
  }

  // ---------------------------------------------------------------------------
  // Distinct keys in order of first appearance

  /** Every key appears once, and exactly the keys of the rows appear. */
  lemma {:induction false} FirstSeenKeys(ks: seq<string>)
    ensures Distinct(FirstSeen(ks))
    ensures forall k :: k in FirstSeen(ks) <==> k in ks
  {
    if ks != [] {
      FirstSeenKeys(ks[..|ks| - 1]);
      assert ks == ks[..|ks| - 1] + [ks[|ks| - 1]];
    }
  }

  /** Keys met in a prefix of the rows come first, in the same order. */
  lemma {:induction false} FirstSeenPrefix(ks: seq<string>, m: nat)
    requires m <= |ks|
    ensures FirstSeen(ks[..m]) <= FirstSeen(ks)
    decreases |ks| - m
  {
    if m < |ks| {
      FirstSeenPrefix(ks, m + 1);
      assert ks[..m + 1][..m] == ks[..m];
    } else {
      assert ks[..m] == ks;
    }
  }

  lemma KeysOfPrefix(rows: seq<Row>, keyOf: Row -> string, m: nat)
    requires m <= |rows|
    ensures KeysOf(rows[..m], keyOf) == KeysOf(rows, keyOf)[..m]
  {
  }

  lemma {:induction false} SumWhereAbsent(rows: seq<Row>, keyOf: Row -> string, k: string, w: Row -> int)
    requires k !in KeysOf(rows, keyOf)
    ensures SumWhere(rows, keyOf, k, w) == 0
  {
    if rows != [] {
      SumWhereAbsent(rows[..|rows| - 1], keyOf, k, w);
    }
  }

  /** Appending one row adds its counts to the group of its key and to no other. */
  lemma CountsWhereStep(pre: seq<Row>, r: Row, keyOf: Row -> string, k: string)
    ensures CountsWhere(pre + [r], keyOf, k) == CountsWhere(pre, keyOf, k).Plus(if keyOf(r) == k then CountsOf(r) else NoCounts)
  {
    assert (pre + [r])[..|pre|] == pre;
  }

  /** Summing over the rows a key filter keeps is summing over that key. */
  lemma {:induction false} SumOfKeyFilter(rows: seq<Row>, keyOf: Row -> string, k: string, w: Row -> int)
    ensures SumSeq(Filter(rows, KeyIs(keyOf, k)), w) == SumWhere(rows, keyOf, k, w)
  {
    if rows != [] {
      var init, last := rows[..|rows| - 1], rows[|rows| - 1];
      SumOfKeyFilter(init, keyOf, k, w);
      var kept := Filter(init, KeyIs(keyOf, k));
      if keyOf(last) == k {
        assert (kept + [last])[..|kept|] == kept;
      } else {
        assert kept + [] == kept;
      }
    }
  }

  /** A key that no row has sums to nothing. */
  lemma CountsWhereAbsent(rows: seq<Row>, keyOf: Row -> string, k: string)
    requires k !in KeysOf(rows, keyOf)
    ensures CountsWhere(rows, keyOf, k) == NoCounts
  {
    SumWhereAbsent(rows, keyOf, k, InitialApprovalOf);
    SumWhereAbsent(rows, keyOf, k, InitialDenialOf);
    SumWhereAbsent(rows, keyOf, k, ContinuingApprovalOf);
    SumWhereAbsent(rows, keyOf, k, ContinuingDenialOf);
  }

  /** One more row: its key joins the key order if it is new, and the earlier keys stay. */
  lemma KeysStep(pre: seq<Row>, r: Row, keyOf: Row -> string)
    ensures KeysOf(pre + [r], keyOf) == KeysOf(pre, keyOf) + [keyOf(r)]
    ensures FirstSeen(KeysOf(pre + [r], keyOf)) ==
      if keyOf(r) in KeysOf(pre, keyOf) then FirstSeen(KeysOf(pre, keyOf)) else FirstSeen(KeysOf(pre, keyOf)) + [keyOf(r)]
  {
    assert (pre + [r])[..|pre|] == pre;
    var ks := KeysOf(pre + [r], keyOf);
    assert ks[..|ks| - 1] == KeysOf(pre, keyOf);
    FirstSeenKeys(KeysOf(pre, keyOf));
  }

  // ---------------------------------------------------------------------------
  // The first row of a key

  /** The first row of key `k` is the row of least index whose key is `k`. */
  lemma {:induction false} FirstRowIsFirst(rows: seq<Row>, keyOf: Row -> string, k: string) returns (i: nat)
    requires k in KeysOf(rows, keyOf)
    ensures i < |rows| && rows[i] == FirstRow(rows, keyOf, k) && keyOf(rows[i]) == k
    ensures forall j :: 0 <= j < i ==> keyOf(rows[j]) != k
  {
    var init := rows[..|rows| - 1];
    if k in KeysOf(init, keyOf) {
      i := FirstRowIsFirst(init, keyOf, k);
    } else {
      i := |rows| - 1;
      assert forall j :: 0 <= j < i ==> KeysOf(init, keyOf)[j] == keyOf(rows[j]);
    }
  }

  /** Rows appended later never replace the first row of a key already present. */
  lemma {:induction false} FirstRowStable(rows: seq<Row>, more: seq<Row>, keyOf: Row -> string, k: string)
    requires k in KeysOf(rows, keyOf)
    ensures k in KeysOf(rows + more, keyOf)
    ensures FirstRow(rows + more, keyOf, k) == FirstRow(rows, keyOf, k)
  {
    if more == [] {
      assert rows + more == rows;
    } else {
      var init := more[..|more| - 1];
      FirstRowStable(rows, init, keyOf, k);
      assert (rows + more)[..|rows + more| - 1] == rows + init;
    }
  }

  // ---------------------------------------------------------------------------
  // Groups

  /**
   * Exactly one group per distinct key, and each group holds the four counts
   * summed over the rows of its key.
   */
  lemma GroupsSpec(rows: seq<Row>, keyOf: Row -> string)
    ensures var gs := Groups(rows, keyOf);
      && (forall i, j :: 0 <= i < j < |gs| ==> gs[i].key != gs[j].key)
      && (forall k :: k in KeysOf(rows, keyOf) <==> exists i :: 0 <= i < |gs| && gs[i].key == k)
      && (forall i :: 0 <= i < |gs| ==> gs[i].counts == CountsWhere(rows, keyOf, gs[i].key))
  {
    var keys := FirstSeen(KeysOf(rows, keyOf));
    FirstSeenKeys(KeysOf(rows, keyOf));
    var gs := Groups(rows, keyOf);
    forall k ensures k in KeysOf(rows, keyOf) <==> exists i :: 0 <= i < |gs| && gs[i].key == k {
      if k in keys {
        var i :| 0 <= i < |keys| && keys[i] == k;
        assert gs[i].key == k;
      }
    }
  }

  /** A group holds the four counts summed over the rows of its key. */
  lemma GroupsMember(rows: seq<Row>, keyOf: Row -> string, g: Group)
    requires g in Groups(rows, keyOf)
    ensures g.counts == CountsWhere(rows, keyOf, g.key)
  {
    GroupsSpec(rows, keyOf);
    var gs := Groups(rows, keyOf);
    var i :| 0 <= i < |gs| && gs[i] == g;
  }

  /** Groups appear in order of first appearance: the groups of a prefix of the rows lead. */
  lemma GroupsFirstSeenOrder(rows: seq<Row>, keyOf: Row -> string, m: nat)
    requires m <= |rows|
    ensures |Groups(rows[..m], keyOf)| <= |Groups(rows, keyOf)|
    ensures forall i :: 0 <= i < |Groups(rows[..m], keyOf)| ==> Groups(rows[..m], keyOf)[i].key == Groups(rows, keyOf)[i].key
  {
    KeysOfPrefix(rows, keyOf, m);
    FirstSeenPrefix(KeysOf(rows, keyOf), m);
  }

  // ---------------------------------------------------------------------------
  // Sum preservation

  lemma {:induction false} SumKeysStep(keys: seq<string>, rows: seq<Row>, r: Row, keyOf: Row -> string, w: Row -> int)
    requires Distinct(keys)
    ensures SumKeys(keys, rows + [r], keyOf, w) == SumKeys(keys, rows, keyOf, w) + (if keyOf(r) in keys then w(r) else 0)
  {
    assert (rows + [r])[..|rows|] == rows;
    if keys != [] {
      var init := keys[..|keys| - 1];
      SumKeysStep(init, rows, r, keyOf, w);
      assert keys == init + [keys[|keys| - 1]];
    }
  }

  /** Summing the per-key sums over all distinct keys gives the sum over all rows. */
  lemma {:induction false} SumPreserved(rows: seq<Row>, keyOf: Row -> string, w: Row -> int)
    ensures SumKeys(FirstSeen(KeysOf(rows, keyOf)), rows, keyOf, w) == SumSeq(rows, w)
  {
    if rows != [] {
      var init, r := rows[..|rows| - 1], rows[|rows| - 1];
      assert rows == init + [r];
      var keys := FirstSeen(KeysOf(init, keyOf));
      SumPreserved(init, keyOf, w);
      FirstSeenKeys(KeysOf(init, keyOf));
      SumKeysStep(keys, init, r, keyOf, w);
      if keyOf(r) !in keys {
        SumWhereAbsent(init, keyOf, keyOf(r), w);
        assert (keys + [keyOf(r)])[..|keys|] == keys;
      }
    }
  }

  /** A sequence whose elements carry the per-key sums of `keys` sums to their sum. */
  lemma {:induction false} SumOverKeys<E>(es: seq<E>, g: E -> int, keys: seq<string>, rows: seq<Row>, keyOf: Row -> string, w: Row -> int)
    requires |es| == |keys|
    requires forall i :: 0 <= i < |es| ==> g(es[i]) == SumWhere(rows, keyOf, keys[i], w)
    ensures SumSeq(es, g) == SumKeys(keys, rows, keyOf, w)
  {
    if es != [] {
      SumOverKeys(es[..|es| - 1], g, keys[..|keys| - 1], rows, keyOf, w);
    }
  }

  /** Four sums add up to the sum of the pointwise total. */
  lemma {:induction false} SumOfFour<T>(s: seq<T>, a: T -> int, b: T -> int, c: T -> int, d: T -> int, t: T -> int)
    requires forall x :: t(x) == a(x) + b(x) + c(x) + d(x)
    ensures SumSeq(s, t) == SumSeq(s, a) + SumSeq(s, b) + SumSeq(s, c) + SumSeq(s, d)
  {
    if s != [] {
      SumOfFour(s[..|s| - 1], a, b, c, d, t);
    }
  }

  /**
   * Grouping preserves sums: each of the four fields, and the total, summed
   * over the groups equals the same count summed over the rows.
   */
  lemma GroupsPreserveSums(rows: seq<Row>, keyOf: Row -> string)
    ensures var gs := Groups(rows, keyOf);
      && SumSeq(gs, GroupInitialApproval) == SumSeq(rows, InitialApprovalOf)
      && SumSeq(gs, GroupInitialDenial) == SumSeq(rows, InitialDenialOf)
      && SumSeq(gs, GroupContinuingApproval) == SumSeq(rows, ContinuingApprovalOf)
      && SumSeq(gs, GroupContinuingDenial) == SumSeq(rows, ContinuingDenialOf)
      && SumSeq(gs, GroupTotal) == SumSeq(rows, TotalOf)
  {
    var keys := FirstSeen(KeysOf(rows, keyOf));
    var gs := Groups(rows, keyOf);
    SumOverKeys(gs, GroupInitialApproval, keys, rows, keyOf, InitialApprovalOf);
    SumPreserved(rows, keyOf, InitialApprovalOf);
    SumOverKeys(gs, GroupInitialDenial, keys, rows, keyOf, InitialDenialOf);
    SumPreserved(rows, keyOf, InitialDenialOf);
    SumOverKeys(gs, GroupContinuingApproval, keys, rows, keyOf, ContinuingApprovalOf);
    SumPreserved(rows, keyOf, ContinuingApprovalOf);
    SumOverKeys(gs, GroupContinuingDenial, keys, rows, keyOf, ContinuingDenialOf);
    SumPreserved(rows, keyOf, ContinuingDenialOf);
    SumOfFour(gs, GroupInitialApproval, GroupInitialDenial, GroupContinuingApproval, GroupContinuingDenial, GroupTotal);
    SumOfFour(rows, InitialApprovalOf, InitialDenialOf, ContinuingApprovalOf, ContinuingDenialOf, TotalOf);
  }
}
