/**
 * The company bar chart's preparation of its `data` prop: every row object
 * gets a `totalPetitions` property, then the array is sorted in place by that
 * total, largest first.
 */
module CompanyBasedPetitions {
  import opened Wrappers
  import opened Petitions
  import opened Ranking

  /** A row object of the array: the row's own fields, and `totalPetitions` once it is set. */
  datatype PetitionObject = PetitionObject(row: Row, totalPetitions: Option<int>)

  /** The object after `d.totalPetitions = ...`: same row, total set to its four counts. */
  function WithTotal(d: PetitionObject): (e: PetitionObject)
    ensures e.row == d.row && e.totalPetitions == Some(TotalOf(d.row))
  {
    PetitionObject(d.row, Some(TotalOf(d.row)))
  }

  function WithTotals(s: seq<PetitionObject>): (r: seq<PetitionObject>)
    ensures |r| == |s| && forall i :: 0 <= i < |s| ==> r[i] == WithTotal(s[i])
  {
    seq(|s|, i requires 0 <= i < |s| => WithTotal(s[i]))
  }

  /** The comparator's key: `totalPetitions` (every object has one when the sort runs). */
  function TotalKey(d: PetitionObject): int {
    if d.totalPetitions.Some? then d.totalPetitions.value else 0
  }

  /** The array after the component body: totals added, then sorted largest first, stably. */
  function Prepared(s: seq<PetitionObject>): seq<PetitionObject> {
    SortDesc(WithTotals(s), TotalKey)
  }

  /**
   * The `forEach` adding totals. The four fields are added with `+`, which is
   * arithmetic only when all four are numbers (text would be concatenated).
   */
  method AddTotals(data: array<PetitionObject>)
    requires forall i :: 0 <= i < data.Length ==> AllNumbers(data[i].row)
    modifies data
    ensures data[..] == WithTotals(old(data[..]))
  {
    for i := 0 to data.Length
      invariant forall k :: 0 <= k < i ==> data[k] == WithTotal(old(data[k]))
      invariant forall k :: i <= k < data.Length ==> data[k] == old(data[k])
    {
      var r := data[i].row;
      data[i] := PetitionObject(r, Some(r.initialApproval.n + r.initialDenial.n + r.continuingApproval.n + r.continuingDenial.n));
    }
    SamePointwise(data[..], WithTotals(old(data[..])));
  }

  /**
   * One step of the insertion sort: the object at `i` moves left past every
   * object of smaller total in the sorted prefix before it.
   */
  method InsertLast(data: array<PetitionObject>, i: nat)
    requires i < data.Length
    modifies data
    ensures data[..i + 1] == InsertDesc(old(data[..i]), old(data[i]), TotalKey)
    ensures data[i + 1..] == old(data[i + 1..])
  {
    var x := data[i];
    ghost var sorted := data[..i];
    var j := i;
    while j > 0 && TotalKey(data[j - 1]) < TotalKey(x)
      invariant 0 <= j <= i
      invariant forall k :: 0 <= k < j ==> data[k] == sorted[k]
      invariant forall k :: j < k <= i ==> data[k] == sorted[k - 1]
      invariant forall k :: i < k < data.Length ==> data[k] == old(data[k])
      invariant forall k :: j <= k < i ==> TotalKey(sorted[k]) < TotalKey(x)
    {
      data[j] := data[j - 1];
      j := j - 1;
    }
    data[j] := x;
    InsertDescAt(sorted, x, TotalKey, j);
    ghost var inserted := sorted[..j] + [x] + sorted[j..];
    assert forall k :: 0 <= k <= i ==> data[k] == inserted[k];
    SamePointwise(data[..i + 1], inserted);
    SamePointwise(data[i + 1..], old(data[i + 1..]));
  }

  /**
   * `data.sort((a, b) => b.totalPetitions - a.totalPetitions)`, as an in-place
   * stable insertion sort; `Ranking.SortDescUnique` shows any stable sort
   * leaves the same array.
   */
  method SortByTotal(data: array<PetitionObject>)
    modifies data
    ensures data[..] == SortDesc(old(data[..]), TotalKey)
  {
    ghost var input := data[..];
    for i := 0 to data.Length
      invariant data[..i] == SortDesc(input[..i], TotalKey)
      invariant data[i..] == input[i..]
    {
      assert input[..i + 1] == input[..i] + [input[i]];
      InsertLast(data, i);
    }
    assert input[..data.Length] == input;
  }

  /** The component body: add the totals, then sort. */
  method PrepareData(data: array<PetitionObject>)
    requires forall i :: 0 <= i < data.Length ==> AllNumbers(data[i].row)
    modifies data
    ensures data[..] == Prepared(old(data[..]))
  {
    AddTotals(data);
    SortByTotal(data);
  }

  // ---------------------------------------------------------------------------
  // Properties

  /** An object of the array after the totals are added: its total is set, its row is an input row. */
  lemma WithTotalsMember(s: seq<PetitionObject>, d: PetitionObject)
    requires d in WithTotals(s)
    ensures d.totalPetitions == Some(TotalOf(d.row))
    ensures exists i :: 0 <= i < |s| && d.row == s[i].row
  {
    var i :| 0 <= i < |WithTotals(s)| && WithTotals(s)[i] == d;
    assert d.row == s[i].row;
  }

  /**
   * The prepared array: same length, sorted non-increasing by total, a
   * permutation of the objects with their totals added, each object's total
   * the sum of its four counts and its row an input row unchanged, and objects
   * of equal total in their original order.
   */
  lemma PreparedSpec(s: seq<PetitionObject>)
    ensures var r := Prepared(s);
      && |r| == |s|
      && SortedDesc(r, TotalKey)
      && multiset(r) == multiset(WithTotals(s))
      && (forall d <- r :: d.totalPetitions == Some(TotalOf(d.row)) && exists i :: 0 <= i < |s| && d.row == s[i].row)
      && (forall v :: WithKey(r, TotalKey, v) == WithKey(WithTotals(s), TotalKey, v))
  {
    var w := WithTotals(s);
    var r := Prepared(s);
    SortDescSorted(w, TotalKey);
    SortDescPermutation(w, TotalKey);
    forall d <- r ensures d.totalPetitions == Some(TotalOf(d.row)) && exists i :: 0 <= i < |s| && d.row == s[i].row {
      assert d in multiset(w);
      WithTotalsMember(s, d);
    }
    forall v ensures WithKey(r, TotalKey, v) == WithKey(w, TotalKey, v) {
      SortDescStable(w, TotalKey, v);
    }
  }

  /** The sort only reorders: it keeps every object, with its total, as many times as before. */
  lemma SortKeepsObjects(s: seq<PetitionObject>)
    ensures multiset(SortDesc(s, TotalKey)) == multiset(s)
    ensures forall d :: d in SortDesc(s, TotalKey) <==> d in s
  {
    SortDescPermutation(s, TotalKey);
    forall d ensures d in SortDesc(s, TotalKey) <==> d in s {
      assert d in SortDesc(s, TotalKey) <==> d in multiset(SortDesc(s, TotalKey));
    }
  }
}
