/**
 * The employer overview: `aggregateData` sums the four counts per employer
 * name, adds each employer's total, ranks the employers by that total and
 * keeps the first ten for the stacked bar chart.
 */
module EmployerVisualization {
  import opened Petitions
  import opened Ranking
  import opened Grouping

  /** Employers are keyed by their name as written (case-sensitive, untrimmed). */
  function EmployerKeyOf(r: Row): string {
    r.employerName
  }

  /** One element of the ranking: the employer, its total, and its four sums. */
  datatype Entry = Entry(employer: string, totalPetitions: int, counts: Counts)

  function EntryTotal(e: Entry): int { e.totalPetitions }

  /** The `map` over `Object.entries`: an employer's group with its total added. */
  function EntryOf(g: Group): (e: Entry)
    ensures e.employer == g.key && e.counts == g.counts
    ensures e.totalPetitions == g.counts.initialApproval + g.counts.initialDenial + g.counts.continuingApproval + g.counts.continuingDenial
  {
    Entry(g.key, g.counts.Total(), g.counts)
  }

  function Entries(gs: seq<Group>): (es: seq<Entry>)
    ensures |es| == |gs| && forall i :: 0 <= i < |gs| ==> es[i] == EntryOf(gs[i])
  {
    if gs == [] then [] else Entries(gs[..|gs| - 1]) + [EntryOf(gs[|gs| - 1])]
  }

  /** Every employer of the rows with its total, in first-seen order. */
  function AllEmployers(rows: seq<Row>): seq<Entry> {
    Entries(Groups(rows, EmployerKeyOf))
  }

  /** The full ranking: descending total, ties in first-seen order (the sort is stable). */
  function EmployerRanking(rows: seq<Row>): seq<Entry> {
    SortDesc(AllEmployers(rows), EntryTotal)
  }

  /** `aggregateData(rows)`: the first ten of the ranking. */
  function TopEmployers(rows: seq<Row>): seq<Entry> {
    Take(EmployerRanking(rows), 10)
  }

  // ---------------------------------------------------------------------------
  // The `forEach` loop

  /** Creating a zero entry and then adding `c` to it makes an entry holding `c`. */
  lemma ZeroThenAdd(acc: map<string, Group>, k: string, c: Counts)
    ensures acc[k := Group(k, NoCounts)][k := Group(k, acc[k := Group(k, NoCounts)][k].counts.Plus(c))] == acc[k := Group(k, c)]
  {
    assert NoCounts.Plus(c) == c;
  }

  /** The `forEach` over the rows, then `Object.entries` and the `map` adding totals. */
  method AggregateEntries(rawData: seq<Row>) returns (entries: seq<Entry>)
    ensures entries == AllEmployers(rawData)
  {
    var groupedData: map<string, Group> := map[];
    var order: seq<string> := [];
    for i := 0 to |rawData|
      invariant groupedData == CountsMap(rawData[..i], EmployerKeyOf)
      invariant order == FirstSeen(KeysOf(rawData[..i], EmployerKeyOf))
    {
      var row := rawData[i];
      var employerName := row.employerName;
      var initialApproval := Coerce(row.initialApproval);
      var initialDenial := Coerce(row.initialDenial);
      var continuingApproval := Coerce(row.continuingApproval);
      var continuingDenial := Coerce(row.continuingDenial);
      var counts := Counts(initialApproval, initialDenial, continuingApproval, continuingDenial);
      PrefixStep(rawData, i);
      CountsMapStep(rawData[..i], row, EmployerKeyOf);
      assert employerName == EmployerKeyOf(row) && counts == CountsOf(row);
      if employerName !in groupedData {
        ZeroThenAdd(groupedData, employerName, counts);
        groupedData := groupedData[employerName := Group(employerName, NoCounts)];
        order := order + [employerName];
      }
      // the four `+=`
      groupedData := groupedData[employerName := Group(employerName, groupedData[employerName].counts.Plus(counts))];
    }
    assert rawData[..|rawData|] == rawData;
    CountsMapValues(rawData, EmployerKeyOf);
    entries := Entries(Values(groupedData, order));
  }

  /** `aggregateData`: the grouped entries, sorted by total, cut to ten. */
  method AggregateData(rawData: seq<Row>) returns (top: seq<Entry>)
    ensures top == TopEmployers(rawData)
  {
    var entries := AggregateEntries(rawData);
    top := Take(SortDesc(entries, EntryTotal), 10);
  }

  // ---------------------------------------------------------------------------
  // Properties

  /**
   * One entry per distinct employer name; each entry's four fields are that
   * count summed over the employer's rows, and its total is their sum.
   */
  lemma AllEmployersSpec(rows: seq<Row>)
    ensures var es := AllEmployers(rows);
      && (forall i, j :: 0 <= i < j < |es| ==> es[i].employer != es[j].employer)
      && (forall k :: k in KeysOf(rows, EmployerKeyOf) <==> exists i :: 0 <= i < |es| && es[i].employer == k)
      && (forall i :: 0 <= i < |es| ==> es[i].counts == CountsWhere(rows, EmployerKeyOf, es[i].employer))
      && (forall i :: 0 <= i < |es| ==> es[i].totalPetitions == es[i].counts.Total())
  {
    var gs := Groups(rows, EmployerKeyOf);
    var es := AllEmployers(rows);
    GroupsSpec(rows, EmployerKeyOf);
    forall k ensures k in KeysOf(rows, EmployerKeyOf) <==> exists i :: 0 <= i < |es| && es[i].employer == k {
      if k in KeysOf(rows, EmployerKeyOf) {
        var i :| 0 <= i < |gs| && gs[i].key == k;
        assert es[i].employer == k;
      }
    }
  }

  /**
   * The result of `aggregateData`: at most ten entries, sorted by total, the
   * head of the full ranking with no employer left out ranked above one kept,
   * every entry an employer of the rows, and ties in first-seen order.
   */
  lemma TopEmployersSpec(rows: seq<Row>)
    ensures var all := AllEmployers(rows);
      var ranking := EmployerRanking(rows);
      var top := TopEmployers(rows);
      && |top| == (if |all| <= 10 then |all| else 10)
      && SortedDesc(top, EntryTotal)
      && top == ranking[..|top|]
      && (forall i, j :: 0 <= i < |top| <= j < |ranking| ==> top[i].totalPetitions >= ranking[j].totalPetitions)
      && (forall e <- top :: e in all)
      && (forall v :: WithKey(ranking, EntryTotal, v) == WithKey(all, EntryTotal, v))
  {
    var all := AllEmployers(rows);
    TopN(all, EntryTotal, 10);
    var top := TopEmployers(rows);
    forall e | e in top ensures e in all {
      TopMember(all, EntryTotal, 10, e);
    }
    forall v ensures WithKey(EmployerRanking(rows), EntryTotal, v) == WithKey(all, EntryTotal, v) {
      SortDescStable(all, EntryTotal, v);
    }
  }

  lemma {:induction false} EntriesTotal(gs: seq<Group>)
    ensures SumSeq(Entries(gs), EntryTotal) == SumSeq(gs, GroupTotal)
  {
    if gs != [] {
      EntriesTotal(gs[..|gs| - 1]);
      assert Entries(gs)[..|gs| - 1] == Entries(gs[..|gs| - 1]);
    }
  }

  /**
   * With ten employers or fewer nothing is cut off: the totals shown add up to
   * the four coerced counts summed over every row.
   */
  lemma TopEmployersSumPreserved(rows: seq<Row>)
    requires |FirstSeen(KeysOf(rows, EmployerKeyOf))| <= 10
    ensures SumSeq(TopEmployers(rows), EntryTotal) == SumSeq(rows, TotalOf)
  {
    var all := AllEmployers(rows);
    SortDescPermutation(all, EntryTotal);
    SortDescSum(all, EntryTotal, EntryTotal);
    EntriesTotal(Groups(rows, EmployerKeyOf));
    GroupsPreserveSums(rows, EmployerKeyOf);
  }

  /** A row whose counts are all blank or not numbers changes no sum. */
  lemma BlankRowAddsNothing(rows: seq<Row>, r: Row)
    requires !r.initialApproval.Number? && !r.initialDenial.Number?
    requires !r.continuingApproval.Number? && !r.continuingDenial.Number?
    ensures SumSeq(AllEmployers(rows + [r]), EntryTotal) == SumSeq(AllEmployers(rows), EntryTotal)
  {
    EntriesTotal(Groups(rows + [r], EmployerKeyOf));
    EntriesTotal(Groups(rows, EmployerKeyOf));
    GroupsPreserveSums(rows + [r], EmployerKeyOf);
    GroupsPreserveSums(rows, EmployerKeyOf);
    assert (rows + [r])[..|rows|] == rows;
  }
}
