/**
 * The headline counters: `processH1BData` runs once over the rows, adding up
 * the petitions and the initial approvals and collecting the employer names,
 * and returns three cards.
 */
module DataDashboard {
  import opened Petitions
  import opened Ranking

  /** One headline card: a title and a number. */
  datatype Card = Card(title: string, value: int)

  /** The `Set` of employer names the loop builds, row by row. */
  function EmployerNames(rows: seq<Row>): set<string> {
    if rows == [] then {} else EmployerNames(rows[..|rows| - 1]) + {rows[|rows| - 1].employerName}
  }

  /**
   * The three cards, in this order: the four counts summed over the rows,
   * the initial approvals summed over the rows, the number of distinct
   * employer names.
   */
  function Cards(data: seq<Row>): (cards: seq<Card>)
    ensures |cards| == 3
    ensures cards[0].title == "Total Petitions Filed" && cards[1].title == "Total Approvals" && cards[2].title == "Unique Employers"
  {
    [Card("Total Petitions Filed", SumSeq(data, TotalOf)),
     Card("Total Approvals", SumSeq(data, InitialApprovalOf)),
     Card("Unique Employers", |EmployerNames(data)|)]
  }

  /** One more row adds its four counts, its initial approvals and its employer name. */
  lemma CountersStep(data: seq<Row>, i: nat)
    requires i < |data|
    ensures var r := data[i];
      && SumSeq(data[..i + 1], TotalOf) == SumSeq(data[..i], TotalOf) +
           Coerce(r.initialApproval) + Coerce(r.initialDenial) + Coerce(r.continuingApproval) + Coerce(r.continuingDenial)
      && SumSeq(data[..i + 1], InitialApprovalOf) == SumSeq(data[..i], InitialApprovalOf) + Coerce(r.initialApproval)
      && EmployerNames(data[..i + 1]) == EmployerNames(data[..i]) + {r.employerName}
  {
    assert data[..i + 1][..i] == data[..i];
  }

  /**
   * `processH1BData`. Each count is read with `parseInt(x || "0", 10)`: an
   * empty or missing field becomes "0", so it counts 0; a field that is not a
   * number would give NaN, so every count field must parse.
   */
  method ProcessH1BData(data: seq<Row>) returns (cards: seq<Card>)
    requires forall r <- data :: AllParsable(r)
    ensures cards == Cards(data)
  {
    var totalPetitions := 0;
    var totalApprovals := 0;
    var uniqueEmployers: set<string> := {};
    for i := 0 to |data|
      invariant totalPetitions == SumSeq(data[..i], TotalOf)
      invariant totalApprovals == SumSeq(data[..i], InitialApprovalOf)
      invariant uniqueEmployers == EmployerNames(data[..i])
    {
      var record := data[i];
      var initialApproval := Coerce(record.initialApproval);
      var continuingApproval := Coerce(record.continuingApproval);
      var initialDenial := Coerce(record.initialDenial);
      var continuingDenial := Coerce(record.continuingDenial);
      CountersStep(data, i);
      totalPetitions := totalPetitions + initialApproval + initialDenial + continuingApproval + continuingDenial;
      totalApprovals := totalApprovals + initialApproval;
      uniqueEmployers := uniqueEmployers + {record.employerName};
    }
    assert data[..|data|] == data;
    cards := [
      Card("Total Petitions Filed", totalPetitions),
      Card("Total Approvals", totalApprovals),
      Card("Unique Employers", |uniqueEmployers|)
    ];
  }

  // ---------------------------------------------------------------------------
  // Properties

  /** The set holds exactly the employer names of the rows, so it is no larger than the row count. */
  lemma {:induction false} EmployerNamesSpec(rows: seq<Row>)
    ensures forall name :: name in EmployerNames(rows) <==> exists r <- rows :: r.employerName == name
    ensures |EmployerNames(rows)| <= |rows|
  {
    if rows != [] {
      var init, last := rows[..|rows| - 1], rows[|rows| - 1];
      EmployerNamesSpec(init);
      assert rows == init + [last];
    }
  }

  /** "Total Petitions Filed" is the four count sums added together. */
  lemma {:induction false} TotalIsFourSums(data: seq<Row>)
    ensures Cards(data)[0].value ==
      SumSeq(data, InitialApprovalOf) + SumSeq(data, InitialDenialOf) +
      SumSeq(data, ContinuingApprovalOf) + SumSeq(data, ContinuingDenialOf)
  {
    if data != [] {
      TotalIsFourSums(data[..|data| - 1]);
    }
  }

  /** With no negative count, "Total Approvals" never exceeds "Total Petitions Filed". */
  lemma {:induction false} ApprovalsAtMostTotal(data: seq<Row>)
    requires forall r <- data :: NonNegative(r)
    ensures 0 <= Cards(data)[1].value <= Cards(data)[0].value
  {
    if data != [] {
      var init := data[..|data| - 1];
      assert forall r <- init :: r in data;
      ApprovalsAtMostTotal(init);
      assert data[|data| - 1] in data;
    }
  }

  /** "Unique Employers" is at most the number of rows, and is 0 only with no rows. */
  lemma UniqueAtMostRows(data: seq<Row>)
    ensures 0 <= Cards(data)[2].value <= |data|
    ensures Cards(data)[2].value == 0 <==> data == []
  {
    EmployerNamesSpec(data);
    if data != [] {
      assert data[0].employerName in EmployerNames(data);
    }
  }

  /** No rows: all three cards show 0. */
  lemma EmptyData()
    ensures Cards([]) == [Card("Total Petitions Filed", 0), Card("Total Approvals", 0), Card("Unique Employers", 0)]
  {
  }
}
