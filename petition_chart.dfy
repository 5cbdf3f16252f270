/**
 * The industry bar chart: `d3.rollup` groups the rows by industry code and
 * `d3.sum`s the four counts, the y axis runs from 0 to the largest four-field
 * total, and long industry labels on the x axis are shortened.
 */
module PetitionChart {
  import opened Wrappers
  import opened Petitions
  import opened Ranking
  import opened Grouping

  /** `d => d["IndustryCode"]`, the rollup key. */
  function IndustryKeyOf(r: Row): string {
    r.industryCode
  }

  /**
   * `processedData`: one `{industry, ...values}` per industry code, in the
   * order the rollup's map first met the code. `+d[...]` inside `d3.sum`
   * reads an empty field as 0 and skips text that is not a number.
   */
  function ProcessedData(data: seq<Row>): seq<Group> {
    Groups(data, IndustryKeyOf)
  }

  /** `d3.max` of the four-field totals, before `.nice()` rounds the y domain's end: absent with no bars. */
  function YDomainMax(data: seq<Row>): Option<int> {
    MaxTotal(ProcessedData(data))
  }

  /** The x-axis tick text: up to 20 characters, then "..." when the label was longer. */
  function AxisLabel(d: string): (shown: string)
    ensures |shown| <= 23
    ensures |d| <= 20 ==> shown == d
    ensures |d| > 20 ==> |shown| == 23 && shown[..20] == d[..20] && shown[20..] == "..."
  {
    if |d| > 20 then d[..20] + "..." else d
  }

  // ---------------------------------------------------------------------------
  // Properties

  /**
   * One entry per distinct industry code, in order of first appearance, each
   * holding the four counts summed over the rows of that code.
   */
  lemma ProcessedDataSpec(data: seq<Row>)
    ensures var pd := ProcessedData(data);
      && (forall i, j :: 0 <= i < j < |pd| ==> pd[i].key != pd[j].key)
      && (forall code :: code in KeysOf(data, IndustryKeyOf) <==> exists i :: 0 <= i < |pd| && pd[i].key == code)
      && (forall i :: 0 <= i < |pd| ==> pd[i].counts == CountsWhere(data, IndustryKeyOf, pd[i].key))
  {
    GroupsSpec(data, IndustryKeyOf);
  }

  /** Rows added later never reorder the industries already seen: those keep the lead. */
  lemma ProcessedDataOrder(data: seq<Row>, more: seq<Row>)
    ensures var before, after := ProcessedData(data), ProcessedData(data + more);
      && |before| <= |after|
      && forall i :: 0 <= i < |before| ==> before[i].key == after[i].key
  {
    GroupsFirstSeenOrder(data + more, IndustryKeyOf, |data|);
    assert (data + more)[..|data|] == data;
  }

  /** Sum preservation: each count summed over the bars equals it summed over the rows. */
  lemma ProcessedDataSums(data: seq<Row>)
    ensures var pd := ProcessedData(data);
      && SumSeq(pd, GroupInitialApproval) == SumSeq(data, InitialApprovalOf)
      && SumSeq(pd, GroupInitialDenial) == SumSeq(data, InitialDenialOf)
      && SumSeq(pd, GroupContinuingApproval) == SumSeq(data, ContinuingApprovalOf)
      && SumSeq(pd, GroupContinuingDenial) == SumSeq(data, ContinuingDenialOf)
      && SumSeq(pd, GroupTotal) == SumSeq(data, TotalOf)
  {
    GroupsPreserveSums(data, IndustryKeyOf);
  }

  /**
   * The `d3.max` the y domain starts from: absent exactly when there are no
   * rows; otherwise at least every bar's total and reached by one of them, so
   * no bar overflows the axis (`.nice()` only moves the end further up).
   */
  lemma YDomainSpec(data: seq<Row>)
    ensures YDomainMax(data).None? <==> data == []
    ensures YDomainMax(data).Some? ==> forall g <- ProcessedData(data) :: g.counts.Total() <= YDomainMax(data).value
    ensures YDomainMax(data).Some? ==> exists g <- ProcessedData(data) :: g.counts.Total() == YDomainMax(data).value
  {
    if data != [] {
      GroupsSpec(data, IndustryKeyOf);
      assert IndustryKeyOf(data[0]) in KeysOf(data, IndustryKeyOf);
    }
  }

  /** One more row leaves the bars already there in place, adding its counts to its industry's bar. */
  lemma ProcessedDataStepAt(data: seq<Row>, r: Row, i: nat)
    requires i < |ProcessedData(data)|
    ensures i < |ProcessedData(data + [r])|
    ensures var before, after := ProcessedData(data), ProcessedData(data + [r]);
      after[i] == if before[i].key == r.industryCode then Group(r.industryCode, before[i].counts.Plus(CountsOf(r))) else before[i]
  {
    KeysStep(data, r, IndustryKeyOf);
    CountsWhereStep(data, r, IndustryKeyOf, ProcessedData(data)[i].key);
  }

  /** The bar a row of a new industry code gets: last, holding just that row's counts. */
  lemma ProcessedDataStepLast(data: seq<Row>, r: Row)
    requires r.industryCode !in KeysOf(data, IndustryKeyOf)
    ensures |ProcessedData(data + [r])| == |ProcessedData(data)| + 1
    ensures ProcessedData(data + [r])[|ProcessedData(data)|] == Group(r.industryCode, CountsOf(r))
  {
    KeysStep(data, r, IndustryKeyOf);
    CountsWhereAbsent(data, IndustryKeyOf, r.industryCode);
    CountsWhereStep(data, r, IndustryKeyOf, r.industryCode);
  }

  /** The bars of the industry codes already seen have codes other than a new one. */
  lemma ProcessedDataKeysSeen(data: seq<Row>, i: nat)
    requires i < |ProcessedData(data)|
    ensures ProcessedData(data)[i].key in KeysOf(data, IndustryKeyOf)
  {
    FirstSeenKeys(KeysOf(data, IndustryKeyOf));
    assert ProcessedData(data)[i].key in FirstSeen(KeysOf(data, IndustryKeyOf));
  }

  /** A row of a new industry code appends one bar holding that row's counts. */
  lemma ProcessedDataStepNew(data: seq<Row>, r: Row)
    requires r.industryCode !in KeysOf(data, IndustryKeyOf)
    ensures ProcessedData(data + [r]) == ProcessedData(data) + [Group(r.industryCode, CountsOf(r))]
  {
    var before, after := ProcessedData(data), ProcessedData(data + [r]);
    ProcessedDataStepLast(data, r);
    forall i | 0 <= i < |before| ensures after[i] == before[i] {
      ProcessedDataStepAt(data, r, i);
      ProcessedDataKeysSeen(data, i);
    }
    AppendPointwise(after, before, Group(r.industryCode, CountsOf(r)));
  }

  /**
   * One more row: its counts are added to the bar of its industry code if the
   * code was already seen, and to no other bar; otherwise a new bar holding
   * just that row's counts is appended.
   */
  lemma ProcessedDataStep(data: seq<Row>, r: Row)
    ensures var before, after, code := ProcessedData(data), ProcessedData(data + [r]), r.industryCode;
      && (code in KeysOf(data, IndustryKeyOf) ==>
            |after| == |before| &&
            forall i :: 0 <= i < |before| ==>
              after[i] == if before[i].key == code then Group(code, before[i].counts.Plus(CountsOf(r))) else before[i])
      && (code !in KeysOf(data, IndustryKeyOf) ==> after == before + [Group(code, CountsOf(r))])
  {
    if r.industryCode in KeysOf(data, IndustryKeyOf) {
      KeysStep(data, r, IndustryKeyOf);
      forall i | 0 <= i < |ProcessedData(data)| {
        ProcessedDataStepAt(data, r, i);
      }
    } else {
      ProcessedDataStepNew(data, r);
    }
  }
}
