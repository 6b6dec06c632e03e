/**
 * The monitoring dashboard's derived view state. The page fetches a list of
 * records once and derives from it, on every render: three label counts for
 * the bar chart, the record total, the table rows newest first, and a badge
 * colour per label. All of it is pure.
 */
module Monitoring {
  import opened Wrappers

  /**
   * One record as the page reads it: `id`, `predicted_label` and
   * `predicted_factors`. A key missing from the JSON reads as `undefined`,
   * here `None`.
   */
  datatype Record = Record(id: int, predictedLabel: string, predictedFactors: Option<string>)

  /** One bar of the chart: its name, its count and its fill colour. */
  datatype Bar = Bar(name: string, count: nat, color: string)

  const LowStress := "Low Stress"
  const MediumStress := "Medium Stress"
  const HighStress := "High Stress"

  // ---------------------------------------------------------------------------
  // Chart counts

  /** `data.filter(d => d.predicted_label === name)`. */
  function WithLabel(data: seq<Record>, tag: string): (r: seq<Record>)
    ensures |r| <= |data|
    ensures forall x :: x in r ==> x in data && x.predictedLabel == tag
  {
    if data == [] then []
    else if data[0].predictedLabel == tag then [data[0]] + WithLabel(data[1..], tag)
    else WithLabel(data[1..], tag)
  }

  function Labels(data: seq<Record>): (labels: seq<string>)
    ensures |labels| == |data|
    ensures forall i :: 0 <= i < |data| ==> labels[i] == data[i].predictedLabel
  {
    seq(|data|, i requires 0 <= i < |data| => data[i].predictedLabel)
  }

  /** A label's count is the number of records carrying exactly that label. */
  lemma {:induction false} CountIsMultiplicity(data: seq<Record>, tag: string)
    ensures |WithLabel(data, tag)| == multiset(Labels(data))[tag]
  {
    if data != [] {
      CountIsMultiplicity(data[1..], tag);
      assert Labels(data) == [data[0].predictedLabel] + Labels(data[1..]);
    }
  }

  /** The chart's data: three bars, in the order Low, Medium, High Stress. */
  function ChartData(data: seq<Record>): (bars: seq<Bar>)
    ensures |bars| == 3
    ensures bars[0].name == LowStress && bars[1].name == MediumStress && bars[2].name == HighStress
    ensures forall k :: 0 <= k < 3 ==> bars[k].count == multiset(Labels(data))[bars[k].name]
  {
    CountIsMultiplicity(data, LowStress);
    CountIsMultiplicity(data, MediumStress);
    CountIsMultiplicity(data, HighStress);
    [ Bar(LowStress, |WithLabel(data, LowStress)|, "#4ade80"),
      Bar(MediumStress, |WithLabel(data, MediumStress)|, "#facc15"),
      Bar(HighStress, |WithLabel(data, HighStress)|, "#ef4444") ]
  }

  /** The "Total Records" footer: the length of the raw list. */
  function TotalRecords(data: seq<Record>): nat
  {
    |data|
  }

  /** A record added at the end raises its own label's bar by one and leaves the other bars as they were. */
  lemma ChartAppend(data: seq<Record>, r: Record)
    ensures forall k :: 0 <= k < 3 ==>
      ChartData(data + [r])[k].count == ChartData(data)[k].count + (if r.predictedLabel == ChartData(data)[k].name then 1 else 0)
  {
    var before, after := ChartData(data), ChartData(data + [r]);
    LabelsAppend(data, r);
    forall k | 0 <= k < 3
      ensures after[k].count == before[k].count + (if r.predictedLabel == before[k].name then 1 else 0)
    {
      assert after[k].name == before[k].name;
    }
  }

  lemma LabelsAppend(data: seq<Record>, r: Record)
    ensures multiset(Labels(data + [r])) == multiset(Labels(data)) + multiset{r.predictedLabel}
  {
    assert Labels(data + [r]) == Labels(data) + [r.predictedLabel];
  }

  ghost predicate KnownLabel(tag: string)
  {
    tag == LowStress || tag == MediumStress || tag == HighStress
  }

  function ChartSum(bars: seq<Bar>): nat
    requires |bars| == 3
  {
    bars[0].count + bars[1].count + bars[2].count
  }

  /**
   * The three bars never count more records than the total, and they count
   * all of them exactly when every record carries one of the three labels.
   */
  lemma {:induction false} ChartSumBound(data: seq<Record>)
    ensures ChartSum(ChartData(data)) <= TotalRecords(data)
    ensures ChartSum(ChartData(data)) == TotalRecords(data) <==> forall r :: r in data ==> KnownLabel(r.predictedLabel)
  {
    if data != [] {
      var rest := data[1..];
      ChartSumBound(rest);
      assert forall r :: r in data <==> r == data[0] || r in rest;
    }
  }

  // ---------------------------------------------------------------------------
  // Table

  /** `[...data].reverse()`: a reversed copy; `data` itself is a value and stays as it was. */
  function DisplayOrder(data: seq<Record>): seq<Record>
  {
    if data == [] then [] else DisplayOrder(data[1..]) + [data[0]]
  }

  /** The table shows the records newest first: row `k` is record `|data| - 1 - k`. */
  lemma {:induction false} DisplayOrderAt(data: seq<Record>)
    ensures |DisplayOrder(data)| == |data|
    ensures forall k :: 0 <= k < |data| ==> DisplayOrder(data)[k] == data[|data| - 1 - k]
  {
    if data != [] {
      DisplayOrderAt(data[1..]);
    }
  }

  /** Reversing the display order gives the fetched order back; no record is dropped or repeated. */
  lemma DisplayOrderInvolution(data: seq<Record>)
    ensures DisplayOrder(DisplayOrder(data)) == data
    ensures multiset(DisplayOrder(data)) == multiset(data)
  {
    DisplayOrderAt(data);
    DisplayOrderAt(DisplayOrder(data));
    MultisetOfReverse(data);
  }

  lemma {:induction false} MultisetOfReverse(data: seq<Record>)
    ensures multiset(DisplayOrder(data)) == multiset(data)
  {
    if data != [] {
      MultisetOfReverse(data[1..]);
      assert data == [data[0]] + data[1..];
    }
  }

  datatype TableBody = EmptyState | Rows(rows: seq<Record>)

  /** The table body: the "No data recorded yet." row for no records, otherwise every record newest first. */
  function Table(data: seq<Record>): (t: TableBody)
    ensures t.EmptyState? <==> data == []
    ensures t.Rows? ==> |t.rows| == |data| && forall k :: 0 <= k < |data| ==> t.rows[k] == data[|data| - 1 - k]
  {
    DisplayOrderAt(data);
    if |data| == 0 then EmptyState else Rows(DisplayOrder(data))
  }

  /** The "Key Factors" cell: the record's factor text, empty when the key is absent. */
  function FactorsCell(r: Record): string
  {
    r.predictedFactors.GetOr("")
  }

  // ---------------------------------------------------------------------------
  // Badges

  /** A badge's background colour, text colour and border. */
  datatype Badge = Badge(background: string, color: string, border: string)

  const RedBadge := Badge("rgba(239, 68, 68, 0.15)", "#fca5a5", "1px solid rgba(239, 68, 68, 0.3)")
  const YellowBadge := Badge("rgba(250, 204, 21, 0.15)", "#fde047", "1px solid rgba(250, 204, 21, 0.3)")
  const GreenBadge := Badge("rgba(74, 222, 128, 0.15)", "#86efac", "1px solid rgba(74, 222, 128, 0.3)")

  /** `getBadgeStyle(label)`, its three properties each picked by the same two comparisons. */
  function BadgeStyle(tag: string): Badge
  {
    Badge(
      if tag == HighStress then RedBadge.background else if tag == MediumStress then YellowBadge.background else GreenBadge.background,
      if tag == HighStress then RedBadge.color else if tag == MediumStress then YellowBadge.color else GreenBadge.color,
      if tag == HighStress then RedBadge.border else if tag == MediumStress then YellowBadge.border else GreenBadge.border)
  }

  /** Red exactly for "High Stress", yellow exactly for "Medium Stress", green for every other label. */
  lemma BadgeChoice(tag: string)
    ensures BadgeStyle(tag) == RedBadge <==> tag == HighStress
    ensures BadgeStyle(tag) == YellowBadge <==> tag == MediumStress
    ensures BadgeStyle(tag) == GreenBadge <==> tag != HighStress && tag != MediumStress
  {
  }
}
