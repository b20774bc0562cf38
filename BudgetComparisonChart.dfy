/** src/components/BudgetComparisonChart.tsx: the rows of the budget
    against spending bar chart, built from the analytics summary, and the
    labels of its tooltip. The rendering itself is not modelled. */
module BudgetComparisonChart {
  import opened Seqs
  import opened Types

  /** One bar group of the chart. */
  datatype ChartRow = ChartRow(category: string, budget: real, spent: real, remaining: real)

  /** `Math.max(0, x)`. */
  function AtLeastZero(x: real): (r: real)
    ensures r >= 0.0 && r >= x
    ensures r == x || r == 0.0
  {
    if x > 0.0 then x else 0.0
  }

  /** The row of one summary line: its category, budget and spent, and
      what is left of the budget. */
  function RowOf(item: CategorySummary): (r: ChartRow)
    ensures r.category == item.category && r.budget == item.budget && r.spent == item.spent
    ensures r.remaining >= 0.0
    ensures r.remaining == 0.0 <==> item.spent >= item.budget
    ensures item.spent < item.budget ==> r.remaining == item.budget - item.spent
  {
    ChartRow(item.category, item.budget, item.spent, AtLeastZero(item.budget - item.spent))
  }

  /** `data.filter(item => item.budget > 0).map(item => ...)`. */
  function ChartData(data: seq<CategorySummary>): (r: seq<ChartRow>)
    ensures |r| == |Filter(Budgeted, data)|
    ensures forall i :: 0 <= i < |r| ==> r[i] == RowOf(Filter(Budgeted, data)[i])
  {
    var kept := Filter(Budgeted, data);
    seq(|kept|, i requires 0 <= i < |kept| => RowOf(kept[i]))
  }

  /** Every row belongs to a budgeted line of the data, every budgeted line
      has a row, and the rows keep the order of the data. */
  lemma ChartRows(data: seq<CategorySummary>)
    ensures forall i :: 0 <= i < |ChartData(data)| ==> ChartData(data)[i].budget > 0.0
    ensures forall i :: 0 <= i < |data| && data[i].budget > 0.0 ==> RowOf(data[i]) in ChartData(data)
  {
    var kept := Filter(Budgeted, data);
    forall i | 0 <= i < |data| && data[i].budget > 0.0
      ensures RowOf(data[i]) in ChartData(data)
    {
      assert data[i] in kept;
      var k :| 0 <= k < |kept| && kept[k] == data[i];
      assert ChartData(data)[k] == RowOf(data[i]);
    }
  }

  /** The chart keeps the order of the data: charting a longer list adds
      rows after those of the shorter one. */
  lemma ChartOrder(data: seq<CategorySummary>, more: seq<CategorySummary>)
    ensures ChartData(data + more) == ChartData(data) + ChartData(more)
  {
    FilterAppend(Budgeted, data, more);
  }

  /** `chartData.length === 0`: the "No budget data available" message is
      shown exactly when no line has a positive budget. */
  function ShowsEmptyMessage(data: seq<CategorySummary>): (r: bool)
    ensures r <==> forall i :: 0 <= i < |data| ==> data[i].budget <= 0.0
  {
    var rows := ChartData(data);
    assert !(forall i :: 0 <= i < |data| ==> data[i].budget <= 0.0) ==> |rows| > 0 by {
      if exists i :: 0 <= i < |data| && data[i].budget > 0.0 {
        var i :| 0 <= i < |data| && data[i].budget > 0.0;
        ChartRows(data);
        assert RowOf(data[i]) in rows;
      }
    }
    assert (forall i :: 0 <= i < |data| ==> data[i].budget <= 0.0) ==> |rows| == 0 by {
      if forall i :: 0 <= i < |data| ==> data[i].budget <= 0.0 {
        FilterNone(Budgeted, data);
      }
    }
    |rows| == 0
  }

  /** The tooltip's label of a bar: 'budget' and 'spent' by name, any other
      key as the remaining bar. */
  function TooltipLabel(dataKey: string): (r: string)
    ensures r == "Budget" <==> dataKey == "budget"
    ensures r == "Spent" <==> dataKey == "spent"
    ensures r == "Remaining" <==> dataKey != "budget" && dataKey != "spent"
  {
    if dataKey == "budget" then "Budget"
    else if dataKey == "spent" then "Spent"
    else "Remaining"
  }
}
