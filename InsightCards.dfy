/** src/components/InsightCards.tsx: what the insight cards show, derived
    from the analytics summary: the over-budget, close-to-limit and on-track
    lists with their first two badges, the share of the total budget used,
    and one detail card per budgeted category. Formatting (`toFixed`,
    `formatCurrency`) and the markup are not modelled. */
module InsightCards {
  import opened Seqs
  import opened Types
  import opened Utils
  import opened Analytics

  function IsOver(item: CategorySummary): bool
  {
    item.status == Over
  }

  function IsWarning(item: CategorySummary): bool
  {
    item.status == Warning
  }

  /** On track needs a budget: an unbudgeted 'safe' line is not counted. */
  function IsOnTrack(item: CategorySummary): bool
  {
    item.status == Safe && item.budget > 0.0
  }

  /** Lines that are 'safe' only for lack of a budget. */
  function IsUnbudgetedSafe(item: CategorySummary): bool
  {
    item.status == Safe && item.budget <= 0.0
  }

  /** The three lists of the summary cards. */
  function OverBudget(data: seq<CategorySummary>): seq<CategorySummary>
  {
    Filter(IsOver, data)
  }

  function CloseToLimit(data: seq<CategorySummary>): seq<CategorySummary>
  {
    Filter(IsWarning, data)
  }

  function OnTrack(data: seq<CategorySummary>): seq<CategorySummary>
  {
    Filter(IsOnTrack, data)
  }

  /** Each line of the data is in exactly one of the three lists, unless it
      is 'safe' without a budget, in which case it is in none: the lists
      split the data. */
  lemma {:induction false} ListsSplitData(data: seq<CategorySummary>)
    ensures |OverBudget(data)| + |CloseToLimit(data)| + |OnTrack(data)| + |Filter(IsUnbudgetedSafe, data)| == |data|
  {
    if data != [] {
      var init, x := data[..|data| - 1], data[|data| - 1];
      assert data == init + [x];
      ListsSplitData(init);
      FilterSnoc(IsOver, init, x);
      FilterSnoc(IsWarning, init, x);
      FilterSnoc(IsOnTrack, init, x);
      FilterSnoc(IsUnbudgetedSafe, init, x);
    }
  }

  /** No line is in two lists, so together they hold at most the data. */
  lemma ListsDisjoint(data: seq<CategorySummary>, item: CategorySummary)
    ensures item in OverBudget(data) ==> item !in CloseToLimit(data) && item !in OnTrack(data)
    ensures item in CloseToLimit(data) ==> item !in OnTrack(data)
    ensures |OverBudget(data)| + |CloseToLimit(data)| + |OnTrack(data)| <= |data|
  {
    DisjointFiltersFit(IsOver, IsWarning, IsOnTrack, data);
    if item in OverBudget(data) {
      var i :| 0 <= i < |OverBudget(data)| && OverBudget(data)[i] == item;
    }
    if item in CloseToLimit(data) {
      var i :| 0 <= i < |CloseToLimit(data)| && CloseToLimit(data)[i] == item;
    }
  }

  /** The lists hold exactly the lines of their status, in order: a line of
      the data is in the over list iff it is 'over', in the close-to-limit
      list iff it is 'warning', in the on-track list iff it is 'safe' with a
      positive budget. */
  lemma ListMembers(data: seq<CategorySummary>, i: int)
    requires 0 <= i < |data|
    ensures data[i] in OverBudget(data) <==> data[i].status == Over
    ensures data[i] in CloseToLimit(data) <==> data[i].status == Warning
    ensures data[i] in OnTrack(data) <==> data[i].status == Safe && data[i].budget > 0.0
  {
    if data[i] in OverBudget(data) {
      var k :| 0 <= k < |OverBudget(data)| && OverBudget(data)[k] == data[i];
    }
    if data[i] in CloseToLimit(data) {
      var k :| 0 <= k < |CloseToLimit(data)| && CloseToLimit(data)[k] == data[i];
    }
    if data[i] in OnTrack(data) {
      var k :| 0 <= k < |OnTrack(data)| && OnTrack(data)[k] == data[i];
    }
  }

  /** `slice(0, 2)`: the badges of a list, its first two lines. */
  function Badges(list: seq<CategorySummary>): (r: seq<CategorySummary>)
    ensures |r| <= 2 && r <= list
    ensures |list| >= 2 ==> |r| == 2
    ensures |list| <= 2 ==> r == list
  {
    Take(list, 2)
  }

  /** `length === 1 ? 'category' : 'categories'`. */
  function CountNoun(n: nat): (r: string)
    ensures r == "category" <==> n == 1
    ensures n != 1 ==> r == "categories"
  {
    if n == 1 then "category" else "categories"
  }

  /** `totalBudgetUsed` is the formula of a line's percentage applied to
      the totals, `Percentage(totalSpent, totalBudget)`. With a positive
      total budget it reaches 100% exactly when spending reaches the
      budget, and is within 0 to 100 while spending is within 0 and the
      budget. */
  lemma TotalBudgetUsedRange(totalSpent: real, totalBudget: real)
    requires totalBudget > 0.0
    ensures Percentage(totalSpent, totalBudget) >= 100.0 <==> totalSpent >= totalBudget
    ensures 0.0 <= totalSpent <= totalBudget ==> 0.0 <= Percentage(totalSpent, totalBudget) <= 100.0
  {
    var q := totalSpent / totalBudget;
    QuotientAtLeast(totalSpent, totalBudget, 1.0);
    QuotientAtLeast(totalSpent, totalBudget, 0.0);
    assert Percentage(totalSpent, totalBudget) == q * 100.0;
  }

  /** The status badge text of a detail card. */
  function StatusLabel(s: Status): (r: string)
    ensures r == "Over" <==> s == Over
    ensures r == "Warning" <==> s == Warning
    ensures r == "Safe" <==> s == Safe
  {
    match s
    case Over => "Over"
    case Warning => "Warning"
    case Safe => "Safe"
  }

  /** One detail card: the category, the status badge and its colour, the
      amounts, the progress bar value and, past 100%, the overspend. */
  datatype DetailCard = DetailCard(
    category: string,
    statusLabel: string,
    colour: string,
    spent: real,
    budget: real,
    progress: real,
    overspend: Option<real>)

  /** The card of one line: progress is `Math.min(100, percentage)`, and
      the overspend note appears only above 100%. */
  function CardOf(item: CategorySummary): (r: DetailCard)
    ensures r.progress <= 100.0 && (item.percentage <= 100.0 ==> r.progress == item.percentage)
    ensures item.percentage >= 100.0 ==> r.progress == 100.0
    ensures r.overspend.Some? <==> item.percentage > 100.0
    ensures r.overspend.Some? ==> r.overspend.value == item.spent - item.budget
  {
    DetailCard(item.category, StatusLabel(item.status), StatusColor(item.status), item.spent, item.budget,
               if item.percentage < 100.0 then item.percentage else 100.0,
               if item.percentage > 100.0 then Some(item.spent - item.budget) else None)
  }

  /** `data.filter(item => item.budget > 0).map(...)`: one card per
      budgeted line, in order. */
  function DetailCards(data: seq<CategorySummary>): (r: seq<DetailCard>)
    ensures |r| == |Filter(Budgeted, data)|
    ensures forall i :: 0 <= i < |r| ==> r[i] == CardOf(Filter(Budgeted, data)[i])
  {
    var kept := Filter(Budgeted, data);
    seq(|kept|, i requires 0 <= i < |kept| => CardOf(kept[i]))
  }

  /** Every card is of a budgeted line, and every budgeted line has a card. */
  lemma CardsOfBudgeted(data: seq<CategorySummary>)
    ensures forall i :: 0 <= i < |DetailCards(data)| ==> DetailCards(data)[i].budget > 0.0
    ensures forall i :: 0 <= i < |data| && data[i].budget > 0.0 ==> CardOf(data[i]) in DetailCards(data)
  {
    var kept := Filter(Budgeted, data);
    forall i | 0 <= i < |data| && data[i].budget > 0.0
      ensures CardOf(data[i]) in DetailCards(data)
    {
      assert data[i] in kept;
      var k :| 0 <= k < |kept| && kept[k] == data[i];
      assert DetailCards(data)[k] == CardOf(data[i]);
    }
  }

  /** On a line whose percentage and status follow from its spent and
      positive budget, the card's overspend note appears exactly when
      spending exceeds the budget, and then shows the positive excess; the
      bar is full exactly when the line is 'over'. */
  lemma CardOfLine(line: CategorySummary)
    requires line.budget > 0.0
    requires line.percentage == Percentage(line.spent, line.budget)
    requires line.status == BudgetStatus(line.spent, line.budget)
    ensures (CardOf(line).overspend.Some? <==> line.spent > line.budget)
    ensures CardOf(line).overspend.Some? ==> CardOf(line).overspend.value > 0.0
    ensures CardOf(line).progress == 100.0 <==> line.status == Over
  {
    StatusWithPositiveBudget(line.spent, line.budget);
    var q := line.spent / line.budget;
    assert line.percentage == q * 100.0;
    QuotientAtLeast(line.spent, line.budget, 1.0);
    QuotientAbove(line.spent, line.budget, 1.0);
  }

  /** So it is on every budgeted line of the analytics summary. */
  lemma CardOfSummaryLine(m: string, budgets: seq<Budget>, txs: seq<Transaction>, i: int)
    requires 0 <= i < |Categories|
    requires MonthReport(m, budgets, txs).categorySummary[i].budget > 0.0
    ensures var line := MonthReport(m, budgets, txs).categorySummary[i];
            (CardOf(line).overspend.Some? <==> line.spent > line.budget) &&
            (CardOf(line).progress == 100.0 <==> line.status == Over)
  {
    SummaryLine(m, budgets, txs, i);
    CardOfLine(MonthReport(m, budgets, txs).categorySummary[i]);
  }

  /** `x / c > t` exactly when `x > t * c`, for a positive `c`. */
  lemma QuotientAbove(x: real, c: real, t: real)
    requires c > 0.0
    ensures x / c > t <==> x > t * c
  {
    QuotientAtLeast(x, c, t);
    var q := x / c;
    assert q * c == x;
    if q == t {
      assert x == t * c;
    }
  }
}
