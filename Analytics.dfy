/** src/app/api/analytics/route.ts: the monthly analytics of `GET`. Without
    a month the answer is a 400 error; otherwise the route takes the month's
    budgets, groups the month's transactions by category with the sum of
    their amounts, builds one summary line per category of `Categories`,
    adds up the totals and lists the ten newest transactions of the month.
    The database stages are modelled on sequences: `find({ month })` and
    `$match` are filters, `$group` is `GroupByCategory`, `.sort({ date: -1 })
    .limit(10)` is the stable sort cut to ten. */
module Analytics {
  import opened Seqs
  import opened Types
  import opened Utils
  import opened Ordering
  import opened FileStorage

  // ---------------------------------------------------------------------
  // The `$group` stage

  /** One output document of `$group`: `{ _id: category, totalSpent }`. */
  datatype Group = Group(category: string, totalSpent: real)

  /** The amounts of `s`, added up from the left. */
  function SumAmounts(s: seq<Transaction>): real
  {
    if s == [] then 0.0 else SumAmounts(s[..|s| - 1]) + s[|s| - 1].amount
  }

  function OfCategory(c: string): Transaction -> bool
  {
    (t: Transaction) => t.category == c
  }

  function GroupOf(c: string): Group -> bool
  {
    (g: Group) => g.category == c
  }

  /** The running `$group`: a transaction goes into the group of its
      category, or opens a new group at the end. */
  function AddTo(groups: seq<Group>, t: Transaction): (r: seq<Group>)
    ensures |r| == |groups| || |r| == |groups| + 1
  {
    var i := FindIndex(GroupOf(t.category), groups);
    if i == -1 then groups + [Group(t.category, t.amount)]
    else groups[i := Group(t.category, groups[i].totalSpent + t.amount)]
  }

  /** `$group: { _id: '$category', totalSpent: { $sum: '$amount' } }`, the
      groups in the order their categories first appear. */
  function GroupByCategory(txs: seq<Transaction>): seq<Group>
  {
    if txs == [] then [] else AddTo(GroupByCategory(txs[..|txs| - 1]), txs[|txs| - 1])
  }

  /** `spending.find(s => s._id === category)?.totalSpent || 0`. */
  function GroupSpent(groups: seq<Group>, c: string): real
  {
    var g := Find(GroupOf(c), groups);
    if g.None? then 0.0 else g.value.totalSpent
  }

  /** No category has two groups. */
  predicate UniqueGroups(groups: seq<Group>)
  {
    forall i, j :: 0 <= i < j < |groups| ==> groups[i].category != groups[j].category
  }

  /** `spending.reduce((sum, item) => sum + item.totalSpent, 0)`. */
  function SumGroups(groups: seq<Group>): real
  {
    if groups == [] then 0.0 else SumGroups(groups[..|groups| - 1]) + groups[|groups| - 1].totalSpent
  }

  lemma SumAmountsSnoc(s: seq<Transaction>, t: Transaction)
    ensures SumAmounts(s + [t]) == SumAmounts(s) + t.amount
  {
    assert (s + [t])[..|s|] == s;
  }

  lemma SumGroupsSnoc(groups: seq<Group>, g: Group)
    ensures SumGroups(groups + [g]) == SumGroups(groups) + g.totalSpent
  {
    assert (groups + [g])[..|groups|] == groups;
  }

  lemma {:induction false} SumGroupsUpdate(groups: seq<Group>, i: int, g: Group)
    requires 0 <= i < |groups|
    ensures SumGroups(groups[i := g]) == SumGroups(groups) - groups[i].totalSpent + g.totalSpent
  {
    var last := |groups| - 1;
    if i < last {
      SumGroupsUpdate(groups[..last], i, g);
      assert groups[i := g][..last] == groups[..last][i := g];
    } else {
      assert groups[i := g][..last] == groups[..last];
    }
  }

  /** Adding a transaction raises its own category's sum by its amount and
      leaves every other category's sum alone. */
  lemma AddToSpent(groups: seq<Group>, t: Transaction, c: string)
    ensures GroupSpent(AddTo(groups, t), c) ==
              GroupSpent(groups, c) + (if t.category == c then t.amount else 0.0)
  {
    var i := FindIndex(GroupOf(t.category), groups);
    var r := AddTo(groups, t);
    if i == -1 {
      FindIndexSnoc(GroupOf(c), groups, Group(t.category, t.amount));
      if t.category == c {
        assert FindIndex(GroupOf(c), groups) == -1;
      }
    } else {
      FindIndexSame(GroupOf(c), groups, r);
      if t.category != c {
        assert !GroupOf(c)(groups[i]);
      }
    }
  }

  lemma AddToKeepsUnique(groups: seq<Group>, t: Transaction)
    requires UniqueGroups(groups)
    ensures UniqueGroups(AddTo(groups, t))
  {
    var i := FindIndex(GroupOf(t.category), groups);
    if i == -1 {
      assert forall j :: 0 <= j < |groups| ==> !GroupOf(t.category)(groups[j]);
    }
  }

  lemma AddToTotal(groups: seq<Group>, t: Transaction)
    ensures SumGroups(AddTo(groups, t)) == SumGroups(groups) + t.amount
  {
    var i := FindIndex(GroupOf(t.category), groups);
    if i == -1 {
      SumGroupsSnoc(groups, Group(t.category, t.amount));
    } else {
      SumGroupsUpdate(groups, i, Group(t.category, groups[i].totalSpent + t.amount));
    }
  }

  /** The group of category `c` holds the sum of the amounts of the
      transactions of category `c`, and 0 stands for a category without
      any. */
  lemma {:induction false} GroupedSpent(txs: seq<Transaction>, c: string)
    ensures GroupSpent(GroupByCategory(txs), c) == SumAmounts(Filter(OfCategory(c), txs))
  {
    if txs != [] {
      var init, last := txs[..|txs| - 1], txs[|txs| - 1];
      assert txs == init + [last];
      GroupedSpent(init, c);
      AddToSpent(GroupByCategory(init), last, c);
      FilterSnoc(OfCategory(c), init, last);
      if last.category == c {
        SumAmountsSnoc(Filter(OfCategory(c), init), last);
      }
    }
  }

  /** `$group` outputs one document per category. */
  lemma {:induction false} GroupsUnique(txs: seq<Transaction>)
    ensures UniqueGroups(GroupByCategory(txs))
  {
    if txs != [] {
      GroupsUnique(txs[..|txs| - 1]);
      AddToKeepsUnique(GroupByCategory(txs[..|txs| - 1]), txs[|txs| - 1]);
    }
  }

  /** The groups together hold every amount once. */
  lemma {:induction false} GroupedTotal(txs: seq<Transaction>)
    ensures SumGroups(GroupByCategory(txs)) == SumAmounts(txs)
  {
    if txs != [] {
      GroupedTotal(txs[..|txs| - 1]);
      AddToTotal(GroupByCategory(txs[..|txs| - 1]), txs[|txs| - 1]);
    }
  }

  // ---------------------------------------------------------------------
  // The category summary

  function OfMonth(m: string): Budget -> bool
  {
    (b: Budget) => b.month == m
  }

  function BudgetOf(c: string): Budget -> bool
  {
    (b: Budget) => b.category == c
  }

  /** `budgets.find(b => b.category === category)?.amount || 0`. */
  function BudgetAmount(monthBudgets: seq<Budget>, c: string): real
  {
    var b := Find(BudgetOf(c), monthBudgets);
    if b.None? then 0.0 else b.value.amount
  }

  /** The percentage shown for a category: 0 unless the budget is positive. */
  function Percentage(spent: real, budget: real): (r: real)
    ensures budget <= 0.0 ==> r == 0.0
    ensures budget > 0.0 ==> r * budget == spent * 100.0
  {
    if budget > 0.0 then spent / budget * 100.0 else 0.0
  }

  /** The summary line of one category. */
  function Summarize(c: string, monthBudgets: seq<Budget>, spending: seq<Group>): CategorySummary
  {
    var budgetAmount := BudgetAmount(monthBudgets, c);
    var spentAmount := GroupSpent(spending, c);
    CategorySummary(c, spentAmount, budgetAmount, Percentage(spentAmount, budgetAmount),
                    BudgetStatus(spentAmount, budgetAmount))
  }

  /** `cs.map(category => ...)`: one line per category, in order. */
  function Summaries(cs: seq<string>, monthBudgets: seq<Budget>, spending: seq<Group>): (r: seq<CategorySummary>)
    ensures |r| == |cs| && forall i :: 0 <= i < |cs| ==> r[i].category == cs[i]
  {
    seq(|cs|, i requires 0 <= i < |cs| => Summarize(cs[i], monthBudgets, spending))
  }

  /** The spent column, added up. */
  function SumSpent(s: seq<CategorySummary>): real
  {
    if s == [] then 0.0 else SumSpent(s[..|s| - 1]) + s[|s| - 1].spent
  }

  /** `budgets.reduce((sum, item) => sum + item.amount, 0)`. */
  function SumBudgets(bs: seq<Budget>): real
  {
    if bs == [] then 0.0 else SumBudgets(bs[..|bs| - 1]) + bs[|bs| - 1].amount
  }

  // ---------------------------------------------------------------------
  // The response

  datatype Report = Report(
    categorySummary: seq<CategorySummary>,
    totalSpent: real,
    totalBudget: real,
    recentTransactions: seq<Transaction>,
    month: string)

  datatype Response = Failure(status: nat, error: string) | Success(body: Report)

  /** The month's transactions, as `$match` and the recent-list query select them. */
  function InMonth(txs: seq<Transaction>, m: string): seq<Transaction>
  {
    Filter(InRange(MonthDateRange(m)), txs)
  }

  /** The ten newest transactions: `.sort({ date: -1 }).limit(10)`. */
  function Recent(inMonth: seq<Transaction>): seq<Transaction>
  {
    Take(SortByDateDesc(inMonth), 10)
  }

  /** The body for a given month. */
  function MonthReport(m: string, budgets: seq<Budget>, txs: seq<Transaction>): Report
  {
    var monthBudgets := Filter(OfMonth(m), budgets);
    var spending := GroupByCategory(InMonth(txs, m));
    Report(Summaries(Categories, monthBudgets, spending), SumGroups(spending), SumBudgets(monthBudgets),
           Recent(InMonth(txs, m)), m)
  }

  /** `GET /api/analytics?month=...`: a missing or empty `month` (falsy) is a
      400 error and nothing is computed. */
  function Get(month: Option<string>, budgets: seq<Budget>, txs: seq<Transaction>): (r: Response)
    ensures r.Failure? <==> month.None? || month.value == ""
    ensures r.Failure? ==> r.status == 400 && r.error == "Month parameter is required"
    ensures r.Success? ==> r.body.month == month.value && |r.body.categorySummary| == |Categories|
  {
    if month.None? || month.value == "" then Failure(400, "Month parameter is required")
    else Success(MonthReport(month.value, budgets, txs))
  }

  // ---------------------------------------------------------------------
  // Properties of the report

  /** Line `i` of the summary is category `Categories[i]`; its spent column
      is the sum of the amounts of the month's transactions of that
      category (0 without any), its percentage and status follow from spent
      and budget. */
  lemma SummaryLine(m: string, budgets: seq<Budget>, txs: seq<Transaction>, i: int)
    requires 0 <= i < |Categories|
    ensures var line := MonthReport(m, budgets, txs).categorySummary[i];
            line.category == Categories[i] &&
            line.spent == SumAmounts(Filter(OfCategory(Categories[i]), InMonth(txs, m))) &&
            line.status == BudgetStatus(line.spent, line.budget) &&
            line.percentage == Percentage(line.spent, line.budget)
  {
    GroupedSpent(InMonth(txs, m), Categories[i]);
  }

  /** With at most one budget per category and month, as the store keeps
      them, a category's budget column is the amount of its budget for the
      month. */
  lemma SummaryBudget(m: string, budgets: seq<Budget>, txs: seq<Transaction>, i: int, j: int)
    requires KeysUnique(budgets)
    requires 0 <= i < |Categories| && 0 <= j < |budgets|
    requires budgets[j].month == m && budgets[j].category == Categories[i]
    ensures MonthReport(m, budgets, txs).categorySummary[i].budget == budgets[j].amount
  {
    var c := Categories[i];
    var monthBudgets := Filter(OfMonth(m), budgets);
    assert budgets[j] in monthBudgets;
    var k :| 0 <= k < |monthBudgets| && monthBudgets[k] == budgets[j];
    assert BudgetOf(c)(monthBudgets[k]);
    var f := FindIndex(BudgetOf(c), monthBudgets);
    assert monthBudgets[f] in budgets;
    var j' :| 0 <= j' < |budgets| && budgets[j'] == monthBudgets[f];
    assert budgets[j'].month == m && budgets[j'].category == c;
    assert j' == j;
  }

  /** Without a budget for the month a category's budget column is 0. */
  lemma SummaryNoBudget(m: string, budgets: seq<Budget>, txs: seq<Transaction>, i: int)
    requires 0 <= i < |Categories|
    requires forall j :: 0 <= j < |budgets| ==> !(budgets[j].month == m && budgets[j].category == Categories[i])
    ensures MonthReport(m, budgets, txs).categorySummary[i].budget == 0.0
    ensures MonthReport(m, budgets, txs).categorySummary[i].percentage == 0.0
  {
    var monthBudgets := Filter(OfMonth(m), budgets);
    assert forall k :: 0 <= k < |monthBudgets| ==> !BudgetOf(Categories[i])(monthBudgets[k]) by {
      forall k | 0 <= k < |monthBudgets|
        ensures !BudgetOf(Categories[i])(monthBudgets[k])
      {
        assert monthBudgets[k] in budgets;
      }
    }
  }

  /** There is no zero-budget guard: a category without a budget for the
      month is 'over' as soon as anything was spent on it, and 'safe'
      otherwise. */
  lemma UnbudgetedStatus(m: string, budgets: seq<Budget>, txs: seq<Transaction>, i: int)
    requires 0 <= i < |Categories|
    requires forall j :: 0 <= j < |budgets| ==> !(budgets[j].month == m && budgets[j].category == Categories[i])
    ensures var line := MonthReport(m, budgets, txs).categorySummary[i];
            line.status == (if line.spent > 0.0 then Over else Safe)
  {
    SummaryNoBudget(m, budgets, txs, i);
    SummaryLine(m, budgets, txs, i);
  }

  /** `totalSpent` is the sum of every transaction of the month. */
  lemma TotalSpentIsMonthTotal(m: string, budgets: seq<Budget>, txs: seq<Transaction>)
    ensures MonthReport(m, budgets, txs).totalSpent == SumAmounts(InMonth(txs, m))
  {
    GroupedTotal(InMonth(txs, m));
  }

  // The summary's spent column against `totalSpent`

  function InList(cs: seq<string>): Transaction -> bool
  {
    (t: Transaction) => t.category in cs
  }

  function NotInList(cs: seq<string>): Transaction -> bool
  {
    (t: Transaction) => t.category !in cs
  }

  /** The per-category sums over the categories `cs`. */
  function CategoryTotal(cs: seq<string>, txs: seq<Transaction>): real
  {
    if cs == [] then 0.0 else CategoryTotal(cs[..|cs| - 1], txs) + SumAmounts(Filter(OfCategory(cs[|cs| - 1]), txs))
  }

  lemma {:induction false} SummariesSpent(cs: seq<string>, monthBudgets: seq<Budget>, txs: seq<Transaction>)
    ensures SumSpent(Summaries(cs, monthBudgets, GroupByCategory(txs))) == CategoryTotal(cs, txs)
  {
    if cs != [] {
      var init := cs[..|cs| - 1];
      var s := Summaries(cs, monthBudgets, GroupByCategory(txs));
      assert s[..|s| - 1] == Summaries(init, monthBudgets, GroupByCategory(txs));
      SummariesSpent(init, monthBudgets, txs);
      GroupedSpent(txs, cs[|cs| - 1]);
    }
  }

  /** A new transaction adds its amount to the total over `cs` exactly when
      its category is one of them, once, since `cs` has no repeats. */
  lemma {:induction false} CategoryTotalSnoc(cs: seq<string>, txs: seq<Transaction>, t: Transaction)
    requires Distinct(cs)
    ensures CategoryTotal(cs, txs + [t]) == CategoryTotal(cs, txs) + (if t.category in cs then t.amount else 0.0)
  {
    if cs != [] {
      var init, c := cs[..|cs| - 1], cs[|cs| - 1];
      assert cs == init + [c];
      CategoryTotalSnoc(init, txs, t);
      FilterSnoc(OfCategory(c), txs, t);
      if t.category == c {
        SumAmountsSnoc(Filter(OfCategory(c), txs), t);
        assert t.category !in init;
      }
    }
  }

  /** Over distinct categories, the per-category sums add up to the sum of
      the transactions in those categories. */
  lemma {:induction false} CategoryTotalIsListed(cs: seq<string>, txs: seq<Transaction>)
    requires Distinct(cs)
    ensures CategoryTotal(cs, txs) == SumAmounts(Filter(InList(cs), txs))
  {
    if txs != [] {
      var init, t := txs[..|txs| - 1], txs[|txs| - 1];
      assert txs == init + [t];
      CategoryTotalIsListed(cs, init);
      CategoryTotalSnoc(cs, init, t);
      FilterSnoc(InList(cs), init, t);
      if t.category in cs {
        SumAmountsSnoc(Filter(InList(cs), init), t);
      }
    } else {
      CategoryTotalEmpty(cs);
    }
  }

  lemma {:induction false} CategoryTotalEmpty(cs: seq<string>)
    ensures CategoryTotal(cs, []) == 0.0
  {
    if cs != [] {
      CategoryTotalEmpty(cs[..|cs| - 1]);
    }
  }

  /** Every transaction is either in a listed category or not. */
  lemma {:induction false} SumSplits(cs: seq<string>, txs: seq<Transaction>)
    ensures SumAmounts(txs) == SumAmounts(Filter(InList(cs), txs)) + SumAmounts(Filter(NotInList(cs), txs))
  {
    if txs != [] {
      var init, t := txs[..|txs| - 1], txs[|txs| - 1];
      assert txs == init + [t];
      SumSplits(cs, init);
      FilterSnoc(InList(cs), init, t);
      FilterSnoc(NotInList(cs), init, t);
      SumAmountsSnoc(Filter(InList(cs), init), t);
      SumAmountsSnoc(Filter(NotInList(cs), init), t);
    }
  }

  lemma {:induction false} SumNonNegative(txs: seq<Transaction>)
    requires forall i :: 0 <= i < |txs| ==> txs[i].amount >= 0.0
    ensures SumAmounts(txs) >= 0.0
  {
    if txs != [] {
      SumNonNegative(txs[..|txs| - 1]);
    }
  }

  /** `totalSpent` adds up every group, also those of categories outside
      `Categories`, which have no summary line: it is the summary's spent
      column plus the month's spending on unlisted categories, and so at
      least the spent column when no amount is negative. */
  lemma TotalSpentCoversSummary(m: string, budgets: seq<Budget>, txs: seq<Transaction>)
    ensures var r := MonthReport(m, budgets, txs);
            r.totalSpent == SumSpent(r.categorySummary) + SumAmounts(Filter(NotInList(Categories), InMonth(txs, m)))
    ensures (forall i :: 0 <= i < |txs| ==> txs[i].amount >= 0.0) ==>
              MonthReport(m, budgets, txs).totalSpent >= SumSpent(MonthReport(m, budgets, txs).categorySummary)
  {
    var inMonth := InMonth(txs, m);
    var unlisted := Filter(NotInList(Categories), inMonth);
    CategoriesShape();
    TotalSpentIsMonthTotal(m, budgets, txs);
    SummariesSpent(Categories, Filter(OfMonth(m), budgets), inMonth);
    CategoryTotalIsListed(Categories, inMonth);
    SumSplits(Categories, inMonth);
    if forall i :: 0 <= i < |txs| ==> txs[i].amount >= 0.0 {
      forall i | 0 <= i < |unlisted|
        ensures unlisted[i].amount >= 0.0
      {
        assert unlisted[i] in txs;
      }
      SumNonNegative(unlisted);
    }
  }

  // The summary's budget column against `totalBudget`

  /** The budget column, added up. */
  function SumBudgetColumn(s: seq<CategorySummary>): real
  {
    if s == [] then 0.0 else SumBudgetColumn(s[..|s| - 1]) + s[|s| - 1].budget
  }

  /** The budget amounts found for the categories `cs`. */
  function BudgetTotal(cs: seq<string>, monthBudgets: seq<Budget>): real
  {
    if cs == [] then 0.0 else BudgetTotal(cs[..|cs| - 1], monthBudgets) + BudgetAmount(monthBudgets, cs[|cs| - 1])
  }

  /** No category has two budgets among `bs`. */
  predicate UniqueCategories(bs: seq<Budget>)
  {
    forall i, j :: 0 <= i < j < |bs| ==> bs[i].category != bs[j].category
  }

  lemma {:induction false} SummariesBudget(cs: seq<string>, monthBudgets: seq<Budget>, spending: seq<Group>)
    ensures SumBudgetColumn(Summaries(cs, monthBudgets, spending)) == BudgetTotal(cs, monthBudgets)
  {
    if cs != [] {
      var s := Summaries(cs, monthBudgets, spending);
      assert s[..|s| - 1] == Summaries(cs[..|cs| - 1], monthBudgets, spending);
      SummariesBudget(cs[..|cs| - 1], monthBudgets, spending);
    }
  }

  /** A budget for a category not yet present is found for that category
      only. */
  lemma BudgetAmountSnoc(bs: seq<Budget>, b: Budget, c: string)
    requires forall k :: 0 <= k < |bs| ==> bs[k].category != b.category
    ensures BudgetAmount(bs + [b], c) == BudgetAmount(bs, c) + (if b.category == c then b.amount else 0.0)
  {
    FindIndexSnoc(BudgetOf(c), bs, b);
    if b.category == c {
      assert FindIndex(BudgetOf(c), bs) == -1 by {
        assert forall k :: 0 <= k < |bs| ==> !BudgetOf(c)(bs[k]);
      }
    }
  }

  lemma {:induction false} BudgetTotalSnoc(cs: seq<string>, bs: seq<Budget>, b: Budget)
    requires Distinct(cs)
    requires forall k :: 0 <= k < |bs| ==> bs[k].category != b.category
    ensures BudgetTotal(cs, bs + [b]) == BudgetTotal(cs, bs) + (if b.category in cs then b.amount else 0.0)
  {
    if cs != [] {
      var init, c := cs[..|cs| - 1], cs[|cs| - 1];
      assert cs == init + [c];
      BudgetTotalSnoc(init, bs, b);
      BudgetAmountSnoc(bs, b, c);
      if b.category == c {
        assert b.category !in init;
      }
    }
  }

  lemma {:induction false} BudgetTotalEmpty(cs: seq<string>)
    ensures BudgetTotal(cs, []) == 0.0
  {
    if cs != [] {
      BudgetTotalEmpty(cs[..|cs| - 1]);
    }
  }

  /** When the budgets have distinct categories, all among the distinct
      `cs`, the amounts found per category add up to all the budgets. */
  lemma {:induction false} BudgetTotalIsAll(cs: seq<string>, bs: seq<Budget>)
    requires Distinct(cs) && UniqueCategories(bs)
    requires forall k :: 0 <= k < |bs| ==> bs[k].category in cs
    ensures BudgetTotal(cs, bs) == SumBudgets(bs)
  {
    if bs == [] {
      BudgetTotalEmpty(cs);
    } else {
      var init, b := bs[..|bs| - 1], bs[|bs| - 1];
      assert bs == init + [b];
      BudgetTotalIsAll(cs, init);
      BudgetTotalSnoc(cs, init, b);
    }
  }

  /** One month's budgets of a store with unique keys have distinct categories. */
  lemma {:induction false} MonthBudgetsUnique(bs: seq<Budget>, m: string)
    requires KeysUnique(bs)
    ensures UniqueCategories(Filter(OfMonth(m), bs))
  {
    if bs != [] {
      var init, b := bs[..|bs| - 1], bs[|bs| - 1];
      assert bs == init + [b];
      assert KeysUnique(init);
      MonthBudgetsUnique(init, m);
      FilterSnoc(OfMonth(m), init, b);
      var f := Filter(OfMonth(m), init);
      if b.month == m {
        forall k | 0 <= k < |f|
          ensures f[k].category != b.category
        {
          assert f[k] in init;
          var j :| 0 <= j < |init| && init[j] == f[k];
          assert bs[j] == f[k];
        }
      }
    }
  }

  /** `totalBudget` adds up every budget of the month. When the store keeps
      one budget per category and month, all for listed categories, that is
      the summary's budget column. */
  lemma TotalBudgetIsColumn(m: string, budgets: seq<Budget>, txs: seq<Transaction>)
    requires KeysUnique(budgets)
    requires forall j :: 0 <= j < |budgets| && budgets[j].month == m ==> budgets[j].category in Categories
    ensures MonthReport(m, budgets, txs).totalBudget == SumBudgetColumn(MonthReport(m, budgets, txs).categorySummary)
  {
    var monthBudgets := Filter(OfMonth(m), budgets);
    CategoriesShape();
    MonthBudgetsUnique(budgets, m);
    SummariesBudget(Categories, monthBudgets, GroupByCategory(InMonth(txs, m)));
    forall k | 0 <= k < |monthBudgets|
      ensures monthBudgets[k].category in Categories
    {
      assert monthBudgets[k] in budgets;
    }
    BudgetTotalIsAll(Categories, monthBudgets);
  }

  // The recent list

  /** The recent list holds at most ten transactions, newest first: it is
      the start of the month's newest-first list. */
  lemma RecentList(m: string, budgets: seq<Budget>, txs: seq<Transaction>)
    ensures var recent := MonthReport(m, budgets, txs).recentTransactions;
            |recent| <= 10 && DateDescending(recent) && recent <= SortByDateDesc(InMonth(txs, m))
  {
    SortSorted(InMonth(txs, m));
  }

  /** Each listed transaction is one of the month's, listed at most as often
      as the month has it; with ten or fewer the list is the whole month. */
  lemma RecentFromMonth(m: string, budgets: seq<Budget>, txs: seq<Transaction>)
    ensures multiset(MonthReport(m, budgets, txs).recentTransactions) <= multiset(InMonth(txs, m))
    ensures |InMonth(txs, m)| <= 10 ==>
              multiset(MonthReport(m, budgets, txs).recentTransactions) == multiset(InMonth(txs, m))
  {
    SortPermutes(InMonth(txs, m));
    TakeMultiset(SortByDateDesc(InMonth(txs, m)), 10);
  }

  /** Every listed transaction lies in the month's range. */
  lemma RecentInRange(m: string, budgets: seq<Budget>, txs: seq<Transaction>, i: int)
    requires 0 <= i < |MonthReport(m, budgets, txs).recentTransactions|
    ensures Contains(MonthDateRange(m), MonthReport(m, budgets, txs).recentTransactions[i].date)
  {
    var inMonth := InMonth(txs, m);
    var recent := Recent(inMonth);
    RecentFromMonth(m, budgets, txs);
    assert recent[i] in multiset(recent);
    assert recent[i] in inMonth;
  }

  /** What is cut from the recent list is no newer than the oldest listed
      transaction. */
  lemma RecentIsNewest(m: string, budgets: seq<Budget>, txs: seq<Transaction>, i: int)
    requires 10 <= i < |InMonth(txs, m)|
    ensures var recent := MonthReport(m, budgets, txs).recentTransactions;
            |recent| == 10 && SortByDateDesc(InMonth(txs, m))[i].date <= recent[9].date
  {
    SortSorted(InMonth(txs, m));
  }

  /** A month without transactions or budgets: twelve lines of nothing,
      all 'safe', zero totals and no recent transactions. */
  lemma EmptyMonth(m: string, budgets: seq<Budget>, txs: seq<Transaction>, i: int)
    requires forall j :: 0 <= j < |txs| ==> !Contains(MonthDateRange(m), txs[j].date)
    requires forall j :: 0 <= j < |budgets| ==> budgets[j].month != m
    requires 0 <= i < |Categories|
    ensures var r := MonthReport(m, budgets, txs);
            r.categorySummary[i] == CategorySummary(Categories[i], 0.0, 0.0, 0.0, Safe) &&
            r.totalSpent == 0.0 && r.totalBudget == 0.0 && r.recentTransactions == []
  {
    FilterNone(InRange(MonthDateRange(m)), txs);
    FilterNone(OfMonth(m), budgets);
  }

  lemma GroupSnoc(s: seq<Transaction>, t: Transaction)
    ensures GroupByCategory(s + [t]) == AddTo(GroupByCategory(s), t)
  {
    assert (s + [t])[..|s|] == s;
  }

  /** The three transactions of `ExampleMonth` form two groups. */
  lemma ExampleGroups(a: Transaction, b: Transaction, c: Transaction)
    requires a.category == "Food" && b.category == "Food" && c.category == "Transportation"
    requires a.amount == 500.0 && b.amount == 300.0 && c.amount == 200.0
    ensures GroupByCategory([a, b, c]) == [Group("Food", 800.0), Group("Transportation", 200.0)]
  {
    assert [a] == [] + [a] && [a, b] == [a] + [b] && [a, b, c] == [a, b] + [c];
    var food, both := Group("Food", 800.0), [Group("Food", 800.0), Group("Transportation", 200.0)];
    assert GroupByCategory([a]) == [Group("Food", 500.0)] by {
      GroupSnoc([], a);
    }
    assert GroupByCategory([a, b]) == [food] by {
      GroupSnoc([a], b);
      assert FindIndex(GroupOf("Food"), [Group("Food", 500.0)]) == 0;
    }
    GroupSnoc([a, b], c);
    assert FindIndex(GroupOf("Transportation"), [food]) == -1 by {
      assert |"Food"| != |"Transportation"|;
      assert !GroupOf("Transportation")(food);
    }
    assert AddTo([food], c) == [food] + [Group("Transportation", 200.0)];
  }

  /** The report of a month whose budgets and groups are known. */
  lemma ReportOf(m: string, budgets: seq<Budget>, txs: seq<Transaction>,
                 monthBudgets: seq<Budget>, spending: seq<Group>)
    requires Filter(OfMonth(m), budgets) == monthBudgets
    requires GroupByCategory(InMonth(txs, m)) == spending
    ensures var r := MonthReport(m, budgets, txs);
            r.categorySummary[0] == Summarize(Categories[0], monthBudgets, spending) &&
            r.categorySummary[1] == Summarize(Categories[1], monthBudgets, spending) &&
            r.totalSpent == SumGroups(spending) && r.totalBudget == SumBudgets(monthBudgets)
  {
  }

  /** The lines of Food and Transportation in the example below. */
  lemma ExampleLinesOf(budget: Budget, spending: seq<Group>)
    requires budget.category == "Food" && budget.amount == 1000.0
    requires spending == [Group("Food", 800.0), Group("Transportation", 200.0)]
    ensures Summarize("Food", [budget], spending) == CategorySummary("Food", 800.0, 1000.0, 80.0, Warning)
    ensures Summarize("Transportation", [budget], spending) == CategorySummary("Transportation", 200.0, 0.0, 0.0, Over)
    ensures SumGroups(spending) == 1000.0 && SumBudgets([budget]) == 1000.0
  {
    assert |"Food"| != |"Transportation"|;
    assert GroupSpent(spending, "Food") == 800.0 by {
      assert FindIndex(GroupOf("Food"), spending) == 0;
    }
    assert BudgetAmount([budget], "Food") == 1000.0 by {
      assert FindIndex(BudgetOf("Food"), [budget]) == 0;
    }
    assert GroupSpent(spending, "Transportation") == 200.0 by {
      assert !GroupOf("Transportation")(spending[0]);
      assert FindIndex(GroupOf("Transportation"), spending) == 1;
    }
    assert BudgetAmount([budget], "Transportation") == 0.0 by {
      assert !BudgetOf("Transportation")(budget);
    }
    assert Percentage(800.0, 1000.0) == 80.0;
    assert SumGroups(spending) == 1000.0 by {
      assert spending == [Group("Food", 800.0)] + [Group("Transportation", 200.0)];
      SumGroupsSnoc([Group("Food", 800.0)], Group("Transportation", 200.0));
      SumGroupsSnoc([], Group("Food", 800.0));
      assert [Group("Food", 800.0)] == [] + [Group("Food", 800.0)];
    }
    assert SumBudgets([budget]) == 1000.0 by {
      assert [budget][..0] == [];
    }
  }

  /** A month of three transactions, Food 500 and 300 and Transportation
      200, with a Food budget of 1000: Food is a warning at 80%, and
      Transportation, without a budget, is 'over' at 0%; both totals are
      1000. */
  lemma ExampleMonth(m: string, d: int)
    requires Contains(MonthDateRange(m), d)
    ensures var txs := [Transaction(None, 500.0, "", "Food", d, None),
                        Transaction(None, 300.0, "", "Food", d, None),
                        Transaction(None, 200.0, "", "Transportation", d, None)];
            var budgets := [Budget(None, "Food", 1000.0, m, None, None)];
            var r := MonthReport(m, budgets, txs);
            r.categorySummary[0] == CategorySummary("Food", 800.0, 1000.0, 80.0, Warning) &&
            r.categorySummary[1] == CategorySummary("Transportation", 200.0, 0.0, 0.0, Over) &&
            r.totalSpent == 1000.0 && r.totalBudget == 1000.0
  {
    var a := Transaction(None, 500.0, "", "Food", d, None);
    var b := Transaction(None, 300.0, "", "Food", d, None);
    var c := Transaction(None, 200.0, "", "Transportation", d, None);
    var budget := Budget(None, "Food", 1000.0, m, None, None);
    var spending := [Group("Food", 800.0), Group("Transportation", 200.0)];
    var inRange := InRange(MonthDateRange(m));
    assert inRange(a) && inRange(b) && inRange(c);
    FilterAll(inRange, [a, b, c]);
    FilterAll(OfMonth(m), [budget]);
    ExampleGroups(a, b, c);
    ReportOf(m, [budget], [a, b, c], [budget], spending);
    CategoriesShape();
    ExampleLinesOf(budget, spending);
  }
}
