/** The records shared by the store, the API routes and the dashboard
    components, and the fixed list of spending categories. */
module Types {
  import opened Seqs

  /** Budget status of one category: the three string literals
      'over' | 'warning' | 'safe' of the source, as an enumeration. */
  datatype Status = Over | Warning | Safe

  /** A spending record. `id` and `createdAt` are optional: a record built
      by a route has neither until the store assigns them. `date` is an
      instant in milliseconds of naive local time. */
  datatype Transaction = Transaction(
    id: Option<string>,
    amount: real,
    description: string,
    category: string,
    date: int,
    createdAt: Option<int>)

  /** A monthly budget for one category; `month` is meant to be a
      `YYYY-MM` key (see `MonthKeys.IsMonthKey`), which nothing enforces. */
  datatype Budget = Budget(
    id: Option<string>,
    category: string,
    amount: real,
    month: string,
    createdAt: Option<int>,
    updatedAt: Option<int>)

  /** The derived per-category line of the monthly analytics. */
  datatype CategorySummary = CategorySummary(
    category: string,
    spent: real,
    budget: real,
    percentage: real,
    status: Status)

  /** `item.budget > 0`: the lines the chart and the detail cards show. */
  function Budgeted(item: CategorySummary): bool
  {
    item.budget > 0.0
  }

  /** The spending categories in declaration order; every per-category
      list the application builds follows this order. */
  const Categories: seq<string> := [
    "Food",
    "Transportation",
    "Entertainment",
    "Shopping",
    "Bills",
    "Healthcare",
    "Education",
    "Travel",
    "Rent",
    "Groceries",
    "Utilities",
    "Other"
  ]

  /** No category name occurs twice. */
  predicate Distinct(s: seq<string>)
  {
    forall i, j :: 0 <= i < j < |s| ==> s[i] != s[j]
  }

  lemma CategoriesShape()
    ensures |Categories| == 12
    ensures Distinct(Categories)
    ensures Categories[0] == "Food" && Categories[1] == "Transportation" && Categories[11] == "Other"
  {
  }
}
