/** src/app/api/transactions-file/route.ts: the file-backed transaction
    list. `GET` keeps the transactions of the requested month, if one is
    given, and sorts them newest first in place; `POST` stores a new record
    through the store's `addTransaction`. */
module TransactionsFileRoute {
  import opened Seqs
  import opened Types
  import opened Dates
  import opened MonthKeys
  import opened Utils
  import opened Ordering
  import opened FileStorage

  /** `if (month)`: without a month (absent or empty, both falsy) every
      stored transaction is kept; otherwise those whose date lies within
      `startOfMonth`/`endOfMonth` of `new Date(year, monthNum - 1)`, both
      bounds inclusive. */
  function MonthFiltered(stored: seq<Transaction>, month: Option<string>): seq<Transaction>
  {
    if month.None? || month.value == "" then stored
    else Filter(InRange(MonthDateRange(month.value)), stored)
  }

  /** `GET`: the filtered list, copied into an array and sorted in place. */
  method Get(stored: seq<Transaction>, month: Option<string>) returns (r: seq<Transaction>)
    ensures r == SortByDateDesc(MonthFiltered(stored, month))
  {
    var filtered := MonthFiltered(stored, month);
    var a := new Transaction[|filtered|](i requires 0 <= i < |filtered| => filtered[i]);
    assert a[..] == filtered;
    SortInPlace(a);
    r := a[..];
  }

  /** Without a month the answer is every stored transaction, newest first. */
  lemma GetAll(stored: seq<Transaction>, month: Option<string>)
    requires month.None? || month.value == ""
    ensures DateDescending(SortByDateDesc(MonthFiltered(stored, month)))
    ensures multiset(SortByDateDesc(MonthFiltered(stored, month))) == multiset(stored)
  {
    SortSorted(stored);
    SortPermutes(stored);
  }

  /** With a month the answer is newest first and holds each stored
      transaction of the month's range exactly as often as the store does,
      and no other. */
  lemma GetMonth(stored: seq<Transaction>, m: string, t: Transaction)
    requires m != ""
    ensures DateDescending(SortByDateDesc(MonthFiltered(stored, Some(m))))
    ensures multiset(SortByDateDesc(MonthFiltered(stored, Some(m))))[t] ==
              if Contains(MonthDateRange(m), t.date) then multiset(stored)[t] else 0
  {
    var filtered := MonthFiltered(stored, Some(m));
    SortSorted(filtered);
    SortPermutes(filtered);
    FilterMultiset(InRange(MonthDateRange(m)), stored, t);
  }

  /** For the key of month `month` of `year`, the filter keeps exactly the
      dates from day 1 of that month at midnight up to, not including, day 1
      of the next month. */
  lemma GetMonthKey(year: nat, month: nat, t: Transaction)
    requires 100 <= year < 10000 && 1 <= month <= 12
    ensures InRange(MonthDateRange(FormatMonthKey(year, month)))(t) <==>
              MakeDate(MakeDay(year, month - 1, 1), 0) <= t.date < MakeDate(MakeDay(year, month, 1), 0)
  {
    MonthKeyRoundTrip(year, month);
    MonthRangeOfYear(year, month);
    MonthRangeIsMonth(year, month, t.date);
  }

  /** `POST`: the stored record and the 201 status with its id. */
  datatype Created = Created(status: int, id: Option<string>)

  method Post(store: Store, amount: real, description: string, category: string, date: int,
              freshId: string, now: int)
    returns (r: Created)
    modifies store
    ensures r == Created(201, Some(freshId))
    ensures store.transactions ==
              old(store.transactions) + [Transaction(Some(freshId), amount, description, category, date, Some(now))]
    ensures store.budgets == old(store.budgets)
  {
    var t := Transaction(None, amount, description, category, date, None);
    var result := store.AddTransaction(t, freshId, now);
    r := Created(201, result.id);
  }
}
