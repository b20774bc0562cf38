/** src/app/api/transactions/route.ts: the database-backed transaction
    list. `GET` builds a date query from the month key, if one is given,
    and asks for the matching transactions newest first; `POST` builds a
    record with a fresh `createdAt` and answers 201. The database itself
    is not part of this model: a collection is a sequence, `find` is a
    filter and `.sort({ date: -1 })` is `SortByDateDesc`, one of the orders
    the database may return (it leaves ties open). */
module TransactionsRoute {
  import opened Seqs
  import opened Types
  import opened Dates
  import opened MonthKeys
  import opened Utils
  import opened Ordering

  /** The query document: `{}` or `{ date: { $gte: start, $lte: end } }`. */
  datatype Query = MatchAll | DateBetween(start: Option<int>, end: Option<int>)

  /** The query for a `month` parameter: day 1 of the month at midnight,
      `new Date(year, monthNum - 1, 1)`, to day 0 of the next month at
      23:59:59, `new Date(year, monthNum, 0, 23, 59, 59)`. A key that does
      not parse gives Invalid Dates. */
  function QueryFor(month: Option<string>): Query
  {
    if month.None? || month.value == "" then MatchAll
    else
      var key := ParseMonthKey(month.value);
      if key.None? then DateBetween(None, None)
      else QueryOfKey(key.value.0, key.value.1)
  }

  function QueryOfKey(year: int, monthNum: int): Query
  {
    DateBetween(NewDate(year, monthNum - 1, 1, 0, 0, 0, 0), NewDate(year, monthNum, 0, 23, 59, 59, 0))
  }

  /** Whether a stored transaction matches; nothing compares as within an
      Invalid Date bound. */
  function Matches(q: Query): Transaction -> bool
  {
    (t: Transaction) =>
      match q
      case MatchAll => true
      case DateBetween(start, end) => start.Some? && end.Some? && start.value <= t.date <= end.value
  }

  /** `GET`: the matching transactions, newest first. */
  function Get(stored: seq<Transaction>, month: Option<string>): seq<Transaction>
  {
    SortByDateDesc(Filter(Matches(QueryFor(month)), stored))
  }

  /** Without a month every stored transaction is answered, newest first. */
  lemma GetAll(stored: seq<Transaction>, month: Option<string>)
    requires month.None? || month.value == ""
    ensures DateDescending(Get(stored, month))
    ensures multiset(Get(stored, month)) == multiset(stored)
  {
    FilterAll(Matches(MatchAll), stored);
    SortSorted(stored);
    SortPermutes(stored);
  }

  /** With a month the answer is newest first and holds each matching
      transaction exactly as often as the collection does. */
  lemma GetMatching(stored: seq<Transaction>, month: Option<string>, t: Transaction)
    ensures DateDescending(Get(stored, month))
    ensures multiset(Get(stored, month))[t] ==
              if Matches(QueryFor(month))(t) then multiset(stored)[t] else 0
  {
    var filtered := Filter(Matches(QueryFor(month)), stored);
    SortSorted(filtered);
    SortPermutes(filtered);
    FilterMultiset(Matches(QueryFor(month)), stored, t);
  }

  /** For the key of month `month` of a year from 100 to 9999 the bounds are
      day 1 at 00:00:00.000 and the last day of the month (31, 30, 28 or, in
      a Gregorian leap year, 29) at 23:59:59.000. */
  lemma QueryForKey(year: nat, month: nat)
    requires 100 <= year < 10000 && 1 <= month <= 12
    ensures QueryFor(Some(FormatMonthKey(year, month))) ==
              DateBetween(Some(MakeDate(MakeDay(year, month - 1, 1), 0)),
                          Some(MakeDate(MakeDay(year, month - 1, DaysInMonth(year, month - 1)), 86399000)))
  {
    MonthKeyRoundTrip(year, month);
    QueryForParsed(FormatMonthKey(year, month));
    KeyBounds(year, month);
  }

  /** A key that parses is queried by the month it names. */
  lemma QueryForParsed(m: string)
    requires m != "" && ParseMonthKey(m).Some?
    ensures QueryFor(Some(m)) == QueryOfKey(ParseMonthKey(m).value.0, ParseMonthKey(m).value.1)
  {
  }

  lemma KeyBounds(year: int, month: int)
    requires 100 <= year < 10000 && 1 <= month <= 12
    ensures QueryOfKey(year, month) ==
              DateBetween(Some(MakeDate(MakeDay(year, month - 1, 1), 0)),
                          Some(MakeDate(MakeDay(year, month - 1, DaysInMonth(year, month - 1)), 86399000)))
  {
    var m := month - 1;
    assert QueryOfKey(year, month).start == Some(MakeDate(MakeDay(year, m, 1), 0)) by {
      QueryStartsWithRange(year, month);
      MonthRangeOfYear(year, month);
    }
    assert QueryOfKey(year, month).end == Some(MakeDate(MakeDay(year, m, DaysInMonth(year, m)), 86399000)) by {
      QueryEnd(year, month);
      NewDateLastDay(year, m);
      DaysInMonthBounds(year, m);
      ValidDay(year, m, DaysInMonth(year, m), 86399000);
    }
  }

  lemma QueryStart(year: int, monthNum: int)
    ensures QueryOfKey(year, monthNum).start == NewDate(year, monthNum - 1, 1, 0, 0, 0, 0)
  {
  }

  lemma QueryEnd(year: int, monthNum: int)
    ensures QueryOfKey(year, monthNum).end == NewDate(year, monthNum, 0, 23, 59, 59, 0)
  {
  }

  /** February has 29 days in 2024 and 2000 and 28 in 2023 and 1900. */
  lemma FebruaryEnds()
    ensures DaysInMonth(2024, 1) == 29 && DaysInMonth(2000, 1) == 29
    ensures DaysInMonth(2023, 1) == 28 && DaysInMonth(1900, 1) == 28
  {
  }

  /** The query starts where `getMonthDateRange` starts but ends 999 ms
      earlier (23:59:59.000 against date-fns' 23:59:59.999), so a
      transaction in the last second's fraction of the month is in the
      analytics range and not in this list. */
  lemma QueryStartsWithRange(year: int, monthNum: int)
    ensures QueryOfKey(year, monthNum).start == MonthRangeOf(year, monthNum).start
  {
    QueryStart(year, monthNum);
    MonthRangeStart(year, monthNum);
  }

  lemma QueryEndsBeforeRange(year: int, monthNum: int)
    ensures QueryOfKey(year, monthNum).end.Some? && MonthRangeOf(year, monthNum).end.Some? ==>
              MonthRangeOf(year, monthNum).end.value == QueryOfKey(year, monthNum).end.value + 999
  {
    QueryEnd(year, monthNum);
    MonthRangeEnd(year, monthNum);
    DayZeroBeforeEndOfMonth(year, monthNum);
  }

  /** The same for the `month` parameter itself: both parse it alike. */
  lemma QueryMissesLastMilliseconds(m: string)
    requires m != ""
    requires QueryFor(Some(m)).DateBetween? && QueryFor(Some(m)).end.Some?
    requires MonthDateRange(m).end.Some?
    ensures QueryFor(Some(m)).start == MonthDateRange(m).start
    ensures MonthDateRange(m).end.value == QueryFor(Some(m)).end.value + 999
  {
    var key := ParseMonthKey(m);
    QueryForParsed(m);
    QueryStartsWithRange(key.value.0, key.value.1);
    QueryEndsBeforeRange(key.value.0, key.value.1);
  }

  /** The record `POST` builds: no `_id` yet, `createdAt` now. */
  function NewTransaction(amount: real, description: string, category: string, date: int, now: int): (t: Transaction)
    ensures t.id.None? && t.createdAt == Some(now)
    ensures t.amount == amount && t.description == description && t.category == category && t.date == date
  {
    Transaction(None, amount, description, category, date, Some(now))
  }

  /** The collection after `insertOne` and the answer: 201 with the id the
      database gave the new document. */
  datatype Inserted = Inserted(collection: seq<Transaction>, status: int, id: string)

  function Post(stored: seq<Transaction>, amount: real, description: string, category: string,
                date: int, now: int, insertedId: string): (r: Inserted)
    ensures r.status == 201 && r.id == insertedId
    ensures |r.collection| == |stored| + 1 && r.collection[..|stored|] == stored
    ensures r.collection[|stored|].id == Some(insertedId)
    ensures r.collection[|stored|].(id := None) == NewTransaction(amount, description, category, date, now)
  {
    var doc := NewTransaction(amount, description, category, date, now);
    Inserted(stored + [doc.(id := Some(insertedId))], 201, insertedId)
  }

  /** A posted transaction is listed for every month whose query its date
      matches, whatever else the collection holds. */
  lemma PostedIsListed(stored: seq<Transaction>, amount: real, description: string, category: string,
                       date: int, now: int, insertedId: string, month: Option<string>)
    requires Matches(QueryFor(month))(NewTransaction(amount, description, category, date, now))
    ensures var r := Post(stored, amount, description, category, date, now, insertedId);
            r.collection[|stored|] in Get(r.collection, month)
  {
    var r := Post(stored, amount, description, category, date, now, insertedId);
    GetMatching(r.collection, month, r.collection[|stored|]);
  }
}
