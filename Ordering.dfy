/** Newest-first ordering of transactions. Both transaction routes order
    by date descending: the file route with `Array.prototype.sort` and the
    comparator `b.date - a.date`, which is stable, the database route with
    `.sort({ date: -1 })`. `SortByDateDesc` is the stable order: it is the
    insertion of each transaction, left to right, behind every earlier one
    that is not older. */
module Ordering {
  import opened Seqs
  import opened Types

  /** Newest first: no transaction is followed by a newer one. */
  predicate DateDescending(s: seq<Transaction>)
  {
    forall i, j :: 0 <= i < j < |s| ==> s[i].date >= s[j].date
  }

  /** Insert `x` into `s`, moving it in from the right past every
      transaction strictly older than it. */
  function Insert(s: seq<Transaction>, x: Transaction): (r: seq<Transaction>)
    ensures |r| == |s| + 1
  {
    if s == [] || s[|s| - 1].date >= x.date then s + [x]
    else Insert(s[..|s| - 1], x) + [s[|s| - 1]]
  }

  lemma {:induction false} InsertPermutes(s: seq<Transaction>, x: Transaction)
    ensures multiset(Insert(s, x)) == multiset(s) + multiset{x}
  {
    if s != [] && s[|s| - 1].date < x.date {
      InsertPermutes(s[..|s| - 1], x);
      assert s == s[..|s| - 1] + [s[|s| - 1]];
    }
  }

  /** The stable date-descending sort of `s`. */
  function SortByDateDesc(s: seq<Transaction>): (r: seq<Transaction>)
    ensures |r| == |s|
  {
    if s == [] then [] else Insert(SortByDateDesc(s[..|s| - 1]), s[|s| - 1])
  }

  /** Every element of `Insert(s, x)` is `x` or an element of `s`, so a
      lower bound on their dates carries over. */
  lemma {:induction false} InsertLowerBound(s: seq<Transaction>, x: Transaction, d: int)
    requires forall i :: 0 <= i < |s| ==> s[i].date >= d
    requires x.date >= d
    ensures forall i :: 0 <= i < |Insert(s, x)| ==> Insert(s, x)[i].date >= d
  {
    if s != [] && s[|s| - 1].date < x.date {
      InsertLowerBound(s[..|s| - 1], x, d);
    }
  }

  lemma {:induction false} InsertSorted(s: seq<Transaction>, x: Transaction)
    requires DateDescending(s)
    ensures DateDescending(Insert(s, x))
  {
    if s != [] && s[|s| - 1].date < x.date {
      var init, last := s[..|s| - 1], s[|s| - 1];
      InsertSorted(init, x);
      InsertLowerBound(init, x, last.date);
    }
  }

  /** The sort orders newest first. */
  lemma {:induction false} SortSorted(s: seq<Transaction>)
    ensures DateDescending(SortByDateDesc(s))
  {
    if s != [] {
      SortSorted(s[..|s| - 1]);
      InsertSorted(SortByDateDesc(s[..|s| - 1]), s[|s| - 1]);
    }
  }

  /** The sort neither adds nor drops a transaction. */
  lemma {:induction false} SortPermutes(s: seq<Transaction>)
    ensures multiset(SortByDateDesc(s)) == multiset(s)
  {
    if s != [] {
      SortPermutes(s[..|s| - 1]);
      InsertPermutes(SortByDateDesc(s[..|s| - 1]), s[|s| - 1]);
      assert s == s[..|s| - 1] + [s[|s| - 1]];
    }
  }

  /** The transactions of one date. */
  function OnDate(d: int): Transaction -> bool
  {
    (t: Transaction) => t.date == d
  }

  /** Inserting moves `x` only past strictly older transactions. */
  lemma InsertStep(s: seq<Transaction>, x: Transaction)
    requires s != [] && s[|s| - 1].date < x.date
    ensures Insert(s, x) == Insert(s[..|s| - 1], x) + [s[|s| - 1]]
  {
  }

  lemma {:induction false} InsertKeepsTies(s: seq<Transaction>, x: Transaction, d: int)
    ensures Filter(OnDate(d), Insert(s, x)) == Filter(OnDate(d), s + [x])
  {
    if s != [] && s[|s| - 1].date < x.date {
      var p := OnDate(d);
      var init, last := s[..|s| - 1], s[|s| - 1];
      assert s == init + [last];
      InsertStep(s, x);
      InsertKeepsTies(init, x, d);
      FilterSnoc(p, Insert(init, x), last);
      FilterSnoc(p, init, x);
      FilterSnoc(p, init, last);
      FilterSnoc(p, s, x);
      // `last` is strictly older than `x`, so at most one of them is on date `d`
      if x.date == d {
        assert Filter(p, s + [x]) == Filter(p, init) + [x];
      } else {
        assert Filter(p, s + [x]) == Filter(p, init) + Filter(p, [last]);
      }
    }
  }

  /** Stability: transactions of equal date keep their relative order. */
  lemma {:induction false} SortStable(s: seq<Transaction>, d: int)
    ensures Filter(OnDate(d), SortByDateDesc(s)) == Filter(OnDate(d), s)
  {
    if s != [] {
      var init, last := s[..|s| - 1], s[|s| - 1];
      SortStable(init, d);
      InsertKeepsTies(SortByDateDesc(init), last, d);
      FilterAppend(OnDate(d), SortByDateDesc(init), [last]);
      FilterAppend(OnDate(d), init, [last]);
      assert s == init + [last];
    }
  }

  /** Insertion sort in place, as `transactions.sort(...)` does on the
      route's local array; the result is the stable order. */
  method SortInPlace(a: array<Transaction>)
    modifies a
    ensures a[..] == SortByDateDesc(old(a[..]))
  {
    ghost var orig := a[..];
    var i := 0;
    while i < a.Length
      invariant 0 <= i <= a.Length
      invariant a[..i] == SortByDateDesc(orig[..i])
      invariant a[i..] == orig[i..]
    {
      assert a[i] == orig[i] && a[i + 1..] == orig[i + 1..] by {
        assert a[i..][0] == a[i] && orig[i..][0] == orig[i];
        assert a[i..][1..] == a[i + 1..] && orig[i..][1..] == orig[i + 1..];
      }
      InsertAt(a, i);
      assert orig[..i + 1][..i] == orig[..i];
      i := i + 1;
    }
    assert a[..] == a[..a.Length];
    assert orig == orig[..a.Length];
  }

  /** One step of the insertion sort: `a[i]` moves left past the older
      transactions of the prefix `a[..i]`, which shift one place right. */
  method InsertAt(a: array<Transaction>, i: int)
    requires 0 <= i < a.Length
    modifies a
    ensures a[..i + 1] == Insert(old(a[..i]), old(a[i]))
    ensures a[i + 1..] == old(a[i + 1..])
  {
    ghost var sorted := a[..i];
    ghost var rest := a[i + 1..];
    var x := a[i];
    var j := i;
    while j > 0 && a[j - 1].date < x.date
      invariant 0 <= j <= i
      invariant a[..j] == sorted[..j]
      invariant a[i + 1..] == rest
      invariant Insert(sorted, x) == Insert(sorted[..j], x) + a[j + 1..i + 1]
    {
      ghost var before := a[..];
      a[j] := a[j - 1];
      ShiftStep(sorted, rest, x, i, j, before, a[..]);
      j := j - 1;
    }
    ghost var before := a[..];
    a[j] := x;
    PlaceStep(sorted, rest, x, i, j, before, a[..]);
  }

  /** The loop step of `InsertAt`, on the array's contents before and after
      `a[j] := a[j - 1]`. */
  lemma ShiftStep(sorted: seq<Transaction>, rest: seq<Transaction>, x: Transaction, i: int, j: int,
                  before: seq<Transaction>, after: seq<Transaction>)
    requires 0 < j <= i < |before| && |sorted| == i
    requires before[..j] == sorted[..j] && before[i + 1..] == rest
    requires Insert(sorted, x) == Insert(sorted[..j], x) + before[j + 1..i + 1]
    requires before[j - 1].date < x.date
    requires after == before[j := before[j - 1]]
    ensures after[..j - 1] == sorted[..j - 1] && after[i + 1..] == rest
    ensures Insert(sorted, x) == Insert(sorted[..j - 1], x) + after[j..i + 1]
  {
    assert sorted[..j][j - 1] == before[j - 1];
    assert sorted[..j][..j - 1] == sorted[..j - 1];
    InsertStep(sorted[..j], x);
    assert after[j..i + 1] == [before[j - 1]] + before[j + 1..i + 1];
    assert after[..j - 1] == before[..j - 1];
    assert after[i + 1..] == before[i + 1..];
  }

  /** The last step of `InsertAt`: `x` lands where the loop stopped. */
  lemma PlaceStep(sorted: seq<Transaction>, rest: seq<Transaction>, x: Transaction, i: int, j: int,
                  before: seq<Transaction>, after: seq<Transaction>)
    requires 0 <= j <= i < |before| && |sorted| == i
    requires before[..j] == sorted[..j] && before[i + 1..] == rest
    requires Insert(sorted, x) == Insert(sorted[..j], x) + before[j + 1..i + 1]
    requires j == 0 || before[j - 1].date >= x.date
    requires after == before[j := x]
    ensures after[..i + 1] == Insert(sorted, x) && after[i + 1..] == rest
  {
    assert Insert(sorted[..j], x) == sorted[..j] + [x];
    assert after[..i + 1] == after[..j] + [x] + after[j + 1..i + 1];
    assert after[i + 1..] == before[i + 1..];
  }
}
