/** src/lib/fileStorage.ts: the JSON-file store. Each operation reads the
    whole array from its file, changes it and writes it back; the model
    keeps the two arrays as the fields of a `Store` and leaves the file I/O
    out. The ids (`Date.now().toString()`) and timestamps (`new Date()`)
    the operations create are parameters. */
module FileStorage {
  import opened Seqs
  import opened Types

  // ---------------------------------------------------------------------
  // Transactions

  /** `{ _id: freshId, ...t, createdAt: now }`: the spread keeps an `_id`
      the caller already gave, the timestamp is always new. */
  function Stamped(t: Transaction, freshId: string, now: int): (r: Transaction)
    ensures r.id.Some? && r.createdAt == Some(now)
    ensures r.id == if t.id.Some? then t.id else Some(freshId)
    ensures r.(id := t.id, createdAt := t.createdAt) == t
  {
    t.(id := if t.id.Some? then t.id else Some(freshId), createdAt := Some(now))
  }

  /** The keys an update body may carry; an absent key is `None`. */
  datatype TransactionPatch = TransactionPatch(
    id: Option<string>,
    amount: Option<real>,
    description: Option<string>,
    category: Option<string>,
    date: Option<int>,
    createdAt: Option<int>)

  /** `{ ...t, ...p }`: every key present in the patch wins. */
  function Patched(t: Transaction, p: TransactionPatch): Transaction
  {
    Transaction(
      if p.id.Some? then p.id else t.id,
      if p.amount.Some? then p.amount.value else t.amount,
      if p.description.Some? then p.description.value else t.description,
      if p.category.Some? then p.category.value else t.category,
      if p.date.Some? then p.date.value else t.date,
      if p.createdAt.Some? then p.createdAt else t.createdAt)
  }

  /** `{ ...p, ...q }`. */
  function Merge(p: TransactionPatch, q: TransactionPatch): TransactionPatch
  {
    TransactionPatch(
      if q.id.Some? then q.id else p.id,
      if q.amount.Some? then q.amount else p.amount,
      if q.description.Some? then q.description else p.description,
      if q.category.Some? then q.category else p.category,
      if q.date.Some? then q.date else p.date,
      if q.createdAt.Some? then q.createdAt else p.createdAt)
  }

  /** Two updates in a row are one update with the merged body, and an
      empty body changes nothing. */
  lemma PatchComposes(t: Transaction, p: TransactionPatch, q: TransactionPatch)
    ensures Patched(Patched(t, p), q) == Patched(t, Merge(p, q))
    ensures Patched(t, TransactionPatch(None, None, None, None, None, None)) == t
  {
  }

  function HasId(id: string): Transaction -> bool
  {
    (t: Transaction) => t.id == Some(id)
  }

  function LacksId(id: string): Transaction -> bool
  {
    (t: Transaction) => t.id != Some(id)
  }

  /** The list after `updateTransaction(id, p)`: the first record with the
      id is patched; without one the list is not written. */
  function Updated(ts: seq<Transaction>, id: string, p: TransactionPatch): seq<Transaction>
  {
    var i := FindIndex(HasId(id), ts);
    if i == -1 then ts else ts[i := Patched(ts[i], p)]
  }

  /** The list after `deleteTransaction(id)`. */
  function RemoveId(ts: seq<Transaction>, id: string): seq<Transaction>
  {
    Filter(LacksId(id), ts)
  }

  /** An update for an id no record has leaves the list as it was. */
  lemma UpdateAbsent(ts: seq<Transaction>, id: string, p: TransactionPatch)
    requires forall j :: 0 <= j < |ts| ==> ts[j].id != Some(id)
    ensures Updated(ts, id, p) == ts
  {
    assert FindIndex(HasId(id), ts) == -1;
  }

  /** An update changes the first record with the id, and only that one. */
  lemma UpdateFirstOnly(ts: seq<Transaction>, id: string, p: TransactionPatch, i: int)
    requires 0 <= i < |ts| && ts[i].id == Some(id)
    requires forall k :: 0 <= k < i ==> ts[k].id != Some(id)
    ensures |Updated(ts, id, p)| == |ts|
    ensures Updated(ts, id, p)[i] == Patched(ts[i], p)
    ensures forall j :: 0 <= j < |ts| && j != i ==> Updated(ts, id, p)[j] == ts[j]
  {
    var k := FindIndex(HasId(id), ts);
    assert HasId(id)(ts[i]);
  }

  /** After a delete no record has the id; every other record stays, as
      often as before. */
  lemma DeleteRemovesAll(ts: seq<Transaction>, id: string, t: Transaction)
    ensures forall j :: 0 <= j < |RemoveId(ts, id)| ==> RemoveId(ts, id)[j].id != Some(id)
    ensures multiset(RemoveId(ts, id))[t] == if t.id == Some(id) then 0 else multiset(ts)[t]
  {
    FilterMultiset(LacksId(id), ts, t);
  }

  /** Deleting an id no record has leaves the list as it was, so a second
      delete of the same id changes nothing. */
  lemma DeleteAbsent(ts: seq<Transaction>, id: string)
    requires forall j :: 0 <= j < |ts| ==> ts[j].id != Some(id)
    ensures RemoveId(ts, id) == ts
  {
    FilterAll(LacksId(id), ts);
  }

  lemma DeleteIdempotent(ts: seq<Transaction>, id: string)
    ensures RemoveId(RemoveId(ts, id), id) == RemoveId(ts, id)
  {
    DeleteAbsent(RemoveId(ts, id), id);
  }

  /** Deleting from a concatenation deletes from both parts, so the kept
      records stay in their original order. */
  lemma DeleteKeepsOrder(s: seq<Transaction>, t: seq<Transaction>, id: string)
    ensures RemoveId(s + t, id) == RemoveId(s, id) + RemoveId(t, id)
  {
    FilterAppend(LacksId(id), s, t);
  }

  // ---------------------------------------------------------------------
  // Budgets

  /** Budgets for the same category in the same month. */
  function SameKey(b: Budget): Budget -> bool
  {
    (x: Budget) => x.category == b.category && x.month == b.month
  }

  /** At most one budget per `(category, month)`; the database keeps the
      same rule as a `UNIQUE(category, month)` constraint. */
  predicate KeysUnique(bs: seq<Budget>)
  {
    forall i, j :: 0 <= i < j < |bs| ==> !(bs[i].category == bs[j].category && bs[i].month == bs[j].month)
  }

  /** The record `upsertBudget(b)` stores: `_id` and `createdAt` come from
      the existing record of the key, if any (an `_id` in `b` itself wins
      the spread), `updatedAt` is always new. The two `new Date()` reads
      are separate instants, `created` and `updated`. */
  function UpsertedRecord(bs: seq<Budget>, b: Budget, freshId: string, created: int, updated: int): (r: Budget)
    ensures r.category == b.category && r.month == b.month && r.amount == b.amount
    ensures r.updatedAt == Some(updated)
  {
    var i := FindIndex(SameKey(b), bs);
    Budget(
      if b.id.Some? then b.id else if i != -1 then bs[i].id else Some(freshId),
      b.category,
      b.amount,
      b.month,
      if i != -1 then bs[i].createdAt else Some(created),
      Some(updated))
  }

  /** The list after `upsertBudget(b)`: the first record of the key is
      replaced, or the new record is appended. */
  function Upserted(bs: seq<Budget>, b: Budget, freshId: string, created: int, updated: int): seq<Budget>
  {
    var i := FindIndex(SameKey(b), bs);
    var nb := UpsertedRecord(bs, b, freshId, created, updated);
    if i == -1 then bs + [nb] else bs[i := nb]
  }

  /** Upserting an existing key replaces its first record in place, keeping
      its `_id` and `createdAt`; the other records and the length stay. */
  lemma UpsertExisting(bs: seq<Budget>, b: Budget, freshId: string, created: int, updated: int, i: int)
    requires 0 <= i < |bs| && bs[i].category == b.category && bs[i].month == b.month
    requires forall k :: 0 <= k < i ==> !(bs[k].category == b.category && bs[k].month == b.month)
    requires b.id.None?
    ensures |Upserted(bs, b, freshId, created, updated)| == |bs|
    ensures Upserted(bs, b, freshId, created, updated)[i] ==
              Budget(bs[i].id, b.category, b.amount, b.month, bs[i].createdAt, Some(updated))
    ensures forall j :: 0 <= j < |bs| && j != i ==> Upserted(bs, b, freshId, created, updated)[j] == bs[j]
  {
    var k := FindIndex(SameKey(b), bs);
    assert SameKey(b)(bs[i]);
  }

  /** Upserting a new key appends one record with the fresh id and the
      two clock readings. */
  lemma UpsertNew(bs: seq<Budget>, b: Budget, freshId: string, created: int, updated: int)
    requires forall k :: 0 <= k < |bs| ==> !(bs[k].category == b.category && bs[k].month == b.month)
    requires b.id.None?
    ensures Upserted(bs, b, freshId, created, updated) ==
              bs + [Budget(Some(freshId), b.category, b.amount, b.month, Some(created), Some(updated))]
  {
    assert FindIndex(SameKey(b), bs) == -1;
  }

  /** The upsert keeps at most one budget per `(category, month)`. */
  lemma UpsertKeepsUnique(bs: seq<Budget>, b: Budget, freshId: string, created: int, updated: int)
    requires KeysUnique(bs)
    ensures KeysUnique(Upserted(bs, b, freshId, created, updated))
  {
    var i := FindIndex(SameKey(b), bs);
    var r := Upserted(bs, b, freshId, created, updated);
    if i == -1 {
      forall p, q | 0 <= p < q < |r|
        ensures !(r[p].category == r[q].category && r[p].month == r[q].month)
      {
        if q == |bs| {
          assert !SameKey(b)(bs[p]);
        }
      }
    } else {
      forall p, q | 0 <= p < q < |r|
        ensures !(r[p].category == r[q].category && r[p].month == r[q].month)
      {
        if p == i {
          assert SameKey(b)(bs[i]);
        } else if q == i {
          assert SameKey(b)(bs[i]);
        }
      }
    }
  }

  /** After an upsert its key has exactly one budget. */
  lemma UpsertKeyOnce(bs: seq<Budget>, b: Budget, freshId: string, created: int, updated: int)
    requires KeysUnique(bs)
    ensures |Filter(SameKey(b), Upserted(bs, b, freshId, created, updated))| == 1
  {
    var r := Upserted(bs, b, freshId, created, updated);
    UpsertKeepsUnique(bs, b, freshId, created, updated);
    var i := FindIndex(SameKey(b), bs);
    var at := if i == -1 then |bs| else i;
    UniqueKeyCount(r, b, at);
  }

  /** In a list with unique keys, a key that occurs occurs once. */
  lemma {:induction false} UniqueKeyCount(r: seq<Budget>, b: Budget, at: int)
    requires KeysUnique(r)
    requires 0 <= at < |r| && SameKey(b)(r[at])
    ensures |Filter(SameKey(b), r)| == 1
  {
    var init := r[..|r| - 1];
    if at == |r| - 1 {
      FilterNone(SameKey(b), init);
    } else {
      assert !SameKey(b)(r[|r| - 1]);
      UniqueKeyCount(init, b, at);
    }
  }

  /** Upserting one key twice grows the list by at most one record. */
  lemma UpsertTwice(bs: seq<Budget>, b1: Budget, b2: Budget, id1: string, id2: string, c1: int, u1: int, c2: int, u2: int)
    requires b1.category == b2.category && b1.month == b2.month
    ensures |Upserted(Upserted(bs, b1, id1, c1, u1), b2, id2, c2, u2)| <= |bs| + 1
  {
    var r1 := Upserted(bs, b1, id1, c1, u1);
    var i := FindIndex(SameKey(b1), bs);
    var at := if i == -1 then |bs| else i;
    assert SameKey(b2)(r1[at]);
    assert FindIndex(SameKey(b2), r1) != -1;
  }

  // ---------------------------------------------------------------------
  // The store

  /** The two stored arrays: `transactions.json` and `budgets.json`. */
  class Store {
    var transactions: seq<Transaction>
    var budgets: seq<Budget>

    constructor (transactions: seq<Transaction>, budgets: seq<Budget>)
      ensures this.transactions == transactions && this.budgets == budgets
    {
      this.transactions := transactions;
      this.budgets := budgets;
    }

    /** `addTransaction(t)`: push the stamped record and return it. */
    method AddTransaction(t: Transaction, freshId: string, now: int) returns (r: Transaction)
      modifies this
      ensures r == Stamped(t, freshId, now)
      ensures transactions == old(transactions) + [r]
      ensures budgets == old(budgets)
    {
      r := Stamped(t, freshId, now);
      transactions := transactions + [r];
    }

    /** `updateTransaction(id, p)`: the patched record, or `null` (`None`)
      when no record has the id. */
    method UpdateTransaction(id: string, p: TransactionPatch) returns (r: Option<Transaction>)
      modifies this
      ensures transactions == Updated(old(transactions), id, p)
      ensures r.None? <==> forall j :: 0 <= j < |old(transactions)| ==> old(transactions)[j].id != Some(id)
      ensures r.Some? ==> r.value == Patched(old(transactions)[FindIndex(HasId(id), old(transactions))], p)
      ensures r.Some? ==> r.value in transactions
      ensures budgets == old(budgets)
    {
      var index := FindIndex(HasId(id), transactions);
      if index != -1 {
        transactions := transactions[index := Patched(transactions[index], p)];
        r := Some(transactions[index]);
      } else {
        r := None;
      }
    }

    /** `deleteTransaction(id)`: keep the records without the id and return them. */
    method DeleteTransaction(id: string) returns (r: seq<Transaction>)
      modifies this
      ensures transactions == RemoveId(old(transactions), id)
      ensures r == transactions
      ensures budgets == old(budgets)
    {
      transactions := Filter(LacksId(id), transactions);
      r := transactions;
    }

    /** `upsertBudget(b)`: replace the first budget of the key or push a new
      one; return the stored record. */
    method UpsertBudget(b: Budget, freshId: string, created: int, updated: int) returns (r: Budget)
      modifies this
      ensures r == UpsertedRecord(old(budgets), b, freshId, created, updated)
      ensures budgets == Upserted(old(budgets), b, freshId, created, updated)
      ensures KeysUnique(old(budgets)) ==> KeysUnique(budgets)
      ensures transactions == old(transactions)
    {
      var existingIndex := FindIndex(SameKey(b), budgets);
      r := UpsertedRecord(budgets, b, freshId, created, updated);
      ghost var before := budgets;
      if existingIndex != -1 {
        budgets := budgets[existingIndex := r];
      } else {
        budgets := budgets + [r];
      }
      if KeysUnique(before) {
        UpsertKeepsUnique(before, b, freshId, created, updated);
      }
    }
  }
}
