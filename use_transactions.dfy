/**
 * `src/hooks/useTransactions.ts`: the list of records the application holds, and the four
 * updates its hook offers. Each update replaces the list by a filtered, mapped or extended
 * copy; the class keeps the list in a field that the methods reassign. The list saved in
 * local storage is the constructor's parameter and the identities handed out by
 * `crypto.randomUUID()` are parameters of the adding methods.
 */
module UseTransactions {
  import opened Options
  import opened Records
  import opened Rounding
  import opened TransactionUtils
  import ImportParser
  import ImportDate

  /** `Partial<Omit<Transaction, 'id'>>`: the fields an edit provides (`None` for a field
      the update object does not carry). */
  datatype Updates = Updates(date: Option<string>, store: Option<string>, amount: Option<int>, kind: Option<TxType>)

  /** `updates.amount ? ... : ...`: an absent amount and the amount 0 are both falsy. */
  predicate OverridesAmount(u: Updates) { u.amount.Some? && u.amount.value != 0 }

  /** `{ ...t, ...updates, amount: updates.amount ? Math.floor(updates.amount / 100) * 100 : t.amount }`. */
  function Edited(t: Transaction, u: Updates): Transaction {
    Transaction(
      t.id,
      if u.date.Some? then u.date.value else t.date,
      if u.store.Some? then u.store.value else t.store,
      if OverridesAmount(u) then FloorHundred(u.amount.value) else t.amount,
      if u.kind.Some? then u.kind.value else t.kind)
  }

  /** `prev.filter(t => t.id !== id)`. */
  function WithoutId(ts: seq<Transaction>, id: string): (r: seq<Transaction>)
    ensures |r| <= |ts|
  {
    if ts == [] then []
    else WithoutId(ts[..|ts| - 1], id) + (if ts[|ts| - 1].id != id then [ts[|ts| - 1]] else [])
  }

  /** `prev.map(t => t.id === id ? edited : t)`. */
  function EditAll(ts: seq<Transaction>, id: string, u: Updates): (r: seq<Transaction>)
    ensures |r| == |ts|
  {
    if ts == [] then []
    else
      var last := ts[|ts| - 1];
      EditAll(ts[..|ts| - 1], id, u) + [if last.id == id then Edited(last, u) else last]
  }

  /** The state of the hook: the list of records. */
  class TransactionStore {
    var transactions: seq<Transaction>

    /** The list starts as the saved one (`JSON.parse` of the stored text, or empty). */
    constructor (saved: seq<Transaction>)
      ensures transactions == saved
    {
      transactions := saved;
    }

    /** `addTransaction(d)`: the new record goes at the end. */
    method AddTransaction(d: Draft, id: string)
      modifies this
      ensures transactions == old(transactions) + [CreateTransaction(d, id)]
    {
      transactions := transactions + [CreateTransaction(d, id)];
    }

    /** `addTransactions(ds)`: the new records go at the end, in the order given. */
    method AddTransactions(ds: seq<Draft>, ids: seq<string>)
      requires |ids| == |ds|
      modifies this
      ensures transactions == old(transactions) + CreateTransactions(ds, ids)
    {
      transactions := transactions + CreateTransactions(ds, ids);
    }

    /** `deleteTransaction(id)`. */
    method DeleteTransaction(id: string)
      modifies this
      ensures transactions == WithoutId(old(transactions), id)
    {
      transactions := WithoutId(transactions, id);
    }

    /** `editTransaction(id, updates)`. */
    method EditTransaction(id: string, u: Updates)
      modifies this
      ensures transactions == EditAll(old(transactions), id, u)
    {
      transactions := EditAll(transactions, id, u);
    }
  }

  // ---------------------------------------------------------------- delete

  /** Deleting keeps exactly the records with another identity. */
  lemma {:induction false} WithoutIdKeeps(ts: seq<Transaction>, id: string, t: Transaction)
    ensures t in WithoutId(ts, id) <==> t in ts && t.id != id
    decreases |ts|
  {
    if ts != [] {
      WithoutIdKeeps(ts[..|ts| - 1], id, t);
      assert ts == ts[..|ts| - 1] + [ts[|ts| - 1]];
    }
  }

  lemma WithoutIdAppendOne(ts: seq<Transaction>, t: Transaction, id: string)
    ensures WithoutId(ts + [t], id) == WithoutId(ts, id) + (if t.id != id then [t] else [])
  {
    assert (ts + [t])[..|ts|] == ts;
  }

  /** Deleting works piecewise, so the records kept stay in their order. */
  lemma {:induction false} WithoutIdAppend(a: seq<Transaction>, b: seq<Transaction>, id: string)
    ensures WithoutId(a + b, id) == WithoutId(a, id) + WithoutId(b, id)
    decreases |b|
  {
    if b == [] {
      assert a + b == a;
    } else {
      var front, last := b[..|b| - 1], b[|b| - 1];
      assert a + b == (a + front) + [last];
      WithoutIdAppendOne(a + front, last, id);
      WithoutIdAppend(a, front, id);
    }
  }

  /** A list holding no record with the identity is left as it is. */
  lemma {:induction false} WithoutAbsentId(ts: seq<Transaction>, id: string)
    requires forall i :: 0 <= i < |ts| ==> ts[i].id != id
    ensures WithoutId(ts, id) == ts
    decreases |ts|
  {
    if ts != [] {
      WithoutAbsentId(ts[..|ts| - 1], id);
      assert ts == ts[..|ts| - 1] + [ts[|ts| - 1]];
    }
  }

  /** Deleting a record just added under a fresh identity gives the list back. */
  lemma DeleteUndoesAdd(ts: seq<Transaction>, d: Draft, id: string)
    requires forall i :: 0 <= i < |ts| ==> ts[i].id != id
    ensures WithoutId(ts + [CreateTransaction(d, id)], id) == ts
  {
    WithoutIdAppendOne(ts, CreateTransaction(d, id), id);
    WithoutAbsentId(ts, id);
  }

  // ---------------------------------------------------------------- edit

  /** Editing replaces exactly the records with the identity, in place, keeping every identity. */
  lemma {:induction false} EditAllAt(ts: seq<Transaction>, id: string, u: Updates)
    ensures forall i :: 0 <= i < |ts| ==>
      EditAll(ts, id, u)[i] == (if ts[i].id == id then Edited(ts[i], u) else ts[i])
    ensures forall i :: 0 <= i < |ts| ==> EditAll(ts, id, u)[i].id == ts[i].id
    decreases |ts|
  {
    if ts != [] {
      var front := ts[..|ts| - 1];
      EditAllAt(front, id, u);
      var r := EditAll(ts, id, u);
      forall i | 0 <= i < |ts|
        ensures r[i] == (if ts[i].id == id then Edited(ts[i], u) else ts[i])
      {
        if i < |front| {
          assert r[i] == EditAll(front, id, u)[i];
        }
      }
    }
  }

  /** What an edit does to a matching record: the identity is kept, each provided field
      overrides the old one, the type is never derived from the new amount, and the amount
      becomes the signed floor of the new one only when that is neither absent nor 0. */
  lemma EditedFields(t: Transaction, u: Updates)
    ensures Edited(t, u).id == t.id
    ensures u.kind.None? ==> Edited(t, u).kind == t.kind
    ensures u.date.Some? ==> Edited(t, u).date == u.date.value
    ensures u.store.Some? ==> Edited(t, u).store == u.store.value
    ensures u.amount.Some? && u.amount.value != 0 ==>
      Edited(t, u).amount % 100 == 0 && u.amount.value - 100 < Edited(t, u).amount <= u.amount.value
    ensures u.amount == Some(0) || u.amount.None? ==> Edited(t, u).amount == t.amount
  {
  }

  /** An update that provides nothing, or only the amount 0, changes nothing. */
  lemma {:induction false} EmptyEditIsIdentity(ts: seq<Transaction>, id: string, amount: Option<int>)
    requires amount == None || amount == Some(0)
    ensures EditAll(ts, id, Updates(None, None, amount, None)) == ts
    decreases |ts|
  {
    if ts != [] {
      EmptyEditIsIdentity(ts[..|ts| - 1], id, amount);
      assert ts == ts[..|ts| - 1] + [ts[|ts| - 1]];
    }
  }

  /** Editing never changes which identities the list holds, nor how many records it has. */
  lemma EditKeepsIdentities(ts: seq<Transaction>, id: string, u: Updates)
    ensures |EditAll(ts, id, u)| == |ts|
    ensures forall i :: 0 <= i < |ts| ==> EditAll(ts, id, u)[i].id == ts[i].id
    ensures forall i :: 0 <= i < |ts| && ts[i].id != id ==> EditAll(ts, id, u)[i] == ts[i]
  {
    EditAllAt(ts, id, u);
  }

  // ---------------------------------------------------------------- import then store

  /** Drafts whose amounts are multiples of 100, as every record the importer reads is, are
      stored with their amounts, dates, stores and types unchanged, after the records already
      held. */
  lemma ImportedRecordsStoredUnchanged(held: seq<Transaction>, ds: seq<Draft>, ids: seq<string>)
    requires |ids| == |ds|
    requires forall i :: 0 <= i < |ds| ==> ds[i].amount % 100 == 0
    ensures var r := held + CreateTransactions(ds, ids);
      r[..|held|] == held && forall i :: 0 <= i < |ds| ==> DraftOf(r[|held| + i]) == ds[i]
  {
    var r := held + CreateTransactions(ds, ids);
    CreateTransactionsKeepRoundedDrafts(ds, ids);
    assert r[..|held|] == held;
    forall i | 0 <= i < |ds|
      ensures DraftOf(r[|held| + i]) == ds[i]
    {
      assert r[|held| + i] == CreateTransactions(ds, ids)[i];
    }
  }

  /** `addTransactions(parseTransactionFile(file))`: every record the importer reads from a file
      is stored with its amount, date, store and type unchanged, after the records already held. */
  lemma ImportThenStore(held: seq<Transaction>, content: string, clockYear: string, check: ImportDate.DateCheck, ids: seq<string>)
    requires |ids| == |ImportParser.ParseDocument(content, clockYear, check)|
    ensures var ds := ImportParser.ParseDocument(content, clockYear, check);
      var r := held + CreateTransactions(ds, ids);
      r[..|held|] == held && forall i :: 0 <= i < |ds| ==> DraftOf(r[|held| + i]) == ds[i]
  {
    var ds := ImportParser.ParseDocument(content, clockYear, check);
    ImportParser.ParsedRecordsClean(content, clockYear, check);
    forall i | 0 <= i < |ds|
      ensures ds[i].amount % 100 == 0
    {
      assert ImportParser.CleanRecord(ds[i]);
    }
    ImportedRecordsStoredUnchanged(held, ds, ids);
  }
}
