/**
 * `src/utils/transactionUtils.ts`: attaching an identity to a record and rounding its amount
 * down to a multiple of 100 with the signed floor (`Rounding.FloorHundred`). The identity
 * comes from `crypto.randomUUID()`, which the model takes as a parameter.
 */
module TransactionUtils {
  import opened Records
  import opened Rounding

  /** `createTransaction(newTransaction)` with `id` the identity handed out for it. */
  function CreateTransaction(d: Draft, id: string): (t: Transaction)
    ensures t.id == id && t.date == d.date && t.store == d.store && t.kind == d.kind
    ensures t.amount % 100 == 0 && d.amount - 100 < t.amount <= d.amount
  {
    Transaction(id, d.date, d.store, FloorHundred(d.amount), d.kind)
  }

  /** The record a transaction was made from. */
  function DraftOf(t: Transaction): Draft {
    Draft(t.date, t.store, t.amount, t.kind)
  }

  /** An amount that is already a multiple of 100 is kept, so the record comes back unchanged
      apart from its identity; the type is never recomputed from the amount. */
  lemma CreateKeepsRoundedDraft(d: Draft, id: string)
    requires d.amount % 100 == 0
    ensures DraftOf(CreateTransaction(d, id)) == d
  {
    FloorHundredOfMultiple(d.amount);
  }

  /** Creating twice rounds once: re-creating a stored record only changes its identity. */
  lemma CreateIdempotent(d: Draft, id: string, id2: string)
    ensures CreateTransaction(DraftOf(CreateTransaction(d, id)), id2) == CreateTransaction(d, id2)
  {
    FloorHundredIdempotent(d.amount);
  }

  /** `createTransactions(newTransactions)`: one record per draft, in order, the `i`-th draft
      receiving the `i`-th identity. */
  function CreateTransactions(ds: seq<Draft>, ids: seq<string>): (ts: seq<Transaction>)
    requires |ids| == |ds|
    ensures |ts| == |ds|
    ensures forall i :: 0 <= i < |ds| ==> ts[i] == CreateTransaction(ds[i], ids[i])
  {
    if ds == [] then [] else [CreateTransaction(ds[0], ids[0])] + CreateTransactions(ds[1..], ids[1..])
  }

  /** Drafts whose amounts are multiples of 100 are stored unchanged, in order. */
  lemma {:induction false} CreateTransactionsKeepRoundedDrafts(ds: seq<Draft>, ids: seq<string>)
    requires |ids| == |ds|
    requires forall i :: 0 <= i < |ds| ==> ds[i].amount % 100 == 0
    ensures forall i :: 0 <= i < |ds| ==> DraftOf(CreateTransactions(ds, ids)[i]) == ds[i]
  {
    forall i | 0 <= i < |ds|
      ensures DraftOf(CreateTransactions(ds, ids)[i]) == ds[i]
    {
      CreateKeepsRoundedDraft(ds[i], ids[i]);
    }
  }
}
