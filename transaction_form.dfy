/**
 * `src/components/TransactionForm.tsx`: the four fields of the entry form and what submitting
 * it hands to `onSubmit`. The amount field is an `<input type="number" min="0">`, so the text
 * it holds is either empty or a non-negative whole number written in digits.
 */
module TransactionForm {
  import opened Text
  import opened Options
  import opened Records
  import opened Rounding
  import opened TransactionUtils
  import opened TransactionList

  /** A non-empty run of digits: what the amount field holds once something is entered. */
  predicate AmountText(s: string) { s != [] && AllDigits(s) }

  /** `store.trim() || '未指定'`. */
  function StoreName(store: string): (r: string)
    ensures r != [] && Trimmed(r)
    ensures Trim(store) != [] ==> r == Trim(store)
  {
    assert Trimmed(Unspecified);
    TrimOrIdempotent(store, Unspecified);
    TrimOr(store, Unspecified)
  }

  /** What a submit hands over, if anything: nothing while the date or the amount is empty;
      otherwise the amount floored to a multiple of 100 (`Math.floor(Number(amount) / 100) * 100`)
      and negated for an expense. */
  function SubmittedDraft(date: string, store: string, amount: string, kind: TxType): Option<Draft>
    requires amount == [] || AmountText(amount)
  {
    if date == [] || amount == [] then None
    else Some(Draft(date, StoreName(store), FloorHundred(NumberValue(amount)) * (if kind == Expense then -1 else 1), kind))
  }

  /** The form's state. */
  class FormState {
    var date: string
    var store: string
    var amount: string
    var kind: TxType

    /** The amount field holds what a number input with `min="0"` can hold. */
    predicate Valid()
      reads this
    {
      amount == [] || AmountText(amount)
    }

    /** `useState('')` three times and `useState('expense')`. */
    constructor ()
      ensures Valid()
      ensures date == [] && store == [] && amount == [] && kind == Expense
    {
      date, store, amount, kind := [], [], [], Expense;
    }

    method SetDate(value: string)
      modifies this
      ensures date == value && store == old(store) && amount == old(amount) && kind == old(kind)
    {
      date := value;
    }

    method SetStore(value: string)
      modifies this
      ensures store == value && date == old(date) && amount == old(amount) && kind == old(kind)
    {
      store := value;
    }

    method SetAmount(value: string)
      requires value == [] || AmountText(value)
      modifies this
      ensures Valid()
      ensures amount == value && date == old(date) && store == old(store) && kind == old(kind)
    {
      amount := value;
    }

    /** The two radio buttons. */
    method SetKind(value: TxType)
      modifies this
      ensures kind == value && date == old(date) && store == old(store) && amount == old(amount)
    {
      kind := value;
    }

    /** `handleSubmit`: with a date and an amount the record is handed over and the form is
        reset to its initial state; otherwise nothing happens. */
    method Submit() returns (d: Option<Draft>)
      requires Valid()
      modifies this
      ensures d == SubmittedDraft(old(date), old(store), old(amount), old(kind))
      ensures d.None? ==> date == old(date) && store == old(store) && amount == old(amount) && kind == old(kind)
      ensures d.Some? ==> date == [] && store == [] && amount == [] && kind == Expense
      ensures Valid()
    {
      if date == [] || amount == [] {
        return None;
      }
      var storeName := StoreName(store);
      var rounded := FloorHundred(NumberValue(amount));
      d := Some(Draft(date, storeName, rounded * (if kind == Expense then -1 else 1), kind));
      date, store, amount, kind := [], [], [], Expense;
    }
  }

  /** A record is handed over exactly when date and amount are filled in; it keeps the date
      and the type, names a store, and its amount is the entered value floored to a multiple
      of 100, not positive for an expense and not negative for an income. */
  lemma SubmittedDraftFacts(date: string, store: string, amount: string, kind: TxType)
    requires amount == [] || AmountText(amount)
    ensures SubmittedDraft(date, store, amount, kind).Some? <==> date != [] && amount != []
    ensures match SubmittedDraft(date, store, amount, kind)
      case None => true
      case Some(d) =>
        d.date == date && d.kind == kind && d.store != [] && Trimmed(d.store)
        && d.amount % 100 == 0
        && Abs(d.amount) <= NumberValue(amount) < Abs(d.amount) + 100
        && (kind == Expense ==> d.amount <= 0) && (kind == Income ==> d.amount >= 0)
  {
    if date != [] && amount != [] {
      var d := SubmittedDraft(date, store, amount, kind).value;
      assert d.store == StoreName(store);
      SignedFloorFacts(NumberValue(amount), kind);
    }
  }

  /** The entered value floored to a multiple of 100 and signed by the type. */
  lemma SignedFloorFacts(n: nat, kind: TxType)
    ensures var a := FloorHundred(n) * (if kind == Expense then -1 else 1);
      a % 100 == 0 && Abs(a) <= n < Abs(a) + 100
      && (kind == Expense ==> a <= 0) && (kind == Income ==> a >= 0)
  {
    var f := FloorHundred(n);
    assert f >= 0;
    var a := f * (if kind == Expense then -1 else 1);
    assert a == (if kind == Expense then -f else f);
    assert Abs(a) == f;
  }

  /** Naming the store twice names it once. */
  lemma StoreNameIdempotent(store: string)
    ensures StoreName(StoreName(store)) == StoreName(store)
  {
    assert Trimmed(Unspecified);
    TrimOrIdempotent(store, Unspecified);
  }

  /** The store keeps a submitted record as it was handed over, since its amount is already a
      multiple of 100. */
  lemma SubmittedRecordStoredUnchanged(date: string, store: string, amount: string, kind: TxType, id: string)
    requires AmountText(amount) && date != []
    ensures var d := SubmittedDraft(date, store, amount, kind).value;
      DraftOf(CreateTransaction(d, id)) == d
  {
    SubmittedDraftFacts(date, store, amount, kind);
    CreateKeepsRoundedDraft(SubmittedDraft(date, store, amount, kind).value, id);
  }

  /** An expense below 100 is stored with the amount 0, which the table then labels as
      income. */
  lemma SmallExpenseShownAsIncome(date: string, store: string, amount: string)
    requires AmountText(amount) && date != [] && NumberValue(amount) < 100
    ensures var d := SubmittedDraft(date, store, amount, Expense).value;
      d.amount == 0 && d.kind == Expense && DisplayLabel(d.amount) == "収入"
  {
  }
}
