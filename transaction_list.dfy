/**
 * `src/components/TransactionList.tsx`: the table's order (by date, ascending or descending,
 * then by amount), the editing state of one row and what saving it sends to the store, and
 * the amount the table displays. A date's `getTime()` is compared through the date text,
 * which orders well-formed `yyyy-MM-dd` dates as their times do.
 */
module TransactionList {
  import opened Options
  import opened Text
  import opened Records
  import opened Rounding
  import opened Sorting
  import opened ExportUtils
  import opened UseTransactions

  // ---------------------------------------------------------------- order

  /** The comparator returns at most 0: equal dates by amount, ascending either way; other
      dates ascending or descending as `sortAsc` says. */
  predicate ListLe(sortAsc: bool, a: Transaction, b: Transaction) {
    if a.date == b.date then a.amount <= b.amount
    else if sortAsc then LexLe(a.date, b.date)
    else LexLe(b.date, a.date)
  }

  function ListOrder(sortAsc: bool): (Transaction, Transaction) -> bool {
    (a: Transaction, b: Transaction) => ListLe(sortAsc, a, b)
  }

  /** The comparator is consistent in both directions. */
  lemma ListOrderIsTotalPreorder(sortAsc: bool)
    ensures IsTotalPreorder(ListOrder(sortAsc))
  {
    var le := ListOrder(sortAsc);
    forall a: Transaction, b: Transaction
      ensures le(a, b) || le(b, a)
    {
      LexLeTotal(a.date, b.date);
    }
    forall a: Transaction, b: Transaction, c: Transaction | le(a, b) && le(b, c)
      ensures le(a, c)
    {
      ListLeTransitive(sortAsc, a, b, c);
    }
  }

  lemma ListLeTransitive(sortAsc: bool, a: Transaction, b: Transaction, c: Transaction)
    requires ListLe(sortAsc, a, b) && ListLe(sortAsc, b, c)
    ensures ListLe(sortAsc, a, c)
  {
    if a.date != b.date && b.date != c.date {
      if sortAsc {
        LexLeTransitive(a.date, b.date, c.date);
        if a.date == c.date {
          LexLeAntisymmetric(a.date, b.date);
        }
      } else {
        LexLeTransitive(c.date, b.date, a.date);
        if a.date == c.date {
          LexLeAntisymmetric(a.date, b.date);
        }
      }
    }
  }

  /** `[...transactions].sort(cmp)`: the sort works on a copy, so the list it was given is
      left as it is. */
  method SortedTransactions(ts: seq<Transaction>, sortAsc: bool) returns (r: seq<Transaction>)
    ensures r == InsertionSort(ts, ListOrder(sortAsc))
  {
    var copy := new Transaction[|ts|](i requires 0 <= i < |ts| => ts[i]);
    assert copy[..] == ts;
    SortInPlace(copy, ListOrder(sortAsc));
    r := copy[..];
  }

  /** The table shows every record once, in date order as `sortAsc` says, records of one
      date by amount ascending. */
  lemma SortedView(ts: seq<Transaction>, sortAsc: bool)
    ensures var r := InsertionSort(ts, ListOrder(sortAsc));
      multiset(r) == multiset(ts)
      && (forall i, j :: 0 <= i < j < |r| && r[i].date == r[j].date ==> r[i].amount <= r[j].amount)
      && (forall i, j :: 0 <= i < j < |r| && r[i].date != r[j].date ==>
            if sortAsc then LexLe(r[i].date, r[j].date) else LexLe(r[j].date, r[i].date))
  {
    var le := ListOrder(sortAsc);
    ListOrderIsTotalPreorder(sortAsc);
    SortSorted(ts, le);
    SortPermutes(ts, le);
    var r := InsertionSort(ts, le);
    assert forall i, j :: 0 <= i < j < |r| ==> ListLe(sortAsc, r[i], r[j]);
  }

  // ---------------------------------------------------------------- editing

  /** `EditingTransaction`: the row being edited, its amount as a magnitude. */
  datatype Editing = Editing(id: string, date: string, store: string, amount: nat)

  /** `transactions.find(t => t.id === id)`. */
  function Find(ts: seq<Transaction>, id: string): (r: Option<Transaction>)
    ensures r.Some? ==> r.value in ts && r.value.id == id
    ensures r.Some? ==> exists k :: 0 <= k < |ts| && ts[k] == r.value && forall j :: 0 <= j < k ==> ts[j].id != id
    ensures r.None? ==> forall i :: 0 <= i < |ts| ==> ts[i].id != id
  {
    if ts == [] then None
    else if ts[0].id == id then Some(ts[0])
    else
      var r := Find(ts[1..], id);
      if r.Some? then
        var k :| 0 <= k < |ts| - 1 && ts[1..][k] == r.value && forall j :: 0 <= j < k ==> ts[1..][j].id != id;
        assert ts[k + 1] == r.value && forall j :: 0 <= j < k + 1 ==> ts[j].id != id;
        r
      else r
  }

  /** The amount saved: the edited magnitude floored to a multiple of 100, negated when the
      record's amount was negative. */
  function SavedAmount(edited: nat, original: int): int {
    FloorHundred(edited) * (if original < 0 then -1 else 1)
  }

  /** What `handleEditSave` passes to `onEdit`, if it calls it. */
  function SaveCall(editing: Option<Editing>, ts: seq<Transaction>): Option<(string, Updates)> {
    match editing
    case None => None
    case Some(e) =>
      match Find(ts, e.id)
      case None => None
      case Some(t) => Some((e.id, Updates(Some(e.date), Some(e.store), Some(SavedAmount(e.amount, t.amount)), None)))
  }

  /** `parseFloat(value) || 0` then `Math.abs`: `None` stands for a value that does not parse. */
  function EnteredAmount(parsed: Option<int>): nat {
    match parsed
    case None => 0
    case Some(v) => Abs(v)
  }

  /** The state of the table: the sort direction and the row being edited. */
  class ListView {
    var sortAsc: bool
    var editing: Option<Editing>

    constructor ()
      ensures sortAsc && editing == None
    {
      sortAsc := true;
      editing := None;
    }

    /** The date header's button: `setSortAsc(!sortAsc)`. */
    method ToggleSort()
      modifies this
      ensures sortAsc == !old(sortAsc) && editing == old(editing)
    {
      sortAsc := !sortAsc;
    }

    /** `handleEditStart(t)`. */
    method EditStart(t: Transaction)
      modifies this
      ensures editing == Some(Editing(t.id, t.date, t.store, Abs(t.amount)))
      ensures sortAsc == old(sortAsc)
    {
      editing := Some(Editing(t.id, t.date, t.store, Abs(t.amount)));
    }

    /** `handleEditCancel()`. */
    method EditCancel()
      modifies this
      ensures editing == None && sortAsc == old(sortAsc)
    {
      editing := None;
    }

    /** The date input of the edited row (present only while a row is edited). */
    method SetEditDate(value: string)
      requires editing.Some?
      modifies this
      ensures editing == Some(old(editing).value.(date := value)) && sortAsc == old(sortAsc)
    {
      editing := Some(editing.value.(date := value));
    }

    /** The store input of the edited row. */
    method SetEditStore(value: string)
      requires editing.Some?
      modifies this
      ensures editing == Some(old(editing).value.(store := value)) && sortAsc == old(sortAsc)
    {
      editing := Some(editing.value.(store := value));
    }

    /** The amount input of the edited row. */
    method SetEditAmount(parsed: Option<int>)
      requires editing.Some?
      modifies this
      ensures editing == Some(old(editing).value.(amount := EnteredAmount(parsed))) && sortAsc == old(sortAsc)
    {
      editing := Some(editing.value.(amount := EnteredAmount(parsed)));
    }

    /** `handleEditSave()`: nothing happens without an edited row or when its record is gone;
        otherwise the update is sent and the editing ends. */
    method EditSave(ts: seq<Transaction>) returns (call: Option<(string, Updates)>)
      modifies this
      ensures call == SaveCall(old(editing), ts)
      ensures editing == (if call.Some? then None else old(editing))
      ensures sortAsc == old(sortAsc)
    {
      if editing.None? {
        return None;
      }
      var e := editing.value;
      var found := Find(ts, e.id);
      if found.None? {
        return None;
      }
      var isExpense := found.value.amount < 0;
      var rounded := FloorHundred(e.amount);
      var amount := rounded * (if isExpense then -1 else 1);
      call := Some((e.id, Updates(Some(e.date), Some(e.store), Some(amount), None)));
      editing := None;
    }
  }

  /** The saved amount is a multiple of 100 at most the edited magnitude, with the sign of
      the record's amount. */
  lemma SavedAmountFacts(edited: nat, original: int)
    ensures SavedAmount(edited, original) % 100 == 0
    ensures Abs(SavedAmount(edited, original)) == MagnitudeHundreds(edited)
    ensures original < 0 ==> SavedAmount(edited, original) <= 0
    ensures original >= 0 ==> SavedAmount(edited, original) >= 0
  {
  }

  /** Saving a row that was started and left untouched changes nothing in the store, for a
      record whose amount is a multiple of 100. */
  lemma UntouchedEditIsNoOp(ts: seq<Transaction>, t: Transaction)
    requires Find(ts, t.id) == Some(t) && t.amount % 100 == 0
    ensures var call := SaveCall(Some(Editing(t.id, t.date, t.store, Abs(t.amount))), ts);
      call.Some? && call.value.0 == t.id && Edited(t, call.value.1) == t
  {
    var saved := SavedAmount(Abs(t.amount), t.amount);
    if t.amount < 0 {
      assert (-t.amount) % 100 == 0;
      FloorHundredOfMultiple(-t.amount);
    } else {
      FloorHundredOfMultiple(t.amount);
    }
  }

  /** Editing an amount to less than 100 saves 0, which the store reads as "no amount" and so
      keeps the old amount; the record's type is never changed by a save. */
  lemma SmallEditKeepsAmount(ts: seq<Transaction>, e: Editing, t: Transaction)
    requires e.amount < 100 && Find(ts, e.id) == Some(t)
    ensures var call := SaveCall(Some(e), ts);
      call.Some? && Edited(t, call.value.1).amount == t.amount && Edited(t, call.value.1).kind == t.kind
  {
  }

  // ---------------------------------------------------------------- display

  /** `roundToHundred(amount)` of the table: the magnitude truncated to a multiple of 100. */
  function DisplayAmount(a: int): (r: nat)
    ensures r % 100 == 0 && r <= Abs(a) < r + 100
  {
    MagnitudeHundreds(a)
  }

  /** `(収入)` for amounts `>= 0`, `(支出)` otherwise. */
  function DisplayLabel(a: int): string {
    if a >= 0 then "収入" else "支出"
  }

  /** The table and the exported reports show the same figure: the report's amount is the
      sign matching the table's label, `¥`, and the table's figure grouped by commas. */
  lemma DisplayAgreesWithReport(a: int)
    ensures FormatAmount(a) == (if DisplayLabel(a) == "収入" then "+" else "-") + "¥" + Grouped(DisplayAmount(a))
  {
  }
}
