/**
 * The sums the reports and the summary panel compute over a list of records:
 * `filter(t => t.amount > 0).reduce((sum, t) => sum + t.amount, 0)` for income and
 * `filter(t => t.amount < 0).reduce((sum, t) => sum + Math.abs(t.amount), 0)` for expense,
 * and the `startsWith` filter that selects the records of a year or a month.
 */
module Totals {
  import opened Text
  import opened Records
  import opened Sorting

  /** Which of the two sums a record can contribute to. */
  datatype Side = IncomeSide | ExpenseSide

  /** What a record adds to one side: a positive amount to income, the magnitude of a
      negative amount to expense, and nothing otherwise (a zero amount is on neither side). */
  function Contribution(t: Transaction, side: Side): (r: nat)
    ensures r > 0 ==> (side == IncomeSide <==> t.amount > 0)
    ensures t.amount == 0 ==> r == 0
  {
    match side
    case IncomeSide => if t.amount > 0 then t.amount else 0
    case ExpenseSide => if t.amount < 0 then -t.amount else 0
  }

  function SideSum(ts: seq<Transaction>, side: Side): nat {
    if ts == [] then 0 else SideSum(ts[..|ts| - 1], side) + Contribution(ts[|ts| - 1], side)
  }

  /** The sum of the positive amounts. */
  function IncomeSum(ts: seq<Transaction>): nat { SideSum(ts, IncomeSide) }

  /** The sum of the magnitudes of the negative amounts. */
  function ExpenseSum(ts: seq<Transaction>): nat { SideSum(ts, ExpenseSide) }

  /** The plain sum of the amounts. */
  function AmountSum(ts: seq<Transaction>): int {
    if ts == [] then 0 else AmountSum(ts[..|ts| - 1]) + ts[|ts| - 1].amount
  }

  /** `ts.filter(t => t.amount > 0)`. */
  function Positives(ts: seq<Transaction>): (r: seq<Transaction>)
    ensures forall i :: 0 <= i < |r| ==> r[i].amount > 0
  {
    if ts == [] then []
    else
      var last := ts[|ts| - 1];
      Positives(ts[..|ts| - 1]) + (if last.amount > 0 then [last] else [])
  }

  /** `ts.filter(t => t.amount < 0)`. */
  function Negatives(ts: seq<Transaction>): (r: seq<Transaction>)
    ensures forall i :: 0 <= i < |r| ==> r[i].amount < 0
  {
    if ts == [] then []
    else
      var last := ts[|ts| - 1];
      Negatives(ts[..|ts| - 1]) + (if last.amount < 0 then [last] else [])
  }

  lemma AmountSumAppendOne(ts: seq<Transaction>, t: Transaction)
    ensures AmountSum(ts + [t]) == AmountSum(ts) + t.amount
  {
    assert (ts + [t])[..|ts|] == ts;
  }

  /** Income is the filter-then-add of the source: the plain sum of the positive amounts. */
  lemma {:induction false} IncomeIsSumOfPositives(ts: seq<Transaction>)
    ensures IncomeSum(ts) == AmountSum(Positives(ts))
    decreases |ts|
  {
    if ts != [] {
      var front, last := ts[..|ts| - 1], ts[|ts| - 1];
      IncomeIsSumOfPositives(front);
      assert SideSum(ts, IncomeSide) == SideSum(front, IncomeSide) + Contribution(last, IncomeSide);
      if last.amount > 0 {
        assert Positives(ts) == Positives(front) + [last];
        AmountSumAppendOne(Positives(front), last);
      } else {
        assert Positives(ts) == Positives(front) + [];
        assert Positives(front) + [] == Positives(front);
      }
    }
  }

  /** Expense is the sum of the magnitudes of the negative amounts, that is the negated plain
      sum of the negative amounts. */
  lemma {:induction false} ExpenseIsSumOfNegatives(ts: seq<Transaction>)
    ensures ExpenseSum(ts) == -AmountSum(Negatives(ts))
    decreases |ts|
  {
    if ts != [] {
      var front, last := ts[..|ts| - 1], ts[|ts| - 1];
      ExpenseIsSumOfNegatives(front);
      assert SideSum(ts, ExpenseSide) == SideSum(front, ExpenseSide) + Contribution(last, ExpenseSide);
      if last.amount < 0 {
        assert Negatives(ts) == Negatives(front) + [last];
        AmountSumAppendOne(Negatives(front), last);
      } else {
        assert Negatives(ts) == Negatives(front) + [];
        assert Negatives(front) + [] == Negatives(front);
      }
    }
  }

  lemma {:induction false} SideSumAppend(a: seq<Transaction>, b: seq<Transaction>, side: Side)
    ensures SideSum(a + b, side) == SideSum(a, side) + SideSum(b, side)
    decreases |b|
  {
    if b == [] {
      assert a + b == a;
    } else {
      assert (a + b)[..|a + b| - 1] == a + b[..|b| - 1];
      SideSumAppend(a, b[..|b| - 1], side);
    }
  }

  /** Income minus expense is the plain sum: every amount is counted on exactly one side. */
  lemma {:induction false} NetIsAmountSum(ts: seq<Transaction>)
    ensures IncomeSum(ts) - ExpenseSum(ts) == AmountSum(ts)
    decreases |ts|
  {
    if ts != [] {
      NetIsAmountSum(ts[..|ts| - 1]);
    }
  }

  /** `ts.filter(t => t.date.startsWith(prefix))`. */
  function WithPrefix(ts: seq<Transaction>, prefix: string): (r: seq<Transaction>)
    ensures |r| <= |ts|
    ensures forall i :: 0 <= i < |r| ==> StartsWith(r[i].date, prefix)
  {
    if ts == [] then []
    else
      var last := ts[|ts| - 1];
      WithPrefix(ts[..|ts| - 1], prefix) + (if StartsWith(last.date, prefix) then [last] else [])
  }

  /** The filter keeps exactly the records with the prefix. */
  lemma {:induction false} WithPrefixKeeps(ts: seq<Transaction>, prefix: string, t: Transaction)
    ensures t in WithPrefix(ts, prefix) <==> t in ts && StartsWith(t.date, prefix)
    decreases |ts|
  {
    if ts != [] {
      WithPrefixKeeps(ts[..|ts| - 1], prefix, t);
      assert ts == ts[..|ts| - 1] + [ts[|ts| - 1]];
    }
  }

  lemma StartsWithLonger(s: string, p: string, q: string)
    requires StartsWith(s, p + q)
    ensures StartsWith(s, p)
  {
    assert s[..|p|] == (p + q)[..|p|];
  }

  /** Selecting by a longer prefix after a shorter one is selecting by the longer one. */
  lemma {:induction false} WithPrefixNested(ts: seq<Transaction>, p: string, q: string)
    ensures WithPrefix(WithPrefix(ts, p), p + q) == WithPrefix(ts, p + q)
    decreases |ts|
  {
    if ts != [] {
      var front, last := ts[..|ts| - 1], ts[|ts| - 1];
      WithPrefixNested(front, p, q);
      WithPrefixAppend(WithPrefix(front, p), if StartsWith(last.date, p) then [last] else [], p + q);
      if StartsWith(last.date, p + q) {
        StartsWithLonger(last.date, p, q);
      }
    }
  }

  lemma WithPrefixAppend(a: seq<Transaction>, b: seq<Transaction>, prefix: string)
    requires |b| <= 1
    ensures WithPrefix(a + b, prefix) == WithPrefix(a, prefix) + WithPrefix(b, prefix)
  {
    if b == [] {
      assert a + b == a;
    } else {
      assert (a + b)[..|a + b| - 1] == a;
      assert b[..0] == [];
    }
  }

  /** A record with amount 0 adds nothing to either sum of any selection. */
  lemma ZeroAmountAddsNothing(ts: seq<Transaction>, t: Transaction, prefix: string, side: Side)
    requires t.amount == 0
    ensures SideSum(WithPrefix(ts + [t], prefix), side) == SideSum(WithPrefix(ts, prefix), side)
  {
    assert (ts + [t])[..|ts|] == ts;
    var a := WithPrefix(ts, prefix);
    if StartsWith(t.date, prefix) {
      assert (a + [t])[..|a|] == a;
    } else {
      assert a + [] == a;
    }
  }

  // ---------------------------------------------------------------- order does not matter

  lemma {:induction false} InsertSideSum(s: seq<Transaction>, x: Transaction, le: (Transaction, Transaction) -> bool, side: Side)
    ensures SideSum(Insert(s, x, le), side) == SideSum(s, side) + Contribution(x, side)
    decreases |s|
  {
    if s != [] && !le(s[|s| - 1], x) {
      InsertSideSum(s[..|s| - 1], x, le, side);
    }
  }

  /** Sorting the records does not change either sum. */
  lemma {:induction false} SortSideSum(s: seq<Transaction>, le: (Transaction, Transaction) -> bool, side: Side)
    ensures SideSum(InsertionSort(s, le), side) == SideSum(s, side)
    decreases |s|
  {
    if s != [] {
      SortSideSum(s[..|s| - 1], le, side);
      InsertSideSum(InsertionSort(s[..|s| - 1], le), s[|s| - 1], le, side);
    }
  }
}
