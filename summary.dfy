/**
 * `src/components/Summary.tsx`: the three figures of the summary panel for the selected year
 * or month — the exact sum of the positive amounts, the sum of the magnitudes of the negative
 * amounts, and their difference. The selected month is given as its year and month numbers.
 */
module Summary {
  import opened Text
  import opened Records
  import opened Totals
  import opened ExportUtils

  /** `type: 'yearly' | 'monthly'`. */
  datatype Period = Yearly | Monthly

  /** `{ income, expense, balance }`. */
  datatype Stats = Stats(income: nat, expense: nat, balance: int)

  /** `format(selectedMonth, 'yyyy')` or `format(selectedMonth, 'yyyy-MM')`. */
  function PeriodPrefix(year: nat, month: nat, period: Period): string {
    match period
    case Yearly => YearKey(year)
    case Monthly => MonthKey(year, month)
  }

  /** `filteredTransactions`: the records whose date starts with the period's prefix. */
  function PeriodTransactions(ts: seq<Transaction>, year: nat, month: nat, period: Period): seq<Transaction> {
    WithPrefix(ts, PeriodPrefix(year, month, period))
  }

  /** `stats`: the balance is also the plain sum of the selected amounts. */
  function ComputeStats(ts: seq<Transaction>, year: nat, month: nat, period: Period): (s: Stats)
    ensures s.balance == AmountSum(PeriodTransactions(ts, year, month, period))
  {
    var selected := PeriodTransactions(ts, year, month, period);
    NetIsAmountSum(selected);
    Stats(IncomeSum(selected), ExpenseSum(selected), IncomeSum(selected) - ExpenseSum(selected))
  }

  /** The panel's figures are the source's filter-and-add pipelines: the income is the sum of
      the positive amounts, the expense the negated sum of the negative ones, the balance their
      difference. */
  lemma StatsArePipelines(ts: seq<Transaction>, year: nat, month: nat, period: Period)
    ensures var selected := PeriodTransactions(ts, year, month, period);
      var s := ComputeStats(ts, year, month, period);
      s.income == AmountSum(Positives(selected)) && s.expense == -AmountSum(Negatives(selected))
      && s.balance == s.income - s.expense
  {
    var selected := PeriodTransactions(ts, year, month, period);
    IncomeIsSumOfPositives(selected);
    ExpenseIsSumOfNegatives(selected);
  }

  /** The selection holds exactly the records whose date starts with the period's prefix. */
  lemma PeriodMembership(ts: seq<Transaction>, year: nat, month: nat, period: Period, t: Transaction)
    ensures t in PeriodTransactions(ts, year, month, period)
      <==> t in ts && StartsWith(t.date, PeriodPrefix(year, month, period))
  {
    WithPrefixKeeps(ts, PeriodPrefix(year, month, period), t);
  }

  /** The month's selection is the year's selection narrowed by the month key, so every
      record of the month is a record of its year. */
  lemma MonthWithinYear(ts: seq<Transaction>, year: nat, month: nat, t: Transaction)
    ensures PeriodTransactions(ts, year, month, Monthly)
      == WithPrefix(PeriodTransactions(ts, year, month, Yearly), MonthKey(year, month))
    ensures t in PeriodTransactions(ts, year, month, Monthly) ==> t in PeriodTransactions(ts, year, month, Yearly)
  {
    MonthGroupOfYear(ts, year, month);
    var yearly := PeriodTransactions(ts, year, month, Yearly);
    WithPrefixKeeps(yearly, MonthKey(year, month), t);
  }

  /** A record whose amount is 0 changes none of the three figures. */
  lemma ZeroAmountIgnored(ts: seq<Transaction>, t: Transaction, year: nat, month: nat, period: Period)
    requires t.amount == 0
    ensures ComputeStats(ts + [t], year, month, period) == ComputeStats(ts, year, month, period)
  {
    var p := PeriodPrefix(year, month, period);
    var before, after := WithPrefix(ts, p), WithPrefix(ts + [t], p);
    assert IncomeSum(after) == IncomeSum(before) by {
      ZeroAmountAddsNothing(ts, t, p, IncomeSide);
    }
    assert ExpenseSum(after) == ExpenseSum(before) by {
      ZeroAmountAddsNothing(ts, t, p, ExpenseSide);
    }
  }

  /** With well-formed dates in a four-digit year, the year's income and expense are the
      twelve months' figures added up. */
  lemma YearIsTwelveMonths(ts: seq<Transaction>, year: nat, side: Side)
    requires year < 10000
    requires forall i :: 0 <= i < |ts| ==> StartsWith(ts[i].date, YearKey(year)) ==> DatedIn(ts[i], year)
    ensures var months := seq(12, k requires 0 <= k < 12 => PeriodTransactions(ts, year, k + 1, Monthly));
      SideSum(PeriodTransactions(ts, year, 1, Yearly), side) == GroupSums(months, 12, side)
  {
    var yearly := WithPrefix(ts, YearKey(year));
    var months := seq(12, k requires 0 <= k < 12 => PeriodTransactions(ts, year, k + 1, Monthly));
    YearSplitsIntoMonths(ts, year, side);
    forall k | 0 <= k < 12
      ensures MonthGroups(yearly, year)[k] == months[k]
    {
      MonthGroupOfYear(ts, year, k + 1);
    }
    assert MonthGroups(yearly, year) == months;
  }
}
