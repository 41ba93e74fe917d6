/**
 * `src/components/TransactionChart.tsx`: the daily series of the chart. Every day of one
 * month gets an entry in a map; the records, in input order, add to their day's income or
 * expense and stamp it with the running balance; a second pass carries the previous day's
 * balance into the days without records. The current month is a parameter; the chart's
 * scales and styling are not modelled.
 */
module TransactionChart {
  import opened Text
  import opened Records
  import opened Calendar
  import opened Totals
  import opened ExportUtils

  /** A map entry `{ income, expense, balance }`. */
  datatype DayTotal = DayTotal(income: int, expense: int, balance: int)

  /** `format(day, 'yyyy-MM-dd')` for day `d` of the month. */
  function DayKey(year: nat, month: nat, d: nat): string {
    MonthKey(year, month) + "-" + Pad2(NatToString(d))
  }

  /** `eachDayOfInterval` over the month, formatted. */
  function DaysOfMonth(year: nat, month: nat): (r: seq<string>)
    requires 1 <= month <= 12
    ensures |r| == DaysInMonth(year, month)
  {
    seq(DaysInMonth(year, month), k requires 0 <= k < DaysInMonth(year, month) => DayKey(year, month, k + 1))
  }

  /** The month shown: that of the first record, or the current month when there is none. */
  function ShownDays(ts: seq<Transaction>, todayYear: nat, todayMonth: nat): seq<string>
    requires 1 <= todayMonth <= 12
    requires ts != [] ==> IsoShaped(ts[0].date) && 1 <= MonthOf(ts[0].date) <= 12
  {
    if ts == [] then DaysOfMonth(todayYear, todayMonth)
    else DaysOfMonth(YearOf(ts[0].date), MonthOf(ts[0].date))
  }

  predicate Distinct(days: seq<string>) {
    forall k, l :: 0 <= k < |days| && 0 <= l < |days| && k != l ==> days[k] != days[l]
  }

  // ---------------------------------------------------------------- what each day shows

  /** The amounts `>= 0` of the records of `day`: zero counts as income here. */
  function DayIncome(ts: seq<Transaction>, day: string): int {
    if ts == [] then 0
    else
      var last := ts[|ts| - 1];
      DayIncome(ts[..|ts| - 1], day) + (if last.date == day && last.amount >= 0 then last.amount else 0)
  }

  /** The magnitudes of the negative amounts of the records of `day`. */
  function DayExpense(ts: seq<Transaction>, day: string): int {
    if ts == [] then 0
    else
      var last := ts[|ts| - 1];
      DayExpense(ts[..|ts| - 1], day) + (if last.date == day && last.amount < 0 then -last.amount else 0)
  }

  /** `transactions.some(t => t.date === day)`. */
  predicate HasRecordOn(ts: seq<Transaction>, day: string) {
    exists i :: 0 <= i < |ts| && ts[i].date == day
  }

  /** The running balance stamped on `day` by its last record, 0 when it has none. */
  function LastBalance(ts: seq<Transaction>, day: string): int {
    if ts == [] then 0
    else if ts[|ts| - 1].date == day then AmountSum(ts)
    else LastBalance(ts[..|ts| - 1], day)
  }

  /** The balance shown for the `k`-th day: its own when it has records, else the previous
      day's, else 0. */
  function ChartBalance(ts: seq<Transaction>, days: seq<string>, k: nat): int
    requires k < |days|
  {
    if HasRecordOn(ts, days[k]) then LastBalance(ts, days[k])
    else if k == 0 then 0
    else ChartBalance(ts, days, k - 1)
  }

  // ---------------------------------------------------------------- the computation

  /** The `useMemo` body up to the three series: the days shown, and for each day its income,
      its negated expense and its balance. A record dated outside the month shown would find
      no map entry (the source then throws), hence the precondition. */
  method DailyTotals(ts: seq<Transaction>, todayYear: nat, todayMonth: nat)
    returns (dates: seq<string>, incomes: seq<int>, expenses: seq<int>, balances: seq<int>)
    requires 1 <= todayMonth <= 12
    requires ts != [] ==> IsoShaped(ts[0].date) && 1 <= MonthOf(ts[0].date) <= 12
    requires forall i :: 0 <= i < |ts| ==> ts[i].date in ShownDays(ts, todayYear, todayMonth)
    ensures dates == ShownDays(ts, todayYear, todayMonth)
    ensures |incomes| == |dates| && |expenses| == |dates| && |balances| == |dates|
    ensures forall k :: 0 <= k < |dates| ==> incomes[k] == DayIncome(ts, dates[k])
    ensures forall k :: 0 <= k < |dates| ==> expenses[k] == -DayExpense(ts, dates[k])
    ensures forall k :: 0 <= k < |dates| ==> balances[k] == ChartBalance(ts, dates, k)
  {
    var year, month := todayYear, todayMonth;
    if |ts| > 0 {
      year, month := YearOf(ts[0].date), MonthOf(ts[0].date);
    }
    dates := DaysOfMonth(year, month);
    DaysDistinct(year, month);

    incomes, expenses, balances := DaySeries(ts, dates);
  }

  /** The three series over the given days, which are distinct and hold every record's date. */
  method DaySeries(ts: seq<Transaction>, dates: seq<string>)
    returns (incomes: seq<int>, expenses: seq<int>, balances: seq<int>)
    requires Distinct(dates)
    requires forall i :: 0 <= i < |ts| ==> ts[i].date in dates
    ensures |incomes| == |dates| && |expenses| == |dates| && |balances| == |dates|
    ensures forall k :: 0 <= k < |dates| ==> incomes[k] == DayIncome(ts, dates[k])
    ensures forall k :: 0 <= k < |dates| ==> expenses[k] == -DayExpense(ts, dates[k])
    ensures forall k :: 0 <= k < |dates| ==> balances[k] == ChartBalance(ts, dates, k)
  {
    var totals := ZeroTotals(dates);
    totals := AddRecords(ts, dates, totals);
    totals := CarryBalances(ts, dates, totals);
    incomes := seq(|dates|, k requires 0 <= k < |dates| && dates[k] in totals => totals[dates[k]].income);
    expenses := seq(|dates|, k requires 0 <= k < |dates| && dates[k] in totals => -totals[dates[k]].expense);
    balances := seq(|dates|, k requires 0 <= k < |dates| && dates[k] in totals => totals[dates[k]].balance);
  }

  /** `formattedDates.forEach(date => dailyTotals.set(date, { income: 0, expense: 0, balance: 0 }))`. */
  method ZeroTotals(dates: seq<string>) returns (totals: map<string, DayTotal>)
    ensures forall d :: d in totals <==> d in dates
    ensures forall d :: d in totals ==> totals[d] == DayTotal(0, 0, 0)
  {
    totals := map[];
    var j := 0;
    while j < |dates|
      invariant 0 <= j <= |dates|
      invariant forall d :: d in totals <==> d in dates[..j]
      invariant forall d :: d in totals ==> totals[d] == DayTotal(0, 0, 0)
    {
      assert dates[..j + 1] == dates[..j] + [dates[j]];
      totals := totals[dates[j] := DayTotal(0, 0, 0)];
      j := j + 1;
    }
    assert dates[..j] == dates;
  }

  /** The first pass: each record adds to its day and stamps it with the running balance. */
  method AddRecords(ts: seq<Transaction>, dates: seq<string>, zero: map<string, DayTotal>)
    returns (totals: map<string, DayTotal>)
    requires forall d :: d in zero <==> d in dates
    requires forall d :: d in zero ==> zero[d] == DayTotal(0, 0, 0)
    requires forall i :: 0 <= i < |ts| ==> ts[i].date in dates
    ensures forall d :: d in totals <==> d in dates
    ensures forall d :: d in totals ==>
      totals[d] == DayTotal(DayIncome(ts, d), DayExpense(ts, d), LastBalance(ts, d))
  {
    totals := zero;
    var running := 0;
    var i := 0;
    while i < |ts|
      invariant 0 <= i <= |ts|
      invariant forall d :: d in totals <==> d in dates
      invariant forall d :: d in totals ==>
        totals[d] == DayTotal(DayIncome(ts[..i], d), DayExpense(ts[..i], d), LastBalance(ts[..i], d))
      invariant running == AmountSum(ts[..i])
    {
      var t := ts[i];
      PrefixStep(ts, i);
      var current := totals[t.date];
      if t.amount >= 0 {
        current := current.(income := current.income + t.amount);
      } else {
        current := current.(expense := current.expense + Abs(t.amount));
      }
      running := running + t.amount;
      current := current.(balance := running);
      totals := totals[t.date := current];
      i := i + 1;
    }
    assert ts[..i] == ts;
  }

  /** The second pass: a day whose balance is 0 and that has no record takes the previous
      day's balance. */
  method CarryBalances(ts: seq<Transaction>, dates: seq<string>, stamped: map<string, DayTotal>)
    returns (totals: map<string, DayTotal>)
    requires Distinct(dates)
    requires forall d :: d in stamped <==> d in dates
    requires forall d :: d in stamped ==>
      stamped[d] == DayTotal(DayIncome(ts, d), DayExpense(ts, d), LastBalance(ts, d))
    ensures forall d :: d in totals <==> d in dates
    ensures forall k :: 0 <= k < |dates| ==>
      totals[dates[k]] == DayTotal(DayIncome(ts, dates[k]), DayExpense(ts, dates[k]), ChartBalance(ts, dates, k))
  {
    totals := stamped;
    var previous := 0;
    var j := 0;
    while j < |dates|
      invariant 0 <= j <= |dates|
      invariant forall d :: d in totals <==> d in dates
      invariant forall k :: 0 <= k < j ==>
        totals[dates[k]] == DayTotal(DayIncome(ts, dates[k]), DayExpense(ts, dates[k]), ChartBalance(ts, dates, k))
      invariant forall k :: j <= k < |dates| ==> totals[dates[k]] == stamped[dates[k]]
      invariant previous == if j == 0 then 0 else ChartBalance(ts, dates, j - 1)
    {
      var d := dates[j];
      assert forall k :: 0 <= k < |dates| && k != j ==> dates[k] != d;
      var current := totals[d];
      if !HasRecordOn(ts, d) {
        NoRecordNoBalance(ts, d);
      }
      if current.balance == 0 && !HasRecordOn(ts, d) {
        current := current.(balance := previous);
        totals := totals[d := current];
      }
      previous := current.balance;
      j := j + 1;
    }
  }

  /** The spec functions on a prefix one record longer. */
  lemma PrefixStep(ts: seq<Transaction>, i: nat)
    requires i < |ts|
    ensures var t, p := ts[i], ts[..i + 1];
      p[..i] == ts[..i] && p[i] == t
      && (forall d :: DayIncome(p, d) == DayIncome(ts[..i], d) + (if t.date == d && t.amount >= 0 then t.amount else 0))
      && (forall d :: DayExpense(p, d) == DayExpense(ts[..i], d) + (if t.date == d && t.amount < 0 then -t.amount else 0))
      && (forall d :: LastBalance(p, d) == if t.date == d then AmountSum(p) else LastBalance(ts[..i], d))
      && AmountSum(p) == AmountSum(ts[..i]) + t.amount
  {
    assert ts[..i + 1][..i] == ts[..i];
  }

  /** A day without records has no balance of its own. */
  lemma {:induction false} NoRecordNoBalance(ts: seq<Transaction>, day: string)
    requires !HasRecordOn(ts, day)
    ensures LastBalance(ts, day) == 0
    decreases |ts|
  {
    if ts != [] {
      var front := ts[..|ts| - 1];
      assert !HasRecordOn(front, day) by {
        forall i | 0 <= i < |front|
          ensures front[i].date != day
        {
          assert front[i] == ts[i];
        }
      }
      NoRecordNoBalance(front, day);
    }
  }

  /** No two days of a month share a key. */
  lemma DaysDistinct(year: nat, month: nat)
    requires 1 <= month <= 12
    ensures Distinct(DaysOfMonth(year, month))
  {
    var days := DaysOfMonth(year, month);
    assert |days| <= 31;
    KeysDistinct(days, year, month);
  }

  /** Keys of distinct days below 100 differ. */
  lemma KeysDistinct(days: seq<string>, year: nat, month: nat)
    requires |days| < 99
    requires forall k :: 0 <= k < |days| ==> days[k] == DayKey(year, month, k + 1)
    ensures Distinct(days)
  {
    forall k, l | 0 <= k < |days| && 0 <= l < |days| && days[k] == days[l]
      ensures k == l
    {
      DayKeyInjective(year, month, k + 1, l + 1);
    }
  }

  lemma DayKeyInjective(year: nat, month: nat, a: nat, b: nat)
    requires a < 100 && b < 100 && DayKey(year, month, a) == DayKey(year, month, b)
    ensures a == b
  {
    var p := MonthKey(year, month) + "-";
    var x, y := Pad2(NatToString(a)), Pad2(NatToString(b));
    assert DayKey(year, month, a) == p + x && DayKey(year, month, b) == p + y;
    assert x == (p + x)[|p|..] && y == (p + y)[|p|..];
    TwoDigits(a);
    TwoDigits(b);
  }

  // ---------------------------------------------------------------- what the series mean

  /** A day with records shows the running balance at its last record, in input order. */
  lemma {:induction false} LastBalanceAt(ts: seq<Transaction>, day: string, k: nat)
    requires k < |ts| && ts[k].date == day
    requires forall j :: k < j < |ts| ==> ts[j].date != day
    ensures LastBalance(ts, day) == AmountSum(ts[..k + 1])
    decreases |ts|
  {
    if k < |ts| - 1 {
      var front := ts[..|ts| - 1];
      assert front[k] == ts[k];
      LastBalanceAt(front, day, k);
      assert front[..k + 1] == ts[..k + 1];
    } else {
      assert ts[..k + 1] == ts;
    }
  }

  /** A day without records shows the balance of the nearest earlier day with records. */
  lemma {:induction false} CarriedBalance(ts: seq<Transaction>, days: seq<string>, j: nat, k: nat)
    requires j <= k < |days| && HasRecordOn(ts, days[j])
    requires forall l :: j < l <= k ==> !HasRecordOn(ts, days[l])
    ensures ChartBalance(ts, days, k) == LastBalance(ts, days[j])
    decreases k
  {
    if j < k {
      CarriedBalance(ts, days, j, k - 1);
    }
  }

  /** Before the first day with records, the balance shown is 0. */
  lemma {:induction false} NoBalanceYet(ts: seq<Transaction>, days: seq<string>, k: nat)
    requires k < |days|
    requires forall l :: 0 <= l <= k ==> !HasRecordOn(ts, days[l])
    ensures ChartBalance(ts, days, k) == 0
    decreases k
  {
    if k > 0 {
      NoBalanceYet(ts, days, k - 1);
    }
  }

  /** The sum over the first `n` days of income minus expense. */
  function DaysNet(ts: seq<Transaction>, days: seq<string>, n: nat): int
    requires n <= |days|
  {
    if n == 0 then 0 else DaysNet(ts, days, n - 1) + DayIncome(ts, days[n - 1]) - DayExpense(ts, days[n - 1])
  }

  lemma {:induction false} DaysNetStep(ts: seq<Transaction>, t: Transaction, days: seq<string>, n: nat)
    requires n <= |days| && Distinct(days)
    ensures DaysNet(ts + [t], days, n) == DaysNet(ts, days, n) + (if t.date in days[..n] then t.amount else 0)
    decreases n
  {
    assert (ts + [t])[..|ts|] == ts;
    if n > 0 {
      DaysNetStep(ts, t, days, n - 1);
      assert days[..n] == days[..n - 1] + [days[n - 1]];
      if t.date == days[n - 1] {
        assert t.date !in days[..n - 1];
      }
    }
  }

  /** Nothing is lost or counted twice: when every record falls on one of the days, the
      days' incomes minus expenses add up to the sum of all amounts. */
  lemma {:induction false} DailyNetIsTotal(ts: seq<Transaction>, days: seq<string>)
    requires Distinct(days)
    requires forall i :: 0 <= i < |ts| ==> ts[i].date in days
    ensures DaysNet(ts, days, |days|) == AmountSum(ts)
    decreases |ts|
  {
    if ts == [] {
      DaysNetOfNothing(days, |days|);
    } else {
      var front, t := ts[..|ts| - 1], ts[|ts| - 1];
      DailyNetIsTotal(front, days);
      assert ts == front + [t];
      assert days[..|days|] == days;
      DaysNetStep(front, t, days, |days|);
    }
  }

  lemma {:induction false} DaysNetOfNothing(days: seq<string>, n: nat)
    requires n <= |days|
    ensures DaysNet([], days, n) == 0
    decreases n
  {
    if n > 0 {
      DaysNetOfNothing(days, n - 1);
    }
  }

  /** The chart's totals over its whole month, for well-placed records. */
  lemma ChartConservesAmounts(ts: seq<Transaction>, todayYear: nat, todayMonth: nat)
    requires 1 <= todayMonth <= 12
    requires ts != [] ==> IsoShaped(ts[0].date) && 1 <= MonthOf(ts[0].date) <= 12
    requires forall i :: 0 <= i < |ts| ==> ts[i].date in ShownDays(ts, todayYear, todayMonth)
    ensures var days := ShownDays(ts, todayYear, todayMonth); DaysNet(ts, days, |days|) == AmountSum(ts)
  {
    if ts == [] {
      DaysDistinct(todayYear, todayMonth);
    } else {
      DaysDistinct(YearOf(ts[0].date), MonthOf(ts[0].date));
    }
    DailyNetIsTotal(ts, ShownDays(ts, todayYear, todayMonth));
  }
}
