/**
 * `src/utils/exportUtils.ts`: the monthly and yearly plain-text reports. Amounts are printed
 * as a sign, a yen sign and the magnitude truncated to hundreds with thousands grouped by
 * commas. The report of a month sorts the caller's array in place by date before listing it;
 * the yearly report groups the records of the year by month, skips empty months, and puts the
 * sums of the monthly (truncated) totals at the top. The selected month is given as its year
 * and month numbers; writing the file is not modelled.
 */
module ExportUtils {
  import opened Text
  import opened Records
  import opened Rounding
  import opened Calendar
  import opened Sorting
  import opened Totals
  import ImportAmount

  // ---------------------------------------------------------------- formatAmount

  /** `formatAmount(amount)`: `+` for zero and above, `-` below, then `¥` and the magnitude
      truncated to hundreds, grouped by commas. */
  function FormatAmount(a: int): (r: string)
    ensures |r| >= 3 && r[1] == '¥'
    ensures r[0] == (if a >= 0 then '+' else '-')
    ensures forall i :: 2 <= i < |r| ==> DigitOrComma(r[i])
  {
    [if a >= 0 then '+' else '-'] + "¥" + Grouped(MagnitudeHundreds(a))
  }

  /** The grouped numeral reads back, commas dropped, as the number printed. */
  lemma {:induction false} GroupedNumeral(n: nat)
    ensures ImportAmount.NumeralValue(Grouped(n)) == n
    decreases n
  {
    var r := Grouped(n);
    RemoveCommasDigits(r);
    if n < 1000 {
      RemoveCommasOfDigits(r);
      NatToStringValue(n);
    } else {
      var g := Grouped(n / 1000);
      var digits := NatToString(n % 1000);
      var p := PadStart(digits, 3, '0');
      GroupedNumeral(n / 1000);
      NatToStringLength(n % 1000, 3);
      NatToStringValue(n % 1000);
      PadZerosValue(digits, 3);
      assert r == g + ([','] + p);
      var rg := RemoveCommas(g);
      DropComma(g, p);
      assert RemoveCommas(r) == rg + p;
      RemoveCommasDigits(g);
      assert NumberValue(rg) == n / 1000;
      NumberValueAppend(rg, p);
      assert Pow10(|p|) == 1000;
      assert NumberValue(rg + p) == (n / 1000) * 1000 + n % 1000 == n;
      assert NumberValue(RemoveCommas(r)) == n;
    }
  }

  lemma DropComma(g: string, p: string)
    requires AllDigits(p)
    ensures RemoveCommas(g + ([','] + p)) == RemoveCommas(g) + p
  {
    RemoveCommasAppend(g, [','] + p);
    ImportAmount.RemoveCommasCons(',', p);
    RemoveCommasOfDigits(p);
  }

  /** A printed amount reads back: its sign says whether the amount is below zero and its
      numeral is the magnitude truncated to hundreds. */
  lemma FormatAmountReadBack(a: int)
    ensures var r := FormatAmount(a);
      (r[0] == '-' <==> a < 0) && ImportAmount.NumeralValue(r[2..]) == MagnitudeHundreds(a)
  {
    var r := FormatAmount(a);
    assert r[2..] == Grouped(MagnitudeHundreds(a));
    GroupedNumeral(MagnitudeHundreds(a));
  }

  // ---------------------------------------------------------------- lines and totals

  /** The comparator `(a, b) => a.date.localeCompare(b.date)`, as "a may come before b". */
  predicate DateLe(a: Transaction, b: Transaction) { LexLe(a.date, b.date) }

  lemma DateOrderIsTotalPreorder()
    ensures IsTotalPreorder(DateLe)
  {
    forall a: Transaction, b: Transaction
      ensures DateLe(a, b) || DateLe(b, a)
    {
      LexLeTotal(a.date, b.date);
    }
    forall a: Transaction, b: Transaction, c: Transaction | DateLe(a, b) && DateLe(b, c)
      ensures DateLe(a, c)
    {
      LexLeTransitive(a.date, b.date, c.date);
    }
  }

  /** `${t.date}\t${formatAmount(t.amount)}\t${t.store}`. */
  function ReportLine(t: Transaction): string {
    t.date + "\t" + FormatAmount(t.amount) + "\t" + t.store
  }

  function ReportLines(ts: seq<Transaction>): (r: seq<string>)
    ensures |r| == |ts| && forall i :: 0 <= i < |ts| ==> r[i] == ReportLine(ts[i])
  {
    seq(|ts|, i requires 0 <= i < |ts| => ReportLine(ts[i]))
  }

  /** `Math.floor(sum / 100) * 100` of one side's sum: a multiple of 100 at most 99 below it. */
  function SideTotal(ts: seq<Transaction>, side: Side): (r: nat)
    ensures r % 100 == 0 && r <= SideSum(ts, side) < r + 100
  {
    FloorHundred(SideSum(ts, side))
  }

  /** `format(date, 'yyyy')`. */
  function YearKey(year: nat): string { PadStart(NatToString(year), 4, '0') }

  /** `format(date, 'yyyy-MM')`, and `${year}-${month.toString().padStart(2, '0')}`. */
  function MonthKey(year: nat, month: nat): string { YearKey(year) + "-" + Pad2(NatToString(month)) }

  // ---------------------------------------------------------------- monthly report

  /** The title and the three totals that open the monthly report. */
  function MonthlySummary(ts: seq<Transaction>, monthStr: string): seq<string> {
    var income, expense := SideTotal(ts, IncomeSide), SideTotal(ts, ExpenseSide);
    [ "=== " + monthStr + " 収支レポート ===",
      "総収入: " + FormatAmount(income),
      "総支出: " + FormatAmount(-(expense as int)),
      "残高: " + FormatAmount(income - expense) ]
  }

  const DetailsHeading: string := "=== 取引詳細 ==="

  /** The heading of the details, after an empty line. */
  const DetailsLine: string := "\n" + DetailsHeading

  /** The lines of `createMonthlyExportContent`, joined with newlines. */
  function MonthlyReport(ts: seq<Transaction>, monthStr: string): string {
    Join(MonthlySummary(ts, monthStr) + [DetailsLine] + ReportLines(InsertionSort(ts, DateLe)), '\n')
  }

  /** `createMonthlyExportContent(transactions, selectedMonth)`: the report, with the caller's
      array left sorted by date. */
  method CreateMonthlyExportContent(a: array<Transaction>, year: nat, month: nat) returns (content: string)
    modifies a
    ensures a[..] == InsertionSort(old(a[..]), DateLe)
    ensures content == MonthlyReport(old(a[..]), MonthKey(year, month))
  {
    var monthStr := MonthKey(year, month);
    var header := MonthlySummary(a[..], monthStr) + [DetailsLine];
    SortInPlace(a, DateLe);
    content := Join(header + ReportLines(a[..]), '\n');
  }

  predicate NoNewline(t: Transaction) { '\n' !in t.date && '\n' !in t.store }

  /** Read line by line, the monthly report is its header, an empty line, the heading of the
      details and then one line per record in date order, when no date or store holds a
      line break. */
  lemma MonthlyReportLines(ts: seq<Transaction>, monthStr: string)
    requires '\n' !in monthStr && forall i :: 0 <= i < |ts| ==> NoNewline(ts[i])
    ensures Split(MonthlyReport(ts, monthStr), '\n')
      == MonthlySummary(ts, monthStr) + ["", DetailsHeading] + ReportLines(InsertionSort(ts, DateLe))
  {
    DetailsNoNewline(ts);
    SummaryNoNewline(ts, monthStr);
    HeadedReportLines(MonthlySummary(ts, monthStr), ReportLines(InsertionSort(ts, DateLe)));
  }

  /** Lines free of line breaks, joined around the details heading, split back into those
      lines with the heading's empty line. */
  lemma HeadedReportLines(head: seq<string>, details: seq<string>)
    requires forall i :: 0 <= i < |head| ==> '\n' !in head[i]
    requires forall i :: 0 <= i < |details| ==> '\n' !in details[i]
    ensures Split(Join(head + [DetailsLine] + details, '\n'), '\n') == head + ["", DetailsHeading] + details
  {
    SplitReport(head, DetailsHeading, details);
    JoinBreaksLeading(head, DetailsLine, DetailsHeading, details, '\n');
  }

  lemma DetailsNoNewline(ts: seq<Transaction>)
    requires forall i :: 0 <= i < |ts| ==> NoNewline(ts[i])
    ensures forall i :: 0 <= i < |ts| ==> '\n' !in ReportLines(InsertionSort(ts, DateLe))[i]
  {
    var sorted := InsertionSort(ts, DateLe);
    SortPermutes(ts, DateLe);
    forall i | 0 <= i < |sorted|
      ensures '\n' !in ReportLine(sorted[i])
    {
      assert sorted[i] in multiset(ts);
      var k :| 0 <= k < |ts| && ts[k] == sorted[i];
      FormatNoNewline(sorted[i].amount);
    }
  }

  lemma SummaryNoNewline(ts: seq<Transaction>, monthStr: string)
    requires '\n' !in monthStr
    ensures forall i :: 0 <= i < |MonthlySummary(ts, monthStr)| ==> '\n' !in MonthlySummary(ts, monthStr)[i]
  {
    var income, expense := SideTotal(ts, IncomeSide), SideTotal(ts, ExpenseSide);
    FormatNoNewline(income);
    FormatNoNewline(-(expense as int));
    FormatNoNewline(income as int - expense);
  }

  /** A report whose lines are free of line breaks but one, which starts with a break, splits
      back into its lines with an empty line where that break was. */
  lemma SplitReport(head: seq<string>, x: string, details: seq<string>)
    requires forall i :: 0 <= i < |head| ==> '\n' !in head[i]
    requires '\n' !in x && forall i :: 0 <= i < |details| ==> '\n' !in details[i]
    ensures Split(Join(head + ["", x] + details, '\n'), '\n') == head + ["", x] + details
  {
    var parts := head + ["", x] + details;
    NoBreakInParts(head, x, details);
    SplitJoin(parts, '\n');
  }

  lemma NoBreakInParts(head: seq<string>, x: string, details: seq<string>)
    requires forall i :: 0 <= i < |head| ==> '\n' !in head[i]
    requires '\n' !in x && forall i :: 0 <= i < |details| ==> '\n' !in details[i]
    ensures var parts := head + ["", x] + details; forall i :: 0 <= i < |parts| ==> '\n' !in parts[i]
  {
    var front := head + ["", x];
    var parts := front + details;
    forall i | 0 <= i < |parts|
      ensures '\n' !in parts[i]
    {
      if i < |head| {
        assert parts[i] == head[i];
      } else if i < |front| {
        assert parts[i] == front[i];
      } else {
        assert parts[i] == details[i - |front|];
      }
    }
  }

  lemma FormatNoNewline(a: int)
    ensures '\n' !in FormatAmount(a)
  {
    var r := FormatAmount(a);
    forall i | 2 <= i < |r|
      ensures r[i] != '\n'
    {
      assert DigitOrComma(r[i]);
    }
  }

  /** The records of the monthly report are those given, each once, in date order. */
  lemma MonthlyDetailsSortedPermutation(ts: seq<Transaction>)
    ensures Sorted(InsertionSort(ts, DateLe), DateLe)
    ensures multiset(InsertionSort(ts, DateLe)) == multiset(ts)
  {
    DateOrderIsTotalPreorder();
    SortSorted(ts, DateLe);
    SortPermutes(ts, DateLe);
  }

  // ---------------------------------------------------------------- yearly report

  /** `monthlyData.get(monthStr)`: the records of the year whose date starts with the month. */
  function MonthGroup(yearly: seq<Transaction>, year: nat, month: nat): seq<Transaction> {
    WithPrefix(yearly, MonthKey(year, month))
  }

  /** `monthlyData`, month by month from January. */
  function MonthGroups(yearly: seq<Transaction>, year: nat): (groups: seq<seq<Transaction>>)
    ensures |groups| == 12
  {
    seq(12, k requires 0 <= k < 12 => MonthGroup(yearly, year, k + 1))
  }

  /** The four lines that open a month's section. */
  function SectionHeader(monthStr: string, income: nat, expense: nat): seq<string> {
    [ "=== " + monthStr + " ===",
      "総収入: " + FormatAmount(income),
      "総支出: " + FormatAmount(-(expense as int)),
      "残高: " + FormatAmount(income - expense) + "\n",
      "取引詳細:" ]
  }

  /** The lines one month adds to the yearly report; nothing for a month without records. */
  function MonthSection(monthStr: string, group: seq<Transaction>): seq<string> {
    if group == [] then []
    else
      SectionHeader(monthStr, SideTotal(group, IncomeSide), SideTotal(group, ExpenseSide))
      + ReportLines(InsertionSort(group, DateLe)) + [""]
  }

  /** The keys of the twelve months of `year`. */
  function MonthKeys(year: nat): (keys: seq<string>)
    ensures |keys| == 12
  {
    seq(12, k requires 0 <= k < 12 => MonthKey(year, k + 1))
  }

  /** The section of each month, January first. */
  function MonthSections(keys: seq<string>, groups: seq<seq<Transaction>>): (sections: seq<seq<string>>)
    requires |keys| == |groups|
    ensures |sections| == |groups|
  {
    seq(|groups|, k requires 0 <= k < |groups| => MonthSection(keys[k], groups[k]))
  }

  /** The first `k` parts, one after the other. */
  function Flatten<T>(parts: seq<seq<T>>, k: nat): seq<T>
    requires k <= |parts|
  {
    if k == 0 then [] else Flatten(parts, k - 1) + parts[k - 1]
  }

  /** `yearlyIncome` / `yearlyExpense` after the first `k` months: the monthly totals added up. */
  function YearTotal(groups: seq<seq<Transaction>>, k: nat, side: Side): nat
    requires k <= |groups|
  {
    if k == 0 then 0 else YearTotal(groups, k - 1, side) + SideTotal(groups[k - 1], side)
  }

  function YearlyTitle(year: nat): string { "=== " + YearKey(year) + "年 年間収支レポート ===\n" }

  /** The lines `unshift` puts above the title: the yearly totals and an empty line. */
  function YearHeader(income: nat, expense: nat): seq<string> {
    [ "年間総収入: " + FormatAmount(income),
      "年間総支出: " + FormatAmount(-(expense as int)),
      "年間残高: " + FormatAmount(income - expense),
      "" ]
  }

  /** The lines of `createYearlyExportContent`, joined with newlines. */
  function YearlyReport(ts: seq<Transaction>, year: nat): string {
    var groups := MonthGroups(WithPrefix(ts, YearKey(year)), year);
    var income, expense := YearTotal(groups, 12, IncomeSide), YearTotal(groups, 12, ExpenseSide);
    Join(YearHeader(income, expense) + [YearlyTitle(year)] + Flatten(MonthSections(MonthKeys(year), groups), 12), '\n')
  }

  /** `createYearlyExportContent(transactions, selectedMonth)`. */
  method CreateYearlyExportContent(ts: seq<Transaction>, year: nat) returns (content: string)
    ensures content == YearlyReport(ts, year)
  {
    var yearly := WithPrefix(ts, YearKey(year));
    var monthlyData := CollectMonths(yearly, year);
    ghost var groups := MonthGroups(yearly, year);
    ghost var sections := MonthSections(MonthKeys(year), groups);
    var lines, yearlyIncome, yearlyExpense := WriteMonths([YearlyTitle(year)], monthlyData, sections, groups);
    // the four `unshift` calls
    lines := YearHeader(yearlyIncome, yearlyExpense) + lines;
    content := Join(lines, '\n');
    assert lines == YearHeader(yearlyIncome, yearlyExpense) + [YearlyTitle(year)] + Flatten(sections, 12);
  }

  /** The `monthlyData` map, filled for months 1 to 12 in order. */
  method CollectMonths(yearly: seq<Transaction>, year: nat) returns (monthlyData: seq<(string, seq<Transaction>)>)
    ensures |monthlyData| == 12
    ensures forall k :: 0 <= k < 12 ==>
      monthlyData[k].0 == MonthKeys(year)[k] && monthlyData[k].1 == MonthGroups(yearly, year)[k]
  {
    var yearStr := YearKey(year);
    monthlyData := [];
    var month := 1;
    while month <= 12
      invariant 1 <= month <= 13 && |monthlyData| == month - 1
      invariant forall k :: 0 <= k < |monthlyData| ==>
        monthlyData[k] == (MonthKey(year, k + 1), MonthGroup(yearly, year, k + 1))
    {
      var monthStr := yearStr + "-" + Pad2(NatToString(month));
      monthlyData := monthlyData + [(monthStr, WithPrefix(yearly, monthStr))];
      month := month + 1;
    }
  }

  /** `monthlyData.forEach(...)`: the sections of the months with records pushed in order,
      and the monthly totals added up. */
  method WriteMonths(lines0: seq<string>, monthlyData: seq<(string, seq<Transaction>)>,
                     ghost sections: seq<seq<string>>, ghost groups: seq<seq<Transaction>>)
    returns (lines: seq<string>, yearlyIncome: nat, yearlyExpense: nat)
    requires |monthlyData| == |sections| == |groups|
    requires forall k :: 0 <= k < |monthlyData| ==>
      monthlyData[k].1 == groups[k] && sections[k] == MonthSection(monthlyData[k].0, groups[k])
    ensures lines == lines0 + Flatten(sections, |sections|)
    ensures yearlyIncome == YearTotal(groups, |groups|, IncomeSide)
    ensures yearlyExpense == YearTotal(groups, |groups|, ExpenseSide)
  {
    yearlyIncome, yearlyExpense := 0, 0;
    lines := lines0;
    var i := 0;
    while i < |monthlyData|
      invariant 0 <= i <= |monthlyData|
      invariant lines == lines0 + Flatten(sections, i)
      invariant yearlyIncome == YearTotal(groups, i, IncomeSide)
      invariant yearlyExpense == YearTotal(groups, i, ExpenseSide)
    {
      var monthStr, group := monthlyData[i].0, monthlyData[i].1;
      ghost var linesBefore, incomeBefore, expenseBefore := lines, yearlyIncome, yearlyExpense;
      lines, yearlyIncome, yearlyExpense := WriteMonth(lines, yearlyIncome, yearlyExpense, monthStr, group);
      MonthStep(lines0, sections, groups, i, linesBefore, lines, incomeBefore, yearlyIncome, expenseBefore, yearlyExpense);
      i := i + 1;
    }
  }

  /** One month of `monthlyData.forEach`: a month with records pushes its section and adds its
      totals; a month without records is skipped. */
  method WriteMonth(lines: seq<string>, income: nat, expense: nat, monthStr: string, group: seq<Transaction>)
    returns (lines': seq<string>, income': nat, expense': nat)
    ensures lines' == lines + MonthSection(monthStr, group)
    ensures income' == income + SideTotal(group, IncomeSide)
    ensures expense' == expense + SideTotal(group, ExpenseSide)
  {
    if |group| != 0 {
      var monthlyIncome, monthlyExpense;
      lines', monthlyIncome, monthlyExpense := PushMonth(lines, monthStr, group);
      income', expense' := income + monthlyIncome, expense + monthlyExpense;
    } else {
      EmptyMonth(monthStr, group);
      lines', income', expense' := lines, income, expense;
    }
  }

  /** One month moves the running report and totals from the first `i` months to the first
      `i + 1`. */
  lemma MonthStep(lines0: seq<string>, sections: seq<seq<string>>, groups: seq<seq<Transaction>>, i: nat,
                  lines: seq<string>, lines': seq<string>, income: nat, income': nat, expense: nat, expense': nat)
    requires i < |sections| == |groups|
    requires lines == lines0 + Flatten(sections, i) && lines' == lines + sections[i]
    requires income == YearTotal(groups, i, IncomeSide) && income' == income + SideTotal(groups[i], IncomeSide)
    requires expense == YearTotal(groups, i, ExpenseSide) && expense' == expense + SideTotal(groups[i], ExpenseSide)
    ensures lines' == lines0 + Flatten(sections, i + 1)
    ensures income' == YearTotal(groups, i + 1, IncomeSide) && expense' == YearTotal(groups, i + 1, ExpenseSide)
  {
    FlattenStep(lines0, sections, i);
  }

  lemma FlattenStep<T>(prefix: seq<T>, parts: seq<seq<T>>, i: nat)
    requires i < |parts|
    ensures prefix + Flatten(parts, i + 1) == (prefix + Flatten(parts, i)) + parts[i]
    ensures parts[i] == [] ==> prefix + Flatten(parts, i + 1) == prefix + Flatten(parts, i)
  {
  }

  /** A month without records adds no lines and nothing to the totals. */
  lemma EmptyMonth(monthStr: string, group: seq<Transaction>)
    requires group == []
    ensures MonthSection(monthStr, group) == []
    ensures SideTotal(group, IncomeSide) == 0 && SideTotal(group, ExpenseSide) == 0
  {
  }

  /** The body of `monthlyData.forEach` for a month with records: its totals, and its section
      pushed onto the report, the records sorted by date in a fresh array. */
  method PushMonth(lines: seq<string>, monthStr: string, group: seq<Transaction>)
    returns (lines': seq<string>, monthlyIncome: nat, monthlyExpense: nat)
    requires group != []
    ensures lines' == lines + MonthSection(monthStr, group)
    ensures monthlyIncome == SideTotal(group, IncomeSide) && monthlyExpense == SideTotal(group, ExpenseSide)
  {
    monthlyIncome := SideTotal(group, IncomeSide);
    monthlyExpense := SideTotal(group, ExpenseSide);
    lines' := lines + SectionHeader(monthStr, monthlyIncome, monthlyExpense);
    var sorted := new Transaction[|group|](k requires 0 <= k < |group| => group[k]);
    assert sorted[..] == group;
    SortInPlace(sorted, DateLe);
    lines' := PushLines(lines', sorted);
    lines' := lines' + [""];
  }

  /** `forEach(t => content.push(...))` over the sorted records. */
  method PushLines(lines: seq<string>, sorted: array<Transaction>) returns (lines': seq<string>)
    ensures lines' == lines + ReportLines(sorted[..])
  {
    lines' := lines;
    var j := 0;
    while j < sorted.Length
      invariant 0 <= j <= sorted.Length
      invariant lines' == lines + ReportLines(sorted[..j])
    {
      assert sorted[..j + 1] == sorted[..j] + [sorted[j]];
      lines' := lines' + [ReportLine(sorted[j])];
      j := j + 1;
    }
    assert sorted[..sorted.Length] == sorted[..];
  }

  // ---------------------------------------------------------------- yearly totals

  /** The records of `month` among the records of the year are the records of `month`. */
  lemma MonthGroupOfYear(ts: seq<Transaction>, year: nat, month: nat)
    ensures MonthGroup(WithPrefix(ts, YearKey(year)), year, month) == WithPrefix(ts, MonthKey(year, month))
  {
    var rest := "-" + Pad2(NatToString(month));
    assert MonthKey(year, month) == YearKey(year) + rest;
    WithPrefixNested(ts, YearKey(year), rest);
  }

  /** A record of the year whose date is well formed, with a month from 1 to 12. */
  predicate DatedIn(t: Transaction, year: nat) {
    IsoShaped(t.date) && StartsWith(t.date, YearKey(year)) && 1 <= MonthOf(t.date) <= 12
  }

  /** Such a record starts with the key of its own month and of no other. */
  lemma MonthKeyMatch(date: string, year: nat, month: nat)
    requires year < 10000 && 1 <= month <= 12
    requires IsoShaped(date) && StartsWith(date, YearKey(year))
    ensures StartsWith(date, MonthKey(year, month)) <==> MonthOf(date) == month
  {
    var y, p := YearKey(year), Pad2(NatToString(month));
    assert Pow10(4) == 10000;
    NatToStringLength(year, 4);
    TwoDigits(month);
    var key := MonthKey(year, month);
    assert |y| == 4 && |key| == 7;
    assert date[..7] == date[..4] + [date[4]] + date[5..7];
    assert key == y + ['-'] + p;
    if StartsWith(date, key) {
      assert date[5..7] == key[5..7] == p;
    }
    if MonthOf(date) == month {
      NumberValueInjective(date[5..7], p);
    }
  }

  /** The month a record's date names, 0 when the date is not shaped `dddd-dd-dd`. */
  function MonthIndex(t: Transaction): nat { if IsoShaped(t.date) then MonthOf(t.date) else 0 }

  /** The records whose month is `m`, in order. */
  function ByMonth(ts: seq<Transaction>, m: nat): seq<Transaction> {
    if ts == [] then []
    else
      var last := ts[|ts| - 1];
      ByMonth(ts[..|ts| - 1], m) + (if MonthIndex(last) == m then [last] else [])
  }

  /** For records of the year with well-formed dates, the month key selects by month. */
  lemma {:induction false} MonthGroupByMonth(yearly: seq<Transaction>, year: nat, m: nat)
    requires year < 10000 && 1 <= m <= 12
    requires forall i :: 0 <= i < |yearly| ==> DatedIn(yearly[i], year)
    ensures MonthGroup(yearly, year, m) == ByMonth(yearly, m)
    decreases |yearly|
  {
    if yearly != [] {
      var last := yearly[|yearly| - 1];
      MonthGroupByMonth(yearly[..|yearly| - 1], year, m);
      MonthKeyMatch(last.date, year, m);
    }
  }

  /** The untruncated sums of the first `k` groups, added up. */
  function GroupSums(groups: seq<seq<Transaction>>, k: nat, side: Side): nat
    requires k <= |groups|
  {
    if k == 0 then 0 else GroupSums(groups, k - 1, side) + SideSum(groups[k - 1], side)
  }

  function ByMonths(ts: seq<Transaction>): (groups: seq<seq<Transaction>>)
    ensures |groups| == 12
  {
    seq(12, k requires 0 <= k < 12 => ByMonth(ts, k + 1))
  }

  lemma {:induction false} GroupSumsStep(ts: seq<Transaction>, t: Transaction, k: nat, side: Side)
    requires k <= 12
    ensures GroupSums(ByMonths(ts + [t]), k, side)
      == GroupSums(ByMonths(ts), k, side) + (if 1 <= MonthIndex(t) <= k then Contribution(t, side) else 0)
    decreases k
  {
    if k > 0 {
      GroupSumsStep(ts, t, k - 1, side);
      var g := ByMonth(ts, k);
      assert (ts + [t])[..|ts|] == ts;
      if MonthIndex(t) == k {
        assert ByMonths(ts + [t])[k - 1] == g + [t];
        assert (g + [t])[..|g|] == g;
      } else {
        assert ByMonths(ts + [t])[k - 1] == g;
      }
    }
  }

  lemma {:induction false} GroupSumsOfNothing(k: nat, side: Side)
    requires k <= 12
    ensures GroupSums(ByMonths([]), k, side) == 0
    decreases k
  {
    if k > 0 {
      GroupSumsOfNothing(k - 1, side);
    }
  }

  /** When every month is between 1 and 12 the twelve months split the records: each is
      counted exactly once. */
  lemma {:induction false} MonthsPartition(ts: seq<Transaction>, side: Side)
    requires forall i :: 0 <= i < |ts| ==> 1 <= MonthIndex(ts[i]) <= 12
    ensures GroupSums(ByMonths(ts), 12, side) == SideSum(ts, side)
    decreases |ts|
  {
    if ts == [] {
      GroupSumsOfNothing(12, side);
    } else {
      var front, t := ts[..|ts| - 1], ts[|ts| - 1];
      MonthsPartition(front, side);
      assert ts == front + [t];
      GroupSumsStep(front, t, 12, side);
    }
  }

  /** Each month's total is truncated on its own, so the first `k` months lose less than 100
      each. */
  lemma {:induction false} YearTotalBracket(groups: seq<seq<Transaction>>, k: nat, side: Side)
    requires k <= |groups|
    ensures YearTotal(groups, k, side) % 100 == 0
    ensures YearTotal(groups, k, side) <= GroupSums(groups, k, side) <= YearTotal(groups, k, side) + 99 * k
    decreases k
  {
    if k > 0 {
      YearTotalBracket(groups, k - 1, side);
      var prev, month := YearTotal(groups, k - 1, side), SideTotal(groups[k - 1], side);
      assert YearTotal(groups, k, side) == prev + month;
      assert (prev + month) % 100 == 0 by { HundredsAdd(prev, month); }
      assert 99 * k == 99 * (k - 1) + 99;
    }
  }

  lemma HundredsAdd(a: int, b: int)
    requires a % 100 == 0 && b % 100 == 0
    ensures (a + b) % 100 == 0
  {
    assert a == 100 * (a / 100) && b == 100 * (b / 100);
    assert a + b == 100 * (a / 100 + b / 100);
  }

  /** With well-formed dates the year's records are split by the twelve month keys: each is
      counted in exactly one month. */
  lemma YearSplitsIntoMonths(ts: seq<Transaction>, year: nat, side: Side)
    requires year < 10000
    requires forall i :: 0 <= i < |ts| ==> StartsWith(ts[i].date, YearKey(year)) ==> DatedIn(ts[i], year)
    ensures var yearly := WithPrefix(ts, YearKey(year));
      SideSum(yearly, side) == GroupSums(MonthGroups(yearly, year), 12, side)
  {
    var yearly := WithPrefix(ts, YearKey(year));
    forall i | 0 <= i < |yearly|
      ensures DatedIn(yearly[i], year)
    {
      WithPrefixKeeps(ts, YearKey(year), yearly[i]);
    }
    var groups := MonthGroups(yearly, year);
    forall k | 0 <= k < 12
      ensures groups[k] == ByMonths(yearly)[k]
    {
      MonthGroupByMonth(yearly, year, k + 1);
    }
    assert groups == ByMonths(yearly);
    MonthsPartition(yearly, side);
  }

  /** The yearly totals are the monthly truncated totals added up: with well-formed dates they
      are multiples of 100 at most 12 * 99 below the true sums of the year's records. */
  lemma YearlyTotals(ts: seq<Transaction>, year: nat, side: Side)
    requires year < 10000
    requires forall i :: 0 <= i < |ts| ==> StartsWith(ts[i].date, YearKey(year)) ==> DatedIn(ts[i], year)
    ensures var yearly := WithPrefix(ts, YearKey(year)); var total := YearTotal(MonthGroups(yearly, year), 12, side);
      total % 100 == 0 && total <= SideSum(yearly, side) <= total + 1188
  {
    YearSplitsIntoMonths(ts, year, side);
    YearTotalBracket(MonthGroups(WithPrefix(ts, YearKey(year)), year), 12, side);
  }
}
