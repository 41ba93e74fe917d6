# Household account book: a Dafny model of its record handling

The application keeps a list of income and expense records (date, store, signed amount in
yen, type). It imports them from plain-text bank or card statements and from text recognised
on a receipt, and takes them from an entry form. It edits them in a table, summarises them per
month or year, charts them day by day, exports monthly and yearly text reports, and writes
and checks backups.

This project models the logic behind those features, one Dafny module per source file:

- the statement importer, split into `ImportDate`, `ImportAmount` and `ImportParser`;
- record creation (`TransactionUtils`);
- the record store of the application (`UseTransactions`);
- backups (`BackupUtils`);
- the report writer (`ExportUtils`);
- the summary panel (`Summary`);
- the chart's daily series (`TransactionChart`);
- the table's order, edit state and display (`TransactionList`);
- the entry form (`TransactionForm`);
- the receipt-text extraction (`OcrImport`).
- the round trip of a report's detail line back through the importer (`ReportReimport`).

Shared modules hold the record types (`Records`), the two hundred-truncation policies
(`Rounding`), the calendar (`Calendar`), the string operations of JavaScript the code relies
on (`Options`, `Text`), a stable insertion sort (`Sorting`) and the income/expense sums
(`Totals`).

The model takes the source's own form:

- Pure functions are Dafny functions with lemmas.
- Loops are methods with invariants, each proved equal to a specification function:
  - the store-name clean-up;
  - the line and file loops of the importer;
  - the yearly report;
  - the chart's map passes;
  - the array sort.
- The components whose state changes are classes whose methods reassign their fields:
  - the record list (`UseTransactions.TransactionStore`);
  - the list view's sort and edit state (`TransactionList.ListView`);
  - the form (`TransactionForm.FormState`).
- Regular expressions are hand-written scanners over string positions, with the leftmost and
  greedy choices of a JavaScript matcher.

Amounts are unbounded integers. Dafny's `/` with the divisor 100 floors, exactly like
`Math.floor(a / 100)`.

## Model

| member | source | states |
|---|---|---|
| Rounding.MagnitudeHundreds | src/utils/importParser.ts:60-62 | the importer's `roundToHundred`: a multiple of 100 within 100 below the magnitude |
| Rounding.FloorHundred | src/utils/transactionUtils.ts:3-5 | `Math.floor(a / 100) * 100`: a multiple of 100 with `a - 100 < r <= a` |
| Rounding.FloorHundredIsGreatest | src/utils/transactionUtils.ts:3-5 | the floored value is the greatest multiple of 100 not above `a` |
| Rounding.FloorHundredSign | src/utils/backupUtils.ts:43-44 | flooring keeps the sign: the result is `>= 0` exactly when `a >= 0` |
| Rounding.FloorHundredIdempotent | src/utils/transactionUtils.ts:3-5 | flooring twice is flooring once |
| Rounding.FloorHundredOfMultiple | src/utils/transactionUtils.ts:10 | a multiple of 100 is left unchanged |
| Rounding.PoliciesCompared | src/utils/importParser.ts:60-62 | the two policies agree on `a >= 0` and on negative multiples of 100; on other negative amounts the signed floor lies 100 further from zero (−150 → −200 against 100) |
| Calendar.DaysInMonth | src/components/TransactionChart.tsx:48-49 | a month has 28 to 31 days, February 29 exactly in leap years |
| ImportDate.RemoveSpaces | src/utils/importParser.ts:20 | the cleaned date holds no whitespace and a date without whitespace is unchanged |
| ImportDate.PairExact | src/utils/importParser.ts:23 | `^\d{1,2}\/\d{1,2}$` matches exactly one or two digits, the separator and one or two digits |
| ImportDate.MatchDateFields | src/utils/importParser.ts:35 | `^(\d{4})?[-/]?(\d{1,2})[-/](\d{1,2})$` yields an optional four-digit year and one- or two-character month and day |
| ImportDate.PairPrefixLen | src/utils/importParser.ts:130 | the `M/D` alternative of the line's date pattern takes 3 to 5 characters that `PairExact` accepts |
| ImportDate.DateTokenLen | src/utils/importParser.ts:130 | a date token at the head of a line is at least 3 characters long |
| ImportDate.ValidateDigitsAndSeparators | src/utils/importParser.ts:14-20 | a non-empty date of digits and separators passes the emptiness check and is cleaned to itself |
| ImportDate.ValidatePair | src/utils/importParser.ts:23-31 | an `M/D` date is accepted with the current or clock year and never calendar-checked |
| ImportDate.ValidateFields | src/utils/importParser.ts:35-49 | a full date is assembled zero-padded and accepted exactly when the date check accepts it |
| ImportDate.MonthDayDate | src/utils/importParser.ts:22-31 | `m/d` becomes `<year>-MM-DD` with the header year, else the clock year |
| ImportDate.FullDate | src/utils/importParser.ts:35-56 | `YYYY[-/]M[-/]D` becomes `YYYY-MM-DD` when the date check accepts it and is rejected as an invalid date otherwise |
| ImportDate.February30 | src/utils/importParser.ts:44-49 | `2024-02-30` is rejected by the calendar check and kept by the range-only check |
| ImportDate.DateTokenValidates | src/utils/importParser.ts:130-134 | a recognised date token always passes the empty and format checks; an `M/D` token is always valid |
| ImportDate.ValidateDate | src/utils/importParser.ts:10-57 | `validateDate`: empty after trimming is an error, spaces are removed and the year defaults to the file's header year or the clock; its outcomes are stated by ValidateDigitsAndSeparators, MonthDayDate, FullDate and February30 |
| ImportAmount.DigitRunEnd | src/utils/importParser.ts:140 | `\d+` from a position ends at the first non-digit |
| ImportAmount.GroupsEnd | src/utils/importParser.ts:140 | `(?:,\d{3})*` stops before the first position that does not begin a group |
| ImportAmount.NumeralStart | src/utils/importParser.ts:140 | after a sign the numeral starts right away or after one yen sign, and nowhere else |
| ImportAmount.TokenEnd | src/utils/importParser.ts:140 | a token starts with a sign and spans at least two characters |
| ImportAmount.ScanTokens | src/utils/importParser.ts:140 | every token `matchAll` finds is well-formed |
| ImportAmount.ScannedTokensOccur | src/utils/importParser.ts:140 | every token found occurs in the text at or after the scan start |
| ImportAmount.UnsignedTextHasNoTokens | src/utils/importParser.ts:140-141 | text without a sign character holds no amount token |
| ImportAmount.Resolve | src/utils/importParser.ts:78-85 | `+` gives income with the truncated magnitude, anything else an expense with it negated |
| ImportAmount.NoDigitNoAmount | src/utils/importParser.ts:71-72 | `parseAmount` returns null on text without a digit |
| ImportAmount.TokenParses | src/utils/importParser.ts:69-85 | a found token parses back to its own sign and numeral value |
| ImportAmount.SmallExpense | src/utils/importParser.ts:79-84 | `-50` gives amount 0 typed expense |
| ImportAmount.GroupedIncome | src/utils/importParser.ts:71-85 | `+¥1,250` gives 1200 income, commas removed |
| ImportAmount.ParseAmount | src/utils/importParser.ts:69-86 | `parseAmount`: no digit gives `null`, otherwise the sign, the comma-free digits floored to hundreds and the kind from the sign; stated by NoDigitNoAmount, TokenParses, SmallExpense and GroupedIncome |
| ImportParser.StoreLabel | src/utils/importParser.ts:88-110 | the store label is non-empty, trimmed, space-collapsed and free of `=` and tabs |
| ImportParser.ExtractStoreName | src/utils/importParser.ts:88-110 | the method with its `forEach` loop computes `StoreLabel` |
| ImportParser.TidyIdempotent | src/utils/importParser.ts:104-109 | the final clean-up is idempotent |
| ImportParser.EqualsAndTabStrippingIsNoOp | src/utils/importParser.ts:101-107 | on a part without `=` or tab the split and the `[=\t]` removal change nothing |
| ImportParser.NormalizeLine | src/utils/importParser.ts:121-123 | the normalised line is trimmed and collapsed, and empty exactly for a blank line |
| ImportParser.AnalyzePart | src/utils/importParser.ts:126-141 | an analysed part has at least one token and every token is well-formed |
| ImportParser.AnalyzeLine | src/utils/importParser.ts:115-141 | only the text before the first `=` is analysed, and it holds no `=` or tab |
| ImportParser.PartFacts | src/utils/importParser.ts:130-140 | the date is the head of the part, validated, and the tokens are scanned only after it |
| ImportParser.ParseLine | src/utils/importParser.ts:112-164 | the method computes `LineDrafts` |
| ImportParser.PushDrafts | src/utils/importParser.ts:151-161 | the `forEach` pushes one record per token in order |
| ImportParser.DraftsOfTokens | src/utils/importParser.ts:151-161 | one record per token, each the token's own record |
| ImportParser.LineFanOut | src/utils/importParser.ts:137-161 | a line yields exactly one record per token, in token order, sharing one date and one store |
| ImportParser.LineYieldsIffAnalyzed | src/utils/importParser.ts:112-164 | a line yields records exactly when it has a date and at least one token |
| ImportParser.TokenDraftFacts | src/utils/importParser.ts:152-159 | a token's record keeps date and store, is income iff the sign is `+`, and has the truncated magnitude with the matching sign |
| ImportParser.LineRecords | src/utils/importParser.ts:112-164 | every record of a line has a multiple-of-100 amount, a sign matching its type, the line's date and a clean store |
| ImportParser.SkippedLines | src/utils/importParser.ts:116-118 | blank lines and lines containing `===` yield nothing |
| ImportParser.UndatedLines | src/utils/importParser.ts:126-131 | an empty part before `=` or one not starting with a date yields nothing |
| ImportParser.UnsignedLines | src/utils/importParser.ts:140-141 | no sign after the date means no records |
| ImportParser.NoRecordsWithoutAnalysis | src/utils/importParser.ts:126-141 | a part that does not analyse yields nothing |
| ImportParser.UnsignedPart | src/utils/importParser.ts:137-141 | numbers without a sign are never read as amounts |
| ImportParser.TokensFromTransactionPart | src/utils/importParser.ts:126-140 | every token lies inside the part before `=` and after the date token |
| ImportParser.LineDate | src/utils/importParser.ts:130-134 | the records' date is the validated date token |
| ImportParser.LineDrafts | src/utils/importParser.ts:112-164 | `parseLine`'s result: one draft per amount token of the analysed line; stated by LineFanOut, LineYieldsIffAnalyzed, LineRecords, SkippedLines, UndatedLines and UnsignedLines, and ParseLine is proved equal to it |
| ImportParser.HeaderFrom | src/utils/importParser.ts:185 | a header match yields four digits |
| ImportParser.HeaderFound | src/utils/importParser.ts:185 | the year comes from the leftmost `NNNN年M月` or `NNNN-M月` |
| ImportParser.HeaderAbsent | src/utils/importParser.ts:185 | no header means no match anywhere |
| ImportParser.HeaderForms | src/utils/importParser.ts:185 | `2024年3月` and `2023-12月` are headers and an ISO date is not |
| ImportParser.ParseTransactionFile | src/utils/importParser.ts:173-194 | the line loop computes `ParseDocument`, carrying the year from line to line |
| ImportParser.ReadLine | src/utils/importParser.ts:181-193 | one iteration: its records and the year after the line |
| ImportParser.LineOfFileCases | src/utils/importParser.ts:181-193 | a blank line does nothing; a header line sets the year and yields nothing; any other line is parsed trimmed with the current year |
| ImportParser.DocumentConcat | src/utils/importParser.ts:180-194 | the output is the per-line results concatenated in line order |
| ImportParser.HeaderLine | src/utils/importParser.ts:185-189 | a header line yields nothing and sets the year for the rest |
| ImportParser.RecordLine | src/utils/importParser.ts:192-193 | any other line contributes its records and keeps the year |
| ImportParser.ParseDocument | src/utils/importParser.ts:173-194 | `parseTransactionFile`'s result over the text's lines with the header year threaded through; stated by DocumentConcat, HeaderLine, RecordLine and DocumentRecords, and ParseTransactionFile is proved equal to it |
| ImportParser.DocumentRecords | src/utils/importParser.ts:173-194 | every record of a file's line loop, from any year on, has an amount that is a multiple of 100, income never negative, expense never positive, and a non-empty, trimmed, single-spaced store without `=` or tabs |
| ImportParser.ParsedRecordsClean | src/utils/importParser.ts:166-197 | every record `parseTransactionFile` returns has those properties |
| TransactionUtils.CreateTransaction | src/utils/transactionUtils.ts:7-13 | keeps date, store and type, attaches the id, floors the amount |
| TransactionUtils.CreateKeepsRoundedDraft | src/utils/transactionUtils.ts:10 | an amount already a multiple of 100 is kept and the type is never recomputed |
| TransactionUtils.CreateIdempotent | src/utils/transactionUtils.ts:7-13 | creating from a created record gives the same record under the new id |
| TransactionUtils.CreateTransactions | src/utils/transactionUtils.ts:15-17 | same length and order, element by element |
| TransactionUtils.CreateTransactionsKeepRoundedDrafts | src/utils/transactionUtils.ts:15-17 | imported records, whose amounts are multiples of 100, are stored unchanged |
| BackupUtils.BackupOf | src/utils/backupUtils.ts:9-21 | a valid backup reads back with one record per array element |
| BackupUtils.SanitizeTransaction | src/utils/backupUtils.ts:39-46 | keeps id and date, floors the amount, and types it income iff the original amount is `>= 0` |
| BackupUtils.CreateBackupData | src/utils/backupUtils.ts:48-54 | version `1.0`, the given timestamp and the sanitised records in order |
| BackupUtils.SanitizedIsConsistent | src/utils/backupUtils.ts:43-44 | a sanitised record satisfies amount `>= 0` iff income |
| BackupUtils.SanitizedStore | src/utils/backupUtils.ts:42 | the store is trimmed, or `未指定` when trimming empties it |
| BackupUtils.SanitizeIdempotent | src/utils/backupUtils.ts:39-46 | sanitising twice is sanitising once |
| BackupUtils.ShapeOnlyValidation | src/utils/backupUtils.ts:30-35 | `2024-99-99`, an empty store and an amount inconsistent with the type pass validation |
| BackupUtils.BadDateRejected | src/utils/backupUtils.ts:32 | a date not shaped `dddd-dd-dd` fails validation |
| BackupUtils.TransactionRoundTrip | src/utils/backupUtils.ts:23-37 | a record with a well-shaped date is valid and reads back as itself |
| BackupUtils.BackupRoundTrip | src/utils/backupUtils.ts:9-37 | a backup is valid exactly when all its dates are well-shaped, and then reads back as itself |
| BackupUtils.CreatedBackupValidates | src/utils/backupUtils.ts:48-54 | a created backup of well-dated records validates and reads back unchanged |
| BackupUtils.NonObjectsRejected | src/utils/backupUtils.ts:10-12 | anything other than an object fails validation |
| BackupUtils.IsValidTransaction | src/utils/backupUtils.ts:23-37 | `isValidTransaction`: an object with string id, ISO-shaped date, string store, number amount and a kind of income or expense; ShapeOnlyValidation, BadDateRejected and TransactionRoundTrip state it |
| BackupUtils.ValidateBackupData | src/utils/backupUtils.ts:9-21 | `validateBackupData`: an object with string version and timestamp and an array of valid records; BackupRoundTrip, CreatedBackupValidates and NonObjectsRejected state it |
| ExportUtils.FormatAmount | src/utils/exportUtils.ts:5-9 | `+` for `a >= 0`, else `-`, then `¥` and digits grouped by commas |
| ExportUtils.GroupedNumeral | src/utils/exportUtils.ts:8 | the comma-grouped numeral reads back as the number |
| ExportUtils.FormatAmountReadBack | src/utils/exportUtils.ts:5-9 | the printed sign is `-` iff `a < 0` and the printed figure reads back as the truncated magnitude |
| ExportUtils.DateOrderIsTotalPreorder | src/utils/exportUtils.ts:32 | `localeCompare` on dates is a total preorder |
| ExportUtils.ReportLines | src/utils/exportUtils.ts:33 | exactly one `date\tamount\tstore` line per record, in order |
| ExportUtils.ReportLine | src/utils/exportUtils.ts:33 | one detail line: date, printed amount and store separated by tabs; ReportReimport.ReportLineReimports proves the importer reads it back as the record |
| ExportUtils.SideTotal | src/utils/exportUtils.ts:17-22 | a total is the side's exact sum floored to a multiple of 100 |
| ExportUtils.CreateMonthlyExportContent | src/utils/exportUtils.ts:11-37 | sorts the caller's array in place by date; returns MonthlyReport of the contents before the sort, whose totals come from those records and whose detail lines are in date order |
| ExportUtils.MonthlyReportLines | src/utils/exportUtils.ts:25-34 | line by line: title, income, expense, balance, an empty line, the details heading, then one line per record in date order |
| ExportUtils.MonthlyDetailsSortedPermutation | src/utils/exportUtils.ts:31-33 | the details are every record once, sorted by date |
| ExportUtils.MonthlyReport | src/utils/exportUtils.ts:11-37 | the monthly report text; MonthlyReportLines states its lines, MonthlyDetailsSortedPermutation its date-ordered details, and CreateMonthlyExportContent is proved to return it |
| ExportUtils.CreateYearlyExportContent | src/utils/exportUtils.ts:53-105 | computes the yearly report: year header, title, then the non-empty months in order |
| ReportReimport.ReportLineReimports | src/utils/exportUtils.ts:33 | a detail line read back by `parseLine` gives exactly one record: the record's date, store and amount, typed income unless the amount is negative. This holds when the amount is a multiple of 100, the date is a valid `YYYY-MM-DD`, and the store is trimmed, space-collapsed, free of `=` and holds no sign followed by a figure |
| ReportReimport.TabbedDrafts | src/utils/importParser.ts:112-164 | a date, a printed amount and a tidy store joined by tabs yield the printed amount's record, with that date and that store |
| ReportReimport.TabbedAnalysis | src/utils/importParser.ts:115-141 | such a line is not skipped; its date token is the date and its only token is the printed amount |
| ReportReimport.NormalizeTabbed | src/utils/importParser.ts:121-123 | normalisation turns the two tabs into single spaces and changes nothing else |
| ReportReimport.ReportDate | src/utils/importParser.ts:130-134 | a valid `YYYY-MM-DD` date is a ten-character date token and validates to itself |
| ReportReimport.ScanAfterDate | src/utils/importParser.ts:137-140 | after the date, the amount scan finds the printed amount and nothing in the store |
| ReportReimport.NoTokensAfter | src/utils/importParser.ts:140 | text with no sign followed by a digit, or by a yen sign and a digit, gives no token |
| ReportReimport.PrintedToken | src/utils/importParser.ts:140 | a printed amount not followed by a digit or a comma is matched whole |
| ReportReimport.PrintedIsToken | src/utils/importParser.ts:140 | a printed amount on its own is a well-formed token whose numeral is the printed figure |
| ReportReimport.ShapedEnd | src/utils/importParser.ts:140 | `\d+(?:,\d{3})*` reads digits followed by `,ddd` groups up to their end |
| ReportReimport.GroupedHasShape | src/utils/exportUtils.ts:8 | the comma-grouped figure is digits followed by `,ddd` groups |
| ReportReimport.AmountReadBack | src/utils/exportUtils.ts:5-9 | `parseAmount` of a printed multiple of 100 gives back the amount, typed income unless it is negative |
| ReportReimport.ReportStoreLabel | src/utils/importParser.ts:88-110 | once the date and the printed amount are removed, the store label is the store itself |
| ExportUtils.CollectMonths | src/utils/exportUtils.ts:57-61 | the map holds months 01 to 12 in order with each month's records |
| ExportUtils.WriteMonths | src/utils/exportUtils.ts:67-96 | the `forEach` writes every month's section in order and adds up the monthly totals |
| ExportUtils.WriteMonth | src/utils/exportUtils.ts:67-96 | one month: a month with records pushes its section and adds its totals; an empty month is skipped |
| ExportUtils.PushMonth | src/utils/exportUtils.ts:70-95 | a month's totals and its header, sorted details and empty line |
| ExportUtils.PushLines | src/utils/exportUtils.ts:89-93 | one line per sorted record |
| ExportUtils.EmptyMonth | src/utils/exportUtils.ts:68 | an empty month adds no line and nothing to the totals |
| ExportUtils.MonthGroupOfYear | src/utils/exportUtils.ts:55-60 | the month's records among the year's are the month's records |
| ExportUtils.MonthKeyMatch | src/utils/exportUtils.ts:59-60 | for a well-shaped date of the year, the month prefix matches exactly its month |
| ExportUtils.MonthsPartition | src/utils/exportUtils.ts:57-61 | the twelve month groups split the year's records: each is counted exactly once |
| ExportUtils.YearSplitsIntoMonths | src/utils/exportUtils.ts:55-61 | the year's sum is the sum of its twelve month groups |
| ExportUtils.YearTotalBracket | src/utils/exportUtils.ts:73-81 | the yearly figure sums truncated monthly totals: a multiple of 100, at most 99 per month below the exact sum |
| ExportUtils.YearlyTotals | src/utils/exportUtils.ts:63-81 | the yearly figures are at most 1188 below the exact sums of the year's records |
| ExportUtils.YearlyReport | src/utils/exportUtils.ts:53-105 | the yearly report text: header totals, title and the non-empty month sections; YearlyTotals, MonthsPartition and YearSplitsIntoMonths state it, and CreateYearlyExportContent is proved to return it |
| Totals.Contribution | src/components/Summary.tsx:20-26 | a record contributes to income iff its amount is positive, and a zero amount to neither side |
| Totals.IncomeIsSumOfPositives | src/components/Summary.tsx:20-22 | income is the sum of the strictly positive amounts |
| Totals.ExpenseIsSumOfNegatives | src/components/Summary.tsx:24-26 | expense is minus the sum of the strictly negative amounts |
| Totals.NetIsAmountSum | src/components/Summary.tsx:28 | income minus expense is the plain sum of the amounts |
| Totals.WithPrefix | src/components/Summary.tsx:16-18 | every kept record's date starts with the prefix |
| Totals.WithPrefixKeeps | src/components/Summary.tsx:16-18 | a record is kept exactly when it is in the list and its date starts with the prefix |
| Totals.WithPrefixNested | src/utils/exportUtils.ts:55-60 | filtering by the year, then by the month, is filtering by the month |
| Totals.ZeroAmountAddsNothing | src/components/Summary.tsx:21-25 | a zero amount adds nothing to either sum |
| Totals.SortSideSum | src/utils/exportUtils.ts:32 | sorting does not change the sums |
| Sorting.SortPermutes | src/utils/exportUtils.ts:32 | the sort keeps every element exactly once |
| Sorting.SortSorted | src/utils/exportUtils.ts:32 | under a total preorder the result is sorted |
| Sorting.SortStable | src/utils/exportUtils.ts:32 | elements tied under the comparator keep their relative order |
| UseTransactions.TransactionStore.constructor | src/hooks/useTransactions.ts:6-9 | the store starts with the saved list |
| UseTransactions.TransactionStore.AddTransaction | src/hooks/useTransactions.ts:15-17 | appends exactly the created record, earlier records unchanged |
| UseTransactions.TransactionStore.AddTransactions | src/hooks/useTransactions.ts:19-21 | appends the created records in input order |
| UseTransactions.TransactionStore.DeleteTransaction | src/hooks/useTransactions.ts:23-25 | the list becomes `WithoutId` of the old list |
| UseTransactions.TransactionStore.EditTransaction | src/hooks/useTransactions.ts:27-35 | the list becomes `EditAll` of the old list |
| UseTransactions.WithoutIdKeeps | src/hooks/useTransactions.ts:24 | a record survives a delete exactly when it was there with another id |
| UseTransactions.WithoutIdAppend | src/hooks/useTransactions.ts:24 | deleting keeps the remaining records in order |
| UseTransactions.DeleteUndoesAdd | src/hooks/useTransactions.ts:15-25 | deleting a freshly added id restores the list |
| UseTransactions.EditAllAt | src/hooks/useTransactions.ts:27-35 | each position is edited iff its id matches, and ids are kept |
| UseTransactions.EditedFields | src/hooks/useTransactions.ts:29-33 | given fields override; a non-zero amount is floored and 0 or none keeps the old amount; id and type are kept unless given |
| UseTransactions.EmptyEditIsIdentity | src/hooks/useTransactions.ts:32 | an edit with no fields and amount 0 or none changes nothing |
| UseTransactions.EditKeepsIdentities | src/hooks/useTransactions.ts:27-35 | the length is kept, and records with other ids are unchanged |
| UseTransactions.ImportedRecordsStoredUnchanged | src/hooks/useTransactions.ts:19-21 | drafts whose amounts are multiples of 100, appended to the store, keep their fields, the old records untouched |
| UseTransactions.ImportThenStore | src/hooks/useTransactions.ts:19-21 | for any file text, every record `parseTransactionFile` reads is stored by `addTransactions` with its date, store, amount and type unchanged, after the records already held |
| UseTransactions.Edited | src/hooks/useTransactions.ts:29-33 | one record merged with an update, the amount floored to hundreds when given; stated by EditedFields and EmptyEditIsIdentity |
| UseTransactions.WithoutId | src/hooks/useTransactions.ts:24 | the `filter` of `deleteTransaction`; stated by WithoutIdKeeps, WithoutIdAppend and DeleteUndoesAdd |
| UseTransactions.EditAll | src/hooks/useTransactions.ts:28-34 | the `map` of `editTransaction`; stated by EditAllAt, EditKeepsIdentities and EmptyEditIsIdentity |
| Summary.ComputeStats | src/components/Summary.tsx:12-31 | the balance is the plain sum of the selected amounts |
| Summary.StatsArePipelines | src/components/Summary.tsx:20-28 | income and expense are the filter-and-add pipelines, and the balance is their difference |
| Summary.PeriodMembership | src/components/Summary.tsx:13-18 | the selection is exactly the records whose date starts with the year or month key |
| Summary.MonthWithinYear | src/components/Summary.tsx:13-18 | the monthly selection narrows the yearly one |
| Summary.ZeroAmountIgnored | src/components/Summary.tsx:21-25 | a zero-amount record changes none of the three figures |
| Summary.YearIsTwelveMonths | src/components/Summary.tsx:13-26 | with well-formed dates the year's income and expense are the sums of its twelve months |
| TransactionChart.DaysOfMonth | src/components/TransactionChart.tsx:48-49 | one entry per day of the month |
| TransactionChart.DaysDistinct | src/components/TransactionChart.tsx:48-49 | the days of a month are distinct |
| TransactionChart.DailyTotals | src/components/TransactionChart.tsx:35-86 | the days of the first record's month, or of the current month; each day's income, negated expense and balance |
| TransactionChart.DaySeries | src/components/TransactionChart.tsx:52-86 | three series, one entry per day |
| TransactionChart.ZeroTotals | src/components/TransactionChart.tsx:52-55 | every day starts at zero |
| TransactionChart.AddRecords | src/components/TransactionChart.tsx:58-72 | a day's income sums its amounts `>= 0`, its expense the magnitudes of its negative amounts, and its balance is the running sum at its last record |
| TransactionChart.CarryBalances | src/components/TransactionChart.tsx:75-82 | days without records take the previous day's balance |
| TransactionChart.NoRecordNoBalance | src/components/TransactionChart.tsx:58-72 | a day without records has no stamped balance |
| TransactionChart.LastBalanceAt | src/components/TransactionChart.tsx:58-71 | a day's balance is the running sum up to and including its last record |
| TransactionChart.CarriedBalance | src/components/TransactionChart.tsx:75-82 | after a day with records, the days without records repeat its balance |
| TransactionChart.NoBalanceYet | src/components/TransactionChart.tsx:75-82 | before any record the balance is 0 |
| TransactionChart.DailyNetIsTotal | src/components/TransactionChart.tsx:58-72 | the daily nets add up to the sum of all amounts |
| TransactionChart.ChartConservesAmounts | src/components/TransactionChart.tsx:38-72 | the chart's days account for every amount exactly once |
| TransactionChart.DayIncome | src/components/TransactionChart.tsx:58-64 | a day's income total over the records; DailyTotals and DaySeries prove the chart's income series equal to it |
| TransactionChart.DayExpense | src/components/TransactionChart.tsx:58-64 | a day's expense total by magnitude; DailyTotals and DaySeries prove the chart's expense series equal to it |
| TransactionChart.ChartBalance | src/components/TransactionChart.tsx:66-82 | a day's balance: the running sum at its last record, else the previous day's balance; stated by LastBalanceAt, CarriedBalance and NoBalanceYet, and DailyTotals proves the balance series equal to it |
| TransactionList.ListOrderIsTotalPreorder | src/components/TransactionList.tsx:22-33 | the comparator is a total preorder in both directions |
| TransactionList.SortedTransactions | src/components/TransactionList.tsx:22-33 | sorts a copy, leaving the given list alone |
| TransactionList.SortedView | src/components/TransactionList.tsx:22-33 | every record once; dates ascending or descending as `sortAsc` says, one date's records by amount ascending |
| TransactionList.ListLe | src/components/TransactionList.tsx:22-33 | the list's comparison: date in the chosen direction, then amount ascending; ListOrderIsTotalPreorder states it is a total preorder |
| TransactionList.Find | src/components/TransactionList.tsx:51 | the record found is the first record with the id; no record found means no record has it |
| TransactionList.ListView.constructor | src/components/TransactionList.tsx:19-20 | ascending, nothing edited |
| TransactionList.ListView.ToggleSort | src/components/TransactionList.tsx:80 | flips the direction only |
| TransactionList.ListView.EditStart | src/components/TransactionList.tsx:35-42 | copies the record with its amount replaced by its magnitude |
| TransactionList.ListView.EditCancel | src/components/TransactionList.tsx:44-46 | clears the edit |
| TransactionList.ListView.SetEditDate | src/components/TransactionList.tsx:105-108 | replaces the edited date only |
| TransactionList.ListView.SetEditStore | src/components/TransactionList.tsx:120-123 | replaces the edited store only |
| TransactionList.ListView.SetEditAmount | src/components/TransactionList.tsx:139-142 | the magnitude of the parsed value, 0 when it does not parse |
| TransactionList.ListView.EditSave | src/components/TransactionList.tsx:48-65 | does nothing without an edit or when the id is gone; otherwise sends the update and clears the edit |
| TransactionList.SaveCall | src/components/TransactionList.tsx:48-65 | what `handleEditSave` hands to `onEdit`, if anything; stated by SavedAmountFacts, UntouchedEditIsNoOp and SmallEditKeepsAmount, and EditSave is proved to emit it |
| TransactionList.SavedAmountFacts | src/components/TransactionList.tsx:54-56 | the saved amount is the floored magnitude, negative iff the record's amount was |
| TransactionList.UntouchedEditIsNoOp | src/components/TransactionList.tsx:35-65 | saving an untouched edit leaves a rounded record unchanged |
| TransactionList.SmallEditKeepsAmount | src/components/TransactionList.tsx:55-62 | an edited amount below 100 saves 0, which the store ignores; the type is never changed |
| TransactionList.DisplayAmount | src/components/TransactionList.tsx:67-69 | the shown figure is the magnitude truncated to hundreds |
| TransactionList.DisplayAgreesWithReport | src/components/TransactionList.tsx:148-149 | the table's label and figure agree with the report's sign and figure |
| TransactionForm.StoreName | src/components/TransactionForm.tsx:18 | the trimmed store, or `未指定` when it is blank |
| TransactionForm.StoreNameIdempotent | src/components/TransactionForm.tsx:18 | naming a named store changes nothing |
| TransactionForm.FormState.constructor | src/components/TransactionForm.tsx:9-12 | empty fields, type expense |
| TransactionForm.FormState.SetDate | src/components/TransactionForm.tsx:42 | sets the date only |
| TransactionForm.FormState.SetStore | src/components/TransactionForm.tsx:52 | sets the store only |
| TransactionForm.FormState.SetAmount | src/components/TransactionForm.tsx:62 | sets the amount only |
| TransactionForm.FormState.SetKind | src/components/TransactionForm.tsx:77-87 | sets the type only |
| TransactionForm.FormState.Submit | src/components/TransactionForm.tsx:14-32 | nothing happens while date or amount is empty; otherwise it hands over the record and resets every field |
| TransactionForm.SubmittedDraft | src/components/TransactionForm.tsx:14-25 | what `handleSubmit` hands to `onSubmit`, if anything; stated by SubmittedDraftFacts, SubmittedRecordStoredUnchanged and SmallExpenseShownAsIncome |
| TransactionForm.SubmittedDraftFacts | src/components/TransactionForm.tsx:16-25 | a record exists iff date and amount are filled; it has the floored amount, negated iff the type is expense, and the selected type |
| TransactionForm.SignedFloorFacts | src/components/TransactionForm.tsx:19-24 | the signed amount is a multiple of 100 within 100 of the entry, `<= 0` for an expense |
| TransactionForm.SubmittedRecordStoredUnchanged | src/components/TransactionForm.tsx:19-25 | the store keeps a submitted record as handed over |
| TransactionForm.SmallExpenseShownAsIncome | src/components/TransactionForm.tsx:19-24 | an expense below 100 is stored as 0, which the table labels income |
| OcrImport.RoundToTens | src/components/OCRImport.tsx:11-13 | despite its name, floors to a multiple of 100 |
| OcrImport.DigitsAt | src/components/OCRImport.tsx:29 | `\d{1,2}` takes one or two digits greedily |
| OcrImport.FindDate | src/components/OCRImport.tsx:29 | the leftmost date match, none before it; no match means none anywhere |
| OcrImport.DigitCommaRun | src/components/OCRImport.tsx:47 | `[\d,]+` runs to the first other character |
| OcrImport.FindYenToken | src/components/OCRImport.tsx:47 | the leftmost yen token, none before it |
| OcrImport.TokenDigits | src/components/OCRImport.tsx:50 | the token without yen sign and commas is all digits |
| OcrImport.ExtractedAmount | src/components/OCRImport.tsx:47-52 | 0 without a token; NaN when the token has no digit; otherwise a non-positive multiple of 100 |
| OcrImport.ProcessText | src/components/OCRImport.tsx:28-62 | the method with its reassigned `date` and `amount` computes `Extract` |
| OcrImport.ExtractedRecordFacts | src/components/OCRImport.tsx:47-61 | always an expense; amount `-floor(n/100)*100` for the first token's digits `n`, 0 without a token |
| OcrImport.StoreIsFirstLine | src/components/OCRImport.tsx:55 | the store is the first line trimmed, possibly empty |
| OcrImport.NoDateMeansToday | src/components/OCRImport.tsx:30-31 | without a date match the date is today's |
| OcrImport.ThreePartsPadded | src/components/OCRImport.tsx:38-39 | three `/` parts become `P0-pad(P1)-pad(P2)` |
| OcrImport.TwoPartsGetYear | src/components/OCRImport.tsx:35-37 | two `/` parts get the current year |
| OcrImport.DashMatchVerbatim | src/components/OCRImport.tsx:41-42 | a match without `/` is kept verbatim, unpadded |
| OcrImport.LongSlashMatchIsIsoShaped | src/components/OCRImport.tsx:29-39 | a `YYYY/M/D` match becomes an ISO-shaped date with that month and day, never calendar-checked |
| OcrImport.MixedSeparatorsMisread | src/components/OCRImport.tsx:33-37 | `YYYY-M/D` has one `/`, so it is read as month/day with the current year prefixed |
| OcrImport.NormalizeDate | src/components/OCRImport.tsx:32-44 | the date rewriting of the matched text; stated by ThreePartsPadded, TwoPartsGetYear, DashMatchVerbatim, LongSlashMatchIsIsoShaped and MixedSeparatorsMisread |
| OcrImport.Extract | src/components/OCRImport.tsx:28-62 | the record handed to `onImport`; stated by ExtractedRecordFacts and StoreIsFirstLine, and ProcessText is proved to return it |

## Left out

- Reading and writing files:
  - the file reader and its error paths;
  - the report download and the backup blob and file name;
  - `localStorage`;
  - the OCR worker.
  The statement and the recognised text are in-memory strings, and the saved list is the store's constructor parameter.
- `crypto.randomUUID()`, the clock year, today's date and the timestamp of a backup are parameters.
- date-fns is replaced by year and month numbers with a days-in-month function. `toLocaleString` is taken to group by commas.
- Floating point is not modelled. Amounts are integers throughout, so the following are outside the model:
  - `parseFloat` and `Number` on fractional text;
  - the JavaScript `-0`;
  - the chart's axis padding;
  - `parseInt` losing precision on very long digit strings.
- ImportDate.ValidateDate: whether `new Date(...)` accepts a day beyond the month's length depends on the JavaScript engine. The check is therefore a parameter: range-only or the Gregorian calendar.
- ExportUtils.DateLe, TransactionList.ListLe: `localeCompare` and `getTime()` are modelled as code-point order on the date text. This matches the order of times for well-formed `yyyy-MM-dd` dates; comparisons of malformed dates (NaN times) are not modelled.
- ExportUtils.MonthKeyMatch, ExportUtils.YearlyTotals, Summary.YearIsTwelveMonths: these need a year below 10000 and well-shaped dates, which is where `format(…, 'yyyy')` is four digits.
- TransactionChart.DailyTotals: requires every record to lie in the first record's month. The source throws on the missing map entry otherwise.
- TransactionList.ListView.SetEditDate, TransactionList.ListView.SetEditStore, TransactionList.ListView.SetEditAmount: require a row to be edited, since the inputs exist only then. The parsed number is an `Option<int>` whose `None` is the NaN that `|| 0` replaces.
- TransactionForm.FormState.SetAmount: requires the amount text to be empty or a run of digits. That is what a `min="0"` number input with whole-number `step` hands over; fractional and exponent notation are not modelled.
- OcrImport.ExtractedAmount: `None` stands for the NaN amount that a token of commas only (`¥,,`) produces. OcrImport.Extract then hands over no record rather than one with a NaN amount.
- UseTransactions.Edited: the JavaScript spread of an update object whose field is present but `undefined` is not modelled. A field is either given (`Some`) or absent (`None`).
- ExportUtils.CreateYearlyExportContent: the four `unshift` calls are one prepend of the four header lines.
- ImportAmount.SmallExpense: a `-` token below 100 parses to amount 0 (JavaScript's `-0`) typed expense, so for imported records amount `>= 0` does not imply income. The model follows the code.
- ReportReimport.ReportLineReimports: covers only detail lines whose record meets its conditions. For other records the model does not say what the importer makes of the line. Examples are an amount that is not a multiple of 100, or a store holding `=`, a tab or a sign followed by a figure.
