/**
 * A detail line of the monthly report (`src/utils/exportUtils.ts`) read back by the
 * plain-text importer (`src/utils/importParser.ts`): the line gives back the record's date,
 * store and amount when the amount is a whole number of hundreds, the date is a valid
 * `YYYY-MM-DD` date and the store is a tidy label that the importer cannot mistake for an
 * amount or a date. The statement is about one line given to the line parser; whether a
 * whole document treats that line as a year-month header is not part of it.
 */
module ReportReimport {
  import opened Options
  import opened Text
  import opened Records
  import opened Rounding
  import opened Calendar
  import opened ImportDate
  import opened ImportAmount
  import opened ImportParser
  import ExportUtils

  /** A `+` or `-` at `i` followed by a digit, or by a yen sign and a digit: the start of
      something the importer's amount pattern picks up. */
  predicate SignedFigureAt(s: string, i: nat)
    requires i < |s|
  {
    IsSign(s[i]) && ((i + 1 < |s| && IsDigit(s[i + 1])) || (i + 2 < |s| && IsYen(s[i + 1]) && IsDigit(s[i + 2])))
  }

  predicate NoSignedFigure(s: string) {
    forall i :: 0 <= i < |s| ==> !SignedFigureAt(s, i)
  }

  /** What a record must be for its detail line to read back as itself. */
  predicate Reimportable(t: Transaction) {
    IsoShaped(t.date) && t.amount % 100 == 0
    && t.store != [] && Trimmed(t.store) && Collapsed(t.store) && '=' !in t.store
    && NoSignedFigure(t.store)
  }

  // ---------------------------------------------------------------- white space

  /** Text without white space passes through the collapse unchanged. */
  lemma {:induction false} CollapsePlainPrefix(a: string, t: string)
    requires forall i :: 0 <= i < |a| ==> !IsSpace(a[i])
    ensures Collapse(a + t) == a + Collapse(t)
    decreases |a|
  {
    if a != [] {
      var s := a + t;
      assert s[0] == a[0] && !IsSpace(s[0]) && s[1..] == a[1..] + t;
      assert Collapse(s) == [s[0]] + Collapse(s[1..]);
      CollapsePlainPrefix(a[1..], t);
      assert a == [a[0]] + a[1..];
    } else {
      assert a + t == t;
    }
  }

  /** One white-space character before a word becomes a plain space. */
  lemma CollapseOneSpace(w: char, t: string)
    requires IsSpace(w) && t != [] && !IsSpace(t[0])
    ensures Collapse([w] + t) == " " + Collapse(t)
  {
    var s := [w] + t;
    assert SpaceRunEnd(s, 1) == 1;
    assert SpaceRunEnd(s, 0) == 1;
    assert TrimStart(s) == t;
  }

  /** Trimming drops one leading space before a trimmed word. */
  lemma TrimOneSpace(x: string)
    requires x != [] && Trimmed(x)
    ensures Trim(" " + x) == x
  {
    var s := " " + x;
    assert SpaceRunEnd(s, 1) == 1;
    assert SpaceRunEnd(s, 0) == 1;
    assert TrimStart(s) == x;
    TrimOfTrimmed(x);
    assert SpaceRunEnd(x, 0) == 0;
    assert TrimStart(x) == x;
  }

  /** No character of a printed amount is white space, `=` or the ideographic space. */
  lemma FormatAmountChars(a: int)
    ensures var r := ExportUtils.FormatAmount(a);
      forall i :: 0 <= i < |r| ==> !IsSpace(r[i]) && r[i] != '='
  {
  }

  // ---------------------------------------------------------------- the scan of the amount

  /** A run of digits ending before a non-digit is read whole. */
  lemma {:induction false} DigitRunTo(s: string, k: nat, e: nat)
    requires k <= e <= |s| && (forall i :: k <= i < e ==> IsDigit(s[i]))
    requires e < |s| ==> !IsDigit(s[e])
    ensures DigitRunEnd(s, k) == e
    decreases e - k
  {
    if k < e { DigitRunTo(s, k + 1, e); }
  }

  /** The shape of `\d+(?:,\d{3})*` seen from its end: digits, or such a numeral, a comma and
      three digits. */
  predicate GroupedShape(r: string)
    decreases |r|
  {
    (r != [] && AllDigits(r))
    || (|r| >= 5 && r[|r| - 4] == ',' && AllDigits(r[|r| - 3..]) && GroupedShape(r[..|r| - 4]))
  }

  /** A grouped numeral has that shape. */
  lemma {:induction false} GroupedHasShape(n: nat)
    ensures GroupedShape(Grouped(n))
    decreases n
  {
    if n < 1000 {
      assert Grouped(n) == NatToString(n);
    } else {
      var g, p := GroupedSplit(n);
      GroupedHasShape(n / 1000);
      var r := Grouped(n);
      assert r[..|r| - 4] == g && r[|r| - 4] == ',' && r[|r| - 3..] == p;
    }
  }

  /** A numeral of that shape followed by a non-digit is read up to its end by the scanner's
      `\d+(?:,\d{3})*`. */
  lemma {:induction false} ShapedEnd(r: string, s: string, k: nat)
    requires OccursAt(s, r, k) && GroupedShape(r)
    requires k + |r| < |s| ==> !IsDigit(s[k + |r|])
    ensures GroupsEnd(s, DigitRunEnd(s, k)) == GroupsEnd(s, k + |r|)
    decreases |r|
  {
    if r != [] && AllDigits(r) {
      DigitsEnd(r, s, k);
    } else {
      GroupStep(s, k, r);
      ShapedEnd(r[..|r| - 4], s, k);
    }
  }

  /** A numeral of at least four digits is the grouped thousands, a comma and three digits. */
  lemma GroupedSplit(n: nat) returns (g: string, p: string)
    requires n >= 1000
    ensures Grouped(n) == g + "," + p && g == Grouped(n / 1000) && |p| == 3 && AllDigits(p)
  {
    g, p := Grouped(n / 1000), PadStart(NatToString(n % 1000), 3, '0');
    GroupTail(n % 1000);
  }

  /** A run of digits occurring at `k` and followed by a non-digit is read whole. */
  lemma DigitsEnd(r: string, s: string, k: nat)
    requires OccursAt(s, r, k) && AllDigits(r)
    requires k + |r| < |s| ==> !IsDigit(s[k + |r|])
    ensures DigitRunEnd(s, k) == k + |r|
  {
    forall i | k <= i < k + |r| ensures IsDigit(s[i]) {
      assert s[i] == s[k..k + |r|][i - k];
    }
    DigitRunTo(s, k, k + |r|);
  }

  /** A numeral ending in a `,ddd` group: its head occurs on its own, is followed by the comma,
      and the group is stepped over. */
  lemma GroupStep(s: string, k: nat, r: string)
    requires OccursAt(s, r, k) && |r| >= 5 && r[|r| - 4] == ',' && AllDigits(r[|r| - 3..])
    ensures OccursAt(s, r[..|r| - 4], k) && s[k + |r| - 4] == ','
    ensures GroupsEnd(s, k + |r| - 4) == GroupsEnd(s, k + |r|)
  {
    var e := k + |r| - 4;
    var t := s[k..k + |r|];
    assert t == r;
    assert s[k..e] == r[..|r| - 4];
    assert s[e] == t[|r| - 4];
    assert s[e + 1] == t[|r| - 3] == r[|r| - 3..][0];
    assert s[e + 2] == t[|r| - 2] == r[|r| - 3..][1];
    assert s[e + 3] == t[|r| - 1] == r[|r| - 3..][2];
    assert GroupAt(s, e);
  }

  /** The last three digits of a grouped numeral. */
  lemma GroupTail(m: nat)
    requires m < 1000
    ensures var p := PadStart(NatToString(m), 3, '0'); |p| == 3 && AllDigits(p)
  {
    NatToStringLength(m, 3);
    PadZerosValue(NatToString(m), 3);
  }

  /** A text with no signed figure yields no token. */
  lemma {:induction false} NoTokensAfter(pre: string, x: string, k: nat)
    requires NoSignedFigure(x) && k <= |x|
    ensures ScanTokens(pre + x, |pre| + k) == []
    decreases |x| - k
  {
    var s := pre + x;
    var j := |pre| + k;
    if k < |x| {
      assert s[j] == x[k];
      if j + 1 < |s| { assert s[j + 1] == x[k + 1]; }
      if j + 2 < |s| { assert s[j + 2] == x[k + 2]; }
      assert !SignedFigureAt(x, k);
      assert TokenEnd(s, j).None?;
      NoTokensAfter(pre, x, k + 1);
    }
  }

  /** What `formatAmount` prints: a sign, a yen sign and a grouped numeral. */
  predicate PrintedShape(fmt: string) {
    |fmt| >= 3 && IsSign(fmt[0]) && IsYen(fmt[1]) && IsDigit(fmt[2]) && GroupedShape(fmt[2..])
  }

  lemma PrintedAmountShape(a: int)
    ensures PrintedShape(ExportUtils.FormatAmount(a))
  {
    var fmt := ExportUtils.FormatAmount(a);
    assert fmt[2..] == Grouped(MagnitudeHundreds(a));
    GroupedHasShape(MagnitudeHundreds(a));
  }

  /** A printed amount at `k`, not followed by a digit or a comma, is one whole token. */
  lemma PrintedToken(s: string, k: nat, fmt: string)
    requires PrintedShape(fmt) && OccursAt(s, fmt, k)
    requires k + |fmt| < |s| ==> !DigitOrComma(s[k + |fmt|])
    ensures TokenEnd(s, k) == Some(k + |fmt|)
  {
    var e := k + |fmt|;
    var t := s[k..e];
    assert t == fmt;
    assert s[k] == t[0] && s[k + 1] == t[1] && s[k + 2] == t[2];
    assert NumeralStart(s, k) == Some(k + 2);
    assert s[k + 2..e] == fmt[2..];
    ShapedEnd(fmt[2..], s, k + 2);
    assert !GroupAt(s, e);
  }

  /** After the date, the printed amount is the only token of the line. */
  lemma ScanAfterDate(fmt: string, store: string)
    requires PrintedShape(fmt) && NoSignedFigure(store)
    ensures ScanTokens(" " + fmt + " " + store, 0) == [fmt]
  {
    var s := " " + fmt + " " + store;
    var e := 1 + |fmt|;
    assert s[0] == ' ' && TokenEnd(s, 0).None?;
    assert s[1..e] == fmt && s[e] == ' ';
    PrintedToken(s, 1, fmt);
    var pre := " " + fmt + " ";
    assert s == pre + store && |pre| == e + 1;
    NoTokensAfter(pre, store, 0);
    assert TokenEnd(s, e).None?;
    assert ScanTokens(s, e) == ScanTokens(s, e + 1) == [];
    assert ScanTokens(s, 1) == [fmt] + ScanTokens(s, e);
  }

  // ---------------------------------------------------------------- the line

  predicate NoSpace(s: string) { forall i :: 0 <= i < |s| ==> !IsSpace(s[i]) }

  /** A text without `=` holds no header rule. */
  lemma NoRuleWithoutEquals(s: string)
    requires '=' !in s
    ensures !Contains(s, Rule)
  {
    forall j: nat | j + |Rule| <= |s| ensures !OccursAt(s, Rule, j) {
      assert s[j..j + |Rule|][0] == s[j];
    }
  }

  /** A `YYYY-MM-DD` date is digits and dashes: no white space and no `=`. */
  lemma IsoChars(date: string)
    requires IsoShaped(date)
    ensures NoSpace(date) && '=' !in date && IsDigit(date[0])
  {
    forall i | 0 <= i < |date| ensures IsDigit(date[i]) || date[i] == '-' {
      if i < 4 { assert date[i] == date[..4][i]; }
      else if 5 <= i < 7 { assert date[i] == date[5..7][i - 5]; }
      else if i >= 8 { assert date[i] == date[8..][i - 8]; }
    }
  }

  /** Replacing a character that does not occur changes nothing. */
  lemma ReplaceAbsentChar(s: string, a: char, b: char)
    requires a !in s
    ensures ReplaceChar(s, a, b) == s
  {
  }

  /** Three words joined by a separator, grouped from the right. */
  lemma JoinedRight(a: string, b: string, c: string, sep: string)
    ensures a + sep + b + sep + c == a + (sep + (b + (sep + c)))
  {
  }

  /** A tab, a word, a tab and a collapsed word: each tab becomes a plain space. */
  lemma CollapseTabTail(b: string, c: string)
    requires NoSpace(b) && b != [] && c != [] && !IsSpace(c[0]) && Collapsed(c)
    ensures Collapse("\t" + (b + ("\t" + c))) == " " + (b + (" " + c))
  {
    var t1 := "\t" + c;
    CollapseOneSpace('\t', c);
    CollapseOfCollapsed(c);
    CollapsePlainPrefix(b, t1);
    CollapseOneSpace('\t', b + t1);
  }

  /** The collapse of three words joined by tabs. */
  lemma CollapseTabbed(a: string, b: string, c: string)
    requires NoSpace(a) && NoSpace(b) && b != [] && c != [] && !IsSpace(c[0]) && Collapsed(c)
    ensures Collapse(a + "\t" + b + "\t" + c) == a + " " + b + " " + c
  {
    JoinedRight(a, b, c, "\t");
    JoinedRight(a, b, c, " ");
    CollapseTabTail(b, c);
    CollapsePlainPrefix(a, "\t" + (b + ("\t" + c)));
  }

  /** `parseLine`'s normalisation of three words joined by tabs: the tabs become spaces. */
  lemma NormalizeTabbed(a: string, b: string, c: string)
    requires a != [] && NoSpace(a) && b != [] && NoSpace(b)
    requires c != [] && Trimmed(c) && Collapsed(c)
    ensures NormalizeLine(a + "\t" + b + "\t" + c) == a + " " + b + " " + c
  {
    var line := a + "\t" + b + "\t" + c;
    assert line[0] == a[0] && line[|line| - 1] == c[|c| - 1];
    TrimOfTrimmed(line);
    CollapsedOnlyPlainSpaces(c, '\U{3000}');
    assert '\U{3000}' !in a && '\U{3000}' !in b;
    ReplaceAbsentChar(line, '\U{3000}', ' ');
    CollapseTabbed(a, b, c);
  }

  /** A text that starts with `p` has its first occurrence of `p` at 0; replacing it by nothing
      leaves the rest. */
  lemma ReplaceLeading(p: string, rest: string)
    ensures IndexOf(p + rest, p) == Some(0)
    ensures ReplaceFirst(p + rest, p, "") == rest
  {
    assert (p + rest)[0..|p|] == p;
    assert (p + rest)[|p|..] == rest;
  }

  /** A tidy store after one space is tidied back to itself. */
  lemma TidyAfterSpace(store: string)
    requires store != [] && Trimmed(store) && Collapsed(store) && '=' !in store
    ensures Tidy(" " + store) == store
  {
    var s := " " + store;
    CollapsedOnlyPlainSpaces(store, '\t');
    assert '=' !in s && '\t' !in s;
    assert Before(s, '=') == s;
    assert RemoveEqualsAndTabs(s) == s;
    assert SpaceOk(store, 0);
    ConsCollapsed(' ', store);
    CollapseOfCollapsed(s);
    TrimOneSpace(store);
  }

  /** Removing a single amount is one first-occurrence replacement. */
  lemma RemoveOneAmount(s: string, amount: string)
    ensures RemoveAmounts(s, [amount]) == ReplaceFirst(s, amount, "")
  {
    assert [amount][1..] == [];
  }

  /** The store label of the normalised line is the store. */
  lemma ReportStoreLabel(date: string, fmt: string, store: string)
    requires fmt != [] && !IsSpace(fmt[0])
    requires store != [] && Trimmed(store) && Collapsed(store) && '=' !in store
    ensures StoreLabel(date + " " + fmt + " " + store, date, [fmt]) == store
  {
    var x := fmt + (" " + store);
    assert date + " " + fmt + " " + store == date + (" " + x);
    ReplaceLeading(date, " " + x);
    assert Trimmed(x) by { assert x[0] == fmt[0] && x[|x| - 1] == store[|store| - 1]; }
    TrimOneSpace(x);
    ReplaceLeading(fmt, " " + store);
    RemoveOneAmount(x, fmt);
    TidyAfterSpace(store);
  }

  /** The date token of the line is its `YYYY-MM-DD` date, which `validateDate` keeps as it is
      when the engine accepts it. */
  lemma ReportDate(date: string, rest: string, currentYear: Option<string>, clockYear: string, check: DateCheck)
    requires IsoShaped(date) && DateAccepted(check, date) && rest != [] && !IsDigit(rest[0])
    ensures DateTokenLen(date + rest) == Some(10)
    ensures ValidateDate(date, currentYear, clockYear, check) == Valid(date)
  {
    var y, m, d := date[..4], date[5..7], date[8..];
    DateTokenOfIso(date, rest);
    assert date == y + ['-'] + m + ['-'] + d;
    FullDate(y, '-', m, '-', d, currentYear, clockYear, check);
    assert Pad2(m) == m && Pad2(d) == d;
    assert Assemble(y, m, d) == date;
  }

  lemma DateTokenOfIso(date: string, rest: string)
    requires IsoShaped(date) && rest != [] && !IsDigit(rest[0])
    ensures DateTokenLen(date + rest) == Some(10)
  {
    var s := date + rest;
    assert IsDigit(date[0]) && IsDigit(date[1]) && IsDigit(date[2]) && IsDigit(date[3]) by {
      assert date[..4][0] == date[0] && date[..4][1] == date[1] && date[..4][2] == date[2] && date[..4][3] == date[3];
    }
    assert IsDigit(date[5]) && IsDigit(date[6]) by { assert date[5..7][0] == date[5] && date[5..7][1] == date[6]; }
    assert IsDigit(date[8]) && IsDigit(date[9]) by { assert date[8..][0] == date[8] && date[8..][1] == date[9]; }
    assert s[0] == date[0] && s[1] == date[1] && s[2] == date[2] && s[3] == date[3];
    assert PairPrefixLen(s, true).None?;
    assert s[..4] == date[..4] && s[4] == '-';
    var r := s[5..];
    assert r[0] == date[5] && r[1] == date[6] && r[2] == '-' && r[3] == date[8] && r[4] == date[9] && r[5] == rest[0];
    assert PairPrefixLen(r, false) == Some(5);
  }

  /** What the analysis of the normalised line finds: its date and the printed amount. */
  lemma ReportAnalysis(date: string, fmt: string, store: string,
                       currentYear: Option<string>, clockYear: string, check: DateCheck)
    requires IsoShaped(date) && DateAccepted(check, date)
    requires PrintedShape(fmt)
    requires NoSignedFigure(store)
    ensures var part := date + " " + fmt + " " + store;
      AnalyzePart(part, currentYear, clockYear, check) == Some(LineParts(part, date, date, [fmt]))
  {
    var rest := " " + fmt + " " + store;
    var part := date + rest;
    assert part == date + " " + fmt + " " + store;
    ReportDate(date, rest, currentYear, clockYear, check);
    assert part[..10] == date && part[10..] == rest;
    ScanAfterDate(fmt, store);
  }

  /** A printed amount on its own is a well-formed token whose numeral is the grouped one. */
  lemma PrintedIsToken(fmt: string)
    requires PrintedShape(fmt)
    ensures WellFormed(fmt) && Numeral(fmt) == fmt[2..]
  {
    assert fmt[0..|fmt|] == fmt;
    PrintedToken(fmt, 0, fmt);
  }

  /** A multiple of 100 loses nothing to the truncation to hundreds. */
  lemma WholeHundreds(a: int)
    requires a % 100 == 0
    ensures MagnitudeHundreds(a) == Abs(a)
  {
    var q := a / 100;
    assert a == 100 * q;
    var m := if q < 0 then -q else q;
    assert Abs(a) == 100 * m;
    assert Abs(a) / 100 == m;
  }

  /** The printed amount reads back as the amount, income unless below zero. */
  lemma AmountReadBack(a: int)
    requires a % 100 == 0
    ensures var fmt := ExportUtils.FormatAmount(a);
      ParseAmount(fmt) == Some(ParsedAmount(a, if a >= 0 then Income else Expense))
  {
    var fmt := ExportUtils.FormatAmount(a);
    PrintedAmountShape(a);
    PrintedIsToken(fmt);
    TokenParses(fmt);
    ExportUtils.FormatAmountReadBack(a);
    WholeHundreds(a);
  }

  /** The records of a single token are that token's. */
  lemma DraftsOfOne(date: string, store: string, t: string)
    ensures DraftsOf(date, store, [t]) == TokenRecords(date, store, t)
  {
    assert [t][1..] == [];
  }

  /** What `parseLine` finds in a date, a printed amount and a tidy store joined by tabs. */
  lemma TabbedAnalysis(date: string, fmt: string, store: string,
                       currentYear: Option<string>, clockYear: string, check: DateCheck)
    requires IsoShaped(date) && DateAccepted(check, date)
    requires PrintedShape(fmt)
    requires NoSpace(fmt) && '=' !in fmt
    requires store != [] && Trimmed(store) && Collapsed(store) && '=' !in store && NoSignedFigure(store)
    ensures var part := date + " " + fmt + " " + store;
      AnalyzeLine(date + "\t" + fmt + "\t" + store, currentYear, clockYear, check)
      == Some(LineParts(part, date, date, [fmt]))
  {
    var line := date + "\t" + fmt + "\t" + store;
    var part := date + " " + fmt + " " + store;
    IsoChars(date);
    NormalizeTabbed(date, fmt, store);
    assert '=' !in line && '=' !in part;
    NoRuleWithoutEquals(line);
    assert line[0] == date[0];
    assert Before(part, '=') == part;
    ReportAnalysis(date, fmt, store, currentYear, clockYear, check);
  }

  /** The records `parseLine` makes of a date, a printed amount and a tidy store joined by
      tabs: the amount's, with the date and the store. */
  lemma TabbedDrafts(date: string, fmt: string, store: string,
                     currentYear: Option<string>, clockYear: string, check: DateCheck)
    requires IsoShaped(date) && DateAccepted(check, date)
    requires PrintedShape(fmt)
    requires NoSpace(fmt) && '=' !in fmt
    requires store != [] && Trimmed(store) && Collapsed(store) && '=' !in store && NoSignedFigure(store)
    ensures LineDrafts(date + "\t" + fmt + "\t" + store, currentYear, clockYear, check)
      == TokenRecords(date, store, fmt)
  {
    var line := date + "\t" + fmt + "\t" + store;
    var part := date + " " + fmt + " " + store;
    TabbedAnalysis(date, fmt, store, currentYear, clockYear, check);
    LineDraftsOfParts(line, currentYear, clockYear, check);
    ReportStoreLabel(date, fmt, store);
    DraftsOfOne(date, store, fmt);
  }

  /** Export then import: a detail line of the monthly report, read back by `parseLine`, gives
      exactly one record, with the date, store and amount of the record printed, typed as
      income unless the amount is below zero. */
  lemma ReportLineReimports(t: Transaction, currentYear: Option<string>, clockYear: string, check: DateCheck)
    requires Reimportable(t) && DateAccepted(check, t.date)
    ensures LineDrafts(ExportUtils.ReportLine(t), currentYear, clockYear, check)
      == [Draft(t.date, t.store, t.amount, if t.amount >= 0 then Income else Expense)]
  {
    var fmt := ExportUtils.FormatAmount(t.amount);
    FormatAmountChars(t.amount);
    PrintedAmountShape(t.amount);
    TabbedDrafts(t.date, fmt, t.store, currentYear, clockYear, check);
    AmountReadBack(t.amount);
  }
}
