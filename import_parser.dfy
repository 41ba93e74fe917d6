/**
 * The plain-text statement importer of `src/utils/importParser.ts`: `extractStoreName`,
 * `parseLine` and the line loop of `parseTransactionFile`, which carries the year of the last
 * `YYYY年M月` header from line to line. The file itself is given as an in-memory string.
 */
module ImportParser {
  import opened Options
  import opened Text
  import opened Records
  import opened ImportDate
  import opened ImportAmount

  // ---------------------------------------------------------------- extractStoreName

  /** The amounts removed from the text one after another, each at its first occurrence. */
  function RemoveAmounts(s: string, amounts: seq<string>): string
    decreases |amounts|
  {
    if amounts == [] then s else RemoveAmounts(ReplaceFirst(s, amounts[0], ""), amounts[1..])
  }

  /** `.split('=')[0].replace(/[=\t]/g, '').replace(/\s+/g, ' ').trim()`. */
  function Tidy(s: string): string {
    Trim(Collapse(RemoveEqualsAndTabs(Before(s, '='))))
  }

  /** `extractStoreName(line, dateStr, amounts)`: the text left once the date and the amounts are
      removed, tidied, or `未指定` when nothing is left. */
  function StoreLabel(line: string, dateText: string, amounts: seq<string>): (r: string)
    ensures r != [] && Trimmed(r) && Collapsed(r) && '=' !in r && '\t' !in r
  {
    var tidied := Tidy(RemoveAmounts(Trim(ReplaceFirst(line, dateText, "")), amounts));
    TidyShape(RemoveAmounts(Trim(ReplaceFirst(line, dateText, "")), amounts));
    if tidied == [] then UnspecifiedShape(); Unspecified else tidied
  }

  lemma UnspecifiedShape()
    ensures Trimmed(Unspecified) && Collapsed(Unspecified) && '=' !in Unspecified && '\t' !in Unspecified
  {
    assert forall i :: 0 <= i < |Unspecified| ==> !IsSpace(Unspecified[i]);
  }

  /** A slice keeps no character that its string did not have. */
  lemma SliceChars(s: string, a: nat, b: nat, c: char)
    requires a <= b <= |s| && c in s[a..b]
    ensures c in s
  {
    var k :| 0 <= k < b - a && s[a..b][k] == c;
    assert s[a + k] == c;
  }

  lemma TrimChars(s: string, c: char)
    requires c in Trim(s)
    ensures c in s
  {
    var u := TrimStart(s);
    SliceChars(s, |s| - |u|, |s| - |u| + |Trim(s)|, c);
  }

  /** The tidied text is trimmed, has single plain spaces only, and no `=` or tab. */
  lemma TidyShape(s: string)
    ensures Trimmed(Tidy(s)) && Collapsed(Tidy(s)) && '=' !in Tidy(s) && '\t' !in Tidy(s)
  {
    var y := RemoveEqualsAndTabs(Before(s, '='));
    var z := Collapse(y);
    var r := Tidy(s);
    TrimKeepsCollapsed(z);
    if '=' in r {
      TrimChars(z, '=');
      CollapseChars(y, '=');
    }
    CollapsedOnlyPlainSpaces(r, '\t');
  }

  /** Tidying a label that is already tidy changes nothing, so tidying is idempotent. */
  lemma TidyOfTidy(s: string)
    requires Trimmed(s) && Collapsed(s) && '=' !in s && '\t' !in s
    ensures Tidy(s) == s
  {
    CollapseOfCollapsed(s);
    TrimOfTrimmed(s);
  }

  lemma TidyIdempotent(s: string)
    ensures Tidy(Tidy(s)) == Tidy(s)
  {
    TidyShape(s);
    TidyOfTidy(Tidy(s));
  }

  /** `ReplaceFirst(s, pat, "")` and the amount removal introduce no character. */
  lemma {:induction false} RemoveAmountsChars(s: string, amounts: seq<string>, c: char)
    requires c in RemoveAmounts(s, amounts)
    ensures c in s
    decreases |amounts|
  {
    if amounts != [] {
      var s1 := ReplaceFirst(s, amounts[0], "");
      RemoveAmountsChars(s1, amounts[1..], c);
      ReplaceFirstByNothing(s, amounts[0]);
    }
  }

  /** The `=` and tab stripping of `extractStoreName` is a no-op on a text that has neither,
      which is what `parseLine` passes in: the label is the trimmed, collapsed remainder. */
  lemma EqualsAndTabStrippingIsNoOp(line: string, dateText: string, amounts: seq<string>)
    requires '=' !in line && '\t' !in line
    ensures var rest := RemoveAmounts(Trim(ReplaceFirst(line, dateText, "")), amounts);
      StoreLabel(line, dateText, amounts) == if Trim(Collapse(rest)) == [] then Unspecified else Trim(Collapse(rest))
  {
    var afterDate := ReplaceFirst(line, dateText, "");
    var t := Trim(afterDate);
    var rest := RemoveAmounts(t, amounts);
    ReplaceFirstByNothing(line, dateText);
    forall c | c in rest ensures c != '=' && c != '\t' {
      RemoveAmountsChars(t, amounts, c);
      TrimChars(afterDate, c);
    }
    assert Before(rest, '=') == rest;
    assert RemoveEqualsAndTabs(rest) == rest;
  }

  /** `extractStoreName`, as the source writes it: the amounts are removed in a loop. */
  method ExtractStoreName(line: string, dateText: string, amounts: seq<string>) returns (store: string)
    ensures store == StoreLabel(line, dateText, amounts)
  {
    var storePart := Trim(ReplaceFirst(line, dateText, ""));
    ghost var start := storePart;
    var i := 0;
    while i < |amounts|
      invariant 0 <= i <= |amounts|
      invariant RemoveAmounts(storePart, amounts[i..]) == RemoveAmounts(start, amounts)
    {
      assert amounts[i..][1..] == amounts[i + 1..];
      storePart := ReplaceFirst(storePart, amounts[i], "");
      i := i + 1;
    }
    assert amounts[i..] == [];
    storePart := Before(storePart, '=');
    storePart := Trim(Collapse(RemoveEqualsAndTabs(storePart)));
    store := if storePart == [] then Unspecified else storePart;
  }

  // ---------------------------------------------------------------- parseLine

  /** The header separator `===` whose presence skips a line. */
  const Rule: string := "==="

  /** `line.trim().replace(/　/g, ' ').replace(/\s+/g, ' ')`. */
  function NormalizeLine(line: string): (r: string)
    ensures Trimmed(r) && Collapsed(r)
    ensures r == [] <==> Trim(line) == []
  {
    var t := Trim(line);
    var u := ReplaceChar(t, '\U{3000}', ' ');
    assert u != [] ==> !IsSpace(u[0]) && !IsSpace(u[|u| - 1]);
    Collapse(u)
  }

  /** What a line that yields records is made of: the text before the first `=`, its date
      token, the normalised date and the signed tokens after the date. */
  datatype LineParts = LineParts(part: string, dateText: string, date: string, tokens: seq<string>)

  /** A normalised line has no tab: every white-space character in it is a plain space. */
  lemma NoTabInPart(normalized: string)
    requires Collapsed(normalized)
    ensures '=' !in Before(normalized, '=') && '\t' !in Before(normalized, '=')
  {
    CollapsedOnlyPlainSpaces(normalized, '\t');
  }

  lemma LineDraftsOfParts(line: string, currentYear: Option<string>, clockYear: string, check: DateCheck)
    requires AnalyzeLine(line, currentYear, clockYear, check).Some?
    ensures var p := AnalyzeLine(line, currentYear, clockYear, check).value;
      LineDrafts(line, currentYear, clockYear, check) == DraftsOf(p.date, StoreLabel(p.part, p.dateText, p.tokens), p.tokens)
  {
  }

  /** The steps of `parseLine` after the text before the first `=` is cut out. */
  function AnalyzePart(part: string, currentYear: Option<string>, clockYear: string, check: DateCheck): (p: Option<LineParts>)
    ensures p.Some? ==> p.value.part == part && |p.value.tokens| >= 1
    ensures p.Some? ==> forall j :: 0 <= j < |p.value.tokens| ==> WellFormed(p.value.tokens[j])
  {
    if part == [] then None
    else match DateTokenLen(part)
      case None => None
      case Some(n) =>
        match ValidateDate(part[..n], currentYear, clockYear, check)
        case Invalid(_) => None
        case Valid(date) =>
          var tokens := ScanTokens(part[n..], 0);
          if date == [] || tokens == [] then None
          else Some(LineParts(part, part[..n], date, tokens))
  }

  function AnalyzeLine(line: string, currentYear: Option<string>, clockYear: string, check: DateCheck): (p: Option<LineParts>)
    ensures p.Some? ==> p.value.part == Before(NormalizeLine(line), '=')
    ensures p.Some? ==> p == AnalyzePart(p.value.part, currentYear, clockYear, check)
    ensures p.Some? ==> '=' !in p.value.part && '\t' !in p.value.part
  {
    if Trim(line) == [] || Contains(line, Rule) then None
    else
      NoTabInPart(NormalizeLine(line));
      AnalyzePart(Before(NormalizeLine(line), '='), currentYear, clockYear, check)
  }

  /** What the analysis of a transaction part found: the date token at its start, what
      `validateDate` made of it, and the tokens scanned after it. */
  lemma PartFacts(part: string, currentYear: Option<string>, clockYear: string, check: DateCheck)
    requires AnalyzePart(part, currentYear, clockYear, check).Some?
    ensures var p := AnalyzePart(part, currentYear, clockYear, check).value;
      var n := |p.dateText|;
      DateTokenLen(part) == Some(n) && n <= |part| && p.dateText == part[..n]
      && ValidateDate(p.dateText, currentYear, clockYear, check) == Valid(p.date)
      && p.tokens == ScanTokens(part[n..], 0)
  {
  }

  /** The record of one token, none when `parseAmount` gives `null`. */
  function TokenRecords(date: string, store: string, t: string): seq<Draft> {
    match ParseAmount(t)
    case Some(a) => [Draft(date, store, a.amount, a.kind)]
    case None => []
  }

  /** The records of the tokens, in order; a token that does not parse is skipped. */
  function DraftsOf(date: string, store: string, tokens: seq<string>): seq<Draft>
    decreases |tokens|
  {
    if tokens == [] then []
    else TokenRecords(date, store, tokens[0]) + DraftsOf(date, store, tokens[1..])
  }

  /** `parseLine(line, currentYear)`. */
  function LineDrafts(line: string, currentYear: Option<string>, clockYear: string, check: DateCheck): seq<Draft> {
    match AnalyzeLine(line, currentYear, clockYear, check)
    case None => []
    case Some(p) => DraftsOf(p.date, StoreLabel(p.part, p.dateText, p.tokens), p.tokens)
  }

  /** `parseLine`, as the source writes it: early returns, then one push per token. */
  method ParseLine(line: string, currentYear: Option<string>, clockYear: string, check: DateCheck)
    returns (transactions: seq<Draft>)
    ensures transactions == LineDrafts(line, currentYear, clockYear, check)
  {
    transactions := [];
    if Trim(line) == [] || Contains(line, Rule) {
      return;
    }
    var normalized := NormalizeLine(line);
    var part := Before(normalized, '=');
    assert AnalyzeLine(line, currentYear, clockYear, check) == AnalyzePart(part, currentYear, clockYear, check);
    if part == [] {
      return;
    }
    var dateLen := DateTokenLen(part);
    if dateLen.None? {
      return;
    }
    var dateText := part[..dateLen.value];
    var validation := ValidateDate(dateText, currentYear, clockYear, check);
    if validation.Invalid? || validation.date == [] {
      return;
    }
    var tokens := ScanTokens(part[dateLen.value..], 0);
    if tokens == [] {
      return;
    }
    var date := validation.date;
    assert AnalyzePart(part, currentYear, clockYear, check) == Some(LineParts(part, dateText, date, tokens));
    LineDraftsOfParts(line, currentYear, clockYear, check);
    var store := ExtractStoreName(part, dateText, tokens);
    transactions := PushDrafts(date, store, tokens);
  }

  /** The `for` loop of `parseLine`: one record per token that `parseAmount` accepts, pushed in
      token order. */
  method PushDrafts(date: string, store: string, tokens: seq<string>) returns (transactions: seq<Draft>)
    ensures transactions == DraftsOf(date, store, tokens)
  {
    transactions := [];
    var i := 0;
    while i < |tokens|
      invariant 0 <= i <= |tokens|
      invariant transactions + DraftsOf(date, store, tokens[i..]) == DraftsOf(date, store, tokens)
    {
      DraftsStep(date, store, tokens, i, transactions);
      var parsed := ParseAmount(tokens[i]);
      if parsed.Some? {
        transactions := transactions + [Draft(date, store, parsed.value.amount, parsed.value.kind)];
      }
      i := i + 1;
    }
    assert tokens[i..] == [];
  }

  /** One step of the token loop. */
  lemma DraftsStep(date: string, store: string, tokens: seq<string>, i: nat, done: seq<Draft>)
    requires i < |tokens|
    ensures done + DraftsOf(date, store, tokens[i..])
         == (done + TokenRecords(date, store, tokens[i])) + DraftsOf(date, store, tokens[i + 1..])
  {
    assert tokens[i..][1..] == tokens[i + 1..];
  }

  // ---------------------------------------------------------------- properties of a line

  /** The record of one well-formed token. */
  function TokenDraft(date: string, store: string, t: string): Draft
    requires WellFormed(t)
  {
    var a := Resolve(t[0] == '+', NumeralValue(Numeral(t)));
    Draft(date, store, a.amount, a.kind)
  }

  /** One record per token, in token order, each with the token's sign and magnitude. */
  lemma {:induction false} DraftsOfTokens(date: string, store: string, tokens: seq<string>)
    requires forall j :: 0 <= j < |tokens| ==> WellFormed(tokens[j])
    ensures |DraftsOf(date, store, tokens)| == |tokens|
    ensures forall j :: 0 <= j < |tokens| ==> DraftsOf(date, store, tokens)[j] == TokenDraft(date, store, tokens[j])
    decreases |tokens|
  {
    if tokens != [] {
      TokenParses(tokens[0]);
      DraftsOfTokens(date, store, tokens[1..]);
      var rest := DraftsOf(date, store, tokens[1..]);
      assert DraftsOf(date, store, tokens) == [TokenDraft(date, store, tokens[0])] + rest;
    }
  }

  /** A line yields exactly one record per signed token after its date, in token order, all
      sharing the line's date and one store label. */
  lemma LineFanOut(line: string, currentYear: Option<string>, clockYear: string, check: DateCheck)
    requires AnalyzeLine(line, currentYear, clockYear, check).Some?
    ensures var p := AnalyzeLine(line, currentYear, clockYear, check).value;
      var drafts := LineDrafts(line, currentYear, clockYear, check);
      |drafts| == |p.tokens| >= 1
      && forall j :: 0 <= j < |drafts| ==> drafts[j] == TokenDraft(p.date, StoreLabel(p.part, p.dateText, p.tokens), p.tokens[j])
  {
    var p := AnalyzeLine(line, currentYear, clockYear, check).value;
    LineDraftsOfParts(line, currentYear, clockYear, check);
    DraftsOfTokens(p.date, StoreLabel(p.part, p.dateText, p.tokens), p.tokens);
  }

  /** A line yields records exactly when it passes every skip rule: the `null` branch of
      `parseAmount` never drops a token. */
  lemma LineYieldsIffAnalyzed(line: string, currentYear: Option<string>, clockYear: string, check: DateCheck)
    ensures LineDrafts(line, currentYear, clockYear, check) != [] <==> AnalyzeLine(line, currentYear, clockYear, check).Some?
  {
    if AnalyzeLine(line, currentYear, clockYear, check).Some? {
      LineFanOut(line, currentYear, clockYear, check);
    }
  }

  /** The record of a token: its amount is a multiple of 100 whose magnitude is the token's
      truncated to hundreds, and its type is income exactly when the sign is `+`. */
  lemma TokenDraftFacts(date: string, store: string, t: string)
    requires WellFormed(t)
    ensures var d := TokenDraft(date, store, t);
      && d.date == date && d.store == store
      && d.amount % 100 == 0
      && (d.kind == Income <==> t[0] == '+')
      && (d.kind == Income ==> d.amount >= 0)
      && (d.kind == Expense ==> d.amount <= 0)
      && Abs(d.amount) == Rounding.MagnitudeHundreds(NumeralValue(Numeral(t)))
  {
  }

  /** Every record of a line: its amount is a multiple of 100, its type is income exactly when
      its token's sign is `+`, income is never negative and an expense never positive, and its
      store label is non-empty, trimmed, single-spaced and free of `=` and tabs. */
  lemma LineRecords(line: string, currentYear: Option<string>, clockYear: string, check: DateCheck, j: nat)
    requires j < |LineDrafts(line, currentYear, clockYear, check)|
    ensures AnalyzeLine(line, currentYear, clockYear, check).Some?
    ensures var d := LineDrafts(line, currentYear, clockYear, check)[j];
      var p := AnalyzeLine(line, currentYear, clockYear, check).value;
      && j < |p.tokens|
      && d.amount % 100 == 0
      && (d.kind == Income <==> p.tokens[j][0] == '+')
      && (d.kind == Income ==> d.amount >= 0)
      && (d.kind == Expense ==> d.amount <= 0)
      && Abs(d.amount) == Rounding.MagnitudeHundreds(NumeralValue(Numeral(p.tokens[j])))
      && d.date == p.date
      && d.store != [] && Trimmed(d.store) && Collapsed(d.store) && '=' !in d.store && '\t' !in d.store
  {
    LineYieldsIffAnalyzed(line, currentYear, clockYear, check);
    var p := AnalyzeLine(line, currentYear, clockYear, check).value;
    var store := StoreLabel(p.part, p.dateText, p.tokens);
    LineFanOut(line, currentYear, clockYear, check);
    TokenDraftFacts(p.date, store, p.tokens[j]);
  }

  /** Blank lines and lines holding `===` yield nothing. */
  lemma SkippedLines(line: string, currentYear: Option<string>, clockYear: string, check: DateCheck)
    requires Trim(line) == [] || Contains(line, Rule)
    ensures LineDrafts(line, currentYear, clockYear, check) == []
  {
  }

  /** A line whose text before the first `=` is empty or does not start with a date token
      yields nothing. */
  lemma UndatedLines(line: string, currentYear: Option<string>, clockYear: string, check: DateCheck)
    requires var part := Before(NormalizeLine(line), '='); part == [] || DateTokenLen(part).None?
    ensures LineDrafts(line, currentYear, clockYear, check) == []
  {
  }

  /** Unsigned numbers are never amounts: a line with no sign after its date yields nothing. */
  lemma UnsignedLines(line: string, currentYear: Option<string>, clockYear: string, check: DateCheck)
    requires var part := Before(NormalizeLine(line), '=');
      DateTokenLen(part).Some? && forall i :: DateTokenLen(part).value <= i < |part| ==> !IsSign(part[i])
    ensures LineDrafts(line, currentYear, clockYear, check) == []
  {
    UnsignedPart(Before(NormalizeLine(line), '='), currentYear, clockYear, check);
    NoRecordsWithoutAnalysis(line, currentYear, clockYear, check);
  }

  /** The records of a line the analysis rejects: none. */
  lemma NoRecordsWithoutAnalysis(line: string, currentYear: Option<string>, clockYear: string, check: DateCheck)
    requires AnalyzePart(Before(NormalizeLine(line), '='), currentYear, clockYear, check).None?
    ensures AnalyzeLine(line, currentYear, clockYear, check).None?
    ensures LineDrafts(line, currentYear, clockYear, check) == []
  {
  }

  lemma UnsignedPart(part: string, currentYear: Option<string>, clockYear: string, check: DateCheck)
    requires DateTokenLen(part).Some? && forall i :: DateTokenLen(part).value <= i < |part| ==> !IsSign(part[i])
    ensures AnalyzePart(part, currentYear, clockYear, check).None?
  {
    var n := DateTokenLen(part).value;
    UnsignedTextHasNoTokens(part[n..], 0);
  }

  /** The tokens are read from the text after the date token and before the first `=`: token
      `j` occurs in that text at a position `k` past the date. */
  lemma TokensFromTransactionPart(line: string, currentYear: Option<string>, clockYear: string, check: DateCheck, j: nat)
    returns (k: nat)
    requires AnalyzeLine(line, currentYear, clockYear, check).Some?
    requires j < |AnalyzeLine(line, currentYear, clockYear, check).value.tokens|
    ensures var p := AnalyzeLine(line, currentYear, clockYear, check).value;
      p.part == Before(NormalizeLine(line), '=') && StartsWith(p.part, p.dateText)
      && |p.dateText| <= k && OccursAt(p.part, p.tokens[j], k)
  {
    var p := AnalyzeLine(line, currentYear, clockYear, check).value;
    PartFacts(p.part, currentYear, clockYear, check);
    k := TokenInPart(p.part, |p.dateText|, p.tokens, j);
  }

  lemma TokenInPart(part: string, n: nat, tokens: seq<string>, j: nat) returns (k: nat)
    requires n <= |part| && tokens == ScanTokens(part[n..], 0) && j < |tokens|
    ensures n <= k && OccursAt(part, tokens[j], k)
  {
    var rest := part[n..];
    var i := ScannedTokensOccur(rest, 0, j);
    k := n + i;
    assert part[k..k + |tokens[j]|] == rest[i..i + |tokens[j]|];
  }

  /** The record's date is what `validateDate` makes of the line's date token, and that token is
      never rejected as empty or malformed. */
  lemma LineDate(line: string, currentYear: Option<string>, clockYear: string, check: DateCheck)
    requires AnalyzeLine(line, currentYear, clockYear, check).Some?
    ensures var p := AnalyzeLine(line, currentYear, clockYear, check).value;
      DateTokenLen(p.part) == Some(|p.dateText|)
      && ValidateDate(p.dateText, currentYear, clockYear, check) == Valid(p.date)
  {
    var p := AnalyzeLine(line, currentYear, clockYear, check).value;
    PartFacts(p.part, currentYear, clockYear, check);
  }

  // ---------------------------------------------------------------- the document

  /** `(\d{4})[年-](\d{1,2})月` at `i`, the two-digit month tried first. */
  predicate HeaderAt(s: string, i: nat) {
    i + 7 <= |s| && AllDigits(s[i..i + 4]) && (s[i + 4] == '年' || s[i + 4] == '-') && IsDigit(s[i + 5])
    && ((i + 8 <= |s| && IsDigit(s[i + 6]) && s[i + 7] == '月') || s[i + 6] == '月')
  }

  /** The leftmost header match at or after `i`: its year. */
  function HeaderFrom(s: string, i: nat): (y: Option<string>)
    requires i <= |s|
    ensures y.Some? ==> |y.value| == 4 && AllDigits(y.value)
    decreases |s| - i
  {
    if HeaderAt(s, i) then Some(s[i..i + 4])
    else if i == |s| then None
    else HeaderFrom(s, i + 1)
  }

  /** The header search finds the leftmost match: none before `k`, one at `k`, and its year. */
  lemma {:induction false} HeaderFound(s: string, i: nat) returns (k: nat)
    requires i <= |s| && HeaderFrom(s, i).Some?
    ensures i <= k && HeaderAt(s, k) && s[k..k + 4] == HeaderFrom(s, i).value
    ensures forall m :: i <= m < k ==> !HeaderAt(s, m)
    decreases |s| - i
  {
    if HeaderAt(s, i) {
      k := i;
    } else {
      k := HeaderFound(s, i + 1);
    }
  }

  /** When the search fails there is no match anywhere. */
  lemma {:induction false} HeaderAbsent(s: string, i: nat)
    requires i <= |s| && HeaderFrom(s, i).None?
    ensures forall m :: i <= m <= |s| ==> !HeaderAt(s, m)
    decreases |s| - i
  {
    if i < |s| {
      HeaderAbsent(s, i + 1);
    }
  }

  /** `trimmedLine.match(/(\d{4})[年-](\d{1,2})月/)`, unanchored: the captured year. */
  function HeaderYear(s: string): Option<string> {
    HeaderFrom(s, 0)
  }

  /** The year after one line: a header line sets it, every other line keeps it. */
  function YearAfterLine(line: string, year: Option<string>): Option<string> {
    var t := Trim(line);
    if t == [] then year
    else match HeaderYear(t)
      case Some(y) => Some(y)
      case None => year
  }

  /** The records of one line of the file under the current year: nothing for a blank or a
      header line. */
  function LineOfFile(line: string, year: Option<string>, clockYear: string, check: DateCheck): seq<Draft> {
    var t := Trim(line);
    if t == [] || HeaderYear(t).Some? then [] else LineDrafts(t, year, clockYear, check)
  }

  /** The line loop of `parseTransactionFile` from the year `year` on. */
  function DocumentLines(lines: seq<string>, year: Option<string>, clockYear: string, check: DateCheck): seq<Draft>
    decreases |lines|
  {
    if lines == [] then []
    else LineOfFile(lines[0], year, clockYear, check) + DocumentLines(lines[1..], YearAfterLine(lines[0], year), clockYear, check)
  }

  /** The year in force after a run of lines. */
  function YearAfter(lines: seq<string>, year: Option<string>): Option<string>
    decreases |lines|
  {
    if lines == [] then year else YearAfter(lines[1..], YearAfterLine(lines[0], year))
  }

  /** `parseTransactionFile` on the file's content: no year until the first header. */
  function ParseDocument(content: string, clockYear: string, check: DateCheck): seq<Draft> {
    DocumentLines(Split(content, '\n'), None, clockYear, check)
  }

  /** The line loop as the source writes it: `currentYear` is updated in place and each line's
      records are pushed onto the accumulator. */
  method ParseTransactionFile(content: string, clockYear: string, check: DateCheck) returns (transactions: seq<Draft>)
    ensures transactions == ParseDocument(content, clockYear, check)
  {
    var lines := Split(content, '\n');
    transactions := [];
    var currentYear: Option<string> := None;
    var i := 0;
    while i < |lines|
      invariant 0 <= i <= |lines|
      invariant transactions + DocumentLines(lines[i..], currentYear, clockYear, check)
             == DocumentLines(lines, None, clockYear, check)
    {
      DocumentStep(lines, i, currentYear, transactions, clockYear, check);
      var lineTransactions, year := ReadLine(lines[i], currentYear, clockYear, check);
      transactions := transactions + lineTransactions;
      currentYear := year;
      i := i + 1;
    }
    assert lines[i..] == [];
  }

  /** The body of the line loop: a blank line is skipped, a header line sets the year, any
      other line is parsed under the year in force. */
  method ReadLine(line: string, currentYear: Option<string>, clockYear: string, check: DateCheck)
    returns (transactions: seq<Draft>, year: Option<string>)
    ensures transactions == LineOfFile(line, currentYear, clockYear, check)
    ensures year == YearAfterLine(line, currentYear)
  {
    year := currentYear;
    transactions := [];
    var trimmedLine := Trim(line);
    if trimmedLine == [] {
      return;
    }
    var title := HeaderYear(trimmedLine);
    if title.Some? {
      year := title;
      return;
    }
    transactions := ParseLine(trimmedLine, currentYear, clockYear, check);
  }

  /** One step of the line loop: the records pushed so far plus those of the lines still to
      read stay the same. */
  lemma DocumentStep(lines: seq<string>, i: nat, year: Option<string>, done: seq<Draft>, clockYear: string, check: DateCheck)
    requires i < |lines|
    ensures done + DocumentLines(lines[i..], year, clockYear, check)
         == (done + LineOfFile(lines[i], year, clockYear, check))
            + DocumentLines(lines[i + 1..], YearAfterLine(lines[i], year), clockYear, check)
  {
    var rest := lines[i..];
    assert rest[0] == lines[i] && rest[1..] == lines[i + 1..];
    DocumentCons(rest, year, clockYear, check);
    ConcatAssoc(done, LineOfFile(lines[i], year, clockYear, check),
      DocumentLines(lines[i + 1..], YearAfterLine(lines[i], year), clockYear, check));
  }

  lemma DocumentCons(lines: seq<string>, year: Option<string>, clockYear: string, check: DateCheck)
    requires lines != []
    ensures DocumentLines(lines, year, clockYear, check)
         == LineOfFile(lines[0], year, clockYear, check) + DocumentLines(lines[1..], YearAfterLine(lines[0], year), clockYear, check)
  {
  }

  lemma ConcatAssoc<T>(a: seq<T>, b: seq<T>, c: seq<T>)
    ensures a + (b + c) == (a + b) + c
  {
  }

  /** The three kinds of line: blank, header and record. */
  lemma LineOfFileCases(line: string, year: Option<string>, clockYear: string, check: DateCheck)
    ensures Trim(line) == [] ==>
      LineOfFile(line, year, clockYear, check) == [] && YearAfterLine(line, year) == year
    ensures Trim(line) != [] && HeaderYear(Trim(line)).Some? ==>
      LineOfFile(line, year, clockYear, check) == [] && YearAfterLine(line, year) == HeaderYear(Trim(line))
    ensures Trim(line) != [] && HeaderYear(Trim(line)).None? ==>
      LineOfFile(line, year, clockYear, check) == LineDrafts(Trim(line), year, clockYear, check)
      && YearAfterLine(line, year) == year
  {
  }

  // ---------------------------------------------------------------- properties of the document

  /** The output is the concatenation of the per-line results in line order, the year being
      threaded from one part to the next. */
  lemma {:induction false} DocumentConcat(a: seq<string>, b: seq<string>, year: Option<string>, clockYear: string, check: DateCheck)
    ensures DocumentLines(a + b, year, clockYear, check)
         == DocumentLines(a, year, clockYear, check) + DocumentLines(b, YearAfter(a, year), clockYear, check)
    decreases |a|
  {
    if a == [] {
      assert a + b == b;
    } else {
      var ab := a + b;
      assert ab[0] == a[0] && ab[1..] == a[1..] + b;
      var y := YearAfterLine(a[0], year);
      DocumentCons(ab, year, clockYear, check);
      DocumentCons(a, year, clockYear, check);
      DocumentConcat(a[1..], b, y, clockYear, check);
      ConcatAssoc(LineOfFile(a[0], year, clockYear, check), DocumentLines(a[1..], y, clockYear, check),
        DocumentLines(b, YearAfter(a[1..], y), clockYear, check));
    }
  }

  /** A header line yields no record and sets the year to its four digits. */
  lemma HeaderLine(line: string, rest: seq<string>, year: Option<string>, clockYear: string, check: DateCheck)
    requires Trim(line) != [] && HeaderYear(Trim(line)).Some?
    ensures var y := HeaderYear(Trim(line)).value;
      |y| == 4 && AllDigits(y)
      && DocumentLines([line] + rest, year, clockYear, check) == DocumentLines(rest, Some(y), clockYear, check)
  {
    assert ([line] + rest)[1..] == rest;
  }

  /** A line that is neither blank nor a header is parsed under the year in force. */
  lemma RecordLine(line: string, rest: seq<string>, year: Option<string>, clockYear: string, check: DateCheck)
    requires Trim(line) != [] && HeaderYear(Trim(line)).None?
    ensures DocumentLines([line] + rest, year, clockYear, check)
         == LineDrafts(Trim(line), year, clockYear, check) + DocumentLines(rest, year, clockYear, check)
  {
    assert ([line] + rest)[1..] == rest;
  }

  /** What the importer promises of each record it reads: an amount that is a multiple of 100,
      income never negative and an expense never positive, and a store label that is non-empty,
      trimmed, single-spaced and free of `=` and tabs. */
  predicate CleanRecord(d: Draft) {
    && d.amount % 100 == 0
    && (d.kind == Income ==> d.amount >= 0)
    && (d.kind == Expense ==> d.amount <= 0)
    && d.store != [] && Trimmed(d.store) && Collapsed(d.store) && '=' !in d.store && '\t' !in d.store
  }

  /** Every record of a file is clean: the line facts of `LineRecords`, carried through the
      line loop. */
  lemma {:induction false} DocumentRecords(lines: seq<string>, year: Option<string>, clockYear: string, check: DateCheck)
    ensures forall k :: 0 <= k < |DocumentLines(lines, year, clockYear, check)| ==>
      CleanRecord(DocumentLines(lines, year, clockYear, check)[k])
    decreases |lines|
  {
    if lines != [] {
      var head := LineOfFile(lines[0], year, clockYear, check);
      var rest := DocumentLines(lines[1..], YearAfterLine(lines[0], year), clockYear, check);
      DocumentRecords(lines[1..], YearAfterLine(lines[0], year), clockYear, check);
      LineOfFileClean(lines[0], year, clockYear, check);
      JoinedClean(head, rest);
    }
  }

  lemma LineOfFileClean(line: string, year: Option<string>, clockYear: string, check: DateCheck)
    ensures var r := LineOfFile(line, year, clockYear, check);
      forall j :: 0 <= j < |r| ==> CleanRecord(r[j])
  {
    var t := Trim(line);
    if t != [] && HeaderYear(t).None? {
      var r := LineDrafts(t, year, clockYear, check);
      forall j | 0 <= j < |r|
        ensures CleanRecord(r[j])
      {
        LineRecords(t, year, clockYear, check, j);
      }
    }
  }

  /** Every record `parseTransactionFile` returns is clean. */
  lemma ParsedRecordsClean(content: string, clockYear: string, check: DateCheck)
    ensures forall k :: 0 <= k < |ParseDocument(content, clockYear, check)| ==>
      CleanRecord(ParseDocument(content, clockYear, check)[k])
  {
    DocumentRecords(Split(content, '\n'), None, clockYear, check);
  }

  lemma JoinedClean(a: seq<Draft>, b: seq<Draft>)
    requires forall k :: 0 <= k < |a| ==> CleanRecord(a[k])
    requires forall k :: 0 <= k < |b| ==> CleanRecord(b[k])
    ensures forall k :: 0 <= k < |a + b| ==> CleanRecord((a + b)[k])
  {
    forall k | 0 <= k < |a + b|
      ensures CleanRecord((a + b)[k])
    {
      if k >= |a| { assert (a + b)[k] == b[k - |a|]; }
    }
  }

  /** Both header forms are recognised anywhere in a line, and a month needs its `月`. */
  lemma HeaderForms()
    ensures HeaderYear("2024年3月") == Some("2024")
    ensures HeaderYear("明細 2023-12月分") == Some("2023")
    ensures HeaderYear("2024-03-15") == None
  {
    var a := "2024年3月";
    assert HeaderAt(a, 0);
    assert a[0..4] == "2024";
    var b := "明細 2023-12月分";
    assert !HeaderAt(b, 0) && !HeaderAt(b, 1) && !HeaderAt(b, 2);
    assert HeaderAt(b, 3);
    assert b[3..7] == "2023";
    var c := "2024-03-15";
    forall k | 0 <= k <= |c| ensures !HeaderAt(c, k) {
      if k + 7 <= |c| {
        assert c[k + 6] != '月';
        assert k + 8 <= |c| ==> c[k + 7] != '月';
      }
    }
    assert HeaderFrom(c, 0).None?;
  }
}
