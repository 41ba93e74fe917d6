/**
 * `src/components/OCRImport.tsx`: how the text recognised on a receipt becomes one expense
 * record. The recognised text, today's date (`new Date().toISOString()`'s date part) and the
 * current year are parameters. The two regular expressions are scanners over positions,
 * leftmost first, with the greedy choices of a JavaScript matcher.
 */
module OcrImport {
  import opened Options
  import opened Text
  import opened Records
  import opened Rounding
  import opened Calendar
  import ImportAmount

  /** `roundToTens(amount)`: despite its name it floors to a multiple of 100. */
  function RoundToTens(n: int): (r: int)
    ensures r % 100 == 0 && r <= n < r + 100
  {
    FloorHundred(n)
  }

  // ---------------------------------------------------------------- the date pattern

  /** `[-/]`. */
  predicate IsSep(c: char) { c == '-' || c == '/' }

  /** `\d{1,2}` at `j`, greedy: how many digits it takes (0 when there is none). */
  function DigitsAt(s: string, j: nat): (n: nat)
    ensures n <= 2 && (n > 0 ==> j + n <= |s|)
    ensures forall k :: j <= k < j + n ==> IsDigit(s[k])
    ensures n == 0 <==> !(j < |s| && IsDigit(s[j]))
    ensures n == 1 ==> !(j + 1 < |s| && IsDigit(s[j + 1]))
  {
    if j < |s| && IsDigit(s[j]) then (if j + 1 < |s| && IsDigit(s[j + 1]) then 2 else 1) else 0
  }

  /** `\d{1,2}[-/]` at `j`, giving where it ends. Falling back from two digits to one cannot
      help, since the second digit is no separator. */
  function PartThenSepAt(s: string, j: nat): (r: Option<nat>)
    ensures r.Some? ==> j + 2 <= r.value <= |s| && IsSep(s[r.value - 1])
  {
    var n := DigitsAt(s, j);
    if n > 0 && j + n < |s| && IsSep(s[j + n]) then Some(j + n + 1) else None
  }

  /** `\d{1,2}` closing a match that starts at `j`: where it ends. */
  function LastPartAt(s: string, j: nat): (r: Option<nat>)
    ensures r.Some? ==> j < r.value <= |s|
  {
    var n := DigitsAt(s, j);
    if n > 0 then Some(j + n) else None
  }

  /** The first alternative, `\d{4}[-/]\d{1,2}[-/]\d{1,2}`, at `i`: where it ends. */
  function LongDateAt(s: string, i: nat): (r: Option<nat>)
    ensures r.Some? ==> i < r.value <= |s|
  {
    if i + 5 <= |s| && AllDigits(s[i..i + 4]) && IsSep(s[i + 4]) then
      match PartThenSepAt(s, i + 5)
      case None => None
      case Some(j) => LastPartAt(s, j)
    else None
  }

  /** The second alternative, `\d{1,2}[-/]\d{1,2}`, at `i`: where it ends. */
  function ShortDateAt(s: string, i: nat): (r: Option<nat>)
    ensures r.Some? ==> i < r.value <= |s|
  {
    match PartThenSepAt(s, i)
    case None => None
    case Some(j) => LastPartAt(s, j)
  }

  /** The whole pattern at `i`, the first alternative tried first. */
  function DateAt(s: string, i: nat): (r: Option<nat>)
    ensures r.Some? ==> i < r.value <= |s|
  {
    var long := LongDateAt(s, i);
    if long.Some? then long else ShortDateAt(s, i)
  }

  /** `text.match(dateRegex)` searched from `i`: the start and end of the leftmost match. */
  function FindDate(s: string, i: nat): (r: Option<(nat, nat)>)
    requires i <= |s|
    ensures r.Some? ==> i <= r.value.0 < r.value.1 <= |s| && DateAt(s, r.value.0) == Some(r.value.1)
    ensures r.Some? ==> forall k :: i <= k < r.value.0 ==> DateAt(s, k).None?
    ensures r.None? ==> forall k :: i <= k <= |s| ==> DateAt(s, k).None?
    decreases |s| - i
  {
    match DateAt(s, i)
    case Some(e) => Some((i, e))
    case None => if i == |s| then None else FindDate(s, i + 1)
  }

  /** A separator in the text splits it into two parts at least. */
  lemma SplitAtSeparator(s: string, c: char)
    requires c in s
    ensures |Split(s, c)| >= 2
  {
  }

  /** The date taken from a match: with `/` in it, split on `/`; two parts are month and day
      of the current year, three parts are year, month and day; a match without `/` is kept as
      it is. */
  function NormalizeDate(m: string, year: nat): string {
    if '/' in m then
      var parts := Split(m, '/');
      SplitAtSeparator(m, '/');
      if |parts| == 2 then NatToString(year) + "-" + Pad2(parts[0]) + "-" + Pad2(parts[1])
      else parts[0] + "-" + Pad2(parts[1]) + "-" + Pad2(parts[2])
    else m
  }

  /** The record's date: the normalized leftmost match, or today's date without one. */
  function ExtractedDate(text: string, today: string, year: nat): string {
    match FindDate(text, 0)
    case None => today
    case Some(span) => NormalizeDate(text[span.0..span.1], year)
  }

  // ---------------------------------------------------------------- the amount pattern

  /** `[\d,]*` from `j`: how many characters it takes. */
  function DigitCommaRun(s: string, j: nat): (n: nat)
    requires j <= |s|
    ensures j + n <= |s| && (j + n == |s| || !DigitOrComma(s[j + n]))
    ensures forall k :: j <= k < j + n ==> DigitOrComma(s[k])
    decreases |s| - j
  {
    if j < |s| && DigitOrComma(s[j]) then 1 + DigitCommaRun(s, j + 1) else 0
  }

  /** `[¥￥][\d,]+` can start at `i`. */
  predicate YenTokenAt(s: string, i: nat) {
    i + 1 < |s| && ImportAmount.IsYen(s[i]) && DigitOrComma(s[i + 1])
  }

  /** The leftmost start of `[¥￥][\d,]+` from `i`. */
  function FindYenToken(s: string, i: nat): (r: Option<nat>)
    requires i <= |s|
    ensures r.Some? ==> i <= r.value && YenTokenAt(s, r.value)
    ensures r.Some? ==> forall k :: i <= k < r.value ==> !YenTokenAt(s, k)
    ensures r.None? ==> forall k :: i <= k ==> !YenTokenAt(s, k)
    decreases |s| - i
  {
    if YenTokenAt(s, i) then Some(i)
    else if i + 1 >= |s| then None
    else FindYenToken(s, i + 1)
  }

  /** The digits of the token starting at `i`: `.replace(/[¥￥,]/g, '')` leaves what follows
      the yen sign without its commas. */
  function TokenDigits(s: string, i: nat): (r: string)
    requires YenTokenAt(s, i)
    ensures AllDigits(r)
  {
    var run := s[i + 1..i + 1 + DigitCommaRun(s, i + 1)];
    RemoveCommasDigits(run);
    RemoveCommas(run)
  }

  /** The record's amount: 0 without a token, minus `roundToTens` of the token's value
      otherwise; `None` for the NaN that `parseInt` gives when the token holds only commas. */
  function ExtractedAmount(text: string): (r: Option<int>)
    ensures r.None? <==> exists i :: FindYenToken(text, 0) == Some(i) && TokenDigits(text, i) == []
    ensures r.Some? ==> r.value <= 0 && r.value % 100 == 0
    ensures (forall k :: !YenTokenAt(text, k)) ==> r == Some(0)
  {
    match FindYenToken(text, 0)
    case None => Some(0)
    case Some(i) =>
      var digits := TokenDigits(text, i);
      if digits == [] then None else Some(-RoundToTens(NumberValue(digits)))
  }

  // ---------------------------------------------------------------- the record

  /** What `processImage` hands to `onImport` for the recognised text: `None` stands for the
      record whose amount is NaN. */
  function Extract(text: string, today: string, year: nat): Option<Draft> {
    match ExtractedAmount(text)
    case None => None
    case Some(amount) => Some(Draft(ExtractedDate(text, today, year), Trim(Before(text, '\n')), amount, Expense))
  }

  /** The body of `processImage` once the text is recognised: `date` starts as today's date
      and `amount` as 0, and each is replaced when its pattern matches. */
  method ProcessText(text: string, today: string, year: nat) returns (d: Option<Draft>)
    ensures d == Extract(text, today, year)
  {
    var dateMatch := FindDate(text, 0);
    var date := today;
    if dateMatch.Some? {
      date := NormalizeDate(text[dateMatch.value.0..dateMatch.value.1], year);
    }
    assert date == ExtractedDate(text, today, year);
    var amountMatch := FindYenToken(text, 0);
    var amount: Option<int> := Some(0);
    if amountMatch.Some? {
      var rawAmount := TokenDigits(text, amountMatch.value);
      if rawAmount == [] {
        amount := None;
      } else {
        amount := Some(-RoundToTens(NumberValue(rawAmount)));
      }
    }
    assert amount == ExtractedAmount(text);
    var store := Trim(Before(text, '\n'));
    if amount.None? {
      return None;
    }
    d := Some(Draft(date, store, amount.value, Expense));
  }

  // ---------------------------------------------------------------- properties

  /** Every extracted record is an expense whose amount is a non-positive multiple of 100,
      read from the first token when there is one, and 0 when there is none. */
  lemma ExtractedRecordFacts(text: string, today: string, year: nat)
    requires Extract(text, today, year).Some?
    ensures var d := Extract(text, today, year).value;
      d.kind == Expense && d.amount <= 0 && d.amount % 100 == 0
      && (FindYenToken(text, 0).None? ==> d.amount == 0)
      && (FindYenToken(text, 0).Some? ==>
            var n := NumberValue(TokenDigits(text, FindYenToken(text, 0).value));
            -d.amount <= n < -d.amount + 100)
  {
  }

  /** The store is the first line, trimmed, with no fallback: a blank first line gives an
      empty store. */
  lemma StoreIsFirstLine(line: string, rest: string, today: string, year: nat)
    requires '\n' !in line
    requires Extract(line + "\n" + rest, today, year).Some?
    ensures Extract(line + "\n" + rest, today, year).value.store == Trim(line)
  {
    BeforeFirst(line, '\n', rest);
  }

  /** Without a date match the record carries today's date. */
  lemma NoDateMeansToday(text: string, today: string, year: nat)
    requires forall k :: 0 <= k <= |text| ==> DateAt(text, k).None?
    ensures ExtractedDate(text, today, year) == today
  {
  }

  /** Three `/`-separated parts: the first is kept, the other two padded to two digits. */
  lemma ThreePartsPadded(a: string, b: string, c: string, year: nat)
    requires '/' !in a && '/' !in b && '/' !in c
    ensures NormalizeDate(a + "/" + b + "/" + c, year) == a + "-" + Pad2(b) + "-" + Pad2(c)
  {
    var m := a + "/" + b + "/" + c;
    assert Split(m, '/') == [a, b, c] by {
      SplitThree(a, b, c, '/');
    }
    assert '/' in m by {
      assert m[|a|] == '/';
    }
  }

  /** Three parts free of the separator, joined by it, split back into the three. */
  lemma SplitThree(a: string, b: string, c: string, sep: char)
    requires sep !in a && sep !in b && sep !in c
    ensures Split(a + [sep] + b + [sep] + c, sep) == [a, b, c]
  {
    assert Join([a, b, c], sep) == a + [sep] + b + [sep] + c by {
      assert [a, b, c] == [a] + [b, c];
      JoinCons(a, [b, c], sep);
      JoinCons(b, [c], sep);
    }
    SplitJoin([a, b, c], sep);
  }

  /** Two `/`-separated parts are month and day of the current year. */
  lemma TwoPartsGetYear(a: string, b: string, year: nat)
    requires '/' !in a && '/' !in b
    ensures NormalizeDate(a + "/" + b, year) == NatToString(year) + "-" + Pad2(a) + "-" + Pad2(b)
  {
    var m := a + "/" + b;
    assert Join([a, b], '/') == m by {
      JoinCons(a, [b], '/');
    }
    SplitJoin([a, b], '/');
    assert m[|a|] == '/';
  }

  /** A match without `/` is copied as it is, unpadded (`3-5` stays `3-5`). */
  lemma DashMatchVerbatim(m: string, year: nat)
    requires '/' !in m
    ensures NormalizeDate(m, year) == m
  {
  }

  /** A run of one or two digits padded to two is two digits. */
  lemma Pad2OfShortDigits(s: string)
    requires 1 <= |s| <= 2 && AllDigits(s)
    ensures |Pad2(s)| == 2 && AllDigits(Pad2(s))
  {
  }

  /** The pieces of a match of the first alternative: four digits, a separator, one or two
      digits, a separator, one or two digits. */
  lemma LongMatchPieces(s: string, i: nat, e: nat)
    requires LongDateAt(s, i) == Some(e)
    ensures PartThenSepAt(s, i + 5).Some?
    ensures var j := PartThenSepAt(s, i + 5).value;
      i + 5 < j - 1 <= i + 7 && j < e <= j + 2 && e <= |s|
      && AllDigits(s[i..i + 4]) && IsSep(s[i + 4]) && AllDigits(s[i + 5..j - 1]) && IsSep(s[j - 1])
      && AllDigits(s[j..e])
  {
    var j := PartThenSepAt(s, i + 5).value;
    assert DigitsAt(s, i + 5) == j - 1 - (i + 5);
    assert DigitsAt(s, j) == e - j;
  }

  /** Four digits, a dash, two digits, a dash, two digits. */
  lemma IsoShapedPieces(a: string, b: string, c: string)
    requires |a| == 4 && AllDigits(a) && |b| == 2 && AllDigits(b) && |c| == 2 && AllDigits(c)
    ensures var m := a + "-" + b + "-" + c;
      IsoShaped(m) && MonthOf(m) == NumberValue(b) && DayOf(m) == NumberValue(c)
  {
    var m := a + "-" + b + "-" + c;
    assert m[..4] == a && m[5..7] == b && m[8..] == c;
  }

  /** `YYYY/M/D` with one or two digits for month and day becomes `YYYY-MM-DD` with the
      same month and day. */
  lemma SlashPiecesIsoShaped(a: string, b: string, c: string, year: nat)
    requires |a| == 4 && AllDigits(a) && 1 <= |b| <= 2 && AllDigits(b) && 1 <= |c| <= 2 && AllDigits(c)
    ensures var m := NormalizeDate(a + "/" + b + "/" + c, year);
      IsoShaped(m) && MonthOf(m) == NumberValue(b) && DayOf(m) == NumberValue(c)
  {
    NoSlashInDigits(a);
    NoSlashInDigits(b);
    NoSlashInDigits(c);
    ThreePartsPadded(a, b, c, year);
    Pad2OfShortDigits(b);
    Pad2OfShortDigits(c);
    IsoShapedPieces(a, Pad2(b), Pad2(c));
    PadZerosValue(b, 2);
    PadZerosValue(c, 2);
  }

  /** A leftmost match in the form `YYYY/M/D`, whose second separator ends at `j`, gives a
      date of the shape `yyyy-MM-dd` whose month and day are the matched ones, though nothing
      checks that it is a day of the calendar. */
  lemma LongSlashMatchIsIsoShaped(s: string, i: nat, j: nat, e: nat, year: nat)
    requires LongDateAt(s, i) == Some(e) && PartThenSepAt(s, i + 5) == Some(j)
    requires i + 4 < |s| && s[i + 4] == '/' && s[j - 1] == '/'
    ensures IsoShaped(NormalizeDate(s[i..e], year))
    ensures MonthOf(NormalizeDate(s[i..e], year)) == NumberValue(s[i + 5..j - 1])
    ensures DayOf(NormalizeDate(s[i..e], year)) == NumberValue(s[j..e])
  {
    LongMatchPieces(s, i, e);
    SliceAtSlashes(s, i, j, e);
    SlashPiecesIsoShaped(s[i..i + 4], s[i + 5..j - 1], s[j..e], year);
  }

  /** A slice with `/` at two places is the three pieces around them joined by `/`. */
  lemma SliceAtSlashes(s: string, i: nat, j: nat, e: nat)
    requires i + 5 < j <= e <= |s| && s[i + 4] == '/' && s[j - 1] == '/'
    ensures s[i..e] == s[i..i + 4] + "/" + s[i + 5..j - 1] + "/" + s[j..e]
  {
    var m := s[i..i + 4] + "/" + s[i + 5..j - 1] + "/" + s[j..e];
    assert |m| == e - i;
    forall k | 0 <= k < |m|
      ensures m[k] == s[i + k]
    {
      if k < 4 {
      } else if k == 4 {
      } else if k < j - 1 - i {
        assert m[k] == s[i + 5..j - 1][k - 5];
      } else if k == j - 1 - i {
      } else {
        assert m[k] == s[j..e][k - (j - i)];
      }
    }
  }

  /** The first alternative accepts mixed separators; one `/` then reads as `MM/DD` and the
      year is put in front of the whole first part: `2024-3/5` gives `<year>-2024-3-05`. */
  lemma MixedSeparatorsMisread(a: string, b: string, c: string, year: nat)
    requires |a| == 4 && '/' !in a && '/' !in b && '/' !in c
    ensures NormalizeDate(a + "-" + b + "/" + c, year) == NatToString(year) + "-" + a + "-" + b + "-" + Pad2(c)
  {
    TwoPartsGetYear(a + "-" + b, c, year);
    PadLongText(a + "-" + b);
    DashesRegrouped(NatToString(year), a, b, Pad2(c));
  }

  lemma DashesRegrouped(x: string, a: string, b: string, z: string)
    ensures x + "-" + (a + "-" + b) + "-" + z == x + "-" + a + "-" + b + "-" + z
  {
  }

  /** Text of two characters or more is not padded. */
  lemma PadLongText(s: string)
    requires |s| >= 2
    ensures Pad2(s) == s
  {
    var r := Pad2(s);
    assert |r| == |s| && r[|r| - |s|..] == s;
  }

  lemma NoSlashInDigits(s: string)
    requires AllDigits(s)
    ensures '/' !in s
  {
    assert forall k :: 0 <= k < |s| ==> s[k] != '/' by {
      forall k | 0 <= k < |s|
        ensures s[k] != '/'
      {
        assert IsDigit(s[k]);
      }
    }
  }
}
