/**
 * The importer's date handling (`src/utils/importParser.ts`): the date token recognised at
 * the start of a line (`/^(\d{1,2}\/\d{1,2}|\d{4}[-/]\d{1,2}[-/]\d{1,2})/`) and
 * `validateDate`, which turns it into `YYYY-MM-DD`.
 *
 * `validateDate` asks the JavaScript engine whether `new Date(standardDate)` is a valid time.
 * Every engine rejects a month outside 01-12 or a day outside 01-31; whether a day beyond the
 * month's length (`2024-02-30`) is rejected depends on the engine, so the check is a parameter:
 * `RangeOnly` rejects only the former, `Gregorian` is the ISO 8601 calendar-date check.
 */
module ImportDate {
  import opened Options
  import opened Text
  import opened Calendar

  datatype DateError = EmptyDate | MalformedDate | InvalidDate
  datatype DateResult = Valid(date: string) | Invalid(error: DateError)
  datatype DateCheck = RangeOnly | Gregorian

  predicate IsSeparator(c: char) { c == '-' || c == '/' }

  /** The separator class of a pattern: `\/` when `slashOnly`, `[-/]` otherwise. */
  predicate SeparatorOk(c: char, slashOnly: bool) { c == '/' || (!slashOnly && c == '-') }

  /** `currentYear || new Date().getFullYear().toString()`: an empty year is falsy. */
  function YearOr(currentYear: Option<string>, clockYear: string): string {
    if currentYear.Some? && currentYear.value != [] then currentYear.value else clockYear
  }

  /** `.replace(/[\s　]+/g, '')`. */
  function RemoveSpaces(s: string): (r: string)
    ensures forall i :: 0 <= i < |r| ==> !IsSpace(r[i])
    ensures (forall i :: 0 <= i < |s| ==> !IsSpace(s[i])) ==> r == s
  {
    if s == [] then [] else (if IsSpace(s[0]) then [] else [s[0]]) + RemoveSpaces(s[1..])
  }

  /** `^(\d{1,2})SEP(\d{1,2})$`, the greedy month digits tried first: the two digit groups. */
  function PairExact(r: string, slashOnly: bool): (p: Option<(string, string)>)
    ensures p.Some? ==> 1 <= |p.value.0| <= 2 && 1 <= |p.value.1| <= 2 && |r| == |p.value.0| + 1 + |p.value.1|
    ensures p.Some? ==> r == p.value.0 + [r[|p.value.0|]] + p.value.1 && SeparatorOk(r[|p.value.0|], slashOnly)
    ensures p.Some? ==> AllDigits(p.value.0) && AllDigits(p.value.1)
  {
    if |r| >= 4 && IsDigit(r[0]) && IsDigit(r[1]) && SeparatorOk(r[2], slashOnly)
       && |r| <= 5 && AllDigits(r[3..])
    then Some((r[..2], r[3..]))
    else if |r| >= 3 && IsDigit(r[0]) && SeparatorOk(r[1], slashOnly)
       && |r| <= 4 && AllDigits(r[2..])
    then Some((r[..1], r[2..]))
    else None
  }

  datatype DateFields = DateFields(year: Option<string>, month: string, day: string)

  function Fields(year: Option<string>, p: Option<(string, string)>): DateFields
    requires p.Some?
  {
    DateFields(year, p.value.0, p.value.1)
  }

  /** `^(\d{4})?[-/]?(\d{1,2})[-/](\d{1,2})$`: the optional year group is tried first,
      then the optional separator, exactly as a backtracking matcher does. */
  function MatchDateFields(s: string): (f: Option<DateFields>)
    ensures f.Some? ==> 1 <= |f.value.month| <= 2 && 1 <= |f.value.day| <= 2
    ensures f.Some? && f.value.year.Some? ==> |f.value.year.value| == 4 && AllDigits(f.value.year.value)
  {
    if |s| >= 4 && AllDigits(s[..4]) && |s| > 4 && IsSeparator(s[4]) && PairExact(s[5..], false).Some? then
      Some(Fields(Some(s[..4]), PairExact(s[5..], false)))
    else if |s| >= 4 && AllDigits(s[..4]) && PairExact(s[4..], false).Some? then
      Some(Fields(Some(s[..4]), PairExact(s[4..], false)))
    else if |s| >= 1 && IsSeparator(s[0]) && PairExact(s[1..], false).Some? then
      Some(Fields(None, PairExact(s[1..], false)))
    else if PairExact(s, false).Some? then
      Some(Fields(None, PairExact(s, false)))
    else None
  }

  /** `!isNaN(new Date(s).getTime())` for the `year-MM-DD` strings built by `validateDate`.
      A string not of the shape `dddd-dd-dd` is taken as rejected. */
  predicate DateAccepted(check: DateCheck, s: string) {
    IsoShaped(s) && 1 <= MonthOf(s) <= 12 && 1 <= DayOf(s) <= 31
    && (check == Gregorian ==> DayOf(s) <= DaysInMonth(YearOf(s), MonthOf(s)))
  }

  function Assemble(year: string, month: string, day: string): string {
    year + "-" + Pad2(month) + "-" + Pad2(day)
  }

  /** `validateDate(dateStr, _, currentYear)`, the diagnostics left out. */
  function ValidateDate(dateStr: string, currentYear: Option<string>, clockYear: string, check: DateCheck): DateResult {
    var trimmed := Trim(dateStr);
    if trimmed == [] then Invalid(EmptyDate)
    else ValidateClean(RemoveSpaces(trimmed), YearOr(currentYear, clockYear), check)
  }

  /** The part of `validateDate` after the white space is removed; `year` is the fallback year. */
  function ValidateClean(clean: string, year: string, check: DateCheck): DateResult {
    match PairExact(clean, true)
    case Some(md) => Valid(Assemble(year, md.0, md.1))
    case None =>
      match MatchDateFields(clean)
      case None => Invalid(MalformedDate)
      case Some(f) =>
        var standard := Assemble(if f.year.Some? then f.year.value else year, f.month, f.day);
        if DateAccepted(check, standard) then Valid(standard) else Invalid(InvalidDate)
  }

  // ---------------------------------------------------------------- the date token of a line

  /** `\d{1,2}SEP\d{1,2}` at the start of `r`, each digit group greedy: the length matched. */
  function PairPrefixLen(r: string, slashOnly: bool): (n: Option<nat>)
    ensures n.Some? ==> 3 <= n.value <= 5 && n.value <= |r| && PairExact(r[..n.value], slashOnly).Some?
  {
    if |r| >= 4 && IsDigit(r[0]) && IsDigit(r[1]) && SeparatorOk(r[2], slashOnly) && IsDigit(r[3]) then
      var n := if |r| >= 5 && IsDigit(r[4]) then 5 else 4;
      assert AllDigits(r[..n][3..]);
      Some(n)
    else if |r| >= 3 && IsDigit(r[0]) && SeparatorOk(r[1], slashOnly) && IsDigit(r[2]) then
      var n := if |r| >= 4 && IsDigit(r[3]) then 4 else 3;
      assert AllDigits(r[..n][2..]);
      Some(n)
    else None
  }

  /** `^(\d{1,2}\/\d{1,2}|\d{4}[-/]\d{1,2}[-/]\d{1,2})`: the length of the date token that
      starts a line, the `M/D` alternative tried first. */
  function DateTokenLen(s: string): (n: Option<nat>)
    ensures n.Some? ==> 3 <= n.value <= |s|
  {
    match PairPrefixLen(s, true)
    case Some(k) => Some(k)
    case None =>
      if |s| >= 5 && AllDigits(s[..4]) && IsSeparator(s[4]) then
        match PairPrefixLen(s[5..], false)
        case Some(k) => Some(5 + k)
        case None => None
      else None
  }

  // ---------------------------------------------------------------- properties

  lemma NoSpaceIsTrimmed(s: string)
    requires forall i :: 0 <= i < |s| ==> IsDigit(s[i]) || IsSeparator(s[i])
    ensures Trim(s) == s && RemoveSpaces(s) == s
  {
    assert forall i :: 0 <= i < |s| ==> !IsSpace(s[i]);
    TrimOfTrimmed(s);
  }

  /** A non-empty string of digits and separators reaches the pattern stage unchanged. */
  lemma ValidateDigitsAndSeparators(s: string, currentYear: Option<string>, clockYear: string, check: DateCheck)
    requires s != [] && forall i :: 0 <= i < |s| ==> IsDigit(s[i]) || IsSeparator(s[i])
    ensures ValidateDate(s, currentYear, clockYear, check) == ValidateClean(s, YearOr(currentYear, clockYear), check)
  {
    NoSpaceIsTrimmed(s);
    var trimmed := Trim(s);
    assert trimmed != [] && RemoveSpaces(trimmed) == s;
  }

  lemma ValidatePair(s: string, year: string, check: DateCheck)
    requires PairExact(s, true).Some?
    ensures ValidateClean(s, year, check) == Valid(Assemble(year, PairExact(s, true).value.0, PairExact(s, true).value.1))
  {
  }

  lemma ValidateFields(s: string, year: string, check: DateCheck, f: DateFields)
    requires PairExact(s, true).None? && MatchDateFields(s) == Some(f) && f.year.Some?
    ensures var std := Assemble(f.year.value, f.month, f.day);
      ValidateClean(s, year, check) == if DateAccepted(check, std) then Valid(std) else Invalid(InvalidDate)
  {
  }

  lemma PairExactOfParts(m: string, c: char, d: string, slashOnly: bool)
    requires 1 <= |m| <= 2 && 1 <= |d| <= 2 && AllDigits(m) && AllDigits(d) && SeparatorOk(c, slashOnly)
    ensures PairExact(m + [c] + d, slashOnly) == Some((m, d))
  {
    var s := m + [c] + d;
    if |m| == 2 {
      assert s[..2] == m && s[3..] == d;
    } else {
      assert s[..1] == m && s[2..] == d;
    }
  }

  lemma PairChars(m: string, c: char, d: string)
    requires AllDigits(m) && AllDigits(d) && IsSeparator(c)
    ensures var s := m + [c] + d; forall i :: 0 <= i < |s| ==> IsDigit(s[i]) || IsSeparator(s[i])
  {
    var s := m + [c] + d;
    forall i | 0 <= i < |s| ensures IsDigit(s[i]) || IsSeparator(s[i]) {
      if i < |m| { assert s[i] == m[i]; } else if i > |m| { assert s[i] == d[i - |m| - 1]; }
    }
  }

  /** A year-less `M/D` date takes the header year, else the wall-clock year, is zero-padded,
      and is never checked against the calendar: `2/30` is accepted. */
  lemma MonthDayDate(m: string, d: string, currentYear: Option<string>, clockYear: string, check: DateCheck)
    requires 1 <= |m| <= 2 && 1 <= |d| <= 2 && AllDigits(m) && AllDigits(d)
    ensures ValidateDate(m + "/" + d, currentYear, clockYear, check)
         == Valid(YearOr(currentYear, clockYear) + "-" + Pad2(m) + "-" + Pad2(d))
  {
    PairExactOfParts(m, '/', d, true);
    PairChars(m, '/', d);
    ValidateDigitsAndSeparators(m + "/" + d, currentYear, clockYear, check);
    ValidatePair(m + "/" + d, YearOr(currentYear, clockYear), check);
  }

  lemma FullChars(y: string, s1: char, m: string, s2: char, d: string)
    requires AllDigits(y) && IsSeparator(s1) && IsSeparator(s2) && AllDigits(m) && AllDigits(d)
    ensures var s := y + [s1] + m + [s2] + d; forall i :: 0 <= i < |s| ==> IsDigit(s[i]) || IsSeparator(s[i])
  {
    PairChars(m, s2, d);
    var t := m + [s2] + d;
    var s := y + [s1] + t;
    assert s == y + [s1] + m + [s2] + d;
    forall i | 0 <= i < |s| ensures IsDigit(s[i]) || IsSeparator(s[i]) {
      if i < |y| { assert s[i] == y[i]; } else if i > |y| { assert s[i] == t[i - |y| - 1]; }
    }
  }

  lemma MatchFull(y: string, s1: char, m: string, s2: char, d: string)
    requires |y| == 4 && AllDigits(y) && IsSeparator(s1) && IsSeparator(s2)
    requires 1 <= |m| <= 2 && 1 <= |d| <= 2 && AllDigits(m) && AllDigits(d)
    ensures var s := y + [s1] + m + [s2] + d;
      PairExact(s, true).None? && MatchDateFields(s) == Some(DateFields(Some(y), m, d))
  {
    var s := y + [s1] + m + [s2] + d;
    assert PairExact(s, true).None? by {
      assert s[2] == y[2] && s[3] == y[3];
    }
    assert s[..4] == y;
    PairExactOfParts(m, s2, d, false);
    assert s[5..] == m + [s2] + d;
  }

  /** A dated `YYYY-M-D` (either separator) keeps its own year, is zero-padded, and is dropped
      exactly when the engine's date check refuses it. */
  lemma FullDate(y: string, s1: char, m: string, s2: char, d: string,
                 currentYear: Option<string>, clockYear: string, check: DateCheck)
    requires |y| == 4 && AllDigits(y) && IsSeparator(s1) && IsSeparator(s2)
    requires 1 <= |m| <= 2 && 1 <= |d| <= 2 && AllDigits(m) && AllDigits(d)
    ensures var std := Assemble(y, m, d);
      ValidateDate(y + [s1] + m + [s2] + d, currentYear, clockYear, check)
      == if DateAccepted(check, std) then Valid(std) else Invalid(InvalidDate)
  {
    var s := y + [s1] + m + [s2] + d;
    FullChars(y, s1, m, s2, d);
    MatchFull(y, s1, m, s2, d);
    ValidateDigitsAndSeparators(s, currentYear, clockYear, check);
    ValidateFields(s, YearOr(currentYear, clockYear), check, DateFields(Some(y), m, d));
  }

  lemma Feb30Fields()
    ensures var std := Assemble("2024", "02", "30");
      std == "2024-02-30" && IsoShaped(std) && YearOf(std) == 2024 && MonthOf(std) == 2 && DayOf(std) == 30
  {
    var std := Assemble("2024", "02", "30");
    assert std == "2024-02-30";
    assert NumberValue(std[5..7]) == 2 by { assert std[5..7] == "02"; }
    assert NumberValue(std[8..]) == 30 by { assert std[8..] == "30"; }
    assert NumberValue(std[..4]) == 2024 by {
      assert std[..4] == "2024";
      assert "2024"[..3] == "202" && "202"[..2] == "20" && "20"[..1] == "2" && "2"[..0] == "";
      assert NumberValue("2") == 2;
      assert NumberValue("20") == 20;
      assert NumberValue("202") == 202;
    }
  }

  /** The strict (Gregorian) check rejects a day beyond the month's length, `2024-02-30`;
      the range-only check lets it through. */
  lemma February30()
    ensures ValidateDate("2024-02-30", None, "2024", Gregorian) == Invalid(InvalidDate)
    ensures ValidateDate("2024-02-30", None, "2024", RangeOnly) == Valid("2024-02-30")
  {
    Feb30Fields();
    assert !DateAccepted(Gregorian, Assemble("2024", "02", "30"));
    assert DateAccepted(RangeOnly, Assemble("2024", "02", "30"));
    assert "2024-02-30" == "2024" + ['-'] + "02" + ['-'] + "30";
    FullDate("2024", '-', "02", '-', "30", None, "2024", Gregorian);
    FullDate("2024", '-', "02", '-', "30", None, "2024", RangeOnly);
  }

  /** The token at the start of a line never fails as empty or malformed: an `M/D` token is
      always accepted, a `YYYY-M-D` token is accepted or rejected by the date check alone. */
  lemma {:induction false} DateTokenValidates(s: string, currentYear: Option<string>, clockYear: string, check: DateCheck)
    requires DateTokenLen(s).Some?
    ensures var t := s[..DateTokenLen(s).value];
      var r := ValidateDate(t, currentYear, clockYear, check);
      (PairPrefixLen(s, true).Some? ==> r.Valid?) && (r.Invalid? ==> r.error == InvalidDate)
  {
    var n := DateTokenLen(s).value;
    var t := s[..n];
    match PairPrefixLen(s, true)
    case Some(k) =>
      var p := PairExact(t, true).value;
      MonthDayDate(p.0, p.1, currentYear, clockYear, check);
    case None =>
      var k := PairPrefixLen(s[5..], false).value;
      assert s[5..][..k] == t[5..];
      var p := PairExact(t[5..], false).value;
      assert t[..4] == s[..4] && t[4] == s[4];
      assert t[5..][|p.0|] == t[5 + |p.0|];
      assert t == t[..4] + [t[4]] + p.0 + [t[5 + |p.0|]] + p.1;
      FullDate(t[..4], t[4], p.0, t[5 + |p.0|], p.1, currentYear, clockYear, check);
  }
}
