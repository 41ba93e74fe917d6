/**
 * The importer's amounts (`src/utils/importParser.ts`): the signed tokens found after the date
 * (`/[+-][¥￥]?\d+(?:,\d{3})*​/g`), `parseAmount`, which reads a token back with the looser
 * pattern `/([+-])?[¥￥]?(\d+(?:,\d{3})*)/`, and the magnitude truncation `roundToHundred`.
 * Each regular expression is a hand-written scanner over positions of the string, with the
 * greedy choices and the backtracking order of a JavaScript matcher.
 */
module ImportAmount {
  import opened Options
  import opened Text
  import opened Records
  import opened Rounding

  predicate IsSign(c: char) { c == '+' || c == '-' }

  /** `[¥￥]`: the half-width and the full-width yen sign. */
  predicate IsYen(c: char) { c == '¥' || c == '￥' }

  /** `\d+` (or `\d*`) from `k`, greedy: where the run of digits ends. */
  function DigitRunEnd(s: string, k: nat): (n: nat)
    requires k <= |s|
    ensures k <= n <= |s|
    ensures forall i :: k <= i < n ==> IsDigit(s[i])
    ensures n < |s| ==> !IsDigit(s[n])
    decreases |s| - k
  {
    if k < |s| && IsDigit(s[k]) then DigitRunEnd(s, k + 1) else k
  }

  /** `,\d{3}` at `k`. */
  predicate GroupAt(s: string, k: nat) {
    k + 4 <= |s| && s[k] == ',' && IsDigit(s[k + 1]) && IsDigit(s[k + 2]) && IsDigit(s[k + 3])
  }

  /** `(?:,\d{3})*` from `k`, greedy: where the last complete group ends. */
  function GroupsEnd(s: string, k: nat): (n: nat)
    requires k <= |s|
    ensures k <= n <= |s| && !GroupAt(s, n)
    ensures forall i :: k <= i < n ==> DigitOrComma(s[i])
    decreases |s| - k
  {
    if GroupAt(s, k) then GroupsEnd(s, k + 4) else k
  }

  /** `\d+(?:,\d{3})*` from a digit at `k`: where the numeral ends. */
  function NumeralEnd(s: string, k: nat): (n: nat)
    requires k < |s| && IsDigit(s[k])
    ensures k < n <= |s|
    ensures forall i :: k <= i < n ==> DigitOrComma(s[i])
  {
    GroupsEnd(s, DigitRunEnd(s, k))
  }

  /** After a sign at `i`, `[¥￥]?\d`: where the digits start, the yen sign taken first. */
  function NumeralStart(s: string, i: nat): (n: Option<nat>)
    requires i < |s|
    ensures n.Some? ==> n.value < |s| && IsDigit(s[n.value])
    ensures n.Some? ==> n.value == i + 1 || (n.value == i + 2 && IsYen(s[i + 1]))
    ensures n.None? ==> !(i + 1 < |s| && IsDigit(s[i + 1])) && !(i + 2 < |s| && IsYen(s[i + 1]) && IsDigit(s[i + 2]))
  {
    if i + 2 < |s| && IsYen(s[i + 1]) && IsDigit(s[i + 2]) then Some(i + 2)
    else if i + 1 < |s| && IsDigit(s[i + 1]) then Some(i + 1)
    else None
  }

  /** `[+-][¥￥]?\d+(?:,\d{3})*` at `i`: where the token ends. */
  function TokenEnd(s: string, i: nat): (e: Option<nat>)
    requires i < |s|
    ensures e.Some? ==> i + 2 <= e.value <= |s| && IsSign(s[i])
  {
    if IsSign(s[i]) && NumeralStart(s, i).Some? then Some(NumeralEnd(s, NumeralStart(s, i).value)) else None
  }

  /** A signed token as the scan returns it: a sign, an optional yen sign and a whole numeral. */
  predicate WellFormed(t: string) {
    |t| >= 2 && IsSign(t[0]) && NumeralStart(t, 0).Some? && NumeralEnd(t, NumeralStart(t, 0).value) == |t|
  }

  /** The numeral of a well-formed token, commas included. */
  function Numeral(t: string): (n: string)
    requires WellFormed(t)
    ensures forall i :: 0 <= i < |n| ==> DigitOrComma(n[i])
  {
    t[NumeralStart(t, 0).value..]
  }

  // ---------------------------------------------------------------- reading a prefix of a slice

  lemma {:induction false} DigitRunSlice(s: string, a: nat, b: nat, k: nat)
    requires a <= k <= b <= |s| && DigitRunEnd(s, k) <= b
    ensures DigitRunEnd(s[a..b], k - a) == DigitRunEnd(s, k) - a
    decreases |s| - k
  {
    if k < |s| && IsDigit(s[k]) {
      assert s[a..b][k - a] == s[k];
      DigitRunSlice(s, a, b, k + 1);
    } else if k < b {
      assert s[a..b][k - a] == s[k];
    }
  }

  lemma {:induction false} GroupsSlice(s: string, a: nat, b: nat, k: nat)
    requires a <= k <= b <= |s| && GroupsEnd(s, k) <= b
    ensures GroupsEnd(s[a..b], k - a) == GroupsEnd(s, k) - a
    decreases |s| - k
  {
    var t := s[a..b];
    if GroupAt(s, k) {
      assert t[k - a] == s[k] && t[k - a + 1] == s[k + 1] && t[k - a + 2] == s[k + 2] && t[k - a + 3] == s[k + 3];
      GroupsSlice(s, a, b, k + 4);
    }
  }

  /** The token found at `i` of `s`, cut out, is well formed. */
  lemma TokenSlice(s: string, i: nat)
    requires i < |s| && TokenEnd(s, i).Some?
    ensures WellFormed(s[i..TokenEnd(s, i).value])
    ensures NumeralStart(s[i..TokenEnd(s, i).value], 0).value == NumeralStart(s, i).value - i
  {
    var e := TokenEnd(s, i).value;
    var t := s[i..e];
    var ns := NumeralStart(s, i).value;
    assert t[0] == s[i] && t[1] == s[i + 1];
    if |t| > 2 { assert t[2] == s[i + 2]; }
    assert NumeralStart(t, 0).value == ns - i;
    DigitRunSlice(s, i, e, ns);
    GroupsSlice(s, i, e, DigitRunEnd(s, ns));
  }

  // ---------------------------------------------------------------- the global scan

  /** `Array.from(s.matchAll(/[+-][¥￥]?\d+(?:,\d{3})*​/g))` from position `p`, as matched texts
      in order: leftmost match first, the scan resuming where a match ends. */
  function ScanTokens(s: string, p: nat): (r: seq<string>)
    requires p <= |s|
    ensures forall j :: 0 <= j < |r| ==> WellFormed(r[j])
    decreases |s| - p
  {
    if p == |s| then []
    else match TokenEnd(s, p)
      case Some(e) =>
        TokenSlice(s, p);
        [s[p..e]] + ScanTokens(s, e)
      case None => ScanTokens(s, p + 1)
  }

  /** Every scanned token occurs in the text, at a position `k` at or after `p`. */
  lemma {:induction false} ScannedTokensOccur(s: string, p: nat, j: nat) returns (k: nat)
    requires p <= |s| && j < |ScanTokens(s, p)|
    ensures p <= k && OccursAt(s, ScanTokens(s, p)[j], k)
    decreases |s| - p
  {
    match TokenEnd(s, p)
    case Some(e) =>
      if j == 0 {
        k := p;
      } else {
        assert ScanTokens(s, p)[j] == ScanTokens(s, e)[j - 1];
        k := ScannedTokensOccur(s, e, j - 1);
      }
    case None =>
      k := ScannedTokensOccur(s, p + 1, j);
  }

  /** A text with no sign character holds no token: unsigned numbers are never amounts. */
  lemma {:induction false} UnsignedTextHasNoTokens(s: string, p: nat)
    requires p <= |s| && forall i :: p <= i < |s| ==> !IsSign(s[i])
    ensures ScanTokens(s, p) == []
    decreases |s| - p
  {
    if p < |s| { UnsignedTextHasNoTokens(s, p + 1); }
  }

  // ---------------------------------------------------------------- parseAmount

  datatype ParsedAmount = ParsedAmount(amount: int, kind: TxType)

  /** `parseFloat(numStr.replace(/,/g, ''))` of a numeral: digits only, so never `NaN`. */
  function NumeralValue(n: string): nat
    requires forall i :: 0 <= i < |n| ==> DigitOrComma(n[i])
  {
    RemoveCommasDigits(n);
    NumberValue(RemoveCommas(n))
  }

  /** The sign decides the type; the magnitude is truncated to hundreds and negated for an expense. */
  function Resolve(isPositive: bool, value: nat): (r: ParsedAmount)
    ensures r.amount % 100 == 0
    ensures Abs(r.amount) == MagnitudeHundreds(value)
    ensures r.kind == Income <==> isPositive
    ensures r.kind == Income ==> r.amount >= 0
    ensures r.kind == Expense ==> r.amount <= 0
  {
    var m := MagnitudeHundreds(value);
    if isPositive then ParsedAmount(m, Income) else ParsedAmount(-(m as int), Expense)
  }

  /** `([+-])?[¥￥]?(\d` at `i`, in the matcher's order: the captured sign and where the digits start. */
  function LooseAt(s: string, i: nat): (m: Option<(Option<char>, nat)>)
    requires i < |s|
    ensures m.Some? ==> i <= m.value.1 < |s| && IsDigit(s[m.value.1])
  {
    if IsSign(s[i]) && NumeralStart(s, i).Some? then Some((Some(s[i]), NumeralStart(s, i).value))
    else if IsYen(s[i]) && i + 1 < |s| && IsDigit(s[i + 1]) then Some((None, i + 1))
    else if IsDigit(s[i]) then Some((None, i))
    else None
  }

  function AmountFrom(s: string, i: nat): Option<ParsedAmount>
    requires i <= |s|
    decreases |s| - i
  {
    if i == |s| then None
    else match LooseAt(s, i)
      case Some(m) =>
        var e := NumeralEnd(s, m.1);
        Some(Resolve(m.0 == Some('+'), NumeralValue(s[m.1..e])))
      case None => AmountFrom(s, i + 1)
  }

  /** `parseAmount(amountStr)`: `None` for `null`. */
  function ParseAmount(s: string): Option<ParsedAmount> {
    AmountFrom(s, 0)
  }

  /** A text without a digit has no amount at all. */
  lemma {:induction false} NoDigitNoAmount(s: string, i: nat)
    requires i <= |s| && forall k :: i <= k < |s| ==> !IsDigit(s[k])
    ensures AmountFrom(s, i).None?
    decreases |s| - i
  {
    if i < |s| { NoDigitNoAmount(s, i + 1); }
  }

  /** Reading a scanned token back never fails: the `null` branch of the caller is dead, and the
      record's sign and magnitude are the token's. */
  lemma TokenParses(t: string)
    requires WellFormed(t)
    ensures ParseAmount(t) == Some(Resolve(t[0] == '+', NumeralValue(Numeral(t))))
  {
    var ns := NumeralStart(t, 0).value;
    assert LooseAt(t, 0) == Some((Some(t[0]), ns));
    assert t[ns..NumeralEnd(t, ns)] == Numeral(t);
    assert (Some(t[0]) == Some('+')) == (t[0] == '+');
  }

  /** A `-` token below 100 gives amount 0 typed as an expense. */
  lemma SmallExpense()
    ensures ParseAmount("-50") == Some(ParsedAmount(0, Expense))
  {
    var s := "-50";
    assert NumeralStart(s, 0) == Some(1);
    assert DigitRunEnd(s, 3) == 3;
    assert DigitRunEnd(s, 1) == 3;
    assert GroupsEnd(s, 3) == 3;
    assert s[1..3] == "50";
    assert RemoveCommas("50") == "50";
    assert NumberValue("50") == 50 by { assert "50"[..1] == "5"; }
  }

  lemma GroupedIncomeScan()
    ensures NumeralStart("+¥1,250", 0) == Some(2) && NumeralEnd("+¥1,250", 2) == 7
  {
    var s := "+¥1,250";
    assert DigitRunEnd(s, 3) == 3;
    assert DigitRunEnd(s, 2) == 3;
    assert GroupsEnd(s, 7) == 7;
    assert GroupAt(s, 3);
  }

  lemma Value1250()
    ensures AllDigits("1250") && NumberValue("1250") == 1250
  {
    assert "1250"[..3] == "125" && "125"[..2] == "12" && "12"[..1] == "1" && "1"[..0] == "";
    assert NumberValue("1") == 1;
    assert NumberValue("12") == 12;
    assert NumberValue("125") == 125;
  }

  /** A comma between two digit groups is dropped: the value is that of the digits run together. */
  lemma GroupedValue(a: string, b: string)
    requires AllDigits(a) && AllDigits(b)
    ensures NumeralValue(a + [','] + b) == NumberValue(a + b)
  {
    AllDigitsAppend(a, b);
    DropGroupComma(a, b);
    GroupedChars(a, b);
  }

  lemma DropGroupComma(a: string, b: string)
    requires AllDigits(a) && AllDigits(b)
    ensures RemoveCommas(a + [','] + b) == a + b
  {
    var tail := [','] + b;
    assert a + [','] + b == a + tail;
    RemoveCommasCons(',', b);
    RemoveCommasOfDigits(b);
    assert RemoveCommas(tail) == b;
    RemoveCommasAppend(a, tail);
    RemoveCommasOfDigits(a);
  }

  lemma GroupedChars(a: string, b: string)
    requires AllDigits(a) && AllDigits(b)
    ensures forall i :: 0 <= i < |a + [','] + b| ==> DigitOrComma((a + [','] + b)[i])
  {
    var n := a + [','] + b;
    forall i | 0 <= i < |n|
      ensures DigitOrComma(n[i])
    {
      if i < |a| {
        assert n[i] == a[i];
      } else if i == |a| {
        assert n[i] == ',';
      } else {
        assert n[i] == b[i - |a| - 1];
      }
    }
  }

  lemma RemoveCommasCons(c: char, t: string)
    ensures RemoveCommas([c] + t) == (if c == ',' then [] else [c]) + RemoveCommas(t)
  {
    assert ([c] + t)[1..] == t;
  }

  lemma GroupedIncomeValue()
    ensures NumeralValue("1,250") == 1250
  {
    GroupedValue("1", "250");
    assert "1" + [','] + "250" == "1,250";
    assert "1" + "250" == "1250";
    Value1250();
  }

  /** Commas group thousands and the yen sign is optional: `+¥1,250` is an income of 1200. */
  lemma GroupedIncome()
    ensures ParseAmount("+¥1,250") == Some(ParsedAmount(1200, Income))
  {
    var s := "+¥1,250";
    GroupedIncomeScan();
    GroupedIncomeValue();
    assert s[2..7] == "1,250";
    assert LooseAt(s, 0) == Some((Some('+'), 2));
    assert Resolve(true, 1250) == ParsedAmount(1200, Income);
  }
}
