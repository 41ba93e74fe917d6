/** Optional values: the source's `undefined`, `null` and failed regular-expression matches. */
module Options {
  datatype Option<+T> = None | Some(value: T)
}

/**
 * The JavaScript string built-ins the application relies on, written out over `seq<char>`:
 * character classes of its regular expressions, `trim`, the `/\s+/g` collapse, `indexOf`,
 * first-occurrence `replace`, `split`, `padStart`, decimal numerals and comma grouping.
 */
module Text {
  import opened Options

  // ---------------------------------------------------------------- character classes

  /** `\d` of a regular expression without the `u` flag: ASCII digits only. */
  predicate IsDigit(c: char) { '0' <= c <= '9' }

  /** The white space and line terminators that JavaScript's `\s` and `trim()` recognise. */
  predicate IsSpace(c: char) {
    c == '\t' || c == '\n' || c == '\U{000B}' || c == '\U{000C}' || c == '\r' || c == ' '
    || c == '\U{00A0}' || c == '\U{1680}' || ('\U{2000}' <= c <= '\U{200A}')
    || c == '\U{2028}' || c == '\U{2029}' || c == '\U{202F}' || c == '\U{205F}'
    || c == '\U{3000}' || c == '\U{FEFF}'
  }

  predicate AllDigits(s: string) { forall i :: 0 <= i < |s| ==> IsDigit(s[i]) }

  /** A character of a comma-grouped numeral. */
  predicate DigitOrComma(c: char) { IsDigit(c) || c == ',' }

  /** No white space at either end: what `trim()` guarantees. */
  predicate Trimmed(s: string) { s == [] || (!IsSpace(s[0]) && !IsSpace(s[|s| - 1])) }

  /** Every white-space character is a plain space and no two of them are adjacent:
      what `.replace(/\s+/g, ' ')` guarantees. */
  predicate Collapsed(s: string) {
    forall i :: 0 <= i < |s| ==> SpaceOk(s, i)
  }

  /** The white space at `i`, if any, is a plain space not followed by more white space. */
  predicate SpaceOk(s: string, i: nat)
    requires i < |s|
  {
    IsSpace(s[i]) ==> s[i] == ' ' && (i + 1 < |s| ==> !IsSpace(s[i + 1]))
  }

  // ---------------------------------------------------------------- trim

  /** The end of the run of white space that starts at `k`. */
  function SpaceRunEnd(s: string, k: nat): (n: nat)
    requires k <= |s|
    ensures k <= n <= |s|
    ensures forall i :: k <= i < n ==> IsSpace(s[i])
    ensures n < |s| ==> !IsSpace(s[n])
    decreases |s| - k
  {
    if k < |s| && IsSpace(s[k]) then SpaceRunEnd(s, k + 1) else k
  }

  /** The start of the run of white space that ends just before `k`. */
  function SpaceRunStart(s: string, k: nat): (n: nat)
    requires k <= |s|
    ensures n <= k
    ensures forall i :: n <= i < k ==> IsSpace(s[i])
    ensures n > 0 ==> !IsSpace(s[n - 1])
  {
    if k > 0 && IsSpace(s[k - 1]) then SpaceRunStart(s, k - 1) else k
  }

  /** Drops the leading white space. */
  function TrimStart(s: string): (r: string)
    ensures |r| <= |s| && r == s[|s| - |r|..]
    ensures r == [] || !IsSpace(r[0])
    ensures forall i :: 0 <= i < |s| - |r| ==> IsSpace(s[i])
  {
    s[SpaceRunEnd(s, 0)..]
  }

  /** Drops the trailing white space. */
  function TrimEnd(s: string): (r: string)
    ensures |r| <= |s| && r == s[..|r|]
    ensures r == [] || !IsSpace(r[|r| - 1])
    ensures forall i :: |r| <= i < |s| ==> IsSpace(s[i])
  {
    s[..SpaceRunStart(s, |s|)]
  }

  /** `String.prototype.trim`. */
  function Trim(s: string): (r: string)
    ensures Trimmed(r)
    ensures |r| <= |TrimStart(s)| <= |s|
    ensures r == s[|s| - |TrimStart(s)|..|s| - |TrimStart(s)| + |r|]
    ensures r == [] <==> forall i :: 0 <= i < |s| ==> IsSpace(s[i])
  {
    TrimEnd(TrimStart(s))
  }

  lemma {:induction false} TrimOfTrimmed(s: string)
    requires Trimmed(s)
    ensures Trim(s) == s
  {
    if s != [] {
      assert TrimStart(s) == s;
      assert TrimEnd(s) == s;
    }
  }

  /** `s.trim() || fallback`. */
  function TrimOr(s: string, fallback: string): string {
    var t := Trim(s);
    if t == [] then fallback else t
  }

  /** With a trimmed, non-empty fallback the result is trimmed and non-empty, and trimming it
      again with the same fallback changes nothing. */
  lemma TrimOrIdempotent(s: string, fallback: string)
    requires Trimmed(fallback) && fallback != []
    ensures Trimmed(TrimOr(s, fallback)) && TrimOr(s, fallback) != []
    ensures TrimOr(TrimOr(s, fallback), fallback) == TrimOr(s, fallback)
  {
    var r := TrimOr(s, fallback);
    assert Trimmed(r) && r != [];
    assert Trim(r) == r by {
      TrimOfTrimmed(r);
    }
  }

  /** A factor of a collapsed string is collapsed. */
  lemma CollapsedFactor(s: string, a: nat, b: nat)
    requires Collapsed(s) && a <= b <= |s|
    ensures Collapsed(s[a..b])
  {
    var t := s[a..b];
    forall i | 0 <= i < |t|
      ensures SpaceOk(t, i)
    {
      assert SpaceOk(s, a + i);
      assert t[i] == s[a + i];
      if i + 1 < |t| { assert t[i + 1] == s[a + i + 1]; }
    }
  }

  lemma TrimKeepsCollapsed(s: string)
    requires Collapsed(s)
    ensures Collapsed(Trim(s))
  {
    var u := TrimStart(s);
    CollapsedFactor(s, |s| - |u|, |s|);
    assert u == s[|s| - |u|..|s|];
    CollapsedFactor(u, 0, |Trim(s)|);
    assert Trim(s) == u[..|Trim(s)|];
  }

  // ---------------------------------------------------------------- white-space collapse

  /** `.replace(/\s+/g, ' ')`: every maximal run of white space becomes one plain space. */
  function Collapse(s: string): (r: string)
    ensures Collapsed(r)
    ensures r == [] <==> s == []
    ensures r != [] ==> (IsSpace(r[0]) <==> IsSpace(s[0]))
    ensures r != [] ==> (IsSpace(r[|r| - 1]) <==> IsSpace(s[|s| - 1]))
    decreases |s|
  {
    if s == [] then []
    else if IsSpace(s[0]) then
      var rest := TrimStart(s);
      assert |rest| < |s|;
      ConsCollapsed(' ', Collapse(rest));
      " " + Collapse(rest)
    else
      ConsCollapsed(s[0], Collapse(s[1..]));
      [s[0]] + Collapse(s[1..])
  }

  /** A collapsed string holds no white space other than the plain space: no tab, in particular. */
  lemma CollapsedOnlyPlainSpaces(s: string, c: char)
    requires Collapsed(s) && IsSpace(c) && c != ' '
    ensures c !in s
  {
    forall k | 0 <= k < |s|
      ensures s[k] != c
    {
      assert SpaceOk(s, k);
    }
  }

  lemma ConsCollapsed(c: char, t: string)
    requires Collapsed(t) && (IsSpace(c) ==> c == ' ' && (t != [] ==> !IsSpace(t[0])))
    ensures Collapsed([c] + t)
  {
    var r := [c] + t;
    forall i | 0 <= i < |r| ensures SpaceOk(r, i) {
      if i > 0 {
        assert SpaceOk(t, i - 1);
        assert r[i] == t[i - 1];
        if i + 1 < |r| { assert r[i + 1] == t[i]; }
      }
    }
  }

  /** The collapse introduces no character other than the plain space. */
  lemma {:induction false} CollapseChars(s: string, c: char)
    requires c in Collapse(s) && c != ' '
    ensures c in s
    decreases |s|
  {
    if IsSpace(s[0]) {
      var rest := TrimStart(s);
      assert c in Collapse(rest);
      CollapseChars(rest, c);
    } else if c != s[0] {
      assert c in Collapse(s[1..]);
      CollapseChars(s[1..], c);
    }
  }

  lemma CollapsedHead(s: string)
    requires Collapsed(s) && s != []
    ensures IsSpace(s[0]) ==> s[0] == ' ' && TrimStart(s) == s[1..]
    ensures Collapsed(s[1..])
  {
    CollapsedFactor(s, 1, |s|);
    assert s[1..|s|] == s[1..];
    assert SpaceOk(s, 0);
    if IsSpace(s[0]) {
      assert SpaceRunEnd(s, 1) == 1;
      assert SpaceRunEnd(s, 0) == 1;
      assert TrimStart(s) == s[1..];
    }
  }

  lemma {:induction false} CollapseOfCollapsed(s: string)
    requires Collapsed(s)
    ensures Collapse(s) == s
    decreases |s|
  {
    if s != [] {
      CollapsedHead(s);
      CollapseOfCollapsed(s[1..]);
      assert s == [s[0]] + s[1..];
    }
  }

  // ---------------------------------------------------------------- search and replace

  predicate OccursAt(s: string, pat: string, j: nat) {
    j + |pat| <= |s| && s[j..j + |pat|] == pat
  }

  /** `String.prototype.indexOf`: the first position where `pat` occurs. */
  function IndexOf(s: string, pat: string): (r: Option<nat>)
    ensures r.Some? ==> OccursAt(s, pat, r.value)
    ensures r.Some? ==> forall j :: 0 <= j < r.value ==> !OccursAt(s, pat, j)
    ensures r.None? ==> forall j :: 0 <= j <= |s| ==> !OccursAt(s, pat, j)
  {
    IndexFrom(s, pat, 0)
  }

  /** The first position at or after `i` where `pat` occurs. */
  function IndexFrom(s: string, pat: string, i: nat): (r: Option<nat>)
    requires i <= |s|
    ensures r.Some? ==> i <= r.value && OccursAt(s, pat, r.value)
    ensures r.Some? ==> forall j :: i <= j < r.value ==> !OccursAt(s, pat, j)
    ensures r.None? ==> forall j :: i <= j <= |s| ==> !OccursAt(s, pat, j)
    decreases |s| - i
  {
    if i + |pat| > |s| then None
    else if s[i..i + |pat|] == pat then Some(i)
    else IndexFrom(s, pat, i + 1)
  }

  /** `String.prototype.includes` with a string argument. */
  predicate Contains(s: string, pat: string) { IndexOf(s, pat).Some? }

  /** `s.replace(pat, rep)` with a string pattern: only the first occurrence is replaced. */
  function ReplaceFirst(s: string, pat: string, rep: string): (r: string)
    ensures IndexOf(s, pat).None? ==> r == s
    ensures IndexOf(s, pat).Some? ==>
      var i := IndexOf(s, pat).value; r == s[..i] + rep + s[i + |pat|..]
  {
    match IndexOf(s, pat)
    case Some(i) => s[..i] + rep + s[i + |pat|..]
    case None => s
  }

  lemma ReplaceFirstByNothing(s: string, pat: string)
    ensures forall c :: c in ReplaceFirst(s, pat, "") ==> c in s
  {
    match IndexOf(s, pat)
    case Some(i) =>
      var r := ReplaceFirst(s, pat, "");
      assert r == s[..i] + s[i + |pat|..];
      forall c | c in r ensures c in s {
        if c in s[..i] {} else { assert c in s[i + |pat|..]; }
      }
    case None =>
  }

  /** Every character is replaced: `.replace(/a/g, b)` for a single-character pattern. */
  function ReplaceChar(s: string, a: char, b: char): (r: string)
    ensures |r| == |s|
    ensures forall i :: 0 <= i < |s| ==> r[i] == if s[i] == a then b else s[i]
  {
    if s == [] then [] else [if s[0] == a then b else s[0]] + ReplaceChar(s[1..], a, b)
  }

  /** `.replace(/[=\t]/g, '')`. */
  function RemoveEqualsAndTabs(s: string): (r: string)
    ensures '=' !in r && '\t' !in r
    ensures forall c :: c in r ==> c in s
    ensures ('=' !in s && '\t' !in s) ==> r == s
  {
    if s == [] then []
    else (if s[0] == '=' || s[0] == '\t' then [] else [s[0]]) + RemoveEqualsAndTabs(s[1..])
  }

  /** `.replace(/,/g, '')`. */
  function RemoveCommas(s: string): (r: string)
    ensures ',' !in r
  {
    if s == [] then []
    else (if s[0] == ',' then [] else [s[0]]) + RemoveCommas(s[1..])
  }

  lemma {:induction false} RemoveCommasOfDigits(s: string)
    requires AllDigits(s)
    ensures RemoveCommas(s) == s
  {
    if s != [] {
      RemoveCommasOfDigits(s[1..]);
      assert s == [s[0]] + s[1..];
    }
  }

  /** Removing the commas of a comma-grouped numeral leaves its digits. */
  lemma {:induction false} RemoveCommasDigits(s: string)
    requires forall i :: 0 <= i < |s| ==> DigitOrComma(s[i])
    ensures AllDigits(RemoveCommas(s))
  {
    if s != [] {
      RemoveCommasDigits(s[1..]);
    }
  }

  lemma {:induction false} RemoveCommasAppend(a: string, b: string)
    ensures RemoveCommas(a + b) == RemoveCommas(a) + RemoveCommas(b)
  {
    if a == [] {
      assert a + b == b;
    } else {
      assert (a + b)[0] == a[0];
      assert (a + b)[1..] == a[1..] + b;
      RemoveCommasAppend(a[1..], b);
    }
  }

  // ---------------------------------------------------------------- split and join

  /** `s.split(c)[0]`: the text before the first `c`. */
  function Before(s: string, c: char): (r: string)
    ensures c !in r && |r| <= |s| && r == s[..|r|]
    ensures |r| < |s| ==> s[|r|] == c
    ensures c !in s ==> r == s
  {
    if s == [] || s[0] == c then [] else [s[0]] + Before(s[1..], c)
  }

  /** `s.split(c)` with a one-character separator. */
  function Split(s: string, c: char): (r: seq<string>)
    ensures |r| >= 1 && r[0] == Before(s, c)
    ensures forall i :: 0 <= i < |r| ==> c !in r[i]
    decreases |s|
  {
    var head := Before(s, c);
    if |head| == |s| then [s] else [head] + Split(s[|head| + 1..], c)
  }

  /** `lines.join(c)`. */
  function Join(parts: seq<string>, c: char): string {
    if parts == [] then []
    else if |parts| == 1 then parts[0]
    else parts[0] + [c] + Join(parts[1..], c)
  }

  lemma {:induction false} JoinSplit(s: string, c: char)
    ensures Join(Split(s, c), c) == s
    decreases |s|
  {
    var head := Before(s, c);
    if |head| < |s| {
      var tail := s[|head| + 1..];
      JoinSplit(tail, c);
      var rest := Split(tail, c);
      assert Split(s, c) == [head] + rest;
      JoinCons(head, rest, c);
      SliceAround(s, |head|);
    } else {
      assert Split(s, c) == [s];
    }
  }

  /** The text before the first `c` of `a + [c] + b`, when `a` has none, is `a`. */
  lemma {:induction false} BeforeFirst(a: string, c: char, b: string)
    requires c !in a
    ensures Before(a + [c] + b, c) == a
    decreases |a|
  {
    if a != [] {
      assert (a + [c] + b)[1..] == a[1..] + [c] + b;
      BeforeFirst(a[1..], c, b);
      assert a == [a[0]] + a[1..];
    }
  }

  /** Splitting a join of separator-free parts gives the parts back. */
  lemma {:induction false} SplitJoin(parts: seq<string>, c: char)
    requires parts != [] && forall i :: 0 <= i < |parts| ==> c !in parts[i]
    ensures Split(Join(parts, c), c) == parts
    decreases |parts|
  {
    if |parts| > 1 {
      var rest := parts[1..];
      var s := Join(parts, c);
      assert s == parts[0] + [c] + Join(rest, c);
      BeforeFirst(parts[0], c, Join(rest, c));
      assert s[|parts[0]| + 1..] == Join(rest, c);
      SplitJoin(rest, c);
      assert parts == [parts[0]] + rest;
    }
  }

  /** A part holding the separator joins like the two parts on either side of it. */
  lemma {:induction false} JoinBreaksPart(pre: seq<string>, x: string, y: string, post: seq<string>, c: char)
    ensures Join(pre + [x + [c] + y] + post, c) == Join(pre + [x, y] + post, c)
    decreases |pre|
  {
    if pre == [] {
      if post == [] {
        assert [x, y][1..] == [y];
      } else {
        JoinCons(x + [c] + y, post, c);
        JoinCons(x, [y] + post, c);
        JoinCons(y, post, c);
        assert [x, y] + post == [x] + ([y] + post);
      }
      assert pre + [x + [c] + y] + post == [x + [c] + y] + post;
      assert pre + [x, y] + post == [x, y] + post;
    } else {
      JoinBreaksPart(pre[1..], x, y, post, c);
      assert pre + [x + [c] + y] + post == [pre[0]] + (pre[1..] + [x + [c] + y] + post);
      assert pre + [x, y] + post == [pre[0]] + (pre[1..] + [x, y] + post);
      JoinCons(pre[0], pre[1..] + [x + [c] + y] + post, c);
      JoinCons(pre[0], pre[1..] + [x, y] + post, c);
    }
  }

  /** A part that starts with the separator reads as an empty part before the rest. */
  lemma JoinBreaksLeading(pre: seq<string>, line: string, y: string, post: seq<string>, c: char)
    requires line == [c] + y
    ensures Join(pre + [line] + post, c) == Join(pre + ["", y] + post, c)
  {
    assert [] + [c] + y == line;
    JoinBreaksPart(pre, [], y, post, c);
  }

  /** A sequence is what comes before index `k`, the element at `k`, and what follows. */
  lemma SliceAround<T>(s: seq<T>, k: nat)
    requires k < |s|
    ensures s == s[..k] + [s[k]] + s[k + 1..]
  {
  }

  lemma JoinCons(head: string, rest: seq<string>, c: char)
    requires rest != []
    ensures Join([head] + rest, c) == head + [c] + Join(rest, c)
  {
    assert ([head] + rest)[1..] == rest;
  }

  // ---------------------------------------------------------------- decimal numerals

  function DigitValue(c: char): nat
    requires IsDigit(c)
  {
    c as int - '0' as int
  }

  function DigitChar(d: nat): (c: char)
    requires d < 10
    ensures IsDigit(c) && DigitValue(c) == d
  {
    ('0' as int + d) as char
  }

  lemma AllDigitsAppend(a: string, b: string)
    requires AllDigits(a) && AllDigits(b)
    ensures AllDigits(a + b)
  {
    forall i | 0 <= i < |a + b|
      ensures IsDigit((a + b)[i])
    {
      if i < |a| {
        assert (a + b)[i] == a[i];
      } else {
        assert (a + b)[i] == b[i - |a|];
      }
    }
  }

  /** The value of a decimal numeral (`parseInt`/`parseFloat` of a digit string). */
  function NumberValue(s: string): nat
    requires AllDigits(s)
  {
    if s == [] then 0 else NumberValue(s[..|s| - 1]) * 10 + DigitValue(s[|s| - 1])
  }

  /** `n.toString()` for a natural number. */
  function NatToString(n: nat): (r: string)
    ensures AllDigits(r) && |r| >= 1
    ensures n >= 10 ==> r[0] != '0'
  {
    if n < 10 then [DigitChar(n)] else NatToString(n / 10) + [DigitChar(n % 10)]
  }

  lemma {:induction false} NatToStringValue(n: nat)
    ensures NumberValue(NatToString(n)) == n
  {
    if n >= 10 {
      NatToStringValue(n / 10);
      var s := NatToString(n);
      assert s[..|s| - 1] == NatToString(n / 10);
    }
  }

  function Pow10(k: nat): (r: nat)
    ensures r >= 1
  {
    if k == 0 then 1 else 10 * Pow10(k - 1)
  }

  /** Positional notation: the digits of `b` are the low `|b|` places of `a + b`. */
  lemma {:induction false} NumberValueAppend(a: string, b: string)
    requires AllDigits(a) && AllDigits(b)
    ensures AllDigits(a + b)
    ensures NumberValue(a + b) == NumberValue(a) * Pow10(|b|) + NumberValue(b)
    decreases |b|
  {
    AllDigitsAppend(a, b);
    if b == [] {
      assert a + b == a;
    } else {
      var front := b[..|b| - 1];
      var d := DigitValue(b[|b| - 1]);
      assert (a + b)[..|a + b| - 1] == a + front;
      assert (a + b)[|a + b| - 1] == b[|b| - 1];
      NumberValueAppend(a, front);
      var x, p, y := NumberValue(a), Pow10(|front|), NumberValue(front);
      assert NumberValue(a + b) == NumberValue(a + front) * 10 + d;
      assert NumberValue(b) == y * 10 + d;
      assert Pow10(|b|) == 10 * p;
      ShiftPlace(x, p, y, d);
    }
  }

  lemma ShiftPlace(x: int, p: int, y: int, d: int)
    ensures (x * p + y) * 10 + d == x * (10 * p) + (y * 10 + d)
  {
  }

  lemma {:induction false} NumberValueBound(s: string)
    requires AllDigits(s)
    ensures NumberValue(s) < Pow10(|s|)
    decreases |s|
  {
    if s != [] {
      NumberValueBound(s[..|s| - 1]);
    }
  }

  /** Numerals of the same length with the same value are the same numeral. */
  lemma {:induction false} NumberValueInjective(a: string, b: string)
    requires AllDigits(a) && AllDigits(b) && |a| == |b|
    requires NumberValue(a) == NumberValue(b)
    ensures a == b
    decreases |a|
  {
    if a != [] {
      var fa, fb := a[..|a| - 1], b[..|b| - 1];
      var da, db := DigitValue(a[|a| - 1]), DigitValue(b[|b| - 1]);
      assert NumberValue(a) == NumberValue(fa) * 10 + da;
      assert NumberValue(b) == NumberValue(fb) * 10 + db;
      assert da == db && NumberValue(fa) == NumberValue(fb);
      NumberValueInjective(fa, fb);
      assert a == fa + [a[|a| - 1]] && b == fb + [b[|b| - 1]];
    }
  }

  lemma {:induction false} ZerosValue(k: nat)
    ensures AllDigits(seq(k, _ => '0')) && NumberValue(seq(k, _ => '0')) == 0
  {
    if k > 0 {
      ZerosValue(k - 1);
      assert seq(k, _ => '0')[..k - 1] == seq(k - 1, _ => '0');
    }
  }

  /** Leading zeros do not change a numeral's value. */
  lemma PadZerosValue(s: string, n: nat)
    requires AllDigits(s)
    ensures AllDigits(PadStart(s, n, '0')) && NumberValue(PadStart(s, n, '0')) == NumberValue(s)
  {
    if |s| < n {
      ZerosValue(n - |s|);
      NumberValueAppend(seq(n - |s|, _ => '0'), s);
    }
  }

  lemma {:induction false} NatToStringLength(n: nat, k: nat)
    requires k >= 1 && n < Pow10(k)
    ensures |NatToString(n)| <= k
    decreases k
  {
    if n >= 10 {
      NatToStringLength(n / 10, k - 1);
    }
  }

  /** `n.toString().padStart(2, '0')` for `n < 100`: two digits reading back as `n`. */
  lemma TwoDigits(n: nat)
    requires n < 100
    ensures var r := Pad2(NatToString(n)); |r| == 2 && AllDigits(r) && NumberValue(r) == n
  {
    NatToStringLength(n, 2);
    NatToStringValue(n);
    PadZerosValue(NatToString(n), 2);
  }

  /** `String.prototype.padStart(n, c)`. */
  function PadStart(s: string, n: nat, c: char): (r: string)
    ensures |r| == if |s| >= n then |s| else n
    ensures r[|r| - |s|..] == s
    ensures forall i :: 0 <= i < |r| - |s| ==> r[i] == c
  {
    if |s| >= n then s else seq(n - |s|, _ => c) + s
  }

  /** `padStart(2, '0')`. */
  function Pad2(s: string): string { PadStart(s, 2, '0') }

  /** A natural number with thousands separated by commas, as `toLocaleString()`
      prints it under a locale that groups by commas. */
  function Grouped(n: nat): (r: string)
    ensures |r| >= 1 && IsDigit(r[0])
    ensures forall i :: 0 <= i < |r| ==> DigitOrComma(r[i])
  {
    if n < 1000 then NatToString(n)
    else Grouped(n / 1000) + "," + PadStart(NatToString(n % 1000), 3, '0')
  }

  // ---------------------------------------------------------------- prefixes and order

  predicate StartsWith(s: string, p: string) { |p| <= |s| && s[..|p|] == p }

  /** Code-point lexicographic order on strings. */
  predicate LexLe(a: string, b: string)
    decreases |a|
  {
    a == [] || (b != [] && (a[0] < b[0] || (a[0] == b[0] && LexLe(a[1..], b[1..]))))
  }

  lemma {:induction false} LexLeTotal(a: string, b: string)
    ensures LexLe(a, b) || LexLe(b, a)
    decreases |a|
  {
    if a != [] && b != [] && a[0] == b[0] { LexLeTotal(a[1..], b[1..]); }
  }

  lemma {:induction false} LexLeTransitive(a: string, b: string, c: string)
    requires LexLe(a, b) && LexLe(b, c)
    ensures LexLe(a, c)
    decreases |a|
  {
    if a != [] && a[0] == b[0] && b[0] == c[0] { LexLeTransitive(a[1..], b[1..], c[1..]); }
  }

  lemma {:induction false} LexLeAntisymmetric(a: string, b: string)
    requires LexLe(a, b) && LexLe(b, a)
    ensures a == b
    decreases |a|
  {
    if a != [] {
      LexLeAntisymmetric(a[1..], b[1..]);
      assert a == [a[0]] + a[1..] && b == [b[0]] + b[1..];
    }
  }
}
