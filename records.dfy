/** The transaction record of `src/types.ts` and the label used when a store is missing. */
module Records {
  /** `'income' | 'expense'`. */
  datatype TxType = Income | Expense

  /** `Omit<Transaction, 'id'>`: a record before an identity is attached. The source's
      field `type` is called `kind` here, `type` being a Dafny keyword. */
  datatype Draft = Draft(date: string, store: string, amount: int, kind: TxType)

  /** `Transaction`: a record with its identity. */
  datatype Transaction = Transaction(id: string, date: string, store: string, amount: int, kind: TxType)

  /** The store label `未指定` ("unspecified") that replaces an empty store. */
  const Unspecified: string := "未指定"

  function Abs(a: int): nat { if a < 0 then -a else a }
}

/**
 * The two hundred-truncation policies of the application. `MagnitudeHundreds` truncates
 * the magnitude (`Math.floor(Math.abs(a) / 100) * 100`); `FloorHundred` floors the signed
 * value (`Math.floor(a / 100) * 100`). Dafny's `/` on `int` with a positive divisor is floor
 * division, so it agrees with `Math.floor(a / 100)` on every integer `a`.
 */
module Rounding {
  import opened Records

  function MagnitudeHundreds(a: int): (r: nat)
    ensures r % 100 == 0
    ensures r <= Abs(a) < r + 100
  {
    (Abs(a) / 100) * 100
  }

  function FloorHundred(a: int): (r: int)
    ensures r % 100 == 0
    ensures r <= a < r + 100
  {
    (a / 100) * 100
  }

  /** The signed floor is the largest multiple of 100 not above its argument. */
  lemma FloorHundredIsGreatest(a: int, m: int)
    requires m % 100 == 0 && m <= a
    ensures m <= FloorHundred(a)
  {
  }

  /** The signed floor keeps the sign: it is non-negative exactly when its argument is. */
  lemma FloorHundredSign(a: int)
    ensures FloorHundred(a) >= 0 <==> a >= 0
  {
    if a >= 0 {
      assert a / 100 >= 0;
    }
  }

  lemma FloorHundredIdempotent(a: int)
    ensures FloorHundred(FloorHundred(a)) == FloorHundred(a)
  {
    FloorHundredOfMultiple(FloorHundred(a));
  }

  lemma FloorHundredOfMultiple(a: int)
    requires a % 100 == 0
    ensures FloorHundred(a) == a
  {
    FloorHundredIsGreatest(a, a);
  }

  /** Where the two policies agree and where they part: they agree on non-negative values and
      on multiples of 100 (up to sign); a negative non-multiple is moved away from zero by the
      signed floor (-150 becomes -200) and towards zero by the magnitude policy (-100). */
  lemma PoliciesCompared(a: int)
    ensures a >= 0 ==> FloorHundred(a) == MagnitudeHundreds(a)
    ensures a < 0 && a % 100 == 0 ==> FloorHundred(a) == -(MagnitudeHundreds(a) as int) == a
    ensures a < 0 && a % 100 != 0 ==> FloorHundred(a) == -(MagnitudeHundreds(a) as int) - 100 < a
  {
    var m := MagnitudeHundreds(a);
    if a >= 0 {
      FloorHundredIsGreatest(a, m);
    } else if a % 100 == 0 {
      FloorHundredOfMultiple(a);
      assert (-a) % 100 == 0;
    } else {
      var r := FloorHundred(a);
      assert m < -a < m + 100 by {
        assert m != -a;
      }
      FloorHundredIsGreatest(a, -m - 100);
      assert r < -m;
      assert (-m - r) % 100 == 0;
    }
  }
}

/** Gregorian calendar facts shared by the date check of the importer and the chart's day list. */
module Calendar {
  import opened Text

  predicate IsLeapYear(y: int) { y % 4 == 0 && (y % 100 != 0 || y % 400 == 0) }

  function DaysInMonth(y: int, m: int): (r: nat)
    requires 1 <= m <= 12
    ensures 28 <= r <= 31
    ensures m == 2 ==> (r == 29 <==> IsLeapYear(y))
  {
    if m == 2 then (if IsLeapYear(y) then 29 else 28)
    else if m == 4 || m == 6 || m == 9 || m == 11 then 30
    else 31
  }

  /** `^\d{4}-\d{2}-\d{2}$`. */
  predicate IsoShaped(s: string) {
    |s| == 10 && AllDigits(s[..4]) && s[4] == '-' && AllDigits(s[5..7]) && s[7] == '-' && AllDigits(s[8..])
  }

  function YearOf(s: string): nat requires IsoShaped(s) { NumberValue(s[..4]) }
  function MonthOf(s: string): nat requires IsoShaped(s) { NumberValue(s[5..7]) }
  function DayOf(s: string): nat requires IsoShaped(s) { NumberValue(s[8..]) }

  /** A real calendar day in the proleptic Gregorian calendar (ISO 8601 calendar date). */
  predicate IsCalendarDate(s: string) {
    IsoShaped(s) && 1 <= MonthOf(s) <= 12 && 1 <= DayOf(s) <= DaysInMonth(YearOf(s), MonthOf(s))
  }
}
