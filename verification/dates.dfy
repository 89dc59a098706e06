/** Calendar dates. The application stores every date as the `YYYY-MM-DD`
    text that `toISOString().split('T')[0]` yields and reads it back with
    `new Date(text)`; here a date is the parsed triple, and the text form is
    produced by `FormatIso` and read back by `ParseIso`. */
module Dates {
  import opened Strings
  import opened Optional

  /** A calendar date; `month` counts from 1, as in the text form. */
  datatype Date = Date(year: nat, month: nat, day: nat)

  /** The dates the text form can carry. */
  predicate Valid(d: Date)
  {
    d.year <= 9999 && 1 <= d.month <= 12 && 1 <= d.day <= 31
  }

  /** `getMonth()` of the date: months counted from 0. */
  function JsMonth(d: Date): int
  {
    d.month - 1
  }

  /** `n` written with at least `width` digits (`padStart(width, '0')`). */
  function Padded(n: nat, width: nat): string
  {
    PadStart(Decimal(n), width, '0')
  }

  /** Padding keeps the value, and a number below `10^width` fills exactly
      `width` digits. */
  lemma {:induction false} PaddedValue(n: nat, width: nat)
    ensures AllDigits(Padded(n, width)) && DigitsValue(Padded(n, width)) == n
    ensures n < Pow10(width) && width >= 1 ==> |Padded(n, width)| == width
  {
    LeadingZeros(Decimal(n), width);
    if n < Pow10(width) && width >= 1 {
      DecimalLength(n, width);
    }
  }

  /** A number below `10^k` needs at most `k` digits. */
  lemma {:induction false} DecimalLength(n: nat, k: nat)
    requires k >= 1 && n < Pow10(k)
    ensures |Decimal(n)| <= k
    decreases n
  {
    if n >= 10 {
      assert k >= 2;
      DecimalLength(n / 10, k - 1);
    }
  }

  /** The `YYYY-MM-DD` text of a date. */
  function FormatIso(d: Date): (r: string)
    ensures Valid(d) ==> |r| == 10 && r[4] == '-' && r[7] == '-'
  {
    var y, m, dd := Padded(d.year, 4), Padded(d.month, 2), Padded(d.day, 2);
    if Valid(d) then
      PaddedWidths(d);
      DashesAt(y, m, dd);
      y + "-" + m + "-" + dd
    else
      y + "-" + m + "-" + dd
  }

  /** Where the dashes of `YYYY-MM-DD` text fall. */
  lemma {:induction false} DashesAt(y: string, m: string, dd: string)
    requires |y| == 4 && |m| == 2 && |dd| == 2
    ensures var s := y + "-" + m + "-" + dd;
      |s| == 10 && s[4] == '-' && s[7] == '-'
  {
  }

  /** The parts of a valid date fill their widths exactly. */
  lemma {:induction false} PaddedWidths(d: Date)
    requires Valid(d)
    ensures |Padded(d.year, 4)| == 4 && |Padded(d.month, 2)| == 2 && |Padded(d.day, 2)| == 2
  {
    assert Pow10(2) == 100 && Pow10(4) == 10000;
    PaddedValue(d.year, 4);
    PaddedValue(d.month, 2);
    PaddedValue(d.day, 2);
  }

  /** Reads `YYYY-MM-DD` text; anything else is not a date. */
  function ParseIso(s: string): (r: Option<Date>)
    ensures r.Some? ==> |s| == 10 && s[4] == '-' && s[7] == '-'
  {
    if |s| == 10 && s[4] == '-' && s[7] == '-'
       && AllDigits(s[..4]) && AllDigits(s[5..7]) && AllDigits(s[8..])
    then Some(Date(DigitsValue(s[..4]), DigitsValue(s[5..7]), DigitsValue(s[8..])))
    else None
  }

  /** Reading back the text of a date gives the date. */
  lemma {:induction false} ParseFormat(d: Date)
    requires Valid(d)
    ensures ParseIso(FormatIso(d)) == Some(d)
  {
    var y, m, dd := Padded(d.year, 4), Padded(d.month, 2), Padded(d.day, 2);
    PaddedWidths(d);
    PaddedValue(d.year, 4);
    PaddedValue(d.month, 2);
    PaddedValue(d.day, 2);
    ParseParts(y, m, dd);
    assert FormatIso(d) == y + "-" + m + "-" + dd;
  }

  /** Text of the `YYYY-MM-DD` shape is read part by part. */
  lemma {:induction false} ParseParts(y: string, m: string, dd: string)
    requires |y| == 4 && |m| == 2 && |dd| == 2
    requires AllDigits(y) && AllDigits(m) && AllDigits(dd)
    ensures ParseIso(y + "-" + m + "-" + dd) == Some(Date(DigitsValue(y), DigitsValue(m), DigitsValue(dd)))
  {
    var s := y + "-" + m + "-" + dd;
    assert s[..4] == y;
    assert s[5..7] == m;
    assert s[8..] == dd;
  }

  /** Two valid dates with the same text are the same date. */
  lemma {:induction false} FormatInjective(a: Date, b: Date)
    requires Valid(a) && Valid(b) && FormatIso(a) == FormatIso(b)
    ensures a == b
  {
    ParseFormat(a);
    ParseFormat(b);
  }

  /** Chronological order: negative, zero or positive as `a` is before, on or
      after `b` (the sign of `a.getTime() - b.getTime()`). */
  function Compare(a: Date, b: Date): (c: int)
    ensures -1 <= c <= 1
    ensures c == 0 <==> a == b
  {
    if a.year != b.year then (if a.year < b.year then -1 else 1)
    else if a.month != b.month then (if a.month < b.month then -1 else 1)
    else if a.day != b.day then (if a.day < b.day then -1 else 1)
    else 0
  }

  /** Swapping the operands of `Compare` negates it. */
  lemma {:induction false} CompareAntisymmetric(a: Date, b: Date)
    ensures Compare(a, b) == -Compare(b, a)
  {
  }
}
