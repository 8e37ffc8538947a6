/**
 * Calendar dates as Python's `datetime.date` holds them, and their text form
 * YYYY-MM-DD: the ISO 8601 complete extended calendar date (section 4.1.2.2
 * of ISO 8601:2004), which `date.isoformat()` writes, `date.fromisoformat()`
 * reads and `strftime("%Y-%m-%d")` writes for four-digit years.
 */
module Dates {
  import opened Util
  import opened Text
  import StringOrder

  datatype Date = Date(year: int, month: int, day: int)

  predicate IsLeapYear(y: int)
  {
    y % 4 == 0 && (y % 100 != 0 || y % 400 == 0)
  }

  function DaysInMonth(y: int, m: int): (n: int)
    requires 1 <= m <= 12
    ensures 28 <= n <= 31
  {
    if m == 2 then (if IsLeapYear(y) then 29 else 28)
    else if m == 4 || m == 6 || m == 9 || m == 11 then 30
    else 31
  }

  /** The dates `datetime.date` can hold (years 1 to 9999, proleptic Gregorian). */
  predicate Valid(d: Date)
  {
    1 <= d.year <= 9999 && 1 <= d.month <= 12 && 1 <= d.day <= DaysInMonth(d.year, d.month)
  }

  /** `d1 < d2` on `datetime.date`. */
  predicate Before(d1: Date, d2: Date)
  {
    d1.year < d2.year
    || (d1.year == d2.year && d1.month < d2.month)
    || (d1.year == d2.year && d1.month == d2.month && d1.day < d2.day)
  }

  function Pad2(n: nat): (s: string)
    requires n < 100
    ensures |s| == 2 && AllDigits(s)
  {
    [DigitChar(n / 10), DigitChar(n % 10)]
  }

  function Pad4(n: nat): (s: string)
    requires n < 10000
    ensures |s| == 4 && AllDigits(s)
  {
    Pad2(n / 100) + Pad2(n % 100)
  }

  /** `date.isoformat()`. */
  function IsoFormat(d: Date): (s: string)
    requires Valid(d)
  {
    Pad4(d.year) + "-" + Pad2(d.month) + "-" + Pad2(d.day)
  }

  /** `date.fromisoformat(s)` for the YYYY-MM-DD form; None where Python raises ValueError. */
  function ParseIso(s: string): Option<Date>
  {
    if |s| == 10 && s[4] == '-' && s[7] == '-'
       && AllDigits(s[..4]) && AllDigits(s[5..7]) && AllDigits(s[8..])
    then
      var d := Date(ParseNat(s[..4]), ParseNat(s[5..7]), ParseNat(s[8..]));
      if Valid(d) then Some(d) else None
    else None
  }

  lemma ParseNatPad2(n: nat)
    requires n < 100
    ensures ParseNat(Pad2(n)) == n
  {
    var s := Pad2(n);
    assert s[..1] == [DigitChar(n / 10)];
    assert ParseNat(s[..1]) == n / 10 by {
      assert s[..1][..0] == [];
    }
  }

  lemma ParseNatPad4(n: nat)
    requires n < 10000
    ensures ParseNat(Pad4(n)) == n
  {
    ParseNatAppend(Pad2(n / 100), Pad2(n % 100));
    ParseNatPad2(n / 100);
    ParseNatPad2(n % 100);
    assert Pow10(2) == 100;
  }

  lemma Pad2ParseNat(s: string)
    requires |s| == 2 && AllDigits(s)
    ensures ParseNat(s) < 100 && Pad2(ParseNat(s)) == s
  {
    assert s[..1][..0] == [] && s[..1][0] == s[0];
    var n := ParseNat(s);
    assert ParseNat(s[..1]) == DigitValue(s[0]);
    assert n == 10 * DigitValue(s[0]) + DigitValue(s[1]);
    assert n / 10 == DigitValue(s[0]) && n % 10 == DigitValue(s[1]);
  }

  lemma Pad4ParseNat(s: string)
    requires |s| == 4 && AllDigits(s)
    ensures ParseNat(s) < 10000 && Pad4(ParseNat(s)) == s
  {
    assert s == s[..2] + s[2..];
    ParseNatAppend(s[..2], s[2..]);
    Pad2ParseNat(s[..2]);
    Pad2ParseNat(s[2..]);
    assert Pow10(2) == 100;
    var n := ParseNat(s);
    assert n == 100 * ParseNat(s[..2]) + ParseNat(s[2..]);
    assert n / 100 == ParseNat(s[..2]) && n % 100 == ParseNat(s[2..]);
  }

  /** Formatting a valid date and reading it back gives the same date. */
  lemma ParseIsoFormat(d: Date)
    requires Valid(d)
    ensures ParseIso(IsoFormat(d)) == Some(d)
  {
    var s := IsoFormat(d);
    assert s[..4] == Pad4(d.year);
    assert s[5..7] == Pad2(d.month);
    assert s[8..] == Pad2(d.day);
    ParseNatPad4(d.year);
    ParseNatPad2(d.month);
    ParseNatPad2(d.day);
  }

  /** Any text `fromisoformat` accepts is exactly the `isoformat` of what it read. */
  lemma FormatParseIso(s: string)
    requires ParseIso(s).Some?
    ensures Valid(ParseIso(s).value) && IsoFormat(ParseIso(s).value) == s
  {
    var d := ParseIso(s).value;
    Pad4ParseNat(s[..4]);
    Pad2ParseNat(s[5..7]);
    Pad2ParseNat(s[8..]);
    assert s == s[..4] + "-" + s[5..7] + "-" + s[8..];
  }

  /** For strings of equal length the first difference decides the order. */
  lemma {:induction false} LessAppendSameLength(a: string, b: string, c: string, e: string)
    requires |a| == |b|
    ensures StringOrder.Less(a + c, b + e) <==> StringOrder.Less(a, b) || (a == b && StringOrder.Less(c, e))
  {
    if |a| > 0 {
      assert (a + c)[1..] == a[1..] + c && (b + e)[1..] == b[1..] + e;
      LessAppendSameLength(a[1..], b[1..], c, e);
      if a[0] == b[0] {
        assert a == [a[0]] + a[1..] && b == [b[0]] + b[1..];
      }
    } else {
      assert a + c == c && b + e == e;
    }
  }

  lemma Pad2Order(m: nat, n: nat)
    requires m < 100 && n < 100
    ensures StringOrder.Less(Pad2(m), Pad2(n)) <==> m < n
  {
    var x, y := Pad2(m), Pad2(n);
    assert x == [x[0]] + [x[1]] && y == [y[0]] + [y[1]];
    LessAppendSameLength([x[0]], [y[0]], [x[1]], [y[1]]);
    assert StringOrder.Less([x[0]], [y[0]]) <==> x[0] < y[0] by {
      assert [x[0]][1..] == [] && [y[0]][1..] == [];
    }
    assert StringOrder.Less([x[1]], [y[1]]) <==> x[1] < y[1] by {
      assert [x[1]][1..] == [] && [y[1]][1..] == [];
    }
  }

  lemma Pad4Order(m: nat, n: nat)
    requires m < 10000 && n < 10000
    ensures StringOrder.Less(Pad4(m), Pad4(n)) <==> m < n
  {
    LessAppendSameLength(Pad2(m / 100), Pad2(n / 100), Pad2(m % 100), Pad2(n % 100));
    Pad2Order(m / 100, n / 100);
    Pad2Order(m % 100, n % 100);
    if Pad2(m / 100) == Pad2(n / 100) {
      ParseNatPad2(m / 100);
      ParseNatPad2(n / 100);
    }
  }

  /**
   * Comparing ISO date strings as Python strings gives the chronological
   * order, so a list sorted by ISO text is sorted by date.
   */
  lemma IsoOrderIsChronological(d1: Date, d2: Date)
    requires Valid(d1) && Valid(d2)
    ensures StringOrder.Less(IsoFormat(d1), IsoFormat(d2)) <==> Before(d1, d2)
  {
    var y1, y2 := Pad4(d1.year), Pad4(d2.year);
    var m1, m2 := Pad2(d1.month), Pad2(d2.month);
    var a1, a2 := Pad2(d1.day), Pad2(d2.day);
    assert IsoFormat(d1) == y1 + ("-" + m1 + "-" + a1);
    assert IsoFormat(d2) == y2 + ("-" + m2 + "-" + a2);
    LessAppendSameLength(y1, y2, "-" + m1 + "-" + a1, "-" + m2 + "-" + a2);
    Pad4Order(d1.year, d2.year);
    if y1 == y2 {
      ParseNatPad4(d1.year);
      ParseNatPad4(d2.year);
      assert "-" + m1 + "-" + a1 == "-" + (m1 + ("-" + a1));
      assert "-" + m2 + "-" + a2 == "-" + (m2 + ("-" + a2));
      LessAppendSameLength("-", "-", m1 + ("-" + a1), m2 + ("-" + a2));
      StringOrder.LessIrreflexive("-");
      LessAppendSameLength(m1, m2, "-" + a1, "-" + a2);
      Pad2Order(d1.month, d2.month);
      if m1 == m2 {
        ParseNatPad2(d1.month);
        ParseNatPad2(d2.month);
        LessAppendSameLength("-", "-", a1, a2);
        Pad2Order(d1.day, d2.day);
      }
    }
  }
}
