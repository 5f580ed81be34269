/** `YYYY-MM-DD` strings, as both the todo store and the yearly tracker build
    them: the year's decimal digits, then month and day padded to two digits. */
module DateFormat {
  import opened Text

  /** `String(n).padStart(2, "0")` */
  function Pad2(n: nat): string
  {
    PadStart(NatToString(n), 2, '0')
  }

  /** `${year}-${pad(month)}-${pad(day)}` */
  function DateString(year: nat, month: nat, day: nat): string
  {
    NatToString(year) + "-" + Pad2(month) + "-" + Pad2(day)
  }

  /** A number below 100 is padded to exactly its two decimal digits. */
  lemma Pad2Digits(n: nat)
    requires n < 100
    ensures Pad2(n) == [DigitChar(n / 10), DigitChar(n % 10)]
  {
    if n >= 10 {
      assert NatToString(n / 10) == [DigitChar(n / 10)];
    }
  }

  /** A two-digit field reads back as its number. */
  lemma Pad2RoundTrip(n: nat)
    requires n < 100
    ensures |Pad2(n)| == 2 && AllDigits(Pad2(n)) && DecimalValue(Pad2(n)) == n
  {
    Pad2Digits(n);
    PaddedRoundTrip(n, 2);
  }

  /** A date string is the year's digits, a dash, the two-digit month, a dash
      and the two-digit day; with Pad2RoundTrip its fields read back as the
      year, month and day it was built from. */
  lemma DateStringFields(year: nat, month: nat, day: nat)
    requires month < 100 && day < 100
    ensures var s, y := DateString(year, month, day), |NatToString(year)|;
      && |s| == y + 6
      && s[..y] == NatToString(year)
      && s[y] == '-' && s[y + 3] == '-'
      && s[y + 1..y + 3] == Pad2(month)
      && s[y + 4..] == Pad2(day)
  {
    var Y, M, D := NatToString(year), Pad2(month), Pad2(day);
    var s, y := DateString(year, month, day), |Y|;
    Pad2Digits(month);
    Pad2Digits(day);
    assert s == Y + ['-'] + M + ['-'] + D;
    assert |s| == y + 6;
    assert s[..y] == Y;
    assert s[y] == '-' && s[y + 3] == '-';
    assert s[y + 1..y + 3] == M;
    assert s[y + 4..] == D;
  }

  /** Comparing two-digit padded numbers as text compares the numbers. */
  lemma Pad2Less(x: nat, y: nat, s: string, t: string)
    requires x < 100 && y < 100
    ensures Less(Pad2(x) + s, Pad2(y) + t) == (x < y || (x == y && Less(s, t)))
  {
    Pad2Digits(x);
    Pad2Digits(y);
    var a, b := Pad2(x) + s, Pad2(y) + t;
    assert a[0] == DigitChar(x / 10) && b[0] == DigitChar(y / 10);
    assert a[1..][0] == DigitChar(x % 10) && b[1..][0] == DigitChar(y % 10);
    assert a[1..][1..] == s && b[1..][1..] == t;
  }

  /** The dash-and-day tail of two dates compares as the days. */
  lemma DayTailOrder(d1: nat, d2: nat)
    requires d1 < 100 && d2 < 100
    ensures Less("-" + Pad2(d1), "-" + Pad2(d2)) == (d1 < d2)
  {
    LessCommonPrefix("-", Pad2(d1), Pad2(d2));
    assert Pad2(d1) + [] == Pad2(d1) && Pad2(d2) + [] == Pad2(d2);
    Pad2Less(d1, d2, [], []);
  }

  /** Within one year, text order of date strings is calendar order: this is
      why the stores may sort and compare dates as strings. */
  lemma DateOrder(year: nat, m1: nat, d1: nat, m2: nat, d2: nat)
    requires m1 < 100 && d1 < 100 && m2 < 100 && d2 < 100
    ensures Less(DateString(year, m1, d1), DateString(year, m2, d2)) ==
            (m1 < m2 || (m1 == m2 && d1 < d2))
  {
    var p := NatToString(year) + "-";
    var t1, t2 := "-" + Pad2(d1), "-" + Pad2(d2);
    var x1, x2 := Pad2(m1) + t1, Pad2(m2) + t2;
    assert DateString(year, m1, d1) == p + x1;
    assert DateString(year, m2, d2) == p + x2;
    LessCommonPrefix(p, x1, x2);
    Pad2Less(m1, m2, t1, t2);
    DayTailOrder(d1, d2);
  }
}
