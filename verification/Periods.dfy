/** Billing periods.  A period is a UTC calendar month; the code carries it as the
    string "YYYY-MM" and compares periods as strings.  Here a period is a month
    index (12 * year + month - 1), and FormatOrder shows that the two orders agree. */
module Periods {
  import opened Digits
  import opened Wrappers

  type Month = int

  /** PeriodRange never returns more periods than this. */
  const MAX_PERIOD_RANGE := 240

  /** The zero-padded "YYYY-MM" of a month in years 0000 to 9999. */
  function Format(m: Month): string
    requires 0 <= m < 120000
  {
    var y, mo := m / 12, m % 12 + 1;
    [Digit(y / 1000), Digit(y / 100 % 10), Digit(y / 10 % 10), Digit(y % 10), '-', Digit(mo / 10), Digit(mo % 10)]
  }

  /** Go's < on strings: the first differing byte decides, and a proper prefix is less. */
  predicate StringLess(a: string, b: string) {
    if b == "" then false
    else if a == "" then true
    else a[0] < b[0] || (a[0] == b[0] && StringLess(a[1..], b[1..]))
  }

  /** A common prefix does not decide. */
  lemma {:induction false} LessSkips(p: string, a: string, b: string)
    ensures StringLess(p + a, p + b) <==> StringLess(a, b)
  {
    if p == "" {
      assert p + a == a && p + b == b;
    } else {
      assert (p + a)[1..] == p[1..] + a && (p + b)[1..] == p[1..] + b;
      LessSkips(p[1..], a, b);
    }
  }

  /** Strings that differ first at index i compare by the characters there. */
  lemma LessAt(a: string, b: string, i: nat)
    requires i < |a| && i < |b| && a[..i] == b[..i] && a[i] != b[i]
    ensures StringLess(a, b) <==> a[i] < b[i]
  {
    assert a == a[..i] + a[i..] && b == a[..i] + b[i..];
    LessSkips(a[..i], a[i..], b[i..]);
  }

  lemma DigitOrder(a: int, b: int)
    requires 0 <= a < 10 && 0 <= b < 10
    ensures Digit(a) < Digit(b) <==> a < b
    ensures Digit(a) == Digit(b) <==> a == b
    ensures Digit(a) != '-'
  {
  }

  /** A year's four decimal digits spell it. */
  lemma YearDigits(y: int)
    requires 0 <= y < 10000
    ensures y == 1000 * (y / 1000) + 100 * (y / 100 % 10) + 10 * (y / 10 % 10) + y % 10
    ensures 0 <= y / 1000 < 10
  {
    assert y / 100 / 10 == y / 1000 && y / 10 / 10 == y / 100;
  }

  /** Equal-length strings whose characters spell digits are ordered by the first
      differing digit. */
  lemma DigitsLess(s: string, t: string, i: nat, a: int, b: int)
    requires i < |s| && i < |t| && s[..i] == t[..i]
    requires 0 <= a < b < 10 && s[i] == Digit(a) && t[i] == Digit(b)
    ensures StringLess(s, t)
  {
    DigitOrder(a, b);
    LessAt(s, t, i);
  }

  lemma SmallerFormatsLess(a: Month, b: Month)
    requires 0 <= a < b < 120000
    ensures StringLess(Format(a), Format(b))
  {
    var s, t := Format(a), Format(b);
    var ya, ma, yb, mb := a / 12, a % 12 + 1, b / 12, b % 12 + 1;
    assert ya < yb || (ya == yb && ma < mb);
    YearDigits(ya);
    YearDigits(yb);
    if ya < yb {
      EarlierYearFormatsLess(s, t, ya, yb);
    } else if ma / 10 != mb / 10 {
      assert s[..5] == t[..5];
      DigitsLess(s, t, 5, ma / 10, mb / 10);
    } else {
      assert s[..6] == t[..6];
      DigitsLess(s, t, 6, ma % 10, mb % 10);
    }
  }

  lemma EarlierYearFormatsLess(s: string, t: string, y: int, z: int)
    requires 0 <= y < z < 10000 && |s| == |t| == 7
    requires s[..4] == [Digit(y / 1000), Digit(y / 100 % 10), Digit(y / 10 % 10), Digit(y % 10)]
    requires t[..4] == [Digit(z / 1000), Digit(z / 100 % 10), Digit(z / 10 % 10), Digit(z % 10)]
    ensures StringLess(s, t)
  {
    YearDigits(y);
    YearDigits(z);
    assert s[..4][..1] == s[..1] && s[..4][..2] == s[..2] && s[..4][..3] == s[..3];
    assert t[..4][..1] == t[..1] && t[..4][..2] == t[..2] && t[..4][..3] == t[..3];
    assert s[..4][0] == s[0] && s[..4][1] == s[1] && s[..4][2] == s[2] && s[..4][3] == s[3];
    assert t[..4][0] == t[0] && t[..4][1] == t[1] && t[..4][2] == t[2] && t[..4][3] == t[3];
    if y / 1000 != z / 1000 {
      DigitsLess(s, t, 0, y / 1000, z / 1000);
    } else if y / 100 % 10 != z / 100 % 10 {
      DigitsLess(s, t, 1, y / 100 % 10, z / 100 % 10);
    } else if y / 10 % 10 != z / 10 % 10 {
      DigitsLess(s, t, 2, y / 10 % 10, z / 10 % 10);
    } else {
      DigitsLess(s, t, 3, y % 10, z % 10);
    }
  }

  lemma {:induction false} LessIrreflexive(a: string)
    ensures !StringLess(a, a)
  {
    if a != "" {
      LessIrreflexive(a[1..]);
    }
  }

  lemma {:induction false} LessAsymmetric(a: string, b: string)
    requires StringLess(a, b)
    ensures !StringLess(b, a)
  {
    if a != "" && a[0] == b[0] {
      LessAsymmetric(a[1..], b[1..]);
    }
  }

  /** String order on formatted periods is chronological, and formatting is injective;
      the empty string ("no period yet") is below every period. */
  lemma FormatOrder(a: Month, b: Month)
    requires 0 <= a < 120000 && 0 <= b < 120000
    ensures StringLess(Format(a), Format(b)) <==> a < b
    ensures Format(a) == Format(b) <==> a == b
    ensures StringLess("", Format(a))
  {
    LessIrreflexive(Format(a));
    if a < b {
      SmallerFormatsLess(a, b);
    } else if b < a {
      SmallerFormatsLess(b, a);
      LessAsymmetric(Format(b), Format(a));
    }
  }

  /** The months first .. last, in order. */
  function Span(first: Month, last: Month): (s: seq<Month>)
    requires first <= last + 1
    ensures |s| == last - first + 1
    ensures forall i :: 0 <= i < |s| ==> s[i] == first + i
  {
    seq(last - first + 1, i => first + i)
  }

  /** Every period from `first` through `last`; an inverted or over-long range is an error. */
  method PeriodRange(first: Month, last: Month) returns (r: Result<seq<Month>, ()>)
    ensures r.Ok? <==> first <= last && last - first < MAX_PERIOD_RANGE
    ensures r.Ok? ==> r.value == Span(first, last)
  {
    if first > last {
      return Err(());
    }
    var out := [];
    var p := first;
    while true
      invariant first <= p <= last
      invariant |out| < MAX_PERIOD_RANGE
      invariant out == Span(first, p - 1)
      decreases last - p
    {
      out := out + [p];
      if p >= last {
        assert out == Span(first, last);
        break;
      }
      if |out| >= MAX_PERIOD_RANGE {
        return Err(());
      }
      p := p + 1;
    }
    return Ok(out);
  }
}
