/** The proleptic Gregorian calendar on day numbers, with the week numbering of ISO 8601:2004, section
    3.2.2. Day 0 is Monday, 1 January of year 1. */
module Calendar {

  function Weekday(d: int): (w: int)
    ensures 0 <= w < 7
  {
    (d + 1) % 7
  }

  const SUNDAY := 0
  const MONDAY := 1
  const THURSDAY := 4

  predicate IsLeap(y: int) { y % 4 == 0 && (y % 100 != 0 || y % 400 == 0) }

  function YearDays(y: int): (n: int)
    ensures n == 365 || n == 366
  {
    if IsLeap(y) then 366 else 365
  }

  /** First day of a year, before or after year 1. */
  function YearStart(y: int): int
    decreases if y >= 1 then y - 1 else 1 - y
  {
    if y == 1 then 0
    else if y > 1 then YearStart(y - 1) + YearDays(y - 1)
    else YearStart(y + 1) - YearDays(y)
  }

  lemma YearLength(y: int)
    ensures YearStart(y + 1) == YearStart(y) + YearDays(y)
  {
  }

  lemma DivMod(y: int, n: int, q: int, r: int)
    requires n > 0 && y == n * q + r && 0 <= r < n
    ensures y / n == q && y % n == r
  {
    var e := y / n - q;
    assert n * e == r - y % n;
    assert -n < n * e < n;
  }

  /** How many multiples of n there are up to y. */
  lemma Multiples(y: int, n: int)
    requires n > 1
    ensures y / n == (y - 1) / n + if y % n == 0 then 1 else 0
  {
    var q, r := (y - 1) / n, (y - 1) % n;
    assert y == n * q + (r + 1);
    if r == n - 1 {
      assert y == n * (q + 1) + 0;
      DivMod(y, n, q + 1, 0);
    } else {
      DivMod(y, n, q, r + 1);
    }
  }

  lemma LeapStep(y: int)
    ensures y / 4 - y / 100 + y / 400 ==
            (y - 1) / 4 - (y - 1) / 100 + (y - 1) / 400 + if IsLeap(y) then 1 else 0
  {
    Multiples(y, 4);
    Multiples(y, 100);
    Multiples(y, 400);
    if y % 100 == 0 { DivMod(y, 4, 25 * (y / 100), 0); }
    if y % 400 == 0 { DivMod(y, 100, 4 * (y / 400), 0); }
  }

  /** The first day of a year by the Gregorian rule. */
  lemma {:induction false} YearStartInWords(y: int)
    ensures YearStart(y) == 365 * (y - 1) + (y - 1) / 4 - (y - 1) / 100 + (y - 1) / 400
    decreases if y >= 1 then y - 1 else 1 - y
  {
    if y > 1 {
      YearStartInWords(y - 1);
      LeapStep(y - 1);
    } else if y < 1 {
      YearStartInWords(y + 1);
      LeapStep(y);
    }
  }

  /** 1 January 1970 was a Thursday. */
  lemma Epoch()
    ensures YearStart(1970) == 719162 && Weekday(YearStart(1970)) == 4
  {
    YearStartInWords(1970);
  }

  lemma {:induction false} YearStartMonotone(y: int, z: int)
    requires y <= z
    ensures YearStart(z) >= YearStart(y) + 365 * (z - y)
    decreases z - y
  {
    if y < z {
      YearLength(z - 1);
      YearStartMonotone(y, z - 1);
    }
  }

  /** Forward from a year that does not start too late. */
  function Search(d: int, y: int): (r: int)
    requires YearStart(y) <= d
    ensures YearStart(r) <= d < YearStart(r + 1)
    decreases d - YearStart(y)
  {
    YearLength(y);
    if d < YearStart(y + 1) then y else Search(d, y + 1)
  }

  function SearchBack(d: int, y: int): (r: int)
    requires d < YearStart(y + 1)
    ensures YearStart(r) <= d < YearStart(r + 1)
    decreases YearStart(y + 1) - d
  {
    YearLength(y);
    if YearStart(y) <= d then y else SearchBack(d, y - 1)
  }

  /** The year of a day: the only one whose days include it. */
  function YearOf(d: int): (y: int)
    ensures YearStart(y) <= d < YearStart(y + 1)
  {
    var guess := 1 + d / 365;
    if YearStart(guess) <= d then Search(d, guess) else SearchBack(d, guess - 1)
  }

  lemma YearOfUnique(d: int, y: int)
    requires YearStart(y) <= d < YearStart(y + 1)
    ensures YearOf(d) == y
  {
    var z := YearOf(d);
    if z < y { YearStartMonotone(z + 1, y); }
    if y < z { YearStartMonotone(y + 1, z); }
  }

  function ThursdayWeek(th: int): (w: int)
    ensures w >= 1
  {
    (th - YearStart(YearOf(th))) / 7 + 1
  }

  /** `Time.ISOWeek`: the week is numbered in the year of its Thursday. */
  function IsoWeek(d: int): (w: int)
    ensures w >= 1
  {
    var shift := THURSDAY - Weekday(d);
    ThursdayWeek(d + if shift == 4 then -3 else shift)
  }

  /** All seven days of a week have the same number. */
  lemma WeekIsConstant(monday: int, k: int)
    requires Weekday(monday) == MONDAY && 0 <= k < 7
    ensures IsoWeek(monday + k) == ThursdayWeek(monday + 3)
  {
    assert Weekday(monday + k) == if k == 6 then SUNDAY else 1 + k;
    var shift := THURSDAY - Weekday(monday + k);
    assert monday + k + (if shift == 4 then -3 else shift) == monday + 3;
  }

  /** ISO 8601: the first week is the one that has 4 January in it. */
  lemma FirstWeekInWords(y: int)
    ensures IsoWeek(YearStart(y) + 3) == 1
  {
    hide YearStart, YearOf;
    var d := YearStart(y) + 3;
    var shift := THURSDAY - Weekday(d);
    var th := d + if shift == 4 then -3 else shift;
    assert d - 3 <= th <= d + 3;
    YearLength(y);
    YearOfUnique(th, y);
    assert 0 <= th - YearStart(y) < 7;
  }

  /** From one week to the next the number goes up by one, or back to 1 after 52 or 53. */
  lemma NextWeek(th: int)
    ensures 1 <= ThursdayWeek(th) <= 53
    ensures ThursdayWeek(th + 7) == ThursdayWeek(th) + 1 || (ThursdayWeek(th + 7) == 1 && ThursdayWeek(th) >= 52)
  {
    var y := YearOf(th);
    YearLength(y);
    YearLength(y + 1);
    YearOfUnique(th + 7, if th + 7 < YearStart(y + 1) then y else y + 1);
  }

  lemma LongOffset(th: int)
    requires ThursdayWeek(th) == 53
    ensures var a := th - YearStart(YearOf(th)); a == 364 || (a == 365 && IsLeap(YearOf(th)))
  {
    YearLength(YearOf(th));
  }

  /** How many leap days there are in k years: at most one in four, and one if the first is leap. */
  function LeapDays(y: int, k: nat): int {
    if k == 0 then 0 else LeapDays(y, k - 1) + if IsLeap(y + k - 1) then 1 else 0
  }

  lemma {:induction false} YearSpan(y: int, k: nat)
    ensures YearStart(y + k) == YearStart(y) + 365 * k + LeapDays(y, k)
  {
    if k > 0 {
      YearSpan(y, k - 1);
      YearLength(y + k - 1);
    }
  }

  lemma FourthGap(y: int, z: int)
    requires 1 <= z - y <= 3
    ensures y % 4 != 0 || z % 4 != 0
  {
  }

  lemma LeapGap(y: int, j: int)
    requires 1 <= j <= 3
    ensures !(IsLeap(y) && IsLeap(y + j))
  {
    FourthGap(y, y + j);
  }

  lemma {:induction false} NoLeapBefore(y: int, k: nat, i: nat)
    requires k <= i < 4 && IsLeap(y + i)
    ensures LeapDays(y, k) == 0
  {
    if k > 0 {
      NoLeapBefore(y, k - 1, i);
      LeapGap(y + k - 1, i - k + 1);
    }
  }

  lemma {:induction false} FourYears(y: int, k: nat)
    requires 1 <= k <= 4
    ensures 0 <= LeapDays(y, k) <= 1 && (IsLeap(y) ==> LeapDays(y, k) == 1)
  {
    if k > 1 {
      FourYears(y, k - 1);
      if IsLeap(y + k - 1) { NoLeapBefore(y, k - 1, k - 1); }
    }
  }

  /** Up to four years on, the weekdays are wrong for a second 53rd week. */
  lemma NotWithinFour(k: int, leapDays: int, a: int, b: int, n: int)
    requires 1 <= k <= 4 && 0 <= leapDays <= 1 && (a == 365 ==> leapDays == 1)
    requires 364 <= a <= 365 && 364 <= b <= 365
    ensures 7 * n != 365 * k + leapDays + b - a
  {
    assert 365 * k + leapDays + b - a == 7 * (52 * k) + (k + leapDays + b - a);
    assert 0 < k + leapDays + b - a < 7;
  }

  /** No two years within five have 53 weeks. */
  lemma LongYearsApart(th: int, n: nat)
    requires n >= 1 && ThursdayWeek(th) == 53 && ThursdayWeek(th + 7 * n) == 53
    ensures n >= 261
  {
    var y, z := YearOf(th), YearOf(th + 7 * n);
    LongOffset(th);
    LongOffset(th + 7 * n);
    var a, b := th - YearStart(y), th + 7 * n - YearStart(z);
    if z <= y { YearStartMonotone(z, y); }
    var k: nat := z - y;
    YearSpan(y, k);
    if 1 <= k <= 4 {
      FourYears(y, k);
      NotWithinFour(k, LeapDays(y, k), a, b, n);
    }
    YearStartMonotone(y, z);
  }
}
