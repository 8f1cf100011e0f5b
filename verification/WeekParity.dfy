/** Odd and even teaching weeks over a stretch of consecutive weeks, named by their Thursdays. */
module WeekParity {
  import opened Calendar

  predicate OddWeek(th: int) { ThursdayWeek(th) % 2 != 0 }

  lemma NextParity(before: int, after: int)
    requires 1 <= before <= 53 && 1 <= after <= 53 && (after == before + 1 || (after == 1 && before >= 52))
    ensures before % 2 != 0 && after % 2 != 0 <==> before == 53
    ensures before % 2 == 0 ==> after % 2 != 0
  {
    if after == before + 1 { assert after % 2 == (before % 2 + 1) % 2; }
  }

  /** Parity alternates, except that week 53 is followed by week 1: two odd weeks in a row. */
  lemma ParityAlternates(th: int)
    ensures OddWeek(th + 7) == !OddWeek(th) || (OddWeek(th) && OddWeek(th + 7))
    ensures OddWeek(th) && OddWeek(th + 7) <==> ThursdayWeek(th) == 53
  {
    NextWeek(th);
    NextWeek(th + 7);
    NextParity(ThursdayWeek(th), ThursdayWeek(th + 7));
  }

  /** From one odd week to the next it is 14 days, or 7 after week 53. */
  lemma OddGap(th: int)
    requires OddWeek(th)
    ensures OddWeek(th + 7) <==> ThursdayWeek(th) == 53
    ensures OddWeek(th + 7) || OddWeek(th + 14)
  {
    ParityAlternates(th);
    ParityAlternates(th + 7);
    assert th + 7 + 7 == th + 14;
  }

  /** From one even week to the next it is 14 days, or 21 across a week 53. */
  lemma EvenGap(th: int)
    requires !OddWeek(th)
    ensures OddWeek(th + 7)
    ensures OddWeek(th + 14) <==> ThursdayWeek(th + 7) == 53
    ensures !OddWeek(th + 14) || !OddWeek(th + 21)
  {
    ParityAlternates(th);
    ParityAlternates(th + 7);
    ParityAlternates(th + 14);
    assert th + 7 + 7 == th + 14 && th + 14 + 7 == th + 21;
    if ThursdayWeek(th + 7) == 53 { NextWeek(th + 7); }
  }

  /** The numbers of n consecutive weeks. */
  function Numbers(th: int, n: nat): seq<int> { seq(n, i => ThursdayWeek(th + 7 * i)) }

  predicate Follows(before: int, after: int) { after == before + 1 || (after == 1 && before >= 52) }

  predicate Consecutive(w: seq<int>) {
    && (forall i | 0 <= i < |w| :: 1 <= w[i] <= 53)
    && forall i | 0 < i < |w| :: Follows(w[i - 1], w[i])
  }

  lemma NextNumber(before: int, after: int)
    requires after == before + 7
    ensures 1 <= ThursdayWeek(after) <= 53
    ensures Follows(ThursdayWeek(before), ThursdayWeek(after))
  {
    NextWeek(before);
    NextWeek(after);
  }

  lemma NumbersStep(th: int, n: nat, at: int)
    requires n > 0 && at == th + 7 * (n - 1)
    ensures var w := Numbers(th, n);
            && w[..n - 1] == Numbers(th, n - 1)
            && w[n - 1] == ThursdayWeek(at)
            && (n > 1 ==> w[n - 2] == ThursdayWeek(at - 7))
  {
  }

  lemma ExtendConsecutive(w: seq<int>)
    requires w != [] && Consecutive(w[..|w| - 1]) && 1 <= w[|w| - 1] <= 53
    requires |w| > 1 ==> Follows(w[|w| - 2], w[|w| - 1])
    ensures Consecutive(w)
  {
    var init := w[..|w| - 1];
    assert forall i | 0 <= i < |init| :: w[i] == init[i];
  }

  lemma {:induction false} NumbersConsecutive(th: int, n: nat)
    ensures Consecutive(Numbers(th, n))
  {
    if n > 0 {
      NumbersConsecutive(th, n - 1);
      var at := th + 7 * (n - 1);
      NumbersStep(th, n, at);
      NextNumber(at - 7, at);
      ExtendConsecutive(Numbers(th, n));
    }
  }

  function OddCount(w: seq<int>): (c: nat)
    ensures c <= |w|
  {
    if w == [] then 0 else OddCount(w[..|w| - 1]) + if w[|w| - 1] % 2 != 0 then 1 else 0
  }

  /** Week-53-to-week-1 boundaries strictly inside the stretch. */
  function Boundaries(w: seq<int>): nat {
    if |w| <= 1 then 0 else Boundaries(w[..|w| - 1]) + if w[|w| - 2] == 53 then 1 else 0
  }

  /** How far odd weeks outnumber even ones: fixed by the boundaries and the parity of the last week. */
  lemma {:induction false} Balance(w: seq<int>)
    requires Consecutive(w) && w != []
    ensures var excess := 2 * OddCount(w) - |w|;
            if w[|w| - 1] % 2 != 0 then Boundaries(w) <= excess <= Boundaries(w) + 1
            else Boundaries(w) - 1 <= excess <= Boundaries(w)
  {
    var init := w[..|w| - 1];
    if init != [] {
      Balance(init);
      assert init[|init| - 1] == w[|w| - 2];
    }
  }

  function LastOdd(w: seq<int>): nat { if w != [] && w[|w| - 1] % 2 != 0 then 1 else 0 }

  /** How many odd weeks there are, exactly. */
  lemma OddCountExact(w: seq<int>)
    requires Consecutive(w)
    ensures OddCount(w) == (|w| + Boundaries(w) + LastOdd(w)) / 2
  {
    if w != [] { Balance(w); }
  }

  /** The odd weeks are never less than half of them, rounded down; and they are at most one more exactly if the
      boundaries, one for an odd last week and one for an odd number of weeks make no more than three. */
  lemma OddBoundIff(w: seq<int>)
    requires Consecutive(w)
    ensures |w| / 2 <= OddCount(w)
    ensures OddCount(w) <= |w| / 2 + 1 <==> Boundaries(w) + LastOdd(w) + |w| % 2 <= 3
  {
    OddCountExact(w);
  }

  lemma {:induction false} BoundaryInside(w: seq<int>) returns (i: nat)
    requires Boundaries(w) >= 1
    ensures i + 2 <= |w| && w[i] == 53
  {
    if w[|w| - 2] == 53 { i := |w| - 2; } else { i := BoundaryInside(w[..|w| - 1]); }
  }

  lemma {:induction false} OneBoundary(th: int, n: nat)
    requires n <= 262
    ensures Boundaries(Numbers(th, n)) <= 1
  {
    if n > 1 {
      var w := Numbers(th, n);
      assert w[..n - 1] == Numbers(th, n - 1);
      OneBoundary(th, n - 1);
      if Boundaries(w[..n - 1]) >= 1 && w[n - 2] == 53 {
        var i := BoundaryInside(w[..n - 1]);
        assert th + 7 * i + 7 * (n - 2 - i) == th + 7 * (n - 2);
        LongYearsApart(th + 7 * i, n - 2 - i);
      }
    }
  }

  /** Up to five years of weeks have one boundary at most, so whenever they start the odd ones are half of them,
      rounded down, or one more. */
  lemma OddCountBounds(th: int, n: nat)
    requires n <= 262
    ensures n / 2 <= OddCount(Numbers(th, n)) <= n / 2 + 1
  {
    NumbersConsecutive(th, n);
    OneBoundary(th, n);
    OddBoundIff(Numbers(th, n));
  }

  // ---- 263 weeks are the first number that fails for some start

  lemma Quotient(y: int, k: int)
    requires k == 4 || k == 100 || k == 400
    ensures y / k == (y - 1) / k + if y % k == 0 then 1 else 0
  {
  }

  lemma Divides(y: int, k: int, m: int)
    requires (k == 100 && m == 4) || (k == 400 && m == 100)
    ensures y % k == 0 ==> y % m == 0
  {
    if y % k == 0 { assert y == m * (k / m * (y / k)); }
  }

  lemma LeapCount(y: int)
    ensures (if IsLeap(y) then 1 else 0) ==
            (if y % 4 == 0 then 1 else 0) - (if y % 100 == 0 then 1 else 0) + (if y % 400 == 0 then 1 else 0)
  {
    Divides(y, 100, 4);
    Divides(y, 400, 100);
  }

  lemma {:induction false} YearStartClosed(y: int)
    requires y >= 1
    ensures YearStart(y) == 365 * (y - 1) + (y - 1) / 4 - (y - 1) / 100 + (y - 1) / 400
  {
    if y > 1 {
      YearStartClosed(y - 1);
      Quotient(y - 1, 4);
      Quotient(y - 1, 100);
      Quotient(y - 1, 400);
      LeapCount(y - 1);
    }
  }

  lemma {:induction false} BoundariesGrow(w: seq<int>, n: nat)
    requires n <= |w|
    ensures Boundaries(w[..n]) <= Boundaries(w)
    decreases |w|
  {
    if n < |w| {
      assert w[..|w| - 1][..n] == w[..n];
      BoundariesGrow(w[..|w| - 1], n);
    } else {
      assert w[..n] == w;
    }
  }

  /** Two 53rd weeks, one first and one last but one. */
  lemma TwoBoundaries(w: seq<int>)
    requires |w| >= 3 && w[0] == 53 && w[|w| - 2] == 53
    ensures Boundaries(w) >= if |w| == 3 then 1 else 2
  {
    BoundariesGrow(w[..|w| - 1], 2);
    assert w[..|w| - 1][..2] == w[..2];
    assert Boundaries(w[..2]) == 1;
  }

  lemma Thursday2015() returns (th: int)
    ensures Weekday(th) == THURSDAY && ThursdayWeek(th) == 53 && ThursdayWeek(th + 7 * 261) == 53
  {
    var y := YearStart(2015);
    YearStartClosed(2015);
    YearStartClosed(2016);
    YearStartClosed(2020);
    YearStartClosed(2021);
    th := y + 364;
    YearOfUnique(th, 2015);
    YearOfUnique(th + 7 * 261, 2020);
  }

  /** 263 weeks from Thursday, 31 December 2015 have 133 odd ones, one too many. */
  lemma OddCountBoundFailsAt263()
    ensures exists th :: Weekday(th) == THURSDAY && OddCount(Numbers(th, 263)) > 263 / 2 + 1
  {
    var th := Thursday2015();
    var w := Numbers(th, 263);
    NumbersConsecutive(th, 263);
    TwoBoundaries(w);
    OddBoundIff(w);
    assert w[262] == 1;
  }
}
