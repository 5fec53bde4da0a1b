/** `Number(x.toFixed(1))` over exact rationals. ECMAScript's toFixed picks
    the multiple of 0.1 nearest to x and, of two equally near, the one of
    larger magnitude (a negative x is handled through its absolute value). */
module Rounding {

  /** r is a whole number of tenths. */
  predicate IsTenth(r: real)
  {
    (10.0 * r).Floor as real == 10.0 * r
  }

  function RoundTenth(x: real): (r: real)
    ensures IsTenth(r)
    ensures x >= 0.0 ==> x - 0.05 < r <= x + 0.05
    ensures x < 0.0 ==> x - 0.05 <= r < x + 0.05
  {
    if x >= 0.0 then
      var n := (10.0 * x + 0.5).Floor;
      Tenths(n);
      n as real / 10.0
    else
      var n := (-10.0 * x + 0.5).Floor;
      Tenths(-n);
      (-n) as real / 10.0
  }

  lemma Tenths(n: int)
    ensures IsTenth(n as real / 10.0)
  {
    assert 10.0 * (n as real / 10.0) == n as real;
  }

  lemma RoundTenthMonotone(x: real, y: real)
    requires x <= y
    ensures RoundTenth(x) <= RoundTenth(y)
  {
    if 0.0 <= x {
      assert (10.0 * x + 0.5).Floor <= (10.0 * y + 0.5).Floor;
    } else if y < 0.0 {
      assert (-10.0 * y + 0.5).Floor <= (-10.0 * x + 0.5).Floor;
    } else {
      assert 0 <= (-10.0 * x + 0.5).Floor;
      assert 0 <= (10.0 * y + 0.5).Floor;
    }
  }

  /** A value that already is a whole number of tenths is kept. */
  lemma RoundTenthOfTenths(k: int)
    ensures RoundTenth(k as real / 10.0) == k as real / 10.0
  {
    var x := k as real / 10.0;
    if k >= 0 {
      assert 10.0 * x + 0.5 == k as real + 0.5;
      assert (10.0 * x + 0.5).Floor == k;
    } else {
      assert -10.0 * x + 0.5 == -k as real + 0.5;
      assert (-10.0 * x + 0.5).Floor == -k;
    }
  }

  /** Rounding keeps a value within whole-number bounds. */
  lemma RoundTenthWithin(x: real, lo: int, hi: int)
    requires lo as real <= x <= hi as real
    ensures lo as real <= RoundTenth(x) <= hi as real
  {
    RoundTenthMonotone(lo as real, x);
    RoundTenthMonotone(x, hi as real);
    RoundTenthOfTenths(10 * lo);
    RoundTenthOfTenths(10 * hi);
    assert (10 * lo) as real / 10.0 == lo as real;
    assert (10 * hi) as real / 10.0 == hi as real;
  }
}
