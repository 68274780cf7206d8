/** The maximum drawdown of a sequence of daily returns, in one pass and by definition. */
module Drawdown {
  import opened Numbers

  function Grow(value: real, rate: real): real { value * (1.0 + rate) }

  function Fall(value: real, from: real): real
    requires from != 0.0
  {
    value / from - 1.0
  }

  /** The compounded value after n days, starting from 1. */
  function Compounded(rs: seq<real>, n: nat): real
    requires n <= |rs|
  {
    if n == 0 then 1.0 else Grow(Compounded(rs, n - 1), rs[n - 1])
  }

  lemma OneDay(rate: real)
    ensures Compounded([rate], 1) == 1.0 + rate
  {
    assert Compounded([rate], 0) == 1.0;
  }

  /** Returns of one period after another compound to the product: each day counts once, with its own return. */
  lemma {:induction false} CompoundsAcross(rs: seq<real>, ts: seq<real>, n: nat)
    requires n <= |ts|
    ensures Compounded(rs + ts, |rs| + n) == Compounded(rs, |rs|) * Compounded(ts, n)
    decreases n
  {
    hide Grow;
    if n > 0 {
      CompoundsAcross(rs, ts, n - 1);
      var all := rs + ts;
      assert Compounded(all, |rs| + n) == Grow(Compounded(all, |rs| + (n - 1)), ts[n - 1]);
      GrowProduct(Compounded(rs, |rs|), Compounded(ts, n - 1), ts[n - 1], Compounded(all, |rs| + (n - 1)),
                  Compounded(ts, n));
    } else {
      SamePrefix(rs, rs + ts, |rs|);
    }
  }

  lemma GrowProduct(a: real, b: real, rate: real, ab: real, b': real)
    requires ab == a * b && b' == Grow(b, rate)
    ensures Grow(ab, rate) == a * b'
  {
  }

  lemma {:induction false} SamePrefix(rs: seq<real>, ts: seq<real>, n: nat)
    requires n <= |rs| && rs <= ts
    ensures Compounded(rs, n) == Compounded(ts, n)
  {
    if n > 0 {
      SamePrefix(rs, ts, n - 1);
    }
  }

  /** The highest value so far. */
  function Peak(rs: seq<real>, n: nat): (p: real)
    requires n <= |rs|
    ensures p >= 1.0
  {
    if n == 0 then 1.0 else MaxR(Peak(rs, n - 1), Compounded(rs, n))
  }

  lemma {:induction false} PeakIsMaximum(rs: seq<real>, n: nat)
    requires n <= |rs|
    ensures forall i | 0 <= i <= n :: Compounded(rs, i) <= Peak(rs, n)
    ensures exists i | 0 <= i <= n :: Compounded(rs, i) == Peak(rs, n)
  {
    hide Grow;
    assert Compounded(rs, 0) == 1.0;
    if n > 0 {
      PeakIsMaximum(rs, n - 1);
      var i :| 0 <= i <= n - 1 && Compounded(rs, i) == Peak(rs, n - 1);
      assert Peak(rs, n) == Compounded(rs, i) || Peak(rs, n) == Compounded(rs, n);
    }
  }

  /** The decline from the peak at day n. */
  function Decline(rs: seq<real>, n: nat): real
    requires n <= |rs|
  {
    Fall(Compounded(rs, n), Peak(rs, n))
  }

  lemma DeclineSign(rs: seq<real>, n: nat)
    requires n <= |rs|
    ensures Decline(rs, n) <= 0.0
    ensures Decline(rs, n) > -1.0 <==> Compounded(rs, n) > 0.0
  {
    PeakIsMaximum(rs, n);
    QuotientBounds(Compounded(rs, n), Peak(rs, n));
  }

  lemma QuotientBounds(c: real, p: real)
    requires p >= 1.0 && c <= p
    ensures c / p <= 1.0
    ensures c / p > 0.0 <==> c > 0.0
  {
    DivMul(c, p);
    var q := c / p;
    if q > 1.0 {
      MulPos(q - 1.0, p);
    }
    DivLe(c, p, 0.0);
    if c > 0.0 && q <= 0.0 {
      MulNonneg(-q, p);
    }
    if c <= 0.0 && q > 0.0 {
      MulPos(q, p);
    }
  }

  /** The running-peak loop, for any returns: the lowest decline from the running peak, which stays above
      -1 exactly when the compounded value never reaches zero. */
  method MaxDrawdown(rs: seq<real>) returns (drawdown: real)
    ensures forall n | 0 <= n <= |rs| :: drawdown <= Decline(rs, n)
    ensures exists n | 0 <= n <= |rs| :: drawdown == Decline(rs, n)
    ensures drawdown <= 0.0
    ensures drawdown > -1.0 <==> forall n | 0 <= n <= |rs| :: Compounded(rs, n) > 0.0
    ensures (forall i | 0 <= i < |rs| :: rs[i] > -1.0) ==> IsAllPairsDrawdown(rs, drawdown)
  {
    var peak, compounded := 1.0, 1.0;
    drawdown := 0.0;
    assert Decline(rs, 0) == 0.0;
    hide Grow, Fall;
    for i := 0 to |rs|
      invariant compounded == Compounded(rs, i) && peak == Peak(rs, i)
      invariant forall n | 0 <= n <= i :: drawdown <= Decline(rs, n)
      invariant exists n | 0 <= n <= i :: drawdown == Decline(rs, n)
    {
      compounded := Grow(compounded, rs[i]);
      peak := MaxR(peak, compounded);
      drawdown := MinR(drawdown, Fall(compounded, peak));
      assert Fall(compounded, peak) == Decline(rs, i + 1);
    }
    DrawdownSign(rs, drawdown);
    if forall i | 0 <= i < |rs| :: rs[i] > -1.0 {
      RunningPeakIsAllPairs(rs, drawdown);
    }
  }

  lemma DrawdownSign(rs: seq<real>, d: real)
    requires forall n | 0 <= n <= |rs| :: d <= Decline(rs, n)
    requires exists n | 0 <= n <= |rs| :: d == Decline(rs, n)
    ensures d <= 0.0
    ensures d > -1.0 <==> forall n | 0 <= n <= |rs| :: Compounded(rs, n) > 0.0
  {
    hide Decline, Compounded;
    forall n | 0 <= n <= |rs|
      ensures Decline(rs, n) <= 0.0
      ensures Decline(rs, n) > -1.0 <==> Compounded(rs, n) > 0.0
    {
      DeclineSign(rs, n);
    }
    if d > -1.0 {
      forall n | 0 <= n <= |rs|
        ensures Compounded(rs, n) > 0.0
      {
        assert d <= Decline(rs, n);
      }
    } else {
      var n :| 0 <= n <= |rs| && d == Decline(rs, n);
      assert Compounded(rs, n) <= 0.0;
    }
  }

  lemma {:induction false} CompoundedPositive(rs: seq<real>, n: nat)
    requires n <= |rs| && forall i | 0 <= i < |rs| :: rs[i] > -1.0
    ensures Compounded(rs, n) > 0.0
  {
    if n > 0 {
      CompoundedPositive(rs, n - 1);
      MulPos(Compounded(rs, n - 1), 1.0 + rs[n - 1]);
    }
  }

  /** The drawdown by definition: the worst change from any day to the same or a later day. */
  ghost predicate IsAllPairsDrawdown(rs: seq<real>, d: real)
    requires forall i | 0 <= i < |rs| :: rs[i] > -1.0
  {
    && (forall i: nat, j: nat | i <= j <= |rs| :: d <= Change(rs, i, j))
    && (exists i: nat, j: nat | i <= j <= |rs| :: d == Change(rs, i, j))
  }

  function Change(rs: seq<real>, i: nat, j: nat): real
    requires i <= j <= |rs| && forall i | 0 <= i < |rs| :: rs[i] > -1.0
  {
    CompoundedPositive(rs, i);
    Fall(Compounded(rs, j), Compounded(rs, i))
  }

  /** Measured from the running peak, a day's decline is its worst change since any earlier day. */
  lemma DeclineIsWorstChange(rs: seq<real>, i: nat, j: nat)
    requires i <= j <= |rs| && forall i | 0 <= i < |rs| :: rs[i] > -1.0
    ensures Decline(rs, j) <= Change(rs, i, j)
  {
    CompoundedPositive(rs, i);
    CompoundedPositive(rs, j);
    PeakIsMaximum(rs, j);
    LargerDivisor(Compounded(rs, j), Compounded(rs, i), Peak(rs, j));
  }

  lemma LargerDivisor(c: real, a: real, b: real)
    requires c > 0.0 && 0.0 < a <= b
    ensures c / b <= c / a
  {
    var q := c / b;
    DivMul(c, b);
    DivLe(c, b, 0.0);
    MulLe(a, b, q);
    DivLe(c, a, q);
  }

  /** For returns above -100% the running-peak result is the all-pairs drawdown, and lies in (-1, 0]. */
  lemma RunningPeakIsAllPairs(rs: seq<real>, d: real)
    requires forall i | 0 <= i < |rs| :: rs[i] > -1.0
    requires forall n | 0 <= n <= |rs| :: d <= Decline(rs, n)
    requires exists n | 0 <= n <= |rs| :: d == Decline(rs, n)
    ensures IsAllPairsDrawdown(rs, d) && -1.0 < d <= 0.0
  {
    hide Compounded, Decline, Change;
    forall i: nat, j: nat | i <= j <= |rs|
      ensures d <= Change(rs, i, j)
    {
      DeclineIsWorstChange(rs, i, j);
    }
    var n :| 0 <= n <= |rs| && d == Decline(rs, n);
    var i := PeakDay(rs, n);
    assert d == Change(rs, i, n);
    CompoundedPositive(rs, n);
    DeclineSign(rs, n);
  }

  lemma PeakDay(rs: seq<real>, n: nat) returns (i: nat)
    requires n <= |rs| && forall i | 0 <= i < |rs| :: rs[i] > -1.0
    ensures i <= n && Decline(rs, n) == Change(rs, i, n)
  {
    PeakIsMaximum(rs, n);
    i :| 0 <= i <= n && Compounded(rs, i) == Peak(rs, n);
  }
}
