/** The A-share cost model: what a purchase costs, what a sale brings in, and how many
    shares a sum of money is translated into. Money, prices and rates are reals. */
module CostModel {
  import opened Numbers

  datatype Fees = Fees(commissionRate: real, slippageRate: real, stampDutyRate: real, minCommission: real) {
    predicate Valid() {
      commissionRate >= 0.0 && slippageRate >= 0.0 && stampDutyRate >= 0.0 && minCommission >= 0.0
    }

    /** Charges proportional to a purchase when its commission is above the minimum. */
    function BuyRates(): real { commissionRate + slippageRate }
  }

  /** The cost of one share when the commission is proportional. */
  function Gross(f: Fees, price: real): (unit: real)
    ensures f.Valid() && price > 0.0 ==> unit >= price
  {
    MulGrows(price, f.BuyRates());
    price * (1.0 + f.BuyRates())
  }

  /** The cost of one share beside a minimum commission. */
  function Net(f: Fees, price: real): (unit: real)
    ensures f.Valid() && price > 0.0 ==> unit >= price
  {
    MulGrows(price, f.slippageRate);
    price * (1.0 + f.slippageRate)
  }

  lemma MulGrows(price: real, rate: real)
    ensures rate >= 0.0 && price > 0.0 ==> price * (1.0 + rate) >= price
  {
    if rate >= 0.0 && price > 0.0 {
      MulNonneg(price, rate);
    }
  }

  function BuyCost(f: Fees, price: real, shares: int): real
  {
    var amount := price * shares as real;
    amount + MaxR(amount * f.commissionRate, f.minCommission) + amount * f.slippageRate
  }

  function SellProceeds(f: Fees, price: real, shares: int): real
  {
    var amount := price * shares as real;
    amount - MaxR(amount * f.commissionRate, f.minCommission)
      - amount * f.stampDutyRate - amount * f.slippageRate
  }

  /** Python's int(x // 100 * 100). */
  function Hundreds(x: real): (n: int)
    ensures n % 100 == 0
    ensures n as real <= x < n as real + 100.0
  {
    (x / 100.0).Floor * 100
  }

  /** The first estimate, which ignores the minimum commission. */
  function FirstEstimate(f: Fees, capital: real, price: real): int
    requires f.Valid() && price > 0.0
  {
    Hundreds(capital / Gross(f, price))
  }

  function EstimateCommission(f: Fees, capital: real, price: real): real
    requires f.Valid() && price > 0.0
  {
    price * FirstEstimate(f, capital, price) as real * f.commissionRate
  }

  function CalcShares(f: Fees, capital: real, price: real): (n: int)
    requires f.Valid()
    ensures n >= 0 && n % 100 == 0
  {
    if price <= 0.0 || capital <= 0.0 then 0
    else
      var check := EstimateCommission(f, capital, price);
      if 0.0 < check < f.minCommission then
        MaxI(Hundreds((capital - (f.minCommission - check)) / Net(f, price)), 0)
      else
        MaxI(FirstEstimate(f, capital, price), 0)
  }

  // --- An independent account of what is affordable -------------------------------------

  /** The largest number of hundreds whose cost fits the capital: the cost is the larger of two
      linear functions of the share count, so the answer is the smaller of two quotients. */
  function MaxAffordable(f: Fees, capital: real, price: real): (n: int)
    requires f.Valid() && price > 0.0
    ensures n >= 0 && n % 100 == 0
  {
    MaxI(0, MinI(Hundreds(capital / Gross(f, price)),
                 Hundreds((capital - f.minCommission) / Net(f, price))))
  }

  lemma BuyCostIsLargerOfTwoLines(f: Fees, price: real, shares: int)
    ensures BuyCost(f, price, shares)
         == MaxR(shares as real * Gross(f, price),
                 shares as real * Net(f, price) + f.minCommission)
  {
    var amount := price * shares as real;
    assert shares as real * Gross(f, price)
        == amount + amount * f.commissionRate + amount * f.slippageRate;
    assert shares as real * Net(f, price) == amount + amount * f.slippageRate;
  }

  function Line(x: real, slope: real, offset: real): real {
    x * slope + offset
  }

  lemma LineLe(x: real, y: real, slope: real, offset: real)
    requires x <= y && slope >= 0.0
    ensures Line(x, slope, offset) <= Line(y, slope, offset)
  {
    MulLe(x, y, slope);
  }

  lemma BuyCostInLines(f: Fees, price: real, shares: int)
    ensures BuyCost(f, price, shares)
         == MaxR(Line(shares as real, Gross(f, price), 0.0),
                 Line(shares as real, Net(f, price), f.minCommission))
  {
    hide BuyCost, Gross, Net;
    BuyCostIsLargerOfTwoLines(f, price, shares);
  }

  lemma BuyCostMonotone(f: Fees, price: real, m: int, n: int)
    requires f.Valid() && price > 0.0 && m <= n
    ensures BuyCost(f, price, m) <= BuyCost(f, price, n)
  {
    hide BuyCost, Gross, Net, Line;
    BuyCostInLines(f, price, m);
    BuyCostInLines(f, price, n);
    LineLe(m as real, n as real, Gross(f, price), 0.0);
    LineLe(m as real, n as real, Net(f, price), f.minCommission);
  }

  /** A multiple of 100 is at most the whole hundreds of x exactly when it is at most x. */
  lemma HundredsFloor(m: int, x: real)
    requires m % 100 == 0
    ensures m <= Hundreds(x) <==> m as real <= x
  {
    if m > Hundreds(x) {
      assert m >= Hundreds(x) + 100;
    }
  }

  /** m units at a positive unit price fit the room exactly when m is within the quotient. */
  lemma UnitsFit(m: int, unit: real, room: real)
    requires unit > 0.0 && m % 100 == 0
    ensures m <= Hundreds(room / unit) <==> m as real * unit <= room
  {
    HundredsFloor(m, room / unit);
    DivLe(room, unit, m as real);
  }

  lemma MaxAffordableExact(f: Fees, capital: real, price: real, m: int)
    requires f.Valid() && price > 0.0 && m > 0 && m % 100 == 0
    ensures BuyCost(f, price, m) <= capital <==> m <= MaxAffordable(f, capital, price)
  {
    hide BuyCost, Hundreds, Gross, Net;
    BuyCostIsLargerOfTwoLines(f, price, m);
    UnitsFit(m, Gross(f, price), capital);
    UnitsFit(m, Net(f, price), capital - f.minCommission);
  }

  // --- What CalcShares promises about its capital ----------------------------------------

  /** The branch CalcShares takes, as what its answer spends: m is within the answer exactly when
      m units fit the capital, or the capital less the missing part of the minimum commission. */
  lemma CalcSharesBranch(f: Fees, capital: real, price: real, m: int)
    requires f.Valid() && price > 0.0 && capital > 0.0 && m > 0 && m % 100 == 0
    ensures var check := EstimateCommission(f, capital, price);
            m <= CalcShares(f, capital, price) <==>
              if 0.0 < check < f.minCommission
              then m as real * Net(f, price) <= capital - (f.minCommission - check)
              else m as real * Gross(f, price) <= capital
  {
    hide Hundreds, Gross, Net, EstimateCommission;
    var check := EstimateCommission(f, capital, price);
    if 0.0 < check < f.minCommission {
      UnitsFit(m, Net(f, price), capital - (f.minCommission - check));
    } else {
      UnitsFit(m, Gross(f, price), capital);
    }
  }

  /** CalcShares never stops short: the next hundred shares are always out of reach. */
  lemma CalcSharesNeverTooFew(f: Fees, capital: real, price: real)
    requires f.Valid() && price > 0.0 && capital > 0.0
    ensures BuyCost(f, price, CalcShares(f, capital, price) + 100) > capital
    ensures CalcShares(f, capital, price) >= MaxAffordable(f, capital, price)
  {
    hide BuyCost, Hundreds, Gross, Net, EstimateCommission, CalcShares, MaxAffordable;
    var next := CalcShares(f, capital, price) + 100;
    CalcSharesBranch(f, capital, price, next);
    BuyCostIsLargerOfTwoLines(f, price, next);
    MaxAffordableExact(f, capital, price, next);
  }

  /** The traded amount alone never exceeds the capital, on every branch. */
  lemma CalcSharesSpendsWithinCapital(f: Fees, capital: real, price: real)
    requires f.Valid() && price > 0.0 && capital > 0.0
    ensures price * CalcShares(f, capital, price) as real <= capital
  {
    hide CalcShares, EstimateCommission, Gross, Net;
    var n := CalcShares(f, capital, price);
    if n > 0 {
      CalcSharesBranch(f, capital, price, n);
      MulLe(price, Net(f, price), n as real);
      MulLe(price, Gross(f, price), n as real);
    }
  }

  /** When the first estimate already pays the minimum commission the answer is affordable. */
  lemma CalcSharesAffordableAboveMinimum(f: Fees, capital: real, price: real)
    requires f.Valid() && price > 0.0 && capital > 0.0
    requires EstimateCommission(f, capital, price) >= f.minCommission
    ensures BuyCost(f, price, CalcShares(f, capital, price)) <= capital
         || CalcShares(f, capital, price) == 0
    ensures CalcShares(f, capital, price) == MaxAffordable(f, capital, price)
  {
    hide BuyCost, Hundreds, Gross, Net, MaxAffordable;
    var n := CalcShares(f, capital, price);
    CalcSharesNeverTooFew(f, capital, price);
    if n > 0 {
      CalcSharesBranch(f, capital, price, n);
      assert n == FirstEstimate(f, capital, price);
      CommissionAboveMinimum(f, price, n);
      MaxAffordableExact(f, capital, price, n);
    }
  }

  /** Above the minimum commission the cost is proportional to the shares. */
  lemma CommissionAboveMinimum(f: Fees, price: real, n: int)
    requires price * n as real * f.commissionRate >= f.minCommission
    ensures BuyCost(f, price, n) == n as real * Gross(f, price)
  {
    var amount := price * n as real;
    assert n as real * Gross(f, price)
        == amount + amount * f.commissionRate + amount * f.slippageRate;
  }

  /** The answer is affordable exactly when the first lot beyond the affordable ones does not pass the
      test of the branch that the capital, the price and the rates select. */
  lemma CalcSharesAffordableIff(f: Fees, capital: real, price: real)
    requires f.Valid() && price > 0.0 && capital > 0.0
    ensures var check, next := EstimateCommission(f, capital, price), MaxAffordable(f, capital, price) + 100;
            (CalcShares(f, capital, price) == 0 || BuyCost(f, price, CalcShares(f, capital, price)) <= capital) <==>
              if 0.0 < check < f.minCommission
              then next as real * Net(f, price) > capital - (f.minCommission - check)
              else next as real * Gross(f, price) > capital
  {
    hide BuyCost, CalcShares, MaxAffordable, EstimateCommission, Net, Gross;
    var n, best := CalcShares(f, capital, price), MaxAffordable(f, capital, price);
    CalcSharesNeverTooFew(f, capital, price);
    CalcSharesBranch(f, capital, price, best + 100);
    if n > 0 {
      MaxAffordableExact(f, capital, price, n);
    }
  }

  /** With the default rates, 1005.7 buys 1000 shares at 1.0, and they cost 1006. */
  lemma CalcSharesCanOverspend()
    ensures var f := Fees(0.0003, 0.001, 0.001, 5.0);
            CalcShares(f, 1005.7, 1.0) == 1000 && BuyCost(f, 1.0, 1000) == 1006.0
  {
    var f := Fees(0.0003, 0.001, 0.001, 5.0);
    var first := FirstEstimate(f, 1005.7, 1.0);
    HundredsFloor(1000, 1005.7 / 1.0013);
    HundredsFloor(1100, 1005.7 / 1.0013);
    assert first == 1000;
    assert EstimateCommission(f, 1005.7, 1.0) == 0.3;
    HundredsFloor(1000, 1001.0 / 1.001);
  }

  /** However far the minimum commission pushes it, the overspend is bounded. */
  lemma CalcSharesOverspendBound(f: Fees, capital: real, price: real)
    requires f.Valid() && price > 0.0 && capital > 0.0 && CalcShares(f, capital, price) > 0
    ensures BuyCost(f, price, CalcShares(f, capital, price))
         <= capital + 2.0 * (1.0 + f.commissionRate) * f.minCommission
  {
    var n := CalcShares(f, capital, price);
    var check := EstimateCommission(f, capital, price);
    MulNonneg(f.commissionRate, f.minCommission);
    if check >= f.minCommission {
      CalcSharesAffordableAboveMinimum(f, capital, price);
    } else if check > 0.0 {
      OverspendAfterAdjustment(f, capital, price, n);
    } else {
      NoCommissionRate(f, capital, price, n);
    }
  }

  /** Without a commission rate only the minimum commission can be overspent. */
  lemma NoCommissionRate(f: Fees, capital: real, price: real, n: int)
    requires f.Valid() && price > 0.0 && capital > 0.0
    requires n == CalcShares(f, capital, price) > 0
    requires EstimateCommission(f, capital, price) <= 0.0
    ensures BuyCost(f, price, n) <= capital + f.minCommission
  {
    CalcSharesBranch(f, capital, price, n);
    assert n == FirstEstimate(f, capital, price);
    MulPos(price, n as real);
    if f.commissionRate > 0.0 {
      MulPos(price * n as real, f.commissionRate);
    }
    BuyCostIsLargerOfTwoLines(f, price, n);
  }

  /** After the adjustment the shares cost at most the bound: the estimate is at least one hundred,
      so the capital is less than twice what the estimate spends. */
  lemma OverspendAfterAdjustment(f: Fees, capital: real, price: real, n: int)
    requires f.Valid() && price > 0.0 && capital > 0.0
    requires n == CalcShares(f, capital, price) > 0
    requires 0.0 < EstimateCommission(f, capital, price) < f.minCommission
    ensures BuyCost(f, price, n) <= capital + 2.0 * (1.0 + f.commissionRate) * f.minCommission
  {
    hide Hundreds, CalcShares, EstimateCommission, FirstEstimate;
    var check := EstimateCommission(f, capital, price);
    var amount := price * n as real;
    CalcSharesBranch(f, capital, price, n);
    AmountTimesNet(f, price, n);
    CapitalBelowTwiceEstimate(f, capital, price);
    CommissionAfterAdjustment(f, capital, amount, check);
    MulNonneg(f.commissionRate, f.minCommission);
  }

  lemma AmountTimesNet(f: Fees, price: real, n: int)
    ensures n as real * Net(f, price) == price * n as real * (1.0 + f.slippageRate)
    ensures BuyCost(f, price, n)
         == n as real * Net(f, price) + MaxR(price * n as real * f.commissionRate, f.minCommission)
  {
    assert n as real * Net(f, price) == price * n as real + price * n as real * f.slippageRate;
  }

  lemma CapitalBelowTwiceEstimate(f: Fees, capital: real, price: real)
    requires f.Valid() && price > 0.0 && capital > 0.0
    requires EstimateCommission(f, capital, price) > 0.0
    ensures f.commissionRate * capital <= 2.0 * EstimateCommission(f, capital, price) * (1.0 + f.BuyRates())
  {
    var x := FirstEstimate(f, capital, price);
    PositiveFactor(price, x as real, f.commissionRate);
    assert x >= 100;
    UnitsFit(2 * x, Gross(f, price), capital);
    var spend := 2.0 * x as real * Gross(f, price);
    assert capital <= spend;
    MulLe(capital, spend, f.commissionRate);
    assert spend * f.commissionRate
        == 2.0 * (price * x as real * f.commissionRate) * (1.0 + f.BuyRates());
  }

  lemma PositiveFactor(a: real, x: real, b: real)
    requires a > 0.0 && b >= 0.0 && a * x * b > 0.0
    ensures x > 0.0
  {
    if x <= 0.0 {
      MulNonneg(a, -x);
      MulNonneg(a * -x, b);
    }
  }

  lemma CommissionAfterAdjustment(f: Fees, capital: real, amount: real, check: real)
    requires f.Valid() && 0.0 < check < f.minCommission
    requires amount * (1.0 + f.slippageRate) <= capital - (f.minCommission - check)
    requires f.commissionRate * capital <= 2.0 * check * (1.0 + f.BuyRates())
    ensures amount * f.commissionRate <= 2.0 * (1.0 + f.commissionRate) * f.minCommission
  {
    var c, s, m := f.commissionRate, f.slippageRate, f.minCommission;
    ScaledCommission(c, s, m, capital, amount, check);
    ScaledBound(c, s, m, check);
    CancelFactor(amount * c, 2.0 * ((1.0 + c) * m), 1.0 + s);
  }

  lemma ScaledCommission(c: real, s: real, m: real, capital: real, amount: real, check: real)
    requires c >= 0.0 && check < m
    requires amount * (1.0 + s) <= capital - (m - check)
    requires c * capital <= 2.0 * check * (1.0 + (c + s))
    ensures amount * c * (1.0 + s) <= 2.0 * check * (1.0 + (c + s))
  {
    MulLe(amount * (1.0 + s), capital, c);
    assert amount * c * (1.0 + s) == amount * (1.0 + s) * c;
  }

  lemma ScaledBound(c: real, s: real, m: real, check: real)
    requires c >= 0.0 && s >= 0.0 && 0.0 <= check <= m
    ensures 2.0 * check * (1.0 + (c + s)) <= 2.0 * ((1.0 + c) * m) * (1.0 + s)
  {
    MulLe(check, m, 1.0 + (c + s));
    MulNonneg(m, c);
    MulNonneg(m * c, s);
    assert (1.0 + c) * m * (1.0 + s) == m * (1.0 + (c + s)) + m * c * s;
  }

  lemma CancelFactor(a: real, b: real, c: real)
    requires c > 0.0 && a * c <= b * c
    ensures a <= b
  {
    if a > b {
      MulPos(a - b, c);
    }
  }

  /** A sale never costs more than the minimum commission beyond its own proceeds. */
  lemma SellProceedsFloor(f: Fees, price: real, shares: int)
    requires f.Valid() && price > 0.0 && shares > 0
    requires f.commissionRate + f.stampDutyRate + f.slippageRate <= 1.0
    ensures SellProceeds(f, price, shares) >= -f.minCommission
  {
    var amount := price * shares as real;
    MulPos(price, shares as real);
    var rest := 1.0 - f.stampDutyRate - f.slippageRate;
    assert SellProceeds(f, price, shares) == amount * rest - MaxR(amount * f.commissionRate, f.minCommission);
    MulNonneg(amount, rest);
    MulNonneg(amount, rest - f.commissionRate);
    assert amount * (rest - f.commissionRate) == amount * rest - amount * f.commissionRate;
  }

  /** The two lines of a purchase in terms of the rates alone. */
  lemma BuyCostInRates(f: Fees, price: real, shares: int)
    ensures BuyCost(f, price, shares)
         == MaxR(shares as real * (price * (1.0 + f.commissionRate + f.slippageRate)),
                 shares as real * (price * (1.0 + f.slippageRate)) + f.minCommission)
  {
    var amount := price * shares as real;
    assert shares as real * (price * (1.0 + f.slippageRate)) == amount + amount * f.slippageRate;
    assert shares as real * (price * (1.0 + f.commissionRate + f.slippageRate))
        == amount + amount * f.slippageRate + amount * f.commissionRate;
  }

  /** The proceeds of a sale are the smaller of a proportional line and one that pays the minimum commission. */
  lemma SellProceedsIsSmallerOfTwoLines(f: Fees, price: real, shares: int)
    ensures SellProceeds(f, price, shares)
         == MinR(shares as real * (price * (1.0 - f.commissionRate - f.stampDutyRate - f.slippageRate)),
                 shares as real * (price * (1.0 - f.stampDutyRate - f.slippageRate)) - f.minCommission)
  {
    var amount := price * shares as real;
    var rest := 1.0 - f.stampDutyRate - f.slippageRate;
    assert shares as real * (price * rest) == amount - amount * f.stampDutyRate - amount * f.slippageRate;
    assert shares as real * (price * (rest - f.commissionRate))
        == amount - amount * f.stampDutyRate - amount * f.slippageRate - amount * f.commissionRate;
  }

  /** The fee schedule: what is charged on a traded amount. Only sales pay stamp duty. */
  function Charges(f: Fees, amount: real, sale: bool): real {
    MaxR(amount * f.commissionRate, f.minCommission) + amount * f.slippageRate
      + (if sale then amount * f.stampDutyRate else 0.0)
  }

  /** What a purchase costs beyond its amount, and what a sale brings in below it, is the fee schedule's. */
  lemma FeesAreCharged(f: Fees, price: real, shares: int)
    ensures BuyCost(f, price, shares) - price * shares as real == Charges(f, price * shares as real, false)
    ensures price * shares as real - SellProceeds(f, price, shares) == Charges(f, price * shares as real, true)
  {
  }

  /** Every order pays a fee of at least the minimum commission. */
  lemma FeesAtLeastMinimum(f: Fees, price: real, shares: int)
    requires f.Valid() && price > 0.0 && shares > 0
    ensures BuyCost(f, price, shares) >= price * shares as real + f.minCommission
    ensures SellProceeds(f, price, shares) <= price * shares as real - f.minCommission
  {
    MulPos(price, shares as real);
    MulNonneg(price * shares as real, f.slippageRate);
    MulNonneg(price * shares as real, f.stampDutyRate);
  }
}
