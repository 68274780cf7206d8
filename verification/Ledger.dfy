/** What every fill keeps: the shape of the portfolio, its agreement with the trade log, its value
    at the session's opening prices, and a floor under the cash. */
module Ledger {
  import opened Numbers
  import CostModel
  import opened EngineTypes
  import opened Execution

  // --- The shape of a portfolio -------------------------------------------------------------

  ghost predicate Distinct(s: seq<Code>) {
    forall i, j | 0 <= i < j < |s| :: s[i] != s[j]
  }

  /** Holdings are positive whole lots in at most maxPositions codes, every holding has a cost basis,
      and remembered closing prices are positive and belong to holdings. */
  ghost predicate WellFormed(r: Rules, p: Portfolio)
    requires r.Valid()
  {
    && Distinct(p.order)
    && (forall c :: c in p.order <==> c in p.holdings)
    && p.avgCosts.Keys == p.holdings.Keys
    && p.lastCloses.Keys <= p.holdings.Keys
    && (forall c | c in p.holdings :: p.holdings[c] > 0 && InLots(p.holdings[c], r.lotSize))
    && (forall c | c in p.lastCloses :: p.lastCloses[c] > 0.0)
    && |p.order| <= r.maxPositions
  }

  lemma {:induction false} WithoutProps(s: seq<Code>, c: Code)
    requires Distinct(s)
    ensures Distinct(Without(s, c))
    ensures forall x :: x in Without(s, c) <==> x in s && x != c
    ensures |Without(s, c)| <= |s|
  {
    if s != [] {
      var k := |s| - 1;
      assert s == s[..k] + [s[k]] && s[k] !in s[..k];
      WithoutProps(s[..k], c);
    }
  }

  lemma SellKeepsShape(r: Rules, ctx: Context, b: Book, o: SellOrder)
    requires r.Valid() && WellFormed(r, b.p)
    ensures WellFormed(r, SellOne(r, ctx, b, o).p)
  {
    hide InLots, ExecutableShares, CostModel.SellProceeds;
    var n := SellFill(r, ctx, b.p, o.code, Requested(b.p, o));
    if n > 0 {
      var held := Held(b.p, o.code);
      ExecutableSharesProps(r, o.code, MinI(Requested(b.p, o), held), ctx.bar.volumes);
      MultiplesClosed(held, n, r.lotSize);
      WithoutProps(b.p.order, o.code);
    }
  }

  lemma BuyKeepsShape(r: Rules, ctx: Context, strategy: string, equity: real, b: Book, s: Signal, w: real)
    requires r.Valid() && WellFormed(r, b.p)
    ensures WellFormed(r, BuyOne(r, ctx, strategy, equity, b, s, w).p)
  {
    hide InLots, BuyFill, CostModel.BuyCost;
    BuyFillProps(r, ctx, b.p, s.code, equity, w);
    var n := BuyFill(r, ctx, b.p, s.code, equity, w);
    if n > 0 {
      OneLot(r.lotSize);
      MultiplesClosed(Held(b.p, s.code), n, r.lotSize);
    }
  }

  // --- The log accounts for the portfolio ---------------------------------------------------

  function CashFlow(t: Trade): real {
    if t.action.Sell? then t.amount - t.cost else -(t.amount + t.cost)
  }

  function ReplayCash(initial: real, log: seq<Trade>): real {
    if log == [] then initial
    else ReplayCash(initial, log[..|log| - 1]) + CashFlow(log[|log| - 1])
  }

  function ReplayShares(log: seq<Trade>, c: Code): int {
    if log == [] then 0
    else
      var t, rest := log[|log| - 1], ReplayShares(log[..|log| - 1], c);
      if t.code != c then rest
      else if t.action.Sell? then rest - t.shares
      else rest + t.shares
  }

  /** The average cost of the position that the log leaves open: purchases blend in what they paid,
      sales leave it alone. */
  function ReplayAvgCost(log: seq<Trade>, c: Code): real {
    if log == [] then 0.0
    else
      var t, before := log[|log| - 1], log[..|log| - 1];
      var shares, avg := ReplayShares(before, c), ReplayAvgCost(before, c);
      if t.code != c || t.action.Sell? || shares + t.shares == 0 then avg
      else Blend(avg, shares, t.amount + t.cost, shares + t.shares)
  }

  lemma ReplayAppend(initial: real, log: seq<Trade>, t: Trade)
    ensures ReplayCash(initial, log + [t]) == ReplayCash(initial, log) + CashFlow(t)
    ensures forall c :: ReplayShares(log + [t], c)
                     == ReplayShares(log, c) +
                         (if t.code != c then 0 else if t.action.Sell? then -t.shares else t.shares)
    ensures forall c :: t.code != c || t.action.Sell? ==> ReplayAvgCost(log + [t], c) == ReplayAvgCost(log, c)
    ensures var c := t.code;
            !t.action.Sell? && ReplayShares(log, c) + t.shares != 0 ==>
              ReplayAvgCost(log + [t], c)
              == Blend(ReplayAvgCost(log, c), ReplayShares(log, c), t.amount + t.cost, ReplayShares(log, c) + t.shares)
    ensures TotalFees(log + [t]) == TotalFees(log) + t.cost
    ensures SellCount(log + [t]) == SellCount(log) + (if t.action.Sell? then 1 else 0)
  {
    assert (log + [t])[..|log|] == log;
  }

  /** Replaying the log from the initial capital gives exactly this portfolio. */
  ghost predicate Accounts(initial: real, b: Book) {
    && b.p.cash == ReplayCash(initial, b.log)
    && (forall c :: Held(b.p, c) == ReplayShares(b.log, c))
    && (forall c | c in b.p.avgCosts :: b.p.avgCosts[c] == ReplayAvgCost(b.log, c))
  }

  lemma SellKeepsAccounts(r: Rules, ctx: Context, initial: real, b: Book, o: SellOrder)
    requires r.Valid() && WellFormed(r, b.p) && Accounts(initial, b)
    ensures Accounts(initial, SellOne(r, ctx, b, o))
  {
    hide InLots, ExecutableShares, CostModel.SellProceeds, Amount, Blend, ReplayCash, ReplayShares, ReplayAvgCost;
    var n := SellFill(r, ctx, b.p, o.code, Requested(b.p, o));
    if n > 0 {
      ExecutableSharesProps(r, o.code, MinI(Requested(b.p, o), Held(b.p, o.code)), ctx.bar.volumes);
      ReplayAppend(initial, b.log, SellTrade(r, ctx, o, n));
    }
  }

  lemma BuyKeepsAccounts(r: Rules, ctx: Context, initial: real, strategy: string, equity: real,
                         b: Book, s: Signal, w: real)
    requires r.Valid() && WellFormed(r, b.p) && Accounts(initial, b)
    ensures Accounts(initial, BuyOne(r, ctx, strategy, equity, b, s, w))
  {
    hide InLots, BuyFill, CostModel.BuyCost, Amount, Blend, ReplayCash, ReplayShares, ReplayAvgCost;
    BuyFillProps(r, ctx, b.p, s.code, equity, w);
    var n := BuyFill(r, ctx, b.p, s.code, equity, w);
    if n > 0 {
      ReplayAppend(initial, b.log, BuyTrade(r, ctx, s, strategy, n));
      BlendFromNothing(Quote(b.p.avgCosts, s.code), ReplayAvgCost(b.log, s.code),
                       CostModel.BuyCost(r.fees, ctx.bar.opens[s.code], n), n);
    }
  }

  /** The cost basis of an empty position does not matter. */
  lemma BlendFromNothing(a: real, b: real, total: real, n: int)
    requires n != 0
    ensures Blend(a, 0, total, n) == Blend(b, 0, total, n)
  {
  }

  // --- What the open positions have cost ------------------------------------------------------

  /** The cost of the open position in c: a purchase adds what it paid, a sale takes away the cost of its part. */
  function CostBasis(log: seq<Trade>, c: Code): real {
    if log == [] then 0.0
    else
      var t, before := log[|log| - 1], log[..|log| - 1];
      var basis, shares := CostBasis(before, c), ReplayShares(before, c);
      if t.code != c then basis
      else if !t.action.Sell? then basis + t.amount + t.cost
      else if shares == 0 then basis
      else PartOf(basis, shares - t.shares, shares)
  }

  function PartOf(basis: real, part: int, whole: int): real
    requires whole != 0
  {
    basis * part as real / whole as real
  }

  /** Average cost times shares is the cost of the position, for every code. */
  ghost predicate CostsKept(b: Book) {
    forall c :: Amount(Quote(b.p.avgCosts, c), Held(b.p, c)) == CostBasis(b.log, c)
  }

  lemma CostBasisAppend(log: seq<Trade>, t: Trade, c: Code)
    ensures CostBasis(log + [t], c)
         == if t.code != c then CostBasis(log, c)
            else if !t.action.Sell? then CostBasis(log, c) + t.amount + t.cost
            else if ReplayShares(log, c) == 0 then CostBasis(log, c)
            else PartOf(CostBasis(log, c), ReplayShares(log, c) - t.shares, ReplayShares(log, c))
  {
    assert (log + [t])[..|log|] == log;
  }

  lemma PartOfAmount(avg: real, part: int, whole: int)
    requires whole > 0
    ensures PartOf(Amount(avg, whole), part, whole) == Amount(avg, part)
    ensures Amount(avg, 0) == 0.0
  {
    DivMul(avg * part as real * whole as real, whole as real);
    assert Amount(avg, whole) * part as real == avg * part as real * whole as real;
    CancelDivision(avg * part as real, whole as real);
  }

  lemma CancelDivision(x: real, y: real)
    requires y != 0.0
    ensures x * y / y == x
  {
  }

  /** Blending adds what a purchase paid to the cost of the position. */
  lemma BlendAddsCost(avg: real, held: int, total: real, shares: int)
    requires shares != 0
    ensures Amount(Blend(avg, held, total, shares), shares) == Amount(avg, held) + total
  {
    DivMul(avg * held as real + total, shares as real);
  }

  lemma SellKeepsCosts(r: Rules, ctx: Context, initial: real, b: Book, o: SellOrder)
    requires r.Valid() && WellFormed(r, b.p) && Accounts(initial, b) && CostsKept(b)
    ensures CostsKept(SellOne(r, ctx, b, o))
  {
    hide InLots, ExecutableShares, CostModel.SellProceeds, Amount, PartOf, ReplayShares, ReplayCash, ReplayAvgCost,
         CostBasis;
    var n, held := SellFill(r, ctx, b.p, o.code, Requested(b.p, o)), Held(b.p, o.code);
    if n > 0 {
      ExecutableSharesProps(r, o.code, MinI(Requested(b.p, o), held), ctx.bar.volumes);
      var b', avg := SellOne(r, ctx, b, o), Quote(b.p.avgCosts, o.code);
      PartOfAmount(avg, held - n, held);
      PartOfAmount(0.0, 0, 1);
      forall c
        ensures Amount(Quote(b'.p.avgCosts, c), Held(b'.p, c)) == CostBasis(b'.log, c)
      {
        CostBasisAppend(b.log, SellTrade(r, ctx, o, n), c);
      }
    }
  }

  lemma BuyKeepsCosts(r: Rules, ctx: Context, initial: real, strategy: string, equity: real,
                      b: Book, s: Signal, w: real)
    requires r.Valid() && WellFormed(r, b.p) && Accounts(initial, b) && CostsKept(b)
    ensures CostsKept(BuyOne(r, ctx, strategy, equity, b, s, w))
  {
    hide InLots, BuyFill, CostModel.BuyCost, Amount, Blend, ReplayShares, ReplayCash, ReplayAvgCost, CostBasis;
    BuyFillProps(r, ctx, b.p, s.code, equity, w);
    var n, held := BuyFill(r, ctx, b.p, s.code, equity, w), Held(b.p, s.code);
    if n > 0 {
      var b', total := BuyOne(r, ctx, strategy, equity, b, s, w), CostModel.BuyCost(r.fees, ctx.bar.opens[s.code], n);
      BlendAddsCost(Quote(b.p.avgCosts, s.code), held, total, held + n);
      forall c
        ensures Amount(Quote(b'.p.avgCosts, c), Held(b'.p, c)) == CostBasis(b'.log, c)
      {
        CostBasisAppend(b.log, BuyTrade(r, ctx, s, strategy, n), c);
      }
    }
  }

  // --- Positions in the order in which they were opened -----------------------------------------

  /** The purchase that opened the position in c last, -1 if there was none. */
  function LastOpening(log: seq<Trade>, c: Code): (k: int)
    ensures -1 <= k < |log|
  {
    if log == [] then -1
    else
      var t, before := log[|log| - 1], log[..|log| - 1];
      if t.code == c && t.action.Buy? && ReplayShares(before, c) == 0 then |log| - 1 else LastOpening(before, c)
  }

  ghost predicate OpenedInOrder(log: seq<Trade>, codes: seq<Code>) {
    forall i, j | 0 <= i < j < |codes| :: LastOpening(log, codes[i]) < LastOpening(log, codes[j])
  }

  lemma LastOpeningAppend(log: seq<Trade>, t: Trade, c: Code)
    ensures LastOpening(log + [t], c)
         == if t.code == c && t.action.Buy? && ReplayShares(log, c) == 0 then |log| else LastOpening(log, c)
  {
    assert (log + [t])[..|log|] == log;
  }

  lemma {:induction false} WithoutKeepsOrder(log: seq<Trade>, s: seq<Code>, c: Code)
    requires Distinct(s) && OpenedInOrder(log, s)
    ensures OpenedInOrder(log, Without(s, c))
  {
    hide LastOpening;
    if s != [] {
      var k := |s| - 1;
      WithoutKeepsOrder(log, s[..k], c);
      WithoutProps(s[..k], c);
      var rest := Without(s[..k], c);
      assert forall i | 0 <= i < |rest| :: rest[i] in rest;
    }
  }

  lemma SellKeepsOrder(r: Rules, ctx: Context, initial: real, b: Book, o: SellOrder)
    requires r.Valid() && WellFormed(r, b.p) && Accounts(initial, b) && OpenedInOrder(b.log, b.p.order)
    ensures var b' := SellOne(r, ctx, b, o); OpenedInOrder(b'.log, b'.p.order)
  {
    hide InLots, ExecutableShares, CostModel.SellProceeds, Amount, ReplayShares, ReplayCash, ReplayAvgCost, LastOpening;
    var n := SellFill(r, ctx, b.p, o.code, Requested(b.p, o));
    if n > 0 {
      WithoutKeepsOrder(b.log, b.p.order, o.code);
      forall c { LastOpeningAppend(b.log, SellTrade(r, ctx, o, n), c); }
    }
  }

  lemma BuyKeepsOrder(r: Rules, ctx: Context, initial: real, strategy: string, equity: real,
                      b: Book, s: Signal, w: real)
    requires r.Valid() && WellFormed(r, b.p) && Accounts(initial, b) && OpenedInOrder(b.log, b.p.order)
    ensures var b' := BuyOne(r, ctx, strategy, equity, b, s, w); OpenedInOrder(b'.log, b'.p.order)
  {
    hide InLots, BuyFill, CostModel.BuyCost, Amount, Blend, ReplayShares, ReplayCash, ReplayAvgCost, LastOpening;
    BuyFillProps(r, ctx, b.p, s.code, equity, w);
    var n := BuyFill(r, ctx, b.p, s.code, equity, w);
    if n > 0 {
      forall c { LastOpeningAppend(b.log, BuyTrade(r, ctx, s, strategy, n), c); }
      assert forall i | 0 <= i < |b.p.order| :: b.p.order[i] in b.p.order;
    }
  }

  // --- Value at given prices ----------------------------------------------------------------

  /** The worth of the holdings listed in `order`, a missing price counting as nothing. */
  function Worth(order: seq<Code>, p: Portfolio, prices: map<Code, real>): real {
    if order == [] then 0.0
    else
      var k := |order| - 1;
      Worth(order[..k], p, prices) + Amount(Quote(prices, order[k]), Held(p, order[k]))
  }

  function ValueAt(p: Portfolio, prices: map<Code, real>): real {
    p.cash + Worth(p.order, p, prices)
  }

  lemma {:induction false} WorthSame(order: seq<Code>, p: Portfolio, q: Portfolio, prices: map<Code, real>)
    requires forall c | c in order :: Held(p, c) == Held(q, c)
    ensures Worth(order, p, prices) == Worth(order, q, prices)
  {
    hide Amount;
    if order != [] {
      WorthSame(order[..|order| - 1], p, q, prices);
    }
  }

  lemma WorthAppend(order: seq<Code>, c: Code, p: Portfolio, prices: map<Code, real>)
    ensures Worth(order + [c], p, prices) == Worth(order, p, prices) + Amount(Quote(prices, c), Held(p, c))
  {
    assert (order + [c])[..|order|] == order;
  }

  /** Changing one listed holding changes the worth by that holding's difference. */
  lemma {:induction false} WorthUpdate(order: seq<Code>, p: Portfolio, q: Portfolio, c: Code,
                                       prices: map<Code, real>)
    requires Distinct(order) && c in order
    requires forall x | x in order && x != c :: Held(p, x) == Held(q, x)
    ensures Worth(order, q, prices)
         == Worth(order, p, prices) + Amount(Quote(prices, c), Held(q, c) - Held(p, c))
  {
    hide Amount;
    var k := |order| - 1;
    var front := order[..k];
    if order[k] == c {
      WorthSame(front, p, q, prices);
      AmountSpread(Quote(prices, c), Held(p, c), Held(q, c));
    } else {
      WorthUpdate(front, p, q, c, prices);
    }
  }

  lemma {:induction false} WorthWithout(order: seq<Code>, p: Portfolio, c: Code, prices: map<Code, real>)
    requires Distinct(order) && c in order
    ensures Worth(Without(order, c), p, prices) == Worth(order, p, prices) - Amount(Quote(prices, c), Held(p, c))
  {
    hide Amount;
    var k := |order| - 1;
    var front := order[..k];
    if order[k] != c {
      WorthWithout(front, p, c, prices);
      WorthAppend(Without(front, c), order[k], p, prices);
    }
  }

  lemma SellMovesWorth(r: Rules, ctx: Context, p: Portfolio, c: Code, n: int, prices: map<Code, real>)
    requires r.Valid() && WellFormed(r, p) && c in p.holdings && c in ctx.bar.opens && 0 < n <= p.holdings[c]
    ensures var q := AfterSell(r, ctx, p, c, n);
            Worth(q.order, q, prices) == Worth(p.order, p, prices) - Amount(Quote(prices, c), n)
  {
    hide CostModel.SellProceeds, InLots, Amount, Worth;
    AmountSpread(Quote(prices, c), 0, n);
    var q := AfterSell(r, ctx, p, c, n);
    if n < p.holdings[c] {
      WorthUpdate(p.order, p, q, c, prices);
    } else {
      WithoutProps(p.order, c);
      WorthSame(q.order, p, q, prices);
      WorthWithout(p.order, p, c, prices);
    }
  }

  lemma BuyMovesWorth(r: Rules, ctx: Context, p: Portfolio, c: Code, n: int, prices: map<Code, real>)
    requires r.Valid() && WellFormed(r, p) && c in ctx.bar.opens && n > 0
    ensures var q := AfterBuy(r, ctx, p, c, n);
            Worth(q.order, q, prices) == Worth(p.order, p, prices) + Amount(Quote(prices, c), n)
  {
    hide CostModel.BuyCost, InLots, Amount, Worth, Blend;
    var q := AfterBuy(r, ctx, p, c, n);
    if c in p.holdings {
      WorthUpdate(p.order, p, q, c, prices);
    } else {
      WorthSame(p.order, p, q, prices);
      WorthAppend(p.order, c, q, prices);
    }
  }

  function TotalFees(log: seq<Trade>): real {
    if log == [] then 0.0 else TotalFees(log[..|log| - 1]) + log[|log| - 1].cost
  }

  /** A fill at the opening price turns cash into shares or back, and only its fee is lost. */
  lemma SellCostsItsFee(r: Rules, ctx: Context, b: Book, o: SellOrder)
    requires r.Valid() && WellFormed(r, b.p)
    ensures var b' := SellOne(r, ctx, b, o);
            ValueAt(b'.p, ctx.bar.opens) + TotalFees(b'.log) == ValueAt(b.p, ctx.bar.opens) + TotalFees(b.log)
  {
    hide InLots, ExecutableShares, CostModel.SellProceeds, Worth, Amount, Without, TotalFees;
    var n := SellFill(r, ctx, b.p, o.code, Requested(b.p, o));
    if n > 0 {
      ExecutableSharesProps(r, o.code, MinI(Requested(b.p, o), Held(b.p, o.code)), ctx.bar.volumes);
      ReplayAppend(0.0, b.log, SellTrade(r, ctx, o, n));
      SellMovesWorth(r, ctx, b.p, o.code, n, ctx.bar.opens);
    }
  }

  lemma BuyCostsItsFee(r: Rules, ctx: Context, strategy: string, equity: real, b: Book, s: Signal, w: real)
    requires r.Valid() && WellFormed(r, b.p)
    ensures var b' := BuyOne(r, ctx, strategy, equity, b, s, w);
            ValueAt(b'.p, ctx.bar.opens) + TotalFees(b'.log) == ValueAt(b.p, ctx.bar.opens) + TotalFees(b.log)
  {
    hide InLots, BuyFill, CostModel.BuyCost, Worth, Amount, Blend, TotalFees;
    BuyFillProps(r, ctx, b.p, s.code, equity, w);
    var n := BuyFill(r, ctx, b.p, s.code, equity, w);
    if n > 0 {
      ReplayAppend(0.0, b.log, BuyTrade(r, ctx, s, strategy, n));
      BuyMovesWorth(r, ctx, b.p, s.code, n, ctx.bar.opens);
    }
  }

  // --- A floor under the cash ---------------------------------------------------------------

  function SellCount(log: seq<Trade>): nat {
    if log == [] then 0
    else SellCount(log[..|log| - 1]) + (if log[|log| - 1].action.Sell? then 1 else 0)
  }

  ghost predicate SellsCoverFees(log: seq<Trade>) {
    forall i | 0 <= i < |log| :: log[i].action.Sell? ==> log[i].cost <= log[i].amount
  }

  /** Only the minimum commissions of sales can take the cash below zero. */
  ghost predicate CashFloor(r: Rules, b: Book) {
    && b.p.cash >= -(SellCount(b.log) as real * r.fees.minCommission)
    && (SellsCoverFees(b.log) ==> b.p.cash >= 0.0)
  }

  ghost predicate RatesWithinOne(r: Rules) {
    r.fees.commissionRate + r.fees.stampDutyRate + r.fees.slippageRate <= 1.0
  }

  lemma SellKeepsFloor(r: Rules, ctx: Context, b: Book, o: SellOrder)
    requires r.Valid() && RatesWithinOne(r) && CashFloor(r, b)
    ensures CashFloor(r, SellOne(r, ctx, b, o))
  {
    hide InLots, ExecutableShares, CostModel.SellProceeds;
    var n := SellFill(r, ctx, b.p, o.code, Requested(b.p, o));
    if n > 0 {
      var b' := SellOne(r, ctx, b, o);
      assert b'.log[..|b'.log| - 1] == b.log;
      CostModel.SellProceedsFloor(r.fees, ctx.bar.opens[o.code], n);
      OneMore(SellCount(b.log), r.fees.minCommission);
      assert b'.log[|b.log|].action.Sell?;
      assert SellsCoverFees(b'.log) ==> SellsCoverFees(b.log) by {
        assert forall i | 0 <= i < |b.log| :: b'.log[i] == b.log[i];
      }
    }
  }

  lemma OneMore(k: nat, fee: real)
    ensures (k + 1) as real * fee == k as real * fee + fee
  {
  }

  lemma BuyKeepsFloor(r: Rules, ctx: Context, strategy: string, equity: real, b: Book, s: Signal, w: real)
    requires r.Valid() && CashFloor(r, b)
    ensures CashFloor(r, BuyOne(r, ctx, strategy, equity, b, s, w))
  {
    hide InLots, BuyFill, CostModel.BuyCost;
    BuyFillProps(r, ctx, b.p, s.code, equity, w);
    var n := BuyFill(r, ctx, b.p, s.code, equity, w);
    if n > 0 {
      MulNonneg(SellCount(b.log) as real, r.fees.minCommission);
      var b' := BuyOne(r, ctx, strategy, equity, b, s, w);
      assert b'.log[..|b'.log| - 1] == b.log;
      assert b'.p.cash >= 0.0;
    }
  }
}
