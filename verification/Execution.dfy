/** Single fills: how many shares an order can trade, and what a fill does to the book. */
module Execution {
  import opened Wrappers
  import opened Numbers
  import opened CostModel
  import opened EngineTypes

  function ExecutableShares(r: Rules, c: Code, requested: int, volumes: Option<map<Code, real>>): int
    requires r.Valid()
  {
    if requested <= 0 then 0
    else
      var whole := WholeLots(requested, r.lotSize);
      if whole <= 0 then 0
      else if volumes.Some? && !ValidPrice(volumes.value, c) then 0
      else if r.participation.None? then whole
      else if volumes.None? then 0
      else MinI(whole, VolumeCap(volumes.value[c], r.participation.value, r.lotSize))
  }

  function VolumeCap(volume: real, participation: real, lot: int): int
    requires lot > 0
  {
    MaxI(WholeLots(Trunc(volume * participation), lot), 0)
  }

  lemma VolumeCapProps(volume: real, participation: real, lot: int)
    requires lot > 0 && volume > 0.0 && participation > 0.0
    ensures var cap := VolumeCap(volume, participation, lot);
            cap >= 0 && InLots(cap, lot) && cap as real <= volume * participation
  {
    MulPos(volume, participation);
    WholeLotsProps(Trunc(volume * participation), lot);
    OneLot(lot);
  }

  /** A fill of n shares keeps within the configured fraction of the session's volume. */
  predicate WithinParticipation(r: Rules, c: Code, n: int, volumes: Option<map<Code, real>>) {
    && (volumes.Some? ==> ValidPrice(volumes.value, c))
    && (r.participation.Some? ==>
          volumes.Some? && ValidPrice(volumes.value, c)
          && n as real <= volumes.value[c] * r.participation.value)
  }

  /** Fills are whole lots, within the request and the participation cap. */
  lemma ExecutableSharesProps(r: Rules, c: Code, requested: int, volumes: Option<map<Code, real>>)
    requires r.Valid()
    ensures var n := ExecutableShares(r, c, requested, volumes);
            && 0 <= n && InLots(n, r.lotSize)
            && (n > 0 ==> n <= requested && WithinParticipation(r, c, n, volumes))
  {
    hide WholeLots, VolumeCap, InLots;
    WholeLotsProps(requested, r.lotSize);
    OneLot(r.lotSize);
    if r.participation.Some? && volumes.Some? && ValidPrice(volumes.value, c) {
      VolumeCapProps(volumes.value[c], r.participation.value, r.lotSize);
    }
  }

  /** No whole number of lots that respects the request and the cap is larger than the fill. */
  lemma ExecutableSharesIsMaximal(r: Rules, c: Code, requested: int, volumes: Option<map<Code, real>>, m: int)
    requires r.Valid() && 0 < m <= requested && InLots(m, r.lotSize) && WithinParticipation(r, c, m, volumes)
    ensures m <= ExecutableShares(r, c, requested, volumes)
  {
    hide WholeLots, VolumeCap, InLots;
    WholeLotsIsMaximal(requested, r.lotSize, m);
    if r.participation.Some? {
      VolumeCapIsMaximal(volumes.value[c], r.participation.value, r.lotSize, m);
    }
  }

  /** A request for whole lots within the cap fills completely. */
  lemma CompleteFill(r: Rules, c: Code, requested: int, volumes: Option<map<Code, real>>)
    requires r.Valid() && requested >= 0 && InLots(requested, r.lotSize)
    requires requested > 0 ==> WithinParticipation(r, c, requested, volumes)
    ensures ExecutableShares(r, c, requested, volumes) == requested
  {
    hide InLots, WithinParticipation, ExecutableShares;
    ExecutableSharesProps(r, c, requested, volumes);
    if requested > 0 {
      ExecutableSharesIsMaximal(r, c, requested, volumes, requested);
    }
  }

  lemma VolumeCapIsMaximal(volume: real, participation: real, lot: int, m: int)
    requires lot > 0 && m > 0 && InLots(m, lot) && m as real <= volume * participation
    ensures m <= VolumeCap(volume, participation, lot)
  {
    hide WholeLots, InLots;
    WholeLotsIsMaximal(Trunc(volume * participation), lot, m);
  }

  // --- Selling ----------------------------------------------------------------------------

  /** The dictionary order after popping c. */
  function Without(s: seq<Code>, c: Code): seq<Code> {
    if s == [] then []
    else
      var k := |s| - 1;
      if s[k] == c then s[..k] else Without(s[..k], c) + [s[k]]
  }

  function SellFill(r: Rules, ctx: Context, p: Portfolio, c: Code, requested: int): int
    requires r.Valid()
  {
    if Held(p, c) <= 0 || !ValidPrice(ctx.bar.opens, c) then 0
    else ExecutableShares(r, c, MinI(requested, Held(p, c)), ctx.bar.volumes)
  }

  /** A sale is whole lots out of the request and the holding, within the participation cap, and no larger number
      of shares is all that. */
  lemma SellFillIsMaximal(r: Rules, ctx: Context, p: Portfolio, c: Code, requested: int)
    requires r.Valid()
    ensures var n := SellFill(r, ctx, p, c, requested);
            && 0 <= n && InLots(n, r.lotSize)
            && (n > 0 ==> n <= requested && n <= Held(p, c) && ValidPrice(ctx.bar.opens, c)
                          && WithinParticipation(r, c, n, ctx.bar.volumes))
            && forall m | 0 < m <= requested && m <= Held(p, c) && InLots(m, r.lotSize)
                          && ValidPrice(ctx.bar.opens, c) && WithinParticipation(r, c, m, ctx.bar.volumes) :: m <= n
  {
    hide InLots, ExecutableShares, WithinParticipation;
    OneLot(r.lotSize);
    var most := MinI(requested, Held(p, c));
    ExecutableSharesProps(r, c, most, ctx.bar.volumes);
    forall m | 0 < m <= most && InLots(m, r.lotSize) && WithinParticipation(r, c, m, ctx.bar.volumes)
      ensures m <= ExecutableShares(r, c, most, ctx.bar.volumes)
    {
      ExecutableSharesIsMaximal(r, c, most, ctx.bar.volumes, m);
    }
  }

  function AfterSell(r: Rules, ctx: Context, p: Portfolio, c: Code, n: int): Portfolio
    requires c in p.holdings && c in ctx.bar.opens
  {
    var cash := p.cash + SellProceeds(r.fees, ctx.bar.opens[c], n);
    var remaining := p.holdings[c] - n;
    if remaining > 0 then p.(cash := cash, holdings := p.holdings[c := remaining])
    else Portfolio(cash, p.holdings - {c}, Without(p.order, c), p.avgCosts - {c}, p.lastCloses - {c})
  }

  function SellTrade(r: Rules, ctx: Context, o: SellOrder, n: int): Trade
    requires o.code in ctx.bar.opens
  {
    var price := ctx.bar.opens[o.code];
    var amount := Amount(price, n);
    Trade(ctx.date, ctx.signalDate, o.code, Sell, price, n, amount,
          amount - SellProceeds(r.fees, price, n), o.strategy, o.score)
  }

  function Requested(p: Portfolio, o: SellOrder): int {
    if o.requested.Some? then o.requested.value else Held(p, o.code)
  }

  function SellOne(r: Rules, ctx: Context, b: Book, o: SellOrder): Book
    requires r.Valid()
  {
    var n := SellFill(r, ctx, b.p, o.code, Requested(b.p, o));
    if n <= 0 then b
    else Book(AfterSell(r, ctx, b.p, o.code, n), b.log + [SellTrade(r, ctx, o, n)])
  }

  function SellMany(r: Rules, ctx: Context, b: Book, os: seq<SellOrder>): Book
    requires r.Valid()
  {
    if os == [] then b
    else SellOne(r, ctx, SellMany(r, ctx, b, os[..|os| - 1]), os[|os| - 1])
  }

  // --- Buying -----------------------------------------------------------------------------

  /** The affordability loop: drop one lot at a time while the order costs more than the cash. */
  function Shrink(f: Fees, price: real, cash: real, n: int, lot: int): int
    requires lot > 0
    decreases n
  {
    if n > 0 && BuyCost(f, price, n) > cash then Shrink(f, price, cash, n - lot, lot) else n
  }

  /** The loop ends at the largest whole number of lots, within the request, whose cost fits. */
  lemma {:induction false} ShrinkIsMaximal(f: Fees, price: real, cash: real, n: int, lot: int)
    requires lot > 0 && n >= 0 && InLots(n, lot)
    ensures var k := Shrink(f, price, cash, n, lot);
            && 0 <= k <= n && InLots(k, lot)
            && (k > 0 ==> BuyCost(f, price, k) <= cash)
            && forall m :: k < m <= n && InLots(m, lot) ==> BuyCost(f, price, m) > cash
    decreases n
  {
    if n > 0 && BuyCost(f, price, n) > cash {
      OneLot(lot);
      MultiplesApart(0, n, lot);
      MultiplesClosed(n, lot, lot);
      ShrinkIsMaximal(f, price, cash, n - lot, lot);
      forall m | n - lot < m <= n && InLots(m, lot)
        ensures m == n
      {
        if m < n {
          MultiplesApart(m, n, lot);
        }
      }
    }
  }

  function Allocated(p: Portfolio, c: Code, price: real, equity: real, weight: real): real {
    MinR(p.cash, MaxR(Portion(equity, weight) - Amount(price, Held(p, c)), 0.0))
  }

  /** The number of shares a BUY signal fills, 0 when it is skipped. */
  function BuyFill(r: Rules, ctx: Context, p: Portfolio, c: Code, equity: real, weight: real): int
    requires r.Valid()
  {
    if Held(p, c) <= 0 && |p.order| >= r.maxPositions then 0
    else if !ValidPrice(ctx.bar.opens, c) then 0
    else
      var price := ctx.bar.opens[c];
      var requested := CalcShares(r.fees, Allocated(p, c, price, equity, weight), price);
      var n := ExecutableShares(r, c, requested, ctx.bar.volumes);
      if n <= 0 then 0 else Shrink(r.fees, price, p.cash, n, r.lotSize)
  }

  function AfterBuy(r: Rules, ctx: Context, p: Portfolio, c: Code, n: int): Portfolio
    requires c in ctx.bar.opens && n > 0
  {
    var total := BuyCost(r.fees, ctx.bar.opens[c], n);
    var shares := Held(p, c) + n;
    Portfolio(p.cash - total,
              p.holdings[c := shares],
              if c in p.holdings then p.order else p.order + [c],
              p.avgCosts[c := Blend(Quote(p.avgCosts, c), Held(p, c), total, shares)],
              p.lastCloses)
  }

  /** The average cost after adding a purchase to an old position. */
  function Blend(avg: real, held: int, total: real, shares: int): real
    requires shares != 0
  {
    (avg * held as real + total) / shares as real
  }

  function BuyTrade(r: Rules, ctx: Context, s: Signal, strategy: string, n: int): Trade
    requires s.code in ctx.bar.opens
  {
    var price := ctx.bar.opens[s.code];
    var amount := Amount(price, n);
    Trade(ctx.date, ctx.signalDate, s.code, Buy, price, n, amount,
          BuyCost(r.fees, price, n) - amount, strategy, s.score)
  }

  function BuyOne(r: Rules, ctx: Context, strategy: string, equity: real, b: Book, s: Signal, weight: real): Book
    requires r.Valid()
  {
    var n := BuyFill(r, ctx, b.p, s.code, equity, weight);
    if n <= 0 then b
    else Book(AfterBuy(r, ctx, b.p, s.code, n), b.log + [BuyTrade(r, ctx, s, strategy, n)])
  }

  function BuyMany(r: Rules, ctx: Context, strategy: string, equity: real, b: Book,
                   ss: seq<Signal>, ws: seq<real>): Book
    requires r.Valid() && |ss| == |ws|
  {
    if ss == [] then b
    else
      var k := |ss| - 1;
      BuyOne(r, ctx, strategy, equity, BuyMany(r, ctx, strategy, equity, b, ss[..k], ws[..k]), ss[k], ws[k])
  }

  lemma AllocatedCeiling(p: Portfolio, c: Code, price: real, equity: real, weight: real, k: int)
    requires 0.0 < Allocated(p, c, price, equity, weight)
    requires Amount(price, k) <= Allocated(p, c, price, equity, weight)
    ensures Amount(price, Held(p, c) + k) <= Portion(equity, weight)
  {
    hide Amount, Portion;
    AmountSpread(price, Held(p, c), Held(p, c) + k);
  }

  /** A fill is whole lots, affordable, within the participation cap and within the allocation. */
  lemma BuyFillProps(r: Rules, ctx: Context, p: Portfolio, c: Code, equity: real, weight: real)
    requires r.Valid()
    ensures var n := BuyFill(r, ctx, p, c, equity, weight);
            && 0 <= n && InLots(n, r.lotSize)
            && (n > 0 ==>
                  && ValidPrice(ctx.bar.opens, c)
                  && (Held(p, c) > 0 || |p.order| < r.maxPositions)
                  && WithinParticipation(r, c, n, ctx.bar.volumes)
                  && BuyCost(r.fees, ctx.bar.opens[c], n) <= p.cash
                  && Amount(ctx.bar.opens[c], Held(p, c) + n) <= Portion(equity, weight))
  {
    hide BuyCost, CalcShares, InLots, ExecutableShares, Shrink, Allocated, Amount, Portion;
    OneLot(r.lotSize);
    if (Held(p, c) > 0 || |p.order| < r.maxPositions) && ValidPrice(ctx.bar.opens, c) {
      var price := ctx.bar.opens[c];
      var room := Allocated(p, c, price, equity, weight);
      var requested := CalcShares(r.fees, room, price);
      ExecutableSharesProps(r, c, requested, ctx.bar.volumes);
      var n := ExecutableShares(r, c, requested, ctx.bar.volumes);
      if n > 0 {
        ShrinkIsMaximal(r.fees, price, p.cash, n, r.lotSize);
        var k := Shrink(r.fees, price, p.cash, n, r.lotSize);
        if k > 0 {
          FillWithinCapital(r.fees, room, price, k);
          AllocatedCeiling(p, c, price, equity, weight, k);
        }
      }
    }
  }

  lemma FillWithinCapital(f: Fees, capital: real, price: real, k: int)
    requires f.Valid() && price > 0.0 && 0 < k <= CalcShares(f, capital, price)
    ensures 0.0 < capital && Amount(price, k) <= capital
  {
    hide EstimateCommission, FirstEstimate, Hundreds;
    CalcSharesSpendsWithinCapital(f, capital, price);
    MulLe(k as real, CalcShares(f, capital, price) as real, price);
  }

  /** A purchase fills at least m whole lots whenever they are within h hundreds whose cost fits both the cash and
      what the code still lacks of its target value, and the participation cap admits them. */
  lemma BuyFillSpendsAllItCan(r: Rules, ctx: Context, p: Portfolio, c: Code, equity: real, weight: real, h: int, m: int)
    requires r.Valid() && ValidPrice(ctx.bar.opens, c)
    requires Held(p, c) > 0 || |p.order| < r.maxPositions
    requires 0 < m <= h && h % 100 == 0 && InLots(m, r.lotSize) && WithinParticipation(r, c, m, ctx.bar.volumes)
    requires var price := ctx.bar.opens[c];
             && BuyCost(r.fees, price, h) <= p.cash
             && BuyCost(r.fees, price, h) <= Portion(equity, weight) - Amount(price, Held(p, c))
    ensures m <= BuyFill(r, ctx, p, c, equity, weight)
  {
    hide BuyCost, CalcShares, MaxAffordable, Shrink, InLots, Amount, Portion, ExecutableShares, WithinParticipation;
    var price := ctx.bar.opens[c];
    var room := Allocated(p, c, price, equity, weight);
    PositiveCost(r.fees, price, h);
    MaxAffordableExact(r.fees, room, price, h);
    CalcSharesNeverTooFew(r.fees, room, price);
    BuyCostMonotone(r.fees, price, m, h);
    var requested := CalcShares(r.fees, room, price);
    ExecutableSharesIsMaximal(r, c, requested, ctx.bar.volumes, m);
    ExecutableSharesProps(r, c, requested, ctx.bar.volumes);
    ShrinkIsMaximal(r.fees, price, p.cash, ExecutableShares(r, c, requested, ctx.bar.volumes), r.lotSize);
  }

  lemma PositiveCost(f: Fees, price: real, n: int)
    requires f.Valid() && price > 0.0 && n > 0
    ensures BuyCost(f, price, n) > 0.0
  {
    FeesAtLeastMinimum(f, price, n);
    MulPos(price, n as real);
  }

  /** Less than an admissible number of shares is admissible. */
  lemma WithinParticipationLess(r: Rules, c: Code, m: int, n: int, volumes: Option<map<Code, real>>)
    requires WithinParticipation(r, c, n, volumes) && m <= n
    ensures WithinParticipation(r, c, m, volumes)
  {
  }
}
