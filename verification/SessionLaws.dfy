/** What every session keeps, from the laws of single fills: shape, accounts, value at the open, the
    floor under the cash, T+1 order, point-in-time membership and target ceilings. */
module SessionLaws {
  import opened Wrappers
  import opened Numbers
  import CostModel
  import opened EngineTypes
  import opened Execution
  import opened BuySelection
  import opened TradingSession
  import opened Ledger

  // --- Invariants of the book -------------------------------------------------------------------

  ghost predicate Sound(r: Rules, initial: real, b: Book)
    requires r.Valid()
  {
    && WellFormed(r, b.p)
    && Accounts(initial, b)
    && CostsKept(b)
    && OpenedInOrder(b.log, b.p.order)
    && (RatesWithinOne(r) ==> CashFloor(r, b))
  }

  lemma {:induction false} SellManyIsSound(r: Rules, ctx: Context, initial: real, b: Book, os: seq<SellOrder>)
    requires r.Valid() && Sound(r, initial, b)
    ensures Sound(r, initial, SellMany(r, ctx, b, os))
    ensures var b' := SellMany(r, ctx, b, os);
            ValueAt(b'.p, ctx.bar.opens) + TotalFees(b'.log) == ValueAt(b.p, ctx.bar.opens) + TotalFees(b.log)
  {
    hide WellFormed, Accounts, CostsKept, OpenedInOrder, CashFloor, ValueAt, TotalFees, SellOne;
    if os != [] {
      var k := |os| - 1;
      SellManyIsSound(r, ctx, initial, b, os[..k]);
      var mid := SellMany(r, ctx, b, os[..k]);
      SellKeepsShape(r, ctx, mid, os[k]);
      SellKeepsAccounts(r, ctx, initial, mid, os[k]);
      SellKeepsCosts(r, ctx, initial, mid, os[k]);
      SellKeepsOrder(r, ctx, initial, mid, os[k]);
      SellCostsItsFee(r, ctx, mid, os[k]);
      if RatesWithinOne(r) {
        SellKeepsFloor(r, ctx, mid, os[k]);
      }
    }
  }

  lemma {:induction false} BuyManyIsSound(r: Rules, ctx: Context, initial: real, strategy: string, equity: real,
                                          b: Book, ss: seq<Signal>, ws: seq<real>)
    requires r.Valid() && Sound(r, initial, b) && |ss| == |ws|
    ensures Sound(r, initial, BuyMany(r, ctx, strategy, equity, b, ss, ws))
    ensures var b' := BuyMany(r, ctx, strategy, equity, b, ss, ws);
            ValueAt(b'.p, ctx.bar.opens) + TotalFees(b'.log) == ValueAt(b.p, ctx.bar.opens) + TotalFees(b.log)
  {
    hide WellFormed, Accounts, CostsKept, OpenedInOrder, CashFloor, ValueAt, TotalFees, BuyOne;
    if ss != [] {
      var k := |ss| - 1;
      BuyManyIsSound(r, ctx, initial, strategy, equity, b, ss[..k], ws[..k]);
      var mid := BuyMany(r, ctx, strategy, equity, b, ss[..k], ws[..k]);
      BuyKeepsShape(r, ctx, strategy, equity, mid, ss[k], ws[k]);
      BuyKeepsAccounts(r, ctx, initial, strategy, equity, mid, ss[k], ws[k]);
      BuyKeepsCosts(r, ctx, initial, strategy, equity, mid, ss[k], ws[k]);
      BuyKeepsOrder(r, ctx, initial, strategy, equity, mid, ss[k], ws[k]);
      BuyCostsItsFee(r, ctx, strategy, equity, mid, ss[k], ws[k]);
      if RatesWithinOne(r) {
        BuyKeepsFloor(r, ctx, strategy, equity, mid, ss[k], ws[k]);
      }
    }
  }

  lemma SellsAreSound(r: Rules, initial: real, strategy: string, env: Env, b: Book)
    requires r.Valid() && Sound(r, initial, b)
    ensures Sound(r, initial, AfterExits(r, env, b))
    ensures Sound(r, initial, AfterMonthly(r, env, b))
    ensures Sound(r, initial, AfterSells(r, strategy, env, b))
    ensures var b' := AfterSells(r, strategy, env, b); var opens := env.ctx.bar.opens;
            ValueAt(b'.p, opens) + TotalFees(b'.log) == ValueAt(b.p, opens) + TotalFees(b.log)
  {
    hide Sound, ValueAt, TotalFees, SellMany, ExitOrders, MonthlyOrders, SignalOrders;
    SellManyIsSound(r, env.ctx, initial, b, ExitOrders(env, b.p));
    var b1 := AfterExits(r, env, b);
    SellManyIsSound(r, env.ctx, initial, b1, MonthlyOrders(r, env, b1.p));
    SellManyIsSound(r, env.ctx, initial, AfterMonthly(r, env, b), SignalOrders(SellSignals(env.signals), strategy));
  }

  lemma FillsAreSound(r: Rules, initial: real, strategy: string, env: Env, b: Book)
    requires r.Valid() && Sound(r, initial, b)
    ensures Sound(r, initial, AfterFills(r, strategy, env, b))
    ensures var b' := AfterFills(r, strategy, env, b); var opens := env.ctx.bar.opens;
            ValueAt(b'.p, opens) + TotalFees(b'.log) == ValueAt(b.p, opens) + TotalFees(b.log)
  {
    hide Sound, ValueAt, TotalFees, SellMany, BuyMany, TrimOrders, EquityAtOpen, TargetWeights, AfterSells, Batch;
    SellsAreSound(r, initial, strategy, env, b);
    var b1, ss := AfterSells(r, strategy, env, b), Batch(r, env);
    if ss != [] {
      var equity := EquityAtOpen(b1.p, env.ctx.bar.opens);
      var ws := TargetWeights(ss);
      if r.targetWeights {
        SellManyIsSound(r, env.ctx, initial, b1, TrimOrders(r, env.ctx, b1.p, equity, ss, ws, strategy));
      }
      BuyManyIsSound(r, env.ctx, initial, strategy, equity, AfterTrims(r, strategy, env, b1, equity, ss), ss, ws);
    }
  }

  lemma MarkingIsSound(r: Rules, initial: real, b: Book, closes: map<Code, real>)
    requires r.Valid() && Sound(r, initial, b)
    ensures Sound(r, initial, Book(Marked(b.p, closes), b.log))
  {
    hide InLots, ReplayCash, ReplayShares, ReplayAvgCost, SellCount, CostBasis, LastOpening, Amount;
    var q := Marked(b.p, closes);
    assert forall c :: Held(q, c) == Held(b.p, c);
  }

  // --- T+1: what selling and buying may do to the book ----------------------------------------------

  function SharesSold(log: seq<Trade>, c: Code): int {
    if log == [] then 0
    else
      var t := log[|log| - 1];
      SharesSold(log[..|log| - 1], c) + (if t.action.Sell? && t.code == c then t.shares else 0)
  }

  /** A fill of this session: dated today, decided on the signal date, executed at the open, in whole
      lots, within the participation cap and at the fees that the schedule charges on its amount. */
  ghost predicate FilledToday(r: Rules, ctx: Context, t: Trade)
    requires r.Valid()
  {
    && t.date == ctx.date && t.signalDate == ctx.signalDate
    && ValidPrice(ctx.bar.opens, t.code) && t.price == ctx.bar.opens[t.code]
    && t.shares > 0 && InLots(t.shares, r.lotSize)
    && WithinParticipation(r, t.code, t.shares, ctx.bar.volumes)
    && t.amount == Amount(t.price, t.shares) && t.cost >= r.fees.minCommission
    && t.cost == CostModel.Charges(r.fees, t.amount, t.action.Sell?)
  }

  /** From b to b' there were only sales, each out of what was held. */
  ghost predicate OnlySold(r: Rules, ctx: Context, b: Book, b': Book)
    requires r.Valid()
  {
    && b.log <= b'.log
    && (forall i | |b.log| <= i < |b'.log| :: b'.log[i].action.Sell? && FilledToday(r, ctx, b'.log[i]))
    && (forall c :: Held(b'.p, c) <= Held(b.p, c))
    && (forall c :: SharesSold(b'.log, c) - SharesSold(b.log, c) == Held(b.p, c) - Held(b'.p, c))
  }

  lemma HeldAfterSell(r: Rules, ctx: Context, p: Portfolio, c: Code, n: int)
    requires c in p.holdings && c in ctx.bar.opens && 0 < n <= p.holdings[c]
    ensures forall d :: Held(AfterSell(r, ctx, p, c, n), d) == Held(p, d) - (if d == c then n else 0)
  {
    hide CostModel.SellProceeds;
  }

  lemma SellTradeIsFilled(r: Rules, ctx: Context, p: Portfolio, o: SellOrder)
    requires r.Valid() && SellFill(r, ctx, p, o.code, Requested(p, o)) > 0
    ensures var n := SellFill(r, ctx, p, o.code, Requested(p, o));
            n <= Held(p, o.code) && FilledToday(r, ctx, SellTrade(r, ctx, o, n))
  {
    hide InLots, ExecutableShares, CostModel.SellProceeds, CostModel.Charges, Amount, WithinParticipation;
    var n := SellFill(r, ctx, p, o.code, Requested(p, o));
    ExecutableSharesProps(r, o.code, MinI(Requested(p, o), Held(p, o.code)), ctx.bar.volumes);
    SellFee(r.fees, ctx.bar.opens[o.code], n);
  }

  lemma SellOneOnlySells(r: Rules, ctx: Context, b: Book, o: SellOrder)
    requires r.Valid()
    ensures OnlySold(r, ctx, b, SellOne(r, ctx, b, o))
  {
    hide ExecutableShares, AfterSell, FilledToday, CostModel.SellProceeds, Amount;
    var n := SellFill(r, ctx, b.p, o.code, Requested(b.p, o));
    if n > 0 {
      SellTradeIsFilled(r, ctx, b.p, o);
      HeldAfterSell(r, ctx, b.p, o.code, n);
      var b' := SellOne(r, ctx, b, o);
      assert b'.log[..|b.log|] == b.log;
    }
  }

  lemma SellFee(f: CostModel.Fees, price: real, n: int)
    requires f.Valid() && price > 0.0 && n > 0
    ensures Amount(price, n) - CostModel.SellProceeds(f, price, n) >= f.minCommission
    ensures CostModel.BuyCost(f, price, n) - Amount(price, n) >= f.minCommission
    ensures Amount(price, n) - CostModel.SellProceeds(f, price, n) == CostModel.Charges(f, Amount(price, n), true)
    ensures CostModel.BuyCost(f, price, n) - Amount(price, n) == CostModel.Charges(f, Amount(price, n), false)
  {
    hide CostModel.Charges, CostModel.SellProceeds, CostModel.BuyCost;
    CostModel.FeesAtLeastMinimum(f, price, n);
    CostModel.FeesAreCharged(f, price, n);
  }

  lemma {:induction false} SellManyOnlySells(r: Rules, ctx: Context, b: Book, os: seq<SellOrder>)
    requires r.Valid()
    ensures OnlySold(r, ctx, b, SellMany(r, ctx, b, os))
  {
    hide FilledToday, SellOne, SharesSold;
    if os != [] {
      var k := |os| - 1;
      SellManyOnlySells(r, ctx, b, os[..k]);
      SellOneOnlySells(r, ctx, SellMany(r, ctx, b, os[..k]), os[k]);
      OnlySoldTransitive(r, ctx, b, SellMany(r, ctx, b, os[..k]), SellMany(r, ctx, b, os));
    }
  }

  lemma OnlySoldTransitive(r: Rules, ctx: Context, a: Book, b: Book, c: Book)
    requires r.Valid() && OnlySold(r, ctx, a, b) && OnlySold(r, ctx, b, c)
    ensures OnlySold(r, ctx, a, c)
  {
    hide FilledToday, SharesSold;
    assert forall i | |a.log| <= i < |b.log| :: c.log[i] == b.log[i];
  }

  lemma SellingPhases(r: Rules, strategy: string, env: Env, b: Book)
    requires r.Valid()
    ensures OnlySold(r, env.ctx, b, AfterExits(r, env, b))
    ensures OnlySold(r, env.ctx, AfterExits(r, env, b), BeforeBuys(r, strategy, env, b))
    ensures OnlySold(r, env.ctx, b, BeforeBuys(r, strategy, env, b))
  {
    hide OnlySold, SellMany, ExitOrders, MonthlyOrders, SignalOrders, TrimOrders, EquityAtOpen, TargetWeights, Batch;
    var b1, b2 := AfterExits(r, env, b), AfterMonthly(r, env, b);
    var b3, b4 := AfterSells(r, strategy, env, b), BeforeBuys(r, strategy, env, b);
    var ss := Batch(r, env);
    SellManyOnlySells(r, env.ctx, b, ExitOrders(env, b.p));
    SellManyOnlySells(r, env.ctx, b1, MonthlyOrders(r, env, b1.p));
    SellManyOnlySells(r, env.ctx, b2, SignalOrders(SellSignals(env.signals), strategy));
    OnlySoldTransitive(r, env.ctx, b1, b2, b3);
    if ss != [] && r.targetWeights {
      var equity := EquityAtOpen(b3.p, env.ctx.bar.opens);
      SellManyOnlySells(r, env.ctx, b3, TrimOrders(r, env.ctx, b3.p, equity, ss, TargetWeights(ss), strategy));
      OnlySoldTransitive(r, env.ctx, b1, b3, b4);
    }
    OnlySoldTransitive(r, env.ctx, b, b1, b4);
  }

  /** From b to b' there were only purchases, at most one per code, of codes in the batch ss, and each
      left its code within its target value. */
  ghost predicate OnlyBought(r: Rules, ctx: Context, equity: real, b: Book, b': Book, ss: seq<Signal>, ws: seq<real>)
    requires r.Valid() && |ss| == |ws|
  {
    && b.log <= b'.log
    && (forall i | |b.log| <= i < |b'.log| ::
          b'.log[i].action.Buy? && FilledToday(r, ctx, b'.log[i]) && HasCode(ss, b'.log[i].code))
    && (forall i, j | |b.log| <= i < j < |b'.log| :: b'.log[i].code != b'.log[j].code)
    && (forall c :: SharesSold(b'.log, c) == SharesSold(b.log, c))
    && (forall c | !HasCode(ss, c) :: Held(b'.p, c) == Held(b.p, c))
    && (forall i | 0 <= i < |ss| :: BoughtWithin(ctx, Portion(equity, ws[i]), b, b', ss[i].code))
  }

  ghost predicate BoughtWithin(ctx: Context, target: real, b: Book, b': Book, c: Code) {
    || Held(b'.p, c) == Held(b.p, c)
    || (c in ctx.bar.opens && Amount(ctx.bar.opens[c], Held(b'.p, c)) <= target)
  }

  lemma BuyOneOnlyBuys(r: Rules, ctx: Context, strategy: string, equity: real, b: Book, s: Signal, w: real)
    requires r.Valid()
    ensures var b' := BuyOne(r, ctx, strategy, equity, b, s, w);
            && b.log <= b'.log <= b'.log[..|b.log|] + b'.log[|b.log|..] && |b'.log| <= |b.log| + 1
            && (|b'.log| > |b.log| ==> b'.log[|b.log|].action.Buy? && FilledToday(r, ctx, b'.log[|b.log|])
                                       && b'.log[|b.log|].code == s.code)
            && (forall c :: SharesSold(b'.log, c) == SharesSold(b.log, c))
            && (forall c | c != s.code :: Held(b'.p, c) == Held(b.p, c))
            && BoughtWithin(ctx, Portion(equity, w), b, b', s.code)
  {
    hide InLots, BuyFill, CostModel.BuyCost, CostModel.Charges, Amount, Blend, WithinParticipation, Portion;
    BuyFillProps(r, ctx, b.p, s.code, equity, w);
    var n := BuyFill(r, ctx, b.p, s.code, equity, w);
    if n > 0 {
      SellFee(r.fees, ctx.bar.opens[s.code], n);
      var b' := BuyOne(r, ctx, strategy, equity, b, s, w);
      assert b'.log[..|b.log|] == b.log;
    }
  }

  lemma HasCodeFront(ss: seq<Signal>, c: Code)
    requires ss != []
    ensures HasCode(ss, c) <==> HasCode(ss[..|ss| - 1], c) || ss[|ss| - 1].code == c
  {
    var k := |ss| - 1;
    assert forall i | 0 <= i < k :: ss[..k][i] == ss[i];
  }

  lemma {:induction false} BuyManyOnlyBuys(r: Rules, ctx: Context, strategy: string, equity: real, b: Book,
                                           ss: seq<Signal>, ws: seq<real>)
    requires r.Valid() && |ss| == |ws| && DistinctCodes(ss)
    ensures OnlyBought(r, ctx, equity, b, BuyMany(r, ctx, strategy, equity, b, ss, ws), ss, ws)
  {
    hide FilledToday, BuyOne, SharesSold, HasCode, Portion, Amount;
    if ss != [] {
      var k := |ss| - 1;
      BuyManyOnlyBuys(r, ctx, strategy, equity, b, ss[..k], ws[..k]);
      var mid := BuyMany(r, ctx, strategy, equity, b, ss[..k], ws[..k]);
      BuyOneOnlyBuys(r, ctx, strategy, equity, mid, ss[k], ws[k]);
      forall c { HasCodeFront(ss, c); }
      NotInFront(ss);
      BuyStep(r, ctx, equity, b, mid, BuyMany(r, ctx, strategy, equity, b, ss, ws), ss, ws);
    }
  }

  lemma NotInFront(ss: seq<Signal>)
    requires ss != [] && DistinctCodes(ss)
    ensures !HasCode(ss[..|ss| - 1], ss[|ss| - 1].code)
    ensures forall i | 0 <= i < |ss| - 1 :: ss[i].code != ss[|ss| - 1].code && HasCode(ss[..|ss| - 1], ss[i].code)
  {
    var front := ss[..|ss| - 1];
    assert forall i | 0 <= i < |front| :: front[i] == ss[i];
  }

  /** One more purchase, of a code the earlier ones did not touch. */
  lemma BuyStep(r: Rules, ctx: Context, equity: real, b: Book, mid: Book, b': Book, ss: seq<Signal>, ws: seq<real>)
    requires r.Valid() && |ss| == |ws| && ss != []
    requires var k := |ss| - 1;
             && OnlyBought(r, ctx, equity, b, mid, ss[..k], ws[..k])
             && !HasCode(ss[..k], ss[k].code)
             && (forall c :: HasCode(ss, c) <==> HasCode(ss[..k], c) || ss[k].code == c)
             && (forall i | 0 <= i < k :: ss[i].code != ss[k].code)
             && mid.log <= b'.log && |b'.log| <= |mid.log| + 1
             && (|b'.log| > |mid.log| ==> b'.log[|mid.log|].action.Buy? && FilledToday(r, ctx, b'.log[|mid.log|])
                                          && b'.log[|mid.log|].code == ss[k].code)
             && (forall c :: SharesSold(b'.log, c) == SharesSold(mid.log, c))
             && (forall c | c != ss[k].code :: Held(b'.p, c) == Held(mid.p, c))
             && BoughtWithin(ctx, Portion(equity, ws[k]), mid, b', ss[k].code)
    ensures OnlyBought(r, ctx, equity, b, b', ss, ws)
  {
    hide FilledToday, SharesSold, HasCode, Portion, Amount;
    var k := |ss| - 1;
    assert forall i | 0 <= i < |mid.log| :: b'.log[i] == mid.log[i];
    forall i | 0 <= i < |ss|
      ensures BoughtWithin(ctx, Portion(equity, ws[i]), b, b', ss[i].code)
    {
      if i < k {
        assert ss[..k][i] == ss[i] && ws[..k][i] == ws[i];
        assert BoughtWithin(ctx, Portion(equity, ws[..k][i]), b, mid, ss[..k][i].code);
      }
    }
  }

  lemma BatchIsDistinct(r: Rules, env: Env)
    requires r.Valid()
    ensures DistinctCodes(Batch(r, env)) && |Batch(r, env)| <= r.maxPositions
    ensures forall c | HasCode(Batch(r, env), c) :: BuyEligible(env, c)
  {
    hide SortByScore, BuyEligible;
    var eligible := EligibleBuys(env, env.signals);
    var ranked := SortByScore(eligible);
    ChosenAreDistinct(ranked, r.maxPositions);
    SortByScoreIsStableSort(eligible);
    EligibleBuysAreEligible(env, env.signals);
    var ss := Batch(r, env);
    forall c | HasCode(ss, c)
      ensures BuyEligible(env, c)
    {
      var i :| 0 <= i < |ss| && ss[i].code == c;
      assert ss[i] in ranked && ss[i] in multiset(ranked);
      assert ss[i] in multiset(eligible);
    }
  }

  lemma {:induction false} EligibleBuysAreEligible(env: Env, signals: seq<Signal>)
    ensures forall s :: s in EligibleBuys(env, signals) <==> s in signals && s.action.Buy? && BuyEligible(env, s.code)
  {
    hide BuyEligible;
    if signals != [] {
      assert signals == signals[..|signals| - 1] + [signals[|signals| - 1]];
      EligibleBuysAreEligible(env, signals[..|signals| - 1]);
    }
  }

  /** The T+1 discipline of a session: first only sales, in total no more of a code than was held at the
      previous close; then only purchases, at most one per code and of eligible codes. Every fill is
      dated today and decided on the preceding session. */
  lemma SessionIsTPlusOne(r: Rules, strategy: string, env: Env, b: Book)
    requires r.Valid()
    ensures var mid, end := BeforeBuys(r, strategy, env, b), AfterFills(r, strategy, env, b);
            && b.log <= mid.log <= end.log
            && (forall i | |b.log| <= i < |mid.log| :: end.log[i].action.Sell?)
            && (forall i | |mid.log| <= i < |end.log| :: end.log[i].action.Buy? && BuyEligible(env, end.log[i].code))
            && (forall i | |b.log| <= i < |end.log| :: FilledToday(r, env.ctx, end.log[i]))
            && (forall i, j | |mid.log| <= i < j < |end.log| :: end.log[i].code != end.log[j].code)
            && (forall c :: 0 <= SharesSold(end.log, c) - SharesSold(b.log, c) <= Held(b.p, c))
  {
    hide FilledToday, SharesSold, HasCode, BuyEligible, AfterSells, AfterTrims, EquityAtOpen, Batch, SellMany, BuyMany;
    SellingPhases(r, strategy, env, b);
    var mid, end := BeforeBuys(r, strategy, env, b), AfterFills(r, strategy, env, b);
    var ss := Batch(r, env);
    BatchIsDistinct(r, env);
    if ss != [] {
      var b1 := AfterSells(r, strategy, env, b);
      BuyManyOnlyBuys(r, env.ctx, strategy, EquityAtOpen(b1.p, env.ctx.bar.opens), mid, ss, TargetWeights(ss));
    }
    assert forall i | 0 <= i < |mid.log| :: end.log[i] == mid.log[i];
  }

  // --- Selling each code at most once ------------------------------------------------------------

  ghost predicate DistinctOrders(os: seq<SellOrder>) {
    forall i, j | 0 <= i < j < |os| :: os[i].code != os[j].code
  }

  /** A fill takes its shares from its own code only. */
  lemma SellOneTakes(r: Rules, ctx: Context, b: Book, o: SellOrder)
    requires r.Valid()
    ensures var b' := SellOne(r, ctx, b, o);
            && (forall c | c != o.code :: Held(b'.p, c) == Held(b.p, c))
            && Held(b'.p, o.code) == Held(b.p, o.code) - SellFill(r, ctx, b.p, o.code, Requested(b.p, o))
  {
    hide InLots, ExecutableShares, CostModel.SellProceeds, Amount;
    ExecutableSharesProps(r, o.code, MinI(Requested(b.p, o), Held(b.p, o.code)), ctx.bar.volumes);
  }

  /** When no code is ordered twice, each order fills as if it were alone. */
  lemma {:induction false} SellManyTakesOnce(r: Rules, ctx: Context, b: Book, os: seq<SellOrder>)
    requires r.Valid() && DistinctOrders(os)
    ensures var b' := SellMany(r, ctx, b, os);
            && (forall c | (forall i | 0 <= i < |os| :: os[i].code != c) :: Held(b'.p, c) == Held(b.p, c))
            && (forall i | 0 <= i < |os| ::
                  Held(b'.p, os[i].code) == Held(b.p, os[i].code)
                    - SellFill(r, ctx, b.p, os[i].code, Requested(b.p, os[i])))
  {
    hide SellOne;
    if os != [] {
      var k := |os| - 1;
      SellManyTakesOnce(r, ctx, b, os[..k]);
      var mid, b' := SellMany(r, ctx, b, os[..k]), SellMany(r, ctx, b, os);
      SellOneTakes(r, ctx, mid, os[k]);
      assert forall i | 0 <= i < k :: os[..k][i] == os[i];
      assert Held(mid.p, os[k].code) == Held(b.p, os[k].code);
      forall i | 0 <= i < |os|
        ensures Held(b'.p, os[i].code) == Held(b.p, os[i].code)
                  - SellFill(r, ctx, b.p, os[i].code, Requested(b.p, os[i]))
      {
        if i < k {
          assert os[..k][i] == os[i];
        }
      }
    }
  }

  // --- Point-in-time exits -------------------------------------------------------------------------

  lemma {:induction false} OutsidersProps(order: seq<Code>, members: set<Code>)
    requires Distinct(order)
    ensures Distinct(Outsiders(order, members))
    ensures forall c :: c in Outsiders(order, members) <==> c in order && c !in members
  {
    if order != [] {
      var k := |order| - 1;
      assert order == order[..k] + [order[k]] && order[k] !in order[..k];
      OutsidersProps(order[..k], members);
    }
  }

  lemma SortKeepsDistinct(s: seq<Code>)
    requires Distinct(s)
    ensures Distinct(SortCodes(s))
  {
    SortCodesSorts(s);
    var t := SortCodes(s);
    forall i, j | 0 <= i < j < |t|
      ensures t[i] != t[j]
    {
      if t[i] == t[j] {
        TwiceInMultiset(t, i, j);
        DistinctOnce(s, t[i]);
      }
    }
  }

  lemma TwiceInMultiset(t: seq<Code>, i: nat, j: nat)
    requires i < j < |t| && t[i] == t[j]
    ensures multiset(t)[t[i]] >= 2
  {
    assert t == t[..i] + [t[i]] + t[i + 1..j] + [t[j]] + t[j + 1..];
  }

  lemma {:induction false} DistinctOnce(s: seq<Code>, c: Code)
    requires Distinct(s)
    ensures multiset(s)[c] <= 1
  {
    if s != [] {
      var k := |s| - 1;
      assert s == s[..k] + [s[k]] && s[k] !in s[..k];
      DistinctOnce(s[..k], c);
      assert s[k] !in multiset(s[..k]);
    }
  }

  /** A holding can be sold out today: it has a valid open, and its shares are within the participation cap. */
  ghost predicate Sellable(r: Rules, ctx: Context, p: Portfolio, c: Code) {
    ValidPrice(ctx.bar.opens, c) && WithinParticipation(r, c, Held(p, c), ctx.bar.volumes)
  }

  lemma CompleteExit(r: Rules, ctx: Context, p: Portfolio, c: Code)
    requires r.Valid() && WellFormed(r, p) && Sellable(r, ctx, p, c)
    ensures SellFill(r, ctx, p, c, Held(p, c)) == Held(p, c)
  {
    hide InLots, ExecutableShares, WithinParticipation;
    OneLot(r.lotSize);
    CompleteFill(r, c, Held(p, c), ctx.bar.volumes);
  }

  lemma ExitsClearOutsiders(r: Rules, env: Env, b: Book, c: Code)
    requires r.Valid() && WellFormed(r, b.p)
    requires env.members.Some? && c !in env.members.value
    ensures Held(AfterExits(r, env, b).p, c) == Held(b.p, c) - SellFill(r, env.ctx, b.p, c, Held(b.p, c))
  {
    hide InLots, ExecutableShares;
    var out := Outsiders(b.p.order, env.members.value);
    var codes := SortCodes(out);
    OutsidersProps(b.p.order, env.members.value);
    SortKeepsDistinct(out);
    SortCodesMembers(out);
    var os := Liquidate(codes, EXIT_TAG);
    SellManyTakesOnce(r, env.ctx, b, os);
    if c in codes {
      var i :| 0 <= i < |codes| && codes[i] == c;
      assert os[i].code == c;
    }
  }

  /** A code outside the index that is still held after the session had no valid open, or more of it was held
      at the previous close than that session's volume lets a fill take. */
  lemma OutsidersAreGone(r: Rules, strategy: string, env: Env, b: Book, c: Code)
    requires r.Valid() && WellFormed(r, b.p)
    requires env.members.Some? && c !in env.members.value
    requires Held(AfterFills(r, strategy, env, b).p, c) > 0
    ensures !ValidPrice(env.ctx.bar.opens, c) || !WithinParticipation(r, c, Held(b.p, c), env.ctx.bar.volumes)
  {
    hide AfterSells, AfterTrims, EquityAtOpen, Batch, SellMany, BuyMany, HasCode,
         AfterExits, SellFill, WithinParticipation;
    ExitsClearOutsiders(r, env, b, c);
    SellingPhases(r, strategy, env, b);
    var mid, ss := BeforeBuys(r, strategy, env, b), Batch(r, env);
    BatchIsDistinct(r, env);
    assert Held(mid.p, c) <= Held(AfterExits(r, env, b).p, c);
    if ss != [] {
      var b1 := AfterSells(r, strategy, env, b);
      BuyManyOnlyBuys(r, env.ctx, strategy, EquityAtOpen(b1.p, env.ctx.bar.opens), mid, ss, TargetWeights(ss));
    }
    if Sellable(r, env.ctx, b.p, c) {
      CompleteExit(r, env.ctx, b.p, c);
    }
  }

  // --- Target weights ------------------------------------------------------------------------------

  lemma TargetSharesWithinValue(r: Rules, value: real, price: real)
    requires r.Valid() && price > 0.0
    ensures var n := TargetShares(r, value, price);
            && n >= 0 && InLots(n, r.lotSize)
            && (value >= 0.0 ==> Amount(price, n) <= value < Amount(price, n + r.lotSize))
  {
    hide InLots, WholeLots, Trunc;
    WholeLotsProps(Trunc(value / price), r.lotSize);
    OneLot(r.lotSize);
    var n := TargetShares(r, value, price);
    if value >= 0.0 {
      DivLe(value, price, 0.0);
      DivLe(value, price, n as real);
      DivLe(value, price, (n + r.lotSize) as real);
    }
  }

  /** Trimming leaves a sellable holding at its target, or where it was when below. */
  lemma TrimReachesTarget(r: Rules, strategy: string, env: Env, b: Book, equity: real, ss: seq<Signal>, c: Code)
    requires r.Valid() && WellFormed(r, b.p) && r.targetWeights
    requires Sellable(r, env.ctx, b.p, c)
    ensures Held(AfterTrims(r, strategy, env, b, equity, ss).p, c)
         == MinI(Held(b.p, c), TargetShares(r, Portion(equity, WeightOf(ss, TargetWeights(ss), c)),
                                  env.ctx.bar.opens[c]))
  {
    hide InLots, ExecutableShares, TargetShares, WeightOf, TargetWeights, WithinParticipation,
         Portion, SellFill, SellMany, Excess;
    var ws := TargetWeights(ss);
    var os := TrimOrders(r, env.ctx, b.p, equity, ss, ws, strategy);
    SellManyTakesOnce(r, env.ctx, b, os);
    var b' := SellMany(r, env.ctx, b, os);
    TrimFills(r, env.ctx, b.p, c, Portion(equity, WeightOf(ss, ws, c)));
    if c in b.p.holdings {
      assert c in b.p.order;
      var i :| 0 <= i < |b.p.order| && b.p.order[i] == c;
      assert os[i].code == c;
      assert Held(b'.p, os[i].code) == Held(b.p, os[i].code)
               - SellFill(r, env.ctx, b.p, os[i].code, Requested(b.p, os[i]));
    } else {
      assert forall i | 0 <= i < |os| :: os[i].code == b.p.order[i] && b.p.order[i] in b.p.order;
    }
  }

  /** The order that trims a sellable holding fills its whole excess. */
  lemma TrimFills(r: Rules, ctx: Context, p: Portfolio, c: Code, value: real)
    requires r.Valid() && WellFormed(r, p) && Sellable(r, ctx, p, c)
    ensures var target := TargetShares(r, value, ctx.bar.opens[c]);
            && target >= 0
            && Held(p, c) - SellFill(r, ctx, p, c, Excess(r, ctx, p, c, value)) == MinI(Held(p, c), target)
  {
    hide InLots, ExecutableShares, TargetShares, WithinParticipation;
    var price, excess := ctx.bar.opens[c], Excess(r, ctx, p, c, value);
    TargetSharesWithinValue(r, value, price);
    OneLot(r.lotSize);
    MultiplesClosed(Held(p, c), TargetShares(r, value, price), r.lotSize);
    WithinParticipationLess(r, c, excess, Held(p, c), ctx.bar.volumes);
    CompleteFill(r, c, excess, ctx.bar.volumes);
  }

  /** After a rebalancing session every sellable holding is worth at most its share of the equity at the open,
      and codes that the batch omits are gone. */
  lemma RebalancedWithinTargets(r: Rules, initial: real, strategy: string, env: Env, b: Book, c: Code)
    requires r.Valid() && Sound(r, initial, b) && r.targetWeights && Batch(r, env) != []
    requires EquityAtOpen(AfterSells(r, strategy, env, b).p, env.ctx.bar.opens) >= 0.0
    requires Sellable(r, env.ctx, b.p, c)
    ensures var ss := Batch(r, env); var equity := EquityAtOpen(AfterSells(r, strategy, env, b).p, env.ctx.bar.opens);
            var held := Held(AfterFills(r, strategy, env, b).p, c);
            && Amount(env.ctx.bar.opens[c], held) <= Portion(equity, WeightOf(ss, TargetWeights(ss), c))
            && (!HasCode(ss, c) ==> held == 0)
  {
    hide Sound, InLots, AfterSells, EquityAtOpen, Batch, SellMany, BuyMany,
         TargetShares, WeightOf, TargetWeights, HasCode, WithinParticipation, Portion, Amount;
    var opens, ss := env.ctx.bar.opens, Batch(r, env);
    var ws, b1 := TargetWeights(ss), AfterSells(r, strategy, env, b);
    var equity := EquityAtOpen(b1.p, opens);
    SoundIsWellFormed(r, initial, strategy, env, b);
    BatchIsDistinct(r, env);
    var value := Portion(equity, WeightOf(ss, ws, c));
    WeightNonneg(ss, c);
    PortionNonneg(equity, WeightOf(ss, ws, c));
    SellableAfterSells(r, strategy, env, b, c);
    TrimReachesTarget(r, strategy, env, b1, equity, ss, c);
    TargetSharesWithinValue(r, value, opens[c]);
    var mid, end := AfterTrims(r, strategy, env, b1, equity, ss), AfterFills(r, strategy, env, b);
    assert Held(mid.p, c) <= TargetShares(r, value, opens[c]);
    AmountLe(opens[c], Held(mid.p, c), TargetShares(r, value, opens[c]));
    BuyManyOnlyBuys(r, env.ctx, strategy, equity, mid, ss, ws);
    if HasCode(ss, c) {
      var i := CodeIndex(ss, c);
      MemberWithinTarget(env.ctx, equity, mid, end, ss, ws, i);
    } else {
      WeightOfStranger(ss, ws, c);
      ZeroValue(opens[c], Held(mid.p, c), equity);
    }
  }

  /** What could be sold out at the start of the session still can be after its sales. */
  lemma SellableAfterSells(r: Rules, strategy: string, env: Env, b: Book, c: Code)
    requires r.Valid() && Sellable(r, env.ctx, b.p, c)
    ensures Sellable(r, env.ctx, AfterMonthly(r, env, b).p, c)
    ensures Sellable(r, env.ctx, AfterSells(r, strategy, env, b).p, c)
  {
    hide SellMany, ExitOrders, MonthlyOrders, SignalOrders, FilledToday, SharesSold, WithinParticipation;
    var b1, b2, b3 := AfterExits(r, env, b), AfterMonthly(r, env, b), AfterSells(r, strategy, env, b);
    SellManyOnlySells(r, env.ctx, b, ExitOrders(env, b.p));
    SellManyOnlySells(r, env.ctx, b1, MonthlyOrders(r, env, b1.p));
    SellManyOnlySells(r, env.ctx, b2, SignalOrders(SellSignals(env.signals), strategy));
    assert Held(b1.p, c) <= Held(b.p, c) && Held(b2.p, c) <= Held(b1.p, c) && Held(b3.p, c) <= Held(b2.p, c);
    WithinParticipationLess(r, c, Held(b2.p, c), Held(b.p, c), env.ctx.bar.volumes);
    WithinParticipationLess(r, c, Held(b3.p, c), Held(b.p, c), env.ctx.bar.volumes);
  }

  lemma SoundIsWellFormed(r: Rules, initial: real, strategy: string, env: Env, b: Book)
    requires r.Valid() && Sound(r, initial, b)
    ensures WellFormed(r, AfterSells(r, strategy, env, b).p)
  {
    SellsAreSound(r, initial, strategy, env, b);
  }

  lemma ZeroValue(price: real, n: nat, equity: real)
    requires price > 0.0 && Amount(price, n) <= Portion(equity, 0.0)
    ensures n == 0
  {
  }

  lemma PortionNonneg(equity: real, w: real)
    requires equity >= 0.0 && w >= 0.0
    ensures Portion(equity, w) >= 0.0
  {
  }

  lemma AmountLe(price: real, a: int, b: int)
    requires price > 0.0 && a <= b
    ensures Amount(price, a) <= Amount(price, b)
  {
    MulLe(a as real, b as real, price);
  }

  lemma CodeIndex(ss: seq<Signal>, c: Code) returns (i: nat)
    requires HasCode(ss, c)
    ensures i < |ss| && ss[i].code == c
  {
    i :| 0 <= i < |ss| && ss[i].code == c;
  }

  lemma MemberWithinTarget(ctx: Context, equity: real, mid: Book, end: Book, ss: seq<Signal>, ws: seq<real>, i: nat)
    requires |ss| == |ws| && i < |ss| && DistinctCodes(ss) && ss[i].code in ctx.bar.opens
    requires BoughtWithin(ctx, Portion(equity, ws[i]), mid, end, ss[i].code)
    requires Amount(ctx.bar.opens[ss[i].code], Held(mid.p, ss[i].code)) <= Portion(equity, WeightOf(ss, ws, ss[i].code))
    ensures Amount(ctx.bar.opens[ss[i].code], Held(end.p, ss[i].code)) <= Portion(equity, WeightOf(ss, ws, ss[i].code))
  {
    hide WeightOf, Held, Portion, Amount;
    WeightOfMember(ss, ws, i);
  }

  lemma {:induction false} WeightOfInRange(ss: seq<Signal>, ws: seq<real>, c: Code)
    requires |ss| == |ws| && forall i | 0 <= i < |ws| :: ws[i] >= 0.0
    ensures WeightOf(ss, ws, c) >= 0.0
  {
    if ss != [] {
      WeightOfInRange(ss[..|ss| - 1], ws[..|ws| - 1], c);
    }
  }

  lemma WeightNonneg(ss: seq<Signal>, c: Code)
    ensures WeightOf(ss, TargetWeights(ss), c) >= 0.0
  {
    if ss != [] {
      if exists i | 0 <= i < |ss| :: ss[i].weight > 0.0 {
        TargetWeightsAreProportional(ss);
      } else {
        TargetWeightsAreEqual(ss);
      }
    }
    WeightOfInRange(ss, TargetWeights(ss), c);
  }

  // --- Orders to sell everything ---------------------------------------------------------------------

  /** All but `left` shares of a holding can be sold today. */
  ghost predicate SellableDownTo(r: Rules, ctx: Context, p: Portfolio, c: Code, left: int)
    requires r.Valid()
  {
    && left >= 0 && InLots(left, r.lotSize)
    && (Held(p, c) > left ==>
          ValidPrice(ctx.bar.opens, c) && WithinParticipation(r, c, Held(p, c) - left, ctx.bar.volumes))
  }

  lemma SellableDownToLess(r: Rules, ctx: Context, p: Portfolio, q: Portfolio, c: Code, left: int)
    requires r.Valid() && SellableDownTo(r, ctx, p, c, left) && Held(q, c) <= Held(p, c)
    ensures SellableDownTo(r, ctx, q, c, left)
  {
    hide WithinParticipation, InLots;
    if Held(q, c) > left {
      WithinParticipationLess(r, c, Held(q, c) - left, Held(p, c) - left, ctx.bar.volumes);
    }
  }

  lemma FullSellReaches(r: Rules, ctx: Context, p: Portfolio, c: Code, left: int)
    requires r.Valid() && WellFormed(r, p) && SellableDownTo(r, ctx, p, c, left)
    ensures Held(p, c) - SellFill(r, ctx, p, c, Held(p, c)) <= left
  {
    hide SellFill, InLots, WithinParticipation;
    SellFillIsMaximal(r, ctx, p, c, Held(p, c));
    if Held(p, c) > left {
      MultiplesClosed(Held(p, c), left, r.lotSize);
      assert Held(p, c) - left <= SellFill(r, ctx, p, c, Held(p, c));
    }
  }

  /** An order to sell everything of a code leaves no more than what the cap lets today's sale leave, whatever else
      is ordered. */
  lemma {:induction false} FullSellLeaves(r: Rules, initial: real, ctx: Context, b: Book, os: seq<SellOrder>,
                                          i: nat, left: int)
    requires r.Valid() && Sound(r, initial, b) && i < |os| && os[i].requested.None?
    requires SellableDownTo(r, ctx, b.p, os[i].code, left)
    ensures Held(SellMany(r, ctx, b, os).p, os[i].code) <= left
  {
    hide SellOne, SellFill, Accounts, CashFloor, WellFormed, SellableDownTo, FilledToday, SharesSold;
    var k, c := |os| - 1, os[i].code;
    var mid := SellMany(r, ctx, b, os[..k]);
    SellManyIsSound(r, ctx, initial, b, os[..k]);
    SellManyOnlySells(r, ctx, b, os[..k]);
    assert Held(mid.p, c) <= Held(b.p, c);
    if i < k {
      assert os[..k][i] == os[i];
      FullSellLeaves(r, initial, ctx, b, os[..k], i, left);
      SellOneOnlySells(r, ctx, mid, os[k]);
    } else {
      SellableDownToLess(r, ctx, b.p, mid.p, c, left);
      SellOneTakes(r, ctx, mid, os[k]);
      FullSellReaches(r, ctx, mid.p, c, left);
    }
  }

  lemma {:induction false} SellSignalsFound(signals: seq<Signal>, s: Signal) returns (i: nat)
    requires s in signals && s.action.Sell?
    ensures i < |SellSignals(signals)| && SellSignals(signals)[i] == s
  {
    var k := |signals| - 1;
    if signals[k] == s {
      i := |SellSignals(signals)| - 1;
    } else {
      i := SellSignalsFound(signals[..k], s);
    }
  }

  /** A SELL signal leaves no more of a code than what the cap lets today's sales leave. */
  lemma SellSignalIsHonoured(r: Rules, initial: real, strategy: string, env: Env, b: Book, s: Signal, left: int)
    requires r.Valid() && Sound(r, initial, b) && s in env.signals && s.action.Sell?
    requires SellableDownTo(r, env.ctx, b.p, s.code, left)
    ensures Held(AfterSells(r, strategy, env, b).p, s.code) <= left
  {
    hide Sound, SellMany, SellSignals, SellableDownTo, AfterExits, MonthlyOrders, FilledToday, SharesSold;
    SellsAreSound(r, initial, strategy, env, b);
    var b1, b2 := AfterExits(r, env, b), AfterMonthly(r, env, b);
    SellingPhases(r, strategy, env, b);
    SellManyOnlySells(r, env.ctx, b1, MonthlyOrders(r, env, b1.p));
    assert Held(b2.p, s.code) <= Held(b1.p, s.code) <= Held(b.p, s.code);
    SellableDownToLess(r, env.ctx, b.p, b2.p, s.code, left);
    var i := SellSignalsFound(env.signals, s);
    var os := SignalOrders(SellSignals(env.signals), strategy);
    assert os[i].code == s.code && os[i].requested.None?;
    FullSellLeaves(r, initial, env.ctx, b2, os, i, left);
  }

  /** The monthly liquidation leaves no more of any code than what the cap lets today's sales leave. */
  lemma MonthlyLiquidationClears(r: Rules, initial: real, strategy: string, env: Env, b: Book, c: Code, left: int)
    requires r.Valid() && Sound(r, initial, b) && r.monthlyLiquidation && env.firstOfMonth
    requires SellableDownTo(r, env.ctx, b.p, c, left)
    ensures Held(AfterMonthly(r, env, b).p, c) <= left
  {
    hide SellMany, AfterExits, Accounts, CashFloor, CostsKept, OpenedInOrder, InLots, WithinParticipation,
         FilledToday, SharesSold;
    SellsAreSound(r, initial, strategy, env, b);
    SellingPhases(r, strategy, env, b);
    var b1 := AfterExits(r, env, b);
    assert Held(b1.p, c) <= Held(b.p, c);
    SellableDownToLess(r, env.ctx, b.p, b1.p, c, left);
    var os := Liquidate(b1.p.order, MONTHLY_TAG);
    if c in b1.p.holdings {
      assert c in b1.p.order;
      var i :| 0 <= i < |b1.p.order| && b1.p.order[i] == c;
      assert os[i].code == c;
      FullSellLeaves(r, initial, env.ctx, b1, os, i, left);
    } else {
      SellManyOnlySells(r, env.ctx, b1, os);
      assert Held(SellMany(r, env.ctx, b1, os).p, c) <= Held(b1.p, c);
    }
  }

  // --- Signal-driven sessions ----------------------------------------------------------------------------

  lemma {:induction false} SellManySpares(r: Rules, ctx: Context, b: Book, os: seq<SellOrder>, c: Code)
    requires r.Valid() && forall i | 0 <= i < |os| :: os[i].code != c
    ensures Held(SellMany(r, ctx, b, os).p, c) == Held(b.p, c)
  {
    hide SellOne, SellFill;
    if os != [] {
      var k := |os| - 1;
      SellManySpares(r, ctx, b, os[..k], c);
      SellOneTakes(r, ctx, SellMany(r, ctx, b, os[..k]), os[k]);
    }
  }

  lemma {:induction false} SellSignalsAreSignals(signals: seq<Signal>)
    ensures forall s | s in SellSignals(signals) :: s in signals
  {
    if signals != [] {
      SellSignalsAreSignals(signals[..|signals| - 1]);
    }
  }

  lemma BatchIsFromSignals(r: Rules, env: Env, c: Code)
    requires r.Valid() && forall s | s in env.signals :: s.code != c
    ensures !HasCode(Batch(r, env), c)
  {
    hide SortByScore, BuyEligible, EligibleBuys, Chosen;
    var eligible := EligibleBuys(env, env.signals);
    ChosenAreDistinct(SortByScore(eligible), r.maxPositions);
    SortByScoreIsStableSort(eligible);
    EligibleBuysAreEligible(env, env.signals);
    var ss := Batch(r, env);
    forall i | 0 <= i < |ss|
      ensures ss[i].code != c
    {
      assert ss[i] in SortByScore(eligible) && ss[i] in multiset(SortByScore(eligible));
      assert ss[i] in multiset(eligible);
    }
  }

  /** The forced exits leave index members alone. */
  lemma ExitsSpareMembers(r: Rules, env: Env, b: Book, c: Code)
    requires r.Valid() && WellFormed(r, b.p) && (env.members.None? || c in env.members.value)
    ensures Held(AfterExits(r, env, b).p, c) == Held(b.p, c)
  {
    hide InLots, SortCodes, Outsiders;
    if env.members.Some? {
      var out := Outsiders(b.p.order, env.members.value);
      OutsidersProps(b.p.order, env.members.value);
      SortCodesMembers(out);
      var codes := SortCodes(out);
      assert forall i | 0 <= i < |codes| :: codes[i] in codes;
    }
    SellManySpares(r, env.ctx, b, ExitOrders(env, b.p), c);
  }

  /** Without a signal for it, a code is touched by the forced exits only. */
  lemma OnlyExitsMoveUnsignalled(r: Rules, strategy: string, env: Env, b: Book, c: Code)
    requires r.Valid() && !r.monthlyLiquidation && !r.targetWeights
    requires forall s | s in env.signals :: s.code != c
    ensures Held(AfterFills(r, strategy, env, b).p, c) == Held(AfterExits(r, env, b).p, c)
  {
    hide SellSignals, Batch, HasCode, BuyMany, EquityAtOpen, TargetWeights, AfterExits, FilledToday, SharesSold;
    SellSignalsAreSignals(env.signals);
    var sells, ss := SellSignals(env.signals), Batch(r, env);
    var b0 := AfterMonthly(r, env, b);
    assert b0 == AfterExits(r, env, b);
    var os := SignalOrders(sells, strategy);
    assert forall i | 0 <= i < |os| :: os[i].code == sells[i].code && sells[i] in sells;
    SellManySpares(r, env.ctx, b0, os, c);
    BatchIsFromSignals(r, env, c);
    if ss != [] {
      BatchIsDistinct(r, env);
      var b1 := AfterSells(r, strategy, env, b);
      BuyManyOnlyBuys(r, env.ctx, strategy, EquityAtOpen(b1.p, env.ctx.bar.opens), b1, ss, TargetWeights(ss));
    }
  }

  /** In the signal-driven mode with event orders, a holding without a signal stays as it is exactly when it is
      not a code outside the index that its forced exit can sell some of. */
  lemma NothingMovesWithoutASignal(r: Rules, strategy: string, env: Env, b: Book, c: Code)
    requires r.Valid() && WellFormed(r, b.p) && !r.monthlyLiquidation && !r.targetWeights
    requires forall s | s in env.signals :: s.code != c
    ensures Held(AfterFills(r, strategy, env, b).p, c) == Held(b.p, c) <==>
              || env.members.None? || c in env.members.value
              || SellFill(r, env.ctx, b.p, c, Held(b.p, c)) == 0
  {
    hide AfterFills, AfterExits, SellFill, WellFormed;
    OnlyExitsMoveUnsignalled(r, strategy, env, b, c);
    if env.members.None? || c in env.members.value {
      ExitsSpareMembers(r, env, b, c);
    } else {
      ExitsClearOutsiders(r, env, b, c);
    }
  }

  /** With the default fees and no volume column, 100 shares of a code that has left the index are sold at its
      open of 10.0 although there is no signal at all. */
  lemma SoldWithoutASignal(strategy: string) returns (r: Rules, env: Env, b: Book)
    ensures r.Valid() && WellFormed(r, b.p) && !r.monthlyLiquidation && !r.targetWeights && env.signals == []
    ensures Held(b.p, 1) == 100 && Held(AfterFills(r, strategy, env, b).p, 1) == 0
  {
    r := Rules(CostModel.Fees(0.0003, 0.001, 0.001, 5.0), 20, false, false, None, 100);
    env := Env(Context(1, Some(0), Bar(map[1 := 10.0], map[], None)), false, [], Some({}), Some({}));
    b := Book(Portfolio(0.0, map[1 := 100], [1], map[1 := 10.0], map[]), []);
    hide AfterFills, AfterExits, SellFill;
    OnlyExitsMoveUnsignalled(r, strategy, env, b, 1);
    ExitsClearOutsiders(r, env, b, 1);
    CompleteExit(r, env.ctx, b.p, 1);
  }

  // --- The equity at the open ----------------------------------------------------------------------------

  /** The prices before the market opens: the open where one is quoted, else the last close; a price that is not
      positive counts as nothing. */
  ghost predicate PricedAtOpen(p: Portfolio, opens: map<Code, real>, prices: map<Code, real>) {
    forall c | c in p.order ::
      Quote(prices, c) == if c in opens then MaxR(opens[c], 0.0)
                          else if c in p.lastCloses then MaxR(p.lastCloses[c], 0.0) else 0.0
  }

  lemma {:induction false} OpenWorthIsWorth(order: seq<Code>, p: Portfolio, opens: map<Code, real>,
                                            prices: map<Code, real>)
    requires PricedAtOpen(p, opens, prices) && forall c | c in order :: c in p.order
    ensures OpenWorth(order, p, opens) == Worth(order, p, prices)
  {
    hide Amount;
    if order != [] {
      var k := |order| - 1;
      OpenWorthIsWorth(order[..k], p, opens, prices);
      assert order[k] in order;
      NothingIsWorthNothing(Held(p, order[k]));
    }
  }

  lemma NothingIsWorthNothing(n: int)
    ensures Amount(0.0, n) == 0.0
  {
  }

  /** The equity at the open is the cash and the holdings, each at its open, or at its last close without one. */
  lemma EquityAtOpenIsValue(p: Portfolio, opens: map<Code, real>, prices: map<Code, real>)
    requires PricedAtOpen(p, opens, prices)
    ensures EquityAtOpen(p, opens) == ValueAt(p, prices)
  {
    OpenWorthIsWorth(p.order, p, opens, prices);
  }

  /** What a session sizes its targets by: when all holdings have an open, their value at the opens with the cash,
      less the fees of the session's sales so far. */
  lemma SessionEquity(r: Rules, initial: real, strategy: string, env: Env, b: Book)
    requires r.Valid() && Sound(r, initial, b)
    requires forall c | c in AfterSells(r, strategy, env, b).p.order :: ValidPrice(env.ctx.bar.opens, c)
    ensures var b', opens := AfterSells(r, strategy, env, b), env.ctx.bar.opens;
            EquityAtOpen(b'.p, opens) == ValueAt(b.p, opens) - (TotalFees(b'.log) - TotalFees(b.log))
  {
    hide Sound, ValueAt, TotalFees, AfterSells, EquityAtOpen;
    SellsAreSound(r, initial, strategy, env, b);
    EquityAtOpenIsValue(AfterSells(r, strategy, env, b).p, env.ctx.bar.opens, env.ctx.bar.opens);
  }
}
