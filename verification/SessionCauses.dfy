/** Why a session trades what it trades: the cause of each fill, the order of the phases, what must be sold and what
    must not. */
module SessionCauses {
  import opened Wrappers
  import opened Numbers
  import opened EngineTypes
  import opened Execution
  import opened BuySelection
  import opened TradingSession
  import opened Ledger
  import opened SessionLaws

  // --- Causes ------------------------------------------------------------------------------------------

  /** A signal of the given action asks for this trade, and the trade carries its score. */
  ghost predicate Signalled(strategy: string, signals: seq<Signal>, action: Action, t: Trade) {
    && t.strategy == strategy && t.action == action
    && exists s | s in signals :: s.action == action && s.code == t.code && s.score == t.score
  }

  /** A code that left the index is sold. */
  ghost predicate ForcedOut(members: Option<set<Code>>, t: Trade) {
    && t.action.Sell? && t.strategy == EXIT_TAG && t.score == 0.0
    && members.Some? && t.code !in members.value
  }

  ghost predicate LiquidatedMonthly(r: Rules, firstOfMonth: bool, t: Trade) {
    && t.action.Sell? && t.strategy == MONTHLY_TAG && t.score == 0.0
    && r.monthlyLiquidation && firstOfMonth
  }

  /** A holding is trimmed to the targets of a batch, which needs a BUY signal that may be followed. */
  ghost predicate Trimmed(r: Rules, strategy: string, members: Option<set<Code>>, signalMembers: Option<set<Code>>,
                          signals: seq<Signal>, t: Trade)
  {
    && t.action.Sell? && t.strategy == strategy && t.score == 0.0 && r.targetWeights
    && exists s | s in signals :: s.action.Buy? && MayBuy(members, signalMembers, s.code)
  }

  /** Without an index every code may be bought; with one, a member on both dates. */
  ghost predicate MayBuy(members: Option<set<Code>>, signalMembers: Option<set<Code>>, c: Code) {
    members.Some? ==> c in members.value && signalMembers.Some? && c in signalMembers.value
  }

  ghost predicate Caused(r: Rules, strategy: string, members: Option<set<Code>>, signalMembers: Option<set<Code>>,
                         firstOfMonth: bool, signals: seq<Signal>, t: Trade)
  {
    || ForcedOut(members, t)
    || LiquidatedMonthly(r, firstOfMonth, t)
    || Signalled(strategy, signals, Sell, t)
    || Trimmed(r, strategy, members, signalMembers, signals, t)
    || (Signalled(strategy, signals, Buy, t) && MayBuy(members, signalMembers, t.code))
  }

  /** t carries out the order o. */
  ghost predicate Fills(o: SellOrder, t: Trade) {
    t.action.Sell? && o.code == t.code && o.strategy == t.strategy && o.score == t.score
  }

  ghost predicate Placed(os: seq<SellOrder>, t: Trade) {
    exists k | 0 <= k < |os| :: Fills(os[k], t)
  }

  lemma PlacedEarlier(os: seq<SellOrder>, t: Trade)
    requires os != [] && Placed(os[..|os| - 1], t)
    ensures Placed(os, t)
  {
    var k :| 0 <= k < |os| - 1 && Fills(os[..|os| - 1][k], t);
    assert os[k] == os[..|os| - 1][k];
  }

  lemma SellOneLogs(r: Rules, ctx: Context, b: Book, o: SellOrder)
    requires r.Valid()
    ensures var log := SellOne(r, ctx, b, o).log;
            && b.log <= log && |log| <= |b.log| + 1
            && (|log| > |b.log| ==> Fills(o, log[|b.log|]))
  {
    hide AfterSell, ExecutableShares;
  }

  /** Sales carry out the orders, in their order. */
  lemma {:induction false} SellManyLogs(r: Rules, ctx: Context, b: Book, os: seq<SellOrder>)
    requires r.Valid()
    ensures var log := SellMany(r, ctx, b, os).log;
            b.log <= log && forall i | |b.log| <= i < |log| :: Placed(os, log[i])
  {
    hide SellOne, Fills;
    if os != [] {
      var k := |os| - 1;
      SellManyLogs(r, ctx, b, os[..k]);
      var mid, log := SellMany(r, ctx, b, os[..k]), SellMany(r, ctx, b, os).log;
      SellOneLogs(r, ctx, mid, os[k]);
      forall i | |b.log| <= i < |log|
        ensures Placed(os, log[i])
      {
        if i < |mid.log| {
          assert log[i] == mid.log[i];
          PlacedEarlier(os, log[i]);
        }
      }
    }
  }

  ghost predicate Rising(f: Code -> int, log: seq<Trade>, from: nat, to: nat)
    requires to <= |log|
  {
    forall i, j | from <= i < j < to :: f(log[i].code) < f(log[j].code)
  }

  lemma {:induction false} SellManyInOrder(r: Rules, ctx: Context, b: Book, os: seq<SellOrder>, f: Code -> int)
    requires r.Valid() && forall i, j | 0 <= i < j < |os| :: f(os[i].code) < f(os[j].code)
    ensures var log := SellMany(r, ctx, b, os).log; Rising(f, log, |b.log|, |log|)
  {
    hide SellOne;
    if os != [] {
      var k := |os| - 1;
      SellManyInOrder(r, ctx, b, os[..k], f);
      SellManyLogs(r, ctx, b, os[..k]);
      var mid, log := SellMany(r, ctx, b, os[..k]), SellMany(r, ctx, b, os).log;
      SellOneLogs(r, ctx, mid, os[k]);
      assert forall i | 0 <= i < |mid.log| :: log[i] == mid.log[i];
      forall i | |b.log| <= i < |mid.log|
        ensures f(mid.log[i].code) < f(os[k].code)
      {
        assert Placed(os[..k], mid.log[i]);
        var x :| 0 <= x < k && Fills(os[..k][x], mid.log[i]);
        assert os[..k][x] == os[x];
      }
    }
  }

  lemma BuyOneLogs(r: Rules, ctx: Context, strategy: string, equity: real, b: Book, s: Signal, w: real)
    requires r.Valid()
    ensures var log := BuyOne(r, ctx, strategy, equity, b, s, w).log;
            && b.log <= log && |log| <= |b.log| + 1
            && (|log| > |b.log| ==> var t := log[|b.log|];
                                    t.strategy == strategy && t.action.Buy? && t.code == s.code && t.score == s.score)
  {
    hide AfterBuy, ExecutableShares;
  }

  lemma {:induction false} BuyManyLogs(r: Rules, ctx: Context, strategy: string, equity: real, b: Book,
                                       ss: seq<Signal>, ws: seq<real>)
    requires r.Valid() && |ss| == |ws| && forall s | s in ss :: s.action.Buy?
    ensures var log := BuyMany(r, ctx, strategy, equity, b, ss, ws).log;
            b.log <= log && forall i | |b.log| <= i < |log| :: Signalled(strategy, ss, Buy, log[i])
  {
    hide BuyOne;
    if ss != [] {
      var k := |ss| - 1;
      BuyManyLogs(r, ctx, strategy, equity, b, ss[..k], ws[..k]);
      var mid := BuyMany(r, ctx, strategy, equity, b, ss[..k], ws[..k]);
      var log := BuyMany(r, ctx, strategy, equity, b, ss, ws).log;
      BuyOneLogs(r, ctx, strategy, equity, mid, ss[k], ws[k]);
      forall i | |b.log| <= i < |log|
        ensures Signalled(strategy, ss, Buy, log[i])
      {
        if i < |mid.log| {
          assert log[i] == mid.log[i] && Signalled(strategy, ss[..k], Buy, mid.log[i]);
        } else {
          assert ss[k] in ss;
        }
      }
    }
  }

  /** Purchases follow a descending batch from the highest score to the lowest. */
  lemma {:induction false} BuyManyInOrder(r: Rules, ctx: Context, strategy: string, equity: real, b: Book,
                                          ss: seq<Signal>, ws: seq<real>)
    requires r.Valid() && |ss| == |ws| && Descending(ss) && forall s | s in ss :: s.action.Buy?
    ensures var log := BuyMany(r, ctx, strategy, equity, b, ss, ws).log;
            forall i, j | |b.log| <= i < j < |log| :: log[i].score >= log[j].score
  {
    hide BuyOne;
    if ss != [] {
      var k := |ss| - 1;
      BuyManyInOrder(r, ctx, strategy, equity, b, ss[..k], ws[..k]);
      BuyManyLogs(r, ctx, strategy, equity, b, ss[..k], ws[..k]);
      var mid := BuyMany(r, ctx, strategy, equity, b, ss[..k], ws[..k]);
      var log := BuyMany(r, ctx, strategy, equity, b, ss, ws).log;
      BuyOneLogs(r, ctx, strategy, equity, mid, ss[k], ws[k]);
      assert forall i | 0 <= i < |mid.log| :: log[i] == mid.log[i];
      forall i | |b.log| <= i < |mid.log|
        ensures mid.log[i].score >= ss[k].score
      {
        assert Signalled(strategy, ss[..k], Buy, mid.log[i]);
      }
    }
  }

  lemma BatchDescends(r: Rules, env: Env)
    requires r.Valid()
    ensures Descending(Batch(r, env))
  {
    hide SortByScore, Chosen, EligibleBuys;
    SortByScoreIsStableSort(EligibleBuys(env, env.signals));
    ChosenDescend(SortByScore(EligibleBuys(env, env.signals)), r.maxPositions);
  }

  // --- The phases of a session ---------------------------------------------------------------------------

  lemma ExitsAreForced(r: Rules, env: Env, b: Book)
    requires r.Valid() && WellFormed(r, b.p)
    ensures var log := AfterExits(r, env, b).log;
            && b.log <= log
            && (forall i | |b.log| <= i < |log| :: ForcedOut(env.members, log[i]))
            && (forall i, j | |b.log| <= i < j < |log| :: log[i].code < log[j].code)
  {
    hide InLots, SellMany, SortCodes, Outsiders;
    var os, log := ExitOrders(env, b.p), AfterExits(r, env, b).log;
    SellManyLogs(r, env.ctx, b, os);
    if env.members.Some? {
      var out := Outsiders(b.p.order, env.members.value);
      OutsidersProps(b.p.order, env.members.value);
      SortCodesMembers(out);
      SortCodesSorts(out);
      SortKeepsDistinct(out);
      var f := (c: Code) => c as int;
      SellManyInOrder(r, env.ctx, b, os, f);
      assert forall i, j | |b.log| <= i < j < |log| :: f(log[i].code) < f(log[j].code);
      forall i | |b.log| <= i < |log|
        ensures ForcedOut(env.members, log[i])
      {
        assert Placed(os, log[i]);
        var k :| 0 <= k < |os| && Fills(os[k], log[i]);
        assert os[k].code == SortCodes(out)[k] && SortCodes(out)[k] in SortCodes(out);
      }
    } else {
      assert SellMany(r, env.ctx, b, []) == b by {
        NoOrdersNoSales(r, env.ctx, b);
      }
    }
  }

  lemma NoOrdersNoSales(r: Rules, ctx: Context, b: Book)
    requires r.Valid()
    ensures SellMany(r, ctx, b, []) == b
  {
  }

  lemma LiquidationIsMonthly(r: Rules, env: Env, b: Book)
    requires r.Valid() && OpenedInOrder(AfterExits(r, env, b).log, AfterExits(r, env, b).p.order)
    ensures var before, log := AfterExits(r, env, b).log, AfterMonthly(r, env, b).log;
            && before <= log
            && (forall i | |before| <= i < |log| :: LiquidatedMonthly(r, env.firstOfMonth, log[i]))
            && (forall i, j | |before| <= i < j < |log| ::
                  LastOpening(before, log[i].code) < LastOpening(before, log[j].code))
  {
    hide SellMany, AfterExits, LastOpening;
    var b1 := AfterExits(r, env, b);
    var os, log := MonthlyOrders(r, env, b1.p), AfterMonthly(r, env, b).log;
    SellManyLogs(r, env.ctx, b1, os);
    if r.monthlyLiquidation && env.firstOfMonth {
      var f := (c: Code) => LastOpening(b1.log, c);
      SellManyInOrder(r, env.ctx, b1, os, f);
      assert forall i, j | |b1.log| <= i < j < |log| :: f(log[i].code) < f(log[j].code);
    } else {
      NoOrdersNoSales(r, env.ctx, b1);
    }
  }

  lemma {:induction false} SellSignalsSell(signals: seq<Signal>)
    ensures forall s :: s in SellSignals(signals) <==> s in signals && s.action.Sell?
  {
    if signals != [] {
      assert signals == signals[..|signals| - 1] + [signals[|signals| - 1]];
      SellSignalsSell(signals[..|signals| - 1]);
    }
  }

  lemma SellsAreSignalled(r: Rules, strategy: string, env: Env, b: Book)
    requires r.Valid()
    ensures var before, log := AfterMonthly(r, env, b).log, AfterSells(r, strategy, env, b).log;
            before <= log && forall i | |before| <= i < |log| :: Signalled(strategy, env.signals, Sell, log[i])
  {
    hide SellMany, AfterMonthly, SellSignals;
    var b2, sells := AfterMonthly(r, env, b), SellSignals(env.signals);
    var os, log := SignalOrders(sells, strategy), AfterSells(r, strategy, env, b).log;
    SellManyLogs(r, env.ctx, b2, os);
    SellSignalsSell(env.signals);
    forall i | |b2.log| <= i < |log|
      ensures Signalled(strategy, env.signals, Sell, log[i])
    {
      assert Placed(os, log[i]);
      var k :| 0 <= k < |os| && Fills(os[k], log[i]);
      assert sells[k] in sells;
    }
  }

  lemma BatchFollowsSignals(r: Rules, env: Env)
    requires r.Valid()
    ensures forall s | s in Batch(r, env) ::
              s in env.signals && s.action.Buy? && MayBuy(env.members, env.signalMembers, s.code)
  {
    hide SortByScore, Chosen, EligibleBuys;
    var eligible := EligibleBuys(env, env.signals);
    ChosenAreDistinct(SortByScore(eligible), r.maxPositions);
    SortByScoreIsStableSort(eligible);
    EligibleBuysAreEligible(env, env.signals);
    forall s | s in Batch(r, env)
      ensures s in eligible
    {
      assert s in multiset(SortByScore(eligible));
      assert s in multiset(eligible);
    }
  }

  lemma TrimsFollowABatch(r: Rules, strategy: string, env: Env, b: Book)
    requires r.Valid()
    ensures var before, log := AfterSells(r, strategy, env, b).log, BeforeBuys(r, strategy, env, b).log;
            before <= log
            && forall i | |before| <= i < |log| ::
                 Trimmed(r, strategy, env.members, env.signalMembers, env.signals, log[i])
  {
    hide SellMany, AfterSells, Batch, EquityAtOpen, Excess, WeightOf, TargetWeights, MayBuy;
    var b1, ss := AfterSells(r, strategy, env, b), Batch(r, env);
    if ss != [] && r.targetWeights {
      var equity := EquityAtOpen(b1.p, env.ctx.bar.opens);
      var os := TrimOrders(r, env.ctx, b1.p, equity, ss, TargetWeights(ss), strategy);
      SellManyLogs(r, env.ctx, b1, os);
      BatchFollowsSignals(r, env);
      assert ss[0] in ss;
    }
  }

  lemma BuysAreSignalled(r: Rules, strategy: string, env: Env, b: Book)
    requires r.Valid()
    ensures var before, log := BeforeBuys(r, strategy, env, b).log, AfterFills(r, strategy, env, b).log;
            before <= log
            && forall i | |before| <= i < |log| ::
                 Signalled(strategy, env.signals, Buy, log[i]) && MayBuy(env.members, env.signalMembers, log[i].code)
    ensures var before, log := BeforeBuys(r, strategy, env, b).log, AfterFills(r, strategy, env, b).log;
            forall i, j | |before| <= i < j < |log| :: log[i].score >= log[j].score
  {
    hide BuyMany, AfterSells, AfterTrims, Batch, EquityAtOpen, TargetWeights, MayBuy;
    var b4, ss := BeforeBuys(r, strategy, env, b), Batch(r, env);
    var log := AfterFills(r, strategy, env, b).log;
    if ss != [] {
      BatchFollowsSignals(r, env);
      var equity := EquityAtOpen(AfterSells(r, strategy, env, b).p, env.ctx.bar.opens);
      BuyManyLogs(r, env.ctx, strategy, equity, b4, ss, TargetWeights(ss));
      BatchDescends(r, env);
      BuyManyInOrder(r, env.ctx, strategy, equity, b4, ss, TargetWeights(ss));
      forall i | |b4.log| <= i < |log|
        ensures Signalled(strategy, env.signals, Buy, log[i]) && MayBuy(env.members, env.signalMembers, log[i].code)
      {
        assert Signalled(strategy, ss, Buy, log[i]);
      }
    }
  }

  /** Every trade of a session has its cause in what the session sees. */
  lemma SessionIsCaused(r: Rules, initial: real, strategy: string, env: Env, b: Book)
    requires r.Valid() && Sound(r, initial, b)
    ensures var log := AfterFills(r, strategy, env, b).log;
            && b.log <= log
            && forall i | |b.log| <= i < |log| ::
                 Caused(r, strategy, env.members, env.signalMembers, env.firstOfMonth, env.signals, log[i])
  {
    hide AfterFills, BeforeBuys, AfterSells, AfterMonthly, AfterExits, ForcedOut, LiquidatedMonthly, Signalled,
         Trimmed, MayBuy, WellFormed, Accounts, CostsKept, CashFloor, OpenedInOrder;
    SellsAreSound(r, initial, strategy, env, b);
    ExitsAreForced(r, env, b);
    LiquidationIsMonthly(r, env, b);
    SellsAreSignalled(r, strategy, env, b);
    TrimsFollowABatch(r, strategy, env, b);
    BuysAreSignalled(r, strategy, env, b);
  }

  /** The phase a trade belongs to, by its action and its tag. */
  function PhaseOf(t: Trade): int {
    if t.action.Buy? then 3
    else if t.strategy == EXIT_TAG then 0
    else if t.strategy == MONTHLY_TAG then 1
    else 2
  }

  /** The trades from position n on go phase by phase: forced exits by ascending code, the monthly liquidation by
      the age of the positions, then the strategy's sales, then its purchases from the highest score down. */
  ghost predicate InPhases(log: seq<Trade>, n: nat)
    requires n <= |log|
  {
    forall i, j | n <= i < j < |log| ::
      && PhaseOf(log[i]) <= PhaseOf(log[j])
      && (PhaseOf(log[j]) == 0 ==> log[i].code < log[j].code)
      && (PhaseOf(log[i]) == PhaseOf(log[j]) == 1 ==>
            LastOpening(log[..n], log[i].code) < LastOpening(log[..n], log[j].code))
      && (PhaseOf(log[i]) == 3 ==> log[i].score >= log[j].score)
  }

  /** Sales open no position. */
  lemma {:induction false} SalesOpenNothing(log: seq<Trade>, n: nat, c: Code)
    requires n <= |log| && forall i | n <= i < |log| :: log[i].action.Sell?
    ensures LastOpening(log, c) == LastOpening(log[..n], c)
  {
    if n < |log| {
      var k := |log| - 1;
      SalesOpenNothing(log[..k], n, c);
      assert log[..k][..n] == log[..n];
    } else {
      assert log[..n] == log;
    }
  }

  lemma SessionGoesInPhases(r: Rules, initial: real, strategy: string, env: Env, b: Book)
    requires r.Valid() && Sound(r, initial, b) && strategy != EXIT_TAG && strategy != MONTHLY_TAG
    ensures var log := AfterFills(r, strategy, env, b).log; b.log <= log && InPhases(log, |b.log|)
  {
    hide AfterFills, BeforeBuys, AfterSells, AfterMonthly, AfterExits, MayBuy, LastOpening,
         WellFormed, Accounts, CostsKept, CashFloor, OpenedInOrder;
    SellsAreSound(r, initial, strategy, env, b);
    ExitsAreForced(r, env, b);
    LiquidationIsMonthly(r, env, b);
    SellsAreSignalled(r, strategy, env, b);
    TrimsFollowABatch(r, strategy, env, b);
    BuysAreSignalled(r, strategy, env, b);
    var log, x, m := AfterFills(r, strategy, env, b).log, AfterExits(r, env, b).log, AfterMonthly(r, env, b).log;
    TagsDiffer();
    PhasesFit(log, |b.log|, x, m);
  }

  lemma TagsDiffer()
    ensures EXIT_TAG != MONTHLY_TAG
  {
    assert EXIT_TAG[0] != MONTHLY_TAG[0];
  }

  lemma PhasesFit(log: seq<Trade>, n: nat, x: seq<Trade>, m: seq<Trade>)
    requires n <= |x| && x <= m <= log
    requires forall i | n <= i < |x| :: log[i].action.Sell? && PhaseOf(log[i]) == 0
    requires forall i, j | n <= i < j < |x| :: log[i].code < log[j].code
    requires forall i | |x| <= i < |m| :: PhaseOf(log[i]) == 1
    requires forall i, j | |x| <= i < j < |m| :: LastOpening(x, log[i].code) < LastOpening(x, log[j].code)
    requires forall i | |m| <= i < |log| :: PhaseOf(log[i]) >= 2
    requires forall i, j | |m| <= i < j < |log| :: PhaseOf(log[i]) <= PhaseOf(log[j])
    requires forall i, j | |m| <= i < j < |log| :: PhaseOf(log[i]) == 3 ==> log[i].score >= log[j].score
    ensures InPhases(log, n)
  {
    hide LastOpening, PhaseOf;
    assert x[..n] == log[..n];
    forall i, j | n <= i < j < |log|
      ensures && PhaseOf(log[i]) <= PhaseOf(log[j])
              && (PhaseOf(log[j]) == 0 ==> log[i].code < log[j].code)
              && (PhaseOf(log[i]) == PhaseOf(log[j]) == 1 ==>
                    LastOpening(log[..n], log[i].code) < LastOpening(log[..n], log[j].code))
              && (PhaseOf(log[i]) == 3 ==> log[i].score >= log[j].score)
    {
      SalesOpenNothing(x, n, log[i].code);
      SalesOpenNothing(x, n, log[j].code);
    }
  }

  // --- What must be sold and what must not ---------------------------------------------------------------

  /** A session has to sell all it can of c: it is outside the index, the month begins, or a signal says so. */
  ghost predicate Due(r: Rules, members: Option<set<Code>>, firstOfMonth: bool, signals: seq<Signal>, c: Code) {
    || (members.Some? && c !in members.value)
    || (r.monthlyLiquidation && firstOfMonth)
    || exists s | s in signals :: s.action.Sell? && s.code == c
  }

  /** What a session sells of a code is what its sales take out of the holding. */
  lemma SoldIsTaken(r: Rules, strategy: string, env: Env, b: Book, c: Code)
    requires r.Valid()
    ensures SharesSold(AfterFills(r, strategy, env, b).log, c) - SharesSold(b.log, c)
         == Held(b.p, c) - Held(BeforeBuys(r, strategy, env, b).p, c)
  {
    hide FilledToday, SharesSold, HasCode, AfterSells, AfterTrims, EquityAtOpen, Batch, SellMany, BuyMany,
         TargetWeights;
    SellingPhases(r, strategy, env, b);
    var mid, ss := BeforeBuys(r, strategy, env, b), Batch(r, env);
    BatchIsDistinct(r, env);
    if ss != [] {
      var equity := EquityAtOpen(AfterSells(r, strategy, env, b).p, env.ctx.bar.opens);
      BuyManyOnlyBuys(r, env.ctx, strategy, equity, mid, ss, TargetWeights(ss));
    }
  }

  /** Each phase holds at most what the phase before it held. */
  lemma SalesOnlyTake(r: Rules, strategy: string, env: Env, b: Book, c: Code)
    requires r.Valid()
    ensures Held(BeforeBuys(r, strategy, env, b).p, c) <= Held(AfterSells(r, strategy, env, b).p, c)
    ensures Held(AfterSells(r, strategy, env, b).p, c) <= Held(AfterMonthly(r, env, b).p, c)
    ensures Held(AfterMonthly(r, env, b).p, c) <= Held(AfterExits(r, env, b).p, c)
    ensures Held(AfterExits(r, env, b).p, c) <= Held(b.p, c)
  {
    hide FilledToday, SharesSold, EquityAtOpen, Batch, SellMany, ExitOrders, MonthlyOrders, SignalOrders, TrimOrders,
         TargetWeights;
    var b1, b2 := AfterExits(r, env, b), AfterMonthly(r, env, b);
    var b3, ss := AfterSells(r, strategy, env, b), Batch(r, env);
    SellManyOnlySells(r, env.ctx, b, ExitOrders(env, b.p));
    SellManyOnlySells(r, env.ctx, b1, MonthlyOrders(r, env, b1.p));
    SellManyOnlySells(r, env.ctx, b2, SignalOrders(SellSignals(env.signals), strategy));
    if ss != [] && r.targetWeights {
      var equity := EquityAtOpen(b3.p, env.ctx.bar.opens);
      SellManyOnlySells(r, env.ctx, b3, TrimOrders(r, env.ctx, b3.p, equity, ss, TargetWeights(ss), strategy));
    }
  }

  /** A session sells at least every whole number of lots that is due and that the cap admits in one sale. */
  lemma SessionSellsWhatIsDue(r: Rules, initial: real, strategy: string, env: Env, b: Book, c: Code, m: nat)
    requires r.Valid() && Sound(r, initial, b) && Due(r, env.members, env.firstOfMonth, env.signals, c)
    requires m <= Held(b.p, c) && InLots(m, r.lotSize) && ValidPrice(env.ctx.bar.opens, c)
    requires WithinParticipation(r, c, m, env.ctx.bar.volumes)
    ensures SharesSold(AfterFills(r, strategy, env, b).log, c) - SharesSold(b.log, c) >= m
  {
    hide AfterFills, BeforeBuys, AfterSells, AfterMonthly, AfterExits, WithinParticipation, SharesSold, InLots,
         Accounts, CostsKept, CashFloor, OpenedInOrder, SellFill;
    SoldIsTaken(r, strategy, env, b, c);
    SalesOnlyTake(r, strategy, env, b, c);
    var left := Held(b.p, c) - m;
    OneLot(r.lotSize);
    MultiplesClosed(Held(b.p, c), m, r.lotSize);
    if env.members.Some? && c !in env.members.value {
      ExitsClearOutsiders(r, env, b, c);
      FullSellReaches(r, env.ctx, b.p, c, left);
    } else if r.monthlyLiquidation && env.firstOfMonth {
      MonthlyLiquidationClears(r, initial, strategy, env, b, c, left);
    } else {
      var s :| s in env.signals && s.action.Sell? && s.code == c;
      SellSignalIsHonoured(r, initial, strategy, env, b, s, left);
    }
  }

  /** A holding that is not due is not sold, unless a batch trims it. */
  lemma SessionSparesTheRest(r: Rules, strategy: string, env: Env, b: Book, c: Code)
    requires r.Valid() && WellFormed(r, b.p) && !Due(r, env.members, env.firstOfMonth, env.signals, c)
    requires r.targetWeights ==> forall s | s in env.signals :: !s.action.Buy?
    ensures SharesSold(AfterFills(r, strategy, env, b).log, c) == SharesSold(b.log, c)
  {
    hide AfterFills, AfterExits, SellMany, Batch, SharesSold, SellSignals, EquityAtOpen, WellFormed;
    SoldIsTaken(r, strategy, env, b, c);
    ExitsSpareMembers(r, env, b, c);
    var b1, sells := AfterExits(r, env, b), SellSignals(env.signals);
    NoOrdersNoSales(r, env.ctx, b1);
    SellSignalsSell(env.signals);
    var os := SignalOrders(sells, strategy);
    assert forall i | 0 <= i < |os| :: os[i].code == sells[i].code && sells[i] in sells;
    SellManySpares(r, env.ctx, b1, os, c);
    if r.targetWeights {
      NoBuysNoBatch(r, env);
    }
  }

  lemma NoBuysNoBatch(r: Rules, env: Env)
    requires r.Valid() && forall s | s in env.signals :: !s.action.Buy?
    ensures Batch(r, env) == []
  {
    hide Batch, MayBuy;
    BatchFollowsSignals(r, env);
    SomeSignal(Batch(r, env));
  }

  lemma SomeSignal(ss: seq<Signal>)
    ensures ss == [] || exists s :: s in ss
  {
    if ss != [] {
      assert ss[0] in ss;
    }
  }
}
