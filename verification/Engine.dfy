/** The backtest engine as it runs: a portfolio updated in place, order by order and session by session.
    Each method computes the function of the same step, whose laws are proved in the other modules. */
module Engine {
  import opened Wrappers
  import opened Numbers
  import CostModel
  import opened EngineTypes
  import opened Execution
  import opened BuySelection
  import opened TradingSession
  import Ledger
  import SessionLaws
  import RunLaws

  class PortfolioState {
    var cash: real
    var holdings: map<Code, nat>
    var order: seq<Code>
    var avgCosts: map<Code, real>
    var lastCloses: map<Code, real>

    function View(): Portfolio
      reads this
    {
      Portfolio(cash, holdings, order, avgCosts, lastCloses)
    }

    constructor (initial: real)
      ensures View() == Portfolio(initial, map[], [], map[], map[])
    {
      cash, holdings, order, avgCosts, lastCloses := initial, map[], [], map[], map[];
    }
  }

  class BacktestEngine {
    const rules: Rules
    const initialCapital: real
    const startDate: Date
    const endDate: Date
    const eligible: Option<map<Date, set<Code>>>

    ghost predicate Valid() {
      rules.Valid() && initialCapital > 0.0
    }

    constructor (rules: Rules, initialCapital: real, startDate: Date, endDate: Date,
                 eligible: Option<map<Date, set<Code>>>)
      requires rules.Valid() && initialCapital > 0.0
      ensures Valid()
      ensures this.rules == rules && this.initialCapital == initialCapital && this.eligible == eligible
      ensures this.startDate == startDate && this.endDate == endDate
    {
      this.rules, this.initialCapital, this.eligible := rules, initialCapital, eligible;
      this.startDate, this.endDate := startDate, endDate;
    }

    // --- Orders -------------------------------------------------------------------------------------

    method ExecuteSell(state: PortfolioState, ctx: Context, code: Code, requested: int, strategy: string, score: real)
      returns (trade: Option<Trade>)
      requires Valid()
      modifies state
      ensures var n := SellFill(rules, ctx, old(state.View()), code, requested);
              if n <= 0 then trade == None && state.View() == old(state.View())
              else trade == Some(SellTrade(rules, ctx, SellOrder(code, Some(requested), strategy, score), n))
                   && state.View() == AfterSell(rules, ctx, old(state.View()), code, n)
    {
      var held := if code in state.holdings then state.holdings[code] else 0;
      if held <= 0 || !ValidPrice(ctx.bar.opens, code) {
        return None;
      }
      var price := ctx.bar.opens[code];
      var shares := ExecutableShares(rules, code, MinI(requested, held), ctx.bar.volumes);
      if shares <= 0 {
        return None;
      }
      var proceeds := CostModel.SellProceeds(rules.fees, price, shares);
      state.cash := state.cash + proceeds;
      var remaining := held - shares;
      if remaining > 0 {
        state.holdings := state.holdings[code := remaining];
      } else {
        state.holdings := state.holdings - {code};
        state.order := Without(state.order, code);
        state.avgCosts := state.avgCosts - {code};
        state.lastCloses := state.lastCloses - {code};
      }
      trade := Some(Trade(ctx.date, ctx.signalDate, code, Sell, price, shares, Amount(price, shares),
                          Amount(price, shares) - proceeds, strategy, score));
    }

    /** Sells everything held of each code: the point-in-time exits and the monthly liquidation. */
    method LiquidateCodes(state: PortfolioState, ctx: Context, codes: seq<Code>, strategy: string, log: seq<Trade>)
      returns (log': seq<Trade>)
      requires Valid()
      modifies state
      ensures Book(state.View(), log') == SellMany(rules, ctx, Book(old(state.View()), log), Liquidate(codes, strategy))
    {
      ghost var os := Liquidate(codes, strategy);
      ghost var start := Book(state.View(), log);
      log' := log;
      for i := 0 to |codes|
        invariant Book(state.View(), log') == SellMany(rules, ctx, start, os[..i])
      {
        assert os[..i + 1][..i] == os[..i];
        var held := if codes[i] in state.holdings then state.holdings[codes[i]] else 0;
        var trade := ExecuteSell(state, ctx, codes[i], held, strategy, 0.0);
        if trade.Some? {
          log' := log' + [trade.value];
        }
      }
      assert os[..|codes|] == os;
    }

    method SellOnSignals(state: PortfolioState, ctx: Context, signals: seq<Signal>, strategy: string, log: seq<Trade>)
      returns (log': seq<Trade>)
      requires Valid()
      modifies state
      ensures Book(state.View(), log') ==
                 SellMany(rules, ctx, Book(old(state.View()), log), SignalOrders(signals, strategy))
    {
      ghost var os := SignalOrders(signals, strategy);
      ghost var start := Book(state.View(), log);
      log' := log;
      for i := 0 to |signals|
        invariant Book(state.View(), log') == SellMany(rules, ctx, start, os[..i])
      {
        assert os[..i + 1][..i] == os[..i];
        var held := if signals[i].code in state.holdings then state.holdings[signals[i].code] else 0;
        var trade := ExecuteSell(state, ctx, signals[i].code, held, strategy, signals[i].score);
        if trade.Some? {
          log' := log' + [trade.value];
        }
      }
      assert os[..|signals|] == os;
    }

    /** Sells what exceeds the targets. The holdings are listed before any of them is sold. */
    method TrimHoldings(state: PortfolioState, ctx: Context, equity: real, ss: seq<Signal>, ws: seq<real>,
                        strategy: string, log: seq<Trade>) returns (log': seq<Trade>)
      requires Valid() && |ss| == |ws|
      modifies state
      ensures var before := old(state.View());
              Book(state.View(), log') == SellMany(rules, ctx, Book(before, log),
                       TrimOrders(rules, ctx, before, equity, ss, ws, strategy))
    {
      var items, shares := state.order, state.holdings;
      ghost var before := state.View();
      ghost var os := TrimOrders(rules, ctx, before, equity, ss, ws, strategy);
      log' := log;
      for i := 0 to |items|
        invariant Book(state.View(), log') == SellMany(rules, ctx, Book(before, log), os[..i])
      {
        assert os[..i + 1][..i] == os[..i];
        var code := items[i];
        if ValidPrice(ctx.bar.opens, code) {
          var held := if code in shares then shares[code] else 0;
          var target := TargetShares(rules, Portion(equity, WeightOf(ss, ws, code)), ctx.bar.opens[code]);
          var excess := MaxI(held - target, 0);
          if excess > 0 {
            var trade := ExecuteSell(state, ctx, code, excess, strategy, 0.0);
            if trade.Some? {
              log' := log' + [trade.value];
            }
          }
        }
      }
      assert os[..|items|] == os;
    }

    /** The loop that drops one lot at a time: it ends at the largest affordable whole number of lots. */
    method AffordableShares(price: real, cash: real, n: int) returns (k: int)
      requires Valid() && n >= 0 && InLots(n, rules.lotSize)
      ensures k == Shrink(rules.fees, price, cash, n, rules.lotSize)
      ensures 0 <= k <= n && InLots(k, rules.lotSize)
      ensures k > 0 ==> CostModel.BuyCost(rules.fees, price, k) <= cash
      ensures forall m :: k < m <= n && InLots(m, rules.lotSize) ==> CostModel.BuyCost(rules.fees, price, m) > cash
    {
      k := n;
      var total := CostModel.BuyCost(rules.fees, price, k);
      while k > 0 && total > cash
        invariant Shrink(rules.fees, price, cash, k, rules.lotSize) == Shrink(rules.fees, price, cash, n, rules.lotSize)
        invariant k > 0 ==> total == CostModel.BuyCost(rules.fees, price, k)
        decreases k
      {
        k := k - rules.lotSize;
        total := if k > 0 then CostModel.BuyCost(rules.fees, price, k) else 0.0;
      }
      ShrinkIsMaximal(rules.fees, price, cash, n, rules.lotSize);
    }

    method BuyOnSignals(state: PortfolioState, ctx: Context, strategy: string, equity: real, ss: seq<Signal>,
                        ws: seq<real>, log: seq<Trade>) returns (log': seq<Trade>)
      requires Valid() && |ss| == |ws|
      modifies state
      ensures Book(state.View(), log') == BuyMany(rules, ctx, strategy, equity, Book(old(state.View()), log), ss, ws)
    {
      ghost var start := Book(state.View(), log);
      log' := log;
      for i := 0 to |ss|
        invariant Book(state.View(), log') == BuyMany(rules, ctx, strategy, equity, start, ss[..i], ws[..i])
      {
        assert ss[..i + 1][..i] == ss[..i] && ws[..i + 1][..i] == ws[..i];
        var trade := ExecuteBuy(state, ctx, strategy, equity, ss[i], ws[i]);
        if trade.Some? {
          log' := log' + [trade.value];
        }
      }
      assert ss[..|ss|] == ss && ws[..|ss|] == ws;
    }

    method ExecuteBuy(state: PortfolioState, ctx: Context, strategy: string, equity: real, s: Signal, weight: real)
      returns (trade: Option<Trade>)
      requires Valid()
      modifies state
      ensures var n := BuyFill(rules, ctx, old(state.View()), s.code, equity, weight);
              if n <= 0 then trade == None && state.View() == old(state.View())
              else s.code in ctx.bar.opens
                   && trade == Some(BuyTrade(rules, ctx, s, strategy, n))
                   && state.View() == AfterBuy(rules, ctx, old(state.View()), s.code, n)
    {
      hide CostModel.CalcShares, CostModel.BuyCost, ExecutableShares, Blend, Amount, Portion, Shrink, InLots;
      var held := if s.code in state.holdings then state.holdings[s.code] else 0;
      if held <= 0 && |state.order| >= rules.maxPositions {
        return None;
      }
      if !ValidPrice(ctx.bar.opens, s.code) {
        return None;
      }
      var price := ctx.bar.opens[s.code];
      var budget := MinR(state.cash, MaxR(Portion(equity, weight) - Amount(price, held), 0.0));
      var requested := CostModel.CalcShares(rules.fees, budget, price);
      var executable := ExecutableShares(rules, s.code, requested, ctx.bar.volumes);
      if executable <= 0 {
        return None;
      }
      ExecutableSharesProps(rules, s.code, requested, ctx.bar.volumes);
      executable := AffordableShares(price, state.cash, executable);
      if executable <= 0 {
        return None;
      }
      var total := CostModel.BuyCost(rules.fees, price, executable);
      var avg := if s.code in state.avgCosts then state.avgCosts[s.code] else 0.0;
      var shares := held + executable;
      state.cash := state.cash - total;
      if s.code !in state.holdings {
        state.order := state.order + [s.code];
      }
      state.holdings := state.holdings[s.code := shares];
      state.avgCosts := state.avgCosts[s.code := Blend(avg, held, total, shares)];
      trade := Some(Trade(ctx.date, ctx.signalDate, s.code, Buy, price, executable, Amount(price, executable),
                          total - Amount(price, executable), strategy, s.score));
    }

    /** Keeps the first signal of each code until the batch is full. */
    method SelectBuys(sorted: seq<Signal>) returns (batch: seq<Signal>)
      requires Valid()
      ensures batch == Chosen(sorted, rules.maxPositions)
    {
      batch := [];
      var seen: set<Code> := {};
      var i := 0;
      while i < |sorted|
        invariant 0 <= i <= |sorted|
        invariant batch == Chosen(sorted[..i], rules.maxPositions)
        invariant forall c :: c in seen <==> HasCode(batch, c)
        invariant |batch| < rules.maxPositions
      {
        assert sorted[..i + 1][..i] == sorted[..i];
        var s := sorted[i];
        i := i + 1;
        if s.code !in seen {
          ghost var before := batch;
          seen := seen + {s.code};
          batch := batch + [s];
          HasCodeAppend(before, s);
          if |batch| >= rules.maxPositions {
            FullBatchStays(sorted, i, rules.maxPositions);
            return;
          }
        }
      }
      assert sorted[..i] == sorted;
    }

    static lemma HasCodeAppend(b: seq<Signal>, s: Signal)
      ensures forall c :: HasCode(b + [s], c) <==> HasCode(b, c) || s.code == c
    {
      forall c
        ensures HasCode(b + [s], c) <==> HasCode(b, c) || s.code == c
      {
        if HasCode(b, c) {
          var i :| 0 <= i < |b| && b[i].code == c;
          assert (b + [s])[i].code == c;
        }
        assert (b + [s])[|b|] == s;
      }
    }

    static lemma {:induction false} FullBatchStays(s: seq<Signal>, i: nat, max: int)
      requires i <= |s| && |Chosen(s[..i], max)| >= max
      ensures Chosen(s, max) == Chosen(s[..i], max)
      decreases |s|
    {
      if i < |s| {
        assert s[..|s| - 1][..i] == s[..i];
        FullBatchStays(s[..|s| - 1], i, max);
      } else {
        assert s[..i] == s;
      }
    }

    method PortfolioEquityAtOpen(state: PortfolioState, opens: map<Code, real>) returns (equity: real)
      ensures equity == EquityAtOpen(state.View(), opens)
      ensures forall prices | SessionLaws.PricedAtOpen(state.View(), opens, prices) ::
                equity == Ledger.ValueAt(state.View(), prices)
    {
      var value := 0.0;
      for i := 0 to |state.order|
        invariant value == OpenWorth(state.order[..i], state.View(), opens)
      {
        assert state.order[..i + 1][..i] == state.order[..i];
        var code := state.order[i];
        var price := if code in opens then opens[code]
                     else if code in state.lastCloses then state.lastCloses[code] else 0.0;
        if price > 0.0 {
          value := value + Amount(price, if code in state.holdings then state.holdings[code] else 0);
        }
      }
      assert state.order[..|state.order|] == state.order;
      equity := state.cash + value;
      forall prices | SessionLaws.PricedAtOpen(state.View(), opens, prices)
        ensures equity == Ledger.ValueAt(state.View(), prices)
      {
        SessionLaws.EquityAtOpenIsValue(state.View(), opens, prices);
      }
    }

    // --- Sessions -----------------------------------------------------------------------------------

    /** All fills of a session, phase by phase. */
    method TradeSession(state: PortfolioState, strategy: string, env: Env, log: seq<Trade>) returns (log': seq<Trade>)
      requires Valid()
      modifies state
      ensures Book(state.View(), log') == AfterFills(rules, strategy, env, Book(old(state.View()), log))
    {
      log' := log;
      if env.members.Some? {
        log' := LiquidateCodes(state, env.ctx, SortCodes(Outsiders(state.order, env.members.value)), EXIT_TAG, log');
      }
      if rules.monthlyLiquidation && env.firstOfMonth {
        log' := LiquidateCodes(state, env.ctx, state.order, MONTHLY_TAG, log');
      }
      log' := SellOnSignals(state, env.ctx, SellSignals(env.signals), strategy, log');
      var batch := SelectBuys(SortByScore(EligibleBuys(env, env.signals)));
      var weights := TargetWeights(batch);
      if batch != [] {
        var equity := PortfolioEquityAtOpen(state, env.ctx.bar.opens);
        if rules.targetWeights {
          log' := TrimHoldings(state, env.ctx, equity, batch, weights, strategy, log');
        }
        log' := BuyOnSignals(state, env.ctx, strategy, equity, batch, weights, log');
      }
    }

    /** Values the holdings at the close, remembering the last valid close of each. */
    method MarkToMarket(state: PortfolioState, date: Date, closes: map<Code, real>)
      returns (snaps: seq<Snapshot>, total: real)
      requires forall c :: c in state.order ==> c in state.holdings
      requires forall c :: c in state.holdings ==> c in state.order
      modifies state`lastCloses
      ensures state.View() == Marked(old(state.View()), closes)
      ensures snaps == Snapshots(date, state.order, state.View())
      ensures total == MarketValue(snaps)
    {
      hide Amount, Marked, MarkedSoFar, Snapshots, MarketValue;
      snaps, total := [], 0.0;
      ghost var before, after := state.View(), Marked(state.View(), closes);
      MarkedAll(before, closes);
      NothingSnapped(date, after);
      for i := 0 to |state.order|
        invariant state.lastCloses == MarkedSoFar(before.lastCloses, before.order[..i], closes)
        invariant snaps == Snapshots(date, before.order[..i], after)
        invariant total == MarketValue(snaps)
      {
        assert before.order[..i + 1] == before.order[..i] + [before.order[i]];
        var code := state.order[i];
        SnapOne(date, before.order[..i], code, after);
        if ValidPrice(closes, code) {
          state.lastCloses := state.lastCloses[code := closes[code]];
        }
        MarkOne(before, before.order[..i], code, closes);
        var close := if code in state.lastCloses then state.lastCloses[code] else 0.0;
        if close > 0.0 {
          var shares := if code in state.holdings then state.holdings[code] else 0;
          var avg := if code in state.avgCosts then state.avgCosts[code] else close;
          var snap := Snapshot(date, code, shares, avg, close, Amount(close, shares), Amount(close - avg, shares));
          RunLaws.MarketValueAppend(snaps, snap);
          total := total + Amount(close, shares);
          snaps := snaps + [snap];
        }
      }
      assert before.order[..|before.order|] == before.order;
    }

    static ghost function MarkedSoFar(lastCloses: map<Code, real>, codes: seq<Code>, closes: map<Code, real>):
      map<Code, real> {
      lastCloses + map c | c in codes && ValidPrice(closes, c) :: closes[c]
    }

    static lemma MarkedAll(p: Portfolio, closes: map<Code, real>)
      requires forall c :: c in p.order <==> c in p.holdings
      ensures Marked(p, closes) == p.(lastCloses := MarkedSoFar(p.lastCloses, p.order, closes))
      ensures MarkedSoFar(p.lastCloses, [], closes) == p.lastCloses
    {
    }

    static lemma NothingSnapped(date: Date, p: Portfolio)
      ensures Snapshots(date, [], p) == [] && MarketValue([]) == 0.0
    {
    }

    static lemma SnapOne(date: Date, codes: seq<Code>, c: Code, p: Portfolio)
      ensures Snapshots(date, codes + [c], p)
           == Snapshots(date, codes, p) + (if Quote(p.lastCloses, c) > 0.0 then [Snap(date, p, c)] else [])
    {
      assert (codes + [c])[..|codes|] == codes;
    }

    /** Marking one more code, whose last close is then final. */
    static lemma MarkOne(p: Portfolio, codes: seq<Code>, c: Code, closes: map<Code, real>)
      requires c in p.holdings
      ensures var now := MarkedSoFar(p.lastCloses, codes + [c], closes);
              && now == (var earlier := MarkedSoFar(p.lastCloses, codes, closes);
                         if ValidPrice(closes, c) then earlier[c := closes[c]] else earlier)
              && Quote(now, c) == Quote(Marked(p, closes).lastCloses, c)
              && (c in now <==> c in Marked(p, closes).lastCloses)
    {
      hide MarkedSoFar, Marked;
      MarkedOneMore(p.lastCloses, codes, c, closes);
      MarkedIsFinal(p, codes + [c], c, closes);
    }

    static lemma MarkedOneMore(lastCloses: map<Code, real>, codes: seq<Code>, c: Code, closes: map<Code, real>)
      ensures MarkedSoFar(lastCloses, codes + [c], closes)
           == (var earlier := MarkedSoFar(lastCloses, codes, closes);
               if ValidPrice(closes, c) then earlier[c := closes[c]] else earlier)
    {
      var earlier, now := MarkedSoFar(lastCloses, codes, closes), MarkedSoFar(lastCloses, codes + [c], closes);
      assert forall x | x != c :: x in now <==> x in earlier;
    }

    static lemma MarkedIsFinal(p: Portfolio, codes: seq<Code>, c: Code, closes: map<Code, real>)
      requires c in p.holdings && c in codes
      ensures var now, final := MarkedSoFar(p.lastCloses, codes, closes), Marked(p, closes).lastCloses;
              Quote(now, c) == Quote(final, c) && (c in now <==> c in final)
    {
    }

    /** One session: its fills, then the closing mark with its snapshots and its equity record. */
    method RunDay(state: PortfolioState, strategy: string, env: Env, log: seq<Trade>)
      returns (log': seq<Trade>, snaps: seq<Snapshot>, record: EquityRecord)
      requires Valid()
      requires var p := AfterFills(rules, strategy, env, Book(state.View(), log)).p;
               forall c :: c in p.order <==> c in p.holdings
      modifies state
      ensures var b, p := AfterFills(rules, strategy, env, Book(old(state.View()), log)), state.View();
              && p == Marked(b.p, env.ctx.bar.closes) && log' == b.log
              && snaps == Snapshots(env.ctx.date, p.order, p)
              && record == EquityRecord(env.ctx.date, p.cash + MarketValue(snaps), p.cash)
    {
      hide AfterFills, Marked, Snapshots, MarketValue;
      log' := TradeSession(state, strategy, env, log);
      var total;
      snaps, total := MarkToMarket(state, env.ctx.date, env.ctx.bar.closes);
      record := EquityRecord(env.ctx.date, state.cash + total, state.cash);
    }

    /** The backtest: sessions in order, each fill and each closing mark on one portfolio. */
    method Run(strategy: string, days: seq<Day>, bars: map<Date, Bar>, signals: map<Option<Date>, seq<Signal>>)
      returns (result: Result<BacktestResult, Failure>)
      requires Valid() && InOrder(days)
      ensures result == Backtest(Inputs(rules, initialCapital, startDate, endDate, strategy, days, bars, signals,
                                        eligible))
    {
      hide AfterFills, Marked, Snapshots, MarketValue, DaysBetween, LastBefore, SignalsOn, MembersOn;
      var inp := Inputs(rules, initialCapital, startDate, endDate, strategy, days, bars, signals, eligible);
      var td := TradingDays(inp);
      if |td| == 0 {
        return Ok(BacktestResult([], [], [], initialCapital, 0, 0));
      }
      if exists i | 0 <= i < |td| :: td[i].date !in bars {
        return Err(MissingExecutionSession);
      }
      var state := new PortfolioState(initialCapital);
      var log: seq<Trade>, snapshots: seq<Snapshot> := [], [];
      var curve := [EquityRecord(td[0].date - 1, initialCapital, initialCapital)];
      var signalsSeen := 0;
      var previousMonth: Option<int> := None;
      for i := 0 to |td|
        invariant fresh(state) && |curve| == i + 1 && signalsSeen >= 0
        invariant previousMonth == if i == 0 then None else Some(td[i - 1].month)
        invariant RunTo(inp, td, i) == Ok(RunState(Book(state.View(), log), snapshots, curve, signalsSeen))
      {
        var today := td[i];
        var firstOfMonth := previousMonth != Some(today.month);
        previousMonth := Some(today.month);
        var signalDate := if i > 0 then Some(td[i - 1].date) else LastBefore(days, today.date);
        var todaySignals := SignalsOn(inp, signalDate);
        signalsSeen := signalsSeen + |todaySignals|;
        if eligible.Some? && today.date !in eligible.value {
          FailedRunStaysFailed(inp, td, i + 1, |td|);
          return Err(MissingEligibility);
        }
        var env := Env(Context(today.date, signalDate, bars[today.date]), firstOfMonth, todaySignals,
                       MembersOn(inp, Some(today.date)), MembersOn(inp, signalDate));
        assert env == EnvAt(inp, td, i);
        FillsKeepOrder(inp, td, i, Book(state.View(), log));
        var snaps, record;
        log, snaps, record := RunDay(state, strategy, env, log);
        snapshots, curve := snapshots + snaps, curve + [record];
      }
      result := Ok(BacktestResult(curve, log, snapshots, curve[|curve| - 1].equity, signalsSeen, |log|));
    }

    /** After the fills of a session the order of the holdings lists exactly the holdings. */
    static lemma FillsKeepOrder(inp: Inputs, td: seq<Day>, i: nat, before: Book)
      requires RunLaws.Runnable(inp, td) && i < |td| && RunTo(inp, td, i).Ok? && RunTo(inp, td, i).value.book == before
      ensures var p := AfterFills(inp.rules, inp.strategy, EnvAt(inp, td, i), before).p;
              forall c :: c in p.order <==> c in p.holdings
    {
      hide AfterFills, RunTo, EnvAt;
      RunLaws.RunIsSound(inp, td, i);
      SessionLaws.FillsAreSound(inp.rules, inp.initialCapital, inp.strategy, EnvAt(inp, td, i), before);
    }

    static lemma {:induction false} FailedRunStaysFailed(inp: Inputs, td: seq<Day>, n: nat, m: nat)
      requires inp.rules.Valid() && td != [] && n <= m <= |td| && TapeComplete(inp, td)
      requires RunTo(inp, td, n).Err?
      ensures RunTo(inp, td, m) == RunTo(inp, td, n)
      decreases m
    {
      hide Advance;
      if n < m {
        FailedRunStaysFailed(inp, td, n, m - 1);
      }
    }
  }
}
