/** The laws of whole backtests: every reachable state is sound, profit is attributed exactly, every
    trade is a T+1 trade, and no state depends on what comes later. */
module RunLaws {
  import opened Wrappers
  import opened Numbers
  import CostModel
  import opened EngineTypes
  import Execution
  import BuySelection
  import opened TradingSession
  import opened Ledger
  import opened SessionLaws
  import SessionCauses

  /** The sessions td can be run. */
  ghost predicate Runnable(inp: Inputs, td: seq<Day>) {
    inp.Valid() && td != [] && TapeComplete(inp, td)
  }

  // --- Invariants ---------------------------------------------------------------------------------

  lemma StartIsSound(inp: Inputs, td: seq<Day>)
    requires Runnable(inp, td)
    ensures Sound(inp.rules, inp.initialCapital, Start(inp, td).book)
  {
    assert SellCount([]) == 0;
    assert forall c :: CostBasis([], c) == 0.0;
  }

  /** In every reachable state the portfolio is well formed, the log accounts for it exactly, and the
      cash is above its floor. */
  lemma {:induction false} RunIsSound(inp: Inputs, td: seq<Day>, n: nat)
    requires Runnable(inp, td) && n <= |td|
    ensures RunTo(inp, td, n).Ok? ==> Sound(inp.rules, inp.initialCapital, RunTo(inp, td, n).value.book)
  {
    hide Sound, AfterFills, Snapshots, MarketValue, EnvAt, Start, Marked;
    if n == 0 {
      StartIsSound(inp, td);
    } else if RunTo(inp, td, n).Ok? {
      RunIsSound(inp, td, n - 1);
      var env, b := EnvAt(inp, td, n - 1), RunTo(inp, td, n - 1).value.book;
      FillsAreSound(inp.rules, inp.initialCapital, inp.strategy, env, b);
      MarkingIsSound(inp.rules, inp.initialCapital, AfterFills(inp.rules, inp.strategy, env, b), env.ctx.bar.closes);
    }
  }

  lemma {:induction false} DistinctCount(s: seq<Code>, m: set<Code>)
    requires Distinct(s) && forall c :: c in s <==> c in m
    ensures |m| == |s|
  {
    if s == [] {
      assert m == {};
    } else {
      var k := |s| - 1;
      assert s == s[..k] + [s[k]] && s[k] !in s[..k];
      DistinctCount(s[..k], m - {s[k]});
    }
  }

  /** At most maxPositions codes are ever held. */
  lemma RunHoldsFewPositions(inp: Inputs, td: seq<Day>, n: nat)
    requires Runnable(inp, td) && n <= |td|
    ensures RunTo(inp, td, n).Ok? ==> |RunTo(inp, td, n).value.book.p.holdings.Keys| <= inp.rules.maxPositions
  {
    hide InLots, RunTo;
    RunIsSound(inp, td, n);
    if RunTo(inp, td, n).Ok? {
      var p := RunTo(inp, td, n).value.book.p;
      DistinctCount(p.order, p.holdings.Keys);
    }
  }

  // --- Attribution of profit ------------------------------------------------------------------------

  /** What the listed holdings gain when prices move. */
  function Gain(order: seq<Code>, p: Portfolio, from: map<Code, real>, to: map<Code, real>): real {
    if order == [] then 0.0
    else
      var c := order[|order| - 1];
      Gain(order[..|order| - 1], p, from, to) + Amount(Quote(to, c) - Quote(from, c), Held(p, c))
  }

  lemma AmountDifference(a: real, b: real, n: int)
    ensures Amount(a - b, n) == Amount(a, n) - Amount(b, n)
  {
  }

  lemma {:induction false} GainIsDifference(order: seq<Code>, p: Portfolio, from: map<Code, real>, to: map<Code, real>)
    ensures Gain(order, p, from, to) == Worth(order, p, to) - Worth(order, p, from)
  {
    hide Amount;
    if order != [] {
      var c := order[|order| - 1];
      GainIsDifference(order[..|order| - 1], p, from, to);
      AmountDifference(Quote(to, c), Quote(from, c), Held(p, c));
    }
  }

  /** The snapshots of a session add up to the worth of the holdings at their last closing prices. */
  lemma {:induction false} SnapshotsAddUp(date: Date, order: seq<Code>, p: Portfolio)
    requires forall c | c in p.lastCloses :: p.lastCloses[c] > 0.0
    ensures MarketValue(Snapshots(date, order, p)) == Worth(order, p, p.lastCloses)
  {
    hide Amount;
    if order != [] {
      var k := |order| - 1;
      var before, c := Snapshots(date, order[..k], p), order[k];
      SnapshotsAddUp(date, order[..k], p);
      if Quote(p.lastCloses, c) > 0.0 {
        assert Snapshots(date, order, p) == before + [Snap(date, p, c)];
        MarketValueAppend(before, Snap(date, p, c));
      } else {
        assert c !in p.lastCloses && Snapshots(date, order, p) == before;
        NothingIsWorthNothing(Held(p, c));
      }
    }
  }

  lemma MarketValueAppend(snaps: seq<Snapshot>, x: Snapshot)
    ensures MarketValue(snaps + [x]) == MarketValue(snaps) + x.marketValue
  {
    assert (snaps + [x])[..|snaps|] == snaps;
  }

  function UnrealizedTotal(snaps: seq<Snapshot>): real {
    if snaps == [] then 0.0 else UnrealizedTotal(snaps[..|snaps| - 1]) + snaps[|snaps| - 1].unrealizedPnl
  }

  /** The unrealized profits of a session's snapshots add up to the gain of the holdings over their costs. */
  lemma {:induction false} UnrealizedIsGainOverCost(date: Date, order: seq<Code>, p: Portfolio)
    requires forall c | c in order :: c in p.avgCosts && ValidPrice(p.lastCloses, c)
    ensures UnrealizedTotal(Snapshots(date, order, p)) == Gain(order, p, p.avgCosts, p.lastCloses)
  {
    hide Amount;
    if order != [] {
      var k := |order| - 1;
      var before, c := Snapshots(date, order[..k], p), order[k];
      UnrealizedIsGainOverCost(date, order[..k], p);
      assert c in order;
      var now := Snapshots(date, order, p);
      assert now == before + [Snap(date, p, c)] && now[..|now| - 1] == before;
    }
  }

  /** The recorded equity is the cash and the holdings at their last closing prices. */
  lemma CurveIsEquity(inp: Inputs, td: seq<Day>, n: nat)
    requires Runnable(inp, td) && n <= |td| && RunTo(inp, td, n).Ok?
    ensures var st := RunTo(inp, td, n).value;
            && |st.curve| == n + 1
            && st.curve[n].date == (if n > 0 then td[n - 1].date else td[0].date - 1)
            && st.curve[n].cash == st.book.p.cash
            && st.curve[n].equity == ValueAt(st.book.p, st.book.p.lastCloses)
  {
    hide InLots, AfterFills, Marked, EnvAt, Accounts, CashFloor;
    CurveLength(inp, td, n);
    RunIsSound(inp, td, n);
    if n > 0 {
      CurveLength(inp, td, n - 1);
      var p := RunTo(inp, td, n).value.book.p;
      SnapshotsAddUp(EnvAt(inp, td, n - 1).ctx.date, p.order, p);
      SessionDate(inp, td, n - 1);
    }
  }

  lemma SessionDate(inp: Inputs, td: seq<Day>, i: nat)
    requires i < |td| && td[i].date in inp.bars
    ensures EnvAt(inp, td, i).ctx.date == td[i].date
  {
  }

  /** The change of equity over a session is what the old holdings gained overnight, plus what the new
      holdings gained from open to close, minus the fees of the session's fills. */
  lemma DailyAttribution(inp: Inputs, td: seq<Day>, n: nat)
    requires Runnable(inp, td) && n < |td| && RunTo(inp, td, n + 1).Ok?
    ensures RunTo(inp, td, n).Ok?
    ensures var a, b, bar := RunTo(inp, td, n).value, RunTo(inp, td, n + 1).value, inp.bars[td[n].date];
            var p, q := a.book.p, b.book.p;
            && |a.curve| == n + 1 && |b.curve| == n + 2
            && b.curve[n + 1].equity - a.curve[n].equity
               == Gain(p.order, p, p.lastCloses, bar.opens) + Gain(q.order, q, bar.opens, q.lastCloses)
                  - (TotalFees(b.book.log) - TotalFees(a.book.log))
            && forall c | c in q.holdings && ValidPrice(bar.closes, c) :: Quote(q.lastCloses, c) == bar.closes[c]
  {
    hide InLots, AfterFills, Snapshots, MarketValue, Sound, Gain, Worth, TotalFees;
    var r, env := inp.rules, EnvAt(inp, td, n);
    var a, b := RunTo(inp, td, n).value, RunTo(inp, td, n + 1).value;
    var p, q, opens := a.book.p, b.book.p, env.ctx.bar.opens;
    CurveIsEquity(inp, td, n);
    CurveIsEquity(inp, td, n + 1);
    RunIsSound(inp, td, n);
    FillsAreSound(r, inp.initialCapital, inp.strategy, env, a.book);
    var filled := AfterFills(r, inp.strategy, env, a.book).p;
    assert q == Marked(filled, env.ctx.bar.closes);
    WorthSame(q.order, filled, q, opens);
    GainIsDifference(p.order, p, p.lastCloses, opens);
    GainIsDifference(q.order, q, opens, q.lastCloses);
  }

  lemma {:induction false} WorthAgrees(order: seq<Code>, p: Portfolio, a: map<Code, real>, b: map<Code, real>)
    requires forall c | c in order :: Quote(a, c) == Quote(b, c)
    ensures Worth(order, p, a) == Worth(order, p, b)
  {
    hide Amount;
    if order != [] {
      WorthAgrees(order[..|order| - 1], p, a, b);
    }
  }

  /** What is held after a session was held before it or had a quotation to buy it at. */
  lemma HeldWasQuoted(r: Rules, strategy: string, env: Env, b: Book, c: Code)
    requires r.Valid() && Held(AfterFills(r, strategy, env, b).p, c) > 0
    ensures Held(b.p, c) > 0 || c in env.ctx.bar.opens
  {
    hide FilledToday, SharesSold, BuySelection.HasCode, AfterSells, AfterTrims, EquityAtOpen, Batch,
         Execution.SellMany, Execution.BuyMany, Portion, Amount;
    SellingPhases(r, strategy, env, b);
    BatchIsDistinct(r, env);
    var mid, ss := BeforeBuys(r, strategy, env, b), Batch(r, env);
    assert Held(mid.p, c) <= Held(b.p, c);
    if ss != [] {
      var equity := EquityAtOpen(AfterSells(r, strategy, env, b).p, env.ctx.bar.opens);
      var end := AfterFills(r, strategy, env, b);
      BuyManyOnlyBuys(r, env.ctx, strategy, equity, mid, ss, BuySelection.TargetWeights(ss));
      if BuySelection.HasCode(ss, c) {
        var i := CodeIndex(ss, c);
        assert BoughtWithin(env.ctx, Portion(equity, BuySelection.TargetWeights(ss)[i]), mid, end, ss[i].code);
      }
    }
  }

  ghost predicate PricesConstant(inp: Inputs, td: seq<Day>, prices: map<Code, real>, n: nat)
    requires n <= |td| && TapeComplete(inp, td)
  {
    && (forall c | c in prices :: prices[c] > 0.0)
    && (forall i | 0 <= i < n :: inp.bars[td[i].date].opens == prices && inp.bars[td[i].date].closes == prices)
  }

  /** While prices do not move, the equity is the initial capital less the fees paid. */
  lemma {:induction false} ConstantPricesLoseOnlyFees(inp: Inputs, td: seq<Day>, prices: map<Code, real>, n: nat)
    requires Runnable(inp, td) && n <= |td| && RunTo(inp, td, n).Ok?
    requires PricesConstant(inp, td, prices, n)
    ensures var st := RunTo(inp, td, n).value;
            && |st.curve| == n + 1
            && st.curve[n].equity == inp.initialCapital - TotalFees(st.book.log)
            && st.book.p.lastCloses.Keys == st.book.p.holdings.Keys
            && forall c | c in st.book.p.holdings :: c in prices && st.book.p.lastCloses[c] == prices[c]
  {
    hide InLots, Advance, Gain, Worth, TotalFees, Accounts, CashFloor;
    if n > 0 {
      var a, b := RunTo(inp, td, n - 1).value, RunTo(inp, td, n).value;
      ConstantPricesLoseOnlyFees(inp, td, prices, n - 1);
      RunIsSound(inp, td, n - 1);
      RunIsSound(inp, td, n);
      MarkedAtConstantPrices(inp, td, prices, n);
      DailyAttribution(inp, td, n - 1);
      NoGain(a.book.p, a.book.p.lastCloses, prices);
      NoGain(b.book.p, prices, b.book.p.lastCloses);
    } else {
      NoFees();
    }
  }

  lemma NoFees()
    ensures TotalFees([]) == 0.0
  {
  }

  lemma NoGain(p: Portfolio, from: map<Code, real>, to: map<Code, real>)
    requires forall c | c in p.order :: Quote(from, c) == Quote(to, c)
    ensures Gain(p.order, p, from, to) == 0.0
  {
    GainIsDifference(p.order, p, from, to);
    WorthAgrees(p.order, p, from, to);
  }

  lemma MarkedAtConstantPrices(inp: Inputs, td: seq<Day>, prices: map<Code, real>, n: nat)
    requires Runnable(inp, td) && 0 < n <= |td| && RunTo(inp, td, n).Ok?
    requires PricesConstant(inp, td, prices, n)
    requires forall c | c in RunTo(inp, td, n - 1).value.book.p.holdings :: c in prices
    requires Sound(inp.rules, inp.initialCapital, RunTo(inp, td, n - 1).value.book)
    requires Sound(inp.rules, inp.initialCapital, RunTo(inp, td, n).value.book)
    ensures var p := RunTo(inp, td, n).value.book.p;
            p.lastCloses.Keys == p.holdings.Keys
            && forall c | c in p.holdings :: c in prices && p.lastCloses[c] == prices[c]
  {
    hide InLots, AfterFills, Snapshots, MarketValue, Accounts, CashFloor, LastBefore;
    var before, q := RunTo(inp, td, n - 1).value.book, RunTo(inp, td, n).value.book.p;
    var env := EnvAt(inp, td, n - 1);
    var end := AfterFills(inp.rules, inp.strategy, env, before);
    assert q == Marked(end.p, prices);
    forall c | c in q.holdings
      ensures c in prices && c in q.lastCloses && q.lastCloses[c] == prices[c]
    {
      assert Held(end.p, c) > 0;
      HeldWasQuoted(inp.rules, inp.strategy, env, before, c);
    }
  }

  // --- T+1 over the run ---------------------------------------------------------------------------

  /** The session before session i, on the tape if i is the first of the run. */
  ghost function Preceding(inp: Inputs, td: seq<Day>, i: nat): Option<Date>
    requires i < |td|
  {
    if i > 0 then Some(td[i - 1].date) else LastBefore(inp.days, td[0].date)
  }

  /** The signals filed under the session before session i. */
  ghost function Filed(inp: Inputs, td: seq<Day>, i: nat): seq<Signal>
    requires i < |td|
  {
    var date := Preceding(inp, td, i);
    if date in inp.signals then inp.signals[date] else []
  }

  ghost predicate MonthBegins(td: seq<Day>, i: nat)
    requires i < |td|
  {
    i > 0 ==> td[i].month != td[i - 1].month
  }

  /** t has its cause in the signals filed under the preceding session, the index or the calendar. */
  ghost predicate CausedAt(inp: Inputs, td: seq<Day>, i: nat, t: Trade)
    requires i < |td|
  {
    SessionCauses.Caused(inp.rules, inp.strategy, MembersOn(inp, Some(td[i].date)),
                         MembersOn(inp, Preceding(inp, td, i)), MonthBegins(td, i), Filed(inp, td, i), t)
  }

  /** t was filled in session i, decided on the session before it, and bought only an index member. */
  ghost predicate FilledAt(inp: Inputs, td: seq<Day>, i: nat, t: Trade)
    requires Runnable(inp, td) && i < |td|
  {
    && FilledToday(inp.rules, EnvAt(inp, td, i).ctx, t)
    && (t.action.Buy? ==> BuyEligible(EnvAt(inp, td, i), t.code))
    && CausedAt(inp, td, i, t)
  }

  ghost predicate FilledWithin(inp: Inputs, td: seq<Day>, n: nat, t: Trade)
    requires Runnable(inp, td) && n <= |td|
  {
    exists i | 0 <= i < n :: FilledAt(inp, td, i, t)
  }

  lemma FilledLater(inp: Inputs, td: seq<Day>, n: nat, t: Trade)
    requires Runnable(inp, td) && 0 < n <= |td|
    requires FilledWithin(inp, td, n - 1, t) || FilledAt(inp, td, n - 1, t)
    ensures FilledWithin(inp, td, n, t)
  {
    hide FilledAt, Runnable;
  }

  lemma FilledStep(inp: Inputs, td: seq<Day>, n: nat, before: seq<Trade>, log: seq<Trade>)
    requires Runnable(inp, td) && 0 < n <= |td| && before <= log
    requires forall k | 0 <= k < |before| :: FilledWithin(inp, td, n - 1, before[k])
    requires forall k | |before| <= k < |log| :: FilledAt(inp, td, n - 1, log[k])
    ensures forall k | 0 <= k < |log| :: FilledWithin(inp, td, n, log[k])
  {
    hide Runnable, FilledAt, FilledWithin;
    forall k | 0 <= k < |log|
      ensures FilledWithin(inp, td, n, log[k])
    {
      if k < |before| {
        assert log[k] == before[k];
      }
      FilledLater(inp, td, n, log[k]);
    }
  }

  lemma {:induction false} RunFillsAreDated(inp: Inputs, td: seq<Day>, n: nat)
    requires Runnable(inp, td) && n <= |td| && RunTo(inp, td, n).Ok?
    ensures forall k | 0 <= k < |RunTo(inp, td, n).value.book.log| ::
              FilledWithin(inp, td, n, RunTo(inp, td, n).value.book.log[k])
  {
    hide FilledWithin, FilledAt, Advance, AfterFills, EnvAt, Sound;
    if n > 0 {
      SessionBook(inp, td, n);
      RunFillsAreDated(inp, td, n - 1);
      RunIsSound(inp, td, n - 1);
      var before := RunTo(inp, td, n - 1).value.book;
      SessionFillsAreFilledAt(inp, td, n - 1, before);
      FilledStep(inp, td, n, before.log, RunTo(inp, td, n).value.book.log);
    }
  }

  /** A session's log is that of its fills. */
  lemma SessionBook(inp: Inputs, td: seq<Day>, n: nat)
    requires Runnable(inp, td) && 0 < n <= |td| && RunTo(inp, td, n).Ok?
    ensures RunTo(inp, td, n - 1).Ok?
    ensures RunTo(inp, td, n).value.book.log
         == AfterFills(inp.rules, inp.strategy, EnvAt(inp, td, n - 1), RunTo(inp, td, n - 1).value.book).log
  {
    hide AfterFills, Marked, Snapshots, MarketValue, EnvAt;
  }

  lemma SessionFillsAreFilledAt(inp: Inputs, td: seq<Day>, i: nat, b: Book)
    requires Runnable(inp, td) && i < |td| && Sound(inp.rules, inp.initialCapital, b)
    ensures var log := AfterFills(inp.rules, inp.strategy, EnvAt(inp, td, i), b).log;
            b.log <= log && forall k | |b.log| <= k < |log| :: FilledAt(inp, td, i, log[k])
  {
    hide FilledToday, BuyEligible, AfterFills, BeforeBuys, SharesSold, EnvAt, Sound, CausedAt;
    SessionIsTPlusOne(inp.rules, inp.strategy, EnvAt(inp, td, i), b);
    SessionCausesHere(inp, td, i, b);
  }

  lemma SessionCausesHere(inp: Inputs, td: seq<Day>, i: nat, b: Book)
    requires Runnable(inp, td) && i < |td| && Sound(inp.rules, inp.initialCapital, b)
    ensures var log := AfterFills(inp.rules, inp.strategy, EnvAt(inp, td, i), b).log;
            b.log <= log && forall k | |b.log| <= k < |log| :: CausedAt(inp, td, i, log[k])
  {
    hide AfterFills, Sound, LastBefore, SessionCauses.Caused, MembersOn;
    SessionCauses.SessionIsCaused(inp.rules, inp.initialCapital, inp.strategy, EnvAt(inp, td, i), b);
  }

  /** Every trade of a run executes at the open of a session, at the fees of the schedule, with its cause in the
      signals filed under the session before, the index or the calendar. */
  lemma RunTradesAreTPlusOne(inp: Inputs, td: seq<Day>, n: nat, k: nat) returns (i: nat)
    requires Runnable(inp, td) && n <= |td| && RunTo(inp, td, n).Ok? && k < |RunTo(inp, td, n).value.book.log|
    ensures var t := RunTo(inp, td, n).value.book.log[k];
            && i < n && t.date == td[i].date && CausedAt(inp, td, i, t)
            && t.amount == t.price * t.shares as real
            && t.cost == CostModel.Charges(inp.rules.fees, t.amount, t.action.Sell?)
            && t.signalDate == (if i > 0 then Some(td[i - 1].date) else LastBefore(inp.days, td[0].date))
            && ValidPrice(inp.bars[td[i].date].opens, t.code) && t.price == inp.bars[td[i].date].opens[t.code]
            && (t.action.Buy? && inp.eligible.Some? ==>
                  && t.signalDate.Some?
                  && t.date in inp.eligible.value && t.code in inp.eligible.value[t.date]
                  && t.signalDate.value in inp.eligible.value && t.code in inp.eligible.value[t.signalDate.value])
  {
    hide InLots, RunTo, Execution.WithinParticipation, LastBefore, CausedAt, CostModel.Charges;
    RunFillsAreDated(inp, td, n);
    var t := RunTo(inp, td, n).value.book.log[k];
    assert FilledWithin(inp, td, n, t);
    i :| 0 <= i < n && FilledAt(inp, td, i, t);
    RunHadMembers(inp, td, n, i);
  }

  lemma {:induction false} RunHadMembers(inp: Inputs, td: seq<Day>, n: nat, i: nat)
    requires Runnable(inp, td) && i < n <= |td| && RunTo(inp, td, n).Ok?
    ensures !MembersMissing(inp, td[i].date)
  {
    hide Advance;
    if i < n - 1 {
      RunHadMembers(inp, td, n - 1, i);
    }
  }

  /** Among the trades of one date no sale follows a purchase, and no code is bought twice. */
  ghost predicate DayOrdered(log: seq<Trade>) {
    forall i, j | 0 <= i < j < |log| && log[i].date == log[j].date && log[i].action.Buy? ::
      !log[j].action.Sell? && (log[j].action.Buy? ==> log[j].code != log[i].code)
  }

  /** In the log of a run, the sales of a date come before its purchases, and each code is bought at most once. */
  lemma {:induction false} RunLogIsDayOrdered(inp: Inputs, td: seq<Day>, n: nat)
    requires Runnable(inp, td) && InOrder(td) && n <= |td| && RunTo(inp, td, n).Ok?
    ensures DayOrdered(RunTo(inp, td, n).value.book.log)
  {
    hide FilledToday, BuyEligible, AfterFills, BeforeBuys, Snapshots, MarketValue, SharesSold, EnvAt;
    if n > 0 {
      RunLogIsDayOrdered(inp, td, n - 1);
      var env, before := EnvAt(inp, td, n - 1), RunTo(inp, td, n - 1).value.book;
      SessionIsTPlusOne(inp.rules, inp.strategy, env, before);
      var log, mid := RunTo(inp, td, n).value.book.log, BeforeBuys(inp.rules, inp.strategy, env, before).log;
      assert log == AfterFills(inp.rules, inp.strategy, env, before).log;
      SessionStartsNewDate(inp, td, n, log, |before.log|);
      assert forall i | 0 <= i < |before.log| :: log[i] == before.log[i];
      forall i, j | 0 <= i < j < |log| && log[i].date == log[j].date && log[i].action.Buy?
        ensures !log[j].action.Sell? && (log[j].action.Buy? ==> log[j].code != log[i].code)
      {
        if j < |before.log| {
          assert before.log[i].date == before.log[j].date;
        } else {
          assert i >= |mid|;
        }
      }
    }
  }

  /** The trades of a session are dated after all earlier ones. */
  lemma SessionStartsNewDate(inp: Inputs, td: seq<Day>, n: nat, log: seq<Trade>, k: nat)
    requires Runnable(inp, td) && InOrder(td) && 0 < n <= |td| && RunTo(inp, td, n - 1).Ok?
    requires k <= |log| && log[..k] == RunTo(inp, td, n - 1).value.book.log
    requires forall i | k <= i < |log| :: FilledToday(inp.rules, EnvAt(inp, td, n - 1).ctx, log[i])
    ensures forall i, j | 0 <= i < k <= j < |log| :: log[i].date < log[j].date
  {
    hide RunTo, Execution.WithinParticipation, InLots, LastBefore;
    forall i, j | 0 <= i < k <= j < |log|
      ensures log[i].date < log[j].date
    {
      var at := RunTradesAreTPlusOne(inp, td, n - 1, i);
      assert log[i] == log[..k][i] && td[at].date < td[n - 1].date;
    }
  }

  /** Session n goes phase by phase, unless the strategy carries the name of a phase. */
  lemma RunSessionGoesInPhases(inp: Inputs, td: seq<Day>, n: nat)
    requires Runnable(inp, td) && n < |td| && RunTo(inp, td, n + 1).Ok?
    requires inp.strategy != EXIT_TAG && inp.strategy != MONTHLY_TAG
    ensures var before, log := RunTo(inp, td, n).value.book.log, RunTo(inp, td, n + 1).value.book.log;
            before <= log && SessionCauses.InPhases(log, |before|)
  {
    hide AfterFills, Snapshots, MarketValue, Sound, EnvAt, SessionCauses.InPhases;
    RunIsSound(inp, td, n);
    var before := RunTo(inp, td, n).value.book;
    SessionCauses.SessionGoesInPhases(inp.rules, inp.initialCapital, inp.strategy, EnvAt(inp, td, n), before);
  }

  /** In session n everything that can be sold of c has to be. */
  ghost predicate DueAt(inp: Inputs, td: seq<Day>, n: nat, c: Code)
    requires n < |td|
  {
    SessionCauses.Due(inp.rules, MembersOn(inp, Some(td[n].date)), MonthBegins(td, n), Filed(inp, td, n), c)
  }

  function SoldIn(inp: Inputs, td: seq<Day>, n: nat, c: Code): int
    requires inp.rules.Valid() && n < |td| && TapeComplete(inp, td) && RunTo(inp, td, n + 1).Ok?
  {
    SharesSold(RunTo(inp, td, n + 1).value.book.log, c) - SharesSold(RunTo(inp, td, n).value.book.log, c)
  }

  /** A code outside the index, every code when the month begins, and a code with a SELL signal filed under the
      session before: each is sold at least as far as one sale may go. */
  lemma RunSellsWhatIsDue(inp: Inputs, td: seq<Day>, n: nat, c: Code, m: nat)
    requires Runnable(inp, td) && n < |td| && RunTo(inp, td, n + 1).Ok? && DueAt(inp, td, n, c)
    requires var bar := inp.bars[td[n].date];
             && m <= Held(RunTo(inp, td, n).value.book.p, c) && InLots(m, inp.rules.lotSize)
             && ValidPrice(bar.opens, c) && Execution.WithinParticipation(inp.rules, c, m, bar.volumes)
    ensures SoldIn(inp, td, n, c) >= m
  {
    hide AfterFills, Snapshots, MarketValue, Sound, SharesSold, LastBefore, Execution.WithinParticipation, InLots,
         MembersOn, SessionCauses.Due;
    RunIsSound(inp, td, n);
    var env, before := EnvAt(inp, td, n), RunTo(inp, td, n).value.book;
    SessionCauses.SessionSellsWhatIsDue(inp.rules, inp.initialCapital, inp.strategy, env, before, c, m);
  }

  /** Nothing else is sold, unless target weights trim it. */
  lemma RunSparesTheRest(inp: Inputs, td: seq<Day>, n: nat, c: Code)
    requires Runnable(inp, td) && n < |td| && RunTo(inp, td, n + 1).Ok? && !DueAt(inp, td, n, c)
    requires inp.rules.targetWeights ==> forall s | s in Filed(inp, td, n) :: !s.action.Buy?
    ensures SoldIn(inp, td, n, c) == 0
  {
    hide AfterFills, Snapshots, MarketValue, SharesSold, LastBefore, MembersOn, SessionCauses.Due, WellFormed,
         Accounts, CostsKept, OpenedInOrder, CashFloor;
    RunIsSound(inp, td, n);
    var env, before := EnvAt(inp, td, n), RunTo(inp, td, n).value.book;
    SessionCauses.SessionSparesTheRest(inp.rules, inp.strategy, env, before, c);
  }

  ghost function FiledCount(inp: Inputs, td: seq<Day>, n: nat): nat
    requires n <= |td|
  {
    if n == 0 then 0 else FiledCount(inp, td, n - 1) + |Filed(inp, td, n - 1)|
  }

  /** The signals counted are those filed under the sessions before. */
  lemma {:induction false} RunCountsSignals(inp: Inputs, td: seq<Day>, n: nat)
    requires Runnable(inp, td) && n <= |td| && RunTo(inp, td, n).Ok?
    ensures RunTo(inp, td, n).value.signalsSeen == FiledCount(inp, td, n)
  {
    hide AfterFills, Marked, Snapshots, MarketValue, LastBefore;
    if n > 0 {
      RunCountsSignals(inp, td, n - 1);
    }
  }

  /** A code that is outside the index on a session and still held at its close had no valid open that
      day, or more of it was held at the previous close than that day's volume lets a fill take. */
  lemma RunLeavesNoSellableOutsider(inp: Inputs, td: seq<Day>, n: nat, c: Code)
    requires Runnable(inp, td) && 0 < n <= |td| && RunTo(inp, td, n).Ok?
    requires inp.eligible.Some? && td[n - 1].date in inp.eligible.value && c !in inp.eligible.value[td[n - 1].date]
    requires Held(RunTo(inp, td, n).value.book.p, c) > 0
    ensures var bar := inp.bars[td[n - 1].date];
            && RunTo(inp, td, n - 1).Ok?
            && (!ValidPrice(bar.opens, c)
                || !Execution.WithinParticipation(inp.rules, c,
                                                Held(RunTo(inp, td, n - 1).value.book.p, c), bar.volumes))
  {
    hide AfterFills, Snapshots, MarketValue, Execution.WithinParticipation, InLots, Accounts, CashFloor;
    RunIsSound(inp, td, n - 1);
    var env, b := EnvAt(inp, td, n - 1), RunTo(inp, td, n - 1).value.book;
    var end := AfterFills(inp.rules, inp.strategy, env, b);
    assert Held(RunTo(inp, td, n).value.book.p, c) == Held(end.p, c);
    OutsidersAreGone(inp.rules, inp.strategy, env, b, c);
  }

  // --- No look-ahead --------------------------------------------------------------------------------

  /** Two backtests agree on everything up to session k: settings, the first k sessions, their rows of
      the tape, index membership on them, and the signals that precede them. */
  ghost predicate AgreeUpTo(a: Inputs, ta: seq<Day>, b: Inputs, tb: seq<Day>, k: nat)
    requires Runnable(a, ta) && Runnable(b, tb) && 0 < k <= |ta| && k <= |tb|
  {
    && a.rules == b.rules && a.initialCapital == b.initialCapital && a.strategy == b.strategy
    && ta[..k] == tb[..k]
    && LastBefore(a.days, ta[0].date) == LastBefore(b.days, tb[0].date)
    && (forall i | 0 <= i < k ::
          && a.bars[ta[i].date] == b.bars[ta[i].date]
          && MembersMissing(a, ta[i].date) == MembersMissing(b, ta[i].date)
          && MembersOn(a, Some(ta[i].date)) == MembersOn(b, Some(ta[i].date))
          && MembersOn(a, SignalDate(a, ta, i)) == MembersOn(b, SignalDate(a, ta, i))
          && SignalsOn(a, SignalDate(a, ta, i)) == SignalsOn(b, SignalDate(a, ta, i)))
  }

  /** Whatever the tapes, the signals and the memberships say later, the first k sessions are the same. */
  lemma {:induction false} NoLookAhead(a: Inputs, ta: seq<Day>, b: Inputs, tb: seq<Day>, k: nat, n: nat)
    requires Runnable(a, ta) && Runnable(b, tb) && 0 < k <= |ta| && k <= |tb| && AgreeUpTo(a, ta, b, tb, k)
    requires n <= k
    ensures RunTo(a, ta, n) == RunTo(b, tb, n)
  {
    hide Advance, LastBefore, SignalsOn, MembersOn, MembersMissing;
    assert forall i | 0 <= i < k :: ta[i] == ta[..k][i] == tb[i];
    if n > 0 {
      NoLookAhead(a, ta, b, tb, k, n - 1);
      assert SignalDate(a, ta, n - 1) == SignalDate(b, tb, n - 1);
      assert EnvAt(a, ta, n - 1) == EnvAt(b, tb, n - 1);
    }
  }

  lemma AdvanceGrows(r: Rules, strategy: string, env: Env, st: RunState)
    requires r.Valid()
    ensures var st' := Advance(r, strategy, env, st);
            st.book.log <= st'.book.log && st.snapshots <= st'.snapshots && st.curve <= st'.curve
  {
    hide AfterFills, BeforeBuys, Snapshots, MarketValue, FilledToday, BuyEligible, SharesSold, Marked;
    SessionIsTPlusOne(r, strategy, env, st.book);
  }

  /** Later sessions only append to the log, the snapshots and the equity curve. */
  lemma {:induction false} RunGrows(inp: Inputs, td: seq<Day>, n: nat, m: nat)
    requires Runnable(inp, td) && n <= m <= |td| && RunTo(inp, td, m).Ok?
    ensures RunTo(inp, td, n).Ok?
    ensures var a, b := RunTo(inp, td, n).value, RunTo(inp, td, m).value;
            a.book.log <= b.book.log && a.snapshots <= b.snapshots && a.curve <= b.curve
    decreases m - n
  {
    hide Advance, EnvAt;
    if n < m {
      RunGrows(inp, td, n, m - 1);
      AdvanceGrows(inp.rules, inp.strategy, EnvAt(inp, td, m - 1), RunTo(inp, td, m - 1).value);
    }
  }

  lemma {:induction false} DaysAllBefore(days: seq<Day>, from: Date, to: Date, later: Date)
    requires to <= later && forall i | 0 <= i < |days| :: days[i].date <= to
    ensures DaysBetween(days, from, to) == DaysBetween(days, from, later)
  {
    if days != [] {
      DaysAllBefore(days[..|days| - 1], from, to, later);
    }
  }

  lemma {:induction false} DaysExtend(days: seq<Day>, from: Date, to: Date, later: Date)
    requires InOrder(days) && to <= later
    ensures DaysBetween(days, from, to) <= DaysBetween(days, from, later)
  {
    if days != [] {
      var k := |days| - 1;
      DaysExtend(days[..k], from, to, later);
      if days[k].date <= to {
        DaysAllBefore(days[..k], from, to, later);
      }
    }
  }

  /** The sessions of a backtest are exactly the days of the tape within the two dates, in their order. */
  lemma {:induction false} TradingDaysExact(days: seq<Day>, from: Date, to: Date)
    requires InOrder(days)
    ensures InOrder(DaysBetween(days, from, to))
    ensures forall d :: d in DaysBetween(days, from, to) <==> d in days && from <= d.date <= to
  {
    if days != [] {
      var k := |days| - 1;
      assert days == days[..k] + [days[k]];
      TradingDaysExact(days[..k], from, to);
      assert forall d | d in days[..k] :: d.date < days[k].date;
    }
  }

  /** The signal date of the first session is the latest earlier day of the tape, if there is one. */
  lemma {:induction false} LastBeforeIsLatest(days: seq<Day>, date: Date)
    requires InOrder(days)
    ensures var x := LastBefore(days, date);
            if x.Some? then x.value < date && (exists i | 0 <= i < |days| :: days[i].date == x.value)
                            && forall i | 0 <= i < |days| && days[i].date < date :: days[i].date <= x.value
            else forall i | 0 <= i < |days| :: days[i].date >= date
  {
    if days != [] {
      var k := |days| - 1;
      if days[k].date >= date {
        LastBeforeIsLatest(days[..k], date);
        assert forall i | 0 <= i < k :: days[..k][i] == days[i];
      } else {
        assert days[k].date == LastBefore(days, date).value;
      }
    }
  }

  /** A backtest fails for want of a row of the tape on one of its sessions, or else for want of the members of the
      index on one of them, and for nothing else. */
  lemma BacktestFailsExactly(inp: Inputs)
    requires inp.Valid()
    ensures Backtest(inp) == Err(MissingExecutionSession) <==>
              exists d | d in inp.days :: inp.startDate <= d.date <= inp.endDate && d.date !in inp.bars
    ensures Backtest(inp) == Err(MissingEligibility) <==>
              && (forall d | d in inp.days && inp.startDate <= d.date <= inp.endDate :: d.date in inp.bars)
              && inp.eligible.Some?
              && exists d | d in inp.days :: inp.startDate <= d.date <= inp.endDate && d.date !in inp.eligible.value
  {
    hide RunTo, DaysBetween;
    var td := TradingDays(inp);
    TradingDaysExact(inp.days, inp.startDate, inp.endDate);
    assert forall i | 0 <= i < |td| :: td[i] in td;
    if td != [] && TapeComplete(inp, td) {
      RunFailsExactly(inp, td, |td|);
    }
  }

  lemma {:induction false} RunFailsExactly(inp: Inputs, td: seq<Day>, n: nat)
    requires Runnable(inp, td) && n <= |td|
    ensures RunTo(inp, td, n).Err? <==> exists i | 0 <= i < n :: MembersMissing(inp, td[i].date)
    ensures RunTo(inp, td, n).Err? ==> RunTo(inp, td, n).error == MissingEligibility
  {
    hide Advance, MembersMissing;
    if n > 0 {
      RunFailsExactly(inp, td, n - 1);
    }
  }

  /** What a completed backtest reports is the state after its last session; without a session, the capital. */
  lemma BacktestReports(inp: Inputs)
    requires inp.Valid() && Backtest(inp).Ok?
    ensures var res, td := Backtest(inp).value, TradingDays(inp);
            && res.tradesExecuted == |res.log| && res.signalsGenerated == FiledCount(inp, td, |td|)
            && (td == [] ==> res.finalEquity == inp.initialCapital && res.log == [] && res.curve == [])
            && (td != [] ==>
                  && Runnable(inp, td) && RunTo(inp, td, |td|).Ok?
                  && var st := RunTo(inp, td, |td|).value;
                  && res.finalEquity == ValueAt(st.book.p, st.book.p.lastCloses)
                  && res.log == st.book.log && res.snapshots == st.snapshots && res.curve == st.curve)
  {
    hide RunTo, LastBefore, DaysBetween, ValueAt;
    var td := TradingDays(inp);
    if td != [] {
      CurveIsEquity(inp, td, |td|);
      RunCountsSignals(inp, td, |td|);
    }
  }

  /** Extending the end date leaves the earlier result as an exact prefix. */
  lemma ExtendingEndDateKeepsPrefix(inp: Inputs, later: Date)
    requires inp.Valid() && inp.endDate <= later
    requires Backtest(inp.(endDate := later)).Ok?
    ensures Backtest(inp).Ok?
    ensures var a, b := Backtest(inp).value, Backtest(inp.(endDate := later)).value;
            a.curve <= b.curve && a.log <= b.log && a.snapshots <= b.snapshots
  {
    hide RunTo, LastBefore, DaysBetween;
    var ext := inp.(endDate := later);
    var ta, tb := TradingDays(inp), TradingDays(ext);
    DaysExtend(inp.days, inp.startDate, inp.endDate, later);
    if ta != [] {
      assert forall i | 0 <= i < |ta| :: ta[i] == tb[i];
      assert Runnable(inp, ta) && Runnable(ext, tb);
      assert AgreeUpTo(inp, ta, ext, tb, |ta|);
      NoLookAhead(inp, ta, ext, tb, |ta|, |ta|);
      RunGrows(ext, tb, |ta|, |tb|);
      CurveLength(inp, ta, |ta|);
    }
  }
}
