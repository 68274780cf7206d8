/** One trading session as a function of the book and of what the session may look at, and the run
    that strings sessions together. */
module TradingSession {
  import opened Wrappers
  import opened Numbers
  import opened EngineTypes
  import Execution
  import opened BuySelection

  const EXIT_TAG := "point_in_time_universe_exit"
  const MONTHLY_TAG := "monthly_liquidate_compat"

  /** Everything a session reads: its row of the tape, the signals of the preceding session, and the
      index members (None without point-in-time eligibility) today and on the signal date. */
  datatype Env = Env(ctx: Context, firstOfMonth: bool, signals: seq<Signal>,
                     members: Option<set<Code>>, signalMembers: Option<set<Code>>)

  // --- The phases before buying ----------------------------------------------------------------

  function Outsiders(order: seq<Code>, members: set<Code>): seq<Code> {
    if order == [] then []
    else
      var c := order[|order| - 1];
      Outsiders(order[..|order| - 1], members) + (if c in members then [] else [c])
  }

  /** Orders to sell everything held of each code. */
  function Liquidate(codes: seq<Code>, strategy: string): seq<SellOrder> {
    seq(|codes|, i requires 0 <= i < |codes| => SellOrder(codes[i], None, strategy, 0.0))
  }

  function ExitOrders(env: Env, p: Portfolio): seq<SellOrder> {
    if env.members.None? then []
    else Liquidate(SortCodes(Outsiders(p.order, env.members.value)), EXIT_TAG)
  }

  function MonthlyOrders(r: Rules, env: Env, p: Portfolio): seq<SellOrder> {
    if r.monthlyLiquidation && env.firstOfMonth then Liquidate(p.order, MONTHLY_TAG) else []
  }

  function SellSignals(signals: seq<Signal>): seq<Signal> {
    if signals == [] then []
    else
      var s := signals[|signals| - 1];
      SellSignals(signals[..|signals| - 1]) + (if s.action.Sell? then [s] else [])
  }

  function SignalOrders(signals: seq<Signal>, strategy: string): seq<SellOrder> {
    seq(|signals|, i requires 0 <= i < |signals| =>
      SellOrder(signals[i].code, None, strategy, signals[i].score))
  }

  function AfterExits(r: Rules, env: Env, b: Book): Book
    requires r.Valid()
  {
    Execution.SellMany(r, env.ctx, b, ExitOrders(env, b.p))
  }

  function AfterMonthly(r: Rules, env: Env, b: Book): Book
    requires r.Valid()
  {
    var b1 := AfterExits(r, env, b);
    Execution.SellMany(r, env.ctx, b1, MonthlyOrders(r, env, b1.p))
  }

  function AfterSells(r: Rules, strategy: string, env: Env, b: Book): Book
    requires r.Valid()
  {
    Execution.SellMany(r, env.ctx, AfterMonthly(r, env, b), SignalOrders(SellSignals(env.signals), strategy))
  }

  // --- The BUY batch ---------------------------------------------------------------------------

  predicate BuyEligible(env: Env, c: Code) {
    env.members.None?
    || (env.signalMembers.Some? && c in env.signalMembers.value && c in env.members.value)
  }

  function EligibleBuys(env: Env, signals: seq<Signal>): seq<Signal> {
    if signals == [] then []
    else
      var s := signals[|signals| - 1];
      EligibleBuys(env, signals[..|signals| - 1])
        + (if s.action.Buy? && BuyEligible(env, s.code) then [s] else [])
  }

  function Batch(r: Rules, env: Env): seq<Signal> {
    Chosen(SortByScore(EligibleBuys(env, env.signals)), r.maxPositions)
  }

  /** The price a holding is valued at before the market opens for it. */
  function OpenOrLast(p: Portfolio, opens: map<Code, real>, c: Code): real {
    if c in opens then opens[c] else Quote(p.lastCloses, c)
  }

  function OpenWorth(order: seq<Code>, p: Portfolio, opens: map<Code, real>): real {
    if order == [] then 0.0
    else
      var c := order[|order| - 1];
      var price := OpenOrLast(p, opens, c);
      OpenWorth(order[..|order| - 1], p, opens) + (if price > 0.0 then Amount(price, Held(p, c)) else 0.0)
  }

  function EquityAtOpen(p: Portfolio, opens: map<Code, real>): real {
    p.cash + OpenWorth(p.order, p, opens)
  }

  function TargetShares(r: Rules, value: real, price: real): int
    requires r.Valid() && price > 0.0
  {
    MaxI(WholeLots(Trunc(value / price), r.lotSize), 0)
  }

  function Excess(r: Rules, ctx: Context, p: Portfolio, c: Code, value: real): int
    requires r.Valid()
  {
    if !ValidPrice(ctx.bar.opens, c) then 0
    else MaxI(Held(p, c) - TargetShares(r, value, ctx.bar.opens[c]), 0)
  }

  /** Orders that bring every holding down to its target. */
  function TrimOrders(r: Rules, ctx: Context, p: Portfolio, equity: real, ss: seq<Signal>, ws: seq<real>,
                      strategy: string): seq<SellOrder>
    requires r.Valid() && |ss| == |ws|
  {
    seq(|p.order|, i requires 0 <= i < |p.order| =>
      SellOrder(p.order[i], Some(Excess(r, ctx, p, p.order[i], Portion(equity, WeightOf(ss, ws, p.order[i])))),
                strategy, 0.0))
  }

  function AfterTrims(r: Rules, strategy: string, env: Env, b: Book, equity: real, ss: seq<Signal>): Book
    requires r.Valid()
  {
    if r.targetWeights then
      Execution.SellMany(r, env.ctx, b, TrimOrders(r, env.ctx, b.p, equity, ss, TargetWeights(ss), strategy))
    else b
  }

  /** The book when all selling of the session is done. */
  function BeforeBuys(r: Rules, strategy: string, env: Env, b: Book): Book
    requires r.Valid()
  {
    var b1, ss := AfterSells(r, strategy, env, b), Batch(r, env);
    if ss == [] then b1 else AfterTrims(r, strategy, env, b1, EquityAtOpen(b1.p, env.ctx.bar.opens), ss)
  }

  /** The book after the session's fills. */
  function AfterFills(r: Rules, strategy: string, env: Env, b: Book): Book
    requires r.Valid()
  {
    var b1, ss := AfterSells(r, strategy, env, b), Batch(r, env);
    if ss == [] then b1
    else
      var equity := EquityAtOpen(b1.p, env.ctx.bar.opens);
      Execution.BuyMany(r, env.ctx, strategy, equity, AfterTrims(r, strategy, env, b1, equity, ss),
                        ss, TargetWeights(ss))
  }

  // --- Mark to market --------------------------------------------------------------------------

  function Marked(p: Portfolio, closes: map<Code, real>): Portfolio {
    p.(lastCloses := p.lastCloses + map c | c in p.holdings && ValidPrice(closes, c) :: closes[c])
  }

  function Snap(date: Date, p: Portfolio, c: Code): Snapshot {
    var close, shares := Quote(p.lastCloses, c), Held(p, c);
    var avg := if c in p.avgCosts then p.avgCosts[c] else close;
    Snapshot(date, c, shares, avg, close, Amount(close, shares), Amount(close - avg, shares))
  }

  function Snapshots(date: Date, order: seq<Code>, p: Portfolio): seq<Snapshot> {
    if order == [] then []
    else
      var c := order[|order| - 1];
      Snapshots(date, order[..|order| - 1], p) + (if Quote(p.lastCloses, c) > 0.0 then [Snap(date, p, c)] else [])
  }

  function MarketValue(snaps: seq<Snapshot>): real {
    if snaps == [] then 0.0 else MarketValue(snaps[..|snaps| - 1]) + snaps[|snaps| - 1].marketValue
  }

  datatype RunState = RunState(book: Book, snapshots: seq<Snapshot>, curve: seq<EquityRecord>, signalsSeen: nat)

  function Advance(r: Rules, strategy: string, env: Env, st: RunState): RunState
    requires r.Valid()
  {
    var b := AfterFills(r, strategy, env, st.book);
    var p := Marked(b.p, env.ctx.bar.closes);
    var snaps := Snapshots(env.ctx.date, p.order, p);
    RunState(Book(p, b.log), st.snapshots + snaps,
             st.curve + [EquityRecord(env.ctx.date, p.cash + MarketValue(snaps), p.cash)],
             st.signalsSeen + |env.signals|)
  }

  // --- The run ---------------------------------------------------------------------------------

  /** A backtest: `days` are the sessions of the research tape, `bars` the tape that fills and marks come
      from, and signals are filed under the day that produced them (None for the empty date). */
  datatype Inputs = Inputs(rules: Rules, initialCapital: real, startDate: Date, endDate: Date, strategy: string,
                           days: seq<Day>, bars: map<Date, Bar>, signals: map<Option<Date>, seq<Signal>>,
                           eligible: Option<map<Date, set<Code>>>) {
    ghost predicate Valid() {
      && rules.Valid() && initialCapital > 0.0
      && InOrder(days)
    }
  }

  /** Sessions are sorted and unique. */
  ghost predicate InOrder(days: seq<Day>) {
    forall i, j | 0 <= i < j < |days| :: days[i].date < days[j].date
  }

  datatype Failure = MissingExecutionSession | MissingEligibility

  function DaysBetween(days: seq<Day>, from: Date, to: Date): seq<Day> {
    if days == [] then []
    else
      var d := days[|days| - 1];
      DaysBetween(days[..|days| - 1], from, to) + (if from <= d.date <= to then [d] else [])
  }

  function TradingDays(inp: Inputs): seq<Day> {
    DaysBetween(inp.days, inp.startDate, inp.endDate)
  }

  /** The last session of the tape before a date. */
  function LastBefore(days: seq<Day>, date: Date): Option<Date> {
    if days == [] then None
    else if days[|days| - 1].date < date then Some(days[|days| - 1].date)
    else LastBefore(days[..|days| - 1], date)
  }

  function SignalDate(inp: Inputs, td: seq<Day>, i: nat): Option<Date>
    requires i < |td|
  {
    if i > 0 then Some(td[i - 1].date) else LastBefore(inp.days, td[0].date)
  }

  function MembersOn(inp: Inputs, date: Option<Date>): Option<set<Code>> {
    if inp.eligible.Some? && date.Some? && date.value in inp.eligible.value
    then Some(inp.eligible.value[date.value]) else None
  }

  predicate MembersMissing(inp: Inputs, date: Date) {
    inp.eligible.Some? && date !in inp.eligible.value
  }

  function SignalsOn(inp: Inputs, date: Option<Date>): seq<Signal> {
    if date in inp.signals then inp.signals[date] else []
  }

  function EnvAt(inp: Inputs, td: seq<Day>, i: nat): Env
    requires i < |td| && td[i].date in inp.bars
  {
    var date := SignalDate(inp, td, i);
    Env(Context(td[i].date, date, inp.bars[td[i].date]),
        i == 0 || td[i].month != td[i - 1].month,
        SignalsOn(inp, date),
        MembersOn(inp, Some(td[i].date)),
        MembersOn(inp, date))
  }

  function Start(inp: Inputs, td: seq<Day>): RunState
    requires td != []
  {
    RunState(Book(Portfolio(inp.initialCapital, map[], [], map[], map[]), []), [],
             [EquityRecord(td[0].date - 1, inp.initialCapital, inp.initialCapital)], 0)
  }

  predicate TapeComplete(inp: Inputs, td: seq<Day>) {
    forall i | 0 <= i < |td| :: td[i].date in inp.bars
  }

  /** The state after n sessions. */
  function RunTo(inp: Inputs, td: seq<Day>, n: nat): Result<RunState, Failure>
    requires inp.rules.Valid() && td != [] && n <= |td| && TapeComplete(inp, td)
  {
    if n == 0 then Ok(Start(inp, td))
    else
      var before := RunTo(inp, td, n - 1);
      if before.Err? then before
      else if MembersMissing(inp, td[n - 1].date) then Err(MissingEligibility)
      else Ok(Advance(inp.rules, inp.strategy, EnvAt(inp, td, n - 1), before.value))
  }

  datatype BacktestResult = BacktestResult(curve: seq<EquityRecord>, log: seq<Trade>, snapshots: seq<Snapshot>,
                                           finalEquity: real, signalsGenerated: nat, tradesExecuted: nat)

  function Summary(st: RunState): BacktestResult
    requires st.curve != []
  {
    BacktestResult(st.curve, st.book.log, st.snapshots, st.curve[|st.curve| - 1].equity, st.signalsSeen, |st.book.log|)
  }

  lemma {:induction false} CurveLength(inp: Inputs, td: seq<Day>, n: nat)
    requires inp.rules.Valid() && td != [] && n <= |td| && TapeComplete(inp, td)
    ensures RunTo(inp, td, n).Ok? ==> |RunTo(inp, td, n).value.curve| == n + 1
  {
    hide AfterFills, Marked, Snapshots, MarketValue, EnvAt;
    if n > 0 {
      CurveLength(inp, td, n - 1);
    }
  }

  function Backtest(inp: Inputs): Result<BacktestResult, Failure>
    requires inp.rules.Valid()
  {
    var td := TradingDays(inp);
    if td == [] then Ok(BacktestResult([], [], [], inp.initialCapital, 0, 0))
    else if !TapeComplete(inp, td) then Err(MissingExecutionSession)
    else
      var st := RunTo(inp, td, |td|);
      if st.Err? then Err(st.error)
      else CurveLength(inp, td, |td|); Ok(Summary(st.value))
  }
}
