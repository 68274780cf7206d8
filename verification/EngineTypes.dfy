/** The data of the T+1 backtest engine: rules, price tapes, signals, fills and the portfolio. */
module EngineTypes {
  import opened Wrappers
  import CostModel

  /** Stock codes; their numeric order stands for the string order that sorting uses. */
  type Code = nat

  type Date = int

  /** A trading day and the (year, month) it belongs to. */
  datatype Day = Day(date: Date, month: int)

  /** One row of the execution tape. An absent code has no quotation that day; an absent volume
      column is None. */
  datatype Bar = Bar(opens: map<Code, real>, closes: map<Code, real>, volumes: Option<map<Code, real>>)

  datatype Action = Buy | Sell | Hold

  datatype Signal = Signal(code: Code, action: Action, score: real, weight: real)

  datatype Trade = Trade(date: Date, signalDate: Option<Date>, code: Code, action: Action, price: real,
                         shares: int, amount: real, cost: real, strategy: string, score: real)

  datatype Snapshot = Snapshot(date: Date, code: Code, shares: int, avgCost: real, closePrice: real,
                               marketValue: real, unrealizedPnl: real)

  datatype EquityRecord = EquityRecord(date: Date, equity: real, cash: real)

  /** The settings that every order is executed under. */
  datatype Rules = Rules(fees: CostModel.Fees, maxPositions: int, monthlyLiquidation: bool,
                         targetWeights: bool, participation: Option<real>, lotSize: int) {
    /** What the constructors of the engine and of its constraints accept. */
    predicate Valid() {
      && fees.Valid()
      && maxPositions > 0
      && lotSize > 0
      && (participation.Some? ==> 0.0 < participation.value <= 1.0)
    }
  }

  /** Holdings are an insertion-ordered dictionary: `order` lists its keys. The other two
      dictionaries are never iterated over. */
  datatype Portfolio = Portfolio(cash: real, holdings: map<Code, nat>, order: seq<Code>,
                                 avgCosts: map<Code, real>, lastCloses: map<Code, real>)

  /** A portfolio with the log of the fills that led to it. */
  datatype Book = Book(p: Portfolio, log: seq<Trade>)

  /** What one session offers to every order: its dates and its row of the tape. */
  datatype Context = Context(date: Date, signalDate: Option<Date>, bar: Bar)

  /** An order to sell: a number of shares, or everything held when `requested` is None. */
  datatype SellOrder = SellOrder(code: Code, requested: Option<int>, strategy: string, score: real)

  function Held(p: Portfolio, c: Code): nat {
    if c in p.holdings then p.holdings[c] else 0
  }

  function Quote(prices: map<Code, real>, c: Code): real {
    if c in prices then prices[c] else 0.0
  }

  predicate ValidPrice(prices: map<Code, real>, c: Code) {
    c in prices && prices[c] > 0.0
  }
}
