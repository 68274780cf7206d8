/** Marking to market over a run: which closing price values a holding, and what the snapshots of a session say. */
module MarkLaws {
  import opened Numbers
  import opened EngineTypes
  import opened Execution
  import BuySelection
  import opened TradingSession
  import opened Ledger
  import opened SessionLaws
  import SessionCauses
  import opened RunLaws

  // --- Last closes ---------------------------------------------------------------------------------------

  /** c is remembered in q as it was in p. */
  ghost predicate SameClose(p: Portfolio, q: Portfolio, c: Code) {
    && (c in q.lastCloses <==> c in p.lastCloses)
    && Quote(q.lastCloses, c) == Quote(p.lastCloses, c)
  }

  lemma SellOneKeepsCloses(r: Rules, ctx: Context, b: Book, o: SellOrder, c: Code)
    requires r.Valid() && Held(SellOne(r, ctx, b, o).p, c) > 0
    ensures SameClose(b.p, SellOne(r, ctx, b, o).p, c)
  {
    hide ExecutableShares;
  }

  /** Sales forget the last close of a code only when they sell it out. */
  lemma {:induction false} SellManyKeepsCloses(r: Rules, ctx: Context, b: Book, os: seq<SellOrder>, c: Code)
    requires r.Valid() && Held(SellMany(r, ctx, b, os).p, c) > 0
    ensures SameClose(b.p, SellMany(r, ctx, b, os).p, c)
  {
    hide SellOne, FilledToday, SharesSold;
    if os != [] {
      var k := |os| - 1;
      var mid := SellMany(r, ctx, b, os[..k]);
      SellOneOnlySells(r, ctx, mid, os[k]);
      assert Held(SellMany(r, ctx, b, os).p, c) <= Held(mid.p, c);
      SellManyKeepsCloses(r, ctx, b, os[..k], c);
      SellOneKeepsCloses(r, ctx, mid, os[k], c);
    }
  }

  lemma {:induction false} BuyManyKeepsCloses(r: Rules, ctx: Context, strategy: string, equity: real, b: Book,
                                              ss: seq<Signal>, ws: seq<real>)
    requires r.Valid() && |ss| == |ws|
    ensures BuyMany(r, ctx, strategy, equity, b, ss, ws).p.lastCloses == b.p.lastCloses
  {
    hide BuyFill;
    if ss != [] {
      var k := |ss| - 1;
      BuyManyKeepsCloses(r, ctx, strategy, equity, b, ss[..k], ws[..k]);
    }
  }

  lemma SalesKeepCloses(r: Rules, strategy: string, env: Env, b: Book, c: Code)
    requires r.Valid() && Held(BeforeBuys(r, strategy, env, b).p, c) > 0
    ensures SameClose(b.p, BeforeBuys(r, strategy, env, b).p, c)
  {
    hide SellMany, ExitOrders, MonthlyOrders, SignalOrders, TrimOrders, EquityAtOpen, Batch, SameClose,
         BuySelection.TargetWeights;
    SessionCauses.SalesOnlyTake(r, strategy, env, b, c);
    var b1, b2 := AfterExits(r, env, b), AfterMonthly(r, env, b);
    var b3, b4, ss := AfterSells(r, strategy, env, b), BeforeBuys(r, strategy, env, b), Batch(r, env);
    SellManyKeepsCloses(r, env.ctx, b, ExitOrders(env, b.p), c);
    SellManyKeepsCloses(r, env.ctx, b1, MonthlyOrders(r, env, b1.p), c);
    SellManyKeepsCloses(r, env.ctx, b2, SignalOrders(SellSignals(env.signals), strategy), c);
    if ss != [] && r.targetWeights {
      var equity := EquityAtOpen(b3.p, env.ctx.bar.opens);
      var ws := BuySelection.TargetWeights(ss);
      SellManyKeepsCloses(r, env.ctx, b3, TrimOrders(r, env.ctx, b3.p, equity, ss, ws, strategy), c);
    }
    ChainCloses(b.p, b1.p, b2.p, b3.p, c);
    ChainCloses(b.p, b3.p, b4.p, b4.p, c);
  }

  lemma ChainCloses(a: Portfolio, b: Portfolio, c: Portfolio, d: Portfolio, code: Code)
    ensures SameClose(a, b, code) && SameClose(b, c, code) && SameClose(c, d, code) ==> SameClose(a, d, code)
    ensures SameClose(d, d, code)
  {
  }

  /** After the fills a code is remembered as before, unless the session sold it out. */
  lemma FillsKeepCloses(r: Rules, initial: real, strategy: string, env: Env, b: Book, c: Code)
    requires r.Valid() && Sound(r, initial, b)
    ensures var mid, end := BeforeBuys(r, strategy, env, b).p, AfterFills(r, strategy, env, b).p;
            if Held(mid, c) > 0 then SameClose(b.p, end, c) else c !in end.lastCloses
  {
    hide SellMany, BuyMany, AfterSells, TrimOrders, EquityAtOpen, Batch, Accounts, CostsKept, CashFloor, OpenedInOrder,
         InLots, SameClose, BuySelection.TargetWeights;
    var b1, mid, ss := AfterSells(r, strategy, env, b), BeforeBuys(r, strategy, env, b), Batch(r, env);
    var end := AfterFills(r, strategy, env, b);
    SellsAreSound(r, initial, strategy, env, b);
    if ss != [] {
      var equity, ws := EquityAtOpen(b1.p, env.ctx.bar.opens), BuySelection.TargetWeights(ss);
      if r.targetWeights {
        SellManyIsSound(r, env.ctx, initial, b1, TrimOrders(r, env.ctx, b1.p, equity, ss, ws, strategy));
      }
      BuyManyKeepsCloses(r, env.ctx, strategy, equity, mid, ss, ws);
    }
    assert end.p.lastCloses == mid.p.lastCloses;
    if Held(mid.p, c) > 0 {
      SalesKeepCloses(r, strategy, env, b, c);
      SameCloses(b.p, mid.p, end.p, c);
    }
  }

  lemma SameCloses(p: Portfolio, q: Portfolio, q': Portfolio, c: Code)
    requires SameClose(p, q, c) && q'.lastCloses == q.lastCloses
    ensures SameClose(p, q', c)
  {
  }

  /** The price that values a holding at the close of session n: the close of that day if there is a valid one; else,
      if the session did not sell the code out, the price that valued it before; else none. */
  lemma CloseIsCarried(inp: Inputs, td: seq<Day>, n: nat, c: Code)
    requires Runnable(inp, td) && n < |td| && RunTo(inp, td, n + 1).Ok?
    requires Held(RunTo(inp, td, n + 1).value.book.p, c) > 0
    ensures var p, q := RunTo(inp, td, n).value.book.p, RunTo(inp, td, n + 1).value.book.p;
            var closes := inp.bars[td[n].date].closes;
            if ValidPrice(closes, c) then c in q.lastCloses && q.lastCloses[c] == closes[c]
            else if SoldIn(inp, td, n, c) < Held(p, c) then
              (c in q.lastCloses <==> c in p.lastCloses) && Quote(q.lastCloses, c) == Quote(p.lastCloses, c)
            else c !in q.lastCloses
  {
    hide AfterFills, BeforeBuys, Snapshots, MarketValue, SharesSold, LastBefore, Sound;
    RunIsSound(inp, td, n);
    var env, b := EnvAt(inp, td, n), RunTo(inp, td, n).value.book;
    SessionCauses.SoldIsTaken(inp.rules, inp.strategy, env, b, c);
    FillsKeepCloses(inp.rules, inp.initialCapital, inp.strategy, env, b, c);
    var end := AfterFills(inp.rules, inp.strategy, env, b).p;
    assert RunTo(inp, td, n + 1).value.book.p == Marked(end, env.ctx.bar.closes);
  }

  // --- Snapshots -----------------------------------------------------------------------------------------

  /** x says what the portfolio holds of its code, what that cost, and what it is worth. */
  ghost predicate Describes(x: Snapshot, date: Date, p: Portfolio) {
    && x.date == date
    && x.code in p.holdings && x.shares == p.holdings[x.code]
    && x.code in p.avgCosts && x.avgCost == p.avgCosts[x.code]
    && x.code in p.lastCloses && x.closePrice == p.lastCloses[x.code]
    && x.marketValue == Amount(x.closePrice, x.shares)
    && x.unrealizedPnl == Amount(x.closePrice - x.avgCost, x.shares)
  }

  /** xs are snapshots of the given holdings: one for each that has a last close, in the order in which the positions
      were opened. */
  ghost predicate SnapshotsOf(xs: seq<Snapshot>, date: Date, codes: seq<Code>, p: Portfolio, log: seq<Trade>) {
    && (forall i | 0 <= i < |xs| :: Describes(xs[i], date, p) && xs[i].code in codes)
    && (forall i, j | 0 <= i < j < |xs| :: LastOpening(log, xs[i].code) < LastOpening(log, xs[j].code))
    && (forall c | c in codes && c in p.lastCloses :: exists i | 0 <= i < |xs| :: xs[i].code == c)
  }

  lemma NoSnapshots(date: Date, p: Portfolio, log: seq<Trade>)
    ensures SnapshotsOf([], date, [], p, log)
  {
  }

  lemma SnapDescribes(date: Date, p: Portfolio, c: Code)
    requires c in p.holdings && c in p.avgCosts && c in p.lastCloses
    ensures Describes(Snap(date, p, c), date, p) && Snap(date, p, c).code == c
  {
  }

  lemma SnapshotAdded(xs: seq<Snapshot>, date: Date, codes: seq<Code>, c: Code, p: Portfolio, log: seq<Trade>)
    requires SnapshotsOf(xs, date, codes, p, log) && OpenedInOrder(log, codes + [c])
    requires c in p.holdings && c in p.avgCosts && c in p.lastCloses
    ensures SnapshotsOf(xs + [Snap(date, p, c)], date, codes + [c], p, log)
  {
    hide LastOpening, Describes, Snap;
    SnapDescribes(date, p, c);
    var ys, all := xs + [Snap(date, p, c)], codes + [c];
    assert ys[|xs|].code == c;
    forall i | 0 <= i < |xs|
      ensures LastOpening(log, xs[i].code) < LastOpening(log, c)
    {
      var k :| 0 <= k < |codes| && codes[k] == xs[i].code;
      assert all[k] == codes[k] && all[|codes|] == c;
    }
    forall x | x in all && x in p.lastCloses
      ensures exists i | 0 <= i < |ys| :: ys[i].code == x
    {
      if x in codes {
        var i :| 0 <= i < |xs| && xs[i].code == x;
        assert ys[i].code == x;
      }
    }
  }

  lemma SnapshotSkipped(xs: seq<Snapshot>, date: Date, codes: seq<Code>, c: Code, p: Portfolio, log: seq<Trade>)
    requires SnapshotsOf(xs, date, codes, p, log) && c !in p.lastCloses
    ensures SnapshotsOf(xs, date, codes + [c], p, log)
  {
    hide LastOpening, Describes;
  }

  lemma {:induction false} SnapshotsDescribe(date: Date, order: seq<Code>, p: Portfolio, log: seq<Trade>)
    requires forall c | c in order :: c in p.holdings && c in p.avgCosts
    requires forall c | c in p.lastCloses :: p.lastCloses[c] > 0.0
    requires OpenedInOrder(log, order)
    ensures SnapshotsOf(Snapshots(date, order, p), date, order, p, log)
  {
    hide LastOpening, Snap, SnapshotsOf;
    if order == [] {
      NoSnapshots(date, p, log);
    } else {
      var k := |order| - 1;
      var front, c := order[..k], order[k];
      assert order == front + [c];
      SnapshotsDescribe(date, front, p, log);
      if c in p.lastCloses {
        assert Snapshots(date, order, p) == Snapshots(date, front, p) + [Snap(date, p, c)];
        SnapshotAdded(Snapshots(date, front, p), date, front, c, p, log);
      } else {
        assert Snapshots(date, order, p) == Snapshots(date, front, p);
        SnapshotSkipped(Snapshots(date, front, p), date, front, c, p, log);
      }
    }
  }

  /** The snapshots of session n are those of its holdings at the close. */
  lemma SnapshotsAreExact(inp: Inputs, td: seq<Day>, n: nat)
    requires Runnable(inp, td) && n < |td| && RunTo(inp, td, n + 1).Ok?
    ensures var a, b := RunTo(inp, td, n).value, RunTo(inp, td, n + 1).value;
            && a.snapshots <= b.snapshots
            && SnapshotsOf(b.snapshots[|a.snapshots|..], td[n].date, b.book.p.order, b.book.p, b.book.log)
  {
    hide AfterFills, Marked, Snapshots, MarketValue, LastBefore, Accounts, CostsKept, CashFloor, InLots, SnapshotsOf,
         LastOpening;
    RunIsSound(inp, td, n + 1);
    var a, b := RunTo(inp, td, n).value, RunTo(inp, td, n + 1).value;
    SnapshotsDescribe(td[n].date, b.book.p.order, b.book.p, b.book.log);
    assert b.snapshots[|a.snapshots|..] == Snapshots(td[n].date, b.book.p.order, b.book.p);
  }
}
