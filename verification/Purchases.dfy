/** Which BUY signals a session follows, and that it leaves no money unspent that could follow them further. */
module Purchases {
  import opened Numbers
  import opened CostModel
  import opened EngineTypes
  import opened Execution
  import opened BuySelection
  import opened TradingSession
  import opened SessionLaws
  import opened SessionCauses

  /** The batch is the best of the signals: highest scores first, and a BUY signal that may be followed is left out
      only for one of its code that scores no less, or for maxPositions others that score no less. */
  lemma BatchIsBest(r: Rules, env: Env, s: Signal)
    requires r.Valid() && s in env.signals && s.action.Buy? && MayBuy(env.members, env.signalMembers, s.code)
    ensures Outranked(Batch(r, env), s, r.maxPositions)
    ensures Descending(Batch(r, env))
  {
    hide SortByScore, Chosen, EligibleBuys, Outranked;
    var eligible := EligibleBuys(env, env.signals);
    var ranked := SortByScore(eligible);
    EligibleBuysAreEligible(env, env.signals);
    SortByScoreIsStableSort(eligible);
    assert s in multiset(eligible);
    assert s in multiset(ranked);
    var j :| 0 <= j < |ranked| && ranked[j] == s;
    ChosenAreTheBest(ranked, r.maxPositions, j);
    BatchDescends(r, env);
  }

  lemma BuyOneSpends(r: Rules, ctx: Context, strategy: string, equity: real, b: Book, s: Signal, w: real)
    requires r.Valid()
    ensures var b' := BuyOne(r, ctx, strategy, equity, b, s, w);
            && b'.p.cash <= b.p.cash && |b'.p.order| >= |b.p.order|
            && Held(b'.p, s.code) == Held(b.p, s.code) + BuyFill(r, ctx, b.p, s.code, equity, w)
            && forall c | c != s.code :: Held(b'.p, c) == Held(b.p, c)
  {
    hide BuyFill, BuyCost, Blend;
    BuyFillProps(r, ctx, b.p, s.code, equity, w);
    var n := BuyFill(r, ctx, b.p, s.code, equity, w);
    if n > 0 {
      PositiveCost(r.fees, ctx.bar.opens[s.code], n);
    }
  }

  /** m whole lots of c, within h hundreds, that the cash and the target value of c admit. */
  ghost predicate Possible(r: Rules, ctx: Context, cash: real, target: real, held: int, c: Code, h: int, m: int)
    requires r.Valid()
  {
    && ValidPrice(ctx.bar.opens, c)
    && 0 < m <= h && h % 100 == 0 && InLots(m, r.lotSize) && WithinParticipation(r, c, m, ctx.bar.volumes)
    && BuyCost(r.fees, ctx.bar.opens[c], h) <= cash
    && BuyCost(r.fees, ctx.bar.opens[c], h) <= target - Amount(ctx.bar.opens[c], held)
  }

  /** Whatever the cash left at the end could have bought towards a target was bought. */
  lemma {:induction false} BuyManyMissesNothing(r: Rules, ctx: Context, strategy: string, equity: real, b: Book,
                                                ss: seq<Signal>, ws: seq<real>, i: nat, h: int, m: int)
    requires r.Valid() && |ss| == |ws| && DistinctCodes(ss) && i < |ss|
    requires var end, c := BuyMany(r, ctx, strategy, equity, b, ss, ws).p, ss[i].code;
             && (Held(b.p, c) > 0 || |end.order| < r.maxPositions)
             && Possible(r, ctx, end.cash, Portion(equity, ws[i]), Held(b.p, c), c, h, m)
    ensures Held(BuyMany(r, ctx, strategy, equity, b, ss, ws).p, ss[i].code) >= Held(b.p, ss[i].code) + m
  {
    hide BuyOne, BuyFill, BuyCost, InLots, WithinParticipation, Amount, Portion, HasCode, FilledToday, SharesSold;
    var k, c := |ss| - 1, ss[i].code;
    var mid := BuyMany(r, ctx, strategy, equity, b, ss[..k], ws[..k]);
    BuyOneSpends(r, ctx, strategy, equity, mid, ss[k], ws[k]);
    if i < k {
      assert ss[..k][i] == ss[i] && ws[..k][i] == ws[i];
      BuyManyMissesNothing(r, ctx, strategy, equity, b, ss[..k], ws[..k], i, h, m);
    } else {
      NotInFront(ss);
      BuyManyOnlyBuys(r, ctx, strategy, equity, b, ss[..k], ws[..k]);
      assert Held(mid.p, c) == Held(b.p, c);
      BuyFillSpendsAllItCan(r, ctx, mid.p, c, equity, ws[k], h, m);
    }
  }

  /** After a session, no code of its batch lacks shares of its target that the remaining cash could have paid for,
      unless it is a new code and the position limit is reached. */
  lemma NoPurchaseIsMissed(r: Rules, strategy: string, env: Env, b: Book, i: nat, h: int, m: int)
    requires r.Valid() && i < |Batch(r, env)|
    requires var ss, mid, end := Batch(r, env), BeforeBuys(r, strategy, env, b).p, AfterFills(r, strategy, env, b).p;
             var c, equity := ss[i].code, EquityAtOpen(AfterSells(r, strategy, env, b).p, env.ctx.bar.opens);
             && (Held(mid, c) > 0 || |end.order| < r.maxPositions)
             && Possible(r, env.ctx, end.cash, Portion(equity, TargetWeights(ss)[i]), Held(mid, c), c, h, m)
    ensures var c := Batch(r, env)[i].code;
            Held(AfterFills(r, strategy, env, b).p, c) >= Held(BeforeBuys(r, strategy, env, b).p, c) + m
  {
    hide AfterSells, AfterTrims, Batch, EquityAtOpen, TargetWeights, Possible, BuyMany, Portion;
    var ss := Batch(r, env);
    BatchIsDistinct(r, env);
    var equity := EquityAtOpen(AfterSells(r, strategy, env, b).p, env.ctx.bar.opens);
    BuyManyMissesNothing(r, env.ctx, strategy, equity, BeforeBuys(r, strategy, env, b), ss, TargetWeights(ss), i, h, m);
  }
}
