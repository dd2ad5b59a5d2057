// The taking strategy in paper mode (src/strategy/arbitrage.rs, src/orchestrator/execution.rs):
// its legs are sized by the cash without the fee, and the simulator charges the fee.
module PaperArb {
  import opened Base
  import opened Positions
  import opened Ledgers
  import opened PaperTrading
  import opened Strategies
  import opened OrderBook
  import opened OrderPolicy
  import opened MarketPairs
  import opened EdgeCalculator
  import opened ArbSizing
  import MathArb

  // What a purchase takes from the available cash, its fee included.
  function LegCost(price: real, size: real, bps: nat): real {
    Value(price, size) + FeeOn(Value(price, size), bps)
  }

  function CashAfter(ledger: Ledger, order: PaperOrder): real {
    Simulated(ledger, order).cash.available
  }

  predicate Fills(ledger: Ledger, order: PaperOrder) {
    order.Filled(ledger.cash.available).Some?
  }

  // A purchase within its limit fills exactly if the cash covers it with its fee, which it then
  // takes; its shares are added to the token's, and no other token is touched.
  lemma PurchaseFills(ledger: Ledger, order: PaperOrder)
    requires order.intent.side == Buy && order.fillId !in ledger.seen
    requires order.FillPrice().Some? && order.FillPrice().value >= 0.0 && order.intent.size >= 0.0
    ensures var cost := LegCost(order.FillPrice().value, order.intent.size, order.quote.feeRateBps);
            var next := Simulated(ledger, order);
            && cost >= 0.0
            && (Fills(ledger, order) <==> cost <= ledger.cash.available)
            && next.cash.available == ledger.cash.available - (if Fills(ledger, order) then cost else 0.0)
            && next.seen <= ledger.seen + {order.fillId}
            && forall t :: Get(next.positions, t).shares ==
                           Get(ledger.positions, t).shares +
                           if t == order.intent.tokenId && Fills(ledger, order) then order.intent.size else 0.0
  {
    var notional := Value(order.FillPrice().value, order.intent.size);
    Product(order.FillPrice().value, order.intent.size);
    FeeSigns(notional, order.quote.feeRateBps);
    hide Value, FeeOn, Position.Booked, Remember;
    var filled := order.Filled(ledger.cash.available);
    if filled.Some? {
      var fill := Prepaid(ledger, filled.value).Resolved(filled.value);
      BookedPnl(Get(ledger.positions, order.intent.tokenId), fill);
    }
  }

  // Two purchases, one after the other.
  lemma PurchasesFill(ledger: Ledger, first: PaperOrder, second: PaperOrder)
    requires first.intent.side == Buy && second.intent.side == Buy
    requires first.fillId !in ledger.seen && second.fillId !in ledger.seen + {first.fillId}
    requires first.FillPrice().Some? && first.FillPrice().value >= 0.0 && first.intent.size >= 0.0
    requires second.FillPrice().Some? && second.FillPrice().value >= 0.0 && second.intent.size >= 0.0
    ensures var a := LegCost(first.FillPrice().value, first.intent.size, first.quote.feeRateBps);
            var b := LegCost(second.FillPrice().value, second.intent.size, second.quote.feeRateBps);
            var cash, mid := ledger.cash.available, Simulated(ledger, first);
            && (Fills(ledger, first) && Fills(mid, second) <==> a + b <= cash)
            && (Fills(ledger, first) || Fills(mid, second) <==> Min(a, b) <= cash)
            && (a + b <= cash ==> CashAfter(mid, second) == cash - (a + b))
  {
    PurchaseFills(ledger, first);
    PurchaseFills(Simulated(ledger, first), second);
    hide LegCost, Simulated, Fills, PaperOrder.FillPrice;
  }

  // ---- the legs of one trade ------------------------------------------------------------------------

  // An intent of the pair, met with the book the strategy saw and the pair's fee rate.
  function AsOrder(pair: MarketPair, ctx: StrategyContext, intent: OrderIntent, ids: (string, OrderId)): PaperOrder {
    var book := BookOf(ctx.books, intent.tokenId);
    PaperOrder(intent, Quote(book.BestBid(), book.BestAsk(), pair.feeRateBps), ids.0, ids.1)
  }

  // Both raw asks for the size, with the fee on them.
  function PairCost(pair: MarketPair, ctx: StrategyContext, size: real): real {
    var raw := Combined(BookOf(ctx.books, pair.yesTokenId), BookOf(ctx.books, pair.noTokenId));
    Value(Value(raw, size), 1.0 + FeeRate(pair.feeRateBps))
  }

  lemma CostsAdd(yes: real, no: real, size: real, bps: nat)
    ensures LegCost(yes, size, bps) + LegCost(no, size, bps) == Value(Value(yes + no, size), 1.0 + FeeRate(bps))
  {
    ValueAdds(yes, no, size);
    hide Value;
    FeeIsShare(Value(yes, size), bps);
    FeeIsShare(Value(no, size), bps);
    ValueAdds(Value(yes, size), Value(no, size), FeeRate(bps));
    WithFee(FeeRate(bps), Value(yes + no, size));
    assert Value(FeeRate(bps), Value(yes + no, size)) == Value(Value(yes + no, size), FeeRate(bps)) by {
      Swap(FeeRate(bps), Value(yes + no, size));
    }
  }

  lemma FeeIsShare(notional: real, bps: nat)
    ensures FeeOn(notional, bps) == Value(notional, FeeRate(bps))
  {
  }

  lemma Swap(a: real, b: real)
    ensures Value(a, b) == Value(b, a)
  {
  }

  // A pair that pays its fee per share does so for any number of shares.
  lemma PairPays(raw: real, size: real, fee: real)
    requires Value(raw, fee) <= 1.0 && size >= 0.0
    ensures Value(Value(raw, size), fee) <= size
  {
    assert Value(Value(raw, size), fee) == Value(Value(raw, fee), size);
    hide Value;
    Scaled(Value(raw, fee), size);
  }

  // A sized trade always has the cash for its cheaper leg while the fee is at most the price.
  lemma HalfIsAffordable(raw: real, limits: real, size: real, cash: real, bps: nat)
    requires 0.0 <= raw <= limits && size >= 0.0 && Value(limits, size) <= cash && bps <= 10000
    ensures Value(Value(raw, size), 1.0 + FeeRate(bps)) <= 2.0 * cash
  {
    ValueSubtracts(limits, raw, size);
    var fee := 1.0 + FeeRate(bps);
    assert fee <= 2.0;
    hide Value, FeeRate;
    Product(limits - raw, size);
    Product(raw, size);
    Swap(Value(raw, size), fee);
    Scaled(fee, Value(raw, size));
  }

  lemma BothAsksFill(
      config: MathArb.MathArbConfig, pair: MarketPair, ctx: StrategyContext, exposure: real, group: string,
      yesIds: (string, OrderId), noIds: (string, OrderId))
    requires pair.tickSize >= 0.0 && MathArb.PositiveAsks(pair, ctx)
    requires MathArb.Opportunity(config, pair, ctx, exposure).Some?
    ensures var trade := MathArb.Opportunity(config, pair, ctx, exposure).value;
            var legs := Legs(pair, trade, config.Urgency(), MathArb.NAME, group, MathArb.PRIORITY);
            var yes, no := AsOrder(pair, ctx, legs[0], yesIds), AsOrder(pair, ctx, legs[1], noIds);
            && yes.FillPrice() == BookOf(ctx.books, pair.yesTokenId).BestAsk()
            && no.FillPrice() == BookOf(ctx.books, pair.noTokenId).BestAsk()
            && yes.FillPrice().Some? && no.FillPrice().Some?
            && 0.0 < yes.FillPrice().value <= trade.yesPrice && 0.0 < no.FillPrice().value <= trade.noPrice
            && trade.size > 0.0
            && Value(trade.yesPrice + trade.noPrice, trade.size) <= ctx.availableCash
  {
    MathArb.OpportunityIs(config, pair, ctx, exposure);
    var trade := MathArb.Opportunity(config, pair, ctx, exposure).value;
    var yes, no := BookOf(ctx.books, pair.yesTokenId), BookOf(ctx.books, pair.noTokenId);
    SizedKeepsLimits(config.limits, MinDepth(yes, no), exposure, ctx.availableCash, trade.yesPrice, trade.noPrice);
    if pair.tickSize > 0.0 {
      RoundingIsTight(yes.BestAsk().value, pair.tickSize);
      RoundingIsTight(no.BestAsk().value, pair.tickSize);
    }
    hide MathArb.Opportunity, Sized, Calculate, RoundDownToTick, OnTick, Value;
  }

  // In paper mode both legs of a trade fill exactly if the cash covers the raw asks with the
  // fee, and then the pair costs that. A taker's pair never costs more than the dollar a share
  // it redeems for. Otherwise one leg may fill alone: it does, for every fee rate up to 100 %,
  // and the position is left unhedged.
  lemma PairFills(
      config: MathArb.MathArbConfig, pair: MarketPair, ctx: StrategyContext, exposure: real, group: string,
      ledger: Ledger, yesIds: (string, OrderId), noIds: (string, OrderId))
    requires pair.tickSize >= 0.0 && MathArb.PositiveAsks(pair, ctx)
    requires ledger.cash.available == ctx.availableCash
    requires yesIds.0 !in ledger.seen && noIds.0 !in ledger.seen && yesIds.0 != noIds.0
    ensures var opportunity := MathArb.Opportunity(config, pair, ctx, exposure);
            opportunity.Some? ==>
            var trade := opportunity.value;
            var legs := Legs(pair, trade, config.Urgency(), MathArb.NAME, group, MathArb.PRIORITY);
            var yes, no := AsOrder(pair, ctx, legs[0], yesIds), AsOrder(pair, ctx, legs[1], noIds);
            var mid := Simulated(ledger, yes);
            var cost := PairCost(pair, ctx, trade.size);
            && (Fills(ledger, yes) && Fills(mid, no) <==> cost <= ctx.availableCash)
            && (cost <= ctx.availableCash ==> CashAfter(mid, no) == ctx.availableCash - cost)
            && (!config.useMakerExecution ==> cost <= trade.size)
            && (pair.feeRateBps <= 10000 ==> Fills(ledger, yes) || Fills(mid, no))
  {
    if MathArb.Opportunity(config, pair, ctx, exposure).Some? {
      BothAsksFill(config, pair, ctx, exposure, group, yesIds, noIds);
      MathArb.OpportunityIs(config, pair, ctx, exposure);
      var trade := MathArb.Opportunity(config, pair, ctx, exposure).value;
      var legs := Legs(pair, trade, config.Urgency(), MathArb.NAME, group, MathArb.PRIORITY);
      var yes, no := AsOrder(pair, ctx, legs[0], yesIds), AsOrder(pair, ctx, legs[1], noIds);
      var yesBook, noBook := BookOf(ctx.books, pair.yesTokenId), BookOf(ctx.books, pair.noTokenId);
      ProfitCoversFees(config.Edge(), yesBook, noBook, pair.feeRateBps, config.limits.minPositionSize);
      hide MathArb.Opportunity, Sized, Calculate, RoundUpToTick, Value, FeeRate, Simulated, Fills, CashAfter;
      hide PaperOrder.FillPrice, MinDepth;
      OrdersFill(ledger, yes, no, trade, pair.feeRateBps);
    }
  }

  // The same of two purchases of one size, at prices below a trade's that is within the cash.
  lemma OrdersFill(ledger: Ledger, yes: PaperOrder, no: PaperOrder, trade: Trade, bps: nat)
    requires yes.intent.side == Buy && no.intent.side == Buy
    requires yes.intent.size == no.intent.size == trade.size > 0.0
    requires yes.quote.feeRateBps == no.quote.feeRateBps == bps
    requires yes.fillId !in ledger.seen && no.fillId !in ledger.seen && yes.fillId != no.fillId
    requires yes.FillPrice().Some? && no.FillPrice().Some?
    requires 0.0 < yes.FillPrice().value <= trade.yesPrice && 0.0 < no.FillPrice().value <= trade.noPrice
    requires Value(trade.yesPrice + trade.noPrice, trade.size) <= ledger.cash.available
    ensures var raw := yes.FillPrice().value + no.FillPrice().value;
            var cost := Value(Value(raw, trade.size), 1.0 + FeeRate(bps));
            var cash, mid := ledger.cash.available, Simulated(ledger, yes);
            && (Fills(ledger, yes) && Fills(mid, no) <==> cost <= cash)
            && (cost <= cash ==> CashAfter(mid, no) == cash - cost)
            && (Value(raw, 1.0 + FeeRate(bps)) <= 1.0 ==> cost <= trade.size)
            && (bps <= 10000 ==> Fills(ledger, yes) || Fills(mid, no))
  {
    hide Value, FeeRate, LegCost, Simulated, Fills, CashAfter, PaperOrder.FillPrice;
    PurchasesFill(ledger, yes, no);
    var raw := yes.FillPrice().value + no.FillPrice().value;
    CostsAdd(yes.FillPrice().value, no.FillPrice().value, trade.size, bps);
    if Value(raw, 1.0 + FeeRate(bps)) <= 1.0 {
      PairPays(raw, trade.size, 1.0 + FeeRate(bps));
    }
    if bps <= 10000 {
      HalfIsAffordable(raw, trade.yesPrice + trade.noPrice, trade.size, ledger.cash.available, bps);
    }
  }

  // The two legs as the run of the simulator, and what they add to the holdings.
  lemma PairRuns(ledger: Ledger, yes: PaperOrder, no: PaperOrder)
    requires yes.intent.side == Buy && no.intent.side == Buy && yes.intent.tokenId != no.intent.tokenId
    requires yes.fillId !in ledger.seen && no.fillId !in ledger.seen + {yes.fillId}
    requires yes.FillPrice().Some? && yes.FillPrice().value >= 0.0 && yes.intent.size >= 0.0
    requires no.FillPrice().Some? && no.FillPrice().value >= 0.0 && no.intent.size >= 0.0
    ensures var mid, end := Simulated(ledger, yes), SimulateAll(ledger, [yes, no]);
            && end == Simulated(mid, no)
            && Get(end.positions, yes.intent.tokenId).shares ==
               Get(ledger.positions, yes.intent.tokenId).shares + (if Fills(ledger, yes) then yes.intent.size else 0.0)
            && Get(end.positions, no.intent.tokenId).shares ==
               Get(ledger.positions, no.intent.tokenId).shares + (if Fills(mid, no) then no.intent.size else 0.0)
  {
    assert [yes, no][..1] == [yes] && [yes][..0] == [];
    assert SimulateAll(ledger, [yes]) == Simulated(ledger, yes);
    PurchaseFills(ledger, yes);
    PurchaseFills(Simulated(ledger, yes), no);
    hide Simulated, Fills, PaperOrder.FillPrice;
  }

  // ---- a leg alone ----------------------------------------------------------------------------------

  const TEN_PERCENT := MarketPair("market", "yes", "no", 1000, 0.01)
  const BOOK_43 := BookSnapshot([PriceLevel(0.42, 1000.0)], [PriceLevel(0.43, 1000.0)])
  const TEN_DOLLARS := StrategyContext(map["yes" := BOOK_43, "no" := BOOK_43], map[], 10.0)
  const CONFIG := MathArb.MathArbConfig(0.03, Limits(500.0, 1.0, 100.0, 2000.0), 1000, false)

  lemma SizedForTenDollars()
    ensures MathArb.Opportunity(CONFIG, TEN_PERCENT, TEN_DOLLARS, 0.0) == Some(Trade(0.43, 0.43, 11.62))
  {
    assert RoundUpToTick(0.43, 0.01) == 0.43 by { assert Ceil(0.43 / 0.01) == 43; }
    assert (10.0 / 0.86 * 100.0).Floor == 1162;
    assert Ceil(1.0 / 0.43) == 3;
  }

  function LegOf43(tokenId: TokenId, group: string, ids: (string, OrderId)): PaperOrder {
    var legs := Legs(TEN_PERCENT, Trade(0.43, 0.43, 11.62), Immediate, MathArb.NAME, group, MathArb.PRIORITY);
    AsOrder(TEN_PERCENT, TEN_DOLLARS, if tokenId == "yes" then legs[0] else legs[1], ids)
  }

  lemma LegAt43(tokenId: TokenId, group: string, ids: (string, OrderId))
    requires tokenId in {"yes", "no"}
    ensures var order := LegOf43(tokenId, group, ids);
            && order.FillPrice() == Some(0.43) && order.intent.size == 11.62 && order.quote.feeRateBps == 1000
            && order.intent.side == Buy && order.intent.tokenId == tokenId && order.fillId == ids.0
  {
  }

  // Cash for the first purchase and not for both.
  lemma FirstAlone(ledger: Ledger, yes: PaperOrder, no: PaperOrder, cost: real)
    requires yes.intent.side == Buy && no.intent.side == Buy && yes.intent.tokenId != no.intent.tokenId
    requires yes.fillId !in ledger.seen && no.fillId !in ledger.seen + {yes.fillId}
    requires yes.FillPrice().Some? && yes.FillPrice().value >= 0.0 && yes.intent.size >= 0.0
    requires no.FillPrice().Some? && no.FillPrice().value >= 0.0 && no.intent.size >= 0.0
    requires LegCost(yes.FillPrice().value, yes.intent.size, yes.quote.feeRateBps) == cost
    requires LegCost(no.FillPrice().value, no.intent.size, no.quote.feeRateBps) == cost
    requires cost <= ledger.cash.available < cost + cost
    ensures var end := SimulateAll(ledger, [yes, no]);
            && Get(end.positions, yes.intent.tokenId).shares ==
               Get(ledger.positions, yes.intent.tokenId).shares + yes.intent.size
            && Get(end.positions, no.intent.tokenId).shares == Get(ledger.positions, no.intent.tokenId).shares
  {
    hide Simulated, SimulateAll, LegCost, Fills, PaperOrder.FillPrice;
    PairRuns(ledger, yes, no);
    PurchaseFills(ledger, yes);
    PurchaseFills(Simulated(ledger, yes), no);
  }

  lemma CostAt43()
    ensures LegCost(0.43, 11.62, 1000) == 5.49626
  {
  }

  // Ten dollars, both asks at 43 cents and a fee of ten percent: 11.62 shares a leg are sized,
  // which cost 10.99 dollars with the fee. One leg fills, the other does not.
  lemma OneLegAlone(group: string, yesIds: (string, OrderId), noIds: (string, OrderId))
    requires yesIds.0 != noIds.0
    ensures MathArb.Opportunity(CONFIG, TEN_PERCENT, TEN_DOLLARS, 0.0) == Some(Trade(0.43, 0.43, 11.62))
    ensures var end := SimulateAll(NewLedger(10.0), [LegOf43("yes", group, yesIds), LegOf43("no", group, noIds)]);
            Get(end.positions, "yes").shares == 11.62 && Get(end.positions, "no").shares == 0.0
  {
    hide *;
    SizedForTenDollars();
    AloneAt43(LegOf43("yes", group, yesIds), LegOf43("no", group, noIds)) by {
      LegAt43("yes", group, yesIds);
      LegAt43("no", group, noIds);
    }
  }

  lemma AloneAt43(yes: PaperOrder, no: PaperOrder)
    requires forall order :: order in {yes, no} ==>
               && order.FillPrice() == Some(0.43) && order.intent.size == 11.62 && order.quote.feeRateBps == 1000
               && order.intent.side == Buy
    requires yes.intent.tokenId == "yes" && no.intent.tokenId == "no" && yes.fillId != no.fillId
    ensures var end := SimulateAll(NewLedger(10.0), [yes, no]);
            Get(end.positions, "yes").shares == 11.62 && Get(end.positions, "no").shares == 0.0
  {
    hide SimulateAll, LegCost, PaperOrder.FillPrice;
    CostAt43();
    FirstAlone(NewLedger(10.0), yes, no, 5.49626);
  }
}
