// Conservation of value, and paper trading (src/orchestrator/execution.rs).
//
// A portfolio's value moves only by the profit it realizes and the fees it pays. What a
// fill does to that balance depends on how it is settled against the reserved cash, so it
// is computed here once and used for paper trading and for the order protocol.
module Equity {
  import opened Base
  import opened Positions
  import opened CashBalances
  import opened Orders
  import opened Ledgers
  import Sums

  function Cost(p: Position): real {
    p.SignedCost()
  }

  function Realized(p: Position): real {
    p.realizedPnl
  }

  function Fees(p: Position): real {
    p.totalFees
  }

  function SlippageOf(p: Position): real {
    p.totalSlippageCost
  }

  // Cash that went into a holding and has not come back: its cost, less the profit already
  // taken, plus fees.
  function NetOutlay(p: Position): real {
    Cost(p) - Realized(p) + Fees(p)
  }

  // Cash plus everything cash has been turned into. Conserved means no fill was booked
  // against cash that did not move, or moved by the wrong amount.
  ghost function Wealth(ledger: Ledger): real {
    ledger.cash.Total() + Sums.Over(ledger.positions, NetOutlay)
  }

  lemma {:induction false} NetOutlaySplits(positions: map<TokenId, Position>)
    ensures Sums.Over(positions, NetOutlay)
         == Sums.Over(positions, Cost) - Sums.Over(positions, Realized) + Sums.Over(positions, Fees)
  {
    hide Cost, Realized, Fees;
    if positions != map[] {
      var t :| t in positions;
      Sums.Remove(positions, t, NetOutlay);
      Sums.Remove(positions, t, Cost);
      Sums.Remove(positions, t, Realized);
      Sums.Remove(positions, t, Fees);
      NetOutlaySplits(positions - {t});
    }
  }

  // Wealth in the ledger's own totals.
  lemma WealthIs(ledger: Ledger)
    ensures Wealth(ledger) == ledger.cash.Total() + Sums.Over(ledger.positions, Cost)
                              - Sums.Over(ledger.positions, Realized) + Sums.Over(ledger.positions, Fees)
  {
    NetOutlaySplits(ledger.positions);
  }

  lemma EmptyHasNothing()
    ensures NetOutlay(NO_POSITION) == 0.0 && SlippageOf(NO_POSITION) == 0.0
  {
  }

  lemma BookedNetOutlay(p: Position, fill: Fill)
    ensures NetOutlay(p.Booked(fill)) == NetOutlay(p) + Outlay(fill) + fill.fee
    ensures SlippageOf(p.Booked(fill)) == SlippageOf(p) + fill.slippageCost
  {
    hide Value, Average, Gain;
    BookedPnl(p, fill);
  }

  // What one new fill changes.
  lemma ProcessedWealth(ledger: Ledger, fill: Fill)
    requires fill.fillId !in ledger.seen
    ensures var next := ledger.Processed(fill);
            && Wealth(next) == Wealth(ledger) + Outlay(fill) + fill.fee
                               + ledger.Settled(fill).Total() - ledger.cash.Total()
            && Sums.Over(next.positions, SlippageOf)
               == Sums.Over(ledger.positions, SlippageOf) + ledger.Resolved(fill).slippageCost
            && next.cash == ledger.Settled(fill)
  {
    hide Position.Booked, Value, NetOutlay, SlippageOf, Remember, Cash.SettledBuy, Cash.Received, Cash.Charged;
    var booked := ledger.Resolved(fill);
    var p := Get(ledger.positions, fill.tokenId);
    var q := p.Booked(booked);
    Sums.Update(ledger.positions, fill.tokenId, q, NetOutlay);
    Sums.Update(ledger.positions, fill.tokenId, q, SlippageOf);
    EmptyHasNothing();
    BookedNetOutlay(p, booked);
    SettledSame(ledger, fill, booked);
  }

  // What settling leaves of a fill's notional: the part of a purchase no reserve covers is not
  // paid, and negative notionals move no cash.
  function Unsettled(ledger: Ledger, fill: Fill): real {
    var notional := fill.Notional();
    if fill.side == Sell then Max(-notional, 0.0)
    else if notional <= 0.0 then notional
    else Max(notional - ledger.cash.reserved, 0.0)
  }

  // Exactly what a new fill adds to the portfolio's wealth, and with it when a fill conserves
  // wealth: its notional is not negative and, for a purchase, no more than what is reserved.
  lemma FillConserves(ledger: Ledger, fill: Fill)
    requires fill.fillId !in ledger.seen
    ensures Wealth(ledger.Processed(fill)) == Wealth(ledger) + Unsettled(ledger, fill) + Min(fill.fee, 0.0)
    ensures ledger.cash.reserved >= 0.0 && fill.fee >= 0.0 ==>
              (Wealth(ledger.Processed(fill)) == Wealth(ledger) <==>
               0.0 <= fill.Notional() && (fill.side == Buy ==> fill.Notional() <= ledger.cash.reserved))
  {
    ProcessedWealth(ledger, fill);
    NotionalSigned(fill);
    hide Wealth, Value, Ledger.Processed;
  }

  lemma NotionalSigned(fill: Fill)
    ensures Outlay(fill) == if fill.side == Buy then fill.Notional() else -fill.Notional()
  {
  }

  // A purchase nothing was reserved for is booked and never paid.
  lemma UnreservedPurchaseIsFree(initialCash: real, fill: Fill)
    requires fill.side == Buy && fill.fee == 0.0 && fill.Notional() > 0.0
    ensures var ledger := NewLedger(initialCash);
            && ledger.Processed(fill).cash == ledger.cash
            && Wealth(ledger.Processed(fill)) == Wealth(ledger) + fill.Notional()
  {
    var ledger := NewLedger(initialCash);
    FillConserves(ledger, fill);
    hide Wealth, Value;
  }

  // ---- slippage ------------------------------------------------------------------------------

  // What a fill was expected to trade at: what it says itself or, failing that, the limit of
  // the order it belongs to.
  function Expected(store: Store, fill: Fill): Option<real> {
    match fill.expectedPrice
    case Some(price) => Some(price)
    case None => if fill.orderId in store.byOrderId then Some(store.byOrderId[fill.orderId].price) else None
  }

  // The outlay of all fills that have an expected price, less what they were expected to cost.
  function Overpaid(store: Store, fills: seq<Fill>): real {
    if fills == [] then 0.0
    else
      var fill := fills[|fills| - 1];
      var expected := Expected(store, fill);
      Overpaid(store, fills[..|fills| - 1])
      + if expected.None? then 0.0 else Outlay(fill) - Value(expected.value, Quantity(fill))
  }

  lemma ResolvedSlippage(ledger: Ledger, fill: Fill)
    ensures ledger.Resolved(fill).slippageCost == Overpaid(ledger.orders, [fill])
  {
    assert [fill][..0] == [];
    assert Overpaid(ledger.orders, []) == 0.0;
    assert forall e: real :: Value(fill.price - e, fill.SignedSize()) == Outlay(fill) - Value(e, fill.SignedSize());
  }

  // A fill is booked as it came, except for its expected price and what it cost beyond that.
  lemma ResolvedExactly(ledger: Ledger, fill: Fill)
    ensures ledger.Resolved(fill) == fill.(
              expectedPrice := Expected(ledger.orders, fill), slippageCost := Overpaid(ledger.orders, [fill]))
  {
    ResolvedSlippage(ledger, fill);
    hide Value;
  }

  lemma OverpaidNext(store: Store, fills: seq<Fill>, fill: Fill)
    ensures Overpaid(store, fills + [fill]) == Overpaid(store, fills) + Overpaid(store, [fill])
  {
    assert (fills + [fill])[..|fills|] == fills;
    assert [fill][..0] == [];
    assert Overpaid(store, []) == 0.0;
  }

  // Slippage is what was paid beyond the expected prices: over any run of fills, repeats left
  // out, in total and for every token.
  lemma {:induction false} SlippageIsOverpaid(ledger: Ledger, fills: seq<Fill>, tokenId: TokenId)
    ensures var end := ProcessAll(ledger, fills);
            var firsts := FirstOnly(fills, ledger.seen);
            && Sums.Over(end.positions, SlippageOf) == Sums.Over(ledger.positions, SlippageOf) + Overpaid(ledger.orders, firsts)
            && Get(end.positions, tokenId).totalSlippageCost
               == Get(ledger.positions, tokenId).totalSlippageCost + Overpaid(ledger.orders, OnToken(firsts, tokenId))
  {
    hide Position.Booked, Value, Remember, SlippageOf, NetOutlay, Ledger.Resolved, Ledger.Settled, Wealth;
    if fills != [] {
      var n := |fills| - 1;
      var fill, was := fills[n], ProcessAll(ledger, fills[..n]);
      var before := FirstOnly(fills[..n], ledger.seen);
      SlippageIsOverpaid(ledger, fills[..n], tokenId);
      SeenAfter(ledger, fills[..n]);
      if fill.fillId in ledger.seen + Ids(fills[..n]) {
        assert before + [] == before;
      } else {
        ProcessedWealth(was, fill);
        ResolvedSlippage(was, fill);
        OverpaidNext(ledger.orders, before, fill);
        TokenNext(was, fill, tokenId);
        OverpaidNext(ledger.orders, OnToken(before, tokenId), fill);
        assert (before + [fill])[..|before|] == before;
        assert OnToken(before, tokenId) + [] == OnToken(before, tokenId);
      }
    }
  }

  lemma TokenNext(ledger: Ledger, fill: Fill, tokenId: TokenId)
    requires fill.fillId !in ledger.seen
    ensures Get(ledger.Processed(fill).positions, tokenId).totalSlippageCost ==
            Get(ledger.positions, tokenId).totalSlippageCost
            + if fill.tokenId == tokenId then ledger.Resolved(fill).slippageCost else 0.0
  {
    hide Value, Average, Gain, Ledger.Settled;
  }

  lemma SettledSame(ledger: Ledger, fill: Fill, booked: Fill)
    requires booked == fill.(expectedPrice := booked.expectedPrice, slippageCost := booked.slippageCost)
    ensures ledger.Settled(booked) == ledger.Settled(fill)
  {
  }
}

module PaperTrading {
  import opened Base
  import opened Positions
  import opened Ledgers
  import opened Equity
  import opened Strategies
  import Sums

  // What the simulator reads about a token: the top of its book and its market's fee rate.
  datatype Quote = Quote(bestBid: Option<real>, bestAsk: Option<real>, feeRateBps: nat)

  const NO_QUOTE := Quote(None, None, 0)

  function FeeOn(notional: real, feeRateBps: nat): real {
    notional * (feeRateBps as real / 10000.0)
  }

  // One intent as the simulator meets it, with the fresh ids it draws.
  datatype PaperOrder = PaperOrder(intent: OrderIntent, quote: Quote, fillId: string, orderId: OrderId) {
    // The counterside price, if it is within the limit.
    function FillPrice(): Option<real> {
      match intent.side
      case Buy => if quote.bestAsk.Some? && quote.bestAsk.value <= intent.price then quote.bestAsk else None
      case Sell => if quote.bestBid.Some? && quote.bestBid.value >= intent.price then quote.bestBid else None
    }

    // The fill this intent gets with the given cash, if any.
    function Filled(available: real): Option<Fill> {
      if FillPrice().None? then None
      else
        var price := FillPrice().value;
        var notional := Value(price, intent.size);
        var fee := FeeOn(notional, quote.feeRateBps);
        if intent.side == Buy && available < notional + fee then None
        else Some(Fill(fillId, orderId, intent.tokenId, intent.side, price, intent.size, fee,
                       Some(intent.price), 0.0))
    }
  }

  // A purchase is paid for before it is booked, because booking only draws on reserved cash.
  function Prepaid(ledger: Ledger, fill: Fill): Ledger {
    if fill.side == Buy then ledger.(cash := ledger.cash.Withdrawn(fill.Notional())) else ledger
  }

  function Simulated(ledger: Ledger, order: PaperOrder): Ledger {
    match order.Filled(ledger.cash.available)
    case None => ledger
    case Some(fill) => Prepaid(ledger, fill).Processed(fill)
  }

  function SimulateAll(ledger: Ledger, orders: seq<PaperOrder>): Ledger {
    if orders == [] then ledger
    else Simulated(SimulateAll(ledger, orders[..|orders| - 1]), orders[|orders| - 1])
  }

  function QuoteFor(market: map<TokenId, Quote>, tokenId: TokenId): Quote {
    if tokenId in market then market[tokenId] else NO_QUOTE
  }

  function Orders(intents: seq<OrderIntent>, market: map<TokenId, Quote>, ids: seq<(string, OrderId)>): seq<PaperOrder>
    requires |ids| == |intents|
  {
    seq(|intents|, i requires 0 <= i < |intents| =>
      PaperOrder(intents[i], QuoteFor(market, intents[i].tokenId), ids[i].0, ids[i].1))
  }

  method SimulatePaperFills(
      ledger: LedgerBook,
      intents: seq<OrderIntent>,
      market: map<TokenId, Quote>,
      ids: seq<(string, OrderId)>)
    requires |ids| == |intents|
    modifies ledger, ledger.positions, ledger.cash
    ensures ledger.View() == SimulateAll(old(ledger.View()), Orders(intents, market, ids))
  {
    hide Ledger.Processed, Value, FeeOn;
    var i := 0;
    ghost var orders := Orders(intents, market, ids);
    while i < |intents|
      invariant 0 <= i <= |intents|
      invariant ledger.View() == SimulateAll(old(ledger.View()), orders[..i])
    {
      var intent := intents[i];
      var quote := QuoteFor(market, intent.tokenId);
      assert orders[..i + 1][..i] == orders[..i];
      i := i + 1;

      var fillPrice: Option<real>;
      match intent.side {
        case Buy =>
          fillPrice := if quote.bestAsk.Some? && quote.bestAsk.value <= intent.price then quote.bestAsk else None;
        case Sell =>
          fillPrice := if quote.bestBid.Some? && quote.bestBid.value >= intent.price then quote.bestBid else None;
      }
      if fillPrice.None? {
        continue;
      }
      var price := fillPrice.value;
      var notional := Value(price, intent.size);
      var fee := FeeOn(notional, quote.feeRateBps);

      if intent.side == Buy {
        var totalCost := notional + fee;
        if ledger.cash.available < totalCost {
          continue;
        }
        var _ := ledger.cash.Withdraw(notional);
      }
      var fill := Fill(ids[i - 1].0, ids[i - 1].1, intent.tokenId, intent.side, price, intent.size, fee,
                       Some(intent.price), 0.0);
      ledger.ProcessFill(fill);
    }
    assert orders[..i] == orders;
  }

  // ---- when an intent fills, and what it then changes ------------------------------------------

  // Every intent meets the quote of its token, or none.
  lemma OrderMeets(intents: seq<OrderIntent>, market: map<TokenId, Quote>, ids: seq<(string, OrderId)>, i: nat)
    requires |ids| == |intents| && i < |intents|
    ensures var order := Orders(intents, market, ids)[i];
            && order.intent == intents[i] && order.fillId == ids[i].0 && order.orderId == ids[i].1
            && (intents[i].tokenId in market ==> order.quote == market[intents[i].tokenId])
            && (intents[i].tokenId !in market ==> order.quote.bestBid == order.quote.bestAsk == None)
  {
  }

  // Only the traded token's position moves: its shares, fees and slippage cost.
  ghost predicate Traded(before: Ledger, after: Ledger, tokenId: TokenId, shares: real, fee: real, slippage: real) {
    && (forall t :: t != tokenId ==> Get(after.positions, t) == Get(before.positions, t))
    && var was, now := Get(before.positions, tokenId), Get(after.positions, tokenId);
    && now.shares == was.shares + shares
    && now.totalFees == was.totalFees + fee
    && now.totalSlippageCost == was.totalSlippageCost + slippage
  }

  // A sale fills if and only if there is a bid at its limit or above. It earns the bid for every
  // share, less the fee, and takes the shares from its token.
  lemma SaleBooked(ledger: Ledger, order: PaperOrder)
    requires order.intent.side == Sell && order.fillId !in ledger.seen && WellFormed(order)
    ensures var intent, bid := order.intent, order.quote.bestBid;
            var next := Simulated(ledger, order);
            if bid.Some? && bid.value >= intent.price then
              var earned, fee := Value(bid.value, intent.size), FeeOn(Value(bid.value, intent.size), order.quote.feeRateBps);
              && next.cash == ledger.cash.(available := ledger.cash.available + earned - fee)
              && Traded(ledger, next, intent.tokenId, -intent.size, fee, Value(intent.price - bid.value, intent.size))
              && next.seen == ledger.seen + {order.fillId}
            else next == ledger
  {
    var bid := order.quote.bestBid;
    if bid.Some? && bid.value >= order.intent.price {
      NotionalAndFee(bid.value, order.intent.size, order.quote.feeRateBps);
      ValueOfSale(order.intent.price - bid.value, order.intent.size);
      hide Value, FeeOn, Ledger.Processed, Traded;
      var fill := order.Filled(ledger.cash.available).value;
      FillTraded(ledger, fill);
    }
  }

  // A purchase fills if and only if there is an ask at its limit or below and the cash covers it
  // with its fee. It pays both, and adds the shares to its token.
  lemma PurchaseBooked(ledger: Ledger, order: PaperOrder)
    requires order.intent.side == Buy && order.fillId !in ledger.seen && WellFormed(order)
    ensures var intent, ask := order.intent, order.quote.bestAsk;
            var next := Simulated(ledger, order);
            if ask.None? || ask.value > intent.price then next == ledger
            else
              var paid, fee := Value(ask.value, intent.size), FeeOn(Value(ask.value, intent.size), order.quote.feeRateBps);
              if paid + fee > ledger.cash.available then next == ledger
              else
                && next.cash.available == ledger.cash.available - paid - fee
                && (ledger.cash.reserved == 0.0 ==> next.cash.reserved == 0.0)
                && Traded(ledger, next, intent.tokenId, intent.size, fee, Value(ask.value - intent.price, intent.size))
                && next.seen == ledger.seen + {order.fillId}
  {
    var ask := order.quote.bestAsk;
    if ask.Some? && ask.value <= order.intent.price {
      NotionalAndFee(ask.value, order.intent.size, order.quote.feeRateBps);
      hide Value, FeeOn, Ledger.Processed, Traded;
      var filled := order.Filled(ledger.cash.available);
      if filled.Some? {
        FillTraded(Prepaid(ledger, filled.value), filled.value);
        PrepaidTraded(ledger, filled.value);
      }
    }
  }

  lemma NotionalAndFee(price: real, size: real, bps: nat)
    requires price >= 0.0 && size >= 0.0
    ensures Value(price, size) >= 0.0 && FeeOn(Value(price, size), bps) >= 0.0
  {
    FeeSigns(Value(price, size), bps);
  }

  lemma PrepaidTraded(ledger: Ledger, fill: Fill)
    ensures Prepaid(ledger, fill).positions == ledger.positions
    ensures Prepaid(ledger, fill).seen == ledger.seen
    ensures fill.side == Buy && 0.0 <= fill.Notional() <= ledger.cash.available ==>
              Prepaid(ledger, fill).cash == ledger.cash.(available := ledger.cash.available - fill.Notional())
  {
  }

  lemma FillTraded(ledger: Ledger, fill: Fill)
    requires fill.fillId !in ledger.seen && fill.expectedPrice.Some?
    ensures var next := ledger.Processed(fill);
            && Traded(ledger, next, fill.tokenId, fill.SignedSize(), fill.fee,
                      Value(fill.price - fill.expectedPrice.value, fill.SignedSize()))
            && next.cash == ledger.Settled(fill)
            && next.seen == ledger.seen + {fill.fillId}
            && next.orders == ledger.orders
  {
    hide Value, Average, Gain;
  }

  // ---- one simulated intent ----------------------------------------------------------------

  lemma FeeSigns(notional: real, feeRateBps: nat)
    ensures notional >= 0.0 ==> FeeOn(notional, feeRateBps) >= 0.0
    ensures notional <= 0.0 ==> FeeOn(notional, feeRateBps) <= 0.0
    ensures notional >= 0.0 && feeRateBps <= 10000 ==> FeeOn(notional, feeRateBps) <= notional
    ensures notional != 0.0 ==> (FeeOn(notional, feeRateBps) == notional <==> feeRateBps == 10000)
  {
    ShareOf(notional, feeRateBps as real / 10000.0);
  }

  lemma ShareOf(amount: real, rate: real)
    requires rate >= 0.0
    ensures amount >= 0.0 ==> 0.0 <= amount * rate
    ensures amount <= 0.0 ==> amount * rate <= 0.0
    ensures amount >= 0.0 && rate <= 1.0 ==> amount * rate <= amount
    ensures amount != 0.0 ==> (amount * rate == amount <==> rate == 1.0)
  {
    assert amount - amount * rate == amount * (1.0 - rate);
  }

  // Exactly what one intent adds to the portfolio's wealth: nothing when the traded notional
  // is not negative.
  lemma SimulatedWealth(ledger: Ledger, order: PaperOrder)
    requires ledger.cash.reserved == 0.0
    requires order.fillId !in ledger.seen
    ensures var next := Simulated(ledger, order);
            var filled := order.Filled(ledger.cash.available);
            && next.cash.reserved == 0.0
            && (filled.None? ==> next == ledger)
            && (filled.Some? ==>
                  var fill := filled.value;
                  && next.seen == ledger.seen + {order.fillId}
                  && next.cash.available == ledger.cash.available - Max(fill.fee, 0.0)
                     + (if fill.side == Buy then -1.0 else 1.0) * Max(fill.Notional(), 0.0)
                  && Wealth(next) == Wealth(ledger) + Min(fill.fee, 0.0)
                     + (if fill.side == Buy then 1.0 else -1.0) * Min(fill.Notional(), 0.0))
  {
    hide Wealth, Value, FeeOn;
    var filled := order.Filled(ledger.cash.available);
    if filled.Some? {
      var fill := filled.value;
      var notional := fill.Notional();
      var prepaid := Prepaid(ledger, fill);
      FeeSigns(notional, order.quote.feeRateBps);
      PrepaidWealth(ledger, fill);
      ProcessedWealth(prepaid, fill);
      NotionalSigned(fill);
    }
  }

  lemma PrepaidWealth(ledger: Ledger, fill: Fill)
    ensures Wealth(Prepaid(ledger, fill)) == Wealth(ledger) + Prepaid(ledger, fill).cash.Total() - ledger.cash.Total()
  {
  }

  // So an intent conserves wealth if and only if it does not fill, or its notional is not
  // negative, or it is a sale whose whole (negative) proceeds are its fee.
  lemma SimulatedConserves(ledger: Ledger, order: PaperOrder)
    requires ledger.cash.reserved == 0.0
    requires order.fillId !in ledger.seen
    ensures Wealth(Simulated(ledger, order)) == Wealth(ledger) <==>
            var price := order.FillPrice();
            || order.Filled(ledger.cash.available).None?
            || price.value * order.intent.size >= 0.0
            || (order.intent.side == Sell && order.quote.feeRateBps == 10000)
  {
    SimulatedWealth(ledger, order);
    var filled := order.Filled(ledger.cash.available);
    if filled.Some? {
      FeeSigns(filled.value.Notional(), order.quote.feeRateBps);
      hide Wealth, FeeOn, Simulated;
    }
  }

  // ---- runs -----------------------------------------------------------------------------------

  predicate NonNegative(price: Option<real>) {
    price.Some? ==> price.value >= 0.0
  }

  // What every strategy and every exchange book supplies.
  predicate WellFormed(order: PaperOrder) {
    order.intent.size >= 0.0 && NonNegative(order.quote.bestBid) && NonNegative(order.quote.bestAsk)
  }

  ghost predicate FreshIds(orders: seq<PaperOrder>) {
    forall i, j :: 0 <= i < j < |orders| ==> orders[i].fillId != orders[j].fillId
  }

  lemma FilledWellFormed(order: PaperOrder, available: real)
    requires WellFormed(order) && order.Filled(available).Some?
    ensures var fill := order.Filled(available).value;
            fill.Notional() >= 0.0 && Value(fill.price - order.intent.price, fill.SignedSize()) <= 0.0
  {
    var fill := order.Filled(available).value;
    assert fill.price * fill.size >= 0.0;
    if fill.side == Buy {
      NonPositive(fill.price - order.intent.price, fill.size);
    } else {
      NonPositive(-fill.size, fill.price - order.intent.price);
    }
  }

  lemma NonPositive(a: real, b: real)
    requires a <= 0.0 && b >= 0.0
    ensures a * b <= 0.0
  {
  }

  lemma SimulatedSlippage(ledger: Ledger, order: PaperOrder)
    requires WellFormed(order) && order.fillId !in ledger.seen
    ensures Sums.Over(Simulated(ledger, order).positions, SlippageOf) <= Sums.Over(ledger.positions, SlippageOf)
  {
    hide Wealth, Value, FeeOn, SlippageOf;
    var filled := order.Filled(ledger.cash.available);
    if filled.Some? {
      FilledWellFormed(order, ledger.cash.available);
      ProcessedWealth(Prepaid(ledger, filled.value), filled.value);
    }
  }

  // Equity conservation in paper mode, after any intents against any changing books:
  // available + cost of the holdings = initial + realized profit - fees, with nothing ever
  // reserved, no slippage cost on balance, and no debt while fees stay within 100 %.
  lemma {:induction false} PaperConserves(initialCash: real, orders: seq<PaperOrder>)
    requires forall order :: order in orders ==> WellFormed(order)
    requires FreshIds(orders)
    ensures var end := SimulateAll(NewLedger(initialCash), orders);
            && end.cash.reserved == 0.0
            && end.cash.available + Sums.Over(end.positions, Cost)
               == initialCash + Sums.Over(end.positions, Realized) - Sums.Over(end.positions, Fees)
            && Sums.Over(end.positions, SlippageOf) <= 0.0
            && (initialCash >= 0.0 && (forall order :: order in orders ==> order.quote.feeRateBps <= 10000) ==>
                  end.cash.available >= 0.0)
    ensures SimulateAll(NewLedger(initialCash), orders).seen <= set order | order in orders :: order.fillId
  {
    var end := SimulateAll(NewLedger(initialCash), orders);
    WealthIs(end);
    hide Value, FeeOn, Simulated, Cost, Realized, Fees, SlippageOf;
    if orders != [] {
      var n := |orders| - 1;
      var order := orders[n];
      var was := SimulateAll(NewLedger(initialCash), orders[..n]);
      PaperConserves(initialCash, orders[..n]);
      WealthIs(was);
      hide Wealth;
      assert order.fillId !in was.seen;
      assert WellFormed(order);
      SimulatedWealth(was, order);
      SimulatedSlippage(was, order);
      if order.Filled(was.cash.available).Some? {
        FilledWellFormed(order, was.cash.available);
        FeeSigns(order.Filled(was.cash.available).value.Notional(), order.quote.feeRateBps);
      }
    }
  }

  // What the filled intents of a run paid beyond their limits.
  function PaperOverpaid(initialCash: real, orders: seq<PaperOrder>): real {
    if orders == [] then 0.0
    else
      var n := |orders| - 1;
      var filled := orders[n].Filled(SimulateAll(NewLedger(initialCash), orders[..n]).cash.available);
      PaperOverpaid(initialCash, orders[..n])
      + if filled.None? then 0.0
        else Outlay(filled.value) - Value(orders[n].intent.price, Quantity(filled.value))
  }

  lemma {:induction false} PaperSlippage(initialCash: real, orders: seq<PaperOrder>)
    requires FreshIds(orders)
    ensures var end := SimulateAll(NewLedger(initialCash), orders);
            && Sums.Over(end.positions, SlippageOf) == PaperOverpaid(initialCash, orders)
            && end.seen <= set order | order in orders :: order.fillId
  {
    hide Value, Simulated;
    if orders != [] {
      var n := |orders| - 1;
      var was := SimulateAll(NewLedger(initialCash), orders[..n]);
      PaperSlippage(initialCash, orders[..n]);
      assert orders[n].fillId !in was.seen;
      OneOverpaid(was, orders[n]);
    }
  }

  lemma OneOverpaid(ledger: Ledger, order: PaperOrder)
    requires order.fillId !in ledger.seen
    ensures var filled, next := order.Filled(ledger.cash.available), Simulated(ledger, order);
            && Sums.Over(next.positions, SlippageOf) == Sums.Over(ledger.positions, SlippageOf)
               + (if filled.None? then 0.0
                  else Outlay(filled.value) - Value(order.intent.price, Quantity(filled.value)))
            && next.seen <= ledger.seen + {order.fillId}
  {
    hide Value, FeeOn, SlippageOf, Wealth;
    var filled := order.Filled(ledger.cash.available);
    if filled.Some? {
      ProcessedWealth(Prepaid(ledger, filled.value), filled.value);
      LimitOverpaid(filled.value);
      hide Ledger.Settled, Position.Booked, Remember;
    }
  }

  lemma LimitOverpaid(fill: Fill)
    requires fill.expectedPrice.Some?
    ensures Value(fill.price - fill.expectedPrice.value, fill.SignedSize())
         == Outlay(fill) - Value(fill.expectedPrice.value, Quantity(fill))
  {
  }
}
