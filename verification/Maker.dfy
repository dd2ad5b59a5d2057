// The arbitrage strategy that posts below both asks and waits (src/strategy/maker_rebate_arb.rs).
module MakerArb {
  import opened Base
  import opened Positions
  import opened OrderBook
  import opened Strategies
  import opened OrderPolicy
  import opened MarketPairs
  import opened EdgeCalculator
  import opened NumberTheory
  import opened Quantizer
  import opened ArbSizing
  import opened GroupExecution
  import Sums

  const NAME := "MakerRebateArbStrategy"
  const PRIORITY := 90

  datatype MakerConfig = MakerConfig(
    minEdge: real,
    limits: Limits,
    cooldownMs: nat,
    ttlSecs: nat)

  // Both orders of one arb, waiting to fill.
  datatype PendingArb = PendingArb(
    conditionId: ConditionId,
    yesTokenId: TokenId,
    noTokenId: TokenId,
    size: real,
    reservedNotional: real,
    postedAt: int)
  {
    predicate Expired(config: MakerConfig, now: int) {
      Elapsed(postedAt, now) / SECOND >= config.ttlSecs
    }

    // A leg counts as filled from half of its size on.
    predicate Filled(ctx: StrategyContext, tokenId: TokenId) {
      Get(ctx.positions, tokenId).shares >= size / 2.0
    }

    predicate Unfilled(ctx: StrategyContext) {
      !Filled(ctx, yesTokenId) && !Filled(ctx, noTokenId)
    }

    // The leg that filled alone.
    function Stranded(ctx: StrategyContext): Option<TokenId> {
      if Filled(ctx, yesTokenId) && !Filled(ctx, noTokenId) then Some(yesTokenId)
      else if !Filled(ctx, yesTokenId) && Filled(ctx, noTokenId) then Some(noTokenId)
      else None
    }

    // Sells all of it at the best bid, if there is one.
    function Unwind(ctx: StrategyContext): Option<OrderIntent> {
      var token := Stranded(ctx);
      if token.None? then None
      else
        var bid := BookOf(ctx.books, token.value).BestBid();
        if bid.None? then None
        else Some(NewIntent(conditionId, token.value, Sell, bid.value, Get(ctx.positions, token.value).shares,
                            Immediate, NAME).WithPriority(255))
    }
  }

  function Reserved(p: PendingArb): real {
    p.reservedNotional
  }

  // ---- posting prices --------------------------------------------------------------------------

  // A tick below the best ask, or at the best bid if that is higher, on the tick.
  function MakerPrice(ask: real, bid: real, tick: real): real {
    RoundDownToTick(Max(ask - tick, bid), tick)
  }

  lemma FloorIsGreatest(price: real, x: real, tick: real)
    requires tick > 0.0 && OnTick(x, tick)
    ensures x <= RoundDownToTick(price, tick) <==> x <= price
  {
    RoundDownIsTight(price, tick);
    if x <= price {
      var n :| x == Ticks(tick, n);
      TickQuotient(price, tick);
      var q := InTicks(price, tick);
      CeilFloor(q);
      hide Value, InTicks;
      TickOrder(tick, n as real, q);
      assert n <= q.Floor;
      TickOrder(tick, n as real, q.Floor as real);
    }
  }

  // Where the posting price lies. It stays below the ask exactly when the bid, cut to the tick,
  // does. It is promised never to be below the bid; that holds exactly if the bid is on a tick
  // itself or a tick at or above it still lies a tick below the ask.
  lemma MakerPriceIs(ask: real, bid: real, tick: real)
    requires tick > 0.0
    ensures OnTick(MakerPrice(ask, bid, tick), tick)
    ensures MakerPrice(ask, bid, tick) == Max(RoundDownToTick(ask - tick, tick), RoundDownToTick(bid, tick))
    ensures MakerPrice(ask, bid, tick) < ask <==> RoundDownToTick(bid, tick) < ask
    ensures MakerPrice(ask, bid, tick) >= bid <==> OnTick(bid, tick) || bid <= RoundDownToTick(ask - tick, tick)
  {
    RoundingIsTight(ask - tick, tick);
    RoundingIsTight(bid, tick);
    RoundingIsTight(Max(ask - tick, bid), tick);
    hide RoundDownToTick, RoundUpToTick, OnTick;
    FloorIsGreatest(bid, RoundDownToTick(ask - tick, tick), tick);
    FloorIsGreatest(ask - tick, RoundDownToTick(bid, tick), tick);
  }

  // Documented never to post below the bid, the strategy does for a bid between two ticks.
  lemma PostsBelowTheBid()
    ensures MakerPrice(0.48, 0.475, 0.01) == 0.47 < 0.475
  {
    assert (0.475 / 0.01).Floor == 47;
  }

  // A posted order rests below its ask at an offset of less than a tick. It still does at less than
  // two if the ask lies between two ticks and the bid leaves it a whole tick, because then the
  // post lies more than a tick below the ask; and at no other offset.
  ghost predicate Rests(offsetCents: real, ask: real, bid: real, tick: real)
    requires tick > 0.0
  {
    || offsetCents / 100.0 < tick
    || (offsetCents / 100.0 < 2.0 * tick && !OnTick(ask, tick) && RoundDownToTick(bid, tick) <= ask - tick)
  }

  lemma OneOrTwoTicks(gap: real, tick: real)
    requires tick > 0.0
    ensures 0.0 < gap <= tick ==> RoundUpToTick(gap, tick) == tick
    ensures tick < gap <= 2.0 * tick ==> RoundUpToTick(gap, tick) == 2.0 * tick
  {
    var z := InTicks(gap, tick);
    TickQuotient(gap, tick);
    TickOrder(tick, 0.0, z);
    TickOrder(tick, z, 1.0);
    TickOrder(tick, 1.0, z);
    TickOrder(tick, z, 2.0);
    assert Value(tick, 0.0) == 0.0 && Value(tick, 1.0) == tick && Value(tick, 2.0) == 2.0 * tick;
    hide Value, InTicks;
  }

  lemma TickBelow(price: real, tick: real)
    ensures OnTick(price, tick) <==> OnTick(price - tick, tick)
  {
    TicksAdd(tick, 1, 0);
    assert Ticks(tick, 1) == tick;
    if n :| price == Ticks(tick, n) {
      TicksAdd(tick, n, -1);
      TicksAdd(tick, 0, 1);
      assert price - tick == Ticks(tick, n - 1);
    }
    if n :| price - tick == Ticks(tick, n) {
      TicksAdd(tick, n, 1);
      assert price == Ticks(tick, n + 1);
    }
  }

  lemma PostRests(offsetCents: real, intent: OrderIntent, ask: real, bid: real)
    requires intent.side == Buy && intent.urgency == Passive && intent.tickSize > 0.0
    requires intent.price == MakerPrice(ask, bid, intent.tickSize)
    requires RoundDownToTick(bid, intent.tickSize) < ask
    ensures DualParams(offsetCents, intent).price < ask <==> Rests(offsetCents, ask, bid, intent.tickSize)
  {
    var tick := intent.tickSize;
    MakerPriceIs(ask, bid, tick);
    RestsBelowAsk(offsetCents, intent, ask);
    RoundingIsTight(ask - tick, tick);
    RoundingIsTight(bid, tick);
    TickBelow(ask, tick);
    OneOrTwoTicks(ask - intent.price, tick);
    hide RoundDownToTick, RoundUpToTick, OnTick, MakerPrice;
  }

  // ---- the decision ------------------------------------------------------------------------------

  function Opportunity(config: MakerConfig, pair: MarketPair, ctx: StrategyContext, exposure: real): Option<Trade> {
    var yesBook := BookOf(ctx.books, pair.yesTokenId);
    var noBook := BookOf(ctx.books, pair.noTokenId);
    if !yesBook.IsTwoSided() || !noBook.IsTwoSided() then None
    else
      var yes := MakerPrice(yesBook.asks[0].price, yesBook.bids[0].price, pair.tickSize);
      var no := MakerPrice(noBook.asks[0].price, noBook.bids[0].price, pair.tickSize);
      if 1.0 - (yes + no) < config.minEdge then None
      else
        var edge := Calculate(MAKER, yesBook, noBook, pair.feeRateBps, config.limits.minPositionSize);
        if !edge.isProfitable then None
        else
          var size := Sized(config.limits, edge.maxSize, exposure, ctx.availableCash, yes, no);
          if size.None? then None else Some(Trade(yes, no, size.value))
  }

  datatype Maker = Maker(
    enabled: bool,
    lastTrade: map<ConditionId, int>,
    tradeCount: nat,
    exposure: real,
    pending: map<ConditionId, PendingArb>)
  {
    // One arb per market at a time.
    function Decided(
        config: MakerConfig, pair: Option<MarketPair>, marketId: ConditionId, ctx: StrategyContext, now: int)
        : Option<Trade>
    {
      if !enabled || pair.None? || pair.value.conditionId != marketId then None
      else if marketId in pending || OnCooldown(lastTrade, marketId, now, config.cooldownMs) then None
      else Opportunity(config, pair.value, ctx, exposure)
    }

    function Posted(pair: MarketPair, now: int, trade: Trade): Maker {
      var arb := PendingArb(pair.conditionId, pair.yesTokenId, pair.noTokenId, trade.size, trade.Notional(), now);
      Maker(enabled, lastTrade[pair.conditionId := now], tradeCount + 1, exposure + trade.Notional(),
            pending[pair.conditionId := arb])
    }

    function Filled(fill: Fill): Maker {
      if fill.side == Sell then this.(exposure := Max(exposure - fill.Notional(), 0.0)) else this
    }

    function Expired(config: MakerConfig, now: int): map<ConditionId, PendingArb> {
      map c | c in pending && pending[c].Expired(config, now) :: pending[c]
    }

    // Expired arbs give their reservation back if neither leg filled.
    function Released(config: MakerConfig, ctx: StrategyContext, now: int): map<ConditionId, PendingArb> {
      map c | c in pending && pending[c].Expired(config, now) && pending[c].Unfilled(ctx) :: pending[c]
    }

    ghost function Ticked(config: MakerConfig, ctx: StrategyContext, now: int): Maker {
      if !enabled then this
      else this.(exposure := Max(exposure - Sums.Over(Released(config, ctx, now), Reserved), 0.0),
                 pending := pending - Expired(config, now).Keys)
    }

    ghost predicate Sound() {
      && exposure >= 0.0
      && forall c :: c in pending ==> pending[c].conditionId == c && pending[c].reservedNotional >= 0.0
    }
  }

  // Every key exactly once.
  ghost predicate Enumerates(order: seq<ConditionId>, keys: set<ConditionId>) {
    && (forall c :: c in order <==> c in keys)
    && (forall i, j :: 0 <= i < j < |order| ==> order[i] != order[j])
  }

  function Unwinds(order: seq<ConditionId>, pending: map<ConditionId, PendingArb>, ctx: StrategyContext)
      : seq<OrderIntent>
    requires forall c :: c in order ==> c in pending
  {
    if order == [] then []
    else
      var c := order[|order| - 1];
      var unwind := pending[c].Unwind(ctx);
      Unwinds(order[..|order| - 1], pending, ctx) + if unwind.Some? then [unwind.value] else []
  }

  ghost predicate UnwindsAll(
    unwinds: seq<OrderIntent>, expired: set<ConditionId>, pending: map<ConditionId, PendingArb>, ctx: StrategyContext)
    requires expired <= pending.Keys
  {
    exists order :: Enumerates(order, expired) && unwinds == Unwinds(order, pending, ctx)
  }

  // The tick halfway: some arbs are still to be visited.
  ghost predicate Swept(
    config: MakerConfig, ctx: StrategyContext, now: int, before: Maker, todo: set<ConditionId>,
    exposure: real, expired: seq<ConditionId>, unwinds: seq<OrderIntent>)
  {
    && Enumerates(expired, before.Expired(config, now).Keys - todo)
    && unwinds == Unwinds(expired, before.pending, ctx)
    && exposure == Max(before.exposure - Sums.Over(before.Released(config, ctx, now) - todo, Reserved), 0.0)
  }

  lemma NothingSwept(config: MakerConfig, ctx: StrategyContext, now: int, before: Maker)
    requires before.Sound()
    ensures Swept(config, ctx, now, before, before.pending.Keys, before.exposure, [], [])
  {
    assert before.Released(config, ctx, now) - before.pending.Keys == map[];
    assert before.Expired(config, now).Keys - before.pending.Keys == {};
  }

  lemma SweepOne(
      config: MakerConfig, ctx: StrategyContext, now: int, before: Maker, todo: set<ConditionId>,
      exposure: real, expired: seq<ConditionId>, unwinds: seq<OrderIntent>, c: ConditionId)
    requires before.Sound() && c in todo && todo <= before.pending.Keys
    requires Swept(config, ctx, now, before, todo, exposure, expired, unwinds)
    ensures var p := before.pending[c];
            var unwind := p.Unwind(ctx);
            if !p.Expired(config, now) then Swept(config, ctx, now, before, todo - {c}, exposure, expired, unwinds)
            else Swept(config, ctx, now, before, todo - {c},
                       if p.Unfilled(ctx) then Max(exposure - p.reservedNotional, 0.0) else exposure,
                       expired + [p.conditionId],
                       unwinds + if unwind.Some? then [unwind.value] else [])
  {
    hide PendingArb.Unwind, PendingArb.Expired, PendingArb.Unfilled;
    var p := before.pending[c];
    var released := before.Released(config, ctx, now);
    Sums.Update(released - todo, c, p, Reserved);
    ReleaseOne(released, todo, c, p);
    if p.Expired(config, now) {
      assert (expired + [c])[..|expired|] == expired;
      assert before.Expired(config, now).Keys - (todo - {c}) == before.Expired(config, now).Keys - todo + {c};
    } else {
      assert before.Expired(config, now).Keys - (todo - {c}) == before.Expired(config, now).Keys - todo;
    }
  }

  lemma ReleaseOne(released: map<ConditionId, PendingArb>, todo: set<ConditionId>, c: ConditionId, p: PendingArb)
    requires c in todo && (c in released ==> released[c] == p)
    ensures released - (todo - {c}) == if c in released then (released - todo)[c := p] else released - todo
  {
  }

  lemma AllSwept(
      config: MakerConfig, ctx: StrategyContext, now: int, before: Maker,
      exposure: real, expired: seq<ConditionId>, unwinds: seq<OrderIntent>)
    requires before.enabled && Swept(config, ctx, now, before, {}, exposure, expired, unwinds)
    ensures before.Ticked(config, ctx, now) ==
            before.(exposure := exposure, pending := before.pending - (set c | c in expired))
    ensures UnwindsAll(unwinds, before.Expired(config, now).Keys, before.pending, ctx)
  {
    var keys := before.Expired(config, now).Keys;
    assert keys - {} == keys;
    assert (set c | c in expired) == keys;
    var released := before.Released(config, ctx, now);
    assert released - {} == released;
  }

  class MakerRebateArbStrategy {
    const config: MakerConfig
    const registry: MarketPairRegistry
    var enabled: bool
    var lastTrade: map<ConditionId, int>
    var tradeCount: nat
    var currentExposure: real
    var pendingArbs: map<ConditionId, PendingArb>

    function View(): Maker
      reads this
    {
      Maker(enabled, lastTrade, tradeCount, currentExposure, pendingArbs)
    }

    ghost predicate Valid()
      reads this
    {
      View().Sound()
    }

    constructor (config: MakerConfig, registry: MarketPairRegistry)
      ensures this.config == config && this.registry == registry
      ensures Valid() && View() == Maker(true, map[], 0, 0.0, map[])
    {
      this.config, this.registry := config, registry;
      enabled, lastTrade, tradeCount, currentExposure, pendingArbs := true, map[], 0, 0.0, map[];
    }

    method SetEnabled(enabled: bool)
      requires Valid()
      modifies this
      ensures Valid() && View() == old(View()).(enabled := enabled)
    {
      this.enabled := enabled;
    }

    method CheckArbOpportunity(pair: MarketPair, ctx: StrategyContext, now: int, group: string)
      returns (intents: seq<OrderIntent>)
      requires Valid()
      modifies this
      ensures Valid()
      ensures match Opportunity(config, pair, ctx, old(currentExposure))
              case None => intents == [] && View() == old(View())
              case Some(trade) =>
                && intents == Legs(pair, trade, Passive, NAME, group, PRIORITY)
                && View() == old(View()).Posted(pair, now, trade)
    {
      intents := [];
      var yesBook := BookOf(ctx.books, pair.yesTokenId);
      var noBook := BookOf(ctx.books, pair.noTokenId);
      if !yesBook.IsTwoSided() || !noBook.IsTwoSided() {
        return;
      }
      var yes := MakerPrice(yesBook.asks[0].price, yesBook.bids[0].price, pair.tickSize);
      var no := MakerPrice(noBook.asks[0].price, noBook.bids[0].price, pair.tickSize);
      hide MakerPrice, Calculate, Value, TradeSize, MinByExchange;
      if 1.0 - (yes + no) < config.minEdge {
        return;
      }
      var edge := Calculate(MAKER, yesBook, noBook, pair.feeRateBps, config.limits.minPositionSize);
      if !edge.isProfitable {
        return;
      }
      var size := TradeSize(config.limits, edge.maxSize, currentExposure, ctx.availableCash, yes + no);
      if size < Max(MinByExchange(Min(yes, no)), config.limits.minPositionSize) {
        return;
      }
      var trade := Trade(yes, no, size);
      var totalNotional := trade.Notional();
      if currentExposure + totalNotional > config.limits.maxTotalExposure {
        return;
      }
      SizedKeepsLimits(config.limits, edge.maxSize, currentExposure, ctx.availableCash, yes, no);
      intents := Legs(pair, trade, Passive, NAME, group, PRIORITY);
      pendingArbs := pendingArbs[pair.conditionId :=
        PendingArb(pair.conditionId, pair.yesTokenId, pair.noTokenId, size, totalNotional, now)];
      lastTrade := lastTrade[pair.conditionId := now];
      tradeCount := tradeCount + 1;
      currentExposure := currentExposure + totalNotional;
    }

    method OnBookUpdate(marketId: ConditionId, tokenId: TokenId, ctx: StrategyContext, now: int, group: string)
      returns (intents: seq<OrderIntent>)
      requires Valid()
      modifies this
      ensures Valid()
      ensures var pair := if tokenId in registry.byToken then Some(registry.byToken[tokenId]) else None;
              match old(View()).Decided(config, pair, marketId, ctx, now)
              case None => intents == [] && View() == old(View())
              case Some(trade) =>
                && intents == Legs(pair.value, trade, Passive, NAME, group, PRIORITY)
                && View() == old(View()).Posted(pair.value, now, trade)
    {
      hide Opportunity, Legs, Maker.Sound;
      intents := [];
      if !enabled {
        return;
      }
      var pair := registry.GetByToken(tokenId);
      if pair.None? || pair.value.conditionId != marketId {
        return;
      }
      if marketId in pendingArbs || OnCooldown(lastTrade, marketId, now, config.cooldownMs) {
        return;
      }
      intents := CheckArbOpportunity(pair.value, ctx, now, group);
    }

    method OnFill(fill: Fill)
      requires Valid()
      modifies this
      ensures Valid() && View() == old(View()).Filled(fill)
    {
      if fill.side == Sell {
        currentExposure := Max(currentExposure - fill.Notional(), 0.0);
      }
    }

    // Visits the pending arbs in no particular order; neither the exposure nor which arbs
    // remain depends on it, and the unwinds only in their order.
    method OnTick(ctx: StrategyContext, now: int) returns (unwinds: seq<OrderIntent>)
      requires Valid()
      modifies this
      ensures Valid() && View() == old(View()).Ticked(config, ctx, now)
      ensures if old(enabled)
              then UnwindsAll(unwinds, old(View()).Expired(config, now).Keys, old(pendingArbs), ctx)
              else unwinds == []
    {
      unwinds := [];
      if !enabled {
        return;
      }
      ghost var before := View();
      var expired: seq<ConditionId> := [];
      var todo := pendingArbs.Keys;
      NothingSwept(config, ctx, now, before);
      hide Swept, PendingArb.Unwind, PendingArb.Expired, PendingArb.Unfilled;
      while todo != {}
        invariant pendingArbs == before.pending && todo <= pendingArbs.Keys
        invariant enabled == before.enabled && lastTrade == before.lastTrade && tradeCount == before.tradeCount
        invariant Swept(config, ctx, now, before, todo, currentExposure, expired, unwinds)
      {
        var c :| c in todo;
        var p := pendingArbs[c];
        SweepOne(config, ctx, now, before, todo, currentExposure, expired, unwinds, c);
        todo := todo - {c};
        if !p.Expired(config, now) {
          continue;
        }
        var unwind := p.Unwind(ctx);
        if unwind.Some? {
          unwinds := unwinds + [unwind.value];
        }
        if p.Unfilled(ctx) {
          currentExposure := Max(currentExposure - p.reservedNotional, 0.0);
        }
        expired := expired + [p.conditionId];
      }
      AllSwept(config, ctx, now, before, currentExposure, expired, unwinds);
      RemoveAll(expired);
    }

    method RemoveAll(keys: seq<ConditionId>)
      modifies this`pendingArbs
      ensures pendingArbs == old(pendingArbs) - (set c | c in keys)
    {
      for i := 0 to |keys|
        invariant pendingArbs == old(pendingArbs) - (set c | c in keys[..i])
      {
        pendingArbs := pendingArbs - {keys[i]};
      }
      assert keys[..|keys|] == keys;
    }
  }

  // What a post changes: what a trade does, and an arb to wait for.
  lemma PostedExactly(maker: Maker, pair: MarketPair, now: int, trade: Trade)
    ensures var cost := Value(trade.yesPrice, trade.size) + Value(trade.noPrice, trade.size);
            maker.Posted(pair, now, trade) == Maker(
              maker.enabled, maker.lastTrade[pair.conditionId := now], maker.tradeCount + 1, maker.exposure + cost,
              maker.pending[pair.conditionId :=
                PendingArb(pair.conditionId, pair.yesTokenId, pair.noTokenId, trade.size, cost, now)])
  {
    ValueAdds(trade.yesPrice, trade.noPrice, trade.size);
  }

  // ---- what expires, and how ----------------------------------------------------------------------

  // An arb is past its time to live, counted in whole seconds from its posting.
  predicate Due(config: MakerConfig, p: PendingArb, now: int) {
    config.ttlSecs == 0 || now - p.postedAt >= config.ttlSecs * 1_000_000_000
  }

  function Holding(ctx: StrategyContext, tokenId: TokenId): real {
    if tokenId in ctx.positions then ctx.positions[tokenId].shares else 0.0
  }

  predicate HalfFilled(ctx: StrategyContext, p: PendingArb, tokenId: TokenId) {
    Holding(ctx, tokenId) * 2.0 >= p.size
  }

  // What a tick does with each arb. Due ones go and no others. Of those, an arb with neither leg
  // half filled gives back what it reserved, and one with a single leg half filled is unwound: all
  // its shares, at once, at the best bid there is, before anything else.
  lemma TickExactly(maker: Maker, config: MakerConfig, ctx: StrategyContext, now: int)
    requires maker.enabled
    ensures var next := maker.Ticked(config, ctx, now);
            && next.pending == (map c | c in maker.pending && !Due(config, maker.pending[c], now) :: maker.pending[c])
            && next.exposure == Max(maker.exposure - Sums.Over(
                 map c | c in maker.pending && Due(config, maker.pending[c], now)
                         && !HalfFilled(ctx, maker.pending[c], maker.pending[c].yesTokenId)
                         && !HalfFilled(ctx, maker.pending[c], maker.pending[c].noTokenId) :: maker.pending[c],
                 Reserved), 0.0)
            && next.lastTrade == maker.lastTrade && next.tradeCount == maker.tradeCount && next.enabled
    ensures maker.Expired(config, now).Keys == set c | c in maker.pending && Due(config, maker.pending[c], now)
  {
    forall c | c in maker.pending
      ensures maker.pending[c].Expired(config, now) <==> Due(config, maker.pending[c], now)
      ensures maker.pending[c].Unfilled(ctx) <==>
              !HalfFilled(ctx, maker.pending[c], maker.pending[c].yesTokenId)
              && !HalfFilled(ctx, maker.pending[c], maker.pending[c].noTokenId)
    {
      DueExactly(config, maker.pending[c], now);
    }
    hide PendingArb.Expired, PendingArb.Unfilled, Due, HalfFilled;
    var released := map c | c in maker.pending && Due(config, maker.pending[c], now)
                            && !HalfFilled(ctx, maker.pending[c], maker.pending[c].yesTokenId)
                            && !HalfFilled(ctx, maker.pending[c], maker.pending[c].noTokenId) :: maker.pending[c];
    assert maker.Released(config, ctx, now) == released;
  }

  lemma DueExactly(config: MakerConfig, p: PendingArb, now: int)
    ensures p.Expired(config, now) <==> Due(config, p, now)
  {
  }

  lemma UnwindExactly(p: PendingArb, ctx: StrategyContext)
    ensures var yes, no := HalfFilled(ctx, p, p.yesTokenId), HalfFilled(ctx, p, p.noTokenId);
            var alone := if yes then p.yesTokenId else p.noTokenId;
            if yes != no && alone in ctx.books && ctx.books[alone].bids != [] then
              p.Unwind(ctx) == Some(OrderIntent(
                p.conditionId, alone, Sell, ctx.books[alone].bids[0].price, Holding(ctx, alone), Immediate, NAME,
                None, 255, 0.0))
            else p.Unwind(ctx) == None
  {
  }

  // So an arb lives exactly until its time: posted now, it is there at every tick before, and
  // gone after the first one from then on.
  lemma PostedUntilDue(
      maker: Maker, config: MakerConfig, pair: MarketPair, trade: Trade, posted: int, ctx: StrategyContext, now: int)
    requires maker.enabled
    ensures var next := maker.Posted(pair, posted, trade).Ticked(config, ctx, now);
            pair.conditionId in next.pending <==> config.ttlSecs > 0 && now < posted + config.ttlSecs * 1_000_000_000
  {
    TickExactly(maker.Posted(pair, posted, trade), config, ctx, now);
  }

  // What an unwind leaves when it is filled completely as it is submitted, in lots. The leg that
  // filled alone ends within a lot of nothing, and is flat exactly if the bid is free or the
  // holding was a whole number of lots worth a dollar.
  lemma UnwindFlattens(offsetCents: real, p: PendingArb, ctx: StrategyContext, fill: Fill)
    requires p.size > 0.0
    ensures p.Unwind(ctx).Some? ==>
            var unwind := p.Unwind(ctx).value;
            var held := Get(ctx.positions, unwind.tokenId).shares;
            && p.Stranded(ctx) == Some(unwind.tokenId) && held >= p.size / 2.0
            && (fill.tokenId == unwind.tokenId && fill.side == Sell
                && fill.size == Submitted(offsetCents, unwind).size ==>
                  var left := Get(Apply(ctx.positions, fill), unwind.tokenId);
                  && left.shares == held - Quantized(unwind.price, held)
                  && -Lot(unwind.price) <= left.shares < Lot(unwind.price)
                  && (left.IsFlat() <==>
                        || unwind.price == 0.0
                        || (Value(unwind.price, held) >= MIN_NOTIONAL && exists n :: held == Lots(n, Lot(unwind.price)))))
  {
    hide Quantized, Lot, Lots, Value, Average;
    if p.Unwind(ctx).Some? {
      var unwind := p.Unwind(ctx).value;
      QuantizedKeeps(unwind.price, unwind.size);
      QuantizedWithinLot(unwind.price, unwind.size);
    }
  }

  // At a bid of 51 cents only whole shares are sold: of 5.55 shares 0.55 stay, and for a single
  // share, worth less than a dollar, two are offered.
  lemma UnwindsMiss(offsetCents: real, held: real, fill: Fill)
    requires held == 5.55 || held == 1.0
    ensures var p := PendingArb("market", "yes", "no", 2.0, 1.0, 0);
            var book := BookSnapshot([PriceLevel(0.51, 1000.0)], []);
            var ctx := StrategyContext(map["yes" := book], map["yes" := NO_POSITION.(shares := held)], 100.0);
            var unwind := p.Unwind(ctx);
            && unwind.Some? && unwind.value.tokenId == "yes"
            && Submitted(offsetCents, unwind.value).size == (if held == 1.0 then 2.0 else 5.0)
            && (fill.tokenId == "yes" && fill.side == Sell && fill.size == Submitted(offsetCents, unwind.value).size ==>
                  Get(Apply(ctx.positions, fill), "yes").shares == if held == 1.0 then -1.0 else 0.55)
  {
    QuantizedAt51();
    hide Quantized, Average, Value;
  }

  lemma QuantizedAt51()
    ensures Quantized(0.51, 5.55) == 5.0
    ensures Quantized(0.51, 1.0) == 2.0
  {
    PriceCentsOf(51);
    assert Gcd(51, 100) == Gcd(100, 51) == Gcd(51, 49) == Gcd(49, 2) == Gcd(2, 1) == Gcd(1, 0) == 1;
    assert Lot(0.51) == 1.0;
    assert (5.55 / 1.0).Floor == 5;
  }

  // ---- one trade, end to end ---------------------------------------------------------------------

  // What an opportunity has passed.
  lemma OpportunityIs(config: MakerConfig, pair: MarketPair, ctx: StrategyContext, exposure: real)
    ensures var opportunity := Opportunity(config, pair, ctx, exposure);
            opportunity.Some? ==>
            var trade := opportunity.value;
            var yes, no := BookOf(ctx.books, pair.yesTokenId), BookOf(ctx.books, pair.noTokenId);
            && yes.IsTwoSided() && no.IsTwoSided()
            && trade.yesPrice == MakerPrice(yes.asks[0].price, yes.bids[0].price, pair.tickSize)
            && trade.noPrice == MakerPrice(no.asks[0].price, no.bids[0].price, pair.tickSize)
            && trade.yesPrice + trade.noPrice <= 1.0 - config.minEdge
            && Sized(config.limits, MinDepth(yes, no), exposure, ctx.availableCash, trade.yesPrice, trade.noPrice)
               == Some(trade.size)
  {
    hide Sized, MakerPrice, Fees, EdgeCalculator.Slippage, PartialFillMargin, SpreadPenalty, MinDepth;
  }

  // Exactly which trade a pair offers: both books two-sided and worth it to a maker, the posting
  // prices leaving the minimum edge, and a size.
  lemma OpportunityExactly(
      config: MakerConfig, pair: MarketPair, ctx: StrategyContext, exposure: real, trade: Trade)
    ensures Opportunity(config, pair, ctx, exposure) == Some(trade) <==>
            var yes, no := BookOf(ctx.books, pair.yesTokenId), BookOf(ctx.books, pair.noTokenId);
            && yes.asks != [] && yes.bids != [] && no.asks != [] && no.bids != []
            && WorthIt(true, yes, no, pair.feeRateBps, config.limits.minPositionSize)
            && trade.yesPrice == MakerPrice(yes.asks[0].price, yes.bids[0].price, pair.tickSize)
            && trade.noPrice == MakerPrice(no.asks[0].price, no.bids[0].price, pair.tickSize)
            && 1.0 - (trade.yesPrice + trade.noPrice) >= config.minEdge
            && Sized(config.limits, Min(yes.asks[0].size, no.asks[0].size), exposure, ctx.availableCash,
                     trade.yesPrice, trade.noPrice) == Some(trade.size)
  {
    var yes, no := BookOf(ctx.books, pair.yesTokenId), BookOf(ctx.books, pair.noTokenId);
    if yes.IsTwoSided() && no.IsTwoSided() {
      ProfitableExactly(true, yes, no, pair.feeRateBps, config.limits.minPositionSize);
      hide Sized, MakerPrice, Calculate, WorthIt;
    }
  }

  // Exactly which book updates lead to a post.
  lemma DecidedExactly(
      maker: Maker, config: MakerConfig, pair: Option<MarketPair>, marketId: ConditionId, ctx: StrategyContext,
      now: int, trade: Trade)
    ensures maker.Decided(config, pair, marketId, ctx, now) == Some(trade) <==>
            && maker.enabled && pair.Some? && pair.value.conditionId == marketId
            && marketId !in maker.pending
            && (marketId in maker.lastTrade && config.cooldownMs > 0 ==>
                  now - maker.lastTrade[marketId] >= config.cooldownMs * 1_000_000)
            && Opportunity(config, pair.value, ctx, maker.exposure) == Some(trade)
  {
    hide Opportunity;
  }

  // From the books to the orders, in a market on the cent tick, if both posts are positive. The
  // posts lie below their asks and leave the minimum edge, and the resting orders carry exactly
  // those prices if the policy's offset is between zero and a cent, and at no other offset. Each
  // order rests below its ask exactly at the offsets that leave it room. The orders are well
  // formed at every offset from zero up, and cost no more than the bet and the cash below a cent,
  // unless it is up to ten cents below zero.
  lemma MakerSubmission(
      offsetCents: real, config: MakerConfig, pair: MarketPair, ctx: StrategyContext, exposure: real, group: string)
    requires pair.tickSize == 0.01
    ensures var opportunity := Opportunity(config, pair, ctx, exposure);
            opportunity.Some? && opportunity.value.yesPrice > 0.0 && opportunity.value.noPrice > 0.0 ==>
            var trade := opportunity.value;
            var legs := Legs(pair, trade, Passive, NAME, group, PRIORITY);
            var yes, no := Submitted(offsetCents, legs[0]), Submitted(offsetCents, legs[1]);
            var yesBook, noBook := BookOf(ctx.books, pair.yesTokenId), BookOf(ctx.books, pair.noTokenId);
            var yesAsk, yesBid := yesBook.asks[0].price, yesBook.bids[0].price;
            var noAsk, noBid := noBook.asks[0].price, noBook.bids[0].price;
            && yes.orderType == GTC && no.orderType == GTC
            && (yesBid < yesAsk ==> trade.yesPrice < yesAsk) && (noBid < noAsk ==> trade.noPrice < noAsk)
            && trade.yesPrice + trade.noPrice <= 1.0 - config.minEdge
            && (yes.price == trade.yesPrice && no.price == trade.noPrice <==> 0.0 <= offsetCents < 1.0)
            && (RoundDownToTick(yesBid, 0.01) < yesAsk ==>
                  (yes.price < yesAsk <==> Rests(offsetCents, yesAsk, yesBid, 0.01)))
            && (RoundDownToTick(noBid, 0.01) < noAsk ==>
                  (no.price < noAsk <==> Rests(offsetCents, noAsk, noBid, 0.01)))
            && (offsetCents >= 0.0 ==> WellSubmitted(trade, yes, no))
            && (0.0 <= offsetCents < 1.0 || (offsetCents < -10.0 && config.minEdge > 0.0) ==>
                  TotalCost(yes, no) <= Min(ctx.availableCash, config.limits.maxBetUsd))
  {
    OpportunityIs(config, pair, ctx, exposure);
    var opportunity := Opportunity(config, pair, ctx, exposure);
    if opportunity.Some? && opportunity.value.yesPrice > 0.0 && opportunity.value.noPrice > 0.0 {
      var trade := opportunity.value;
      var yes, no := BookOf(ctx.books, pair.yesTokenId), BookOf(ctx.books, pair.noTokenId);
      var legs := Legs(pair, trade, Passive, NAME, group, PRIORITY);
      PostSubmitted(offsetCents, legs[0], yes.asks[0].price, yes.bids[0].price);
      PostSubmitted(offsetCents, legs[1], no.asks[0].price, no.bids[0].price);
      hide Opportunity, Sized, MakerPrice, RoundUpToTick, RoundDownToTick, OnTick, Value, Submitted, Rests;
      hide WellSubmitted, TotalCost, Shift, WholeCents;
      TradeSubmitted(offsetCents, config.limits, MinDepth(yes, no), exposure, ctx.availableCash, pair, trade,
                     Passive, NAME, group, PRIORITY);
    }
  }

  lemma PostSubmitted(offsetCents: real, intent: OrderIntent, ask: real, bid: real)
    requires intent.side == Buy && intent.urgency == Passive && intent.tickSize == 0.01
    requires intent.price == MakerPrice(ask, bid, 0.01)
    ensures OnTick(intent.price, 0.01)
    ensures bid < ask ==> intent.price < ask
    ensures Submitted(offsetCents, intent).orderType == GTC
    ensures RoundDownToTick(bid, 0.01) < ask ==>
              (Submitted(offsetCents, intent).price < ask <==> Rests(offsetCents, ask, bid, 0.01))
  {
    MakerPriceIs(ask, bid, 0.01);
    RoundDownIsTight(bid, 0.01);
    RestsOnTheBook(offsetCents, intent);
    hide MakerPrice, RoundUpToTick, RoundDownToTick, OnTick, Rests, Quantized;
    if RoundDownToTick(bid, 0.01) < ask {
      PostRests(offsetCents, intent, ask, bid);
    }
  }

  lemma RestsOnTheBook(offsetCents: real, intent: OrderIntent)
    ensures Submitted(offsetCents, intent).orderType == GTC <==> intent.urgency == Passive
  {
  }

  // The books and limits below, with ten dollars a bet.
  const EXAMPLE_BOOK := BookSnapshot([PriceLevel(0.44, 1000.0)], [PriceLevel(0.45, 1000.0)])
  const EXAMPLE_CONFIG := MakerConfig(0.005, Limits(500.0, 1.0, 10.0, 2000.0), 5000, 120)

  // Both legs bid 44 and ask 45: the strategy posts 11.36 shares of each at 44. With an offset
  // of a whole cent the posts meet the asks and the orders overdraw the bet.
  lemma PostsAndOverdraws(pair: MarketPair, group: string)
    requires pair.yesTokenId != pair.noTokenId && pair.tickSize == 0.01
    ensures var ctx := StrategyContext(map[pair.yesTokenId := EXAMPLE_BOOK, pair.noTokenId := EXAMPLE_BOOK], map[], 100.0);
            var opportunity := Opportunity(EXAMPLE_CONFIG, pair, ctx, 0.0);
            && opportunity == Some(Trade(0.44, 0.44, 11.36))
            && var legs := Legs(pair, opportunity.value, Passive, NAME, group, PRIORITY);
            && var yes, no := Submitted(1.0, legs[0]), Submitted(1.0, legs[1]);
            && yes.price == 0.45 && no.price == 0.45
            && TotalCost(yes, no) > EXAMPLE_CONFIG.limits.maxBetUsd
  {
    assert ((0.45 - 0.01) / 0.01).Floor == 44;
    assert MakerPrice(0.45, 0.44, 0.01) == 0.44;
    assert (10.0 / 0.88 * 100.0).Floor == 1136;
    assert Ceil(1.0 / 0.44) == 3;
    assert ((0.44 + 1.0 / 100.0) / 0.01).Floor == 45;
    QuantizedAt45();
  }

  lemma QuantizedAt45()
    ensures Quantized(0.45, 11.36) == 11.2
  {
    PriceCentsOf(45);
  }

  // ---- exactly which offsets the strategy is right for --------------------------------------------

  // The strategy posts in a market on the cent tick, at positive prices and for an edge.
  predicate Posts(config: MakerConfig, pair: MarketPair, ctx: StrategyContext, exposure: real) {
    var opportunity := Opportunity(config, pair, ctx, exposure);
    && pair.tickSize == 0.01 && config.minEdge > 0.0
    && opportunity.Some? && opportunity.value.yesPrice > 0.0 && opportunity.value.noPrice > 0.0
  }

  function TradeOf(config: MakerConfig, pair: MarketPair, ctx: StrategyContext, exposure: real): Trade
    requires Posts(config, pair, ctx, exposure)
  {
    Opportunity(config, pair, ctx, exposure).value
  }

  function OrdersOf(
    offsetCents: real, config: MakerConfig, pair: MarketPair, ctx: StrategyContext, exposure: real, group: string)
    : (OrderParams, OrderParams)
    requires Posts(config, pair, ctx, exposure)
  {
    var legs := Legs(pair, TradeOf(config, pair, ctx, exposure), Passive, NAME, group, PRIORITY);
    (Submitted(offsetCents, legs[0]), Submitted(offsetCents, legs[1]))
  }

  ghost predicate AlwaysWellFormed(offsetCents: real) {
    forall config, pair, ctx, exposure, group :: Posts(config, pair, ctx, exposure) ==>
      var (yes, no) := OrdersOf(offsetCents, config, pair, ctx, exposure, group);
      WellSubmitted(TradeOf(config, pair, ctx, exposure), yes, no)
  }

  ghost predicate AlwaysAffordable(offsetCents: real) {
    forall config: MakerConfig, pair, ctx: StrategyContext, exposure, group :: Posts(config, pair, ctx, exposure) ==>
      var (yes, no) := OrdersOf(offsetCents, config, pair, ctx, exposure, group);
      TotalCost(yes, no) <= Min(ctx.availableCash, config.limits.maxBetUsd)
  }

  // Two deep books with bids of c cents and asks a cent above.
  function PennyBook(c: int): BookSnapshot {
    BookSnapshot([PriceLevel(Cents(c), 1000.0)], [PriceLevel(Cents(c + 1), 1000.0)])
  }

  function PennyContext(c: int, pair: MarketPair): StrategyContext {
    StrategyContext(map[pair.yesTokenId := PennyBook(c), pair.noTokenId := PennyBook(c)], map[], 1000.0)
  }

  function ExactConfig(c: int, n: int): MakerConfig {
    MakerConfig(0.005, ExactBet(c, n), 5000, 120)
  }

  const SOME_PAIR := MarketPair("market", "yes", "no", 0, 0.01)

  lemma PennyPost(c: int)
    ensures MakerPrice(Cents(c + 1), Cents(c), 0.01) == Cents(c)
  {
    TickIsCent(c);
    RoundingKeepsTicks(c, 0.01);
    assert Cents(c + 1) - 0.01 == Cents(c);
  }

  lemma PennyProfit(c: int)
    requires 34 <= c <= 44
    ensures Calculate(MAKER, PennyBook(c), PennyBook(c), 0, 1.0).isProfitable
    ensures Calculate(MAKER, PennyBook(c), PennyBook(c), 0, 1.0).maxSize == 1000.0
  {
    assert Cents(c + 1) <= 0.45 && Cents(c + 1) - Cents(c) == 0.01;
  }

  lemma PennyTrade(c: int, n: int)
    requires 34 <= c <= 44 && 1 <= n <= 1000 && Times(c, n) >= 100
    ensures Posts(ExactConfig(c, n), SOME_PAIR, PennyContext(c, SOME_PAIR), 0.0)
    ensures TradeOf(ExactConfig(c, n), SOME_PAIR, PennyContext(c, SOME_PAIR), 0.0)
            == Trade(Cents(c), Cents(c), n as real)
  {
    PennyPost(c);
    PennyProfit(c);
    EqualLegsSized(c, n);
    assert 0.34 <= Cents(c) <= 0.44;
    hide MakerPrice, Calculate, Sized, Cents, Value;
  }

  // What holds of every trade the sizing allows holds of the strategy's, and every offset that
  // breaks a promise for some trade breaks it for one the strategy posts.
  lemma MakerOffsetsExactly(offsetCents: real)
    ensures AlwaysWellFormed(offsetCents) <==> offsetCents >= 0.0
    ensures AlwaysAffordable(offsetCents) <==> offsetCents < -10.0 || 0.0 <= offsetCents < 1.0
  {
    MakerWellFormed(offsetCents);
    MakerAffordable(offsetCents);
  }

  lemma MakerWellFormed(offsetCents: real)
    ensures AlwaysWellFormed(offsetCents) <==> offsetCents >= 0.0
  {
    hide Submitted, WellSubmitted, Posts, Opportunity;
    if offsetCents >= 0.0 {
      forall config, pair, ctx, exposure, group | Posts(config, pair, ctx, exposure)
        ensures var (yes, no) := OrdersOf(offsetCents, config, pair, ctx, exposure, group);
                WellSubmitted(TradeOf(config, pair, ctx, exposure), yes, no)
      {
        PostedOrders(offsetCents, config, pair, ctx, exposure, group);
      }
    } else {
      PennyTrade(34, 3);
      LoweringMissesTheMinimum(offsetCents, SOME_PAIR, NAME, "", PRIORITY);
      var (yes, no) := OrdersOf(offsetCents, ExactConfig(34, 3), SOME_PAIR, PennyContext(34, SOME_PAIR), 0.0, "");
      assert !WellSubmitted(Trade(Cents(34), Cents(34), 3.0), yes, no);
    }
  }

  lemma MakerAffordable(offsetCents: real)
    ensures AlwaysAffordable(offsetCents) <==> StaysWithin(offsetCents, Passive)
  {
    hide Submitted, TotalCost, Posts, Opportunity;
    if StaysWithin(offsetCents, Passive) {
      forall config: MakerConfig, pair, ctx: StrategyContext, exposure, group | Posts(config, pair, ctx, exposure)
        ensures var (yes, no) := OrdersOf(offsetCents, config, pair, ctx, exposure, group);
                TotalCost(yes, no) <= Min(ctx.availableCash, config.limits.maxBetUsd)
      {
        PostedOrders(offsetCents, config, pair, ctx, exposure, group);
      }
    } else if offsetCents >= 1.0 {
      PennyTrade(44, 100);
      RaisingOverdraws(offsetCents, SOME_PAIR, NAME, "", PRIORITY);
      var (yes, no) := OrdersOf(offsetCents, ExactConfig(44, 100), SOME_PAIR, PennyContext(44, SOME_PAIR), 0.0, "");
      assert TotalCost(yes, no) > Min(1000.0, 88.0);
    } else if offsetCents >= -10.0 {
      LoweredPennyOverdraws(offsetCents);
    }
  }

  lemma LoweredPennyOverdraws(offsetCents: real)
    requires -10.0 <= offsetCents < 0.0
    ensures !AlwaysAffordable(offsetCents)
  {
    hide Submitted, TotalCost, Posts, Opportunity, Cents, Value;
    var c := 33 - offsetCents.Floor;
    LoweringCanCostMore(offsetCents, SOME_PAIR, NAME, "", PRIORITY);
    PennyTrade(c, 3);
    var (yes, no) := OrdersOf(offsetCents, ExactConfig(c, 3), SOME_PAIR, PennyContext(c, SOME_PAIR), 0.0, "");
    assert TotalCost(yes, no) > ExactConfig(c, 3).limits.maxBetUsd;
  }

  lemma PostedOrders(
      offsetCents: real, config: MakerConfig, pair: MarketPair, ctx: StrategyContext, exposure: real, group: string)
    requires Posts(config, pair, ctx, exposure)
    ensures var (yes, no) := OrdersOf(offsetCents, config, pair, ctx, exposure, group);
            && (offsetCents >= 0.0 ==> WellSubmitted(TradeOf(config, pair, ctx, exposure), yes, no))
            && (StaysWithin(offsetCents, Passive) ==>
                  TotalCost(yes, no) <= Min(ctx.availableCash, config.limits.maxBetUsd))
  {
    MakerSubmission(offsetCents, config, pair, ctx, exposure, group);
    hide Opportunity, Submitted, WellSubmitted, TotalCost, Rests, RoundDownToTick;
  }

  // ---- runs ------------------------------------------------------------------------------------------

  datatype Event =
    | BookUpdate(pair: Option<MarketPair>, marketId: ConditionId, ctx: StrategyContext, now: int)
    | Fills(fill: Fill)
    | Tick(ctx: StrategyContext, now: int)
    | Switch(on: bool)

  // The strategy, what expired with a filled leg, and the notional seen sold.
  datatype Run = Run(maker: Maker, retained: real, sold: real)

  ghost function Total(pending: map<ConditionId, PendingArb>): real {
    Sums.Over(pending, Reserved)
  }

  ghost function Stepped(config: MakerConfig, run: Run, event: Event): Run {
    match event
    case BookUpdate(pair, marketId, ctx, now) =>
      var trade := run.maker.Decided(config, pair, marketId, ctx, now);
      if trade.None? then run else run.(maker := run.maker.Posted(pair.value, now, trade.value))
    case Fills(fill) =>
      run.(maker := run.maker.Filled(fill),
           sold := if fill.side == Sell then run.sold + fill.Notional() else run.sold)
    case Tick(ctx, now) =>
      var kept := Total(run.maker.Expired(config, now)) - Total(run.maker.Released(config, ctx, now));
      run.(maker := run.maker.Ticked(config, ctx, now),
           retained := if run.maker.enabled then run.retained + kept else run.retained)
    case Switch(on) => run.(maker := run.maker.(enabled := on))
  }

  ghost function RunAll(config: MakerConfig, events: seq<Event>): Run {
    if events == [] then Run(Maker(true, map[], 0, 0.0, map[]), 0.0, 0.0)
    else Stepped(config, RunAll(config, events[..|events| - 1]), events[|events| - 1])
  }

  predicate SaneFill(event: Event) {
    event.Fills? && event.fill.side == Sell ==> event.fill.Notional() >= 0.0
  }

  ghost predicate WithinBudget(limits: Limits, run: Run) {
    && run.maker.Sound()
    && run.maker.exposure <= limits.maxTotalExposure
    && run.retained >= 0.0
    && run.sold >= 0.0
    && Total(run.maker.pending) + run.retained - run.sold <= run.maker.exposure
    && (run.sold == 0.0 ==> Total(run.maker.pending) + run.retained == run.maker.exposure)
  }

  lemma PostKeepsBudget(
      config: MakerConfig, run: Run, pair: Option<MarketPair>, marketId: ConditionId, ctx: StrategyContext, now: int)
    requires WithinBudget(config.limits, run)
    ensures WithinBudget(config.limits, Stepped(config, run, BookUpdate(pair, marketId, ctx, now)))
  {
    var decided := run.maker.Decided(config, pair, marketId, ctx, now);
    if decided.Some? {
      var trade, p := decided.value, pair.value;
      OpportunityIs(config, p, ctx, run.maker.exposure);
      var depth := MinDepth(BookOf(ctx.books, p.yesTokenId), BookOf(ctx.books, p.noTokenId));
      SizedKeepsLimits(config.limits, depth, run.maker.exposure, ctx.availableCash, trade.yesPrice, trade.noPrice);
      hide Opportunity, Value, Sized, MakerPrice;
      var arb := PendingArb(p.conditionId, p.yesTokenId, p.noTokenId, trade.size, trade.Notional(), now);
      Sums.Update(run.maker.pending, marketId, arb, Reserved);
    }
  }

  // Released arbs are among the expired ones, which leave the pending ones.
  lemma TickTotals(config: MakerConfig, maker: Maker, ctx: StrategyContext, now: int)
    requires maker.Sound()
    ensures var expired := maker.Expired(config, now);
            && Total(maker.pending) == Total(maker.pending - expired.Keys) + Total(expired)
            && 0.0 <= Total(maker.Released(config, ctx, now)) <= Total(expired)
            && Total(maker.pending - expired.Keys) >= 0.0
  {
    hide PendingArb.Expired, PendingArb.Unfilled;
    var expired, released := maker.Expired(config, now), maker.Released(config, ctx, now);
    Sums.Split(maker.pending, expired.Keys, Reserved);
    assert maker.pending - (maker.pending.Keys - expired.Keys) == expired;
    Sums.Split(expired, released.Keys, Reserved);
    assert expired - (expired.Keys - released.Keys) == released;
    Sums.NonNegative(released, Reserved);
    Sums.NonNegative(expired - released.Keys, Reserved);
    Sums.NonNegative(maker.pending - expired.Keys, Reserved);
  }

  // The exposure budget of resting arbs. Over any run the exposure stays within its limit and
  // covers all pending reservations and those of expired arbs with a filled leg, less what was
  // sold. Without sales it is exactly their sum, so no reservation is lost or given back twice.
  lemma {:induction false} BudgetIsKept(config: MakerConfig, events: seq<Event>)
    requires config.limits.maxTotalExposure >= 0.0
    requires forall e :: e in events ==> SaneFill(e)
    ensures WithinBudget(config.limits, RunAll(config, events))
  {
    if events != [] {
      var n := |events| - 1;
      BudgetIsKept(config, events[..n]);
      assert SaneFill(events[n]);
      var run := RunAll(config, events[..n]);
      hide Opportunity;
      match events[n]
      case BookUpdate(pair, marketId, ctx, now) => PostKeepsBudget(config, run, pair, marketId, ctx, now);
      case Fills(fill) =>
      case Tick(ctx, now) => TickTotals(config, run.maker, ctx, now);
      case Switch(on) =>
    }
  }

  // Reserved, pending or retained, less sold, and the most that sales ever ran ahead of it.
  ghost function Net(run: Run): real {
    Total(run.maker.pending) + run.retained - run.sold
  }

  ghost function Ahead(config: MakerConfig, events: seq<Event>): real {
    if events == [] then 0.0
    else Max(Ahead(config, events[..|events| - 1]), -Net(RunAll(config, events)))
  }

  // The exposure exactly: every reservation that was not given back, less what was sold, except
  // that sales beyond that free nothing.
  lemma {:induction false} ExposureIs(config: MakerConfig, events: seq<Event>)
    requires config.limits.maxTotalExposure >= 0.0
    requires forall e :: e in events ==> SaneFill(e)
    ensures RunAll(config, events).maker.exposure == Net(RunAll(config, events)) + Ahead(config, events)
    ensures Ahead(config, events) >= 0.0
  {
    hide Stepped, WithinBudget, Net;
    if events != [] {
      var n := |events| - 1;
      ExposureIs(config, events[..n]);
      BudgetIsKept(config, events[..n]);
      assert SaneFill(events[n]);
      StepMoves(config, RunAll(config, events[..n]), events[n], Ahead(config, events[..n]));
    } else {
      NothingMoved();
    }
  }

  lemma NothingMoved()
    ensures Net(Run(Maker(true, map[], 0, 0.0, map[]), 0.0, 0.0)) == 0.0
  {
  }

  lemma StepMoves(config: MakerConfig, run: Run, event: Event, ahead: real)
    requires WithinBudget(config.limits, run) && SaneFill(event)
    requires run.maker.exposure == Net(run) + ahead && ahead >= 0.0
    ensures var next := Stepped(config, run, event); next.maker.exposure == Net(next) + Max(ahead, -Net(next))
  {
    SoundWithin(config.limits, run);
    hide Opportunity, WithinBudget;
    match event
    case BookUpdate(pair, marketId, ctx, now) => PostMoves(config, run, pair, marketId, ctx, now);
    case Fills(fill) =>
    case Tick(ctx, now) => TickTotals(config, run.maker, ctx, now);
    case Switch(on) =>
  }

  lemma SoundWithin(limits: Limits, run: Run)
    requires WithinBudget(limits, run)
    ensures run.maker.Sound() && run.maker.exposure >= 0.0
  {
  }

  lemma PostMoves(
      config: MakerConfig, run: Run, pair: Option<MarketPair>, marketId: ConditionId, ctx: StrategyContext, now: int)
    ensures var next := Stepped(config, run, BookUpdate(pair, marketId, ctx, now));
            next.maker.exposure - Net(next) == run.maker.exposure - Net(run) && Net(next) >= Net(run)
  {
    var decided := run.maker.Decided(config, pair, marketId, ctx, now);
    if decided.Some? {
      var trade, p := decided.value, pair.value;
      OpportunityIs(config, p, ctx, run.maker.exposure);
      var depth := MinDepth(BookOf(ctx.books, p.yesTokenId), BookOf(ctx.books, p.noTokenId));
      SizedKeepsLimits(config.limits, depth, run.maker.exposure, ctx.availableCash, trade.yesPrice, trade.noPrice);
      hide Opportunity, Value, Sized, MakerPrice;
      var arb := PendingArb(p.conditionId, p.yesTokenId, p.noTokenId, trade.size, trade.Notional(), now);
      Sums.Update(run.maker.pending, marketId, arb, Reserved);
    }
  }
}
