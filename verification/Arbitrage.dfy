// The edge an arbitrage must have (src/strategy/edge_calculator.rs).
module EdgeCalculator {
  import opened Base
  import opened OrderBook

  datatype EdgeConfig = EdgeConfig(
    minEdge: real,
    thinBookMargin: real,
    minDepthThreshold: real,
    slippageFactor: real,
    isMaker: bool)

  const TAKER := EdgeConfig(0.03, 0.01, 100.0, 0.5, false)
  const MAKER := TAKER.(minEdge := 0.01, isMaker := true)

  datatype EdgeComponents = EdgeComponents(
    fees: real,
    slippage: real,
    partialFillRisk: real,
    spreadPenalty: real)

  datatype EdgeCalculation = EdgeCalculation(
    requiredEdge: real,
    actualEdge: real,
    isProfitable: bool,
    maxSize: real,
    components: EdgeComponents)

  function OrElse(x: Option<real>, default: real): real {
    if x.Some? then x.value else default
  }

  function FeeRate(bps: nat): real {
    bps as real / 10000.0
  }

  function Fees(config: EdgeConfig, bps: nat, combined: real): real {
    if config.isMaker then 0.0 else Value(FeeRate(bps), combined)
  }

  // Shares at the best ask.
  function TopDepth(book: BookSnapshot): real {
    if book.asks == [] then 0.0 else book.asks[0].size
  }

  function MinDepth(yes: BookSnapshot, no: BookSnapshot): real {
    Min(TopDepth(yes), TopDepth(no))
  }

  function AverageSpread(yes: BookSnapshot, no: BookSnapshot, default: real): real {
    (OrElse(yes.Spread(), default) + OrElse(no.Spread(), default)) / 2.0
  }

  function Slippage(config: EdgeConfig, yes: BookSnapshot, no: BookSnapshot, size: real): real {
    var depth := MinDepth(yes, no);
    if depth == 0.0 then 0.10
    else if size > depth then
      Min(Value(Value((size - depth) / depth, AverageSpread(yes, no, 0.05)), config.slippageFactor), 0.10)
    else 0.0
  }

  function PartialFillMargin(config: EdgeConfig, yes: BookSnapshot, no: BookSnapshot): real {
    var depth := MinDepth(yes, no);
    if depth < config.minDepthThreshold then config.thinBookMargin
    else if depth < config.minDepthThreshold * 2.0 then config.thinBookMargin / 2.0
    else 0.0
  }

  // Half of what the average spread exceeds five cents by.
  function SpreadPenalty(yes: BookSnapshot, no: BookSnapshot): real {
    var spread := AverageSpread(yes, no, 0.10);
    if spread > 0.05 then (spread - 0.05) * 0.5 else 0.0
  }

  // What a share of both outcomes costs at the best asks.
  function Combined(yes: BookSnapshot, no: BookSnapshot): real {
    OrElse(yes.BestAsk(), 1.0) + OrElse(no.BestAsk(), 1.0)
  }

  function Calculate(
      config: EdgeConfig, yes: BookSnapshot, no: BookSnapshot, bps: nat, intended: real): EdgeCalculation
  {
    var actual := 1.0 - Combined(yes, no);
    var parts := EdgeComponents(
      Fees(config, bps, Combined(yes, no)), Slippage(config, yes, no, intended),
      PartialFillMargin(config, yes, no), SpreadPenalty(yes, no));
    var required := Max(parts.fees + parts.slippage + parts.partialFillRisk + parts.spreadPenalty, config.minEdge);
    EdgeCalculation(required, actual, actual >= required && MinDepth(yes, no) >= intended, MinDepth(yes, no), parts)
  }

  // Both asks, if they leave the minimum edge.
  function QuickCheck(
      config: EdgeConfig, books: map<TokenId, BookSnapshot>, yesToken: TokenId, noToken: TokenId): Option<(real, real)>
  {
    var yes := BookOf(books, yesToken).BestAsk();
    var no := BookOf(books, noToken).BestAsk();
    if yes.None? || no.None? then None
    else
      var combined := yes.value + no.value;
      if combined >= 1.0 || 1.0 - combined < config.minEdge then None else Some((yes.value, no.value))
  }

  lemma WithFee(rate: real, combined: real)
    ensures Value(combined, 1.0 + rate) == combined + Value(rate, combined)
  {
  }

  // A profitable pair pays for itself: one share of each outcome redeems for a dollar, which
  // covers both asks, the taker's fee on them, and never less than the minimum edge.
  lemma ProfitCoversFees(config: EdgeConfig, yes: BookSnapshot, no: BookSnapshot, bps: nat, intended: real)
    requires config.thinBookMargin >= 0.0
    requires Calculate(config, yes, no, bps, intended).isProfitable
    ensures !config.isMaker ==> Value(Combined(yes, no), 1.0 + FeeRate(bps)) <= 1.0
    ensures Combined(yes, no) <= 1.0 - config.minEdge
    ensures intended <= MinDepth(yes, no)
  {
    WithFee(FeeRate(bps), Combined(yes, no));
    hide Value, FeeRate, Combined, MinDepth, AverageSpread;
  }

  // Strategies ask for their smallest size and then trade up to the depth. That is sound: what
  // is profitable at one size is so at every size up to the depth.
  lemma ProfitableUpToDepth(
      config: EdgeConfig, yes: BookSnapshot, no: BookSnapshot, bps: nat, intended: real, size: real)
    requires Calculate(config, yes, no, bps, intended).isProfitable
    ensures Calculate(config, yes, no, bps, size).isProfitable
            <==> size <= Calculate(config, yes, no, bps, intended).maxSize
  {
    hide Value, FeeRate, Combined, MinDepth, AverageSpread;
  }

  // ---- exactly when a pair is profitable --------------------------------------------------------

  // What must be left of a dollar beyond the asks of two-sided books: three cents, one for a
  // maker, and also the taker's fee on the asks, half of what the mean spread exceeds five cents
  // by, a cent of margin below a hundred shares of depth or half a cent below two hundred, and
  // ten cents if there is no depth at all. The depth must cover the size.
  predicate WorthIt(maker: bool, yes: BookSnapshot, no: BookSnapshot, bps: nat, size: real)
    requires yes.asks != [] && yes.bids != [] && no.asks != [] && no.bids != []
  {
    var asks := yes.asks[0].price + no.asks[0].price;
    var bids := yes.bids[0].price + no.bids[0].price;
    var depth := if yes.asks[0].size <= no.asks[0].size then yes.asks[0].size else no.asks[0].size;
    var fee := if maker then 0.0 else bps as real / 10000.0 * asks;
    var wide := (asks - bids) / 2.0 - 0.05;
    var penalty := if wide > 0.0 then wide / 2.0 else 0.0;
    var margin := if depth < 100.0 then 0.01 else if depth < 200.0 then 0.005 else 0.0;
    var empty := if depth == 0.0 then 0.10 else 0.0;
    && 1.0 - asks >= (if maker then 0.01 else 0.03)
    && 1.0 - asks >= fee + penalty + margin + empty
    && size <= depth
  }

  lemma ProfitableExactly(maker: bool, yes: BookSnapshot, no: BookSnapshot, bps: nat, size: real)
    requires yes.IsTwoSided() && no.IsTwoSided()
    ensures Calculate(if maker then MAKER else TAKER, yes, no, bps, size).isProfitable
            <==> WorthIt(maker, yes, no, bps, size)
    ensures Calculate(if maker then MAKER else TAKER, yes, no, bps, size).maxSize
            == Min(yes.asks[0].size, no.asks[0].size)
  {
    var asks := yes.asks[0].price + no.asks[0].price;
    assert Value(FeeRate(bps), asks) == bps as real / 10000.0 * asks;
  }

  // The slippage a size beyond the depth is charged: how far it exceeds the depth, in halves of the
  // mean spread, up to ten cents.
  lemma SlippageExactly(maker: bool, yes: BookSnapshot, no: BookSnapshot, bps: nat, size: real)
    requires yes.IsTwoSided() && no.IsTwoSided()
    ensures var depth := Min(yes.asks[0].size, no.asks[0].size);
            var spread := (yes.asks[0].price - yes.bids[0].price + (no.asks[0].price - no.bids[0].price)) / 2.0;
            Calculate(if maker then MAKER else TAKER, yes, no, bps, size).components.slippage ==
            if depth == 0.0 then 0.10
            else if size <= depth then 0.0
            else Min((size - depth) / depth * spread * 0.5, 0.10)
  {
  }

  // Both books 15 to 45 cents wide: the spread costs more than the ten cents of edge.
  lemma WideBooksArePassedOver(maker: bool)
    ensures var book := BookSnapshot([PriceLevel(0.15, 1000.0)], [PriceLevel(0.45, 1000.0)]);
            !Calculate(if maker then MAKER else TAKER, book, book, 0, 1.0).isProfitable
  {
    var book := BookSnapshot([PriceLevel(0.15, 1000.0)], [PriceLevel(0.45, 1000.0)]);
    ProfitableExactly(maker, book, book, 0, 1.0);
  }
}

// Sizing of a two-legged trade, common to both arbitrage strategies
// (src/strategy/arbitrage.rs, src/strategy/maker_rebate_arb.rs).
module ArbSizing {
  import opened Base
  import opened Quantizer
  import opened NumberTheory
  import opened OrderPolicy
  import opened Strategies
  import opened MarketPairs
  import opened GroupExecution
  import Routing

  const EXCHANGE_MIN_ORDER_USDC := 1.0

  datatype Limits = Limits(
    maxPositionSize: real,
    minPositionSize: real,
    maxBetUsd: real,
    maxTotalExposure: real)

  // One share of each outcome per unit of size.
  datatype Trade = Trade(yesPrice: real, noPrice: real, size: real) {
    function Notional(): real {
      Value(yesPrice + noPrice, size)
    }
  }

  function Truncated(x: real): real
    requires x >= 0.0
  {
    Cents((x * 100.0).Floor)
  }

  function Affordable(total: real, combined: real): real {
    if combined > 0.0 then total / combined else 0.0
  }

  function TradeSize(limits: Limits, depth: real, exposure: real, cash: real, combined: real): real {
    Truncated(Max(
      Min(Min(Min(Min(depth, limits.maxPositionSize), (limits.maxTotalExposure - exposure) / 2.0),
              Affordable(cash, combined)),
          Affordable(limits.maxBetUsd, combined)),
      0.0))
  }

  // Whole shares of the cheaper leg that reach the exchange's minimum.
  function MinByExchange(cheaper: real): real {
    if cheaper > 0.0 then Ceil(EXCHANGE_MIN_ORDER_USDC / cheaper) as real else 1.0
  }

  function Sized(limits: Limits, depth: real, exposure: real, cash: real, yes: real, no: real): Option<real> {
    var size := TradeSize(limits, depth, exposure, cash, yes + no);
    if size < Max(MinByExchange(Min(yes, no)), limits.minPositionSize) then None
    else if exposure + Value(yes + no, size) > limits.maxTotalExposure then None
    else Some(size)
  }

  // ---- what the size is -----------------------------------------------------------------------

  // Within the depth, the position limit, half of the free exposure, the cash and the bet.
  predicate Fits(limits: Limits, depth: real, exposure: real, cash: real, combined: real, size: real) {
    && 0.0 < combined
    && size <= depth
    && size <= limits.maxPositionSize
    && exposure + 2.0 * size <= limits.maxTotalExposure
    && Value(combined, size) <= cash
    && Value(combined, size) <= limits.maxBetUsd
  }

  // Enough whole shares for the exchange's minimum on the cheaper leg.
  predicate Suffices(limits: Limits, cheaper: real, size: real) {
    && size >= limits.minPositionSize
    && size >= 1.0
    && (cheaper > 0.0 ==> Value(cheaper, size.Floor as real) >= EXCHANGE_MIN_ORDER_USDC)
  }

  lemma AffordableIs(total: real, combined: real, size: real)
    requires combined > 0.0
    ensures size <= Affordable(total, combined) <==> Value(combined, size) <= total
  {
    QuotientValue(total, combined);
    ValueOrder(combined, size, total / combined);
  }

  lemma TruncatedIs(x: real, k: int)
    requires x >= 0.0
    ensures 0.0 <= Truncated(x) <= x
    ensures Cents(k) <= x <==> Cents(k) <= Truncated(x)
  {
    var n := (x * 100.0).Floor;
    assert n as real <= x * 100.0 < n as real + 1.0;
    assert Cents(k) * 100.0 == k as real;
    assert k <= n <==> k as real <= n as real;
  }

  lemma SizeFits(limits: Limits, depth: real, exposure: real, cash: real, combined: real, k: int)
    requires k > 0
    ensures TradeSize(limits, depth, exposure, cash, combined) >= 0.0
    ensures Cents(k) <= TradeSize(limits, depth, exposure, cash, combined)
            <==> Fits(limits, depth, exposure, cash, combined, Cents(k))
  {
    var cap := Max(
      Min(Min(Min(Min(depth, limits.maxPositionSize), (limits.maxTotalExposure - exposure) / 2.0),
              Affordable(cash, combined)),
          Affordable(limits.maxBetUsd, combined)),
      0.0);
    assert Cents(k) > 0.0;
    TruncatedIs(cap, k);
    if combined > 0.0 {
      AffordableIs(cash, combined, Cents(k));
      AffordableIs(limits.maxBetUsd, combined, Cents(k));
    }
    hide Truncated, Value, Cents;
  }

  lemma CeilIs(x: real, size: real)
    ensures Ceil(x) as real <= size <==> x <= size.Floor as real
  {
    var n := Ceil(x);
    CeilFloor(x);
    assert n as real <= size <==> n <= size.Floor;
    assert x <= size.Floor as real ==> n <= size.Floor;
  }

  lemma MinimumSuffices(limits: Limits, cheaper: real, size: real)
    ensures size >= Max(MinByExchange(cheaper), limits.minPositionSize) <==> Suffices(limits, cheaper, size)
  {
    if cheaper > 0.0 {
      var shares := EXCHANGE_MIN_ORDER_USDC / cheaper;
      CeilIs(shares, size);
      QuotientValue(EXCHANGE_MIN_ORDER_USDC, cheaper);
      ValueOrder(cheaper, shares, size.Floor as real);
      assert shares > 0.0;
      CeilFloor(shares);
      hide Value, Ceil;
    }
  }

  lemma Product(a: real, b: real)
    requires a >= 0.0 && b >= 0.0
    ensures Value(a, b) >= 0.0
  {
  }

  lemma ValueSubtracts(a: real, b: real, n: real)
    ensures Value(a, n) == Value(b, n) + Value(a - b, n)
    ensures Value(1.0, n) == n && Value(2.0, n) == 2.0 * n
  {
  }

  lemma Scaled(combined: real, size: real)
    requires combined <= 2.0 && size >= 0.0
    ensures Value(combined, size) <= 2.0 * size
    ensures combined <= 1.0 ==> Value(combined, size) <= size
  {
    ValueSubtracts(2.0, combined, size);
    ValueSubtracts(1.0, combined, size);
    hide Value;
    Product(2.0 - combined, size);
    if combined <= 1.0 {
      Product(1.0 - combined, size);
    }
  }

  lemma SizeIsHundredths(limits: Limits, depth: real, exposure: real, cash: real, combined: real) returns (k: int)
    ensures TradeSize(limits, depth, exposure, cash, combined) == Cents(k)
  {
    var cap := Max(
      Min(Min(Min(Min(depth, limits.maxPositionSize), (limits.maxTotalExposure - exposure) / 2.0),
              Affordable(cash, combined)),
          Affordable(limits.maxBetUsd, combined)),
      0.0);
    k := (cap * 100.0).Floor;
  }

  // A trade that is sized keeps every limit, is worth the exchange's minimum in whole shares
  // on both legs, and spends no more than the cash, the bet and the free exposure.
  lemma SizedKeepsLimits(limits: Limits, depth: real, exposure: real, cash: real, yes: real, no: real)
    ensures match Sized(limits, depth, exposure, cash, yes, no)
            case None => true
            case Some(size) =>
              && size >= 1.0
              && Fits(limits, depth, exposure, cash, yes + no, size)
              && Suffices(limits, Min(yes, no), size)
              && exposure < exposure + Value(yes + no, size) <= limits.maxTotalExposure
              && exists k :: size == Cents(k)
  {
    var size := TradeSize(limits, depth, exposure, cash, yes + no);
    var k := SizeIsHundredths(limits, depth, exposure, cash, yes + no);
    MinimumSuffices(limits, Min(yes, no), size);
    hide TradeSize, MinByExchange;
    if Sized(limits, depth, exposure, cash, yes, no).Some? {
      assert Cents(k) >= 1.0;
      SizeFits(limits, depth, exposure, cash, yes + no, k);
      ValueOrder(yes + no, 0.0, size);
      assert Value(yes + no, 0.0) == 0.0;
    }
  }

  // At outcome prices the size is the best possible one: nothing is traded exactly when no
  // number of hundredths meets all limits, and otherwise the largest that does is. In
  // particular the separate exposure check never rejects anything.
  lemma SizedIsLargest(limits: Limits, depth: real, exposure: real, cash: real, yes: real, no: real)
    requires yes + no <= 2.0
    ensures match Sized(limits, depth, exposure, cash, yes, no)
            case None =>
              forall k :: !(Fits(limits, depth, exposure, cash, yes + no, Cents(k))
                            && Suffices(limits, Min(yes, no), Cents(k)))
            case Some(size) =>
              forall k :: Fits(limits, depth, exposure, cash, yes + no, Cents(k)) ==> Cents(k) <= size
  {
    var size := TradeSize(limits, depth, exposure, cash, yes + no);
    var n := SizeIsHundredths(limits, depth, exposure, cash, yes + no);
    SizedKeepsLimits(limits, depth, exposure, cash, yes, no);
    MinimumSuffices(limits, Min(yes, no), size);
    hide TradeSize, Value, MinByExchange, Min;
    forall k | Fits(limits, depth, exposure, cash, yes + no, Cents(k))
      ensures Cents(k) <= size
      ensures Sized(limits, depth, exposure, cash, yes, no).None? ==> !Suffices(limits, Min(yes, no), Cents(k))
    {
      SizeIsNonNegative(limits, depth, exposure, cash, yes + no);
      if k > 0 {
        SizeFits(limits, depth, exposure, cash, yes + no, k);
        assert n > 0 by { CentsOrder(k, n); }
        SizeFits(limits, depth, exposure, cash, yes + no, n);
        Scaled(yes + no, size);
        MinimumSuffices(limits, Min(yes, no), Cents(k));
      } else {
        CentsOrder(k, 0);
      }
    }
  }

  lemma CentsOrder(a: int, b: int)
    ensures Cents(a) <= Cents(b) <==> a <= b
    ensures Cents(0) == 0.0
  {
  }

  lemma SizeIsNonNegative(limits: Limits, depth: real, exposure: real, cash: real, combined: real)
    ensures TradeSize(limits, depth, exposure, cash, combined) >= 0.0
  {
    SizeFits(limits, depth, exposure, cash, combined, 1);
  }

  // ---- from the trade to the orders -------------------------------------------------------------

  // Both legs buy the same size, as one group.
  function Legs(pair: MarketPair, trade: Trade, urgency: Urgency, name: string, group: string, priority: nat)
      : (legs: seq<OrderIntent>)
    ensures |legs| == 2
  {
    [NewIntent(pair.conditionId, pair.yesTokenId, Buy, trade.yesPrice, trade.size, urgency, name)
       .WithGroup(group).WithPriority(priority).WithTickSize(pair.tickSize),
     NewIntent(pair.conditionId, pair.noTokenId, Buy, trade.noPrice, trade.size, urgency, name)
       .WithGroup(group).WithPriority(priority).WithTickSize(pair.tickSize)]
  }

  lemma LegsExactly(pair: MarketPair, trade: Trade, urgency: Urgency, name: string, group: string, priority: nat)
    ensures Legs(pair, trade, urgency, name, group, priority) == [
              OrderIntent(pair.conditionId, pair.yesTokenId, Buy, trade.yesPrice, trade.size, urgency, name,
                          Some(group), priority, pair.tickSize),
              OrderIntent(pair.conditionId, pair.noTokenId, Buy, trade.noPrice, trade.size, urgency, name,
                          Some(group), priority, pair.tickSize)]
  {
  }

  // Linked as they are, the legs come through conflict resolution together, whatever else is
  // wanted in their market and at whatever priority.
  lemma LegsStayTogether(
      pair: MarketPair, trade: Trade, urgency: Urgency, name: string, group: string, priority: nat,
      intents: seq<OrderIntent>)
    requires forall leg :: leg in Legs(pair, trade, urgency, name, group, priority) ==> leg in intents
    ensures forall leg :: leg in Legs(pair, trade, urgency, name, group, priority) ==> leg in Routing.Resolved(intents)
  {
    Routing.ResolutionByKey(intents);
    LegsExactly(pair, trade, urgency, name, group, priority);
    hide Routing.Resolved, Routing.SameKey, Legs;
  }

  // Whole shares are whole lots.
  lemma SharesAreLots(price: real, shares: int)
    ensures Lots(Times(Gcd(PriceCents(price), 100), shares), Lot(price)) == shares as real
  {
    var g, n := Gcd(PriceCents(price), 100), LotHundredths(price);
    LotIsCofactor(price);
    LotsOfCents(Times(g, shares), n);
    hide Gcd, LotHundredths;
    assert n * (g * shares) == (g * n) * shares == 100 * shares;
  }

  // A whole-cent leg worth a dollar in whole shares is cut to lots without being raised.
  lemma LegIsCut(c: int, size: real)
    requires 1 <= c && size >= 1.0
    requires Value(Cents(c), size.Floor as real) >= EXCHANGE_MIN_ORDER_USDC
    ensures var submitted := Quantized(Cents(c), size);
            && size - 1.0 < submitted <= size
            && EXCHANGE_MIN_ORDER_USDC <= Value(Cents(c), submitted) <= Value(Cents(c), size)
  {
    var price := Cents(c);
    assert price > 0.0;
    QuantizedIs(price, size);
    LotIsCofactor(price);
    SharesAreLots(price, size.Floor);
    CountIsLargest(price, size, Times(Gcd(PriceCents(price), 100), size.Floor));
    CountFits(price, size);
    hide Value, Cents, Quantized, Lot, Lots, Count, Gcd, PriceCents, LotHundredths;
    var fits := Count(price, size);
    LotsOrder(Times(Gcd(PriceCents(price), 100), size.Floor), fits, Lot(price));
    ValueOrder(price, size.Floor as real, Lots(fits, Lot(price)));
    ValueOrder(price, Lots(fits, Lot(price)), size);
  }

  lemma TickIsCent(n: int)
    ensures Ticks(0.01, n) == Cents(n)
  {
  }

  // What the configured offset adds to a purchase at the cent tick: its whole cents, if posted.
  function Shift(offsetCents: real, urgency: Urgency): real {
    if urgency == Passive then RoundDownToTick(offsetCents / 100.0, 0.01) else 0.0
  }

  // The offsets that leave the price of a purchase alone, and those that never lower it.
  predicate KeepsPrice(offsetCents: real, urgency: Urgency) {
    urgency == Passive ==> 0.0 <= offsetCents < 1.0
  }

  predicate KeepsOrRaises(offsetCents: real, urgency: Urgency) {
    urgency == Passive ==> 0.0 <= offsetCents
  }

  lemma ShiftIs(offsetCents: real, urgency: Urgency)
    ensures Shift(offsetCents, urgency) == 0.0 <==> KeepsPrice(offsetCents, urgency)
    ensures Shift(offsetCents, urgency) >= 0.0 <==> KeepsOrRaises(offsetCents, urgency)
  {
    NoWholeTick(offsetCents / 100.0, 0.01);
    hide RoundDownToTick;
  }

  // The price an intent of one leg is submitted at, and that it then costs whole cents.
  lemma LegPriced(offsetCents: real, intent: OrderIntent)
    requires intent.side == Buy && intent.tickSize == 0.01 && OnTick(intent.price, 0.01)
    ensures var order := Submitted(offsetCents, intent);
            && order.price == intent.price + Shift(offsetCents, intent.urgency)
            && order.size == Quantized(order.price, intent.size)
            && OnTick(order.price, 0.01)
            && intent.size - 1.0 < order.size <= intent.size + 1.0
            && WholeCents(Value(order.price, order.size))
  {
    PoliciesKeepTheirSide(offsetCents, intent);
    OffsetMovesWholeTicks(offsetCents, intent);
    var order := Submitted(offsetCents, intent);
    QuantizedWithinLot(order.price, intent.size);
    LotIsCofactor(order.price);
    hide RoundUpToTick, RoundDownToTick;
    var c :| order.price == Ticks(0.01, c);
    TickIsCent(c);
    assert WholeCents(order.price);
    WholeCentsExactlyAtCentPrices(order.price);
  }

  // What an intent of one leg becomes when it is submitted, unless the offset lowers its price.
  lemma LegSubmitted(offsetCents: real, intent: OrderIntent)
    requires intent.side == Buy && intent.tickSize == 0.01 && OnTick(intent.price, 0.01)
    requires KeepsOrRaises(offsetCents, intent.urgency)
    requires 0.0 < intent.price && intent.size >= 1.0
    requires Value(intent.price, intent.size.Floor as real) >= EXCHANGE_MIN_ORDER_USDC
    ensures var order := Submitted(offsetCents, intent);
            && intent.size - 1.0 < order.size <= intent.size
            && EXCHANGE_MIN_ORDER_USDC <= Value(order.price, order.size)
            && Value(order.price, order.size)
               <= Value(intent.price, intent.size) + Value(Shift(offsetCents, intent.urgency), intent.size)
  {
    var order, shift := Submitted(offsetCents, intent), Shift(offsetCents, intent.urgency);
    LegPriced(offsetCents, intent);
    ShiftIs(offsetCents, intent.urgency);
    var c :| order.price == Ticks(0.01, c);
    TickIsCent(c);
    assert 1 <= c;
    hide Value, Submitted, Shift, Cents, Ticks, OnTick, Quantized, WholeCents;
    ValueAdds(intent.price, shift, intent.size.Floor as real);
    ValueAdds(intent.price, shift, intent.size);
    Product(shift, intent.size.Floor as real);
    LegIsCut(c, intent.size);
  }

  // Two orders for a trade: each costs a whole number of cents and a dollar at least, and they
  // trade less than a share less than intended, so their sizes differ by less than a share.
  ghost predicate WellSubmitted(trade: Trade, yes: OrderParams, no: OrderParams) {
    && WholeCents(Value(yes.price, yes.size)) && WholeCents(Value(no.price, no.size))
    && Value(yes.price, yes.size) >= EXCHANGE_MIN_ORDER_USDC
    && Value(no.price, no.size) >= EXCHANGE_MIN_ORDER_USDC
    && trade.size - 1.0 < yes.size <= trade.size
    && trade.size - 1.0 < no.size <= trade.size
    && Abs(yes.size - no.size) < 1.0
  }

  function TotalCost(yes: OrderParams, no: OrderParams): real {
    Value(yes.price, yes.size) + Value(no.price, no.size)
  }

  lemma ShiftCents(offsetCents: real)
    ensures Shift(offsetCents, Passive) == Cents(offsetCents.Floor)
  {
    TickIsCent(offsetCents.Floor);
    assert offsetCents / 100.0 / 0.01 == offsetCents;
  }

  // The offsets at which the orders of every trade stay within what it was sized for: those that
  // keep the prices, and those so far below zero that a dollar's worth more cannot cost as much
  // as the lower price saves.
  predicate StaysWithin(offsetCents: real, urgency: Urgency) {
    urgency == Passive ==> offsetCents < -10.0 || 0.0 <= offsetCents < 1.0
  }

  // End to end, for a sized trade at prices on the cent tick and a policy with any offset. Both
  // legs reach the exchange at the strategy's prices moved by the offset's whole cents, so they
  // keep them exactly if the offset, for posted legs, is between zero and a cent; then the
  // orders cost no more than the cash and the bet. An offset that raises the prices still leaves
  // the orders well formed and overdraws by at most what it adds.
  lemma TradeSubmitted(
      offsetCents: real, limits: Limits, depth: real, exposure: real, cash: real, pair: MarketPair, trade: Trade,
      urgency: Urgency, name: string, group: string, priority: nat)
    requires Sized(limits, depth, exposure, cash, trade.yesPrice, trade.noPrice) == Some(trade.size)
    requires pair.tickSize == 0.01 && OnTick(trade.yesPrice, 0.01) && OnTick(trade.noPrice, 0.01)
    requires 0.0 < trade.yesPrice && 0.0 < trade.noPrice
    ensures var legs := Legs(pair, trade, urgency, name, group, priority);
            var yes, no := Submitted(offsetCents, legs[0]), Submitted(offsetCents, legs[1]);
            var shift := Shift(offsetCents, urgency);
            && yes.price == trade.yesPrice + shift && no.price == trade.noPrice + shift
            && (shift == 0.0 <==> KeepsPrice(offsetCents, urgency))
            && WholeCents(Value(yes.price, yes.size)) && WholeCents(Value(no.price, no.size))
            && trade.size - 1.0 < yes.size <= trade.size + 1.0
            && trade.size - 1.0 < no.size <= trade.size + 1.0
            && (KeepsOrRaises(offsetCents, urgency) ==>
                  && WellSubmitted(trade, yes, no)
                  && TotalCost(yes, no) <= Min(cash, limits.maxBetUsd) + Value(shift, trade.size) * 2.0)
            && (KeepsPrice(offsetCents, urgency) ==> TotalCost(yes, no) <= Min(cash, limits.maxBetUsd))
            && (StaysWithin(offsetCents, urgency) && trade.yesPrice + trade.noPrice < 1.0 ==>
                  TotalCost(yes, no) <= Min(cash, limits.maxBetUsd))
  {
    LegsSuffice(limits, depth, exposure, cash, trade);
    var legs := Legs(pair, trade, urgency, name, group, priority);
    var yes, no := legs[0], legs[1];
    ShiftIs(offsetCents, urgency);
    assert Value(0.0, trade.size) == 0.0;
    hide Value, Sized, Submitted, OnTick, WholeCents, Shift;
    LegPriced(offsetCents, yes);
    LegPriced(offsetCents, no);
    if KeepsOrRaises(offsetCents, urgency) {
      LegSubmitted(offsetCents, yes);
      LegSubmitted(offsetCents, no);
    } else if offsetCents < -10.0 && trade.yesPrice + trade.noPrice < 1.0 {
      ThreeAtLeast(trade);
      LegLowered(offsetCents, yes);
      LegLowered(offsetCents, no);
    }
  }

  // A leg below fifty cents takes three shares to be worth a dollar.
  lemma ThreeAtLeast(trade: Trade)
    requires trade.yesPrice + trade.noPrice < 1.0
    requires Value(trade.yesPrice, trade.size.Floor as real) >= EXCHANGE_MIN_ORDER_USDC
    requires Value(trade.noPrice, trade.size.Floor as real) >= EXCHANGE_MIN_ORDER_USDC
    requires trade.size >= 1.0
    ensures trade.size >= 3.0
  {
    var shares := trade.size.Floor;
    assert shares == 1 || shares == 2 || shares >= 3;
  }

  // An order lowered by more than ten cents never costs more, even when it is raised to a dollar:
  // it was for three shares at least, and only a price of 33 cents or less calls for a fourth.
  lemma LegLowered(offsetCents: real, intent: OrderIntent)
    requires intent.side == Buy && intent.urgency == Passive && intent.tickSize == 0.01 && OnTick(intent.price, 0.01)
    requires offsetCents < -10.0 && intent.price > 0.0 && intent.size >= 3.0
    ensures var order := Submitted(offsetCents, intent);
            Value(order.price, order.size) <= Value(intent.price, intent.size)
  {
    var order := Submitted(offsetCents, intent);
    LegPriced(offsetCents, intent);
    ShiftCents(offsetCents);
    CentsOrder(offsetCents.Floor, -11);
    assert Cents(-11) == -0.11;
    hide Submitted, Shift, Quantized, WholeCents, Value;
    var drop := intent.price - order.price;
    ValueSubtracts(intent.price, order.price, intent.size);
    ValueSubtracts(drop, 0.11, intent.size);
    Product(drop - 0.11, intent.size);
    assert Value(0.11, intent.size) >= 0.33 by { ElevenCents(intent.size); }
    if order.price > 0.0 {
      var c :| order.price == Ticks(0.01, c);
      TickIsCent(c);
      RaisedByOneShare(c, intent.size);
    } else {
      NotPositive(order.price, order.size);
      Product(intent.price, intent.size);
    }
  }

  lemma ElevenCents(size: real)
    requires size >= 3.0
    ensures Value(0.11, size) >= 0.33
  {
  }

  lemma NotPositive(price: real, size: real)
    requires price <= 0.0 && size >= 0.0
    ensures Value(price, size) <= 0.0
  {
    Product(-price, size);
    assert Value(-price, size) == -Value(price, size);
  }

  lemma RaisedByOneShare(c: int, size: real)
    requires size >= 3.0 && Cents(c) > 0.0
    ensures Value(Cents(c), Quantized(Cents(c), size)) <= Value(Cents(c), size) + 0.33
  {
    var price := Cents(c);
    var fits, lot := Count(price, size), Lot(price);
    QuantizedIs(price, size);
    LotIsCofactor(price);
    CountFits(price, size);
    SharesAreLots(price, 3);
    CountIsLargest(price, size, Times(Gcd(PriceCents(price), 100), 3));
    LotsOrder(Times(Gcd(PriceCents(price), 100), 3), fits, lot);
    hide Lot, Lots, Count, Quantized, Gcd, PriceCents, LotHundredths, Value;
    var floored := Lots(fits, lot);
    ValueOrder(price, floored, size);
    ValueOrder(price, 3.0, floored);
    ValueOrder(price, floored + lot, size + 1.0);
    ValueNext(price, size);
    if Value(price, floored) < 1.0 {
      assert c <= 33 by { ThirdOfADollar(c); }
    }
  }

  lemma ThirdOfADollar(c: int)
    ensures Value(Cents(c), 3.0) < 1.0 <==> c <= 33
  {
  }

  // ---- exactly which offsets the sizing is right for --------------------------------------------

  // A trade both strategies may post: sized, on the cent tick, below a dollar.
  ghost predicate IsPosted(
    limits: Limits, depth: real, exposure: real, cash: real, pair: MarketPair, trade: Trade)
  {
    && Sized(limits, depth, exposure, cash, trade.yesPrice, trade.noPrice) == Some(trade.size)
    && pair.tickSize == 0.01 && OnTick(trade.yesPrice, 0.01) && OnTick(trade.noPrice, 0.01)
    && 0.0 < trade.yesPrice && 0.0 < trade.noPrice && trade.yesPrice + trade.noPrice < 1.0
  }

  ghost predicate PostsWellFormed(offsetCents: real) {
    forall limits, depth, exposure, cash, pair, trade, name, group, priority ::
      IsPosted(limits, depth, exposure, cash, pair, trade) ==>
        var legs := Legs(pair, trade, Passive, name, group, priority);
        WellSubmitted(trade, Submitted(offsetCents, legs[0]), Submitted(offsetCents, legs[1]))
  }

  ghost predicate PostsAffordable(offsetCents: real) {
    forall limits: Limits, depth, exposure, cash, pair, trade, name, group, priority ::
      IsPosted(limits, depth, exposure, cash, pair, trade) ==>
        var legs := Legs(pair, trade, Passive, name, group, priority);
        TotalCost(Submitted(offsetCents, legs[0]), Submitted(offsetCents, legs[1])) <= Min(cash, limits.maxBetUsd)
  }

  // The limits that make n shares at c cents a leg the size, with the bet they cost.
  function ExactBet(c: int, n: int): Limits {
    Limits(1000.0, 1.0, Value(Cents(2 * c), n as real), 4000.0)
  }

  lemma EqualLegsSized(c: int, n: int)
    requires 1 <= c <= 49 && 1 <= n <= 1000 && Times(c, n) >= 100
    ensures Sized(ExactBet(c, n), 1000.0, 0.0, 1000.0, Cents(c), Cents(c)) == Some(n as real)
  {
    var limits, price, size := ExactBet(c, n), Cents(c), Cents(100 * n);
    CentsAdd(c, c);
    assert size == n as real && size.Floor == n;
    EqualLegsWorth(c, n);
    hide Value;
    assert Fits(limits, 1000.0, 0.0, 1000.0, price + price, size);
    assert Suffices(limits, price, size);
    SizedIsLargest(limits, 1000.0, 0.0, 1000.0, price, price);
    SizedKeepsLimits(limits, 1000.0, 0.0, 1000.0, price, price);
    hide Sized;
    assert Min(price, price) == price;
    var sized := Sized(limits, 1000.0, 0.0, 1000.0, price, price);
    assert sized.Some?;
    ValueOrder(price + price, sized.value, n as real);
  }

  lemma EqualLegsWorth(c: int, n: int)
    requires 1 <= c <= 49 && 1 <= n <= 1000 && Times(c, n) >= 100
    ensures Value(Cents(c), n as real) >= 1.0
    ensures Value(Cents(2 * c), n as real) <= 1000.0
  {
    CentShares(c, n);
    CentShares(2 * c, n);
    assert Times(2 * c, n) == 2 * Times(c, n);
    assert Times(49, n) - Times(c, n) == Times(49 - c, n) >= 0;
    hide Times, Value;
    CentsOrder(100, Times(c, n));
    CentsOrder(2 * Times(c, n), 100_000);
    FortyNine(n);
  }

  lemma FortyNine(n: int)
    requires n <= 1000
    ensures Times(49, n) <= 49_000
  {
  }

  lemma CentShares(c: int, n: int)
    ensures Value(Cents(c), n as real) == Cents(Times(c, n))
  {
    assert c as real * n as real == (c * n) as real;
  }

  lemma EqualLegsPosted(c: int, n: int, pair: MarketPair)
    requires 1 <= c <= 49 && 1 <= n <= 1000 && Times(c, n) >= 100 && pair.tickSize == 0.01
    ensures IsPosted(ExactBet(c, n), 1000.0, 0.0, 1000.0, pair, Trade(Cents(c), Cents(c), n as real))
  {
    EqualLegsSized(c, n);
    TickIsCent(c);
    assert OnTick(Cents(c), 0.01);
    hide Sized;
  }

  // Three shares at 34 cents a leg: any lower price leaves them short of a dollar.
  lemma LoweringMissesTheMinimum(offsetCents: real, pair: MarketPair, name: string, group: string, priority: nat)
    requires offsetCents < 0.0 && pair.tickSize == 0.01
    ensures var trade := Trade(Cents(34), Cents(34), 3.0);
            var legs := Legs(pair, trade, Passive, name, group, priority);
            && IsPosted(ExactBet(34, 3), 1000.0, 0.0, 1000.0, pair, trade)
            && !WellSubmitted(trade, Submitted(offsetCents, legs[0]), Submitted(offsetCents, legs[1]))
  {
    EqualLegsPosted(34, 3, pair);
    var leg := Legs(pair, Trade(Cents(34), Cents(34), 3.0), Passive, name, group, priority)[0];
    var order := Submitted(offsetCents, leg);
    LegPriced(offsetCents, leg);
    ShiftCents(offsetCents);
    CentsOrder(offsetCents.Floor, -1);
    hide Submitted, Shift, Sized, WholeCents;
    if 2.0 < order.size <= 3.0 {
      BelowADollar(order.price, order.size);
    }
  }

  lemma BelowADollar(price: real, size: real)
    requires price <= 0.33 && 0.0 < size <= 3.0
    ensures Value(price, size) < 1.0
  {
    ValueSubtracts(0.33, price, size);
    assert Value(0.33, size) < 1.0;
    hide Value;
    Product(0.33 - price, size);
  }

  // A hundred shares at 44 cents a leg: every price above takes the same hundred.
  lemma RaisingOverdraws(offsetCents: real, pair: MarketPair, name: string, group: string, priority: nat)
    requires offsetCents >= 1.0 && pair.tickSize == 0.01
    ensures var trade := Trade(Cents(44), Cents(44), 100.0);
            var legs := Legs(pair, trade, Passive, name, group, priority);
            && IsPosted(ExactBet(44, 100), 1000.0, 0.0, 1000.0, pair, trade)
            && ExactBet(44, 100).maxBetUsd == 88.0
            && TotalCost(Submitted(offsetCents, legs[0]), Submitted(offsetCents, legs[1])) >= 90.0
  {
    EqualLegsPosted(44, 100, pair);
    assert ExactBet(44, 100).maxBetUsd == 88.0;
    var legs := Legs(pair, Trade(Cents(44), Cents(44), 100.0), Passive, name, group, priority);
    HundredKept(offsetCents, legs[0]);
    HundredKept(offsetCents, legs[1]);
    hide Submitted, Sized, Value;
  }

  lemma HundredKept(offsetCents: real, leg: OrderIntent)
    requires offsetCents >= 1.0
    requires leg.side == Buy && leg.urgency == Passive && leg.tickSize == 0.01 && leg.price == Cents(44) && leg.size == 100.0
    ensures var order := Submitted(offsetCents, leg); Value(order.price, order.size) >= 45.0
  {
    TickIsCent(44);
    assert OnTick(leg.price, 0.01);
    var order := Submitted(offsetCents, leg);
    LegPriced(offsetCents, leg);
    ShiftCents(offsetCents);
    CentsOrder(1, offsetCents.Floor);
    assert order.price >= 0.45;
    SharesAreLots(order.price, 100);
    QuantizedKeeps(order.price, 100.0);
    ValueSubtracts(order.price, 0.45, 100.0);
    assert Value(0.45, 100.0) == 45.0;
    Product(order.price - 0.45, 100.0);
  }

  // Up to ten cents below: three shares a leg at the price that is lowered to 33 cents become
  // four, because three are no longer worth a dollar.
  lemma LoweringCanCostMore(offsetCents: real, pair: MarketPair, name: string, group: string, priority: nat)
    requires -10.0 <= offsetCents < 0.0 && pair.tickSize == 0.01
    ensures var c := 33 - offsetCents.Floor;
            var trade := Trade(Cents(c), Cents(c), 3.0);
            var legs := Legs(pair, trade, Passive, name, group, priority);
            var yes, no := Submitted(offsetCents, legs[0]), Submitted(offsetCents, legs[1]);
            && 34 <= c <= 43
            && IsPosted(ExactBet(c, 3), 1000.0, 0.0, 1000.0, pair, trade)
            && yes.price == no.price == 0.33 && yes.size == no.size == 4.0
            && ExactBet(c, 3).maxBetUsd < TotalCost(yes, no)
  {
    var c := 33 - offsetCents.Floor;
    EqualLegsPosted(c, 3, pair);
    var legs := Legs(pair, Trade(Cents(c), Cents(c), 3.0), Passive, name, group, priority);
    LegPriced(offsetCents, legs[0]);
    LegPriced(offsetCents, legs[1]);
    ShiftCents(offsetCents);
    CentsAdd(c, offsetCents.Floor);
    FourAt33();
    hide Submitted, Sized, Quantized, Shift;
  }

  lemma FourAt33()
    ensures Quantized(0.33, 3.0) == 4.0
  {
    PriceCentsOf(33);
    assert Gcd(33, 100) == Gcd(100, 33) == Gcd(33, 1) == Gcd(1, 0) == 1;
    assert Lot(0.33) == 1.0;
  }

  // The three promises of a posted trade and the offsets that keep them: its orders are well
  // formed at every offset from zero up; they stay within cash and bet below a cent, and again
  // more than ten cents below zero; so both exactly where the prices are kept.
  lemma OffsetsExactly(offsetCents: real)
    ensures PostsWellFormed(offsetCents) <==> offsetCents >= 0.0
    ensures PostsAffordable(offsetCents) <==> offsetCents < -10.0 || 0.0 <= offsetCents < 1.0
    ensures PostsWellFormed(offsetCents) && PostsAffordable(offsetCents) <==> KeepsPrice(offsetCents, Passive)
  {
    WellFormedFrom(offsetCents);
    AffordableWithin(offsetCents);
  }

  lemma WellFormedFrom(offsetCents: real)
    ensures PostsWellFormed(offsetCents) <==> offsetCents >= 0.0
  {
    hide Submitted, WellSubmitted, IsPosted, Legs;
    if offsetCents >= 0.0 {
      forall limits, depth, exposure, cash, pair, trade, name, group, priority |
        IsPosted(limits, depth, exposure, cash, pair, trade)
        ensures var legs := Legs(pair, trade, Passive, name, group, priority);
                WellSubmitted(trade, Submitted(offsetCents, legs[0]), Submitted(offsetCents, legs[1]))
      {
        PostedTrade(offsetCents, limits, depth, exposure, cash, pair, trade, name, group, priority);
      }
    } else {
      LoweringMissesTheMinimum(offsetCents, MarketPair("market", "yes", "no", 0, 0.01), "", "", 0);
    }
  }

  lemma AffordableWithin(offsetCents: real)
    ensures PostsAffordable(offsetCents) <==> StaysWithin(offsetCents, Passive)
  {
    hide Submitted, TotalCost, IsPosted, Legs;
    if StaysWithin(offsetCents, Passive) {
      forall limits: Limits, depth, exposure, cash, pair, trade, name, group, priority |
        IsPosted(limits, depth, exposure, cash, pair, trade)
        ensures var legs := Legs(pair, trade, Passive, name, group, priority);
                TotalCost(Submitted(offsetCents, legs[0]), Submitted(offsetCents, legs[1])) <= Min(cash, limits.maxBetUsd)
      {
        PostedTrade(offsetCents, limits, depth, exposure, cash, pair, trade, name, group, priority);
      }
    } else if offsetCents >= 1.0 {
      RaisingOverdraws(offsetCents, MarketPair("market", "yes", "no", 0, 0.01), "", "", 0);
    } else {
      LoweringCanCostMore(offsetCents, MarketPair("market", "yes", "no", 0, 0.01), "", "", 0);
    }
  }

  lemma PostedTrade(
      offsetCents: real, limits: Limits, depth: real, exposure: real, cash: real, pair: MarketPair, trade: Trade,
      name: string, group: string, priority: nat)
    requires IsPosted(limits, depth, exposure, cash, pair, trade)
    ensures var legs := Legs(pair, trade, Passive, name, group, priority);
            var yes, no := Submitted(offsetCents, legs[0]), Submitted(offsetCents, legs[1]);
            && (offsetCents >= 0.0 ==> WellSubmitted(trade, yes, no))
            && (StaysWithin(offsetCents, Passive) ==> TotalCost(yes, no) <= Min(cash, limits.maxBetUsd))
  {
    hide Submitted, WellSubmitted, TotalCost, Sized, OnTick, Shift, Value, WholeCents;
    TradeSubmitted(offsetCents, limits, depth, exposure, cash, pair, trade, Passive, name, group, priority);
  }

  lemma CentsAdd(a: int, b: int)
    ensures Cents(a) + Cents(b) == Cents(a + b)
  {
  }

  lemma LegsSuffice(limits: Limits, depth: real, exposure: real, cash: real, trade: Trade)
    requires Sized(limits, depth, exposure, cash, trade.yesPrice, trade.noPrice) == Some(trade.size)
    requires 0.0 < trade.yesPrice && 0.0 < trade.noPrice
    ensures trade.size >= 1.0
    ensures Value(trade.yesPrice, trade.size.Floor as real) >= EXCHANGE_MIN_ORDER_USDC
    ensures Value(trade.noPrice, trade.size.Floor as real) >= EXCHANGE_MIN_ORDER_USDC
    ensures Value(trade.yesPrice, trade.size) + Value(trade.noPrice, trade.size) <= Min(cash, limits.maxBetUsd)
  {
    SizedKeepsLimits(limits, depth, exposure, cash, trade.yesPrice, trade.noPrice);
    var shares := trade.size.Floor as real;
    assert shares >= 1.0;
    hide Value, Sized;
    CheaperFirst(trade.yesPrice, trade.noPrice, shares);
    ValueAdds(trade.yesPrice, trade.noPrice, trade.size);
  }

  lemma CheaperFirst(yes: real, no: real, shares: real)
    requires shares >= 0.0
    ensures Value(yes, shares) >= Value(Min(yes, no), shares)
    ensures Value(no, shares) >= Value(Min(yes, no), shares)
  {
    var cheaper := Min(yes, no);
    ValueSubtracts(yes, cheaper, shares);
    ValueSubtracts(no, cheaper, shares);
    hide Value;
    Product(yes - cheaper, shares);
    Product(no - cheaper, shares);
  }

  lemma ValueAdds(yes: real, no: real, size: real)
    ensures Value(yes + no, size) == Value(yes, size) + Value(no, size)
  {
  }
}

// The arbitrage strategy that takes both asks (src/strategy/arbitrage.rs).
module MathArb {
  import opened Base
  import opened Positions
  import opened OrderBook
  import opened Strategies
  import opened OrderPolicy
  import opened MarketPairs
  import opened EdgeCalculator
  import opened Quantizer
  import opened ArbSizing
  import opened GroupExecution

  const NAME := "MathArbStrategy"
  const PRIORITY := 100

  datatype MathArbConfig = MathArbConfig(
    minEdge: real,
    limits: Limits,
    cooldownMs: nat,
    useMakerExecution: bool)
  {
    function Edge(): EdgeConfig {
      if useMakerExecution then MAKER else TAKER
    }

    function Urgency(): Urgency {
      if useMakerExecution then Passive else Immediate
    }
  }

  // The trade a pair offers, if any, at limit prices on the tick.
  function Opportunity(config: MathArbConfig, pair: MarketPair, ctx: StrategyContext, exposure: real): Option<Trade> {
    var yesBook := BookOf(ctx.books, pair.yesTokenId);
    var noBook := BookOf(ctx.books, pair.noTokenId);
    if !yesBook.IsTwoSided() || !noBook.IsTwoSided() then None
    else
      var quick := QuickCheck(config.Edge(), ctx.books, pair.yesTokenId, pair.noTokenId);
      if quick.None? then None
      else
        var yes := RoundUpToTick(quick.value.0, pair.tickSize);
        var no := RoundUpToTick(quick.value.1, pair.tickSize);
        if (yes, no) != quick.value && (yes + no >= 1.0 || 1.0 - (yes + no) < config.minEdge) then None
        else
          var edge := Calculate(config.Edge(), yesBook, noBook, pair.feeRateBps, config.limits.minPositionSize);
          if !edge.isProfitable then None
          else
            var size := Sized(config.limits, edge.maxSize, exposure, ctx.availableCash, yes, no);
            if size.None? then None else Some(Trade(yes, no, size.value))
  }

  datatype Arb = Arb(enabled: bool, lastTrade: map<ConditionId, int>, tradeCount: nat, exposure: real) {
    // The trade a book update leads to.
    function Decided(
        config: MathArbConfig, pair: Option<MarketPair>, marketId: ConditionId, ctx: StrategyContext, now: int)
        : Option<Trade>
    {
      if !enabled || pair.None? || pair.value.conditionId != marketId then None
      else if OnCooldown(lastTrade, marketId, now, config.cooldownMs) then None
      else Opportunity(config, pair.value, ctx, exposure)
    }

    function Traded(marketId: ConditionId, now: int, trade: Trade): Arb {
      Arb(enabled, lastTrade[marketId := now], tradeCount + 1, exposure + trade.Notional())
    }

    // Only sales free exposure; a purchase counted when it was decided.
    function Filled(fill: Fill): Arb {
      if fill.side == Sell then this.(exposure := Max(exposure - fill.Notional(), 0.0)) else this
    }
  }

  class MathArbStrategy {
    const config: MathArbConfig
    const registry: MarketPairRegistry
    var enabled: bool
    var lastTrade: map<ConditionId, int>
    var tradeCount: nat
    var currentExposure: real

    function View(): Arb
      reads this
    {
      Arb(enabled, lastTrade, tradeCount, currentExposure)
    }

    constructor (config: MathArbConfig, registry: MarketPairRegistry)
      ensures this.config == config && this.registry == registry
      ensures View() == Arb(true, map[], 0, 0.0)
    {
      this.config, this.registry := config, registry;
      enabled, lastTrade, tradeCount, currentExposure := true, map[], 0, 0.0;
    }

    method SetEnabled(enabled: bool)
      modifies this
      ensures View() == old(View()).(enabled := enabled)
    {
      this.enabled := enabled;
    }

    method CheckArbOpportunity(pair: MarketPair, ctx: StrategyContext, now: int, group: string)
      returns (intents: seq<OrderIntent>)
      modifies this
      ensures match Opportunity(config, pair, ctx, old(currentExposure))
              case None => intents == [] && View() == old(View())
              case Some(trade) =>
                && intents == Legs(pair, trade, config.Urgency(), NAME, group, PRIORITY)
                && View() == old(View()).Traded(pair.conditionId, now, trade)
    {
      hide Calculate, QuickCheck, RoundUpToTick, Value, TradeSize, MinByExchange;
      intents := [];
      var yesBook := BookOf(ctx.books, pair.yesTokenId);
      var noBook := BookOf(ctx.books, pair.noTokenId);
      if !yesBook.IsTwoSided() || !noBook.IsTwoSided() {
        return;
      }
      var quick := QuickCheck(config.Edge(), ctx.books, pair.yesTokenId, pair.noTokenId);
      if quick.None? {
        return;
      }
      var (yesRaw, noRaw) := quick.value;

      // Rounding up keeps the limit at or above the ask, but it erodes the edge.
      var yes := RoundUpToTick(yesRaw, pair.tickSize);
      var no := RoundUpToTick(noRaw, pair.tickSize);
      if yes != yesRaw || no != noRaw {
        if yes + no >= 1.0 || 1.0 - (yes + no) < config.minEdge {
          return;
        }
      }

      var edge := Calculate(config.Edge(), yesBook, noBook, pair.feeRateBps, config.limits.minPositionSize);
      if !edge.isProfitable {
        return;
      }
      var size := TradeSize(config.limits, edge.maxSize, currentExposure, ctx.availableCash, yes + no);
      if size < Max(MinByExchange(Min(yes, no)), config.limits.minPositionSize) {
        return;
      }
      var totalNotional := Value(yes + no, size);
      if currentExposure + totalNotional > config.limits.maxTotalExposure {
        return;
      }
      lastTrade := lastTrade[pair.conditionId := now];
      tradeCount := tradeCount + 1;
      currentExposure := currentExposure + totalNotional;
      intents := Legs(pair, Trade(yes, no, size), config.Urgency(), NAME, group, PRIORITY);
    }

    method OnBookUpdate(marketId: ConditionId, tokenId: TokenId, ctx: StrategyContext, now: int, group: string)
      returns (intents: seq<OrderIntent>)
      modifies this
      ensures var pair := if tokenId in registry.byToken then Some(registry.byToken[tokenId]) else None;
              match old(View()).Decided(config, pair, marketId, ctx, now)
              case None => intents == [] && View() == old(View())
              case Some(trade) =>
                && intents == Legs(pair.value, trade, config.Urgency(), NAME, group, PRIORITY)
                && View() == old(View()).Traded(marketId, now, trade)
    {
      hide Opportunity, Legs;
      intents := [];
      if !enabled {
        return;
      }
      var pair := registry.GetByToken(tokenId);
      if pair.None? || pair.value.conditionId != marketId {
        return;
      }
      if OnCooldown(lastTrade, marketId, now, config.cooldownMs) {
        return;
      }
      intents := CheckArbOpportunity(pair.value, ctx, now, group);
    }

    method OnFill(fill: Fill)
      modifies this
      ensures View() == old(View()).Filled(fill)
    {
      match fill.side {
        case Sell =>
          currentExposure := Max(currentExposure - fill.Notional(), 0.0);
        case Buy =>
      }
    }
  }

  // What a trade changes: the market's last trade, the count, and the exposure by both legs' cost.
  lemma TradedExactly(arb: Arb, marketId: ConditionId, now: int, trade: Trade)
    ensures arb.Traded(marketId, now, trade) == Arb(
              arb.enabled, arb.lastTrade[marketId := now], arb.tradeCount + 1,
              arb.exposure + Value(trade.yesPrice, trade.size) + Value(trade.noPrice, trade.size))
  {
    ValueAdds(trade.yesPrice, trade.noPrice, trade.size);
  }

  // ---- one trade, end to end --------------------------------------------------------------------

  // What an opportunity has passed.
  lemma OpportunityIs(config: MathArbConfig, pair: MarketPair, ctx: StrategyContext, exposure: real)
    ensures var opportunity := Opportunity(config, pair, ctx, exposure);
            opportunity.Some? ==>
            var trade := opportunity.value;
            var yes, no := BookOf(ctx.books, pair.yesTokenId), BookOf(ctx.books, pair.noTokenId);
            && yes.BestAsk().Some? && no.BestAsk().Some?
            && trade.yesPrice == RoundUpToTick(yes.BestAsk().value, pair.tickSize)
            && trade.noPrice == RoundUpToTick(no.BestAsk().value, pair.tickSize)
            && trade.yesPrice + trade.noPrice < 1.0
            && (trade.yesPrice != yes.BestAsk().value || trade.noPrice != no.BestAsk().value ==>
                  trade.yesPrice + trade.noPrice <= 1.0 - config.minEdge)
            && Calculate(config.Edge(), yes, no, pair.feeRateBps, config.limits.minPositionSize).isProfitable
            && Sized(config.limits, MinDepth(yes, no), exposure, ctx.availableCash, trade.yesPrice, trade.noPrice)
               == Some(trade.size)
  {
    hide Sized, RoundUpToTick, Fees, EdgeCalculator.Slippage, PartialFillMargin, SpreadPenalty, MinDepth;
  }

  // Exactly which trade a pair offers: both books two-sided and worth it, the asks rounded up to
  // the tick and, if that moved them, still below a dollar and with the minimum edge, and a size.
  lemma OpportunityExactly(
      config: MathArbConfig, pair: MarketPair, ctx: StrategyContext, exposure: real, trade: Trade)
    ensures Opportunity(config, pair, ctx, exposure) == Some(trade) <==>
            var yes, no := BookOf(ctx.books, pair.yesTokenId), BookOf(ctx.books, pair.noTokenId);
            && yes.asks != [] && yes.bids != [] && no.asks != [] && no.bids != []
            && WorthIt(config.useMakerExecution, yes, no, pair.feeRateBps, config.limits.minPositionSize)
            && var yesAsk, noAsk := yes.asks[0].price, no.asks[0].price;
            && trade.yesPrice == RoundUpToTick(yesAsk, pair.tickSize)
            && trade.noPrice == RoundUpToTick(noAsk, pair.tickSize)
            && (trade.yesPrice != yesAsk || trade.noPrice != noAsk ==>
                  trade.yesPrice + trade.noPrice < 1.0 && 1.0 - (trade.yesPrice + trade.noPrice) >= config.minEdge)
            && Sized(config.limits, Min(yes.asks[0].size, no.asks[0].size), exposure, ctx.availableCash,
                     trade.yesPrice, trade.noPrice) == Some(trade.size)
  {
    var yes, no := BookOf(ctx.books, pair.yesTokenId), BookOf(ctx.books, pair.noTokenId);
    if yes.IsTwoSided() && no.IsTwoSided() {
      ProfitableExactly(config.useMakerExecution, yes, no, pair.feeRateBps, config.limits.minPositionSize);
      WorthTheEdge(config.useMakerExecution, yes, no, pair.feeRateBps, config.limits.minPositionSize);
      QuickExactly(config.Edge(), pair, ctx);
      hide Sized, RoundUpToTick, Calculate, WorthIt, QuickCheck, Min;
      assert config.Edge() == if config.useMakerExecution then MAKER else TAKER;
    }
  }

  lemma QuickExactly(edge: EdgeConfig, pair: MarketPair, ctx: StrategyContext)
    requires edge.minEdge > 0.0
    requires BookOf(ctx.books, pair.yesTokenId).asks != [] && BookOf(ctx.books, pair.noTokenId).asks != []
    ensures var yesAsk := BookOf(ctx.books, pair.yesTokenId).asks[0].price;
            var noAsk := BookOf(ctx.books, pair.noTokenId).asks[0].price;
            QuickCheck(edge, ctx.books, pair.yesTokenId, pair.noTokenId)
            == if 1.0 - (yesAsk + noAsk) >= edge.minEdge then Some((yesAsk, noAsk)) else None
  {
  }

  lemma WorthTheEdge(maker: bool, yes: BookSnapshot, no: BookSnapshot, bps: nat, size: real)
    requires yes.IsTwoSided() && no.IsTwoSided()
    ensures (if maker then MAKER else TAKER).minEdge > 0.0
    ensures WorthIt(maker, yes, no, bps, size) ==>
              1.0 - (yes.asks[0].price + no.asks[0].price) >= (if maker then MAKER else TAKER).minEdge
  {
  }

  // Exactly which book updates lead to a trade.
  lemma DecidedExactly(
      arb: Arb, config: MathArbConfig, pair: Option<MarketPair>, marketId: ConditionId, ctx: StrategyContext, now: int,
      trade: Trade)
    ensures arb.Decided(config, pair, marketId, ctx, now) == Some(trade) <==>
            && arb.enabled && pair.Some? && pair.value.conditionId == marketId
            && (marketId in arb.lastTrade && config.cooldownMs > 0 ==>
                  now - arb.lastTrade[marketId] >= config.cooldownMs * 1_000_000)
            && Opportunity(config, pair.value, ctx, arb.exposure) == Some(trade)
  {
    hide Opportunity;
  }

  // The limits of a trade: at the asks or up to a tick above, together below a dollar; a taker's
  // asks pay its fee.
  lemma LimitsAtAsks(config: MathArbConfig, pair: MarketPair, ctx: StrategyContext, exposure: real)
    requires pair.tickSize > 0.0
    ensures var opportunity := Opportunity(config, pair, ctx, exposure);
            opportunity.Some? ==>
            var trade := opportunity.value;
            var yes, no := BookOf(ctx.books, pair.yesTokenId), BookOf(ctx.books, pair.noTokenId);
            && yes.asks != [] && no.asks != []
            && yes.asks[0].price <= trade.yesPrice < yes.asks[0].price + pair.tickSize
            && no.asks[0].price <= trade.noPrice < no.asks[0].price + pair.tickSize
            && OnTick(trade.yesPrice, pair.tickSize) && OnTick(trade.noPrice, pair.tickSize)
            && trade.yesPrice + trade.noPrice < 1.0
            && (!config.useMakerExecution ==>
                  Value(yes.asks[0].price + no.asks[0].price, 1.0 + FeeRate(pair.feeRateBps)) <= 1.0)
            && Sized(config.limits, MinDepth(yes, no), exposure, ctx.availableCash, trade.yesPrice, trade.noPrice)
               == Some(trade.size)
  {
    OpportunityIs(config, pair, ctx, exposure);
    if Opportunity(config, pair, ctx, exposure).Some? {
      var yes, no := BookOf(ctx.books, pair.yesTokenId), BookOf(ctx.books, pair.noTokenId);
      ProfitCoversFees(config.Edge(), yes, no, pair.feeRateBps, config.limits.minPositionSize);
      hide Opportunity, Calculate, FeeRate, Sized, MinDepth, Value;
      RoundingIsTight(yes.asks[0].price, pair.tickSize);
      RoundingIsTight(no.asks[0].price, pair.tickSize);
      hide RoundUpToTick, RoundDownToTick, OnTick;
    }
  }

  // The whole chain, from the books to the orders, in a market on the cent tick with positive
  // asks. The limits lie at the asks or up to a tick above and together below a dollar, and a
  // taker's asks leave room for its fee. The orders carry exactly those limits unless they are
  // posted with an offset of a cent or more, or below zero. They are well formed from an offset of
  // zero up, and cost no more than the bet and the cash below a cent, unless it is up to ten cents
  // below zero.
  lemma ArbSubmission(
      offsetCents: real, config: MathArbConfig, pair: MarketPair, ctx: StrategyContext, exposure: real, group: string)
    requires pair.tickSize == 0.01
    requires BookOf(ctx.books, pair.yesTokenId).asks != [] && BookOf(ctx.books, pair.noTokenId).asks != []
    requires BookOf(ctx.books, pair.yesTokenId).asks[0].price > 0.0
    requires BookOf(ctx.books, pair.noTokenId).asks[0].price > 0.0
    ensures var opportunity := Opportunity(config, pair, ctx, exposure);
            opportunity.Some? ==>
            var trade := opportunity.value;
            var legs := Legs(pair, trade, config.Urgency(), NAME, group, PRIORITY);
            var yes, no := Submitted(offsetCents, legs[0]), Submitted(offsetCents, legs[1]);
            var yesAsk := BookOf(ctx.books, pair.yesTokenId).asks[0].price;
            var noAsk := BookOf(ctx.books, pair.noTokenId).asks[0].price;
            && yesAsk <= trade.yesPrice < yesAsk + 0.01 && noAsk <= trade.noPrice < noAsk + 0.01
            && trade.yesPrice + trade.noPrice < 1.0
            && (!config.useMakerExecution ==> Value(yesAsk + noAsk, 1.0 + FeeRate(pair.feeRateBps)) <= 1.0)
            && (yes.price == trade.yesPrice && no.price == trade.noPrice
                <==> KeepsPrice(offsetCents, config.Urgency()))
            && (KeepsOrRaises(offsetCents, config.Urgency()) ==> WellSubmitted(trade, yes, no))
            && (StaysWithin(offsetCents, config.Urgency()) ==>
                  TotalCost(yes, no) <= Min(ctx.availableCash, config.limits.maxBetUsd))
  {
    LimitsAtAsks(config, pair, ctx, exposure);
    hide Opportunity, Sized, OnTick, Value, FeeRate, Submitted, MinDepth, Legs, MathArbConfig.Urgency;
    hide WellSubmitted, TotalCost, Shift, KeepsPrice, KeepsOrRaises, StaysWithin, WholeCents;
    if Opportunity(config, pair, ctx, exposure).Some? {
      var trade := Opportunity(config, pair, ctx, exposure).value;
      var yes, no := BookOf(ctx.books, pair.yesTokenId), BookOf(ctx.books, pair.noTokenId);
      TradeSubmitted(offsetCents, config.limits, MinDepth(yes, no), exposure, ctx.availableCash, pair, trade,
                     config.Urgency(), NAME, group, PRIORITY);
    }
  }

  // The fee is not looked at again after rounding. Asks on the tick pay it at the limits too, and
  // so does every trade of a strategy whose minimum edge is at least the fee on a dollar less
  // that edge. Others may miss it, by less than two ticks and the fee on them.
  lemma LimitsNearlyPayTheFee(config: MathArbConfig, pair: MarketPair, ctx: StrategyContext, exposure: real)
    requires !config.useMakerExecution && pair.tickSize > 0.0
    ensures var opportunity := Opportunity(config, pair, ctx, exposure);
            opportunity.Some? ==>
            var trade := opportunity.value;
            var limits, fee := trade.yesPrice + trade.noPrice, 1.0 + FeeRate(pair.feeRateBps);
            var yes, no := BookOf(ctx.books, pair.yesTokenId), BookOf(ctx.books, pair.noTokenId);
            && Value(limits, fee) < 1.0 + Value(2.0 * pair.tickSize, fee)
            && (OnTick(yes.BestAsk().value, pair.tickSize) && OnTick(no.BestAsk().value, pair.tickSize) ==>
                  Value(limits, fee) <= 1.0)
            && (Value(config.minEdge, fee) >= FeeRate(pair.feeRateBps) ==> Value(limits, fee) <= 1.0)
  {
    OpportunityIs(config, pair, ctx, exposure);
    if Opportunity(config, pair, ctx, exposure).Some? {
      var trade := Opportunity(config, pair, ctx, exposure).value;
      var yes, no := BookOf(ctx.books, pair.yesTokenId), BookOf(ctx.books, pair.noTokenId);
      ProfitCoversFees(config.Edge(), yes, no, pair.feeRateBps, config.limits.minPositionSize);
      RoundingIsTight(yes.BestAsk().value, pair.tickSize);
      RoundingIsTight(no.BestAsk().value, pair.tickSize);
      hide Opportunity, RoundUpToTick, RoundDownToTick, OnTick, Calculate, Value;
      var fee := 1.0 + FeeRate(pair.feeRateBps);
      var raw, limits := Combined(yes, no), trade.yesPrice + trade.noPrice;
      assert fee >= 1.0;
      ValueSubtracts(raw + 2.0 * pair.tickSize, limits, fee);
      ValueAdds(raw, 2.0 * pair.tickSize, fee);
      PositiveProduct(raw + 2.0 * pair.tickSize - limits, fee);
      if limits <= 1.0 - config.minEdge {
        EdgePaysTheFee(limits, config.minEdge, fee);
      }
    }
  }

  lemma EdgePaysTheFee(limits: real, minEdge: real, fee: real)
    requires limits <= 1.0 - minEdge && fee >= 0.0
    ensures Value(minEdge, fee) >= fee - 1.0 ==> Value(limits, fee) <= 1.0
  {
    ValueSubtracts(1.0, limits + minEdge, fee);
    ValueAdds(limits, minEdge, fee);
    hide Value;
    Product(1.0 - limits - minEdge, fee);
  }

  lemma PositiveProduct(a: real, b: real)
    requires a > 0.0 && b > 0.0
    ensures Value(a, b) > 0.0
  {
  }

  // ---- exactly when the limits pay the fee --------------------------------------------------------

  // Whether n cents and the fee on them are at most a dollar, and the first n that is not, of
  // those that two positive prices can add up to.
  predicate Pays(n: int, bps: nat) {
    Value(Cents(n), 1.0 + FeeRate(bps)) <= 1.0
  }

  function FirstUnpaid(bps: nat): int {
    var n := (100.0 / (1.0 + FeeRate(bps))).Floor + 1;
    if n < 2 then 2 else n
  }

  lemma PaysBelow(n: int, bps: nat)
    ensures Pays(n, bps) <==> n < (100.0 / (1.0 + FeeRate(bps))).Floor + 1
  {
    var fee := 1.0 + FeeRate(bps);
    assert fee > 0.0;
    QuotientValue(100.0, fee);
    ValueOrder(fee, n as real, 100.0 / fee);
    assert Value(Cents(n), fee) == Value(fee, n as real) / 100.0;
    hide Value, FeeRate;
    assert n as real <= 100.0 / fee <==> n <= (100.0 / fee).Floor;
  }

  predicate PositiveAsks(pair: MarketPair, ctx: StrategyContext) {
    var yes, no := BookOf(ctx.books, pair.yesTokenId), BookOf(ctx.books, pair.noTokenId);
    (yes.asks != [] ==> yes.asks[0].price > 0.0) && (no.asks != [] ==> no.asks[0].price > 0.0)
  }

  // Every trade a taker with this minimum edge makes on the cent tick pays the fee at its limits.
  ghost predicate LimitsAlwaysPay(minEdge: real, bps: nat) {
    forall config: MathArbConfig, pair: MarketPair, ctx, exposure ::
      && config.minEdge == minEdge && !config.useMakerExecution
      && pair.tickSize == 0.01 && pair.feeRateBps == bps && PositiveAsks(pair, ctx)
      && Opportunity(config, pair, ctx, exposure).Some? ==>
        var trade := Opportunity(config, pair, ctx, exposure).value;
        Value(trade.yesPrice + trade.noPrice, 1.0 + FeeRate(bps)) <= 1.0
  }

  // Two limits in cents that are the asks themselves, or leave the minimum edge.
  lemma CentLimitsPay(minEdge: real, bps: nat, limits: real, raw: real, n: int)
    requires Cents(FirstUnpaid(bps)) > Min(0.98, 1.0 - minEdge)
    requires limits == Cents(n) && 2 <= n < 100 && limits < raw + 0.02
    requires raw <= 0.97 && Value(raw, 1.0 + FeeRate(bps)) <= 1.0
    requires limits == raw || limits <= 1.0 - minEdge
    ensures Value(limits, 1.0 + FeeRate(bps)) <= 1.0
  {
    PaysBelow(n, bps);
    CentsOrder(FirstUnpaid(bps), n);
    hide Value, FeeRate;
  }

  lemma TradePays(config: MathArbConfig, pair: MarketPair, ctx: StrategyContext, exposure: real)
    requires !config.useMakerExecution && pair.tickSize == 0.01 && PositiveAsks(pair, ctx)
    requires Cents(FirstUnpaid(pair.feeRateBps)) > Min(0.98, 1.0 - config.minEdge)
    ensures var opportunity := Opportunity(config, pair, ctx, exposure);
            opportunity.Some? ==>
              Value(opportunity.value.yesPrice + opportunity.value.noPrice, 1.0 + FeeRate(pair.feeRateBps)) <= 1.0
  {
    OpportunityIs(config, pair, ctx, exposure);
    hide Value, FeeRate, Calculate, Sized, Opportunity, RoundUpToTick, RoundDownToTick, OnTick, FirstUnpaid;
    if Opportunity(config, pair, ctx, exposure).Some? {
      var trade := Opportunity(config, pair, ctx, exposure).value;
      var yes, no := BookOf(ctx.books, pair.yesTokenId), BookOf(ctx.books, pair.noTokenId);
      ProfitCoversFees(config.Edge(), yes, no, pair.feeRateBps, config.limits.minPositionSize);
      RoundingIsTight(yes.BestAsk().value, 0.01);
      RoundingIsTight(no.BestAsk().value, 0.01);
      var a := PositiveCents(trade.yesPrice);
      var b := PositiveCents(trade.noPrice);
      CentsAdd(a, b);
      CentsOrder(a + b, 0);
      assert a + b < 100;
      CentLimitsPay(config.minEdge, pair.feeRateBps, trade.yesPrice + trade.noPrice, Combined(yes, no), a + b);
    }
  }

  lemma PositiveCents(price: real) returns (n: int)
    requires price > 0.0 && OnTick(price, 0.01)
    ensures n >= 1 && price == Cents(n)
  {
    n :| price == Ticks(0.01, n);
    TickIsCent(n);
  }

  // A book whose ask rounds up by d to n cents, and limits that leave room for a hundred shares.
  function SubTickBook(n: int, d: real): BookSnapshot {
    var ask := Cents(n) - d;
    BookSnapshot([PriceLevel(ask * 0.95, 1000.0)], [PriceLevel(ask, 1000.0)])
  }

  const AMPLE_LIMITS := Limits(1000.0, 1.0, 1000.0, 4000.0)

  lemma RoundsUpTo(n: int, d: real)
    requires 0.0 < d < 0.01
    ensures RoundUpToTick(Cents(n) - d, 0.01) == Cents(n)
  {
    TickIsCent(n);
    assert (Cents(n) - d) / 0.01 == n as real - d * 100.0;
    assert Ceil(n as real - d * 100.0) == n;
  }

  lemma HundredSharesFit(a: int, b: int)
    requires a >= 1 && b >= 1 && a + b <= 98
    ensures Sized(AMPLE_LIMITS, 1000.0, 0.0, 1000.0, Cents(a), Cents(b)).Some?
  {
    var cheaper, hundred := Min(Cents(a), Cents(b)), Cents(10000);
    CentsAdd(a, b);
    SizedIsLargest(AMPLE_LIMITS, 1000.0, 0.0, 1000.0, Cents(a), Cents(b));
    assert hundred == 100.0 && hundred.Floor == 100;
    assert Value(cheaper, 100.0) >= 1.0;
    assert Value(Cents(a) + Cents(b), 100.0) <= 98.0;
    hide Sized, Value;
    assert Fits(AMPLE_LIMITS, 1000.0, 0.0, 1000.0, Cents(a) + Cents(b), hundred);
    assert Suffices(AMPLE_LIMITS, cheaper, hundred);
  }

  // Two sub-tick asks that pay the fee and round up to a and b cents make a trade.
  lemma SubTickTrade(minEdge: real, pair: MarketPair, a: int, b: int, d: real)
    requires pair.yesTokenId != pair.noTokenId && pair.tickSize == 0.01
    requires a >= 1 && b >= 1 && a + b <= 98 && 0.0 < d < 0.01
    requires Cents(a + b) <= 1.0 - minEdge
    requires Cents(a + b) - 2.0 * d <= 0.97
    requires Value(Cents(a + b) - 2.0 * d, 1.0 + FeeRate(pair.feeRateBps)) <= 1.0
    ensures var books := map[pair.yesTokenId := SubTickBook(a, d), pair.noTokenId := SubTickBook(b, d)];
            var ctx := StrategyContext(books, map[], 1000.0);
            var opportunity := Opportunity(MathArbConfig(minEdge, AMPLE_LIMITS, 0, false), pair, ctx, 0.0);
            && PositiveAsks(pair, ctx)
            && opportunity.Some?
            && opportunity.value.yesPrice + opportunity.value.noPrice == Cents(a + b)
  {
    CentsAdd(a, b);
    var yes, no := SubTickBook(a, d), SubTickBook(b, d);
    RoundsUpTo(a, d);
    RoundsUpTo(b, d);
    HundredSharesFit(a, b);
    SubTickProfit(yes, no, pair.feeRateBps);
    hide Sized, RoundUpToTick, Calculate, Value, FeeRate;
  }

  lemma SubTickProfit(yes: BookSnapshot, no: BookSnapshot, bps: nat)
    requires yes.IsTwoSided() && no.IsTwoSided() && yes.asks[0].size == no.asks[0].size == 1000.0
    requires yes.Spread().value <= 0.05 && no.Spread().value <= 0.05
    requires Combined(yes, no) <= 0.97 && Value(Combined(yes, no), 1.0 + FeeRate(bps)) <= 1.0
    ensures Calculate(TAKER, yes, no, bps, 1.0).isProfitable
    ensures Calculate(TAKER, yes, no, bps, 1.0).maxSize == 1000.0
  {
    WithFee(FeeRate(bps), Combined(yes, no));
    hide Value, FeeRate;
  }

  // For every fee and minimum edge at which the limits may miss the fee: the first cents that
  // miss it, as the limits of asks that pay it.
  lemma SomeTradeMisses(minEdge: real, pair: MarketPair) returns (a: int, b: int, d: real)
    requires pair.yesTokenId != pair.noTokenId && pair.tickSize == 0.01
    requires Cents(FirstUnpaid(pair.feeRateBps)) <= Min(0.98, 1.0 - minEdge)
    ensures 0.0 < d < 0.01
    ensures var books := map[pair.yesTokenId := SubTickBook(a, d), pair.noTokenId := SubTickBook(b, d)];
            var ctx := StrategyContext(books, map[], 1000.0);
            var opportunity := Opportunity(MathArbConfig(minEdge, AMPLE_LIMITS, 0, false), pair, ctx, 0.0);
            && PositiveAsks(pair, ctx)
            && opportunity.Some?
            && Value(opportunity.value.yesPrice + opportunity.value.noPrice, 1.0 + FeeRate(pair.feeRateBps)) > 1.0
  {
    var bps := pair.feeRateBps;
    var n := FirstUnpaid(bps);
    a, b := 1, n - 1;
    PaysBelow(n, bps);
    PaysBelow(n - 1, bps);
    if Pays(n - 1, bps) {
      d := 0.005;
      assert Cents(n) - 2.0 * d == Cents(n - 1);
    } else {
      assert n == 2;
      var fee := 1.0 + FeeRate(bps);
      d := 0.01 - 0.25 / fee;
      HalfPays(fee);
    }
    hide Opportunity, SubTickBook, Value, FeeRate;
    SubTickTrade(minEdge, pair, a, b, d);
  }

  lemma HalfPays(fee: real)
    requires Value(Cents(1), fee) > 1.0
    ensures 0.0 < 0.25 / fee < 0.01
    ensures Value(Cents(2) - 2.0 * (0.01 - 0.25 / fee), fee) <= 1.0
    ensures Cents(2) - 2.0 * (0.01 - 0.25 / fee) <= 0.97
  {
    assert fee > 100.0;
    assert 0.25 / fee * fee == 0.25;
  }

  // The limits always pay the fee if and only if the first cents that do not are above 98, where
  // the asks would miss the taker's edge of three, or leave less than the minimum edge.
  lemma LimitsPayExactly(minEdge: real, bps: nat)
    ensures LimitsAlwaysPay(minEdge, bps) <==> Cents(FirstUnpaid(bps)) > Min(0.98, 1.0 - minEdge)
  {
    hide FirstUnpaid, Opportunity, Value, FeeRate, PositiveAsks;
    if Cents(FirstUnpaid(bps)) > Min(0.98, 1.0 - minEdge) {
      forall config: MathArbConfig, pair: MarketPair, ctx, exposure |
        && config.minEdge == minEdge && !config.useMakerExecution
        && pair.tickSize == 0.01 && pair.feeRateBps == bps && PositiveAsks(pair, ctx)
        && Opportunity(config, pair, ctx, exposure).Some?
        ensures var trade := Opportunity(config, pair, ctx, exposure).value;
                Value(trade.yesPrice + trade.noPrice, 1.0 + FeeRate(bps)) <= 1.0
      {
        TradePays(config, pair, ctx, exposure);
      }
    } else {
      var a, b, d := SomeTradeMisses(minEdge, MarketPair("market", "yes", "no", bps, 0.01));
    }
  }

  lemma FirstUnpaidAt()
    ensures FirstUnpaid(0) == 101
    ensures FirstUnpaid(1000) == 91
  {
  }

  // At the default edge of three cents the limits always pay in markets without a fee, and not
  // in those that charge ten percent, where 91 cents are the first to miss it.
  lemma DefaultsAndTheFee()
    ensures LimitsAlwaysPay(0.03, 0)
    ensures !LimitsAlwaysPay(0.03, 1000)
  {
    hide LimitsAlwaysPay, FirstUnpaid;
    FirstUnpaidAt();
    LimitsPayExactly(0.03, 0);
    LimitsPayExactly(0.03, 1000);
  }

  // ---- runs -----------------------------------------------------------------------------------------

  datatype Event =
    | BookUpdate(pair: Option<MarketPair>, marketId: ConditionId, ctx: StrategyContext, now: int)
    | Fills(fill: Fill)
    | Switch(on: bool)

  datatype Posting = Posting(marketId: ConditionId, at: int, notional: real)

  // The strategy, every trade it made, and the notional it saw sold.
  datatype Run = Run(arb: Arb, postings: seq<Posting>, sold: real)

  function Stepped(config: MathArbConfig, run: Run, event: Event): Run {
    match event
    case BookUpdate(pair, marketId, ctx, now) =>
      var trade := run.arb.Decided(config, pair, marketId, ctx, now);
      if trade.None? then run
      else Run(run.arb.Traded(marketId, now, trade.value),
               run.postings + [Posting(marketId, now, trade.value.Notional())],
               run.sold)
    case Fills(fill) =>
      Run(run.arb.Filled(fill), run.postings, if fill.side == Sell then run.sold + fill.Notional() else run.sold)
    case Switch(on) => run.(arb := run.arb.(enabled := on))
  }

  function RunAll(config: MathArbConfig, events: seq<Event>): Run {
    if events == [] then Run(Arb(true, map[], 0, 0.0), [], 0.0)
    else Stepped(config, RunAll(config, events[..|events| - 1]), events[|events| - 1])
  }

  function Spent(postings: seq<Posting>): real {
    if postings == [] then 0.0 else Spent(postings[..|postings| - 1]) + postings[|postings| - 1].notional
  }

  predicate SaneFill(event: Event) {
    event.Fills? && event.fill.side == Sell ==> event.fill.Notional() >= 0.0
  }

  predicate WithinBudget(limits: Limits, run: Run) {
    && 0.0 <= run.arb.exposure <= limits.maxTotalExposure
    && (limits.maxTotalExposure > 0.0 ==> run.arb.exposure < limits.maxTotalExposure)
    && run.sold >= 0.0
    && Spent(run.postings) - run.sold <= run.arb.exposure
    && (run.sold == 0.0 ==> Spent(run.postings) == run.arb.exposure)
  }

  lemma TradeStaysWithin(config: MathArbConfig, pair: MarketPair, ctx: StrategyContext, exposure: real)
    requires Opportunity(config, pair, ctx, exposure).Some?
    ensures var notional := Opportunity(config, pair, ctx, exposure).value.Notional();
            exposure < exposure + notional < config.limits.maxTotalExposure
  {
    OpportunityIs(config, pair, ctx, exposure);
    var trade := Opportunity(config, pair, ctx, exposure).value;
    var depth := MinDepth(BookOf(ctx.books, pair.yesTokenId), BookOf(ctx.books, pair.noTokenId));
    SizedKeepsLimits(config.limits, depth, exposure, ctx.availableCash, trade.yesPrice, trade.noPrice);
    hide Value, Opportunity, Sized, RoundUpToTick, Calculate;
    Scaled(trade.yesPrice + trade.noPrice, trade.size);
  }

  // The exposure budget. Over any run it is neither overdrawn nor ever fully used, all that was
  // ever posted is below the budget plus what was sold, and without sales the exposure is
  // exactly what was posted.
  lemma {:induction false} BudgetIsKept(config: MathArbConfig, events: seq<Event>)
    requires config.limits.maxTotalExposure >= 0.0
    requires forall e :: e in events ==> SaneFill(e)
    ensures WithinBudget(config.limits, RunAll(config, events))
  {
    if events != [] {
      var n := |events| - 1;
      BudgetIsKept(config, events[..n]);
      assert SaneFill(events[n]);
      var run := RunAll(config, events[..n]);
      match events[n]
      case BookUpdate(pair, marketId, ctx, now) =>
        var trade := run.arb.Decided(config, pair, marketId, ctx, now);
        if trade.Some? {
          TradeStaysWithin(config, pair.value, ctx, run.arb.exposure);
          PostingAdds(run.postings, Posting(marketId, now, trade.value.Notional()));
          hide Opportunity;
        }
      case Fills(fill) => hide Opportunity;
      case Switch(on) =>
    }
  }

  lemma PostingAdds(postings: seq<Posting>, posting: Posting)
    ensures Spent(postings + [posting]) == Spent(postings) + posting.notional
  {
    assert (postings + [posting])[..|postings|] == postings;
  }

  // Posted less sold, and the most that sales ever ran ahead of postings.
  function Net(run: Run): real {
    Spent(run.postings) - run.sold
  }

  function Ahead(config: MathArbConfig, events: seq<Event>): real {
    if events == [] then 0.0
    else Max(Ahead(config, events[..|events| - 1]), -Net(RunAll(config, events)))
  }

  // The exposure exactly: what was posted less what was sold, except that sales beyond what was
  // ever posted free nothing.
  lemma {:induction false} ExposureIs(config: MathArbConfig, events: seq<Event>)
    requires forall e :: e in events ==> SaneFill(e)
    ensures RunAll(config, events).arb.exposure == Net(RunAll(config, events)) + Ahead(config, events)
    ensures RunAll(config, events).arb.exposure >= 0.0
  {
    if events != [] {
      var n := |events| - 1;
      ExposureIs(config, events[..n]);
      assert SaneFill(events[n]);
      var run := RunAll(config, events[..n]);
      hide Opportunity;
      match events[n]
      case BookUpdate(pair, marketId, ctx, now) =>
        var trade := run.arb.Decided(config, pair, marketId, ctx, now);
        if trade.Some? {
          TradeStaysWithin(config, pair.value, ctx, run.arb.exposure);
          PostingAdds(run.postings, Posting(marketId, now, trade.value.Notional()));
        }
      case Fills(fill) =>
      case Switch(on) =>
    }
  }

  ghost predicate Paced(config: MathArbConfig, run: Run) {
    && run.arb.tradeCount == |run.postings|
    && (forall p :: p in run.postings ==>
          p.marketId in run.arb.lastTrade && p.at <= run.arb.lastTrade[p.marketId])
    && (forall i, j :: 0 <= i < j < |run.postings| && run.postings[i].marketId == run.postings[j].marketId ==>
          run.postings[j].at - run.postings[i].at >= config.cooldownMs * MILLISECOND)
  }

  // Two trades in a market are never closer than the cooldown, whatever order the updates of
  // different markets come in.
  lemma {:induction false} TradesArePaced(config: MathArbConfig, events: seq<Event>)
    requires config.cooldownMs > 0
    ensures Paced(config, RunAll(config, events))
  {
    hide Opportunity;
    if events != [] {
      var n := |events| - 1;
      TradesArePaced(config, events[..n]);
      var run := RunAll(config, events[..n]);
      match events[n]
      case BookUpdate(pair, marketId, ctx, now) =>
        if run.arb.Decided(config, pair, marketId, ctx, now).Some? {
          assert marketId in run.arb.lastTrade ==>
              now - run.arb.lastTrade[marketId] >= config.cooldownMs * MILLISECOND;
        }
      case Fills(fill) =>
      case Switch(on) =>
    }
  }
}
