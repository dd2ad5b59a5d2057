// Execution policies (src/execution/policy.rs): from an intent to the order that is submitted,
// with its price on the market's tick.
module OrderPolicy {
  import opened Base
  import opened Strategies

  function Ceil(x: real): int {
    -(-x).Floor
  }

  // A price in ticks, and a number of ticks as a price.
  function InTicks(price: real, tick: real): real
    requires tick != 0.0
  {
    price / tick
  }

  function Ticks(tick: real, n: int): real {
    Value(tick, n as real)
  }

  function RoundUpToTick(price: real, tick: real): real {
    if tick == 0.0 then price else Ticks(tick, Ceil(InTicks(price, tick)))
  }

  function RoundDownToTick(price: real, tick: real): real {
    if tick == 0.0 then price else Ticks(tick, InTicks(price, tick).Floor)
  }

  datatype OrderType = FAK | GTC | FOK

  datatype OrderParams = OrderParams(tokenId: TokenId, side: Side, price: real, size: real, orderType: OrderType)

  function TakerParams(intent: OrderIntent): OrderParams {
    OrderParams(intent.tokenId, intent.side, RoundUpToTick(intent.price, intent.tickSize), intent.size,
                if intent.urgency == Immediate then FOK else FAK)
  }

  // Posts inside the spread by an offset in cents.
  function OffsetPrice(offsetCents: real, price: real, side: Side, tick: real): real {
    if side == Buy then RoundDownToTick(price + offsetCents / 100.0, tick)
    else RoundUpToTick(price - offsetCents / 100.0, tick)
  }

  function MakerParams(offsetCents: real, intent: OrderIntent): OrderParams {
    OrderParams(intent.tokenId, intent.side, OffsetPrice(offsetCents, intent.price, intent.side, intent.tickSize),
                intent.size, GTC)
  }

  // Passive intents are posted, all others take.
  function DualParams(offsetCents: real, intent: OrderIntent): OrderParams {
    if intent.urgency == Passive then MakerParams(offsetCents, intent) else TakerParams(intent)
  }

  // ---- rounding -------------------------------------------------------------------------------

  ghost predicate OnTick(price: real, tick: real) {
    exists n: int :: price == Ticks(tick, n)
  }

  lemma TickOrder(tick: real, a: real, b: real)
    requires tick > 0.0
    ensures Value(tick, a) <= Value(tick, b) <==> a <= b
    ensures Value(tick, a) < Value(tick, b) <==> a < b
  {
    var d := b - a;
    assert tick * d == Value(tick, b) - Value(tick, a);
    assert d >= 0.0 ==> tick * d >= 0.0;
    assert d > 0.0 ==> tick * d > 0.0;
    assert d < 0.0 ==> tick * d < 0.0;
  }

  lemma TickQuotient(price: real, tick: real)
    requires tick != 0.0
    ensures Value(tick, InTicks(price, tick)) == price
    ensures Value(tick, InTicks(price, tick) + 1.0) == price + tick
    ensures Value(tick, InTicks(price, tick) - 1.0) == price - tick
  {
    assert tick * (price / tick) == price;
  }

  lemma CeilFloor(x: real)
    ensures x <= Ceil(x) as real < x + 1.0
    ensures x - 1.0 < x.Floor as real <= x
    ensures x == x.Floor as real ==> Ceil(x) == x.Floor
  {
  }

  lemma RoundUpIsTight(price: real, tick: real)
    requires tick > 0.0
    ensures price <= RoundUpToTick(price, tick) < price + tick
  {
    TickQuotient(price, tick);
    hide Value, InTicks, Ceil;
    var x := InTicks(price, tick);
    CeilFloor(x);
    TickOrder(tick, x, Ceil(x) as real);
    TickOrder(tick, Ceil(x) as real, x + 1.0);
  }

  lemma RoundDownIsTight(price: real, tick: real)
    requires tick > 0.0
    ensures price - tick < RoundDownToTick(price, tick) <= price
  {
    TickQuotient(price, tick);
    hide Value, InTicks, Ceil;
    var x := InTicks(price, tick);
    CeilFloor(x);
    TickOrder(tick, x.Floor as real, x);
    TickOrder(tick, x - 1.0, x.Floor as real);
  }

  lemma RoundingKeepsTicks(n: int, tick: real)
    requires tick > 0.0
    ensures RoundUpToTick(Ticks(tick, n), tick) == Ticks(tick, n) == RoundDownToTick(Ticks(tick, n), tick)
  {
    TickQuotient(Ticks(tick, n), tick);
    hide Value, InTicks, Ceil;
    var x := InTicks(Ticks(tick, n), tick);
    TickOrder(tick, x, n as real);
    TickOrder(tick, n as real, x);
    CeilFloor(x);
  }

  // Rounding moves a price by less than a tick, never to the wrong side, and not at all if it
  // is on a tick already.
  lemma RoundingIsTight(price: real, tick: real)
    requires tick > 0.0
    ensures price <= RoundUpToTick(price, tick) < price + tick && OnTick(RoundUpToTick(price, tick), tick)
    ensures price - tick < RoundDownToTick(price, tick) <= price && OnTick(RoundDownToTick(price, tick), tick)
    ensures OnTick(price, tick) ==> RoundUpToTick(price, tick) == price == RoundDownToTick(price, tick)
  {
    RoundUpIsTight(price, tick);
    RoundDownIsTight(price, tick);
    hide Value, InTicks, Ceil, Ticks;
    if OnTick(price, tick) {
      var n :| price == Ticks(tick, n);
      RoundingKeepsTicks(n, tick);
    }
  }

  // A number of whole ticks moves through the rounding unchanged.
  lemma RoundingShifts(n: int, x: real, tick: real)
    requires tick > 0.0
    ensures RoundDownToTick(Ticks(tick, n) + x, tick) == Ticks(tick, n) + RoundDownToTick(x, tick)
    ensures RoundUpToTick(Ticks(tick, n) - x, tick) == Ticks(tick, n) - RoundDownToTick(x, tick)
  {
    var y := InTicks(x, tick);
    TicksAdd(tick, n, y.Floor);
    TicksAdd(tick, n, -y.Floor);
    InTicksAdd(tick, n, x);
    hide Value, InTicks, Ticks;
    assert (n as real + y).Floor == n + y.Floor;
    assert -(n as real - y) == (-n) as real + y;
    assert ((-n) as real + y).Floor == -n + y.Floor;
  }

  lemma TicksAdd(tick: real, a: int, b: int)
    ensures Ticks(tick, a + b) == Ticks(tick, a) + Ticks(tick, b)
    ensures Ticks(tick, -b) == -Ticks(tick, b)
  {
    assert (a + b) as real == a as real + b as real;
  }

  lemma InTicksAdd(tick: real, n: int, x: real)
    requires tick != 0.0
    ensures InTicks(Ticks(tick, n) + x, tick) == n as real + InTicks(x, tick)
    ensures InTicks(Ticks(tick, n) - x, tick) == n as real - InTicks(x, tick)
  {
    assert tick * n as real / tick == n as real;
  }

  lemma NoWholeTick(x: real, tick: real)
    requires tick > 0.0
    ensures RoundDownToTick(x, tick) == 0.0 <==> 0.0 <= x < tick
    ensures x >= 0.0 <==> RoundDownToTick(x, tick) >= 0.0
  {
    var y := InTicks(x, tick);
    TickQuotient(x, tick);
    TickOrder(tick, 0.0, y);
    TickOrder(tick, y, 1.0);
    TickOrder(tick, 0.0, y.Floor as real);
    TickOrder(tick, y.Floor as real, 0.0);
    assert Value(tick, 0.0) == 0.0 && Value(tick, 1.0) == tick;
    hide Value, InTicks;
  }

  // On the tick, a maker's offset moves the price by the whole ticks in it, towards the other
  // side of the book.
  lemma OffsetMovesWholeTicks(offsetCents: real, intent: OrderIntent)
    requires intent.tickSize > 0.0 && OnTick(intent.price, intent.tickSize)
    ensures var shift := RoundDownToTick(offsetCents / 100.0, intent.tickSize);
            MakerParams(offsetCents, intent).price ==
            if intent.side == Buy then intent.price + shift else intent.price - shift
    ensures OnTick(MakerParams(offsetCents, intent).price, intent.tickSize)
  {
    var n :| intent.price == Ticks(intent.tickSize, n);
    RoundingShifts(n, offsetCents / 100.0, intent.tickSize);
    RoundingIsTight(intent.price + offsetCents / 100.0, intent.tickSize);
    RoundingIsTight(intent.price - offsetCents / 100.0, intent.tickSize);
  }

  // Which side each policy errs on, for purchases. A taker buys at its price or up to a tick
  // above. A maker, whatever its offset, posts within a tick below the offset price, so a price
  // improvement of less than a tick is lost; it keeps the intent's price exactly if that is on
  // the tick and the offset is not negative and smaller than the tick.
  lemma PoliciesKeepTheirSide(offsetCents: real, intent: OrderIntent)
    requires intent.side == Buy && intent.tickSize > 0.0
    ensures intent.price <= TakerParams(intent).price < intent.price + intent.tickSize
    ensures var target := intent.price + offsetCents / 100.0;
            target - intent.tickSize < MakerParams(offsetCents, intent).price <= target
    ensures DualParams(offsetCents, intent).price == intent.price <==>
            OnTick(intent.price, intent.tickSize)
            && (intent.urgency == Passive ==> 0.0 <= offsetCents / 100.0 < intent.tickSize)
    ensures DualParams(offsetCents, intent).size == intent.size
  {
    var tick := intent.tickSize;
    RoundingIsTight(intent.price, tick);
    RoundingIsTight(intent.price + offsetCents / 100.0, tick);
    NoWholeTick(offsetCents / 100.0, tick);
    hide RoundUpToTick, RoundDownToTick, OnTick;
    if OnTick(intent.price, tick) {
      OffsetMovesWholeTicks(offsetCents, intent);
    }
  }

  lemma FloorBelow(x: real, gap: real, tick: real)
    requires tick > 0.0
    ensures RoundDownToTick(x, tick) < gap <==> x < RoundUpToTick(gap, tick)
  {
    var y, z := InTicks(x, tick), InTicks(gap, tick);
    TickQuotient(x, tick);
    TickQuotient(gap, tick);
    TickOrder(tick, y.Floor as real, z);
    TickOrder(tick, y, Ceil(z) as real);
    CeilFloor(z);
    hide Value, InTicks, Ceil;
    assert y.Floor as real < z ==> y.Floor < Ceil(z);
    assert y < Ceil(z) as real ==> y.Floor < Ceil(z);
  }

  // Where a posted purchase rests: it stays below an ask exactly if the offset is smaller than
  // the gap between them, rounded up to the tick. So half a cent, the configured default, keeps
  // a post on the cent tick below every ask it was below, and a whole cent moves one that was a
  // tick below the ask onto it.
  lemma RestsBelowAsk(offsetCents: real, intent: OrderIntent, ask: real)
    requires intent.side == Buy && intent.urgency == Passive
    requires intent.tickSize > 0.0 && OnTick(intent.price, intent.tickSize)
    ensures DualParams(offsetCents, intent).price < ask <==>
            offsetCents / 100.0 < RoundUpToTick(ask - intent.price, intent.tickSize)
  {
    OffsetMovesWholeTicks(offsetCents, intent);
    hide RoundDownToTick, RoundUpToTick, OnTick;
    FloorBelow(offsetCents / 100.0, ask - intent.price, intent.tickSize);
  }

  lemma WholeCentOffsetMeetsTheAsk(intent: OrderIntent)
    requires intent.side == Buy && intent.urgency == Passive && intent.tickSize == 0.01 && intent.price == 0.47
    ensures DualParams(0.5, intent).price == 0.47
    ensures DualParams(1.0, intent).price == 0.48
  {
    assert OnTick(0.47, 0.01) by { assert 0.47 == Ticks(0.01, 47); }
    PoliciesKeepTheirSide(0.5, intent);
    OffsetMovesWholeTicks(1.0, intent);
    assert (1.0 / 100.0 / 0.01).Floor == 1;
  }

  // Rounding up is meant for purchases, but a taker's sale is rounded up as well: it never
  // sells lower than intended, and still crosses the bid it was meant for exactly if that is
  // on the tick.
  lemma TakerSaleMayNotCross(intent: OrderIntent)
    requires intent.side == Sell && intent.tickSize > 0.0
    ensures TakerParams(intent).price >= intent.price
    ensures TakerParams(intent).price <= intent.price <==> OnTick(intent.price, intent.tickSize)
  {
    RoundingIsTight(intent.price, intent.tickSize);
    hide RoundUpToTick, RoundDownToTick, OnTick;
  }

  // A sale at a best bid of 47.5 cents, with the tick of its market, is offered at 48.
  lemma TakerSaleMisses(intent: OrderIntent)
    requires intent.side == Sell && intent.tickSize == 0.01 && intent.price == 0.475
    ensures TakerParams(intent).price == 0.48 > intent.price
  {
    assert Ceil(0.475 / 0.01) == 48;
  }

  // A maker's sale, whatever the offset, is posted on the tick within a tick above the offset price.
  lemma MakerSaleIs(offsetCents: real, intent: OrderIntent)
    requires intent.side == Sell && intent.urgency == Passive && intent.tickSize > 0.0
    ensures var order := DualParams(offsetCents, intent);
            var target := intent.price - offsetCents / 100.0;
            target <= order.price < target + intent.tickSize && OnTick(order.price, intent.tickSize)
  {
    RoundingIsTight(intent.price - offsetCents / 100.0, intent.tickSize);
  }
}
