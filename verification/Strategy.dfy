// What strategies hand to the execution layer (src/strategy/traits.rs).
module Strategies {
  import opened Base
  import opened OrderBook
  import opened Positions

  datatype Urgency = Immediate | Normal | Passive

  // An intent says what to trade, not how: the policy turns it into an order.
  datatype OrderIntent = OrderIntent(
    marketId: ConditionId,
    tokenId: TokenId,
    side: Side,
    price: real,
    size: real,
    urgency: Urgency,
    strategyName: string,
    groupId: Option<string>,
    priority: nat,
    tickSize: real)
  {
    predicate IsGrouped() {
      groupId.Some?
    }

    function WithGroup(group: string): OrderIntent {
      this.(groupId := Some(group))
    }

    function WithPriority(p: nat): OrderIntent {
      this.(priority := p)
    }

    function WithTickSize(tick: real): OrderIntent {
      this.(tickSize := tick)
    }
  }

  // Ungrouped, of middle priority, with a price that is not rounded to a tick.
  function NewIntent(
      marketId: ConditionId, tokenId: TokenId, side: Side, price: real, size: real, urgency: Urgency,
      strategyName: string): OrderIntent
  {
    OrderIntent(marketId, tokenId, side, price, size, urgency, strategyName, None, 50, 0.0)
  }

  // What a strategy sees when it is called.
  datatype StrategyContext = StrategyContext(
    books: map<TokenId, BookSnapshot>,
    positions: map<TokenId, Position>,
    availableCash: real)

  // Instants are whole nanoseconds; the time since one that lies ahead is zero.
  const MILLISECOND := 1_000_000
  const SECOND := 1_000_000_000

  function Elapsed(since: int, now: int): nat {
    if now > since then now - since else 0
  }

  function OnCooldown(lastTrade: map<ConditionId, int>, marketId: ConditionId, now: int, cooldownMs: nat): bool {
    marketId in lastTrade && Elapsed(lastTrade[marketId], now) / MILLISECOND < cooldownMs
  }
}
