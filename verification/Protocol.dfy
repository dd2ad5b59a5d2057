// The reserve-on-ack order protocol: cash is reserved when the exchange acknowledges a buy
// order, spent as it fills at its limit price, and released when the exchange cancels it
// (src/ledger/cash.rs, src/ledger/orders.rs, src/ledger/mod.rs).
//
// A fill of the protocol updates the order as well as the ledger: process_fill alone never
// touches the order store.
module Protocol {
  import opened Base
  import opened Positions
  import opened Orders
  import opened Ledgers
  import opened Equity
  import Sums

  datatype Step =
    | Place(localId: LocalId, tokenId: TokenId, price: real, size: real)
    | Acknowledge(localId: LocalId, orderId: OrderId)
    | FillOrder(fill: Fill)
    | Request(localId: LocalId, next: OrderState)
    | ServerCancel(orderId: OrderId)
    | Cleanup

  // ---- what each step may assume, and does -------------------------------------------------

  predicate Fillable(ledger: Ledger, fill: Fill) {
    && fill.fillId !in ledger.seen
    && fill.orderId in ledger.orders.byOrderId
    && var order := ledger.orders.byOrderId[fill.orderId];
    && order.state.IsActive()
    && fill.side == Buy
    && fill.price == order.price
    && 0.0 < fill.size <= order.remainingSize
    && fill.fee >= 0.0
  }

  predicate Enabled(ledger: Ledger, step: Step) {
    match step
    case Place(localId, _, price, size) =>
      localId !in ledger.orders.byLocalId && price > 0.0 && size > 0.0
    case Acknowledge(localId, orderId) =>
      && localId in ledger.orders.byLocalId
      && ledger.orders.byLocalId[localId].state == Submitted
      && ledger.orders.byLocalId[localId].orderId == None
      && orderId !in ledger.orders.byOrderId
    case FillOrder(fill) => Fillable(ledger, fill)
    case Request(localId, next) =>
      // Requests that neither open nor close an order on the exchange.
      && localId in ledger.orders.byLocalId
      && ledger.orders.byLocalId[localId].state.IsActive() == next.IsActive()
    case ServerCancel(_) => true
    case Cleanup => true
  }

  function Stepped(ledger: Ledger, step: Step): Ledger {
    if !Enabled(ledger, step) then ledger
    else
      match step
      case Place(localId, tokenId, price, size) => Placed(ledger, localId, tokenId, price, size)
      case Acknowledge(localId, orderId) => Acknowledged(ledger, localId, orderId)
      case FillOrder(fill) => FilledOrder(ledger, fill)
      case Request(localId, next) => ledger.(orders := ledger.orders.Attempted(localId, next))
      case ServerCancel(orderId) => ledger.ServerCancelled(orderId)
      case Cleanup => ledger.(orders := ledger.orders.Without(ledger.orders.Terminal()))
  }

  // Created, signed and submitted.
  function Placed(ledger: Ledger, localId: LocalId, tokenId: TokenId, price: real, size: real): Ledger {
    var added := ledger.orders.Added(NewOrder(localId, tokenId, Buy, price, size));
    ledger.(orders := added.Attempted(localId, Signed).Attempted(localId, Submitted))
  }

  // Acknowledged if its notional can be reserved, rejected if not.
  function Acknowledged(ledger: Ledger, localId: LocalId, orderId: OrderId): Ledger
    requires Enabled(ledger, Acknowledge(localId, orderId))
  {
    var amount := ledger.orders.byLocalId[localId].RemainingNotional();
    if ledger.cash.CanReserve(amount) then
      ledger.(cash := ledger.cash.Moved(amount),
              orders := ledger.orders.Attempted(localId, Acked).Linked(localId, orderId))
    else ledger.(orders := ledger.orders.Attempted(localId, Rejected))
  }

  // Booked in the ledger and on the order.
  function FilledOrder(ledger: Ledger, fill: Fill): Ledger
    requires Fillable(ledger, fill)
  {
    var localId := ledger.orders.byOrderId[fill.orderId].localId;
    var booked := ledger.Processed(fill);
    if localId in booked.orders.byLocalId
    then booked.(orders := booked.orders.FillApplied(localId, fill.size))
    else booked
  }

  function StepAll(ledger: Ledger, steps: seq<Step>): Ledger {
    if steps == [] then ledger
    else Stepped(StepAll(ledger, steps[..|steps| - 1]), steps[|steps| - 1])
  }

  // ---- the invariant ----------------------------------------------------------------------------

  ghost predicate SoundOrder(order: TrackedOrder) {
    && order.side == Buy
    && order.price > 0.0
    && order.filledSize + order.remainingSize == order.originalSize
    && (order.state.IsLive() ==> order.remainingSize > 0.0)
  }

  ghost predicate SoundOrders(store: Store) {
    store.Indexed() && forall l :: l in store.byLocalId ==> SoundOrder(store.byLocalId[l])
  }

  // Exactly the unfilled notional of the active orders is reserved.
  ghost predicate Reserved(ledger: Ledger) {
    SoundOrders(ledger.orders) && ledger.cash.reserved == ledger.orders.ReservedNotional()
  }

  lemma NotionalSigns(order: TrackedOrder)
    requires SoundOrder(order)
    ensures ReservedFor(order) >= 0.0
    ensures order.state.IsActive() ==> ReservedFor(order) == order.RemainingNotional() > 0.0
    ensures order.state.IsLive() ==> order.RemainingNotional() > 0.0
  {
  }

  // What a sound ledger has reserved covers every single active order.
  lemma CoversEach(ledger: Ledger, localId: LocalId)
    requires Reserved(ledger) && localId in ledger.orders.byLocalId
    ensures 0.0 <= ReservedFor(ledger.orders.byLocalId[localId]) <= ledger.cash.reserved
  {
    var orders := ledger.orders.byLocalId;
    forall l | l in orders ensures ReservedFor(orders[l]) >= 0.0 {
      NotionalSigns(orders[l]);
    }
    Sums.Member(orders, localId, ReservedFor);
  }

  // Replacing one order changes what should be reserved by that order's share.
  lemma ReplaceKeeps(before: Store, after: Store, localId: LocalId, order: TrackedOrder)
    requires SoundOrders(before) && after.Indexed() && SoundOrder(order)
    requires after.byLocalId == before.byLocalId[localId := order]
    ensures SoundOrders(after)
    ensures after.ReservedNotional() == before.ReservedNotional() + ReservedFor(order)
         - (if localId in before.byLocalId then ReservedFor(before.byLocalId[localId]) else 0.0)
  {
    hide Store.Indexed, SoundOrder, ReservedFor;
    Sums.Update(before.byLocalId, localId, order, ReservedFor);
  }

  lemma TransitionShape(store: Store, localId: LocalId, next: OrderState)
    requires store.Indexed() && localId in store.byLocalId
    ensures store.Transitioned(localId, next).Indexed()
    ensures store.Transitioned(localId, next).byLocalId
         == store.byLocalId[localId := store.byLocalId[localId].(state := next)]
  {
    TransitionKeepsIndexed(store, localId, next);
  }

  // ---- each step keeps it --------------------------------------------------------------------------

  lemma NoRevival(store: Store, localId: LocalId, next: OrderState)
    requires localId in store.byLocalId && store.byLocalId[localId].state.CanTransitionTo(next) && next.IsLive()
    ensures store.byLocalId[localId].state.IsLive()
  {
  }

  lemma RequestKeeps(store: Store, localId: LocalId, next: OrderState)
    requires SoundOrders(store)
    requires localId in store.byLocalId && store.byLocalId[localId].state.IsActive() == next.IsActive()
    ensures SoundOrders(store.Attempted(localId, next))
    ensures store.Attempted(localId, next).ReservedNotional() == store.ReservedNotional()
  {
    var order := store.byLocalId[localId];
    if order.state.CanTransitionTo(next) {
      if next.IsLive() {
        NoRevival(store, localId, next);
      }
      hide OrderState.CanTransitionTo, Value;
      TransitionShape(store, localId, next);
      hide Store.Transitioned, Store.Indexed;
      assert SoundOrder(order) && SoundOrder(order.(state := next));
      ReplaceKeeps(store, store.Transitioned(localId, next), localId, order.(state := next));
    }
  }

  lemma PlaceKeeps(ledger: Ledger, localId: LocalId, tokenId: TokenId, price: real, size: real)
    requires Reserved(ledger) && Enabled(ledger, Place(localId, tokenId, price, size))
    ensures Reserved(Placed(ledger, localId, tokenId, price, size))
  {
    var order := NewOrder(localId, tokenId, Buy, price, size);
    var added := ledger.orders.Added(order);
    AddKeepsIndexed(ledger.orders, order);
    ReplaceKeeps(ledger.orders, added, localId, order);
    hide Store.Indexed;
    RequestKeeps(added, localId, Signed);
    RequestKeeps(added.Attempted(localId, Signed), localId, Submitted);
  }

  lemma AcceptKeeps(store: Store, localId: LocalId, orderId: OrderId)
    requires SoundOrders(store) && localId in store.byLocalId && orderId !in store.byOrderId
    requires store.byLocalId[localId].state == Submitted && store.byLocalId[localId].orderId == None
    ensures var next := store.Attempted(localId, Acked).Linked(localId, orderId);
            && SoundOrders(next)
            && next.ReservedNotional() == store.ReservedNotional() + store.byLocalId[localId].RemainingNotional()
  {
    hide OrderState.CanTransitionTo, Store.Attempted, Value;
    var order := store.byLocalId[localId];
    var acked := store.Transitioned(localId, Acked);
    AcceptIsAck(store, localId);
    var linked := order.(state := Acked, orderId := Some(orderId));
    TransitionShape(store, localId, Acked);
    AcceptLinks(store, acked, localId, orderId);
    hide Store.Indexed;
    assert SoundOrder(order) && SoundOrder(linked);
    hide SoundOrder, Store.Transitioned;
    assert acked.Linked(localId, orderId).byLocalId == store.byLocalId[localId := linked];
    ReplaceKeeps(store, acked.Linked(localId, orderId), localId, linked);
  }

  lemma AcceptIsAck(store: Store, localId: LocalId)
    requires localId in store.byLocalId && store.byLocalId[localId].state == Submitted
    ensures store.Attempted(localId, Acked) == store.Transitioned(localId, Acked)
  {
  }

  lemma AcceptLinks(store: Store, acked: Store, localId: LocalId, orderId: OrderId)
    requires localId in store.byLocalId && orderId !in store.byOrderId
    requires store.byLocalId[localId].orderId == None
    requires acked == store.Transitioned(localId, Acked) && acked.Indexed()
    ensures acked.Linked(localId, orderId).Indexed()
  {
    LinkKeepsIndexed(acked, localId, orderId);
  }

  lemma AcknowledgeKeeps(ledger: Ledger, localId: LocalId, orderId: OrderId)
    requires Reserved(ledger) && Enabled(ledger, Acknowledge(localId, orderId))
    ensures Reserved(Acknowledged(ledger, localId, orderId))
    ensures Acknowledged(ledger, localId, orderId).cash.Total() == ledger.cash.Total()
  {
    var order := ledger.orders.byLocalId[localId];
    hide SoundOrders, Store.ReservedNotional, Value;
    if ledger.cash.CanReserve(order.RemainingNotional()) {
      AcceptKeeps(ledger.orders, localId, orderId);
    } else {
      RequestKeeps(ledger.orders, localId, Rejected);
    }
  }

  // A fill at the limit price spends exactly what its share of the order reserved, so the
  // clamp that covers for a short reserve is never taken.
  lemma FillKeeps(ledger: Ledger, fill: Fill)
    requires Reserved(ledger) && Fillable(ledger, fill)
    ensures Reserved(FilledOrder(ledger, fill))
    ensures fill.Notional() <= ledger.cash.reserved
    ensures Wealth(FilledOrder(ledger, fill)) == Wealth(ledger)
  {
    var store := ledger.orders;
    var order := store.byOrderId[fill.orderId];
    var localId := order.localId;
    var filled := order.AfterFill(fill.size);
    FillKeepsIndexed(store, localId, fill.size);
    CoversEach(ledger, localId);
    assert SoundOrder(order);
    FillNotional(order, fill);
    ReplaceKeeps(store, store.FillApplied(localId, fill.size), localId, filled);
    hide Store.Indexed, SoundOrders, SoundOrder;
    hide Wealth;
    ProcessedWealth(ledger, fill);
    SameWealth(ledger.Processed(fill), FilledOrder(ledger, fill));
    hide Position.Booked, Value, Remember;
    assert ledger.Settled(fill).reserved == ledger.cash.reserved - fill.Notional();
  }

  lemma SameWealth(a: Ledger, b: Ledger)
    requires a.cash.Total() == b.cash.Total() && a.positions == b.positions
    ensures Wealth(a) == Wealth(b)
  {
  }

  lemma FillNotional(order: TrackedOrder, fill: Fill)
    requires SoundOrder(order) && order.state.IsActive()
    requires fill.price == order.price && 0.0 < fill.size <= order.remainingSize && fill.side == Buy
    ensures 0.0 < fill.Notional() == Outlay(fill) <= ReservedFor(order)
    ensures ReservedFor(order.AfterFill(fill.size)) == ReservedFor(order) - fill.Notional()
    ensures SoundOrder(order.AfterFill(fill.size))
  {
    assert order.price * (order.remainingSize - fill.size) == order.price * order.remainingSize - order.price * fill.size;
    assert order.price * (order.remainingSize - fill.size) >= 0.0;
  }

  lemma CloseKeeps(store: Store, localId: LocalId)
    requires SoundOrders(store) && localId in store.byLocalId && store.byLocalId[localId].state.IsActive()
    ensures var next := store.Attempted(localId, Cancelled);
            && next == store.Transitioned(localId, Cancelled)
            && SoundOrders(next)
            && next.ReservedNotional() == store.ReservedNotional() - store.byLocalId[localId].RemainingNotional()
  {
    var order := store.byLocalId[localId];
    TransitionShape(store, localId, Cancelled);
    hide Store.Indexed, Store.Transitioned;
    assert SoundOrder(order) && SoundOrder(order.(state := Cancelled));
    ReplaceKeeps(store, store.Transitioned(localId, Cancelled), localId, order.(state := Cancelled));
  }

  lemma CancellableOrder(ledger: Ledger, orderId: OrderId)
    requires SoundOrders(ledger.orders) && ledger.Cancellable(orderId)
    ensures var order := ledger.orders.byOrderId[orderId];
            && order.orderId == Some(orderId)
            && order.localId in ledger.orders.byLocalId
            && ledger.orders.byLocalId[order.localId] == order
            && SoundOrder(order)
  {
  }

  // An exchange cancel always succeeds on an active order, gives back its whole unfilled
  // notional, and does nothing the second time.
  lemma CancelKeeps(ledger: Ledger, orderId: OrderId)
    requires Reserved(ledger)
    ensures var next := ledger.ServerCancelled(orderId);
            && Reserved(next)
            && next.cash.Total() == ledger.cash.Total()
            && next.positions == ledger.positions
            && (ledger.Cancellable(orderId) ==>
                  var order := ledger.orders.byOrderId[orderId];
                  && order.localId in ledger.orders.byLocalId
                  && next.orders == ledger.orders.Transitioned(order.localId, Cancelled)
                  && next.cash == ledger.cash.Moved(-order.RemainingNotional()))
            && next.ServerCancelled(orderId) == next
  {
    if ledger.Cancellable(orderId) {
      var order := ledger.orders.byOrderId[orderId];
      CancellableOrder(ledger, orderId);
      CoversEach(ledger, order.localId);
      NotionalSigns(order);
      CloseKeeps(ledger.orders, order.localId);
      hide SoundOrders, Store.ReservedNotional, Value;
    }
  }

  lemma CleanupKeeps(store: Store)
    requires SoundOrders(store)
    ensures SoundOrders(store.Without(store.Terminal()))
    ensures store.Without(store.Terminal()).ReservedNotional() == store.ReservedNotional()
  {
    var gone := store.Terminal();
    CleanupKeepsIndexed(store);
    hide Store.Indexed;
    Sums.Split(store.byLocalId, gone, ReservedFor);
    NothingReserved(store.byLocalId - (store.byLocalId.Keys - gone));
  }

  lemma {:induction false} NothingReserved(orders: map<LocalId, TrackedOrder>)
    requires forall l :: l in orders ==> !orders[l].state.IsActive()
    ensures Sums.Over(orders, ReservedFor) == 0.0
  {
    if orders != map[] {
      var l :| l in orders;
      Sums.Remove(orders, l, ReservedFor);
      NothingReserved(orders - {l});
    }
  }

  lemma StepKeeps(ledger: Ledger, step: Step)
    requires Reserved(ledger)
    ensures Reserved(Stepped(ledger, step))
    ensures Wealth(Stepped(ledger, step)) == Wealth(ledger)
  {
    hide Reserved, Wealth;
    if Enabled(ledger, step) {
      match step
      case Place(localId, tokenId, price, size) =>
        PlaceKeeps(ledger, localId, tokenId, price, size);
        SameWealth(ledger, Stepped(ledger, step));
      case Acknowledge(localId, orderId) =>
        AcknowledgeKeeps(ledger, localId, orderId);
        SameWealth(ledger, Stepped(ledger, step));
      case FillOrder(fill) =>
        FillKeeps(ledger, fill);
      case Request(localId, next) =>
        ReservedOnOrders(ledger);
        RequestKeeps(ledger.orders, localId, next);
        ReservedByOrders(Stepped(ledger, step));
        SameWealth(ledger, Stepped(ledger, step));
      case ServerCancel(orderId) =>
        CancelKeeps(ledger, orderId);
        SameWealth(ledger, Stepped(ledger, step));
      case Cleanup =>
        ReservedOnOrders(ledger);
        CleanupKeeps(ledger.orders);
        ReservedByOrders(Stepped(ledger, step));
        SameWealth(ledger, Stepped(ledger, step));
    }
  }

  lemma ReservedOnOrders(ledger: Ledger)
    requires Reserved(ledger)
    ensures SoundOrders(ledger.orders) && ledger.cash.reserved == ledger.orders.ReservedNotional()
  {
  }

  lemma ReservedByOrders(ledger: Ledger)
    requires SoundOrders(ledger.orders) && ledger.cash.reserved == ledger.orders.ReservedNotional()
    ensures Reserved(ledger)
  {
  }

  // After every run, what is reserved is exactly the unfilled notional of the active orders,
  // and cash, holdings, realized profit and fees still add up to the initial cash.
  lemma {:induction false} ReserveIsExact(initialCash: real, steps: seq<Step>)
    ensures var end := StepAll(NewLedger(initialCash), steps);
            && Reserved(end)
            && end.cash.Total() + Sums.Over(end.positions, Cost)
               == initialCash + Sums.Over(end.positions, Realized) - Sums.Over(end.positions, Fees)
  {
    WealthIs(StepAll(NewLedger(initialCash), steps));
    if steps == [] {
      assert Sums.Over(NO_ORDERS.byLocalId, ReservedFor) == 0.0;
    } else {
      var was := StepAll(NewLedger(initialCash), steps[..|steps| - 1]);
      ReserveIsExact(initialCash, steps[..|steps| - 1]);
      WealthIs(was);
      StepKeeps(was, steps[|steps| - 1]);
    }
  }

  // ---- where the protocol would leak -------------------------------------------------------------

  // A fill at any other price keeps the reserve exact only if it is dearer and used up every
  // reserved dollar: a price improvement leaves the difference reserved for nothing.
  lemma OffLimitFillLeaks(ledger: Ledger, fill: Fill)
    requires Reserved(ledger)
    requires fill.price >= 0.0 && fill.orderId in ledger.orders.byOrderId
    requires Fillable(ledger, fill.(price := ledger.orders.byOrderId[fill.orderId].price))
    ensures var order := ledger.orders.byOrderId[fill.orderId];
            var next := ledger.Processed(fill).(orders := ledger.orders.FillApplied(order.localId, fill.size));
            Reserved(next) <==>
            || fill.price == order.price
            || (fill.price > order.price && ledger.cash.reserved == order.price * fill.size)
  {
    var store := ledger.orders;
    var order := store.byOrderId[fill.orderId];
    var atLimit := fill.(price := order.price);
    FillKeeps(ledger, atLimit);
    var next := ledger.Processed(fill).(orders := store.FillApplied(order.localId, fill.size));
    hide Store.Indexed, Store.ReservedNotional, Position.Booked, Remember, Wealth;
    CoversEach(ledger, order.localId);
    FillNotional(order, atLimit);
    assert next.orders == FilledOrder(ledger, atLimit).orders;
    assert next.cash.reserved
        == ledger.cash.reserved - (if fill.Notional() <= 0.0 then 0.0 else Min(fill.Notional(), ledger.cash.reserved));
    Cheaper(fill.price, order.price, fill.size);
  }

  // A transition that is not one of the protocol's steps, made through the store alone, keeps the
  // reserve exact if and only if the order is as active after it as before: closing an active
  // order without a release leaves its share reserved, and an order acknowledged without a
  // reservation has none.
  lemma UnsettledTransitionLeaks(ledger: Ledger, localId: LocalId, next: OrderState)
    requires Reserved(ledger)
    requires localId in ledger.orders.byLocalId && ledger.orders.byLocalId[localId].state.CanTransitionTo(next)
    ensures Reserved(ledger.(orders := ledger.orders.Transitioned(localId, next))) <==>
            ledger.orders.byLocalId[localId].state.IsActive() == next.IsActive()
  {
    var order := ledger.orders.byLocalId[localId];
    var moved := order.(state := next);
    var store := ledger.orders;
    assert SoundOrder(order) && SoundOrder(moved);
    TransitionShape(store, localId, next);
    hide Store.Indexed, Store.Transitioned;
    ReplaceKeeps(store, store.Transitioned(localId, next), localId, moved);
    NotionalSigns(order);
    NotionalSigns(moved);
    hide SoundOrders, SoundOrder, Store.ReservedNotional;
  }

  lemma Cheaper(a: real, b: real, n: real)
    requires n > 0.0
    ensures Value(a, n) == Value(b, n) <==> a == b
    ensures Value(a, n) < Value(b, n) <==> a < b
  {
    assert Value(a, n) - Value(b, n) == (a - b) * n;
  }

  // ---- an order's whole life ------------------------------------------------------------------------

  // What an order is before the exchange knows it.
  function SubmittedOrder(localId: LocalId, tokenId: TokenId, price: real, size: real): TrackedOrder {
    TrackedOrder(None, localId, Submitted, tokenId, Buy, price, size, 0.0, size)
  }

  lemma OrderIsPlaced(ledger: Ledger, localId: LocalId, tokenId: TokenId, price: real, size: real)
    requires localId !in ledger.orders.byLocalId && price > 0.0 && size > 0.0
    ensures var next := Stepped(ledger, Place(localId, tokenId, price, size));
            && next == ledger.(orders := next.orders)
            && next.orders.byLocalId ==
               ledger.orders.byLocalId[localId := SubmittedOrder(localId, tokenId, price, size)]
            && next.orders.byOrderId == ledger.orders.byOrderId
  {
  }

  // A purchase the cash covers is acknowledged and reserved for, any other is rejected.
  lemma OrderIsAcknowledged(ledger: Ledger, localId: LocalId, orderId: OrderId)
    requires localId in ledger.orders.byLocalId && orderId !in ledger.orders.byOrderId
    requires ledger.orders.byLocalId[localId].state == Submitted && ledger.orders.byLocalId[localId].orderId == None
    requires Value(ledger.orders.byLocalId[localId].price, ledger.orders.byLocalId[localId].remainingSize) > 0.0
    ensures var order := ledger.orders.byLocalId[localId];
            var next := Stepped(ledger, Acknowledge(localId, orderId));
            var cost := Value(order.price, order.remainingSize);
            if cost <= ledger.cash.available then
              var acked := order.(orderId := Some(orderId), state := Acked);
              && next.orders.byLocalId == ledger.orders.byLocalId[localId := acked]
              && next.orders.byOrderId == ledger.orders.byOrderId[orderId := acked]
              && next.cash.available == ledger.cash.available - cost
              && next.cash.reserved == ledger.cash.reserved + cost
            else
              && next.orders.byLocalId == ledger.orders.byLocalId[localId := order.(state := Rejected)]
              && next.cash == ledger.cash
  {
    hide Value;
  }

  // An acknowledged order that is then cancelled by the exchange gives everything back.
  lemma OrderIsCancelled(ledger: Ledger, orderId: OrderId)
    requires Reserved(ledger) && orderId in ledger.orders.byOrderId
    requires ledger.orders.byOrderId[orderId].state in {Acked, PartiallyFilled, CancelPending}
    ensures var order := ledger.orders.byOrderId[orderId];
            var next := Stepped(ledger, ServerCancel(orderId));
            && orderId in next.orders.byOrderId && next.orders.byOrderId[orderId] == order.(state := Cancelled)
            && next.cash.available == ledger.cash.available + Value(order.price, order.remainingSize)
            && next.cash.reserved == ledger.cash.reserved - Value(order.price, order.remainingSize)
  {
    CancelKeeps(ledger, orderId);
    CancellableOrder(ledger, orderId);
    hide Reserved, Value, Ledger.ServerCancelled;
  }

  // An order that fills at its limit holds its shares, for what was reserved and the fee.
  lemma OrderIsFilled(ledger: Ledger, fill: Fill)
    requires Reserved(ledger) && Fillable(ledger, fill)
    ensures var order := ledger.orders.byOrderId[fill.orderId];
            var next := Stepped(ledger, FillOrder(fill));
            && fill.orderId in next.orders.byOrderId
            && var now := next.orders.byOrderId[fill.orderId];
            && now.filledSize == order.filledSize + fill.size && now.remainingSize == order.remainingSize - fill.size
            && now.state == (if fill.size == order.remainingSize then OrderState.Filled
                             else if order.state == Acked then PartiallyFilled else order.state)
            && next.cash.available == ledger.cash.available - fill.fee
            && next.cash.reserved == ledger.cash.reserved - Value(fill.price, fill.size)
            && Get(next.positions, fill.tokenId).shares == Get(ledger.positions, fill.tokenId).shares + fill.size
  {
    var order := ledger.orders.byOrderId[fill.orderId];
    FillKeeps(ledger, fill);
    assert SoundOrder(order);
    assert ledger.orders.byLocalId[order.localId] == order;
    PositiveNotional(fill);
    var booked := ledger.Resolved(fill);
    BookedPnl(Get(ledger.positions, fill.tokenId), booked);
    hide Value, Position.Booked, Remember, Reserved, Wealth;
  }

  lemma PositiveNotional(fill: Fill)
    requires fill.price > 0.0 && fill.size > 0.0
    ensures fill.Notional() > 0.0
  {
  }
}
