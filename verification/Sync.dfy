// Ledger audit (src/execution/state_machine.rs) and reconciliation with the exchange's open
// orders (src/sync/mod.rs).
module StateMachine {
  import opened Base
  import opened Orders
  import opened Ledgers
  import opened Protocol

  datatype Violation =
    | CashMismatch(expectedReserved: real, actualReserved: real)
    | InvalidOrderState(order: TrackedOrder)

  const TOLERANCE := 0.0001

  // The audit can only ever report a cash mismatch: its second check looks for terminal
  // orders among the active ones, and there are none.
  method CheckInvariants(ledger: LedgerBook) returns (violations: seq<Violation>)
    ensures var view := ledger.View();
            var expected := view.orders.ReservedNotional();
            violations ==
            if Abs(expected - view.cash.reserved) > 0.0001 then [CashMismatch(expected, view.cash.reserved)] else []
  {
    violations := [];
    var expectedReserved := ledger.orders.TotalReservedNotional();
    var actualReserved := ledger.cash.reserved;
    if Abs(expectedReserved - actualReserved) > TOLERANCE {
      violations := violations + [CashMismatch(expectedReserved, actualReserved)];
    }
    ghost var found := violations;
    var active := ledger.orders.ActiveOrders();
    for i := 0 to |active|
      invariant violations == found
    {
      var order := active[i];
      assert order in active;
      if order.state.IsTerminal() {
        violations := violations + [InvalidOrderState(order)];
      }
    }
  }

  // Run the protocol from any initial cash, and the audit stays silent.
  method AuditAfter(initialCash: real, ghost steps: seq<Step>, ledger: LedgerBook) returns (violations: seq<Violation>)
    requires ledger.View() == StepAll(NewLedger(initialCash), steps)
    ensures violations == []
  {
    ReserveIsExact(initialCash, steps);
    violations := CheckInvariants(ledger);
  }
}

module Sync {
  import opened Base
  import opened Orders
  import opened Ledgers
  import opened Protocol
  import Sums

  // Active here, acknowledged, and gone from the exchange.
  predicate IsGhost(order: TrackedOrder, serverIds: set<OrderId>) {
    order.state.IsActive() && order.orderId.Some? && order.orderId.value !in serverIds
  }

  function Closed(order: TrackedOrder, serverIds: set<OrderId>): TrackedOrder {
    if IsGhost(order, serverIds) then order.(state := Cancelled) else order
  }

  function Ghosts(store: Store, serverIds: set<OrderId>): set<LocalId> {
    set l | l in store.byLocalId && IsGhost(store.byLocalId[l], serverIds)
  }

  // Both indexes with the given ghosts closed at once.
  function Without(store: Store, gone: set<LocalId>): Store {
    Store(
      map id | id in store.byOrderId :: CloseIf(store.byOrderId[id], store.byOrderId[id].localId in gone),
      map l | l in store.byLocalId :: CloseIf(store.byLocalId[l], l in gone),
      store.counters.(cancelled := store.counters.cancelled + |gone|))
  }

  function CloseIf(order: TrackedOrder, gone: bool): TrackedOrder {
    if gone then order.(state := Cancelled) else order
  }

  ghost function GhostNotional(store: Store, gone: set<LocalId>): real {
    Sums.Over(store.byLocalId - (store.byLocalId.Keys - gone), ReservedFor)
  }

  // Reconciliation in one stroke: every ghost closed, exactly its unfilled notional moved
  // from reserved to available.
  ghost function Reconciled(ledger: Ledger, serverIds: set<OrderId>): Ledger {
    var gone := Ghosts(ledger.orders, serverIds);
    ledger.(orders := Without(ledger.orders, gone),
            cash := ledger.cash.Moved(-GhostNotional(ledger.orders, gone)))
  }

  method SyncOrders(ledger: LedgerBook, serverIds: set<OrderId>) returns (ghostCount: nat)
    modifies ledger.orders, ledger.cash
    ensures ledger.View().cash.Total() == old(ledger.View()).cash.Total()
    ensures Reserved(old(ledger.View())) ==>
              && ledger.View() == Reconciled(old(ledger.View()), serverIds)
              && Reserved(ledger.View())
              && ghostCount == |Ghosts(old(ledger.View()).orders, serverIds)|
  {
    hide Reserved, Halfway, Reconciled, Ledger.ServerCancelled, Ledger.Cancellable;
    ghost var before := ledger.View();
    ghost var gone: set<LocalId> := {};
    var localOpen := ledger.orders.ActiveOrders();
    ghostCount := 0;
    if Reserved(before) {
      OpenOnes(before, localOpen);
      NothingGone(before);
    }
    for i := 0 to |localOpen|
      invariant ledger.View().cash.Total() == before.cash.Total()
      invariant ledger.View() == before.(orders := ledger.View().orders, cash := ledger.View().cash)
      invariant gone == set o | o in localOpen[..i] && IsGhost(o, serverIds) :: o.localId
      invariant Reserved(before) ==> Halfway(before, ledger.View(), gone) && ghostCount == |gone|
    {
      var order := localOpen[i];
      OneMore(localOpen, i, serverIds);
      assert order in localOpen;
      if order.orderId.None? {
        continue;
      }
      var exchangeId := order.orderId.value;
      if exchangeId !in serverIds {
        if Reserved(before) {
          assert order.localId !in gone;
          CloseOne(before, ledger.View(), gone, order);
        }
        CancelKeepsTotal(ledger.View(), exchangeId);
        var corrected := ledger.ApplyServerCancel(exchangeId);
        gone := gone + {order.localId};
        if corrected {
          ghostCount := ghostCount + 1;
        }
      }
    }
    assert localOpen[..|localOpen|] == localOpen;
    if Reserved(before) {
      AllGhosts(before, localOpen, serverIds);
      SettleUp(before, ledger.View(), gone, serverIds);
    }
  }

  // Part of the ghosts cancelled, everything else as it was.
  ghost predicate Halfway(before: Ledger, now: Ledger, gone: set<LocalId>) {
    && now == before.(orders := Without(before.orders, gone), cash := now.cash)
    && now.cash.Total() == before.cash.Total()
    && Reserved(now)
  }

  lemma CancelKeepsTotal(ledger: Ledger, orderId: OrderId)
    ensures var next := ledger.ServerCancelled(orderId);
            && next.cash.Total() == ledger.cash.Total()
            && next == ledger.(orders := next.orders, cash := next.cash)
  {
  }

  lemma OpenOnes(ledger: Ledger, localOpen: seq<TrackedOrder>)
    requires Reserved(ledger)
    requires forall o :: o in localOpen <==>
               exists l :: l in ledger.orders.byLocalId && ledger.orders.byLocalId[l] == o && o.state.IsActive()
    ensures forall l :: l in ledger.orders.byLocalId ==> ledger.orders.byLocalId[l].localId == l
    ensures forall o :: o in localOpen <==>
              o.localId in ledger.orders.byLocalId && ledger.orders.byLocalId[o.localId] == o && o.state.IsActive()
  {
  }

  lemma AllGhosts(ledger: Ledger, localOpen: seq<TrackedOrder>, serverIds: set<OrderId>)
    requires Reserved(ledger)
    requires forall o :: o in localOpen <==>
               o.localId in ledger.orders.byLocalId && ledger.orders.byLocalId[o.localId] == o && o.state.IsActive()
    ensures (set o | o in localOpen && IsGhost(o, serverIds) :: o.localId) == Ghosts(ledger.orders, serverIds)
  {
    forall l | l in Ghosts(ledger.orders, serverIds)
      ensures l in set o | o in localOpen && IsGhost(o, serverIds) :: o.localId
    {
      assert ledger.orders.byLocalId[l] in localOpen;
    }
  }

  lemma NothingGone(ledger: Ledger)
    ensures Without(ledger.orders, {}) == ledger.orders
    ensures Reserved(ledger) ==> Halfway(ledger, ledger, {})
  {
  }

  // The i-th open order handled.
  lemma OneMore(localOpen: seq<TrackedOrder>, i: nat, serverIds: set<OrderId>)
    requires i < |localOpen|
    ensures (set o | o in localOpen[..i + 1] && IsGhost(o, serverIds) :: o.localId)
         == (set o | o in localOpen[..i] && IsGhost(o, serverIds) :: o.localId)
            + if IsGhost(localOpen[i], serverIds) then {localOpen[i].localId} else {}
  {
    assert localOpen[..i + 1] == localOpen[..i] + [localOpen[i]];
  }

  lemma CloseBoth(store: Store, gone: set<LocalId>, order: TrackedOrder)
    requires store.Indexed()
    requires order.localId in store.byLocalId && store.byLocalId[order.localId] == order
    requires order.orderId.Some? && order.localId !in gone
    ensures Without(store, gone).Transitioned(order.localId, Cancelled) == Without(store, gone + {order.localId})
  {
    var id := order.orderId.value;
    assert forall j :: j in store.byOrderId && store.byOrderId[j].localId == order.localId ==> j == id;
    var now := Without(store, gone).Transitioned(order.localId, Cancelled);
    assert now.byOrderId == Without(store, gone + {order.localId}).byOrderId;
    assert now.byLocalId == Without(store, gone + {order.localId}).byLocalId;
  }

  // Cancelling one more ghost through the ledger closes it in both indexes.
  lemma CloseOne(before: Ledger, now: Ledger, gone: set<LocalId>, order: TrackedOrder)
    requires Reserved(before) && Halfway(before, now, gone)
    requires order.localId in before.orders.byLocalId && before.orders.byLocalId[order.localId] == order
    requires order.state.IsActive() && order.orderId.Some? && order.localId !in gone
    ensures now.Cancellable(order.orderId.value)
    ensures Halfway(before, now.ServerCancelled(order.orderId.value), gone + {order.localId})
  {
    var id := order.orderId.value;
    assert before.orders.byOrderId[id] == order;
    assert now.orders.byOrderId[id] == order;
    CloseBoth(before.orders, gone, order);
    hide Reserved, Without;
    CancelKeeps(now, id);
    CancelKeepsTotal(now, id);
    hide Ledger.ServerCancelled, Store.Transitioned;
  }

  // With the reserve exact before and after, the cash that moved is the ghosts' share.
  lemma SettleUp(before: Ledger, now: Ledger, gone: set<LocalId>, serverIds: set<OrderId>)
    requires Reserved(before) && Halfway(before, now, gone)
    requires gone == Ghosts(before.orders, serverIds)
    ensures now == Reconciled(before, serverIds)
    ensures Reserved(now)
  {
    var orders, orders' := before.orders.byLocalId, now.orders.byLocalId;
    hide ReservedFor, SoundOrders;
    Sums.Split(orders, gone, ReservedFor);
    Sums.Split(orders', gone, ReservedFor);
    Sums.Agree(orders - gone, orders' - gone, ReservedFor, ReservedFor);
    NothingReserved(orders' - (orders'.Keys - gone));
  }

  // ---- what reconciliation achieves ---------------------------------------------------------------

  lemma ReconciledOrders(ledger: Ledger, serverIds: set<OrderId>)
    requires Reserved(ledger)
    ensures var next := Reconciled(ledger, serverIds);
            && next.orders.Indexed()
            && Ghosts(next.orders, serverIds) == {}
            && (forall l :: l in next.orders.byLocalId ==>
                  next.orders.byLocalId[l] == Closed(ledger.orders.byLocalId[l], serverIds))
  {
  }

  // Afterwards every active order is either not yet acknowledged or known to the exchange,
  // total cash has not changed, and doing it again changes nothing.
  lemma ReconcileSettles(ledger: Ledger, serverIds: set<OrderId>)
    requires Reserved(ledger)
    ensures var next := Reconciled(ledger, serverIds);
            && (forall l :: l in next.orders.byLocalId && next.orders.byLocalId[l].state.IsActive() ==>
                  next.orders.byLocalId[l].orderId.None? || next.orders.byLocalId[l].orderId.value in serverIds)
            && next.cash.Total() == ledger.cash.Total()
            && Reconciled(next, serverIds) == next
  {
    var next := Reconciled(ledger, serverIds);
    ReconciledOrders(ledger, serverIds);
    forall l | l in next.orders.byLocalId && next.orders.byLocalId[l].state.IsActive()
      ensures next.orders.byLocalId[l].orderId.None? || next.orders.byLocalId[l].orderId.value in serverIds
    {
      assert l !in Ghosts(next.orders, serverIds);
    }
    NothingGone(next);
    assert next.orders.byLocalId - (next.orders.byLocalId.Keys - {}) == map[];
  }

  // The orders reconciliation closes, in the exchange's terms: acknowledged and not done here, and
  // not among the ones it lists.
  predicate Vanished(order: TrackedOrder, serverIds: set<OrderId>) {
    && order.state in {Acked, PartiallyFilled, CancelPending}
    && order.orderId.Some? && order.orderId.value !in serverIds
  }

  function VanishedOrders(store: Store, serverIds: set<OrderId>): map<LocalId, TrackedOrder> {
    map l | l in store.byLocalId && Vanished(store.byLocalId[l], serverIds) :: store.byLocalId[l]
  }

  function Unfilled(order: TrackedOrder): real {
    Value(order.price, order.remainingSize)
  }

  // Reconciliation closes those orders and no others, frees exactly what they had left to buy, and
  // touches nothing else of the ledger.
  lemma ReconciledExactly(ledger: Ledger, serverIds: set<OrderId>)
    requires Reserved(ledger)
    ensures var next, orders := Reconciled(ledger, serverIds), ledger.orders.byLocalId;
            var freed := Sums.Over(VanishedOrders(ledger.orders, serverIds), Unfilled);
            && next.orders.byLocalId ==
               (map l | l in orders :: if Vanished(orders[l], serverIds) then orders[l].(state := Cancelled) else orders[l])
            && next.cash.available == ledger.cash.available + freed
            && next.cash.reserved == ledger.cash.reserved - freed
            && next.positions == ledger.positions && next.fills == ledger.fills && next.seen == ledger.seen
  {
    GhostsVanished(ledger.orders, serverIds);
    FreedExactly(ledger.orders, serverIds);
    hide Reserved, Vanished, IsGhost, GhostNotional, Ghosts;
    ClosedOrders(ledger.orders, Ghosts(ledger.orders, serverIds));
  }

  lemma GhostsVanished(store: Store, serverIds: set<OrderId>)
    ensures forall l :: l in Ghosts(store, serverIds) <==> l in store.byLocalId && Vanished(store.byLocalId[l], serverIds)
  {
  }

  lemma ClosedOrders(store: Store, gone: set<LocalId>)
    ensures Without(store, gone).byLocalId ==
            map l | l in store.byLocalId ::
              if l in gone then store.byLocalId[l].(state := Cancelled) else store.byLocalId[l]
  {
  }

  lemma FreedExactly(store: Store, serverIds: set<OrderId>)
    ensures GhostNotional(store, Ghosts(store, serverIds)) == Sums.Over(VanishedOrders(store, serverIds), Unfilled)
  {
    var orders, gone, vanished := store.byLocalId, Ghosts(store, serverIds), VanishedOrders(store, serverIds);
    GhostsVanished(store, serverIds);
    forall l | l in vanished ensures ReservedFor(vanished[l]) == Unfilled(vanished[l]) {
    }
    hide Ghosts, IsGhost, Vanished, ReservedFor, Unfilled;
    assert orders - (orders.Keys - gone) == vanished;
    Sums.Agree(vanished, vanished, ReservedFor, Unfilled);
  }
}
