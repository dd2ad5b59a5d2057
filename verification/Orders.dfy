// Order lifecycle and the dual-indexed store (src/ledger/orders.rs).
module Orders {
  import opened Base
  import Sums

  type LocalId = nat

  datatype OrderState =
    | CreatedLocal
    | Signed
    | Submitted
    | Acked
    | PartiallyFilled
    | Filled
    | CancelPending
    | Cancelled
    | Expired
    | Rejected
    | Unknown
  {
    predicate CanTransitionTo(next: OrderState) {
      match (this, next)
      case (CreatedLocal, Signed) => true
      case (Signed, Submitted) => true
      case (Submitted, Acked) => true
      case (Submitted, Rejected) => true
      case (Acked, PartiallyFilled) => true
      case (Acked, Filled) => true
      case (Acked, CancelPending) => true
      case (PartiallyFilled, Filled) => true
      case (PartiallyFilled, CancelPending) => true
      case (CancelPending, Cancelled) => true
      case (CancelPending, Filled) => true
      case (Acked, Cancelled) => true
      case (PartiallyFilled, Cancelled) => true
      case (_, Unknown) => true
      case (_, Expired) => true
      case (_, Rejected) => true
      case _ => false
    }

    predicate IsTerminal() {
      Filled? || Cancelled? || Expired? || Rejected?
    }

    predicate IsActive() {
      Acked? || PartiallyFilled? || CancelPending?
    }

    // States an order can still move on from to become, or stay, active. The others are
    // the terminal states and Unknown.
    predicate IsLive() {
      CreatedLocal? || Signed? || Submitted? || IsActive()
    }

    // How far a live order has come.
    function Rank(): nat
      requires IsLive()
    {
      match this
      case CreatedLocal => 0
      case Signed => 1
      case Submitted => 2
      case Acked => 3
      case PartiallyFilled => 4
      case CancelPending => 5
    }
  }

  datatype TrackedOrder = TrackedOrder(
    orderId: Option<OrderId>,
    localId: LocalId,
    state: OrderState,
    tokenId: TokenId,
    side: Side,
    price: real,
    originalSize: real,
    filledSize: real,
    remainingSize: real)
  {
    function RemainingNotional(): real {
      Value(price, remainingSize)
    }

    // The order after a fill of the given size.
    function AfterFill(fillSize: real): TrackedOrder {
      var filled := filledSize + fillSize;
      var remaining := originalSize - filled;
      var next :=
        if remaining <= 0.0 then OrderState.Filled
        else if state == Acked then PartiallyFilled
        else state;
      this.(filledSize := filled, remainingSize := remaining, state := next)
    }
  }

  function NewOrder(localId: LocalId, tokenId: TokenId, side: Side, price: real, size: real): TrackedOrder {
    TrackedOrder(None, localId, CreatedLocal, tokenId, side, price, size, 0.0, size)
  }

  datatype Counters = Counters(created: nat, filled: nat, cancelled: nat, rejected: nat) {
    function Entered(state: OrderState): Counters {
      this.(filled := filled + (if state == OrderState.Filled then 1 else 0),
            cancelled := cancelled + (if state == Cancelled then 1 else 0),
            rejected := rejected + (if state == Rejected then 1 else 0))
    }
  }

  // The two indexes and the counters, as values.
  datatype Store = Store(
    byOrderId: map<OrderId, TrackedOrder>,
    byLocalId: map<LocalId, TrackedOrder>,
    counters: Counters)
  {
    function Added(order: TrackedOrder): Store {
      this.(byLocalId := byLocalId[order.localId := order],
            counters := counters.(created := counters.created + 1))
    }

    function Linked(localId: LocalId, orderId: OrderId): Store
      requires localId in byLocalId
    {
      var order := byLocalId[localId].(orderId := Some(orderId));
      this.(byLocalId := byLocalId[localId := order], byOrderId := byOrderId[orderId := order])
    }

    // An accepted transition reaches the local entry and the exchange index's copy.
    function Transitioned(localId: LocalId, next: OrderState): Store
      requires localId in byLocalId
    {
      var order := byLocalId[localId].(state := next);
      Store(
        if order.orderId.Some? && order.orderId.value in byOrderId
        then byOrderId[order.orderId.value := byOrderId[order.orderId.value].(state := next)]
        else byOrderId,
        byLocalId[localId := order],
        counters.Entered(next))
    }

    // What asking for a transition does: nothing unless it is accepted.
    function Attempted(localId: LocalId, next: OrderState): Store {
      if localId in byLocalId && byLocalId[localId].state.CanTransitionTo(next)
      then Transitioned(localId, next)
      else this
    }

    // So does a fill, which also copies the sizes.
    function FillApplied(localId: LocalId, fillSize: real): Store
      requires localId in byLocalId
    {
      var order := byLocalId[localId].AfterFill(fillSize);
      Store(
        if order.orderId.Some? && order.orderId.value in byOrderId
        then
          var id := order.orderId.value;
          byOrderId[id := byOrderId[id].(
            filledSize := order.filledSize, remainingSize := order.remainingSize, state := order.state)]
        else byOrderId,
        byLocalId[localId := order],
        counters.(filled := counters.filled + if order.remainingSize <= 0.0 then 1 else 0))
    }

    function Terminal(): set<LocalId> {
      set id | id in byLocalId && byLocalId[id].state.IsTerminal()
    }

    // Drops the given orders, and the exchange entries they point to.
    function Without(ids: set<LocalId>): Store {
      this.(byLocalId := byLocalId - ids,
            byOrderId := byOrderId - set id | id in ids && id in byLocalId && byLocalId[id].orderId.Some?
                                         :: byLocalId[id].orderId.value)
    }

    // Cash that should be reserved for the orders active on the exchange.
    ghost function ReservedNotional(): real {
      Sums.Over(byLocalId, ReservedFor)
    }

    // The exchange index holds exactly the linked orders of the local index, field for field.
    ghost predicate Indexed() {
      && (forall l :: l in byLocalId ==>
            byLocalId[l].localId == l
            && (byLocalId[l].orderId.Some? ==>
                  byLocalId[l].orderId.value in byOrderId
                  && byOrderId[byLocalId[l].orderId.value] == byLocalId[l]))
      && (forall id :: id in byOrderId ==>
            byOrderId[id].orderId == Some(id)
            && byOrderId[id].localId in byLocalId
            && byLocalId[byOrderId[id].localId] == byOrderId[id])
    }
  }

  const NO_ORDERS := Store(map[], map[], Counters(0, 0, 0, 0))

  function ReservedFor(order: TrackedOrder): real {
    if order.state.IsActive() then order.RemainingNotional() else 0.0
  }

  class OpenOrders {
    var byOrderId: map<OrderId, TrackedOrder>
    var byLocalId: map<LocalId, TrackedOrder>
    var counters: Counters

    function View(): Store
      reads this
    {
      Store(byOrderId, byLocalId, counters)
    }

    constructor ()
      ensures View() == NO_ORDERS
    {
      byOrderId, byLocalId, counters := map[], map[], Counters(0, 0, 0, 0);
    }

    method Add(order: TrackedOrder) returns (localId: LocalId)
      modifies this
      ensures localId == order.localId
      ensures View() == old(View()).Added(order)
    {
      localId := order.localId;
      byLocalId := byLocalId[localId := order];
      counters := counters.(created := counters.created + 1);
    }

    method LinkOrderId(localId: LocalId, orderId: OrderId) returns (ok: bool)
      modifies this
      ensures ok <==> localId in old(byLocalId)
      ensures View() == if localId in old(byLocalId) then old(View()).Linked(localId, orderId) else old(View())
    {
      if localId !in byLocalId {
        return false;
      }
      var order := byLocalId[localId];
      order := order.(orderId := Some(orderId));
      byLocalId := byLocalId[localId := order];
      byOrderId := byOrderId[orderId := order];
      ok := true;
    }

    method Transition(localId: LocalId, next: OrderState) returns (was: Option<OrderState>)
      modifies this
      ensures var accepted := localId in old(byLocalId) && old(byLocalId)[localId].state.CanTransitionTo(next);
              && was == (if accepted then Some(old(byLocalId)[localId].state) else None)
              && View() == old(View()).Attempted(localId, next)
    {
      if localId !in byLocalId {
        return None;
      }
      var order := byLocalId[localId];
      var oldState := order.state;
      if !oldState.CanTransitionTo(next) {
        return None;
      }
      order := order.(state := next);
      byLocalId := byLocalId[localId := order];
      if order.orderId.Some? && order.orderId.value in byOrderId {
        var byId := byOrderId[order.orderId.value];
        byId := byId.(state := next);
        byOrderId := byOrderId[order.orderId.value := byId];
      }
      match next {
        case Filled => counters := counters.(filled := counters.filled + 1);
        case Cancelled => counters := counters.(cancelled := counters.cancelled + 1);
        case Rejected => counters := counters.(rejected := counters.rejected + 1);
        case _ =>
      }
      was := Some(oldState);
    }

    method ApplyFill(localId: LocalId, fillSize: real) returns (remaining: Option<real>)
      modifies this
      ensures localId !in old(byLocalId) ==> remaining == None && View() == old(View())
      ensures localId in old(byLocalId) ==>
                remaining == Some(old(byLocalId)[localId].AfterFill(fillSize).remainingSize)
                && View() == old(View()).FillApplied(localId, fillSize)
    {
      if localId !in byLocalId {
        return None;
      }
      var order := byLocalId[localId];
      order := order.(filledSize := order.filledSize + fillSize);
      order := order.(remainingSize := order.originalSize - order.filledSize);
      if order.remainingSize <= 0.0 {
        order := order.(state := Filled);
        counters := counters.(filled := counters.filled + 1);
      } else if order.state == Acked {
        order := order.(state := PartiallyFilled);
      }
      byLocalId := byLocalId[localId := order];
      if order.orderId.Some? && order.orderId.value in byOrderId {
        var byId := byOrderId[order.orderId.value];
        byId := byId.(filledSize := order.filledSize);
        byId := byId.(remainingSize := order.remainingSize);
        byId := byId.(state := order.state);
        byOrderId := byOrderId[order.orderId.value := byId];
      }
      remaining := Some(order.remainingSize);
    }

    // The active orders, in whatever order the map yields them.
    method ActiveOrders() returns (active: seq<TrackedOrder>)
      ensures forall o :: o in active <==>
                exists l :: l in byLocalId && byLocalId[l] == o && o.state.IsActive()
      ensures (forall l :: l in byLocalId ==> byLocalId[l].localId == l) ==>
                forall i, j :: 0 <= i < j < |active| ==> active[i].localId != active[j].localId
    {
      active := [];
      var left := byLocalId.Keys;
      while left != {}
        invariant left <= byLocalId.Keys
        invariant forall o :: o in active <==>
                    exists l :: l in byLocalId && l !in left && byLocalId[l] == o && o.state.IsActive()
        invariant (forall l :: l in byLocalId ==> byLocalId[l].localId == l) ==>
                    forall i, j :: 0 <= i < j < |active| ==> active[i].localId != active[j].localId
        decreases left
      {
        var l :| l in left;
        left := left - {l};
        if byLocalId[l].state.IsActive() {
          active := active + [byLocalId[l]];
        }
      }
    }

    method TotalReservedNotional() returns (total: real)
      ensures total == View().ReservedNotional()
    {
      total := 0.0;
      var left := byLocalId;
      while left != map[]
        invariant left.Keys <= byLocalId.Keys
        invariant forall l :: l in left ==> left[l] == byLocalId[l]
        invariant total + Sums.Over(left, ReservedFor) == View().ReservedNotional()
        decreases left.Keys
      {
        var l :| l in left;
        Sums.Remove(left, l, ReservedFor);
        var order := left[l];
        if order.state.IsActive() {
          total := total + order.RemainingNotional();
        }
        left := left - {l};
      }
    }

    method RemoveTerminal()
      modifies this
      ensures View() == old(View()).Without(old(View()).Terminal())
    {
      ghost var before := View();
      var terminal := set id | id in byLocalId && byLocalId[id].state.IsTerminal();
      var left := terminal;
      while left != {}
        invariant left <= terminal
        invariant View() == before.Without(terminal - left)
        decreases left
      {
        var id :| id in left;
        left := left - {id};
        if id in byLocalId {
          var order := byLocalId[id];
          byLocalId := byLocalId - {id};
          if order.orderId.Some? {
            byOrderId := byOrderId - {order.orderId.value};
          }
        }
      }
      assert terminal - left == terminal;
    }
  }

  // ---- the exchange index under every operation ----------------------------------------

  lemma AddKeepsIndexed(store: Store, order: TrackedOrder)
    requires store.Indexed() && order.localId !in store.byLocalId && order.orderId == None
    ensures store.Added(order).Indexed()
  {
  }

  // Linking keeps the indexes in agreement exactly when the exchange id is not another
  // order's and the order is not moved off an id it already had.
  lemma LinkKeepsIndexed(store: Store, localId: LocalId, orderId: OrderId)
    requires store.Indexed() && localId in store.byLocalId
    ensures store.Linked(localId, orderId).Indexed() <==>
            && (orderId in store.byOrderId ==> store.byOrderId[orderId].localId == localId)
            && store.byLocalId[localId].orderId in {None, Some(orderId)}
  {
    var next := store.Linked(localId, orderId);
    var before := store.byLocalId[localId];
    if orderId in store.byOrderId && store.byOrderId[orderId].localId != localId {
      var other := store.byOrderId[orderId].localId;
      assert next.byLocalId[other].orderId == Some(orderId);
    } else if before.orderId.Some? && before.orderId.value != orderId {
      assert before.orderId.value in next.byOrderId;
      assert next.byOrderId[before.orderId.value].localId == localId;
    }
  }

  lemma TransitionKeepsIndexed(store: Store, localId: LocalId, next: OrderState)
    requires store.Indexed() && localId in store.byLocalId
    ensures store.Transitioned(localId, next).Indexed()
  {
  }

  lemma FillKeepsIndexed(store: Store, localId: LocalId, fillSize: real)
    requires store.Indexed() && localId in store.byLocalId
    ensures store.FillApplied(localId, fillSize).Indexed()
  {
  }

  lemma CleanupKeepsIndexed(store: Store)
    requires store.Indexed()
    ensures store.Without(store.Terminal()).Indexed()
  {
    var ids := store.Terminal();
    var next := store.Without(ids);
    forall l | l in next.byLocalId
      ensures next.byLocalId[l].orderId.Some? ==> next.byLocalId[l].orderId.value in next.byOrderId
    {
      if next.byLocalId[l].orderId.Some? {
        assert store.byOrderId[store.byLocalId[l].orderId.value].localId == l;
      }
    }
  }

  // ---- one order's life -------------------------------------------------------------------

  datatype LifeStep = Move(next: OrderState) | Fill(size: real)

  // A refused transition changes nothing.
  function Live(order: TrackedOrder, step: LifeStep): TrackedOrder {
    match step
    case Move(next) => if order.state.CanTransitionTo(next) then order.(state := next) else order
    case Fill(size) => order.AfterFill(size)
  }

  function LiveAll(order: TrackedOrder, steps: seq<LifeStep>): TrackedOrder
    decreases steps
  {
    if steps == [] then order else LiveAll(Live(order, steps[0]), steps[1..])
  }

  // How often a run changes the order's state to a live one.
  function Advances(order: TrackedOrder, steps: seq<LifeStep>): nat
    decreases steps
  {
    if steps == [] then 0
    else
      var next := Live(order, steps[0]);
      (if next.state != order.state && next.state.IsLive() then 1 else 0) + Advances(next, steps[1..])
  }

  lemma {:induction false} SizesAddUp(order: TrackedOrder, steps: seq<LifeStep>)
    requires order.filledSize + order.remainingSize == order.originalSize
    ensures var o := LiveAll(order, steps);
            && o.filledSize + o.remainingSize == o.originalSize == order.originalSize
            && o.price == order.price && o.side == order.side && o.tokenId == order.tokenId
            && o.localId == order.localId && o.orderId == order.orderId
    decreases steps
  {
    if steps != [] {
      SizesAddUp(Live(order, steps[0]), steps[1..]);
    }
  }

  // Filled, Cancelled, Expired, Rejected and Unknown cannot be left: once done, an order is
  // never active again, whatever is asked of it.
  lemma {:induction false} DoneIsForever(order: TrackedOrder, steps: seq<LifeStep>)
    requires !order.state.IsLive()
    ensures !LiveAll(order, steps).state.IsLive()
    ensures !LiveAll(order, steps).state.IsActive()
    ensures Advances(order, steps) == 0
    decreases steps
  {
    if steps != [] {
      DoneIsForever(Live(order, steps[0]), steps[1..]);
    }
  }

  // The states called terminal are not absorbing on their own: one request, for Unknown, is
  // granted in each of them, and only that one leaves them.
  lemma OnlyUnknownReopens(order: TrackedOrder, step: LifeStep)
    requires order.state.IsTerminal()
    ensures Live(order, step).state.IsTerminal() <==> step != Move(Unknown)
    ensures Live(order, step).state == Unknown <==> step == Move(Unknown)
  {
  }

  // Over a run: a terminal order stays terminal throughout exactly if Unknown is never asked of it.
  lemma {:induction false} TerminalUnlessUnknown(order: TrackedOrder, steps: seq<LifeStep>)
    requires order.state.IsTerminal()
    ensures (forall k :: 0 <= k <= |steps| ==> LiveAll(order, steps[..k]).state.IsTerminal())
            <==> Move(Unknown) !in steps
    decreases steps
  {
    if steps == [] {
      assert forall k :: 0 <= k <= |steps| ==> steps[..k] == [];
    } else {
      var next := Live(order, steps[0]);
      OnlyUnknownReopens(order, steps[0]);
      assert forall k :: 1 <= k <= |steps| ==> steps[..k][0] == steps[0] && steps[..k][1..] == steps[1..][..k - 1];
      assert LiveAll(order, steps[..1]) == next by { assert steps[..1] == [steps[0]]; }
      if next.state.IsTerminal() {
        TerminalUnlessUnknown(next, steps[1..]);
        forall k | 0 <= k <= |steps| && k > 0
          ensures LiveAll(order, steps[..k]) == LiveAll(next, steps[1..][..k - 1])
        {
        }
        assert forall j :: 0 <= j <= |steps[1..]| ==> LiveAll(order, steps[..j + 1]) == LiveAll(next, steps[1..][..j]);
      }
    }
  }

  // A live order only ever advances, and at most five times.
  lemma {:induction false} AdvancesBounded(order: TrackedOrder, steps: seq<LifeStep>)
    requires order.state.IsLive()
    ensures var o := LiveAll(order, steps);
            o.state.IsLive() ==> order.state.Rank() + Advances(order, steps) <= o.state.Rank()
    ensures order.state.Rank() + Advances(order, steps) <= 5
    decreases steps
  {
    if steps != [] {
      var next := Live(order, steps[0]);
      if next.state.IsLive() {
        AdvancesBounded(next, steps[1..]);
      } else {
        DoneIsForever(next, steps[1..]);
      }
    }
  }

  // A fill bypasses the transition table, yet makes a move the table forbids exactly when
  // it completes an order that was neither active nor filled.
  lemma FillMovesAllowed(order: TrackedOrder, size: real)
    ensures var next := order.AfterFill(size);
            next.state == order.state || order.state.CanTransitionTo(next.state) <==>
            order.state.IsActive() || order.state == Filled || next.remainingSize > 0.0
  {
  }

  // The table in words. Any state may become Unknown, Expired or Rejected. Before the exchange
  // has acknowledged it an order takes one step at a time; from then on it may be filled or
  // cancelled at any point, and otherwise only moves forward.
  lemma TransitionsExactly(state: OrderState, next: OrderState)
    ensures state.CanTransitionTo(next) <==>
            || next in {Unknown, Expired, Rejected}
            || (state, next) in {(CreatedLocal, Signed), (Signed, Submitted), (Submitted, Acked)}
            || (state in {Acked, PartiallyFilled, CancelPending}
                && (next in {OrderState.Filled, Cancelled} || (next.IsActive() && state.Rank() < next.Rank())))
  {
  }

  // So the active states are those an order can be filled from, and those that can only be left
  // for Unknown, Expired or Rejected are the terminal ones and Unknown.
  lemma StatesExactly(state: OrderState)
    ensures state.IsActive() <==> state.CanTransitionTo(OrderState.Filled)
    ensures state.IsTerminal() <==> state in {OrderState.Filled, Cancelled, Expired, Rejected}
    ensures state.IsTerminal() || state == Unknown <==>
            !(state.CanTransitionTo(Signed) || state.CanTransitionTo(Submitted) || state.CanTransitionTo(Acked)
              || state.CanTransitionTo(Cancelled))
  {
  }

  // ---- what fills alone make of an order ------------------------------------------------------------

  function FillAll(order: TrackedOrder, sizes: seq<real>): TrackedOrder {
    if sizes == [] then order else FillAll(order, sizes[..|sizes| - 1]).AfterFill(sizes[|sizes| - 1])
  }

  function SizeOf(size: real): real {
    size
  }

  // The first k fills complete the order.
  predicate Reaches(order: TrackedOrder, sizes: seq<real>, k: nat)
    requires k <= |sizes|
  {
    order.filledSize + Sums.OverSeq(sizes[..k], SizeOf) >= order.originalSize
  }

  ghost predicate Completes(order: TrackedOrder, sizes: seq<real>) {
    exists k: nat :: 0 < k <= |sizes| && Reaches(order, sizes, k)
  }

  // Fills add up; the order is filled from the one that completes it, and partially filled before
  // that if it was acknowledged. Nothing else of it changes.
  lemma {:induction false} FillsExactly(order: TrackedOrder, sizes: seq<real>)
    requires sizes != []
    ensures var filled := order.filledSize + Sums.OverSeq(sizes, SizeOf);
            FillAll(order, sizes) == order.(
              filledSize := filled,
              remainingSize := order.originalSize - filled,
              state := if Completes(order, sizes) then OrderState.Filled
                       else if order.state == Acked then PartiallyFilled
                       else order.state)
  {
    var n := |sizes| - 1;
    CompletesNext(order, sizes);
    if n == 0 {
      assert sizes[..0] == [];
      assert !Completes(order, sizes[..0]);
    } else {
      FillsExactly(order, sizes[..n]);
    }
    hide Completes;
  }

  lemma ReachesPrefix(order: TrackedOrder, sizes: seq<real>, k: nat)
    requires k < |sizes|
    ensures Reaches(order, sizes[..|sizes| - 1], k) == Reaches(order, sizes, k)
  {
    assert sizes[..|sizes| - 1][..k] == sizes[..k];
  }

  lemma CompletesNext(order: TrackedOrder, sizes: seq<real>)
    requires sizes != []
    ensures Completes(order, sizes) <==>
            || Completes(order, sizes[..|sizes| - 1])
            || order.filledSize + Sums.OverSeq(sizes, SizeOf) >= order.originalSize
  {
    var init := sizes[..|sizes| - 1];
    assert sizes[..|sizes|] == sizes;
    assert Reaches(order, sizes, |sizes|) <==>
           order.filledSize + Sums.OverSeq(sizes, SizeOf) >= order.originalSize;
    hide Reaches;
    if Completes(order, init) {
      var k: nat :| 0 < k <= |init| && Reaches(order, init, k);
      ReachesPrefix(order, sizes, k);
    }
    if Completes(order, sizes) {
      var k: nat :| 0 < k <= |sizes| && Reaches(order, sizes, k);
      if k < |sizes| {
        ReachesPrefix(order, sizes, k);
      }
    }
  }

  // Cleaning up drops the filled, cancelled, expired and rejected orders, and keeps the others.
  lemma CleanupExactly(store: Store)
    ensures store.Without(store.Terminal()).byLocalId ==
            map l | l in store.byLocalId
                    && store.byLocalId[l].state !in {OrderState.Filled, Cancelled, Expired, Rejected}
                  :: store.byLocalId[l]
  {
  }

  // What the counters count: orders added, transitions into each done state, completing fills.
  lemma CountersExactly(store: Store, order: TrackedOrder, localId: LocalId, next: OrderState, size: real)
    requires localId in store.byLocalId
    ensures store.Added(order).counters == store.counters.(created := store.counters.created + 1)
    ensures var c := store.counters;
            store.Attempted(localId, next).counters ==
            if !store.byLocalId[localId].state.CanTransitionTo(next) then c
            else match next
                 case Filled => c.(filled := c.filled + 1)
                 case Cancelled => c.(cancelled := c.cancelled + 1)
                 case Rejected => c.(rejected := c.rejected + 1)
                 case _ => c
    ensures var c, was := store.counters, store.byLocalId[localId];
            store.FillApplied(localId, size).counters ==
            if was.filledSize + size >= was.originalSize then c.(filled := c.filled + 1) else c
  {
    hide OrderState.CanTransitionTo;
  }
}
