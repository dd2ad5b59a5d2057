// Outstanding maker orders (src/execution/order_tracker.rs): one map of orders and three
// secondary indexes that must never disagree with it.
module Tracking {
  import opened Base

  datatype TrackedOrder = TrackedOrder(
    orderId: OrderId,
    tokenId: TokenId,
    marketId: ConditionId,
    side: Side,
    price: real,
    originalSize: real,
    filledSize: real,
    groupId: Option<string>)
  {
    function RemainingSize(): real {
      originalSize - filledSize
    }

    predicate IsFilled() {
      filledSize >= originalSize
    }

    function AfterFill(size: real): TrackedOrder {
      this.(filledSize := filledSize + size)
    }
  }

  type Index = map<string, set<OrderId>>

  function Lookup(index: Index, key: string): set<OrderId> {
    if key in index then index[key] else {}
  }

  // Adding an order's id under its key, or taking it out; an order without a key is not indexed.
  function Indexed(index: Index, key: Option<string>, id: OrderId): Index {
    if key.Some? then index[key.value := Lookup(index, key.value) + {id}] else index
  }

  function Unindexed(index: Index, key: Option<string>, id: OrderId): Index {
    if key.Some? && key.value in index then index[key.value := index[key.value] - {id}] else index
  }

  // What each index is keyed by.
  function TokenKey(order: TrackedOrder): Option<string> {
    Some(order.tokenId)
  }

  function MarketKey(order: TrackedOrder): Option<string> {
    Some(order.marketId)
  }

  function GroupKey(order: TrackedOrder): Option<string> {
    order.groupId
  }

  // The index lists exactly the orders a scan for the key would find.
  ghost predicate Agrees(index: Index, orders: map<OrderId, TrackedOrder>, key: TrackedOrder -> Option<string>) {
    forall k, id :: id in Lookup(index, k) <==> id in orders && key(orders[id]) == Some(k)
  }

  datatype Tracker = Tracker(
    orders: map<OrderId, TrackedOrder>,
    byToken: Index,
    byMarket: Index,
    byGroup: Index,
    totalTracked: nat,
    totalCompleted: nat)
  {
    function Tracked(order: TrackedOrder): Tracker {
      Tracker(
        orders[order.orderId := order],
        Indexed(byToken, TokenKey(order), order.orderId),
        Indexed(byMarket, MarketKey(order), order.orderId),
        Indexed(byGroup, GroupKey(order), order.orderId),
        totalTracked + 1,
        totalCompleted)
    }

    function Removed(orderId: OrderId): Tracker {
      if orderId !in orders then this
      else
        var order := orders[orderId];
        Tracker(
          orders - {orderId},
          Unindexed(byToken, TokenKey(order), orderId),
          Unindexed(byMarket, MarketKey(order), orderId),
          Unindexed(byGroup, GroupKey(order), orderId),
          totalTracked,
          totalCompleted + 1)
    }

    function FilledBy(orderId: OrderId, size: real): Tracker {
      if orderId !in orders then this
      else
        var order := orders[orderId].AfterFill(size);
        var updated := this.(orders := orders[orderId := order]);
        if order.IsFilled() then updated.Removed(orderId) else updated
    }

    ghost predicate IndexesAgree() {
      && Agrees(byToken, orders, TokenKey)
      && Agrees(byMarket, orders, MarketKey)
      && Agrees(byGroup, orders, GroupKey)
    }

    ghost predicate Consistent() {
      && IndexesAgree()
      && (forall id :: id in orders ==> orders[id].orderId == id && !orders[id].IsFilled())
      && totalTracked == totalCompleted + |orders|
    }
  }

  const EMPTY_TRACKER := Tracker(map[], map[], map[], map[], 0, 0)

  class OrderTracker {
    var orders: map<OrderId, TrackedOrder>
    var byToken: Index
    var byMarket: Index
    var byGroup: Index
    var totalTracked: nat
    var totalCompleted: nat

    function View(): Tracker
      reads this
    {
      Tracker(orders, byToken, byMarket, byGroup, totalTracked, totalCompleted)
    }

    constructor ()
      ensures View() == EMPTY_TRACKER
    {
      orders, byToken, byMarket, byGroup := map[], map[], map[], map[];
      totalTracked, totalCompleted := 0, 0;
    }

    method Track(order: TrackedOrder)
      modifies this
      ensures View() == old(View()).Tracked(order)
    {
      orders := orders[order.orderId := order];
      byToken := Enter(byToken, order.tokenId, order.orderId);
      byMarket := Enter(byMarket, order.marketId, order.orderId);
      if order.groupId.Some? {
        byGroup := Enter(byGroup, order.groupId.value, order.orderId);
      }
      totalTracked := totalTracked + 1;
    }

    // Makes the entry if the key has none yet.
    static method Enter(before: Index, key: string, id: OrderId) returns (index: Index)
      ensures index == Indexed(before, Some(key), id)
    {
      index := before;
      if key !in index {
        index := index[key := {}];
      }
      index := index[key := index[key] + {id}];
    }

    method OnFill(orderId: OrderId, fillSize: real) returns (remaining: Option<real>)
      modifies this
      ensures View() == old(View()).FilledBy(orderId, fillSize)
      ensures remaining == if orderId in old(orders) then Some(old(orders)[orderId].RemainingSize() - fillSize) else None
    {
      if orderId !in orders {
        return None;
      }
      var order := orders[orderId];
      order := order.(filledSize := order.filledSize + fillSize);
      orders := orders[orderId := order];
      remaining := Some(order.RemainingSize());
      if order.IsFilled() {
        Remove(orderId);
      }
    }

    method Remove(orderId: OrderId)
      modifies this
      ensures View() == old(View()).Removed(orderId)
    {
      if orderId in orders {
        var order := orders[orderId];
        orders := orders - {orderId};
        if order.tokenId in byToken {
          byToken := byToken[order.tokenId := byToken[order.tokenId] - {orderId}];
        }
        if order.marketId in byMarket {
          byMarket := byMarket[order.marketId := byMarket[order.marketId] - {orderId}];
        }
        if order.groupId.Some? {
          var gid := order.groupId.value;
          if gid in byGroup {
            byGroup := byGroup[gid := byGroup[gid] - {orderId}];
          }
        }
        totalCompleted := totalCompleted + 1;
      }
    }

    // Looks only at the token's index; with the indexes in agreement that is as good as
    // looking at every order.
    method HasOrderAt(tokenId: TokenId, side: Side, price: real) returns (found: bool)
      ensures View().IndexesAgree() ==>
                (found <==> exists id :: id in orders && orders[id].tokenId == tokenId
                                         && orders[id].side == side && orders[id].price == price)
    {
      var ids := Lookup(byToken, tokenId);
      var left := ids;
      while left != {}
        invariant left <= ids
        invariant forall id :: id in ids - left && id in orders ==>
                                 !(orders[id].side == side && orders[id].price == price)
        decreases left
      {
        var id :| id in left;
        if id in orders && orders[id].side == side && orders[id].price == price {
          TokenScan(View(), tokenId, id);
          return true;
        }
        left := left - {id};
      }
      forall id { TokenScan(View(), tokenId, id); }
      found := false;
    }

    method HasOrderFor(tokenId: TokenId, side: Side) returns (found: bool)
      ensures View().IndexesAgree() ==>
                (found <==> exists id :: id in orders && orders[id].tokenId == tokenId && orders[id].side == side)
    {
      var ids := Lookup(byToken, tokenId);
      var left := ids;
      while left != {}
        invariant left <= ids
        invariant forall id :: id in ids - left && id in orders ==> orders[id].side != side
        decreases left
      {
        var id :| id in left;
        if id in orders && orders[id].side == side {
          TokenScan(View(), tokenId, id);
          return true;
        }
        left := left - {id};
      }
      forall id { TokenScan(View(), tokenId, id); }
      found := false;
    }

    method OrdersForMarket(marketId: ConditionId) returns (ids: set<OrderId>)
      ensures View().IndexesAgree() ==> ids == set id | id in orders && orders[id].marketId == marketId
    {
      ids := Lookup(byMarket, marketId);
    }

    method OrdersForToken(tokenId: TokenId) returns (ids: set<OrderId>)
      ensures View().IndexesAgree() ==> ids == set id | id in orders && orders[id].tokenId == tokenId
    {
      ids := Lookup(byToken, tokenId);
    }

    method OrdersInGroup(groupId: string) returns (ids: set<OrderId>)
      ensures View().IndexesAgree() ==> ids == set id | id in orders && orders[id].groupId == Some(groupId)
    {
      ids := Lookup(byGroup, groupId);
    }
  }

  lemma TokenScan(tracker: Tracker, tokenId: TokenId, id: OrderId)
    ensures tracker.IndexesAgree() ==>
              (id in Lookup(tracker.byToken, tokenId) <==> id in tracker.orders && tracker.orders[id].tokenId == tokenId)
  {
  }

  // ---- every operation keeps an index in agreement ---------------------------------------------------

  function KeyOf(orders: map<OrderId, TrackedOrder>, id: OrderId, key: TrackedOrder -> Option<string>): Option<string> {
    if id in orders then key(orders[id]) else None
  }

  // Entering an order does so exactly when its id was not listed under another key.
  lemma EnterAgrees(
      index: Index, orders: map<OrderId, TrackedOrder>, key: TrackedOrder -> Option<string>, id: OrderId,
      order: TrackedOrder)
    requires Agrees(index, orders, key)
    ensures Agrees(Indexed(index, key(order), id), orders[id := order], key) <==>
            KeyOf(orders, id, key) in {None, key(order)}
  {
    var next := Indexed(index, key(order), id);
    assert forall k :: Lookup(next, k) == Lookup(index, k) + if Some(k) == key(order) then {id} else {};
    var was := KeyOf(orders, id, key);
    if was.Some? && was != key(order) {
      assert Some(was.value) == was;
      assert id in Lookup(index, was.value);
      assert id in Lookup(next, was.value);
      assert key(orders[id := order][id]) != Some(was.value);
    }
  }

  lemma LeaveAgrees(index: Index, orders: map<OrderId, TrackedOrder>, key: TrackedOrder -> Option<string>, id: OrderId)
    requires Agrees(index, orders, key) && id in orders
    ensures Agrees(Unindexed(index, key(orders[id]), id), orders - {id}, key)
  {
    var next := Unindexed(index, key(orders[id]), id);
    assert forall k :: Lookup(next, k) == Lookup(index, k) - if Some(k) == key(orders[id]) then {id} else {};
  }

  // An update that keeps the key needs no change of the index.
  lemma UpdateAgrees(
      index: Index, orders: map<OrderId, TrackedOrder>, key: TrackedOrder -> Option<string>, id: OrderId,
      order: TrackedOrder)
    requires Agrees(index, orders, key) && id in orders && key(orders[id]) == key(order)
    ensures Agrees(index, orders[id := order], key)
  {
  }

  // Tracking keeps all three indexes right exactly when the id is new, or was tracked for the
  // same token, market and group (or for none).
  lemma TrackKeepsIndexes(tracker: Tracker, order: TrackedOrder)
    requires tracker.IndexesAgree()
    ensures tracker.Tracked(order).IndexesAgree() <==>
            (order.orderId in tracker.orders ==>
               var was := tracker.orders[order.orderId];
               was.tokenId == order.tokenId && was.marketId == order.marketId && was.groupId in {None, order.groupId})
  {
    hide Agrees, Indexed;
    EnterAgrees(tracker.byToken, tracker.orders, TokenKey, order.orderId, order);
    EnterAgrees(tracker.byMarket, tracker.orders, MarketKey, order.orderId, order);
    EnterAgrees(tracker.byGroup, tracker.orders, GroupKey, order.orderId, order);
  }

  lemma RemoveKeeps(tracker: Tracker, id: OrderId)
    requires tracker.IndexesAgree()
    ensures tracker.Removed(id).IndexesAgree()
    ensures tracker.Removed(id).orders == tracker.orders - {id}
    ensures id in tracker.orders ==> |tracker.Removed(id).orders| == |tracker.orders| - 1
  {
    hide Agrees, Unindexed;
    if id in tracker.orders {
      LeaveAgrees(tracker.byToken, tracker.orders, TokenKey, id);
      LeaveAgrees(tracker.byMarket, tracker.orders, MarketKey, id);
      LeaveAgrees(tracker.byGroup, tracker.orders, GroupKey, id);
      assert (tracker.orders - {id}).Keys == tracker.orders.Keys - {id};
    } else {
      assert tracker.orders - {id} == tracker.orders;
    }
  }

  lemma TrackKeeps(tracker: Tracker, order: TrackedOrder)
    requires tracker.Consistent() && order.orderId !in tracker.orders && !order.IsFilled()
    ensures tracker.Tracked(order).Consistent()
  {
    hide Agrees, Indexed, Tracker.IndexesAgree;
    TrackKeepsIndexes(tracker, order);
    var next := tracker.Tracked(order);
    assert next.orders == tracker.orders[order.orderId := order];
    forall id | id in next.orders ensures next.orders[id].orderId == id && !next.orders[id].IsFilled() {
      if id != order.orderId {
        assert next.orders[id] == tracker.orders[id];
      }
    }
    assert |next.orders| == |tracker.orders| + 1;
  }

  lemma CompleteKeeps(tracker: Tracker, id: OrderId)
    requires tracker.Consistent()
    ensures tracker.Removed(id).Consistent()
  {
    hide Agrees, Unindexed, Tracker.IndexesAgree;
    RemoveKeeps(tracker, id);
  }

  lemma FillKeeps(tracker: Tracker, id: OrderId, size: real)
    requires tracker.Consistent()
    ensures tracker.FilledBy(id, size).Consistent()
  {
    hide Agrees;
    if id in tracker.orders {
      var order := tracker.orders[id].AfterFill(size);
      var updated := tracker.(orders := tracker.orders[id := order]);
      UpdateAgrees(tracker.byToken, tracker.orders, TokenKey, id, order);
      UpdateAgrees(tracker.byMarket, tracker.orders, MarketKey, id, order);
      UpdateAgrees(tracker.byGroup, tracker.orders, GroupKey, id, order);
      RemoveKeeps(updated, id);
      assert updated.orders.Keys == tracker.orders.Keys;
      assert |updated.orders| == |updated.orders.Keys| == |tracker.orders|;
    }
  }

  // ---- runs --------------------------------------------------------------------------------------------

  datatype Command = Track(order: TrackedOrder) | Fill(orderId: OrderId, size: real) | Remove(orderId: OrderId)

  // The exchange hands out an id once, for an order that is still open.
  predicate Sensible(tracker: Tracker, command: Command) {
    command.Track? ==> command.order.orderId !in tracker.orders && !command.order.IsFilled()
  }

  function Commanded(tracker: Tracker, command: Command): Tracker {
    match command
    case Track(order) => tracker.Tracked(order)
    case Fill(orderId, size) => tracker.FilledBy(orderId, size)
    case Remove(orderId) => tracker.Removed(orderId)
  }

  function CommandAll(commands: seq<Command>): Tracker {
    if commands == [] then EMPTY_TRACKER
    else Commanded(CommandAll(commands[..|commands| - 1]), commands[|commands| - 1])
  }

  // After any run the indexes list exactly what a scan would, every tracked order is still
  // unfilled, and the active ones are those tracked but not completed.
  lemma {:induction false} AlwaysConsistent(commands: seq<Command>)
    requires forall k :: 0 <= k < |commands| ==> Sensible(CommandAll(commands[..k]), commands[k])
    ensures CommandAll(commands).Consistent()
  {
    if commands != [] {
      var n := |commands| - 1;
      var was := CommandAll(commands[..n]);
      assert forall k :: 0 <= k < n ==> commands[..n][..k] == commands[..k];
      AlwaysConsistent(commands[..n]);
      assert Sensible(was, commands[n]);
      hide Tracker.Consistent, Tracker.Tracked, Tracker.FilledBy, Tracker.Removed;
      match commands[n]
      case Track(order) => TrackKeeps(was, order);
      case Fill(orderId, size) => FillKeeps(was, orderId, size);
      case Remove(orderId) => CompleteKeeps(was, orderId);
    } else {
      NothingIsConsistent();
    }
  }

  lemma NothingAgrees(key: TrackedOrder -> Option<string>)
    ensures Agrees(map[], map[], key)
  {
  }

  lemma NothingIsConsistent()
    ensures EMPTY_TRACKER.Consistent()
  {
    hide Agrees;
    NothingAgrees(TokenKey);
    NothingAgrees(MarketKey);
    NothingAgrees(GroupKey);
  }

  // ---- exactly what is tracked -----------------------------------------------------------------------

  // A fill removes a tracked order exactly when it completes it. Otherwise the order stays, with
  // that much more filled, and nothing else changes.
  lemma FilledExactly(tracker: Tracker, id: OrderId, size: real)
    ensures var next := tracker.FilledBy(id, size);
            if id !in tracker.orders then next == tracker
            else
              var order := tracker.orders[id];
              if order.filledSize + size >= order.originalSize then
                && next.orders == tracker.orders - {id}
                && next.totalCompleted == tracker.totalCompleted + 1 && next.totalTracked == tracker.totalTracked
              else
                next == tracker.(orders := tracker.orders[id := order.(filledSize := order.filledSize + size)])
  {
    if id in tracker.orders {
      var order := tracker.orders[id].AfterFill(size);
      assert tracker.orders[id := order] - {id} == tracker.orders - {id};
    }
  }

  // The fills of one id, added up.
  function FilledOf(commands: seq<Command>, id: OrderId): real {
    if commands == [] then 0.0
    else
      var last := commands[|commands| - 1];
      FilledOf(commands[..|commands| - 1], id)
      + if last.Fill? && last.orderId == id then last.size else 0.0
  }

  // What was filled after step k, before step j.
  function Since(commands: seq<Command>, k: nat, j: nat, id: OrderId): real
    requires k < j <= |commands|
  {
    FilledOf(commands[k + 1..j], id)
  }

  // Tracked at step k, never removed since, and never filled up to its size since.
  ghost predicate OpenSince(commands: seq<Command>, k: nat, id: OrderId) {
    && k < |commands| && commands[k].Track? && commands[k].order.orderId == id
    && (forall j :: k < j < |commands| ==> commands[j] != Remove(id))
    && (forall j :: k < j <= |commands| ==>
          commands[k].order.filledSize + Since(commands, k, j, id) < commands[k].order.originalSize)
  }

  // Ids are handed out once, for orders that are open.
  ghost predicate OnceTracked(commands: seq<Command>) {
    && (forall i, j :: 0 <= i < j < |commands| && commands[i].Track? && commands[j].Track? ==>
          commands[i].order.orderId != commands[j].order.orderId)
    && (forall i :: 0 <= i < |commands| && commands[i].Track? ==> !commands[i].order.IsFilled())
  }

  lemma SinceNext(commands: seq<Command>, k: nat, id: OrderId)
    requires k + 1 < |commands|
    ensures var n := |commands| - 1;
            Since(commands, k, n + 1, id) == Since(commands[..n], k, n, id)
            + if commands[n].Fill? && commands[n].orderId == id then commands[n].size else 0.0
  {
    var n := |commands| - 1;
    assert commands[k + 1..n + 1][..n - k - 1] == commands[..n][k + 1..n];
  }

  lemma SincePrefix(commands: seq<Command>, k: nat, j: nat, id: OrderId)
    requires k < j < |commands|
    ensures Since(commands[..|commands| - 1], k, j, id) == Since(commands, k, j, id)
  {
    assert commands[..|commands| - 1][k + 1..j] == commands[k + 1..j];
  }

  // What being open since step k means one command later.
  lemma OpenSinceNext(commands: seq<Command>, k: nat, id: OrderId)
    requires k + 1 < |commands|
    ensures var n := |commands| - 1;
            OpenSince(commands, k, id) <==>
            && OpenSince(commands[..n], k, id)
            && commands[n] != Remove(id)
            && commands[k].order.filledSize + Since(commands, k, n + 1, id) < commands[k].order.originalSize
  {
    if !commands[k].Track? {
      return;
    }
    var n, order := |commands| - 1, commands[k].order;
    hide Since;
    if OpenSince(commands, k, id) {
      forall j | k < j <= n ensures order.filledSize + Since(commands[..n], k, j, id) < order.originalSize {
        SincePrefix(commands, k, j, id);
        assert order.filledSize + Since(commands, k, j, id) < order.originalSize;
      }
      assert commands[n] != Remove(id);
      assert order.filledSize + Since(commands, k, n + 1, id) < order.originalSize;
    }
    if OpenSince(commands[..n], k, id) && commands[n] != Remove(id)
       && order.filledSize + Since(commands, k, n + 1, id) < order.originalSize {
      forall j | k < j <= |commands| ensures order.filledSize + Since(commands, k, j, id) < order.originalSize {
        if j <= n {
          SincePrefix(commands, k, j, id);
          assert order.filledSize + Since(commands[..n], k, j, id) < order.originalSize;
        }
      }
      forall j | k < j < |commands| ensures commands[j] != Remove(id) {
        if j < n {
          assert commands[..n][j] != Remove(id);
        }
      }
    }
  }

  ghost predicate TrackedAs(commands: seq<Command>, id: OrderId) {
    var orders := CommandAll(commands).orders;
    && (id in orders <==> exists k: nat :: OpenSince(commands, k, id))
    && (forall k: nat :: OpenSince(commands, k, id) && id in orders ==>
          orders[id] == commands[k].order.(
            filledSize := commands[k].order.filledSize + Since(commands, k, |commands|, id)))
  }

  // Over any run, an order is tracked if and only if it was entered and since then neither
  // removed nor ever filled up to its size; and it is kept with exactly what was filled.
  lemma {:induction false} TrackedExactly(commands: seq<Command>, id: OrderId)
    requires OnceTracked(commands)
    ensures TrackedAs(commands, id)
  {
    if commands != [] {
      var n := |commands| - 1;
      var init, last := commands[..n], commands[n];
      TrackedExactly(init, id);
      if last.Track? && last.order.orderId == id {
        EnteredNow(commands, id);
      } else {
        TrackedNext(commands, id);
      }
    }
  }

  lemma EnteredNow(commands: seq<Command>, id: OrderId)
    requires OnceTracked(commands) && commands != []
    requires var last := commands[|commands| - 1]; last.Track? && last.order.orderId == id
    ensures TrackedAs(commands, id)
  {
    var n := |commands| - 1;
    assert commands[n + 1..n + 1] == [];
    assert Since(commands, n, n + 1, id) == 0.0;
    assert OpenSince(commands, n, id);
    assert forall k: nat :: OpenSince(commands, k, id) ==> k == n;
  }

  lemma TrackedNext(commands: seq<Command>, id: OrderId)
    requires commands != [] && TrackedAs(commands[..|commands| - 1], id)
    requires var last := commands[|commands| - 1]; last.Track? ==> last.order.orderId != id
    ensures TrackedAs(commands, id)
  {
    var n := |commands| - 1;
    var was, now := CommandAll(commands[..n]).orders, CommandAll(commands).orders;
    KeptExactly(CommandAll(commands[..n]), commands[n], id);
    hide CommandAll, Tracker.Tracked, Tracker.Removed, Tracker.FilledBy, Since;
    forall k: nat | k < n ensures OpenSince(commands, k, id) <==> id in now && OpenSince(commands[..n], k, id)
      ensures OpenSince(commands, k, id) ==>
                now[id] == commands[k].order.(filledSize := commands[k].order.filledSize + Since(commands, k, n + 1, id))
    {
      OpenSinceNext(commands, k, id);
      SinceNext(commands, k, id);
      hide OpenSince;
      if OpenSince(commands[..n], k, id) {
        assert id in was;
      }
    }
    assert forall k: nat :: OpenSince(commands, k, id) ==> k < n;
    assert forall k: nat :: OpenSince(commands[..n], k, id) ==> k < n;
    hide OpenSince;
  }

  // What a command that does not enter the id does to its order.
  lemma KeptExactly(tracker: Tracker, command: Command, id: OrderId)
    requires command.Track? ==> command.order.orderId != id
    ensures var orders := Commanded(tracker, command).orders;
            if id !in tracker.orders then id !in orders
            else
              var order := tracker.orders[id];
              var size := if command.Fill? && command.orderId == id then command.size else 0.0;
              var done := command == Remove(id)
                          || (command.Fill? && command.orderId == id && order.filledSize + size >= order.originalSize);
              if done then id !in orders
              else id in orders && orders[id] == order.(filledSize := order.filledSize + size)
  {
    match command
    case Track(order) =>
    case Fill(orderId, size) => FilledExactly(tracker, orderId, size);
    case Remove(orderId) =>
  }
}
