// The ledger (src/ledger/mod.rs): positions, cash and orders behind one fill entry point
// that ignores repeated fill ids and keeps a bounded history.
module Ledgers {
  import opened Base
  import opened Positions
  import opened CashBalances
  import opened Orders

  const MAX_FILLS := 10_000

  datatype Ledger = Ledger(
    orders: Store,
    positions: map<TokenId, Position>,
    cash: Cash,
    fills: seq<Fill>,
    seen: set<string>)
  {
    // The fill as it is booked: with the limit price of its order when it carries none, and
    // with what it cost beyond that price.
    function Resolved(fill: Fill): Fill {
      var expected :=
        if fill.expectedPrice.Some? then fill.expectedPrice
        else if fill.orderId in orders.byOrderId then Some(orders.byOrderId[fill.orderId].price)
        else None;
      fill.(expectedPrice := expected,
            slippageCost := if expected.None? then 0.0 else Value(fill.price - expected.value, fill.SignedSize()))
    }

    // Cash after a booked fill is paid for, or paid, and its fee taken.
    function Settled(fill: Fill): Cash {
      (if fill.side == Buy then cash.SettledBuy(fill.Notional()) else cash.Received(fill.Notional()))
      .Charged(fill.fee)
    }

    function Processed(fill: Fill): Ledger {
      if fill.fillId in seen then this
      else
        var booked := Resolved(fill);
        Ledger(orders, Apply(positions, booked), Settled(booked), Remember(fills, booked), seen + {fill.fillId})
    }

    // The exchange no longer knows the order: release what its unfilled part reserves.
    predicate Cancellable(orderId: OrderId) {
      orderId in orders.byOrderId && orders.byOrderId[orderId].state.IsActive()
    }

    function ServerCancelled(orderId: OrderId): Ledger {
      if Cancellable(orderId) then
        var order := orders.byOrderId[orderId];
        this.(cash := cash.Released(order.RemainingNotional()),
              orders := orders.Attempted(order.localId, Cancelled))
      else this
    }
  }

  // Appends to the history, dropping the oldest half of its bound once that is exceeded.
  function Remember(fills: seq<Fill>, fill: Fill): seq<Fill> {
    var all := fills + [fill];
    if |all| > MAX_FILLS then all[MAX_FILLS / 2..] else all
  }

  function NewLedger(initialCash: real): Ledger {
    Ledger(NO_ORDERS, map[], Cash(initialCash, 0.0), [], {})
  }

  class LedgerBook {
    const orders: OpenOrders
    const positions: PositionBook
    const cash: CashBalance
    var fills: seq<Fill>
    var seen: set<string>

    function View(): Ledger
      reads this, orders, positions, cash
    {
      Ledger(orders.View(), positions.positions, cash.View(), fills, seen)
    }

    constructor (initialCash: real)
      ensures View() == NewLedger(initialCash)
      ensures fresh(orders) && fresh(positions) && fresh(cash)
    {
      orders := new OpenOrders();
      positions := new PositionBook();
      cash := new CashBalance(initialCash);
      fills := [];
      seen := {};
    }

    method ProcessFill(incoming: Fill)
      modifies this, positions, cash
      ensures View() == old(View()).Processed(incoming)
    {
      hide Position.Booked, Value;
      var fill := incoming;
      if fill.fillId in seen {
        return;
      }
      seen := seen + {fill.fillId};

      if fill.expectedPrice.None? {
        if fill.orderId in orders.byOrderId {
          fill := fill.(expectedPrice := Some(orders.byOrderId[fill.orderId].price));
        }
      }
      match fill.expectedPrice {
        case Some(expected) =>
          match fill.side {
            case Buy => fill := fill.(slippageCost := Value(fill.price - expected, fill.size));
            case Sell =>
              fill := fill.(slippageCost := Value(expected - fill.price, fill.size));
              ValueOfSale(fill.price - expected, fill.size);
          }
        case None =>
          fill := fill.(slippageCost := 0.0);
      }
      assert fill == old(View()).Resolved(incoming);

      positions.ApplyFill(fill);

      match fill.side {
        case Buy => var _ := cash.SettleBuy(fill.Notional());
        case Sell => cash.SettleSell(fill.Notional());
      }
      cash.DeductFee(fill.fee);

      fills := fills + [fill];
      if |fills| > MAX_FILLS {
        fills := fills[MAX_FILLS / 2..];
      }
    }

    method ApplyServerCancel(orderId: OrderId) returns (corrected: bool)
      modifies orders, cash
      ensures corrected == old(View()).Cancellable(orderId)
      ensures View() == old(View()).ServerCancelled(orderId)
    {
      if orderId !in orders.byOrderId {
        return false;
      }
      var order := orders.byOrderId[orderId];
      if !order.state.IsActive() {
        return false;
      }
      var reservedAmount := order.RemainingNotional();
      if reservedAmount > 0.0 {
        var _ := cash.Release(reservedAmount);
      }
      var _ := orders.Transition(order.localId, Cancelled);
      corrected := true;
    }
  }

  lemma ValueOfSale(price: real, n: real)
    ensures Value(-price, n) == Value(price, -n)
  {
  }

  // ---- replay --------------------------------------------------------------------------------

  function ProcessAll(ledger: Ledger, fills: seq<Fill>): Ledger {
    if fills == [] then ledger
    else ProcessAll(ledger, fills[..|fills| - 1]).Processed(fills[|fills| - 1])
  }

  function Ids(fills: seq<Fill>): set<string> {
    set f | f in fills :: f.fillId
  }

  // The fills whose id is neither seen before nor carried by an earlier fill.
  function FirstOnly(fills: seq<Fill>, seen: set<string>): seq<Fill> {
    if fills == [] then []
    else
      var before := fills[..|fills| - 1];
      var last := fills[|fills| - 1];
      FirstOnly(before, seen) + if last.fillId in seen + Ids(before) then [] else [last]
  }

  lemma IdsSnoc(fills: seq<Fill>)
    requires fills != []
    ensures Ids(fills) == Ids(fills[..|fills| - 1]) + {fills[|fills| - 1].fillId}
  {
    var n := |fills| - 1;
    assert fills == fills[..n] + [fills[n]];
  }

  lemma {:induction false} SeenAfter(ledger: Ledger, fills: seq<Fill>)
    ensures ProcessAll(ledger, fills).seen == ledger.seen + Ids(fills)
    ensures ProcessAll(ledger, fills).orders == ledger.orders
  {
    hide Apply, Remember, Ledger.Settled;
    if fills != [] {
      SeenAfter(ledger, fills[..|fills| - 1]);
      IdsSnoc(fills);
    }
  }

  lemma {:induction false} FirstOnlyIds(fills: seq<Fill>, seen: set<string>)
    ensures seen + Ids(FirstOnly(fills, seen)) == seen + Ids(fills)
  {
    if fills != [] {
      var n := |fills| - 1;
      FirstOnlyIds(fills[..n], seen);
      IdsSnoc(fills);
      var kept := FirstOnly(fills[..n], seen);
      if fills[n].fillId !in seen + Ids(fills[..n]) {
        IdsSnoc(kept + [fills[n]]);
        assert (kept + [fills[n]])[..|kept|] == kept;
      } else {
        assert kept + [] == kept;
      }
    }
  }

  // Repeats never matter: the whole ledger is the one the first occurrences alone lead to.
  lemma {:induction false} ReplayIsIgnored(ledger: Ledger, fills: seq<Fill>)
    ensures ProcessAll(ledger, fills) == ProcessAll(ledger, FirstOnly(fills, ledger.seen))
  {
    hide Apply, Remember, Ledger.Settled;
    if fills != [] {
      var n := |fills| - 1;
      ReplayIsIgnored(ledger, fills[..n]);
      SeenAfter(ledger, fills[..n]);
      var kept := FirstOnly(fills[..n], ledger.seen);
      if fills[n].fillId in ledger.seen + Ids(fills[..n]) {
        assert kept + [] == kept;
      } else {
        assert (kept + [fills[n]])[..|kept|] == kept;
      }
    }
  }

  // In particular a reconnect may resend any part of the past, in any order, to no effect.
  lemma {:induction false} PastIsIgnored(ledger: Ledger, fills: seq<Fill>, resent: seq<Fill>)
    requires Ids(resent) <= ledger.seen + Ids(fills)
    ensures ProcessAll(ledger, fills + resent) == ProcessAll(ledger, fills)
  {
    hide Apply, Remember, Ledger.Settled;
    if resent == [] {
      assert fills + resent == fills;
    } else {
      var n := |resent| - 1;
      assert (fills + resent)[..|fills + resent| - 1] == fills + resent[..n];
      assert resent[n] in resent && resent[n].fillId in Ids(resent);
      PastIsIgnored(ledger, fills, resent[..n]);
      SeenAfter(ledger, fills);
    }
  }

  // ---- the bounded history -----------------------------------------------------------------------

  // Every fill ever booked, as booked.
  function Accepted(ledger: Ledger, fills: seq<Fill>): seq<Fill> {
    if fills == [] then []
    else
      var before := fills[..|fills| - 1];
      var last := fills[|fills| - 1];
      Accepted(ledger, before) +
      if last.fillId in ledger.seen + Ids(before) then [] else [ledger.Resolved(last)]
  }

  // A history that ends like the list of all booked fills: at most 10000 of them, and never
  // fewer than the last 5001, or all while there are no more.
  ghost predicate IsRecent(history: seq<Fill>, all: seq<Fill>) {
    && |history| <= |all|
    && history == all[|all| - |history|..]
    && |history| <= MAX_FILLS
    && (history == all || |history| > MAX_FILLS / 2)
  }

  lemma RememberKeepsRecent(history: seq<Fill>, all: seq<Fill>, fill: Fill)
    requires IsRecent(history, all)
    ensures IsRecent(Remember(history, fill), all + [fill])
  {
    var longer := history + [fill];
    assert longer == (all + [fill])[|all| - |history|..];
    if |longer| > MAX_FILLS {
      assert longer[MAX_FILLS / 2..] == (all + [fill])[|all| + 1 - |longer| + MAX_FILLS / 2..];
    }
  }

  // How many of n booked fills are kept: all up to the bound, and from then on 5001 to 10000 in turn.
  function KeptOf(n: nat): nat {
    if n <= 10_000 then n else 5_001 + (n - 10_001) % 5_000
  }

  lemma KeptNext(n: nat)
    ensures KeptOf(n) <= 10_000
    ensures KeptOf(n + 1) == if KeptOf(n) < 10_000 then KeptOf(n) + 1 else 5_001
  {
    if n > 10_000 {
      var m := n - 10_001;
      assert (m + 1) % 5_000 == if m % 5_000 == 4_999 then 0 else m % 5_000 + 1;
    }
  }

  lemma RememberCounts(history: seq<Fill>, fill: Fill)
    ensures |history| <= 10_000 ==>
              |Remember(history, fill)| == if |history| < 10_000 then |history| + 1 else 5_001
  {
  }

  lemma {:induction false} HistoryIsRecent(initialCash: real, fills: seq<Fill>)
    ensures IsRecent(ProcessAll(NewLedger(initialCash), fills).fills, Accepted(NewLedger(initialCash), fills))
  {
    hide Apply, Ledger.Settled, Remember, IsRecent, Value;
    var start := NewLedger(initialCash);
    if fills == [] {
      NothingIsRecent();
    } else {
      var n := |fills| - 1;
      HistoryIsRecent(initialCash, fills[..n]);
      SeenAfter(start, fills[..n]);
      var was := ProcessAll(start, fills[..n]);
      var all := Accepted(start, fills[..n]);
      if fills[n].fillId in start.seen + Ids(fills[..n]) {
        assert all + [] == all;
      } else {
        RememberKeepsRecent(was.fills, all, was.Resolved(fills[n]));
      }
    }
  }

  lemma {:induction false} HistoryCounts(initialCash: real, fills: seq<Fill>)
    ensures |ProcessAll(NewLedger(initialCash), fills).fills| == KeptOf(|Accepted(NewLedger(initialCash), fills)|)
  {
    hide Apply, Ledger.Settled, Remember, Value, KeptOf, Ledger.Resolved;
    var start := NewLedger(initialCash);
    if fills == [] {
      KeptOfNone();
    } else {
      var n := |fills| - 1;
      HistoryCounts(initialCash, fills[..n]);
      SeenAfter(start, fills[..n]);
      var was, all := ProcessAll(start, fills[..n]), Accepted(start, fills[..n]);
      KeptNext(|all|);
      RememberCounts(was.fills, was.Resolved(fills[n]));
    }
  }

  lemma KeptOfNone()
    ensures KeptOf(0) == 0
  {
  }

  lemma NothingIsRecent()
    ensures IsRecent([], [])
  {
  }
}
