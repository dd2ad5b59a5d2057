# Polymarket trading bot: bookkeeping and pre-submission arithmetic

This project models the part of the bot that moves no bytes over a network: the ledger, the
arithmetic between an arbitrage opportunity and a submitted order, the data structures that
must agree with a simple meaning, and the timed safety machines. Decimals are exact reals,
instants are whole nanoseconds handed to each call, concurrent maps are maps, and a loop over
such a map visits its keys in an arbitrary order.

Each stateful component is a class with the source's fields. Its methods take the source's
branches and are proved equal to a step on a value (`View()`); the properties are lemmas about
those steps, and about every run of them.

| file | modules | component |
|---|---|---|
| `Base.dfy` | `Base`, `Sums` | identifiers, decimal helpers, sums over maps whose order nobody controls |
| `Positions.dfy` | `Positions` | signed positions, specified as "close first, then open" |
| `Cash.dfy` | `CashBalances` | available and reserved cash |
| `Orders.dfy` | `Orders` | order lifecycle and the store with two indexes |
| `Ledger.dfy` | `Ledgers` | fill processing, duplicate fills, bounded history, server cancels |
| `Paper.dfy` | `Equity`, `PaperTrading` | conservation of value; paper trading |
| `Protocol.dfy` | `Protocol` | reserve on acknowledgement, spend on fill, release on cancel |
| `Sync.dfy` | `StateMachine`, `Sync` | ledger audit; reconciliation with the exchange's open orders |
| `Executor.dfy` | `NumberTheory`, `Quantizer`, `GroupExecution` | gcd, lots, submission, balancing of groups |
| `Policy.dfy`, `Strategy.dfy` | `OrderPolicy`, `Strategies` | tick rounding and order parameters; intents |
| `Arbitrage.dfy` | `EdgeCalculator`, `ArbSizing`, `MathArb` | edge, sizing, the taking strategy |
| `Maker.dfy` | `MakerArb` | the posting strategy and its expiry |
| `PaperArb.dfy` | `PaperArb` | the taking strategy's legs in paper trading |
| `Exposure.dfy` | `MarketPairs`, `RiskLimits` | market registry; unhedged exposure |
| `OrderBook.dfy` | `OrderBook` | sorted books against maps from price to size |
| `Router.dfy` | `Routing` | conflicts between strategies |
| `Tracker.dfy` | `Tracking` | outstanding orders and their indexes |
| `RateLimiter.dfy` | `RateLimiting` | sliding windows |
| `CircuitBreaker.dfy` | `CircuitBreaking` | the circuit breaker |

## Main results

- **Each step does exactly what it should.** The main operations have a lemma that says what they do from their inputs
  alone: `PaperTrading.SaleBooked` and `PurchaseBooked`, `Protocol.OrderIsAcknowledged`, `OrderIsFilled` and
  `OrderIsCancelled`, `Sync.ReconciledExactly`, `MathArb.OpportunityExactly`, `MakerArb.TickExactly`,
  `Tracking.TrackedExactly`, `RateLimiting.GrantedExactly`, `CircuitBreaking.OpensExactly` and the others named so.
- **Value is conserved.** `PaperTrading.PaperConserves` over every paper run, `Protocol.ReserveIsExact` over every
  run of the reserve protocol, `Equity.FillConserves` for any single fill; the P&L identity behind them is
  `Positions.RunPnl`, and `Positions.PnlIsOrderFree` frees it from the order of fills.
- **Repeats and reconciliation are harmless.** `Ledgers.ReplayIsIgnored`, `Sync.SyncOrders` with `Sync.ReconcileSettles`.
- **Orders are cut as well as can be.** `Quantizer.QuantizedIsBest`, `Quantizer.WholeCentsExactlyAtCentPrices`,
  `ArbSizing.SizedIsLargest`.
- **From book to order.** `MathArb.ArbSubmission` and `MakerArb.MakerSubmission` run through sizing, tick rounding, the
  policy's offset and the quantizer; `ArbSizing.OffsetsExactly` and `MakerArb.MakerOffsetsExactly` say which offsets keep
  their promises, `PaperArb.PairFills` when both legs fill on paper; `MathArb.LimitsPayExactly` settles when the taker's fee survives the rounding.
- **Exposure stays in its budget.** `MathArb.BudgetIsKept`, `MakerArb.BudgetIsKept`; across markets,
  `RiskLimits.CalculateUnhedgedExposure` and `RiskLimits.FallbackIsAlwaysConservative`.
- **Structures mean what they should.** `OrderBook.BooksAreSortedDepths`, `Tracking.AlwaysConsistent`,
  `Routing.ResolutionIsSound` with `Routing.StrategyOrderIsIrrelevant`.
- **Timed machines.** `RateLimiting.WindowsNeverOverflow` (safe) and `RateLimiting.SteadyOrdersLockOut` (not live);
  `CircuitBreaking.StaysOpen`, `CircuitBreaking.ClosingIsEarned`.

## Where code and comments disagree

The model follows the code.

- `process_fill` announces that it updates the order's state (src/ledger/mod.rs:63) but never touches
  the order store. A fill of the order protocol therefore also calls `apply_fill`.
- A purchase settles only against reserved cash and is silently clamped (src/ledger/cash.rs:110-115).
  `Equity.FillConserves` says exactly which fills conserve value, `Equity.UnreservedPurchaseIsFree` shows one
  that does not; `Protocol.OffLimitFillLeaks` and `Protocol.UnsettledTransitionLeaks` say exactly when a fill
  or a transition leaves the reserve out of step. Paper trading withdraws first.
- "Terminal" states are not absorbing (src/ledger/orders.rs:61-64): each may still become Unknown, and leaves
  the terminal states exactly then (`Orders.OnlyUnknownReopens`, `Orders.TerminalUnlessUnknown`). What is
  absorbing is that set with Unknown (`Orders.DoneIsForever`).
- Whole-cent cost is promised for every submitted order (src/execution/executor.rs:554-562); it holds at
  whole-cent prices and at no others (`Quantizer.WholeCentsExactlyAtCentPrices`).
- The unwind of a group is said to flatten the excess; it overshoots by up to a share when the excess
  is too small for a dollar at its limit price (`GroupExecution.UnwindWithinOneShare`).
- The maker's price is documented never to be below the best bid (src/strategy/maker_rebate_arb.rs:166-168);
  for a bid between two ticks it can be (`MakerArb.MakerPriceIs`, `MakerArb.PostsBelowTheBid`).
- Taker prices are rounded up so that the limit "meets or exceeds the ask" (src/execution/policy.rs:209-211);
  sales are rounded up too and then miss a bid between two ticks (`OrderPolicy.TakerSaleMayNotCross`).
- The taker's fee is checked at the raw asks but not again after the asks are rounded up. On the cent tick
  `MathArb.LimitsPayExactly` says for which fees and minimum edges every trade still pays it.
- The maker's price offset (src/config.rs:271, half a cent by default, passed on by src/orchestrator/setup.rs:287)
  is meant to post inside the spread. On the cent tick the default does nothing, and sizes are computed without
  it. Orders of posted trades are all well formed exactly at offsets from zero up. They all stay within cash and
  bet exactly at offsets from zero to below a cent, or more than ten cents below zero (`ArbSizing.OffsetsExactly`,
  `MakerArb.MakerOffsetsExactly`). An order rests below its ask exactly at an offset below a cent, or below two
  if the ask lies between two cents and the bid leaves it a whole one (`MakerArb.PostRests`).
- The sizing caps a trade by the cash without its fee, and the simulator charges the fee. Both legs fill exactly
  if the cash covers the fee as well; if not, and the fee is at most 100 %, one leg is left alone (`PaperArb.PairFills`, `PaperArb.OneLegAlone`).
- The unwind of an expired maker arb is sized by the holding and then cut to lots, so it need not flatten the leg
  (`MakerArb.UnwindFlattens`, `MakerArb.UnwindsMiss`).
- The sliding window of the rate limiter does not slide by itself: entries are pruned only by a grant, so a full
  deque refuses forever (src/risk/rate_limiter.rs:97-107, `RateLimiting.RecoversUnlessFull`), and steady trading
  fills it (`RateLimiting.SteadyOrdersLockOut`).
- The separate exposure check of both arbitrage strategies never rejects anything at outcome prices: the
  cap on the size is stricter (`ArbSizing.SizedIsLargest`).

## Model

| member | source | states |
|---|---|---|
| Positions.PositionBook.ApplyFill | src/ledger/positions.rs:216-283 | the branches for opening, growing, shrinking, closing and flipping all come to one rule: close first at the average cost, then open at the fill price |
| Positions.BookedPnl | src/ledger/positions.rs:216-283 | one fill changes shares by its signed size, and cost of the holding less realized profit by exactly what was paid |
| Positions.RunPnl | src/ledger/positions.rs:216-283 | P&L identity after any fills: realized profit is the holding's signed cost minus all outlays, cost basis is average cost times shares held, fees and slippage are sums |
| Positions.RunAverage | src/ledger/positions.rs:229-280 | the average cost of an open holding stays between the lowest and the highest fill price |
| Positions.RunPerToken | src/ledger/positions.rs:216-283 | fills of other tokens never disturb a position |
| Positions.PnlIsOrderFree | src/ledger/positions.rs:79-93 | marked total P&L depends only on the multiset of fills, not on their order |
| Positions.PositionBook.AllPositions | src/ledger/positions.rs:286-292 | exactly the positions that are not flat, each once, in any order |
| Positions.MarkAllExactly | src/ledger/positions.rs:325-331 | marking sets every listed holding's unrealized profit from its last listed price and changes nothing else |
| Positions.PositionBook.ForceClose | src/ledger/positions.rs:338-345 | writes the holding off and keeps realized profit, fees and counts |
| CashBalances.CashBalance.Reserve | src/ledger/cash.rs:56-75 | moves a positive amount that is available to reserved, or changes nothing |
| CashBalances.CashBalance.Release | src/ledger/cash.rs:80-94 | moves back at most what is reserved and reports how much |
| CashBalances.CashBalance.SettleBuy | src/ledger/cash.rs:103-119 | takes at most what is reserved, and reports an error only for an amount that is not positive |
| CashBalances.CashBalance.SyncFromExchange | src/ledger/cash.rs:194-207 | the total becomes the exchange's, or the reserve if that is larger, exactly when it is off by more than the threshold, and stays otherwise |
| CashBalances.ReserveThenRelease | src/ledger/cash.rs:56-94 | release undoes reserve, total unchanged; the whole amount still comes back after spending if and only if the spending fits what was reserved before |
| Orders.OpenOrders.Transition | src/ledger/orders.rs:228-269 | accepted transitions reach both indexes and the counters, refused ones nothing |
| Orders.OpenOrders.ApplyFill | src/ledger/orders.rs:272-301 | sizes and state reach both indexes; returns what remains |
| Orders.OpenOrders.RemoveTerminal | src/ledger/orders.rs:336-351 | drops exactly the terminal orders and the exchange entries they point to |
| Orders.OpenOrders.TotalReservedNotional | src/ledger/orders.rs:354-360 | the sum of remaining notional over active orders, whatever the iteration order |
| Orders.LinkKeepsIndexed | src/ledger/orders.rs:213-225 | linking keeps the two indexes identical if and only if the exchange id belongs to no other order and the order had no other id |
| Orders.CleanupKeepsIndexed | src/ledger/orders.rs:336-351 | cleaning up keeps the two indexes identical, field for field |
| Orders.CleanupExactly | src/ledger/orders.rs:336-351 | exactly the filled, cancelled, expired and rejected orders go |
| Orders.CountersExactly | src/ledger/orders.rs:195-301 | what each counter counts |
| Orders.SizesAddUp | src/ledger/orders.rs:228-301 | filled plus remaining is the original size after any transitions and fills |
| Orders.FillsExactly | src/ledger/orders.rs:272-301 | after any fills: sizes added up, filled from the one that completes the order, partially filled before it if acknowledged, all else unchanged |
| Orders.DoneIsForever | src/ledger/orders.rs:43-93 | no run leaves Filled, Cancelled, Expired, Rejected, Unknown; such an order is never active again |
| Orders.OnlyUnknownReopens | src/ledger/orders.rs:61-79 | a terminal order stays terminal through a request or fill if and only if that is not the request for Unknown, which is always granted |
| Orders.TerminalUnlessUnknown | src/ledger/orders.rs:43-79 | a terminal order stays so throughout a run if and only if Unknown is never asked of it |
| Orders.AdvancesBounded | src/ledger/orders.rs:43-68 | a live order only moves up a rank, at most five times in its life |
| Orders.TransitionsExactly | src/ledger/orders.rs:43-68 | the whole table: three done states from anywhere, one step at a time until acknowledged, then filled, cancelled or forward |
| Orders.StatesExactly | src/ledger/orders.rs:71-93 | active are the states an order can be filled from; terminal states and Unknown are those left for nothing else |
| Orders.FillMovesAllowed | src/ledger/orders.rs:272-301 | a fill makes a move the transition table forbids exactly when it completes an order that was neither active nor filled |
| Ledgers.LedgerBook.ProcessFill | src/ledger/mod.rs:67-122 | a new fill is resolved against its order's price, booked, settled, charged and remembered; a known id changes nothing |
| Ledgers.LedgerBook.ApplyServerCancel | src/ledger/mod.rs:189-206 | an active order's remaining notional is released and the order cancelled; otherwise nothing |
| Ledgers.ReplayIsIgnored | src/ledger/mod.rs:67-76 | any fills lead to the ledger that the first occurrences of their ids lead to |
| Ledgers.PastIsIgnored | src/ledger/mod.rs:67-76 | resending any part of the past, in any order, is a no-op |
| Ledgers.HistoryIsRecent | src/ledger/mod.rs:112-121 | the history is a suffix of all booked fills, at most 10000 long and at least the last 5001, or all of them |
| Ledgers.HistoryCounts | src/ledger/mod.rs:112-121 | its exact length for every number of booked fills |
| Equity.SlippageIsOverpaid | src/ledger/mod.rs:79-98 | over any run, repeats left out, slippage cost is what fills paid beyond their expected price or their order's limit, in total and per token |
| Equity.ResolvedExactly | src/ledger/mod.rs:79-98 | a fill is booked as it came, except for those two fields |
| Equity.FillConserves | src/ledger/mod.rs:67-122 | what a new fill adds to cash plus net outlay of all holdings; with a fee and a reserve that are not negative, nothing if and only if its notional is not negative and a purchase is covered by what is reserved |
| Equity.UnreservedPurchaseIsFree | src/ledger/cash.rs:103-119 | a purchase nothing was reserved for is booked without costing cash |
| PaperTrading.SimulatePaperFills | src/orchestrator/execution.rs:97-168 | the loop over intents is the run of simulated orders on the ledger |
| PaperTrading.OrderMeets | src/orchestrator/execution.rs:97-128 | every intent meets its own token's quote |
| PaperTrading.SaleBooked | src/orchestrator/execution.rs:97-168 | a sale fills if and only if there is a bid at its limit or above; then cash grows by the bid for every share less the fee, the token loses the shares, and no other moves |
| PaperTrading.PurchaseBooked | src/orchestrator/execution.rs:97-168 | a purchase fills if and only if there is an ask at its limit or below and the cash covers it with its fee; then it pays both, the token gains the shares, and no other moves |
| PaperTrading.PaperSlippage | src/orchestrator/execution.rs:142-156 | over any paper run slippage cost is what the fills paid beyond their intents' limits |
| PaperTrading.SimulatedConserves | src/orchestrator/execution.rs:97-168 | an intent conserves value if and only if it does not fill, its notional is not negative, or it is a sale whose proceeds are all fee |
| PaperTrading.PaperConserves | src/orchestrator/execution.rs:97-168 | after any intents against any books: cash plus cost of holdings equals initial cash plus realized profit minus fees, nothing is reserved, slippage cost is never positive, and no debt arises while fees stay within 100 % |
| PaperArb.PairFills | src/orchestrator/execution.rs:97-168 | both paper legs of a sized trade fill if and only if the cash covers the raw asks with the fee; the pair then costs that, for a taker never more than the dollar a share it redeems for; with a fee up to 100 % at least one leg always fills |
| PaperArb.OneLegAlone | src/orchestrator/execution.rs:125-139 | ten dollars, asks at 43 cents and a fee of ten percent end in one leg held alone |
| Protocol.FillKeeps | src/ledger/cash.rs:103-119 | a fill at the limit price never meets the clamp and keeps the reserve and total value exact |
| Protocol.CancelKeeps | src/ledger/mod.rs:189-206 | a cancel returns the full remaining notional, its ignored transition always succeeds, and a second cancel does nothing |
| Protocol.StepKeeps | src/ledger/mod.rs:67-206 | every step of the protocol keeps the reserve exact and total value unchanged |
| Protocol.OrderIsPlaced | src/ledger/orders.rs:195-269 | a new order is created, signed and submitted |
| Protocol.OrderIsAcknowledged | src/ledger/cash.rs:56-75 | it is acknowledged, indexed and reserved for if the cash covers it, and rejected otherwise |
| Protocol.OrderIsFilled | src/ledger/mod.rs:67-122 | a fill at the limit moves exactly its sizes, its state, its share of the reserve, its fee and its shares |
| Protocol.OrderIsCancelled | src/ledger/mod.rs:189-206 | a server cancel closes it and gives its remaining notional back |
| Protocol.ReserveIsExact | src/execution/state_machine.rs:38-69 | after every run reserved cash is the remaining notional of the active orders, and value is conserved |
| Protocol.OffLimitFillLeaks | src/ledger/cash.rs:103-119 | a fill keeps the reserve exact if and only if it is at the limit price, or above it when it used up all reserved cash |
| Protocol.UnsettledTransitionLeaks | src/ledger/orders.rs:228-269 | a transition on the store alone keeps the reserve exact if and only if it leaves the order as active as it was |
| StateMachine.CheckInvariants | src/execution/state_machine.rs:38-69 | reports a cash mismatch beyond the tolerance and never anything else |
| StateMachine.AuditAfter | src/execution/state_machine.rs:38-69 | the audit finds nothing after any run of the protocol |
| Sync.SyncOrders | src/sync/mod.rs:145-200 | for any set of server ids and any iteration order: every order gone from the server is closed, exactly their remaining notional becomes available, and they are counted |
| Sync.ReconcileSettles | src/sync/mod.rs:172-192 | afterwards every active linked order is on the server, total cash is unchanged, and reconciling again changes nothing |
| Sync.ReconciledExactly | src/sync/mod.rs:172-192 | closed are exactly the acknowledged orders the server does not list, freed exactly what they had left, and nothing else changes |
| NumberTheory.GcdU64 | src/execution/executor.rs:586-593 | the loop terminates with Euclid's gcd |
| NumberTheory.GcdDividesBoth | src/execution/executor.rs:586-593 | the gcd divides both numbers |
| NumberTheory.GcdIsGreatest | src/execution/executor.rs:586-593 | every common divisor divides it |
| NumberTheory.Cofactor | src/execution/executor.rs:569-575 | m divides c k if and only if m / gcd(c, m) divides k |
| Quantizer.LotIsExact | src/execution/executor.rs:563-584 | at a whole-cent price a size in hundredths costs whole cents if and only if it is a multiple of the lot |
| Quantizer.CountIsLargest | src/execution/executor.rs:576-577 | a number of lots fits the request if and only if it is at most the number taken |
| Quantizer.QuantizedIsClose | src/execution/executor.rs:576-583 | within one lot of the request, worth a dollar whenever the request is, and raised only when the rest was not |
| Quantizer.QuantizedIsBest | src/execution/executor.rs:563-584 | the largest whole-cent size not above the request, or, when none of those is worth a dollar, the smallest above it |
| Quantizer.QuantizedKeeps | src/execution/executor.rs:563-584 | a request is unchanged if and only if price or size is zero, or it is a whole number of lots worth a dollar |
| Quantizer.NearestCent | src/execution/executor.rs:569-575 | at any price the lot goes by the nearest cent, the even one from the middle |
| Quantizer.WholeCentsExactlyAtCentPrices | src/execution/executor.rs:554-584 | all sizes cost whole cents after quantizing if and only if the price is a whole number of cents |
| GroupExecution.UnwindsTheExcess | src/execution/executor.rs:285-325 | a leg is unwound if and only if it is above the least filled one, by its excess and on the other side |
| GroupExecution.UnwindWithinOneShare | src/execution/executor.rs:303-306 | an unwind trades within one share of the excess, and more than it exactly when that is worth less than a dollar at the limit |
| GroupExecution.UnwindExactly | src/execution/executor.rs:291-325 | the unwind intent, field by field |
| GroupExecution.ResponseExactly | src/execution/executor.rs:455-524 | how every answer is classified, and how much of it counts as filled |
| GroupExecution.SubmittedAs | src/execution/policy.rs:193-427 | token, side, size and order type an intent is submitted with |
| GroupExecution.Balance | src/execution/executor.rs:280-392 | the breaker opens exactly when an unwind is not fully filled; every leg before that ends within one share of the least filled one, every leg after it keeps all it filled |
| OrderPolicy.RoundingIsTight | src/execution/policy.rs:17-31 | rounding ends on the tick, on the right side, less than a tick away, and leaves prices on the tick alone |
| OrderPolicy.PoliciesKeepTheirSide | src/execution/policy.rs:193-427 | a taker's purchase is priced at the intent or up to a tick above, a maker's within a tick below its offset price, for every offset; the intent's price is kept if and only if it is on the tick and, for a maker, the offset is at least zero and less than the tick |
| OrderPolicy.OffsetMovesWholeTicks | src/execution/policy.rs:300-320 | on the tick, a maker's offset moves a purchase up and a sale down by exactly its whole ticks |
| OrderPolicy.RestsBelowAsk | src/execution/policy.rs:300-320 | a posted purchase stays below an ask if and only if its offset is smaller than the gap between them, rounded up to the tick |
| OrderPolicy.TakerSaleMayNotCross | src/execution/policy.rs:193-224 | a taker's sale never goes below the intent, and still crosses that price if and only if it is on the tick |
| OrderPolicy.TakerSaleMisses | src/strategy/contrarian.rs:423-432 | a sale at a best bid of 47.5 cents with the market's cent tick is offered at 48 |
| OrderPolicy.MakerSaleIs | src/execution/policy.rs:300-355 | a posted sale lies on the tick, within a tick above its offset price |
| EdgeCalculator.ProfitCoversFees | src/strategy/edge_calculator.rs:138-206 | a profitable pair leaves the minimum edge and pays the taker's fee: combined asks times one plus the rate are at most a dollar |
| EdgeCalculator.ProfitableUpToDepth | src/strategy/edge_calculator.rs:138-328 | what is profitable at one size is so at another if and only if that is within the depth, which justifies asking for the minimum only |
| EdgeCalculator.ProfitableExactly | src/strategy/edge_calculator.rs:138-343 | two-sided books are profitable if and only if a dollar less the asks covers the minimum edge, and the sum of the fee, half of what the mean spread exceeds five cents by and the margin by depth, and the depth covers the size |
| EdgeCalculator.SlippageExactly | src/strategy/edge_calculator.rs:256-298 | the slippage charged to a size beyond the depth |
| EdgeCalculator.WideBooksArePassedOver | src/strategy/edge_calculator.rs:331-343 | books from 15 to 45 cents are not |
| ArbSizing.SizedKeepsLimits | src/strategy/arbitrage.rs:279-343 | a sized trade is within depth, position limit, half the free exposure, cash and bet, and worth the exchange minimum in whole shares on both legs |
| ArbSizing.SizedIsLargest | src/strategy/arbitrage.rs:279-343 | it is the largest number of hundredths that is, and none is traded exactly when there is no such number |
| ArbSizing.LegsExactly | src/strategy/arbitrage.rs:357-386 | both intents, field by field |
| ArbSizing.LegsStayTogether | src/strategy/router.rs:296-312 | conflict resolution drops neither leg, whatever other intents there are |
| ArbSizing.TradeSubmitted | src/execution/executor.rs:152-228 | through a policy with any offset and the quantizer, both legs are priced at the trade's prices plus the offset's whole cents and cost whole cents; unless that lowers them they cost at least a dollar, differ by less than a share and overdraw by at most what it adds; at the offsets of `OffsetsExactly` they cost at most the cash and the bet |
| ArbSizing.OffsetsExactly | src/strategy/arbitrage.rs:279-343 | the orders of all posted trades are well formed if and only if the offset is at least zero; all stay within cash and bet if and only if it is from zero to below a cent or below minus ten cents |
| ArbSizing.RaisingOverdraws | src/execution/policy.rs:300-320 | at every offset of a cent or more, a sized trade of a hundred shares at 44 cents a leg costs more than its bet of 88 dollars |
| ArbSizing.LoweringMissesTheMinimum | src/execution/executor.rs:577-583 | at every offset below zero, the orders of a sized trade of three shares at 34 cents a leg are not well formed |
| ArbSizing.LoweringCanCostMore | src/execution/executor.rs:577-583 | at every offset from minus ten cents to below zero, a sized trade of three shares a leg becomes four and costs more than its bet |
| MathArb.MathArbStrategy.CheckArbOpportunity | src/strategy/arbitrage.rs:193-395 | either nothing changes, or both legs of the one trade are issued and the market, count and exposure are updated for it |
| MathArb.MathArbStrategy.OnBookUpdate | src/strategy/arbitrage.rs:416-459 | the guards: enabled, registered token, matching market, no cooldown |
| MathArb.OpportunityExactly | src/strategy/arbitrage.rs:193-343 | a pair offers a trade if and only if both books are two-sided and worth it, the rounded asks keep the edge, and there is a size |
| MathArb.DecidedExactly | src/strategy/arbitrage.rs:416-459 | an update leads to it if and only if the strategy is enabled, the market matches and the cooldown has passed |
| MathArb.TradedExactly | src/strategy/arbitrage.rs:388-392 | what a trade changes |
| MathArb.ArbSubmission | src/strategy/arbitrage.rs:193-395 | the whole chain on the cent tick: limits at or up to a tick above the asks and below a dollar together, fee covered at the raw asks; orders at those limits if and only if a posted leg's offset is from zero to below a cent; at offsets from zero up whole cents, at least a dollar each and sizes within a share; at the offsets of `OffsetsExactly` total within cash and bet |
| MathArb.LimitsNearlyPayTheFee | src/strategy/arbitrage.rs:226-260 | at the rounded limits the fee is covered up to two ticks, and entirely when the asks are on the tick or the minimum edge covers the fee |
| MathArb.LimitsPayExactly | src/strategy/arbitrage.rs:226-260 | on the cent tick every trade of a taker pays the fee at its limits if and only if the first cents that do not are above 98 or leave less than the minimum edge |
| MathArb.SomeTradeMisses | src/strategy/arbitrage.rs:226-260 | for every other fee and minimum edge, a book whose asks pay the fee and whose limits do not |
| MathArb.DefaultsAndTheFee | src/strategy/arbitrage.rs:58-68 | with the default edge the limits always pay in markets without a fee, and not in those that charge ten percent |
| MathArb.BudgetIsKept | src/strategy/arbitrage.rs:181-190 | over any run exposure stays between zero and below its limit, covers all that was posted less what was sold, and equals what was posted without sales |
| MathArb.ExposureIs | src/strategy/arbitrage.rs:461-479 | the exposure after any run: posted less sold, except that sales beyond what was ever posted free nothing |
| MathArb.TradesArePaced | src/strategy/arbitrage.rs:166-178 | over any run two trades in a market are at least the cooldown apart, and the counter counts the trades |
| MakerArb.MakerPriceIs | src/strategy/maker_rebate_arb.rs:166-178 | the post is on the tick; below the ask if and only if the bid cut to the tick is; not below the bid if and only if the bid is on the tick or a tick at or above it is left below the ask (`PostsBelowTheBid` is a book where it is) |
| MakerArb.MakerRebateArbStrategy.CheckArbOpportunity | src/strategy/maker_rebate_arb.rs:184-358 | either nothing changes, or both legs are issued and a pending arb reserves their notional |
| MakerArb.MakerRebateArbStrategy.OnBookUpdate | src/strategy/maker_rebate_arb.rs:382-414 | the guards: enabled, registered token, matching market, no pending arb, no cooldown |
| MakerArb.OpportunityExactly | src/strategy/maker_rebate_arb.rs:184-275 | a pair offers a trade if and only if both books are two-sided and worth it to a maker, the posts leave the edge, and there is a size |
| MakerArb.DecidedExactly | src/strategy/maker_rebate_arb.rs:382-414 | an update leads to it if and only if the strategy is enabled, the market matches and has no pending arb, and the cooldown has passed |
| MakerArb.PostedExactly | src/strategy/maker_rebate_arb.rs:335-355 | what a post changes, the pending arb included |
| MakerArb.MakerRebateArbStrategy.OnTick | src/strategy/maker_rebate_arb.rs:426-517 | for any iteration order: all expired arbs and no others are removed, stranded legs are unwound once each, and exposure falls by the sum reserved for unfilled arbs, clamped at zero |
| MakerArb.TickExactly | src/strategy/maker_rebate_arb.rs:426-517 | a tick removes exactly the arbs past their time to live and gives back exactly what those with neither leg half filled reserved |
| MakerArb.UnwindExactly | src/strategy/maker_rebate_arb.rs:439-490 | exactly a leg that is half filled alone and has a bid is sold, whole, at once, at that bid |
| MakerArb.PostedUntilDue | src/strategy/maker_rebate_arb.rs:426-437 | a post is pending at every tick before its time and gone after the first one from then on |
| MakerArb.UnwindFlattens | src/strategy/maker_rebate_arb.rs:449-490 | an unwind that is filled as submitted leaves the stranded leg within a lot of flat, and flat if and only if the bid is zero or the holding was a whole number of lots worth a dollar |
| MakerArb.UnwindsMiss | src/strategy/maker_rebate_arb.rs:449-490 | an expired arb whose leg holds 5.55 shares at a bid of 51 cents keeps 0.55 of them after its unwind, and one that holds a single share is oversold by one |
| MakerArb.PostRests | src/strategy/maker_rebate_arb.rs:166-178 | for a bid that is below the ask on the tick, the order of a post rests below the ask if and only if the offset is below a tick, or below two with the ask between two ticks and the bid at least a tick below it |
| MakerArb.MakerSubmission | src/strategy/maker_rebate_arb.rs:184-358 | the whole chain on the cent tick: posts below their asks that leave the minimum edge; resting orders at those posts if and only if the offset is from zero to below a cent, each below its ask exactly as `PostRests` says; at offsets from zero up whole cents, at least a dollar each and sizes within a share; at the offsets of `MakerOffsetsExactly` total within cash and bet |
| MakerArb.MakerOffsetsExactly | src/strategy/maker_rebate_arb.rs:184-358 | the orders of everything the strategy posts are well formed if and only if the offset is at least zero, and within cash and bet if and only if it is from zero to below a cent or below minus ten cents |
| MakerArb.PostsAndOverdraws | src/execution/policy.rs:300-320 | a book the strategy posts on, whose orders at an offset of one cent meet the asks and cost more than the bet |
| MakerArb.BudgetIsKept | src/strategy/maker_rebate_arb.rs:184-517 | over any run of updates, fills and ticks exposure stays within its limit and covers all reservations; without sales it is exactly the pending ones plus those of expired arbs with a filled leg |
| MakerArb.ExposureIs | src/strategy/maker_rebate_arb.rs:416-517 | the exposure after any run: reservations not given back less sales, except that sales beyond them free nothing |
| MarketPairs.RegisterKeepsWellFormed | src/strategy/market_pair.rs:297-308 | registering keeps the registry well formed if and only if the pair has two tokens, takes none from another market and drops none of its own |
| MarketPairs.UnregisterKeepsWellFormed | src/strategy/market_pair.rs:311-316 | unregistering always does |
| MarketPairs.RegisteredExactly | src/strategy/market_pair.rs:297-308 | a registered market is found by its id and both tokens, and no other is disturbed |
| MarketPairs.UnregisteredExactly | src/strategy/market_pair.rs:311-316 | an unregistered one is forgotten with its tokens, and no other |
| RiskLimits.CalculateUnhedgedExposure | src/risk/limits.rs:321-367 | for any iteration order the loop's total is the sum over pairs of the difference between the legs, plus what is held outside them; without a registry it is the whole notional |
| RiskLimits.ExposureIsUnhedged | src/risk/limits.rs:311-367 | whole notional is that exposure plus both legs of every market's hedged part |
| RiskLimits.NotionalIsCost | src/ledger/positions.rs:96-98 | after any fills a holding's notional is its cost basis |
| RiskLimits.FallbackIsAlwaysConservative | src/risk/limits.rs:311-333 | after any fills at prices that are not negative, the total without a registry is never below the one with it |
| OrderBook.OrderBookState.UpdateBook | src/state/order_book.rs:48-81 | a snapshot replaces the book by its two stably sorted sides |
| OrderBook.OrderBookState.UpdateLevel | src/state/order_book.rs:87-163 | overwrites, removes or inserts the level; unreadable fields and sides change no level |
| OrderBook.LevelSetRefines | src/state/order_book.rs:100-160 | an incremental update keeps the side strictly sorted and is an update of the map from price to size |
| OrderBook.SortedExactlyWhenDistinct | src/state/order_book.rs:48-81 | a snapshot comes out strictly sorted if and only if it repeats no price |
| OrderBook.BooksAreSortedDepths | src/state/order_book.rs:48-184 | it is the list any snapshot of that map would be sorted into, and its first price is the map's best |
| OrderBook.LevelExactly | src/state/order_book.rs:87-163 | after any messages an update sets its own level, or removes it at size zero, and no other level, side or book |
| OrderBook.SnapshotExactly | src/state/order_book.rs:48-81 | a snapshot leaves exactly its levels in its book, and other books alone |
| OrderBook.BestExactly | src/state/order_book.rs:171-184 | best bid and ask are the highest bid and the lowest ask |
| Routing.ResolveConflicts | src/strategy/router.rs:284-319 | the loop keeps grouped intents and the first of every key in the stable sort by priority |
| Routing.ResolutionIsSound | src/strategy/router.rs:284-319 | the result is a priority-descending subsequence of the sort; no grouped intent is lost, every lost one yields to a kept one of its key with at least its priority, and at most one per key is not grouped |
| Routing.KeepExactly | src/strategy/router.rs:292-316 | of the sorted intents, one is kept if and only if it is linked or the first for its market, token and side |
| Routing.ResolutionByKey | src/strategy/router.rs:284-319 | per market, token and side at most one intent that is not linked is left, and one of at least every lost one's priority |
| Routing.ResolvingIsIdempotent | src/strategy/router.rs:284-319 | resolving twice is resolving once |
| Routing.PermutationsResolveAlike | src/strategy/router.rs:284-319 | with distinct priorities every permutation resolves alike |
| Routing.StrategyOrderIsIrrelevant | src/strategy/router.rs:168-213 | the hash map's order of strategies cannot be seen when no two of them issue the same priority |
| Tracking.OrderTracker.OnFill | src/execution/order_tracker.rs:175-196 | returns what remains and makes the step of `FilledExactly` |
| Tracking.FilledExactly | src/execution/order_tracker.rs:175-196 | a fill removes a tracked order if and only if it completes it; otherwise that much more of it is filled and nothing else changes |
| Tracking.OrderTracker.HasOrderAt | src/execution/order_tracker.rs:225-274 | with indexes in agreement, true if and only if some tracked order has the token, side and price; the other lookups likewise return what a scan would |
| Tracking.TrackKeepsIndexes | src/execution/order_tracker.rs:134-170 | tracking keeps the indexes in agreement if and only if the id is new or keeps its token, market and group |
| Tracking.RemoveKeeps | src/execution/order_tracker.rs:199-222 | removal keeps the indexes in agreement and removes one order |
| Tracking.AlwaysConsistent | src/execution/order_tracker.rs:119-222 | over any run with fresh ids the indexes agree, tracked orders are unfilled, and those active are those tracked and not completed |
| Tracking.TrackedExactly | src/execution/order_tracker.rs:134-222 | over any run with fresh ids an order is tracked if and only if it was entered and since then neither removed nor filled up, and with exactly what was filled |
| RateLimiting.RateLimiter.TryAcquire | src/risk/rate_limiter.rs:93-110 | grants unless a window is full, records the grant and prunes; a refusal changes nothing |
| RateLimiting.RunKeeps | src/risk/rate_limiter.rs:93-110 | the deque is a sorted suffix of all grants, and everything pruned is too old to matter again |
| RateLimiting.RecentCountsAll | src/risk/rate_limiter.rs:135-170 | counting from the back counts exactly the grants of the whole history since the cutoff |
| RateLimiting.WindowsNeverOverflow | src/risk/rate_limiter.rs:83-170 | over the entire history no closed burst or sustained window holds more grants than its threshold |
| RateLimiting.GrantedExactly | src/risk/rate_limiter.rs:93-170 | a call is granted if and only if fewer than the burst threshold were granted in its burst window and fewer than the sustained threshold in the sustained window of the last grant |
| RateLimiting.WindowsExactly | src/risk/rate_limiter.rs:47-80 | the limits and windows of both limiters |
| RateLimiting.ThresholdExactly | src/risk/rate_limiter.rs:135-138 | thresholds are four fifths of the limits, rounded down |
| RateLimiting.RecoversUnlessFull | src/risk/rate_limiter.rs:93-170 | after a pause longer than the burst window a call is refused if and only if the deque is full, however old its entries |
| RateLimiting.SteadyOrdersLockOut | src/risk/rate_limiter.rs:47-110 | an order every 20 ms fills the submission limiter after 28800 grants without ever nearing its burst window, and every later order is refused |
| CircuitBreaking.CircuitBreaker.RecordOrderResult | src/risk/circuit_breaker.rs:149-181 | successes, fatal errors and the window reset act as one step |
| CircuitBreaking.CircuitBreaker.IsTradingAllowed | src/risk/circuit_breaker.rs:125-130 | trading is refused exactly while open and not timed out |
| CircuitBreaking.AlwaysSound | src/risk/circuit_breaker.rs:125-317 | over any run closed means no reason and no opening time, with fewer fatal errors than the threshold |
| CircuitBreaking.OpensExactly | src/risk/circuit_breaker.rs:143-258 | a manual trigger, a failed reconciliation, a daily loss, a disconnect, the fatal error that reaches the threshold and too high a reject rate open the circuit, with their reason and time, and nothing else does |
| CircuitBreaking.LeavesExactly | src/risk/circuit_breaker.rs:149-288 | how each state is left otherwise |
| CircuitBreaking.ClosesAfresh | src/risk/circuit_breaker.rs:221-267 | a circuit that closes has no reason, time or counts left; a reset clears the counts only |
| CircuitBreaking.CountsExactly | src/risk/circuit_breaker.rs:143-317 | the counters, by windows of a minute |
| CircuitBreaking.FatalErrorsOpen | src/risk/circuit_breaker.rs:149-181 | as many fatal results within one window as the threshold open the circuit, whatever else happens |
| CircuitBreaking.OpeningHalts | src/risk/circuit_breaker.rs:125-288 | whatever opened it, trading is refused throughout the timeout unless forced, or reconnected after a disconnect |
| CircuitBreaking.StaysOpen | src/risk/circuit_breaker.rs:190-288 | an open circuit refuses for the whole timeout unless forced, or reconnected after a disconnect |
| CircuitBreaking.ClosingIsEarned | src/risk/circuit_breaker.rs:149-181 | unforced, a circuit closes only after three successes since it became half-open |

## Left out

- Decimal rounding, overflow and parsing: decimals are exact reals, and only the rounding the code asks for is modelled. A price, size or side that does not parse is an absent value.
- Counter widths: 32-bit and 64-bit counters do not wrap; trade counters, fill counts and breaker counts are unbounded.
- Instants: subtracting a window from an instant cannot underflow, and the clock is an argument. Timestamps that are only stored or logged are absent.
- Floating point: the rate limiter's 80 % threshold and the breaker's reject rate are exact quotients.
- Concurrency: every public method is one atomic step; locks and shards are not modelled.
- Orders.TrackedOrder: created and updated times, and market ids, are not kept.
- Ledgers.LedgerBook.ProcessFill: a fill's timestamp and its local order id play no part in it and are absent.
- Live trading cash: the live path overwrites cash from the exchange; the conservation laws cover paper trading and the reserve protocol. Forced closing writes off value and is no step of those runs.
- GroupExecution.Balance: the settlement delay and the deadline are absent; an unwind that times out is an answer that never came. Breaking off at the deadline, which leaves exposure without opening the breaker, is not modelled. Between two unwinds nothing else closes the breaker: its reset timeout is a minute and the deadline half a second.
- GroupExecution: the fold over fills starts at the largest decimal, and `UnwindsTheExcess` takes fills to be at most that.
- OrderPolicy: expirations, post-only flags and partial-fill reactions are absent. The configured maker offset is an argument.
- ArbSizing.TradeSubmitted: for a posted offset below zero it gives the prices, whole cents and sizes within a share of the trade's, and the cost bound below minus ten cents. The exchange minimum is then missed by some trade at every offset, and the bet is exceeded by some trade down to minus ten cents (`ArbSizing.LoweringMissesTheMinimum`, `ArbSizing.LoweringCanCostMore`).
- MathArb and MakerArb: intent reasons are not built, group ids are arguments, and shutdown handling is absent.
- CircuitBreaking: error texts are classified before they reach the model; alerts are absent.
- RiskLimits: order-size, daily-loss and total-exposure checks around the exposure loop are threshold comparisons and are not modelled.
- Routing: registration, enabling and evaluation counters of strategies are bookkeeping without a further property.
- Tracking: staleness queries and listings.
- Sync: retrieval of the server's order ids, position synchronisation and claims.
- Network, signing, WebSocket, REST and HTTP interfaces, metrics, alerts, configuration, market discovery and feeds.
- Signal strategies (contrarian, late entry, temporal and others): chains of guards over the same intents.
