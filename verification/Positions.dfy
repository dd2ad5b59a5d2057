// Positions (src/ledger/positions.rs): signed share counts per token, added, grown,
// shrunk and flipped by confirmed fills.
//
// A fill is specified as "close first, then open": the part of the signed size that runs
// against the holding closes it at its average cost, what is left opens at the fill price,
// and the two lots are averaged. The class performs the source's case split and is proved
// to do exactly that.
module Positions {
  import opened Base
  import Sums

  datatype Fill = Fill(
    fillId: string,
    orderId: OrderId,
    tokenId: TokenId,
    side: Side,
    price: real,
    size: real,
    fee: real,
    expectedPrice: Option<real>,
    slippageCost: real)
  {
    function Notional(): real {
      Value(price, size)
    }

    function SignedSize(): real {
      if side == Buy then size else -size
    }
  }

  // Price per share of a lot of x shares at price a joined with y shares at price b.
  function Average(a: real, x: real, b: real, y: real): real {
    if x + y == 0.0 then 0.0 else (a * x + b * y) / (x + y)
  }

  // Profit of closing a signed holding of n shares bought at cost, at price.
  function Gain(price: real, cost: real, n: real): real {
    (price - cost) * n
  }

  datatype Position = Position(
    shares: real,
    avgCost: real,
    costBasis: real,
    realizedPnl: real,
    unrealizedPnl: real,
    totalFees: real,
    totalSlippageCost: real,
    fillCount: nat)
  {
    predicate IsFlat() {
      shares == 0.0
    }

    function TotalPnl(): real {
      realizedPnl + unrealizedPnl
    }

    function Notional(): real {
      Value(avgCost, Abs(shares))
    }

    // What the holding cost, signed.
    function SignedCost(): real {
      Value(avgCost, shares)
    }

    function Marked(marketPrice: real): Position {
      this.(unrealizedPnl := if IsFlat() then 0.0 else Gain(marketPrice, avgCost, shares))
    }

    // The part of the holding, signed, that a signed trade q closes.
    function Closed(q: real): real {
      if shares > 0.0 then Min(Max(-q, 0.0), shares) else Max(Min(-q, 0.0), shares)
    }

    // Close first, then open.
    function Booked(fill: Fill): Position {
      var q := fill.SignedSize();
      var closed := Closed(q);
      var kept := shares - closed;
      var added := q + closed;
      var held := shares + q;
      var avg :=
        if IsFlat() && held == 0.0 then fill.price
        else Average(avgCost, Abs(kept), fill.price, Abs(added));
      Position(
        held,
        avg,
        Value(avg, Abs(held)),
        realizedPnl + Gain(fill.price, avgCost, closed),
        unrealizedPnl,
        totalFees + fill.fee,
        totalSlippageCost + fill.slippageCost,
        fillCount + 1)
    }
  }

  const NO_POSITION := Position(0.0, 0.0, 0.0, 0.0, 0.0, 0.0, 0.0, 0)

  function Get(positions: map<TokenId, Position>, tokenId: TokenId): Position {
    if tokenId in positions then positions[tokenId] else NO_POSITION
  }

  function Apply(positions: map<TokenId, Position>, fill: Fill): map<TokenId, Position> {
    positions[fill.tokenId := Get(positions, fill.tokenId).Booked(fill)]
  }

  function MarkAll(positions: map<TokenId, Position>, prices: seq<(TokenId, real)>): map<TokenId, Position> {
    if prices == [] then positions
    else
      var (tokenId, price) := prices[0];
      MarkAll(if tokenId in positions then positions[tokenId := positions[tokenId].Marked(price)] else positions,
              prices[1..])
  }

  // ---- algebra of averages -----------------------------------------------------------

  lemma AverageCost(a: real, x: real, b: real, y: real)
    requires x + y != 0.0
    ensures Average(a, x, b, y) * (x + y) == a * x + b * y
  {
  }

  lemma AverageQuotient(a: real, x: real, b: real, y: real)
    requires x + y != 0.0
    ensures Average(a, x, b, y) == (Value(a, x) + Value(b, y)) / (x + y)
  {
  }

  lemma AverageOne(a: real, x: real, b: real)
    requires x != 0.0
    ensures Average(a, x, b, 0.0) == a
    ensures Average(b, 0.0, a, x) == a
  {
    assert a * x / x == a;
  }

  lemma AverageBetween(a: real, x: real, b: real, y: real, lo: real, hi: real)
    requires x >= 0.0 && y >= 0.0 && x + y > 0.0
    requires x > 0.0 ==> lo <= a <= hi
    requires y > 0.0 ==> lo <= b <= hi
    ensures lo <= Average(a, x, b, y) <= hi
  {
    if x == 0.0 {
      AverageOne(b, y, a);
    } else if y == 0.0 {
      AverageOne(a, x, b);
    } else {
      LotsAtLeast(a, x, b, y, lo);
      LotsAtLeast(-a, x, -b, y, -hi);
      hide Average;
      AverageQuotient(a, x, b, y);
      QuotientAtLeast(Value(a, x) + Value(b, y), x + y, lo);
      QuotientAtLeast(-(Value(a, x) + Value(b, y)), x + y, -hi);
    }
  }

  lemma LotsAtLeast(a: real, x: real, b: real, y: real, lo: real)
    requires x >= 0.0 && y >= 0.0 && lo <= a && lo <= b
    ensures lo * (x + y) <= a * x + b * y
  {
    assert (a - lo) * x >= 0.0;
    assert (b - lo) * y >= 0.0;
  }

  lemma QuotientAtLeast(total: real, n: real, lo: real)
    requires n > 0.0 && lo * n <= total
    ensures lo <= total / n
    ensures -(total / n) == -total / n
  {
    assert total / n * n == total;
  }

  // ---- what "close first, then open" comes to in each of the source's branches ----------

  // Fees, slippage and the fill count move the same way in every branch.
  function Counted(p: Position, fill: Fill): Position {
    p.(totalFees := p.totalFees + fill.fee,
       totalSlippageCost := p.totalSlippageCost + fill.slippageCost,
       fillCount := p.fillCount + 1)
  }

  lemma BookedOpening(p: Position, fill: Fill)
    requires p.IsFlat()
    ensures var held := p.shares + fill.SignedSize();
            p.Booked(fill) ==
            Counted(p, fill).(shares := held, avgCost := fill.price, costBasis := Value(fill.price, Abs(held)))
  {
    hide Average;
    var q := fill.SignedSize();
    assert p.Closed(q) == 0.0;
    if q != 0.0 {
      AverageOne(fill.price, Abs(q), p.avgCost);
    }
  }

  lemma BookedAdding(p: Position, fill: Fill)
    requires !p.IsFlat()
    requires p.shares > 0.0 <==> fill.SignedSize() > 0.0
    ensures var held := p.shares + fill.SignedSize();
            var totalCost := Value(p.avgCost, Abs(p.shares)) + Value(fill.price, Abs(fill.SignedSize()));
            && Abs(held) > 0.0
            && p.Booked(fill) ==
               Counted(p, fill).(shares := held, avgCost := totalCost / Abs(held), costBasis := totalCost)
  {
    hide Average;
    var q := fill.SignedSize();
    assert p.Closed(q) == 0.0;
    assert Abs(p.shares) + Abs(q) == Abs(p.shares + q);
    AverageCost(p.avgCost, Abs(p.shares), fill.price, Abs(q));
    AverageQuotient(p.avgCost, Abs(p.shares), fill.price, Abs(q));
  }

  function Signum(x: real): real {
    if x > 0.0 then 1.0 else if x < 0.0 then -1.0 else 0.0
  }

  lemma GainSigned(price: real, cost: real, n: real, sign: real)
    requires n != 0.0 ==> sign == Signum(n)
    ensures Value(Value(price - cost, Abs(n)), sign) == Gain(price, cost, n)
  {
    if n < 0.0 {
      assert (price - cost) * -n * -1.0 == (price - cost) * n;
    }
  }

  lemma BookedReducing(p: Position, fill: Fill)
    requires !p.IsFlat()
    requires !(p.shares > 0.0 <==> fill.SignedSize() > 0.0)
    ensures var q := fill.SignedSize();
            var held := p.shares + q;
            var realized := Value(Value(fill.price - p.avgCost, Min(Abs(q), Abs(p.shares))), Signum(p.shares));
            var r := Counted(p, fill).(shares := held, realizedPnl := p.realizedPnl + realized);
            p.Booked(fill) ==
            if held == 0.0 then r.(avgCost := 0.0, costBasis := 0.0)
            else if (p.shares > 0.0 && held < 0.0) || (p.shares < 0.0 && held > 0.0) then
              r.(avgCost := fill.price, costBasis := Value(fill.price, Abs(q) - Abs(p.shares)))
            else r.(costBasis := Value(p.avgCost, Abs(held)))
  {
    hide Average, Gain, Value;
    var q := fill.SignedSize();
    var held := p.shares + q;
    var closed := p.Closed(q);
    assert Abs(closed) == Min(Abs(q), Abs(p.shares));
    GainSigned(fill.price, p.avgCost, closed, Signum(p.shares));
    if held == 0.0 {
      AverageNone(p.avgCost, fill.price);
    } else {
      AverageOne(p.avgCost, Abs(held), fill.price);
      AverageOne(fill.price, Abs(held), p.avgCost);
    }
  }

  lemma AverageNone(a: real, b: real)
    ensures Average(a, 0.0, b, 0.0) == Value(0.0, 0.0) == 0.0
  {
  }

  class PositionBook {
    var positions: map<TokenId, Position>

    constructor ()
      ensures positions == map[]
    {
      positions := map[];
    }

    method ApplyFill(fill: Fill)
      modifies this
      ensures positions == Apply(old(positions), fill)
    {
      hide Position.Booked, Value;
      var position := Get(positions, fill.tokenId);
      ghost var before := position;
      var oldShares := position.shares;
      var fillShares := fill.SignedSize();
      var newShares := oldShares + fillShares;
      position := position.(totalFees := position.totalFees + fill.fee);
      position := position.(totalSlippageCost := position.totalSlippageCost + fill.slippageCost);
      position := position.(fillCount := position.fillCount + 1);

      if oldShares == 0.0 {
        BookedOpening(before, fill);
        position := position.(shares := newShares);
        position := position.(avgCost := fill.price);
        position := position.(costBasis := Value(fill.price, Abs(newShares)));
      } else if (oldShares > 0.0) == (fillShares > 0.0) {
        BookedAdding(before, fill);
        var oldCost := Value(position.avgCost, Abs(oldShares));
        var newCost := Value(fill.price, Abs(fillShares));
        var totalCost := oldCost + newCost;
        var totalShares := Abs(newShares);
        position := position.(shares := newShares);
        position := position.(avgCost := if totalShares > 0.0 then totalCost / totalShares else 0.0);
        position := position.(costBasis := totalCost);
      } else {
        BookedReducing(before, fill);
        var closingShares := Min(Abs(fillShares), Abs(oldShares));
        var realized := Value(Value(fill.price - position.avgCost, closingShares), Signum(oldShares));
        position := position.(realizedPnl := position.realizedPnl + realized);
        var flipped := (oldShares > 0.0 && newShares < 0.0) || (oldShares < 0.0 && newShares > 0.0);
        if newShares == 0.0 {
          position := position.(shares := 0.0);
          position := position.(avgCost := 0.0);
          position := position.(costBasis := 0.0);
        } else if flipped {
          var remainingFill := Abs(fillShares) - Abs(oldShares);
          position := position.(shares := newShares);
          position := position.(avgCost := fill.price);
          position := position.(costBasis := Value(fill.price, remainingFill));
        } else {
          position := position.(shares := newShares);
          position := position.(costBasis := Value(position.avgCost, Abs(newShares)));
        }
      }
      assert position == before.Booked(fill);
      positions := positions[fill.tokenId := position];
    }

    // Every position that is not flat, in whatever order the map yields them.
    method AllPositions() returns (open: seq<(TokenId, Position)>)
      ensures forall t, p :: (t, p) in open <==> t in positions && positions[t] == p && !p.IsFlat()
      ensures forall i, j :: 0 <= i < j < |open| ==> open[i].0 != open[j].0
    {
      open := [];
      var left := positions.Keys;
      while left != {}
        invariant left <= positions.Keys
        invariant forall t, p :: (t, p) in open <==> t in positions && t !in left && positions[t] == p && !p.IsFlat()
        invariant forall i, j :: 0 <= i < j < |open| ==> open[i].0 != open[j].0
        decreases left
      {
        var t :| t in left;
        left := left - {t};
        if !positions[t].IsFlat() {
          open := open + [(t, positions[t])];
        }
      }
    }

    method MarkAllToMarket(prices: seq<(TokenId, real)>)
      modifies this
      ensures positions == MarkAll(old(positions), prices)
    {
      for i := 0 to |prices|
        invariant MarkAll(positions, prices[i..]) == MarkAll(old(positions), prices)
      {
        var (tokenId, price) := prices[i];
        assert prices[i..][1..] == prices[i + 1..];
        if tokenId in positions {
          positions := positions[tokenId := positions[tokenId].Marked(price)];
        }
      }
    }

    method ForceClose(tokenId: TokenId)
      modifies this
      ensures tokenId !in old(positions) ==> positions == old(positions)
      ensures tokenId in old(positions) ==>
                var p := old(positions)[tokenId];
                positions == old(positions)[tokenId :=
                  NO_POSITION.(realizedPnl := p.realizedPnl, totalFees := p.totalFees,
                         totalSlippageCost := p.totalSlippageCost, fillCount := p.fillCount)]
    {
      if tokenId in positions {
        var p := positions[tokenId];
        p := p.(shares := 0.0, avgCost := 0.0, costBasis := 0.0, unrealizedPnl := 0.0);
        positions := positions[tokenId := p];
      }
    }
  }

  // ---- runs of fills ----------------------------------------------------------------

  function ApplyAll(positions: map<TokenId, Position>, fills: seq<Fill>): map<TokenId, Position> {
    if fills == [] then positions
    else Apply(ApplyAll(positions, fills[..|fills| - 1]), fills[|fills| - 1])
  }

  // The fills of one token, in order.
  function OnToken(fills: seq<Fill>, tokenId: TokenId): seq<Fill> {
    if fills == [] then []
    else
      var last := fills[|fills| - 1];
      OnToken(fills[..|fills| - 1], tokenId) + if last.tokenId == tokenId then [last] else []
  }

  // Shares gained by a fill, and cash that left for them (negative for a sale).
  function Quantity(fill: Fill): real {
    fill.SignedSize()
  }

  function Outlay(fill: Fill): real {
    Value(fill.price, fill.SignedSize())
  }

  // Booking neither creates nor destroys value: the cost of the holding grows by what was
  // paid plus the profit realized.
  lemma BookedPnl(p: Position, fill: Fill)
    ensures p.Booked(fill).shares == p.shares + Quantity(fill)
    ensures p.Booked(fill).SignedCost() - p.Booked(fill).realizedPnl
         == p.SignedCost() - p.realizedPnl + Outlay(fill)
  {
    hide Average, Gain, Value;
    var q := fill.SignedSize();
    var closed := p.Closed(q);
    var kept := p.shares - closed;
    var added := q + closed;
    var held := p.shares + q;
    var avg := p.Booked(fill).avgCost;
    if held != 0.0 {
      assert Abs(kept) + Abs(added) == Abs(held);
      AverageSigned(p.avgCost, kept, fill.price, added);
    } else {
      assert kept == 0.0 && added == 0.0;
    }
    CloseAlgebra(p.shares, p.avgCost, q, fill.price, closed, avg);
  }

  lemma AverageSigned(a: real, x: real, b: real, y: real)
    requires x + y != 0.0
    requires Abs(x) + Abs(y) == Abs(x + y)
    ensures Value(Average(a, Abs(x), b, Abs(y)), x + y) == Value(a, x) + Value(b, y)
  {
    hide Average;
    var avg := Average(a, Abs(x), b, Abs(y));
    AverageCost(a, Abs(x), b, Abs(y));
    if x + y < 0.0 {
      assert avg * -(x + y) == a * -x + b * -y;
    }
  }

  lemma CloseAlgebra(shares: real, cost: real, q: real, price: real, closed: real, avg: real)
    requires Value(avg, shares + q) == Value(cost, shares - closed) + Value(price, q + closed)
          || (shares - closed == 0.0 && q + closed == 0.0)
    ensures Value(avg, shares + q) - Gain(price, cost, closed) == Value(cost, shares) + Value(price, q)
  {
  }

  // The position a token ends with when its fills are booked one after the other.
  function BookAll(fills: seq<Fill>): Position {
    if fills == [] then NO_POSITION
    else BookAll(fills[..|fills| - 1]).Booked(fills[|fills| - 1])
  }

  function Fee(fill: Fill): real {
    fill.fee
  }

  function Slippage(fill: Fill): real {
    fill.slippageCost
  }

  // P&L identity, through every open, grow, shrink, close and flip.
  lemma {:induction false} RunPnl(fills: seq<Fill>)
    ensures var p := BookAll(fills);
            && p.shares == Sums.OverSeq(fills, Quantity)
            && p.realizedPnl == p.SignedCost() - Sums.OverSeq(fills, Outlay)
            && p.costBasis == Value(p.avgCost, Abs(p.shares))
            && p.totalFees == Sums.OverSeq(fills, Fee)
            && p.totalSlippageCost == Sums.OverSeq(fills, Slippage)
            && p.fillCount == |fills|
  {
    hide Average, Gain;
    if fills != [] {
      var n := |fills| - 1;
      RunPnl(fills[..n]);
      hide Value;
      BookedPnl(BookAll(fills[..n]), fills[n]);
    }
  }

  // The average cost of a holding never leaves the range of the prices paid.
  lemma {:induction false} RunAverage(fills: seq<Fill>, lo: real, hi: real)
    requires forall f :: f in fills ==> lo <= f.price <= hi
    ensures !BookAll(fills).IsFlat() ==> lo <= BookAll(fills).avgCost <= hi
  {
    hide Average, Gain, Value;
    if fills != [] {
      var n := |fills| - 1;
      var p, fill := BookAll(fills[..n]), fills[n];
      RunAverage(fills[..n], lo, hi);
      var kept := p.shares - p.Closed(fill.SignedSize());
      var added := fill.SignedSize() + p.Closed(fill.SignedSize());
      if p.shares + fill.SignedSize() != 0.0 {
        AverageBetween(p.avgCost, Abs(kept), fill.price, Abs(added), lo, hi);
      }
    }
  }

  // Right after a mark, what a holding has made is its market value less what was paid.
  lemma RunTotalPnl(fills: seq<Fill>, mark: real)
    ensures BookAll(fills).Marked(mark).TotalPnl()
         == Value(mark, Sums.OverSeq(fills, Quantity)) - Sums.OverSeq(fills, Outlay)
  {
    RunPnl(fills);
    var p := BookAll(fills);
    hide BookAll;
    assert Gain(mark, p.avgCost, p.shares) == Value(mark, p.shares) - p.SignedCost();
  }

  lemma {:induction false} OnTokenCount(fills: seq<Fill>, tokenId: TokenId, f: Fill)
    ensures multiset(OnToken(fills, tokenId))[f] == if f.tokenId == tokenId then multiset(fills)[f] else 0
  {
    if fills != [] {
      var n := |fills| - 1;
      OnTokenCount(fills[..n], tokenId, f);
      assert fills == fills[..n] + [fills[n]];
    }
  }

  // Fills of other tokens never disturb a position.
  lemma {:induction false} RunPerToken(fills: seq<Fill>, tokenId: TokenId)
    ensures Get(ApplyAll(map[], fills), tokenId) == BookAll(OnToken(fills, tokenId))
  {
    hide Position.Booked;
    if fills != [] {
      var n := |fills| - 1;
      RunPerToken(fills[..n], tokenId);
      var own := OnToken(fills[..n], tokenId);
      assert (own + [fills[n]])[..|own|] == own;
      assert own + [] == own;
    }
  }

  // The same fills in any order, interleaved with any other tokens' fills, leave the same
  // marked P&L (realized and unrealized P&L separately do depend on the order).
  lemma PnlIsOrderFree(fills: seq<Fill>, others: seq<Fill>, tokenId: TokenId, mark: real)
    requires multiset(fills) == multiset(others)
    ensures Get(ApplyAll(map[], fills), tokenId).Marked(mark).TotalPnl()
         == Get(ApplyAll(map[], others), tokenId).Marked(mark).TotalPnl()
  {
    RunPerToken(fills, tokenId);
    RunPerToken(others, tokenId);
    SameOnToken(fills, others, tokenId);
    SamePnl(OnToken(fills, tokenId), OnToken(others, tokenId), mark);
  }

  lemma SamePnl(own: seq<Fill>, other: seq<Fill>, mark: real)
    requires multiset(own) == multiset(other)
    ensures BookAll(own).Marked(mark).TotalPnl() == BookAll(other).Marked(mark).TotalPnl()
  {
    Sums.OverSeqPermutation(own, other, Quantity);
    Sums.OverSeqPermutation(own, other, Outlay);
    RunTotalPnl(own, mark);
    RunTotalPnl(other, mark);
  }

  lemma SameOnToken(fills: seq<Fill>, others: seq<Fill>, tokenId: TokenId)
    requires multiset(fills) == multiset(others)
    ensures multiset(OnToken(fills, tokenId)) == multiset(OnToken(others, tokenId))
  {
    forall f ensures multiset(OnToken(fills, tokenId))[f] == multiset(OnToken(others, tokenId))[f] {
      OnTokenCount(fills, tokenId, f);
      OnTokenCount(others, tokenId, f);
    }
  }

  // ---- marking ---------------------------------------------------------------------------------------

  // The last price listed for a token.
  function LastPrice(prices: seq<(TokenId, real)>, tokenId: TokenId): Option<real> {
    if prices == [] then None
    else if prices[|prices| - 1].0 == tokenId then Some(prices[|prices| - 1].1)
    else LastPrice(prices[..|prices| - 1], tokenId)
  }

  lemma LastPriceFirst(prices: seq<(TokenId, real)>, tokenId: TokenId)
    requires prices != []
    ensures LastPrice(prices, tokenId) ==
            var later := LastPrice(prices[1..], tokenId);
            if later.Some? then later else if prices[0].0 == tokenId then Some(prices[0].1) else None
  {
    if |prices| > 1 {
      LastPriceFirst(prices[..|prices| - 1], tokenId);
      assert prices[1..][..|prices[1..]| - 1] == prices[..|prices| - 1][1..];
    } else {
      assert prices[..0] == prices[1..] == [];
    }
  }

  // Marking values every listed holding at its last price and touches nothing but its unrealized
  // profit; holdings that are not listed keep theirs.
  lemma {:induction false} MarkAllExactly(
      positions: map<TokenId, Position>, prices: seq<(TokenId, real)>, tokenId: TokenId)
    ensures MarkAll(positions, prices).Keys == positions.Keys
    ensures tokenId in positions ==>
              var p, price := positions[tokenId], LastPrice(prices, tokenId);
              MarkAll(positions, prices)[tokenId] ==
              if price.None? then p else p.(unrealizedPnl := Gain(price.value, p.avgCost, p.shares))
    decreases prices
  {
    if prices != [] {
      var (first, price) := prices[0];
      var next := if first in positions then positions[first := positions[first].Marked(price)] else positions;
      MarkAllExactly(next, prices[1..], tokenId);
      LastPriceFirst(prices, tokenId);
      hide LastPrice, Gain;
      if first in positions {
        MarkedAt(positions[first], price);
      }
    }
  }

  lemma MarkedAt(p: Position, price: real)
    ensures p.Marked(price) == p.(unrealizedPnl := Gain(price, p.avgCost, p.shares))
  {
  }
}
