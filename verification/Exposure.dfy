// Market pairs (src/strategy/market_pair.rs) and the unhedged exposure across them
// (src/risk/limits.rs).
module MarketPairs {
  import opened Base

  datatype MarketPair = MarketPair(
    conditionId: ConditionId,
    yesTokenId: TokenId,
    noTokenId: TokenId,
    feeRateBps: nat,
    tickSize: real)
  {
    function Tokens(): set<TokenId> {
      {yesTokenId, noTokenId}
    }

    predicate Contains(tokenId: TokenId) {
      tokenId == yesTokenId || tokenId == noTokenId
    }

    function Complement(tokenId: TokenId): Option<TokenId> {
      if tokenId == yesTokenId then Some(noTokenId)
      else if tokenId == noTokenId then Some(yesTokenId)
      else None
    }
  }

  datatype Registry = Registry(byCondition: map<ConditionId, MarketPair>, byToken: map<TokenId, MarketPair>) {
    function Registered(pair: MarketPair): Registry {
      Registry(byCondition[pair.conditionId := pair], byToken[pair.yesTokenId := pair][pair.noTokenId := pair])
    }

    function Unregistered(conditionId: ConditionId): Registry {
      if conditionId in byCondition
      then Registry(byCondition - {conditionId}, byToken - byCondition[conditionId].Tokens())
      else this
    }

    // Every token leads to the registered pair it belongs to, and every registered pair has
    // two tokens that lead to it.
    ghost predicate WellFormed() {
      && (forall t :: t in byToken ==>
            var pair := byToken[t];
            pair.Contains(t) && pair.conditionId in byCondition && byCondition[pair.conditionId] == pair)
      && (forall c :: c in byCondition ==>
            var pair := byCondition[c];
            && pair.conditionId == c
            && pair.yesTokenId != pair.noTokenId
            && pair.yesTokenId in byToken && byToken[pair.yesTokenId] == pair
            && pair.noTokenId in byToken && byToken[pair.noTokenId] == pair)
    }
  }

  class MarketPairRegistry {
    var byCondition: map<ConditionId, MarketPair>
    var byToken: map<TokenId, MarketPair>

    function View(): Registry
      reads this
    {
      Registry(byCondition, byToken)
    }

    constructor ()
      ensures View() == Registry(map[], map[])
    {
      byCondition, byToken := map[], map[];
    }

    method Register(pair: MarketPair)
      modifies this
      ensures View() == old(View()).Registered(pair)
    {
      byCondition := byCondition[pair.conditionId := pair];
      byToken := byToken[pair.yesTokenId := pair];
      byToken := byToken[pair.noTokenId := pair];
    }

    method Unregister(conditionId: ConditionId)
      modifies this
      ensures View() == old(View()).Unregistered(conditionId)
    {
      if conditionId in byCondition {
        var pair := byCondition[conditionId];
        byCondition := byCondition - {conditionId};
        byToken := byToken - {pair.yesTokenId};
        byToken := byToken - {pair.noTokenId};
      }
    }

    method GetByToken(tokenId: TokenId) returns (pair: Option<MarketPair>)
      ensures pair == if tokenId in byToken then Some(byToken[tokenId]) else None
    {
      pair := if tokenId in byToken then Some(byToken[tokenId]) else None;
    }
  }

  // Registering keeps the registry well formed exactly when the pair has two tokens, takes
  // none from another market, and drops none its own market had.
  predicate CanRegister(registry: Registry, pair: MarketPair) {
    && pair.yesTokenId != pair.noTokenId
    && (forall t :: t in registry.byToken && pair.Contains(t) ==>
          registry.byToken[t].conditionId == pair.conditionId)
    && (pair.conditionId in registry.byCondition ==>
          pair.Contains(registry.byCondition[pair.conditionId].yesTokenId)
          && pair.Contains(registry.byCondition[pair.conditionId].noTokenId))
  }

  lemma RegisterKeepsWellFormed(registry: Registry, pair: MarketPair)
    requires registry.WellFormed()
    ensures registry.Registered(pair).WellFormed() <==> CanRegister(registry, pair)
  {
    if registry.Registered(pair).WellFormed() {
      OnlyIfCanRegister(registry, pair);
    }
    if CanRegister(registry, pair) {
      IfCanRegister(registry, pair);
    }
  }

  // The two halves of being well formed, one key at a time.
  lemma AtToken(registry: Registry, t: TokenId)
    requires registry.WellFormed() && t in registry.byToken
    ensures var pair := registry.byToken[t];
            && pair.Contains(t)
            && pair.conditionId in registry.byCondition
            && registry.byCondition[pair.conditionId] == pair
  {
  }

  lemma AtCondition(registry: Registry, c: ConditionId)
    requires registry.WellFormed() && c in registry.byCondition
    ensures var pair := registry.byCondition[c];
            && pair.conditionId == c
            && pair.yesTokenId != pair.noTokenId
            && forall t :: pair.Contains(t) ==> t in registry.byToken && registry.byToken[t] == pair
  {
  }

  lemma OnlyIfCanRegister(registry: Registry, pair: MarketPair)
    requires registry.WellFormed() && registry.Registered(pair).WellFormed()
    ensures CanRegister(registry, pair)
  {
    hide Registry.WellFormed;
    var next := registry.Registered(pair);
    AtCondition(next, pair.conditionId);
    forall t | t in registry.byToken && pair.Contains(t)
      ensures registry.byToken[t].conditionId == pair.conditionId
    {
      AtToken(registry, t);
      AtCondition(next, registry.byToken[t].conditionId);
    }
    if pair.conditionId in registry.byCondition {
      AtCondition(registry, pair.conditionId);
      AtToken(next, registry.byCondition[pair.conditionId].yesTokenId);
      AtToken(next, registry.byCondition[pair.conditionId].noTokenId);
    }
  }

  lemma IfCanRegister(registry: Registry, pair: MarketPair)
    requires registry.WellFormed() && CanRegister(registry, pair)
    ensures registry.Registered(pair).WellFormed()
  {
    var next := registry.Registered(pair);
    hide Registry.WellFormed;
    forall t | t in next.byToken
      ensures var p := next.byToken[t];
              p.Contains(t) && p.conditionId in next.byCondition && next.byCondition[p.conditionId] == p
    {
      if !pair.Contains(t) {
        AtToken(registry, t);
      }
    }
    forall c | c in next.byCondition
      ensures var p := next.byCondition[c];
              && p.conditionId == c
              && p.yesTokenId != p.noTokenId
              && p.yesTokenId in next.byToken && next.byToken[p.yesTokenId] == p
              && p.noTokenId in next.byToken && next.byToken[p.noTokenId] == p
    {
      if c != pair.conditionId {
        AtCondition(registry, c);
        assert registry.byCondition[c].Contains(registry.byCondition[c].yesTokenId);
        assert registry.byCondition[c].Contains(registry.byCondition[c].noTokenId);
      }
    }
    MakesWellFormed(next);
  }

  lemma MakesWellFormed(registry: Registry)
    requires forall t :: t in registry.byToken ==>
               var p := registry.byToken[t];
               p.Contains(t) && p.conditionId in registry.byCondition && registry.byCondition[p.conditionId] == p
    requires forall c :: c in registry.byCondition ==>
               var p := registry.byCondition[c];
               && p.conditionId == c
               && p.yesTokenId != p.noTokenId
               && p.yesTokenId in registry.byToken && registry.byToken[p.yesTokenId] == p
               && p.noTokenId in registry.byToken && registry.byToken[p.noTokenId] == p
    ensures registry.WellFormed()
  {
  }

  // A registered market is found by its id and by both of its tokens, and no other is disturbed.
  lemma RegisteredExactly(registry: Registry, pair: MarketPair)
    ensures var next := registry.Registered(pair);
            && pair.conditionId in next.byCondition && next.byCondition[pair.conditionId] == pair
            && (forall t :: t in {pair.yesTokenId, pair.noTokenId} ==> t in next.byToken && next.byToken[t] == pair)
            && (forall c :: c != pair.conditionId ==>
                  (c in next.byCondition <==> c in registry.byCondition)
                  && (c in next.byCondition ==> next.byCondition[c] == registry.byCondition[c]))
            && (forall t :: t !in {pair.yesTokenId, pair.noTokenId} ==>
                  (t in next.byToken <==> t in registry.byToken)
                  && (t in next.byToken ==> next.byToken[t] == registry.byToken[t]))
  {
  }

  // Unregistering forgets a market and its tokens, and nothing else.
  lemma UnregisteredExactly(registry: Registry, conditionId: ConditionId)
    requires registry.WellFormed()
    ensures var next := registry.Unregistered(conditionId);
            && next.byCondition == (map c | c in registry.byCondition && c != conditionId :: registry.byCondition[c])
            && next.byToken == (map t | t in registry.byToken && registry.byToken[t].conditionId != conditionId
                                      :: registry.byToken[t])
  {
    var next := registry.Unregistered(conditionId);
    forall t | t in registry.byToken
      ensures t in next.byToken <==> registry.byToken[t].conditionId != conditionId
    {
      AtToken(registry, t);
      if conditionId in registry.byCondition {
        AtCondition(registry, conditionId);
      }
    }
    hide Registry.WellFormed;
    if conditionId !in registry.byCondition {
      forall t | t in registry.byToken ensures registry.byToken[t].conditionId != conditionId {
        AtToken(registry, t);
      }
    }
  }

  lemma UnregisterKeepsWellFormed(registry: Registry, conditionId: ConditionId)
    requires registry.WellFormed()
    ensures registry.Unregistered(conditionId).WellFormed()
  {
    var next := registry.Unregistered(conditionId);
    assert forall c :: c in next.byCondition ==> next.byCondition[c] == registry.byCondition[c];
    assert forall t :: t in next.byToken ==> next.byToken[t] == registry.byToken[t];
  }
}

module RiskLimits {
  import opened Base
  import opened Positions
  import opened MarketPairs
  import Sums

  function NotionalOf(p: Position): real {
    p.Notional()
  }

  function Held(positions: map<TokenId, Position>, tokenId: TokenId): real {
    if tokenId in positions then NotionalOf(positions[tokenId]) else 0.0
  }

  // Directional exposure of one market: the difference between its two legs.
  function Imbalance(positions: map<TokenId, Position>, pair: MarketPair): real {
    Abs(Held(positions, pair.yesTokenId) - Held(positions, pair.noTokenId))
  }

  function Imbalances(positions: map<TokenId, Position>, pairs: map<ConditionId, MarketPair>): map<ConditionId, real> {
    map c | c in pairs :: Imbalance(positions, pairs[c])
  }

  function Itself(x: real): real {
    x
  }

  // The imbalance of every registered market, plus everything held outside them.
  ghost function Unhedged(positions: map<TokenId, Position>, registry: Registry): real {
    Sums.Over(Imbalances(positions, registry.byCondition), Itself)
    + Sums.Over(positions - registry.byToken.Keys, NotionalOf)
  }

  // All holdings, each exactly once, flat ones left out.
  ghost predicate IsListing(positions: seq<(TokenId, Position)>, held: map<TokenId, Position>) {
    && (forall t, p :: (t, p) in positions <==> t in held && held[t] == p && !p.IsFlat())
    && (forall i, j :: 0 <= i < j < |positions| ==> positions[i].0 != positions[j].0)
  }

  function Tokens(positions: seq<(TokenId, Position)>): set<TokenId> {
    set k | 0 <= k < |positions| :: positions[k].0
  }

  // Without a registry: the whole notional.
  method TotalNotional(positions: seq<(TokenId, Position)>, ghost held: map<TokenId, Position>) returns (total: real)
    requires IsListing(positions, held)
    ensures total == Sums.Over(held, NotionalOf)
  {
    hide NotionalOf;
    total := 0.0;
    assert held - (held.Keys - {}) == map[];
    for i := 0 to |positions|
      invariant total == Sums.Over(held - (held.Keys - Tokens(positions[..i])), NotionalOf)
    {
      var (tokenId, pos) := positions[i];
      NextToken(positions, held, i);
      CountOne(held, Tokens(positions[..i]), tokenId);
      total := total + NotionalOf(pos);
    }
    assert positions[..|positions|] == positions;
    AllCounted(held, positions, {});
    assert held - {} == held && held - (held.Keys - Tokens(positions)) - {} == held - (held.Keys - Tokens(positions));
  }

  method CalculateUnhedgedExposure(book: PositionBook, registry: MarketPairRegistry?) returns (total: real)
    ensures registry == null ==> total == Sums.Over(book.positions, NotionalOf)
    ensures registry != null && registry.View().WellFormed() ==> total == Unhedged(book.positions, registry.View())
  {
    hide NotionalOf, Counted, Unhedged, Registry.WellFormed;
    var positions := book.AllPositions();
    ghost var held := book.positions;
    if registry == null {
      total := TotalNotional(positions, held);
      return;
    }

    ghost var reg := registry.View();
    var totalUnhedged := 0.0;
    var seen: set<ConditionId> := {};
    NothingCounted(held, reg);
    for i := 0 to |positions|
      invariant reg.WellFormed() ==> Counted(held, reg, Tokens(positions[..i]), seen, totalUnhedged)
    {
      var (tokenId, pos) := positions[i];
      NextToken(positions, held, i);
      ghost var counted := Tokens(positions[..i]);
      var pair := registry.GetByToken(tokenId);
      if pair.Some? {
        if reg.WellFormed() {
          CountPaired(held, reg, counted, seen, totalUnhedged, tokenId);
        }
        if pair.value.conditionId in seen {
          continue;
        }
        seen := seen + {pair.value.conditionId};
        var complement := pair.value.Complement(tokenId);
        var complementNotional := 0.0;
        if complement.Some? {
          complementNotional := FindNotional(positions, complement.value, held);
        }
        var thisNotional := NotionalOf(pos);
        totalUnhedged := totalUnhedged + Abs(thisNotional - complementNotional);
      } else {
        if reg.WellFormed() {
          CountLoose(held, reg, counted, seen, totalUnhedged, tokenId);
        }
        totalUnhedged := totalUnhedged + NotionalOf(pos);
      }
    }
    assert positions[..|positions|] == positions;
    if reg.WellFormed() {
      AllSeen(held, reg, positions, seen, totalUnhedged);
    }
    total := totalUnhedged;
  }

  // The running total once the given tokens were visited.
  ghost predicate Counted(
      held: map<TokenId, Position>, reg: Registry, counted: set<TokenId>, seen: set<ConditionId>, total: real)
  {
    && seen == (set t | t in counted && t in reg.byToken :: reg.byToken[t].conditionId)
    && total == Sums.Over(Imbalances(held, reg.byCondition - (reg.byCondition.Keys - seen)), Itself)
                + Sums.Over(held - (held.Keys - counted) - reg.byToken.Keys, NotionalOf)
  }

  lemma NothingCounted(held: map<TokenId, Position>, reg: Registry)
    ensures Tokens([]) == {}
    ensures Counted(held, reg, {}, {}, 0.0)
  {
    assert Imbalances(held, reg.byCondition - (reg.byCondition.Keys - {})) == map[];
    assert held - (held.Keys - {}) - reg.byToken.Keys == map[];
  }

  lemma NextToken(positions: seq<(TokenId, Position)>, held: map<TokenId, Position>, i: nat)
    requires IsListing(positions, held) && i < |positions|
    ensures var (tokenId, pos) := positions[i];
            && tokenId in held && held[tokenId] == pos
            && tokenId !in Tokens(positions[..i])
            && Tokens(positions[..i + 1]) == Tokens(positions[..i]) + {tokenId}
  {
    assert (positions[i].0, positions[i].1) in positions;
    var next := positions[..i + 1];
    assert forall k :: 0 <= k < i ==> next[k] == positions[..i][k];
    assert next[i] == positions[i];
  }

  // A token of a registered market counts with its market, once.
  lemma CountPaired(
      held: map<TokenId, Position>, reg: Registry, counted: set<TokenId>, seen: set<ConditionId>, total: real,
      tokenId: TokenId)
    requires reg.WellFormed() && Counted(held, reg, counted, seen, total)
    requires tokenId in held && tokenId !in counted && tokenId in reg.byToken
    ensures var pair := reg.byToken[tokenId];
            && pair.Complement(tokenId).Some?
            && Imbalance(held, pair) == Abs(NotionalOf(held[tokenId]) - Held(held, pair.Complement(tokenId).value))
            && (pair.conditionId in seen ==> Counted(held, reg, counted + {tokenId}, seen, total))
            && (pair.conditionId !in seen ==>
                  Counted(held, reg, counted + {tokenId}, seen + {pair.conditionId}, total + Imbalance(held, pair)))
  {
    hide Registry.WellFormed, NotionalOf;
    var pair := reg.byToken[tokenId];
    AtToken(reg, tokenId);
    AtCondition(reg, pair.conditionId);
    assert held - (held.Keys - (counted + {tokenId})) - reg.byToken.Keys
        == held - (held.Keys - counted) - reg.byToken.Keys;
    if pair.conditionId !in seen {
      SeeOne(held, reg, seen, pair);
    }
  }

  // Any other token counts by itself.
  lemma CountLoose(
      held: map<TokenId, Position>, reg: Registry, counted: set<TokenId>, seen: set<ConditionId>, total: real,
      tokenId: TokenId)
    requires Counted(held, reg, counted, seen, total)
    requires tokenId in held && tokenId !in counted && tokenId !in reg.byToken
    ensures Counted(held, reg, counted + {tokenId}, seen, total + NotionalOf(held[tokenId]))
  {
    hide NotionalOf;
    var loose := held - reg.byToken.Keys;
    CountOne(loose, counted, tokenId);
    assert held - (held.Keys - counted) - reg.byToken.Keys == loose - (loose.Keys - counted);
    assert held - (held.Keys - (counted + {tokenId})) - reg.byToken.Keys
        == loose - (loose.Keys - (counted + {tokenId}));
  }

  // The notional of the listed position with the given token, if there is one.
  method FindNotional(positions: seq<(TokenId, Position)>, tokenId: TokenId, ghost held: map<TokenId, Position>)
    returns (notional: real)
    requires IsListing(positions, held)
    ensures notional == Held(held, tokenId)
  {
    hide NotionalOf;
    for i := 0 to |positions|
      invariant forall k :: 0 <= k < i ==> positions[k].0 != tokenId
    {
      assert (positions[i].0, positions[i].1) in positions;
      if positions[i].0 == tokenId {
        return NotionalOf(positions[i].1);
      }
    }
    notional := 0.0;
    if tokenId in held {
      FlatIsNothing(held[tokenId]);
      assert !held[tokenId].IsFlat() ==> (tokenId, held[tokenId]) in positions;
    }
  }

  lemma FlatIsNothing(p: Position)
    ensures p.IsFlat() ==> NotionalOf(p) == 0.0
  {
  }

  lemma CountOne(held: map<TokenId, Position>, counted: set<TokenId>, tokenId: TokenId)
    requires tokenId in held && tokenId !in counted
    ensures Sums.Over(held - (held.Keys - (counted + {tokenId})), NotionalOf)
         == Sums.Over(held - (held.Keys - counted), NotionalOf) + NotionalOf(held[tokenId])
  {
    var more := held - (held.Keys - (counted + {tokenId}));
    Sums.Remove(more, tokenId, NotionalOf);
    assert more - {tokenId} == held - (held.Keys - counted);
  }

  lemma SeeOne(held: map<TokenId, Position>, reg: Registry, seen: set<ConditionId>, pair: MarketPair)
    requires pair.conditionId in reg.byCondition && reg.byCondition[pair.conditionId] == pair
    requires pair.conditionId !in seen
    ensures Sums.Over(Imbalances(held, reg.byCondition - (reg.byCondition.Keys - (seen + {pair.conditionId}))), Itself)
         == Sums.Over(Imbalances(held, reg.byCondition - (reg.byCondition.Keys - seen)), Itself) + Imbalance(held, pair)
  {
    var more := Imbalances(held, reg.byCondition - (reg.byCondition.Keys - (seen + {pair.conditionId})));
    Sums.Remove(more, pair.conditionId, Itself);
    assert more - {pair.conditionId} == Imbalances(held, reg.byCondition - (reg.byCondition.Keys - seen));
  }

  lemma {:induction false} NothingAtAll<K(!new), V(!new)>(m: map<K, V>, f: V -> real)
    requires forall k :: k in m ==> f(m[k]) == 0.0
    ensures Sums.Over(m, f) == 0.0
  {
    if m != map[] {
      var k :| k in m;
      Sums.Remove(m, k, f);
      NothingAtAll(m - {k}, f);
    }
  }

  lemma Listed(positions: seq<(TokenId, Position)>, held: map<TokenId, Position>, tokenId: TokenId)
    requires IsListing(positions, held)
    ensures tokenId !in Tokens(positions) ==> Held(held, tokenId) == 0.0
  {
    if tokenId in held && !held[tokenId].IsFlat() {
      assert (tokenId, held[tokenId]) in positions;
      var k :| 0 <= k < |positions| && positions[k] == (tokenId, held[tokenId]);
      assert positions[k].0 == tokenId;
    }
  }

  // What was not listed is flat and counts for nothing.
  lemma AllCounted(held: map<TokenId, Position>, positions: seq<(TokenId, Position)>, apart: set<TokenId>)
    requires IsListing(positions, held)
    ensures Sums.Over(held - (held.Keys - Tokens(positions)) - apart, NotionalOf) == Sums.Over(held - apart, NotionalOf)
  {
    var all, counted := held - apart, Tokens(positions);
    Sums.Split(all, counted, NotionalOf);
    assert all - (all.Keys - counted) == held - (held.Keys - counted) - apart;
    forall t | t in all - counted ensures NotionalOf((all - counted)[t]) == 0.0 {
      Listed(positions, held, t);
    }
    hide IsListing, NotionalOf;
    NothingAtAll(all - counted, NotionalOf);
  }

  // A market none of whose tokens was listed is balanced.
  lemma UnseenIsBalanced(
      held: map<TokenId, Position>, reg: Registry, positions: seq<(TokenId, Position)>, seen: set<ConditionId>,
      c: ConditionId)
    requires reg.WellFormed() && IsListing(positions, held)
    requires seen == set t | t in Tokens(positions) && t in reg.byToken :: reg.byToken[t].conditionId
    requires c in reg.byCondition && c !in seen
    ensures Imbalance(held, reg.byCondition[c]) == 0.0
  {
    hide Registry.WellFormed;
    var pair := reg.byCondition[c];
    AtCondition(reg, c);
    assert pair.Contains(pair.yesTokenId) && pair.Contains(pair.noTokenId);
    Listed(positions, held, pair.yesTokenId);
    Listed(positions, held, pair.noTokenId);
  }

  lemma AllSeen(
      held: map<TokenId, Position>, reg: Registry, positions: seq<(TokenId, Position)>, seen: set<ConditionId>, total: real)
    requires reg.WellFormed() && IsListing(positions, held)
    requires Counted(held, reg, Tokens(positions), seen, total)
    ensures total == Unhedged(held, reg)
  {
    hide IsListing, NotionalOf, Registry.WellFormed, Imbalance;
    AllCounted(held, positions, reg.byToken.Keys);
    var all := Imbalances(held, reg.byCondition);
    Sums.Split(all, seen, Itself);
    assert all - (all.Keys - seen) == Imbalances(held, reg.byCondition - (reg.byCondition.Keys - seen));
    forall c | c in all - seen ensures Itself((all - seen)[c]) == 0.0 {
      UnseenIsBalanced(held, reg, positions, seen, c);
    }
    NothingAtAll(all - seen, Itself);
  }

  // ---- the fallback is an over-estimate -----------------------------------------------------------

  // No token belongs to two of the pairs.
  ghost predicate Apart(pairs: map<ConditionId, MarketPair>) {
    && (forall c :: c in pairs ==> pairs[c].yesTokenId != pairs[c].noTokenId)
    && (forall c, d, t :: c in pairs && d in pairs && pairs[c].Contains(t) && pairs[d].Contains(t) ==> c == d)
  }

  function TokensOf(pairs: map<ConditionId, MarketPair>): set<TokenId> {
    (set c | c in pairs :: pairs[c].yesTokenId) + (set c | c in pairs :: pairs[c].noTokenId)
  }

  // The hedged part of every market: what both legs have in common.
  function Hedges(held: map<TokenId, Position>, pairs: map<ConditionId, MarketPair>): map<ConditionId, real> {
    map c | c in pairs :: Min(Held(held, pairs[c].yesTokenId), Held(held, pairs[c].noTokenId))
  }

  lemma {:induction false} HedgesSplit(held: map<TokenId, Position>, pairs: map<ConditionId, MarketPair>)
    requires Apart(pairs)
    ensures Sums.Over(Imbalances(held, pairs), Itself) + 2.0 * Sums.Over(Hedges(held, pairs), Itself)
         == Sums.Over(held - (held.Keys - TokensOf(pairs)), NotionalOf)
    decreases |pairs|
  {
    hide NotionalOf;
    if pairs == map[] {
      assert Imbalances(held, pairs) == map[] && Hedges(held, pairs) == map[];
      assert held - (held.Keys - TokensOf(pairs)) == map[];
    } else {
      var c :| c in pairs;
      var pair, rest := pairs[c], pairs - {c};
      OnePair(pairs, c);
      hide Apart, TokensOf;
      HedgesSplit(held, rest);
      OneMarket(held, pairs, c);
      TwoLegs(held, TokensOf(rest), pair.yesTokenId, pair.noTokenId);
    }
  }

  lemma OneMarket(held: map<TokenId, Position>, pairs: map<ConditionId, MarketPair>, c: ConditionId)
    requires c in pairs
    ensures Sums.Over(Imbalances(held, pairs), Itself) + 2.0 * Sums.Over(Hedges(held, pairs), Itself)
         == Sums.Over(Imbalances(held, pairs - {c}), Itself) + 2.0 * Sums.Over(Hedges(held, pairs - {c}), Itself)
            + Held(held, pairs[c].yesTokenId) + Held(held, pairs[c].noTokenId)
  {
    OneLess(Imbalances(held, pairs), Imbalances(held, pairs - {c}), c);
    OneLess(Hedges(held, pairs), Hedges(held, pairs - {c}), c);
    hide Held;
  }

  lemma OneLess(all: map<ConditionId, real>, rest: map<ConditionId, real>, c: ConditionId)
    requires c in all && rest == all - {c}
    ensures Sums.Over(all, Itself) == Sums.Over(rest, Itself) + all[c]
  {
    Sums.Remove(all, c, Itself);
  }

  lemma OnePair(pairs: map<ConditionId, MarketPair>, c: ConditionId)
    requires Apart(pairs) && c in pairs
    ensures Apart(pairs - {c})
    ensures pairs[c].yesTokenId != pairs[c].noTokenId
    ensures {pairs[c].yesTokenId, pairs[c].noTokenId} !! TokensOf(pairs - {c})
    ensures TokensOf(pairs) == TokensOf(pairs - {c}) + {pairs[c].yesTokenId, pairs[c].noTokenId}
  {
    var rest := pairs - {c};
    assert forall d :: d in rest ==> rest[d] == pairs[d];
    forall t | t in TokensOf(rest) ensures !pairs[c].Contains(t) {
      var d :| d in rest && rest[d].Contains(t);
    }
    forall t | t in TokensOf(pairs) && !pairs[c].Contains(t) ensures t in TokensOf(rest) {
      var d :| d in pairs && pairs[d].Contains(t);
      assert d in rest;
    }
    assert pairs[c].Contains(pairs[c].yesTokenId) && pairs[c].Contains(pairs[c].noTokenId);
  }

  lemma OneLeg(held: map<TokenId, Position>, others: set<TokenId>, t: TokenId)
    requires t !in others
    ensures Sums.Over(held - (held.Keys - (others + {t})), NotionalOf)
         == Sums.Over(held - (held.Keys - others), NotionalOf) + Held(held, t)
  {
    hide NotionalOf;
    if t in held {
      CountOne(held, others, t);
    } else {
      assert held - (held.Keys - (others + {t})) == held - (held.Keys - others);
    }
  }

  lemma TwoLegs(held: map<TokenId, Position>, others: set<TokenId>, yes: TokenId, no: TokenId)
    requires yes != no && {yes, no} !! others
    ensures Sums.Over(held - (held.Keys - (others + {yes, no})), NotionalOf)
         == Sums.Over(held - (held.Keys - others), NotionalOf) + Held(held, yes) + Held(held, no)
  {
    hide NotionalOf;
    OneLeg(held, others, yes);
    OneLeg(held, others + {yes}, no);
    assert others + {yes} + {no} == others + {yes, no};
  }

  lemma RegistryTokens(reg: Registry)
    requires reg.WellFormed()
    ensures Apart(reg.byCondition)
    ensures TokensOf(reg.byCondition) == reg.byToken.Keys
  {
    hide Registry.WellFormed;
    var pairs := reg.byCondition;
    forall c | c in pairs ensures pairs[c].yesTokenId != pairs[c].noTokenId {
      AtCondition(reg, c);
    }
    forall c, d, t | c in pairs && d in pairs && pairs[c].Contains(t) && pairs[d].Contains(t) ensures c == d {
      AtCondition(reg, c);
      AtCondition(reg, d);
    }
    forall t | t in TokensOf(pairs) ensures t in reg.byToken {
      var c :| c in pairs && pairs[c].Contains(t);
      AtCondition(reg, c);
    }
    forall t | t in reg.byToken ensures t in TokensOf(pairs) {
      AtToken(reg, t);
    }
  }

  // What the exposure leaves out of the whole notional is the hedged part of both legs.
  lemma ExposureIsUnhedged(held: map<TokenId, Position>, reg: Registry)
    requires reg.WellFormed()
    ensures Sums.Over(held, NotionalOf)
         == Unhedged(held, reg) + 2.0 * Sums.Over(Hedges(held, reg.byCondition), Itself)
  {
    RegistryTokens(reg);
    hide NotionalOf, Registry.WellFormed, Apart;
    HedgesSplit(held, reg.byCondition);
    Sums.Split(held, reg.byToken.Keys, NotionalOf);
  }

  // Without a registry the exposure is never understated: hedging only ever lowers it.
  lemma FallbackIsConservative(held: map<TokenId, Position>, reg: Registry)
    requires reg.WellFormed()
    requires forall t :: t in held ==> held[t].avgCost >= 0.0
    ensures Unhedged(held, reg) <= Sums.Over(held, NotionalOf)
  {
    ExposureIsUnhedged(held, reg);
    forall t | t in held ensures NotionalOf(held[t]) >= 0.0 {
      NotionalSign(held[t]);
    }
    hide NotionalOf, Registry.WellFormed;
    Sums.NonNegative(Hedges(held, reg.byCondition), Itself);
  }

  // After any fills, the notional of a holding is what it cost.
  lemma NotionalIsCost(fills: seq<Fill>, tokenId: TokenId)
    ensures Held(ApplyAll(map[], fills), tokenId) == Get(ApplyAll(map[], fills), tokenId).costBasis
  {
    RunPerToken(fills, tokenId);
    RunPnl(OnToken(fills, tokenId));
    hide ApplyAll, BookAll, OnToken;
    assert NotionalOf(NO_POSITION) == 0.0;
  }

  // Average costs are never negative while fills are made at prices that are not.
  lemma {:induction false} CostsStayPositive(fills: seq<Fill>)
    requires forall f :: f in fills ==> f.price >= 0.0
    ensures forall t :: t in ApplyAll(map[], fills) ==> ApplyAll(map[], fills)[t].avgCost >= 0.0
  {
    hide Position.Booked;
    if fills != [] {
      var n := |fills| - 1;
      CostsStayPositive(fills[..n]);
      BookedCost(Get(ApplyAll(map[], fills[..n]), fills[n].tokenId), fills[n]);
    }
  }

  lemma BookedCost(p: Position, fill: Fill)
    requires p.avgCost >= 0.0 && fill.price >= 0.0
    ensures p.Booked(fill).avgCost >= 0.0
  {
    var kept := Abs(p.shares - p.Closed(fill.SignedSize()));
    var added := Abs(fill.SignedSize() + p.Closed(fill.SignedSize()));
    if kept + added != 0.0 {
      AverageBetween(p.avgCost, kept, fill.price, added, 0.0, Max(p.avgCost, fill.price));
    }
    hide Average;
    AverageNone(p.avgCost, fill.price);
  }

  // The claim over runs: whatever was traded at prices that are not negative, and whatever
  // markets are registered, starting up without them never understates the exposure.
  lemma FallbackIsAlwaysConservative(fills: seq<Fill>, reg: Registry)
    requires reg.WellFormed() && forall f :: f in fills ==> f.price >= 0.0
    ensures Unhedged(ApplyAll(map[], fills), reg) <= Sums.Over(ApplyAll(map[], fills), NotionalOf)
  {
    CostsStayPositive(fills);
    FallbackIsConservative(ApplyAll(map[], fills), reg);
  }

  lemma NotionalSign(p: Position)
    requires p.avgCost >= 0.0
    ensures NotionalOf(p) >= 0.0
  {
  }
}
