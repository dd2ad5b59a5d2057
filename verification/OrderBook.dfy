// Order books (src/state/order_book.rs): price levels kept sorted under full snapshots and
// incremental updates, refining a map from price to size.
module OrderBook {
  import opened Base

  datatype PriceLevel = PriceLevel(price: real, size: real)

  datatype BookSnapshot = BookSnapshot(bids: seq<PriceLevel>, asks: seq<PriceLevel>) {
    function Levels(side: Side): seq<PriceLevel> {
      if side == Buy then bids else asks
    }

    function WithLevels(side: Side, levels: seq<PriceLevel>): BookSnapshot {
      if side == Buy then this.(bids := levels) else this.(asks := levels)
    }

    function BestBid(): Option<real> {
      if bids == [] then None else Some(bids[0].price)
    }

    function BestAsk(): Option<real> {
      if asks == [] then None else Some(asks[0].price)
    }

    function Spread(): Option<real> {
      if bids == [] || asks == [] then None else Some(asks[0].price - bids[0].price)
    }

    predicate IsTwoSided() {
      bids != [] && asks != []
    }
  }

  const EMPTY_BOOK := BookSnapshot([], [])

  // Which of two prices is listed first: bids from the highest, asks from the lowest.
  predicate Better(side: Side, p: real, q: real) {
    if side == Buy then p > q else p < q
  }

  // The position of the first level worse than a price.
  function FirstWorse(side: Side, levels: seq<PriceLevel>, price: real): (i: nat)
    ensures i <= |levels|
    ensures i < |levels| ==> Better(side, price, levels[i].price)
    ensures forall j :: 0 <= j < i ==> !Better(side, price, levels[j].price)
  {
    if levels == [] || Better(side, price, levels[0].price) then 0
    else 1 + FirstWorse(side, levels[1..], price)
  }

  // The position of the first level at a price.
  function FirstAt(levels: seq<PriceLevel>, price: real): (i: nat)
    ensures i <= |levels|
    ensures i < |levels| ==> levels[i].price == price
    ensures forall j :: 0 <= j < i ==> levels[j].price != price
  {
    if levels == [] || levels[0].price == price then 0
    else 1 + FirstAt(levels[1..], price)
  }

  function Insert(side: Side, levels: seq<PriceLevel>, level: PriceLevel): seq<PriceLevel> {
    var i := FirstWorse(side, levels, level.price);
    levels[..i] + [level] + levels[i..]
  }

  // The stable sort a snapshot goes through: equal prices keep their order.
  function Sort(side: Side, levels: seq<PriceLevel>): seq<PriceLevel> {
    if levels == [] then []
    else Insert(side, Sort(side, levels[..|levels| - 1]), levels[|levels| - 1])
  }

  // What an incremental update does to one side.
  function LevelSet(side: Side, levels: seq<PriceLevel>, price: real, size: real): seq<PriceLevel> {
    var i := FirstAt(levels, price);
    if size == 0.0 then (if i < |levels| then levels[..i] + levels[i + 1..] else levels)
    else if i < |levels| then levels[i := PriceLevel(price, size)]
    else Insert(side, levels, PriceLevel(price, size))
  }

  // ---- messages --------------------------------------------------------------------------

  // A field that does not parse is None; so is a side that is neither BUY nor SELL.
  datatype Message =
    | Snapshot(tokenId: TokenId, bids: seq<PriceLevel>, asks: seq<PriceLevel>)
    | Level(tokenId: TokenId, side: Option<Side>, price: Option<real>, size: Option<real>)

  function BookOf(books: map<TokenId, BookSnapshot>, tokenId: TokenId): BookSnapshot {
    if tokenId in books then books[tokenId] else EMPTY_BOOK
  }

  function Received(books: map<TokenId, BookSnapshot>, message: Message): map<TokenId, BookSnapshot> {
    match message
    case Snapshot(tokenId, bids, asks) =>
      books[tokenId := BookSnapshot(Sort(Buy, bids), Sort(Sell, asks))]
    case Level(tokenId, side, price, size) =>
      var book := BookOf(books, tokenId);
      books[tokenId :=
        if side.None? || price.None? || size.None? then book
        else book.WithLevels(side.value, LevelSet(side.value, book.Levels(side.value), price.value, size.value))]
  }

  class OrderBookState {
    var books: map<TokenId, BookSnapshot>

    constructor ()
      ensures books == map[]
    {
      books := map[];
    }

    method UpdateBook(tokenId: TokenId, bids: seq<PriceLevel>, asks: seq<PriceLevel>)
      modifies this
      ensures books == Received(old(books), Snapshot(tokenId, bids, asks))
    {
      var sortedBids := SortInPlace(Buy, bids);
      var sortedAsks := SortInPlace(Sell, asks);
      books := books[tokenId := BookSnapshot(sortedBids, sortedAsks)];
    }

    static method SortInPlace(side: Side, levels: seq<PriceLevel>) returns (sorted: seq<PriceLevel>)
      ensures sorted == Sort(side, levels)
    {
      sorted := [];
      for i := 0 to |levels|
        invariant sorted == Sort(side, levels[..i])
      {
        assert levels[..i + 1][..i] == levels[..i];
        sorted := Insert(side, sorted, levels[i]);
      }
      assert levels[..|levels|] == levels;
    }

    method UpdateLevel(tokenId: TokenId, side: Option<Side>, price: Option<real>, size: Option<real>)
      modifies this
      ensures books == Received(old(books), Level(tokenId, side, price, size))
    {
      var book := BookOf(books, tokenId);
      books := books[tokenId := book];
      if price.None? || size.None? || side.None? {
        return;
      }
      var levels := book.Levels(side.value);
      var existing := FirstAt(levels, price.value);
      if size.value == 0.0 {
        if existing < |levels| {
          levels := levels[..existing] + levels[existing + 1..];
        }
      } else {
        var level := PriceLevel(price.value, size.value);
        if existing < |levels| {
          levels := levels[existing := level];
        } else {
          var i := FirstWorse(side.value, levels, price.value);
          levels := levels[..i] + [level] + levels[i..];
        }
      }
      assert levels == LevelSet(side.value, book.Levels(side.value), price.value, size.value);
      books := books[tokenId := book.WithLevels(side.value, levels)];
    }

    method BestBid(tokenId: TokenId) returns (price: Option<real>)
      ensures price == BookOf(books, tokenId).BestBid()
    {
      price := if tokenId in books then books[tokenId].BestBid() else None;
    }

    method BestAsk(tokenId: TokenId) returns (price: Option<real>)
      ensures price == BookOf(books, tokenId).BestAsk()
    {
      price := if tokenId in books then books[tokenId].BestAsk() else None;
    }
  }

  // ---- the map a list of levels stands for ----------------------------------------------------

  ghost predicate StrictlySorted(side: Side, levels: seq<PriceLevel>) {
    forall i, j :: 0 <= i < j < |levels| ==> Better(side, levels[i].price, levels[j].price)
  }

  ghost predicate DistinctPrices(levels: seq<PriceLevel>) {
    forall i, j :: 0 <= i < j < |levels| ==> levels[i].price != levels[j].price
  }

  // Size by price; a later level at the same price wins.
  function Depth(levels: seq<PriceLevel>): map<real, real> {
    if levels == [] then map[]
    else Depth(levels[..|levels| - 1])[levels[|levels| - 1].price := levels[|levels| - 1].size]
  }

  // The last write wins and a size of zero removes.
  function DepthSet(depth: map<real, real>, price: real, size: real): map<real, real> {
    if size == 0.0 then depth - {price} else depth[price := size]
  }

  // A map entry for every level, and a level for every entry.
  ghost predicate Lists(levels: seq<PriceLevel>, depth: map<real, real>) {
    forall l: PriceLevel :: l in levels <==> l.price in depth && depth[l.price] == l.size
  }

  lemma ListsOne(a: map<real, real>, b: map<real, real>, levels: seq<PriceLevel>)
    requires Lists(levels, a) && Lists(levels, b)
    ensures a == b
  {
    forall p | p in a ensures p in b && b[p] == a[p] {
      assert PriceLevel(p, a[p]) in levels;
    }
    forall p | p in b ensures p in a {
      assert PriceLevel(p, b[p]) in levels;
    }
  }

  lemma NoEntry(levels: seq<PriceLevel>, depth: map<real, real>, price: real)
    requires Lists(levels, depth)
    requires forall l :: l in levels ==> l.price != price
    ensures price !in depth
  {
    assert forall p :: p in depth ==> PriceLevel(p, depth[p]) in levels;
  }

  lemma LastIsNew(levels: seq<PriceLevel>)
    requires DistinctPrices(levels) && levels != []
    ensures var init, last := levels[..|levels| - 1], levels[|levels| - 1];
            && levels == init + [last]
            && DistinctPrices(init)
            && (forall l :: l in init ==> l.price != last.price)
            && (forall l :: l in init <==> l in levels && l != last)
  {
    var n := |levels| - 1;
    forall l | l in levels[..n] ensures l.price != levels[n].price {
      var i :| 0 <= i < n && levels[i] == l;
    }
  }

  lemma {:induction false} DepthLists(levels: seq<PriceLevel>)
    requires DistinctPrices(levels)
    ensures Lists(levels, Depth(levels))
  {
    if levels != [] {
      var init, last := levels[..|levels| - 1], levels[|levels| - 1];
      LastIsNew(levels);
      DepthLists(init);
      NoEntry(init, Depth(init), last.price);
    }
  }

  lemma DepthIs(levels: seq<PriceLevel>, depth: map<real, real>)
    requires DistinctPrices(levels) && Lists(levels, depth)
    ensures Depth(levels) == depth
  {
    DepthLists(levels);
    ListsOne(Depth(levels), depth, levels);
  }

  lemma SortedIsDistinct(side: Side, levels: seq<PriceLevel>)
    requires StrictlySorted(side, levels)
    ensures DistinctPrices(levels)
    ensures levels != [] ==> StrictlySorted(side, levels[..|levels| - 1])
  {
  }

  lemma FirstIsMember(levels: seq<PriceLevel>)
    ensures levels != [] ==> levels[0] in levels
  {
  }

  lemma LastAtMost(side: Side, a: seq<PriceLevel>, b: seq<PriceLevel>)
    requires StrictlySorted(side, a) && a != [] && b != []
    requires b[|b| - 1] in a
    ensures !Better(side, a[|a| - 1].price, b[|b| - 1].price)
  {
    var i :| 0 <= i < |a| && a[i] == b[|b| - 1];
  }

  // A side is determined by its members.
  lemma {:induction false} SortedIsUnique(side: Side, a: seq<PriceLevel>, b: seq<PriceLevel>)
    requires StrictlySorted(side, a) && StrictlySorted(side, b)
    requires forall l :: l in a <==> l in b
    ensures a == b
  {
    SortedIsDistinct(side, a);
    SortedIsDistinct(side, b);
    hide StrictlySorted, DistinctPrices;
    if a == [] {
      FirstIsMember(b);
    } else {
      assert a[0] in b;
      var m, n := |a| - 1, |b| - 1;
      assert a[m] in b && b[n] in a;
      LastIsNew(a);
      LastIsNew(b);
      SameLast(side, a, b);
      SortedIsUnique(side, a[..m], b[..n]);
    }
  }

  lemma SameLast(side: Side, a: seq<PriceLevel>, b: seq<PriceLevel>)
    requires StrictlySorted(side, a) && StrictlySorted(side, b) && a != [] && b != []
    requires b[|b| - 1] in a && a[|a| - 1] in b
    ensures a[|a| - 1] == b[|b| - 1]
  {
    LastAtMost(side, a, b);
    LastAtMost(side, b, a);
    assert forall i :: 0 <= i < |a| - 1 ==> Better(side, a[i].price, a[|a| - 1].price);
  }

  // The first level of a sorted side is the best price of its map.
  lemma FirstIsBest(side: Side, levels: seq<PriceLevel>)
    requires StrictlySorted(side, levels) && levels != []
    ensures levels[0].price in Depth(levels)
    ensures forall p :: p in Depth(levels) && p != levels[0].price ==> Better(side, levels[0].price, p)
  {
    DepthLists(levels);
    assert levels[0] in levels;
    forall p | p in Depth(levels) && p != levels[0].price ensures Better(side, levels[0].price, p) {
      assert PriceLevel(p, Depth(levels)[p]) in levels;
    }
  }

  // ---- refinement -----------------------------------------------------------------------------------

  lemma InsertMembers(levels: seq<PriceLevel>, i: nat, level: PriceLevel)
    requires i <= |levels|
    ensures forall l :: l in levels[..i] + [level] + levels[i..] <==> l in levels || l == level
  {
    assert levels == levels[..i] + levels[i..];
  }

  lemma RemoveMembers(levels: seq<PriceLevel>, i: nat)
    requires i < |levels| && DistinctPrices(levels)
    ensures forall l :: l in levels[..i] + levels[i + 1..] <==> l in levels && l.price != levels[i].price
  {
    assert levels == levels[..i] + [levels[i]] + levels[i + 1..];
  }

  lemma InsertSorted(side: Side, levels: seq<PriceLevel>, level: PriceLevel)
    requires StrictlySorted(side, levels)
    requires forall l :: l in levels ==> l.price != level.price
    ensures StrictlySorted(side, Insert(side, levels, level))
  {
    var i := FirstWorse(side, levels, level.price);
    var after := Insert(side, levels, level);
    forall j, k | 0 <= j < k < |after| ensures Better(side, after[j].price, after[k].price) {
      if j < i {
        assert levels[j] in levels;
        assert Better(side, levels[j].price, level.price);
      }
      if k > i {
        assert Better(side, level.price, levels[k - 1].price) by {
          assert Better(side, level.price, levels[i].price);
        }
      }
    }
  }

  lemma InsertRefines(side: Side, levels: seq<PriceLevel>, level: PriceLevel)
    requires StrictlySorted(side, levels) && level.price !in Depth(levels)
    ensures StrictlySorted(side, Insert(side, levels, level))
    ensures Depth(Insert(side, levels, level)) == Depth(levels)[level.price := level.size]
  {
    DepthLists(levels);
    InsertSorted(side, levels, level);
    InsertMembers(levels, FirstWorse(side, levels, level.price), level);
    DepthIs(Insert(side, levels, level), Depth(levels)[level.price := level.size]);
  }

  lemma RemoveSorted(side: Side, levels: seq<PriceLevel>, i: nat)
    requires StrictlySorted(side, levels) && i < |levels|
    ensures StrictlySorted(side, levels[..i] + levels[i + 1..])
  {
  }

  lemma RemoveRefines(side: Side, levels: seq<PriceLevel>, i: nat)
    requires StrictlySorted(side, levels) && i < |levels|
    ensures StrictlySorted(side, levels[..i] + levels[i + 1..])
    ensures Depth(levels[..i] + levels[i + 1..]) == Depth(levels) - {levels[i].price}
  {
    RemoveSorted(side, levels, i);
    SortedIsDistinct(side, levels);
    SortedIsDistinct(side, levels[..i] + levels[i + 1..]);
    DepthLists(levels);
    RemoveMembers(levels, i);
    hide StrictlySorted;
    DepthIs(levels[..i] + levels[i + 1..], Depth(levels) - {levels[i].price});
  }

  lemma OverwriteRefines(side: Side, levels: seq<PriceLevel>, i: nat, level: PriceLevel)
    requires StrictlySorted(side, levels) && i < |levels| && level.price == levels[i].price
    ensures StrictlySorted(side, levels[i := level])
    ensures Depth(levels[i := level]) == Depth(levels)[level.price := level.size]
  {
    SortedIsDistinct(side, levels);
    SortedIsDistinct(side, levels[i := level]);
    var rest := levels[..i] + levels[i + 1..];
    DepthLists(levels);
    RemoveMembers(levels, i);
    InsertMembers(rest, i, level);
    assert levels[i := level] == rest[..i] + [level] + rest[i..];
    hide StrictlySorted;
    DepthIs(levels[i := level], Depth(levels)[level.price := level.size]);
  }

  // An incremental update keeps the side sorted and is exactly an update of the map.
  lemma LevelSetRefines(side: Side, levels: seq<PriceLevel>, price: real, size: real)
    requires StrictlySorted(side, levels)
    ensures StrictlySorted(side, LevelSet(side, levels, price, size))
    ensures Depth(LevelSet(side, levels, price, size)) == DepthSet(Depth(levels), price, size)
  {
    SortedIsDistinct(side, levels);
    DepthLists(levels);
    hide StrictlySorted, DistinctPrices, Insert;
    var i := FirstAt(levels, price);
    if i < |levels| {
      if size == 0.0 {
        RemoveRefines(side, levels, i);
      } else {
        OverwriteRefines(side, levels, i, PriceLevel(price, size));
      }
    } else {
      NoEntry(levels, Depth(levels), price);
      if size != 0.0 {
        InsertRefines(side, levels, PriceLevel(price, size));
      }
    }
  }

  lemma {:induction false} SortRefines(side: Side, levels: seq<PriceLevel>)
    requires DistinctPrices(levels)
    ensures StrictlySorted(side, Sort(side, levels))
    ensures Depth(Sort(side, levels)) == Depth(levels)
  {
    if levels != [] {
      var n := |levels| - 1;
      LastIsNew(levels);
      SortRefines(side, levels[..n]);
      DepthLists(levels[..n]);
      NoEntry(levels[..n], Depth(levels[..n]), levels[n].price);
      InsertRefines(side, Sort(side, levels[..n]), levels[n]);
    }
  }

  lemma InsertKeeps(side: Side, levels: seq<PriceLevel>, level: PriceLevel)
    ensures multiset(Insert(side, levels, level)) == multiset(levels) + multiset{level}
  {
    var i := FirstWorse(side, levels, level.price);
    assert levels == levels[..i] + levels[i..];
  }

  lemma {:induction false} SortKeeps(side: Side, levels: seq<PriceLevel>)
    ensures multiset(Sort(side, levels)) == multiset(levels)
  {
    if levels != [] {
      var n := |levels| - 1;
      SortKeeps(side, levels[..n]);
      InsertKeeps(side, Sort(side, levels[..n]), levels[n]);
      assert levels == levels[..n] + [levels[n]];
      hide Insert;
    }
  }

  function Prices(levels: seq<PriceLevel>): set<real> {
    set l | l in levels :: l.price
  }

  lemma LastPrice(init: seq<PriceLevel>, last: PriceLevel)
    ensures Prices(init + [last]) == Prices(init) + {last.price}
  {
    assert forall l :: l in init + [last] <==> l in init || l == last;
  }

  lemma DistinctWithLast(init: seq<PriceLevel>, last: PriceLevel)
    ensures DistinctPrices(init + [last]) <==> DistinctPrices(init) && last.price !in Prices(init)
  {
    var levels := init + [last];
    assert forall i :: 0 <= i < |init| ==> levels[i] == init[i] && init[i] in init;
    assert levels[|init|] == last;
    if last.price in Prices(init) {
      var l :| l in init && l.price == last.price;
      var i :| 0 <= i < |init| && init[i] == l;
      assert levels[i].price == levels[|init|].price;
    }
  }

  lemma {:induction false} CountPrices(levels: seq<PriceLevel>)
    ensures |Prices(levels)| <= |levels|
    ensures |Prices(levels)| == |levels| <==> DistinctPrices(levels)
  {
    if levels != [] {
      var n := |levels| - 1;
      var init, last := levels[..n], levels[n];
      CountPrices(init);
      assert levels == init + [last];
      LastPrice(init, last);
      DistinctWithLast(init, last);
      hide Prices, DistinctPrices;
    }
  }

  lemma SamePrices(a: seq<PriceLevel>, b: seq<PriceLevel>)
    requires multiset(a) == multiset(b)
    ensures Prices(a) == Prices(b) && |a| == |b|
  {
    assert forall l :: l in a <==> l in multiset(a);
    assert forall l :: l in b <==> l in multiset(b);
    assert |a| == |multiset(a)| == |multiset(b)| == |b|;
  }

  // A snapshot comes out strictly sorted exactly when no price is repeated in it.
  lemma SortedExactlyWhenDistinct(side: Side, levels: seq<PriceLevel>)
    ensures StrictlySorted(side, Sort(side, levels)) <==> DistinctPrices(levels)
  {
    if DistinctPrices(levels) {
      SortRefines(side, levels);
    }
    if StrictlySorted(side, Sort(side, levels)) {
      var sorted := Sort(side, levels);
      SortedIsDistinct(side, sorted);
      SortKeeps(side, levels);
      SamePrices(sorted, levels);
      CountPrices(sorted);
      CountPrices(levels);
    }
  }

  // ---- runs -----------------------------------------------------------------------------------------------

  function ReceiveAll(messages: seq<Message>): map<TokenId, BookSnapshot> {
    if messages == [] then map[]
    else Received(ReceiveAll(messages[..|messages| - 1]), messages[|messages| - 1])
  }

  // One side of one token as a map, message by message.
  function DepthReceived(before: map<real, real>, message: Message, tokenId: TokenId, side: Side): map<real, real> {
    match message
    case Snapshot(t, bids, asks) =>
      if t == tokenId then Depth(if side == Buy then bids else asks) else before
    case Level(t, s, price, size) =>
      if t == tokenId && s == Some(side) && price.Some? && size.Some?
      then DepthSet(before, price.value, size.value)
      else before
  }

  function DepthAfter(messages: seq<Message>, tokenId: TokenId, side: Side): map<real, real> {
    if messages == [] then map[]
    else DepthReceived(DepthAfter(messages[..|messages| - 1], tokenId, side), messages[|messages| - 1], tokenId, side)
  }

  ghost predicate NoRepeats(message: Message) {
    message.Snapshot? ==> DistinctPrices(message.bids) && DistinctPrices(message.asks)
  }

  lemma {:induction false} BooksRefineDepths(messages: seq<Message>, tokenId: TokenId, side: Side)
    requires forall m :: m in messages ==> NoRepeats(m)
    ensures StrictlySorted(side, BookOf(ReceiveAll(messages), tokenId).Levels(side))
    ensures Depth(BookOf(ReceiveAll(messages), tokenId).Levels(side)) == DepthAfter(messages, tokenId, side)
  {
    hide StrictlySorted, NoRepeats, Received, DepthReceived;
    if messages == [] {
      NothingIsSorted(side);
    } else {
      var n := |messages| - 1;
      BooksRefineDepths(messages[..n], tokenId, side);
      assert NoRepeats(messages[n]);
      MessageRefines(ReceiveAll(messages[..n]), messages[n], tokenId, side);
    }
  }

  lemma MessageRefines(books: map<TokenId, BookSnapshot>, message: Message, tokenId: TokenId, side: Side)
    requires NoRepeats(message) && StrictlySorted(side, BookOf(books, tokenId).Levels(side))
    ensures var before, after := BookOf(books, tokenId).Levels(side), BookOf(Received(books, message), tokenId).Levels(side);
            StrictlySorted(side, after) && Depth(after) == DepthReceived(Depth(before), message, tokenId, side)
  {
    hide LevelSet, StrictlySorted, DepthSet, Depth, Sort;
    match message
    case Snapshot(t, bids, asks) =>
      SortRefines(side, if side == Buy then bids else asks);
    case Level(t, s, price, size) =>
      ReceivedLevel(books, t, s, price, size, tokenId, side);
      if s == Some(side) && price.Some? && size.Some? {
        LevelSetRefines(side, BookOf(books, tokenId).Levels(side), price.value, size.value);
      }
  }

  lemma NothingIsSorted(side: Side)
    ensures StrictlySorted(side, [])
  {
  }

  // After any messages, each side of each book is strictly sorted, best price first, and is the
  // one list that stands for the map the messages describe: the list a snapshot of that map,
  // in any order, would be sorted into.
  lemma BooksAreSortedDepths(messages: seq<Message>, tokenId: TokenId, side: Side)
    requires forall m :: m in messages ==> NoRepeats(m)
    ensures var levels := BookOf(ReceiveAll(messages), tokenId).Levels(side);
            var depth := DepthAfter(messages, tokenId, side);
            && StrictlySorted(side, levels)
            && (forall listing :: DistinctPrices(listing) && Depth(listing) == depth ==> levels == Sort(side, listing))
            && (levels == [] <==> depth == map[])
            && (levels != [] ==>
                  levels[0].price in depth
                  && forall p :: p in depth && p != levels[0].price ==> Better(side, levels[0].price, p))
  {
    var levels := BookOf(ReceiveAll(messages), tokenId).Levels(side);
    BooksRefineDepths(messages, tokenId, side);
    DepthLists(levels);
    forall listing | DistinctPrices(listing) && Depth(listing) == Depth(levels)
      ensures levels == Sort(side, listing)
    {
      SortRefines(side, listing);
      DepthLists(Sort(side, listing));
      SortedIsUnique(side, levels, Sort(side, listing));
    }
    if levels != [] {
      FirstIsBest(side, levels);
    }
  }

  // ---- what one message changes -----------------------------------------------------------------------

  // After any messages, one more update of a level leaves every other price of its side alone, and
  // its own with that size, or gone if that is zero; no other side or book changes. One that does
  // not parse changes nothing.
  lemma LevelExactly(
      messages: seq<Message>, tokenId: TokenId, side: Option<Side>, price: Option<real>, size: Option<real>,
      t: TokenId, s: Side, l: PriceLevel)
    requires forall m :: m in messages ==> NoRepeats(m)
    ensures var before := BookOf(ReceiveAll(messages), t).Levels(s);
            var after := BookOf(ReceiveAll(messages + [Level(tokenId, side, price, size)]), t).Levels(s);
            l in after <==>
            if t == tokenId && side == Some(s) && price == Some(l.price) && size.Some?
            then l.size == size.value != 0.0
            else l in before
  {
    var books := ReceiveAll(messages);
    OneMessage(messages, Level(tokenId, side, price, size));
    BooksRefineDepths(messages, t, s);
    ReceivedLevel(books, tokenId, side, price, size, t, s);
    hide LevelSet, StrictlySorted, ReceiveAll, Received, Depth;
    if t == tokenId && side == Some(s) && price.Some? && size.Some? {
      LevelSetMembers(s, BookOf(books, t).Levels(s), price.value, size.value, l);
    }
  }

  lemma LevelSetMembers(side: Side, levels: seq<PriceLevel>, price: real, size: real, l: PriceLevel)
    requires StrictlySorted(side, levels)
    ensures l in LevelSet(side, levels, price, size) <==>
            if l.price == price then l.size == size != 0.0 else l in levels
  {
    LevelSetRefines(side, levels, price, size);
    SortedIsDistinct(side, levels);
    SortedIsDistinct(side, LevelSet(side, levels, price, size));
    hide LevelSet, StrictlySorted;
    DepthLists(levels);
    DepthLists(LevelSet(side, levels, price, size));
  }

  lemma OneMessage(messages: seq<Message>, message: Message)
    ensures ReceiveAll(messages + [message]) == Received(ReceiveAll(messages), message)
  {
    assert (messages + [message])[..|messages|] == messages;
  }

  lemma ReceivedLevel(
      books: map<TokenId, BookSnapshot>, tokenId: TokenId, side: Option<Side>, price: Option<real>, size: Option<real>,
      t: TokenId, s: Side)
    ensures BookOf(Received(books, Level(tokenId, side, price, size)), t).Levels(s) ==
            if t == tokenId && side == Some(s) && price.Some? && size.Some?
            then LevelSet(s, BookOf(books, t).Levels(s), price.value, size.value)
            else BookOf(books, t).Levels(s)
  {
  }

  // A snapshot leaves exactly its levels, and every other book alone.
  lemma SnapshotExactly(messages: seq<Message>, tokenId: TokenId, bids: seq<PriceLevel>, asks: seq<PriceLevel>, t: TokenId)
    ensures var after := BookOf(ReceiveAll(messages + [Snapshot(tokenId, bids, asks)]), t);
            if t == tokenId then multiset(after.bids) == multiset(bids) && multiset(after.asks) == multiset(asks)
            else after == BookOf(ReceiveAll(messages), t)
  {
    OneMessage(messages, Snapshot(tokenId, bids, asks));
    SortKeeps(Buy, bids);
    SortKeeps(Sell, asks);
  }

  // The best bid is the highest of the bids and the best ask the lowest of the asks.
  lemma BestExactly(messages: seq<Message>, tokenId: TokenId)
    requires forall m :: m in messages ==> NoRepeats(m)
    ensures var book := BookOf(ReceiveAll(messages), tokenId);
            && (book.BestBid().None? <==> book.bids == []) && (book.BestAsk().None? <==> book.asks == [])
            && (forall l :: l in book.bids ==> l.price <= book.BestBid().value)
            && (forall l :: l in book.asks ==> l.price >= book.BestAsk().value)
            && (book.bids != [] ==> exists l :: l in book.bids && l.price == book.BestBid().value)
            && (book.asks != [] ==> exists l :: l in book.asks && l.price == book.BestAsk().value)
  {
    BooksRefineDepths(messages, tokenId, Buy);
    BooksRefineDepths(messages, tokenId, Sell);
    var book := BookOf(ReceiveAll(messages), tokenId);
    FirstIsMember(book.bids);
    FirstIsMember(book.asks);
  }
}
