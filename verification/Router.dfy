// Conflict resolution between strategies (src/strategy/router.rs): by priority, one intent
// per market, token and side, except that linked intents never conflict.
module Routing {
  import opened Base
  import opened Strategies

  type Key = (ConditionId, TokenId, Side)

  function KeyOf(intent: OrderIntent): Key {
    (intent.marketId, intent.tokenId, intent.side)
  }

  // ---- the stable sort by descending priority ---------------------------------------------

  // The position of the first intent of lower priority.
  function FirstLower(sorted: seq<OrderIntent>, priority: nat): (i: nat)
    ensures i <= |sorted|
    ensures i < |sorted| ==> sorted[i].priority < priority
    ensures forall j :: 0 <= j < i ==> sorted[j].priority >= priority
  {
    if sorted == [] || sorted[0].priority < priority then 0 else 1 + FirstLower(sorted[1..], priority)
  }

  function Insert(sorted: seq<OrderIntent>, intent: OrderIntent): seq<OrderIntent> {
    var i := FirstLower(sorted, intent.priority);
    sorted[..i] + [intent] + sorted[i..]
  }

  function Sort(intents: seq<OrderIntent>): seq<OrderIntent> {
    if intents == [] then []
    else Insert(Sort(intents[..|intents| - 1]), intents[|intents| - 1])
  }

  // ---- the loop -------------------------------------------------------------------------------

  function Keys(intents: seq<OrderIntent>): set<Key> {
    set i | i in intents :: KeyOf(i)
  }

  // Keeps an intent if it is grouped, or the first of its key among all intents before it.
  function Keep(intents: seq<OrderIntent>): seq<OrderIntent> {
    if intents == [] then []
    else
      var before := intents[..|intents| - 1];
      var last := intents[|intents| - 1];
      Keep(before) + if last.IsGrouped() || KeyOf(last) !in Keys(before) then [last] else []
  }

  function Resolved(intents: seq<OrderIntent>): seq<OrderIntent> {
    Keep(Sort(intents))
  }

  method ResolveConflicts(incoming: seq<OrderIntent>) returns (resolved: seq<OrderIntent>)
    ensures resolved == Resolved(incoming)
  {
    hide Keys, Keep, Sort;
    NoKeys();
    if incoming == [] {
      return incoming;
    }
    var intents := Sort(incoming);
    var seen: set<Key> := {};
    resolved := [];
    for i := 0 to |intents|
      invariant seen == Keys(intents[..i])
      invariant resolved == Keep(intents[..i])
    {
      var intent := intents[i];
      var key := KeyOf(intent);
      KeepNext(intents, i);
      if !intent.IsGrouped() && key in seen {
        continue;
      }
      seen := seen + {key};
      resolved := resolved + [intent];
    }
    assert intents[..|intents|] == intents;
  }

  lemma NoKeys()
    ensures Keys([]) == {} && Keep([]) == [] && Sort([]) == []
  {
  }

  lemma KeepNext(intents: seq<OrderIntent>, i: nat)
    requires i < |intents|
    ensures var seen, kept, intent := Keys(intents[..i]), Keep(intents[..i]), intents[i];
            if !intent.IsGrouped() && KeyOf(intent) in seen
            then Keys(intents[..i + 1]) == seen && Keep(intents[..i + 1]) == kept
            else Keys(intents[..i + 1]) == seen + {KeyOf(intent)} && Keep(intents[..i + 1]) == kept + [intent]
  {
    KeepLast(intents[..i + 1]);
    assert intents[..i + 1][..i] == intents[..i];
    KeysSnoc(intents[..i], intents[i]);
  }

  // Keep works on the last intent alone.
  lemma KeepLast(intents: seq<OrderIntent>)
    requires intents != []
    ensures var before, last := intents[..|intents| - 1], intents[|intents| - 1];
            && intents == before + [last]
            && Keep(intents) == if last.IsGrouped() || KeyOf(last) !in Keys(before) then Keep(before) + [last] else Keep(before)
  {
    assert Keep(intents[..|intents| - 1]) + [] == Keep(intents[..|intents| - 1]);
  }

  lemma KeysSnoc(intents: seq<OrderIntent>, intent: OrderIntent)
    ensures Keys(intents + [intent]) == Keys(intents) + {KeyOf(intent)}
  {
  }

  // ---- what sorting does -------------------------------------------------------------------------

  ghost predicate Descending(intents: seq<OrderIntent>) {
    forall i, j :: 0 <= i < j < |intents| ==> intents[i].priority >= intents[j].priority
  }

  lemma InsertOrders(sorted: seq<OrderIntent>, intent: OrderIntent)
    requires Descending(sorted)
    ensures Descending(Insert(sorted, intent))
  {
    var i := FirstLower(sorted, intent.priority);
    assert forall k :: i <= k < |sorted| ==> sorted[k].priority < intent.priority;
    InsertBetween(sorted, intent, i);
  }

  lemma InsertBetween(sorted: seq<OrderIntent>, intent: OrderIntent, i: nat)
    requires Descending(sorted) && i <= |sorted|
    requires forall k :: 0 <= k < i ==> sorted[k].priority >= intent.priority
    requires forall k :: i <= k < |sorted| ==> sorted[k].priority < intent.priority
    ensures Descending(sorted[..i] + [intent] + sorted[i..])
  {
    var r := sorted[..i] + [intent] + sorted[i..];
    forall j, k | 0 <= j < k < |r| ensures r[j].priority >= r[k].priority {
      assert r[j] == if j < i then sorted[j] else if j == i then intent else sorted[j - 1];
      assert r[k] == if k < i then sorted[k] else if k == i then intent else sorted[k - 1];
    }
  }

  lemma InsertKeeps(sorted: seq<OrderIntent>, intent: OrderIntent)
    ensures multiset(Insert(sorted, intent)) == multiset(sorted) + multiset{intent}
  {
    var i := FirstLower(sorted, intent.priority);
    assert sorted == sorted[..i] + sorted[i..];
  }

  lemma {:induction false} SortOrders(intents: seq<OrderIntent>)
    ensures Descending(Sort(intents))
    ensures multiset(Sort(intents)) == multiset(intents)
  {
    if intents != [] {
      var n := |intents| - 1;
      SortOrders(intents[..n]);
      InsertOrders(Sort(intents[..n]), intents[n]);
      InsertKeeps(Sort(intents[..n]), intents[n]);
      hide Insert, Descending;
      assert intents == intents[..n] + [intents[n]];
    }
  }

  // The intents of one priority, in order.
  function OfPriority(intents: seq<OrderIntent>, p: nat): seq<OrderIntent> {
    if intents == [] then []
    else
      var last := intents[|intents| - 1];
      OfPriority(intents[..|intents| - 1], p) + if last.priority == p then [last] else []
  }

  lemma {:induction false} OfPriorityJoin(a: seq<OrderIntent>, b: seq<OrderIntent>, p: nat)
    ensures OfPriority(a + b, p) == OfPriority(a, p) + OfPriority(b, p)
  {
    if b == [] {
      assert a + b == a;
    } else {
      var n := |b| - 1;
      OfPriorityJoin(a, b[..n], p);
      assert (a + b)[..|a + b| - 1] == a + b[..n];
    }
  }

  lemma {:induction false} NoneOfPriority(intents: seq<OrderIntent>, p: nat)
    requires forall i :: 0 <= i < |intents| ==> intents[i].priority != p
    ensures OfPriority(intents, p) == []
  {
    if intents != [] {
      NoneOfPriority(intents[..|intents| - 1], p);
    }
  }

  lemma InsertIsStable(sorted: seq<OrderIntent>, intent: OrderIntent, p: nat)
    requires Descending(sorted)
    ensures OfPriority(Insert(sorted, intent), p) == OfPriority(sorted, p) + OfPriority([intent], p)
  {
    var i := FirstLower(sorted, intent.priority);
    var upper, lower := sorted[..i], sorted[i..];
    assert sorted == upper + lower;
    if intent.priority == p {
      NoneOfPriority(lower, p);
    } else {
      NoneOfPriority([intent], p);
    }
    hide OfPriority, Descending, FirstLower;
    OfPriorityJoin(upper, lower, p);
    OfPriorityJoin(upper + [intent], lower, p);
    OfPriorityJoin(upper, [intent], p);
    JoinEmpty(OfPriority(upper, p), OfPriority([intent], p), OfPriority(lower, p));
  }

  lemma JoinEmpty(a: seq<OrderIntent>, b: seq<OrderIntent>, c: seq<OrderIntent>)
    ensures b == [] || c == [] ==> a + b + c == a + c + b
  {
  }

  // Equal priorities keep the order in which the strategies produced them.
  lemma {:induction false} SortIsStable(intents: seq<OrderIntent>, p: nat)
    ensures OfPriority(Sort(intents), p) == OfPriority(intents, p)
  {
    if intents != [] {
      var n := |intents| - 1;
      SortIsStable(intents[..n], p);
      SortOrders(intents[..n]);
      InsertIsStable(Sort(intents[..n]), intents[n], p);
      assert intents == intents[..n] + [intents[n]];
      OfPriorityJoin(intents[..n], [intents[n]], p);
    }
  }

  // A stable descending sort is the only one: its priorities, and its intents of each priority,
  // are settled.
  lemma {:induction false} SortIsUnique(a: seq<OrderIntent>, b: seq<OrderIntent>)
    requires Descending(a) && Descending(b)
    requires forall p: nat :: OfPriority(a, p) == OfPriority(b, p)
    ensures a == b
  {
    hide Descending, OfPriority;
    EmptyTogether(a, b);
    EmptyTogether(b, a);
    if a != [] {
      var m, n := |a| - 1, |b| - 1;
      assert a == a[..m] + [a[m]] && b == b[..n] + [b[n]];
      SameLast(a, b);
      LastIsLowest(a);
      LastIsLowest(b);
      forall p: nat ensures OfPriority(a[..m], p) == OfPriority(b[..n], p) {
        PeelLast(a, b, p);
      }
      SortIsUnique(a[..m], b[..n]);
    }
  }

  lemma EmptyTogether(a: seq<OrderIntent>, b: seq<OrderIntent>)
    requires forall p: nat :: OfPriority(a, p) == OfPriority(b, p)
    ensures a == [] ==> b == []
  {
    LastOfPriority(b);
    assert b != [] ==> OfPriority(a, b[|b| - 1].priority) == OfPriority(b, b[|b| - 1].priority);
  }

  lemma PeelLast(a: seq<OrderIntent>, b: seq<OrderIntent>, p: nat)
    requires a != [] && b != [] && a[|a| - 1] == b[|b| - 1]
    requires OfPriority(a, p) == OfPriority(b, p)
    ensures OfPriority(a[..|a| - 1], p) == OfPriority(b[..|b| - 1], p)
  {
    DropLast(OfPriority(a[..|a| - 1], p), OfPriority(b[..|b| - 1], p), a[|a| - 1]);
  }

  lemma DropLast(a: seq<OrderIntent>, b: seq<OrderIntent>, last: OrderIntent)
    ensures a + [last] == b + [last] ==> a == b
    ensures a + [] == b + [] ==> a == b
  {
    assert (a + [last])[..|a|] == a && (b + [last])[..|b|] == b;
    assert a + [] == a && b + [] == b;
  }

  lemma SameLast(a: seq<OrderIntent>, b: seq<OrderIntent>)
    requires Descending(a) && Descending(b) && a != [] && b != []
    requires forall p: nat :: OfPriority(a, p) == OfPriority(b, p)
    ensures a[|a| - 1] == b[|b| - 1]
  {
    LowestPriority(a, b);
    LowestPriority(b, a);
    LastOfPriority(a);
    LastOfPriority(b);
    assert OfPriority(a, a[|a| - 1].priority) == OfPriority(b, a[|a| - 1].priority);
  }

  lemma LastOfPriority(intents: seq<OrderIntent>)
    ensures intents != [] ==>
              var last := intents[|intents| - 1];
              var same := OfPriority(intents, last.priority);
              same != [] && same[|same| - 1] == last
  {
  }

  lemma LowestPriority(a: seq<OrderIntent>, b: seq<OrderIntent>)
    requires Descending(a) && a != [] && b != []
    requires forall p: nat :: OfPriority(a, p) == OfPriority(b, p)
    ensures a[|a| - 1].priority <= b[|b| - 1].priority
  {
    var p := b[|b| - 1].priority;
    LastOfPriority(b);
    assert OfPriority(a, p) == OfPriority(b, p);
    HasPriority(a, p);
  }

  lemma {:induction false} HasPriority(intents: seq<OrderIntent>, p: nat)
    ensures OfPriority(intents, p) != [] ==> exists i :: 0 <= i < |intents| && intents[i].priority == p
  {
    if forall i :: 0 <= i < |intents| ==> intents[i].priority != p {
      NoneOfPriority(intents, p);
    }
  }

  // ---- what resolution promises -----------------------------------------------------------------

  // The kept intents stand at increasing positions of the sorted list.
  ghost predicate IsSubsequence(kept: seq<OrderIntent>, all: seq<OrderIntent>) {
    if kept == [] then true
    else if all == [] then false
    else
      var k, n := |kept| - 1, |all| - 1;
      (kept[k] == all[n] && IsSubsequence(kept[..k], all[..n])) || IsSubsequence(kept, all[..n])
  }

  lemma {:induction false} KeepIsSubsequence(intents: seq<OrderIntent>)
    ensures IsSubsequence(Keep(intents), intents)
  {
    if intents != [] {
      var n := |intents| - 1;
      var kept := Keep(intents[..n]);
      KeepIsSubsequence(intents[..n]);
      KeepLast(intents);
      hide Keep;
      assert (kept + [intents[n]])[..|kept|] == kept;
    }
  }

  lemma {:induction false} KeepMembers(intents: seq<OrderIntent>)
    ensures forall i :: i in Keep(intents) ==> i in intents
    ensures forall i :: i in intents && i.IsGrouped() ==> i in Keep(intents)
  {
    if intents != [] {
      KeepMembers(intents[..|intents| - 1]);
      KeepLast(intents);
      hide Keep;
    }
  }

  lemma LastIsLowest(intents: seq<OrderIntent>)
    requires Descending(intents) && intents != []
    ensures Descending(intents[..|intents| - 1])
    ensures forall i :: i in intents[..|intents| - 1] ==> i.priority >= intents[|intents| - 1].priority
  {
    var n := |intents| - 1;
    forall i | i in intents[..n] ensures i.priority >= intents[n].priority {
      var j :| 0 <= j < n && intents[j] == i;
    }
  }

  lemma DescendingSnoc(intents: seq<OrderIntent>, last: OrderIntent)
    requires Descending(intents) && forall i :: i in intents ==> i.priority >= last.priority
    ensures Descending(intents + [last])
  {
    assert forall j :: 0 <= j < |intents| ==> intents[j] in intents;
  }

  lemma {:induction false} KeepIsDescending(intents: seq<OrderIntent>)
    requires Descending(intents)
    ensures Descending(Keep(intents))
  {
    if intents != [] {
      var n := |intents| - 1;
      LastIsLowest(intents);
      KeepIsDescending(intents[..n]);
      KeepMembers(intents[..n]);
      KeepLast(intents);
      hide Keep, Descending;
      if Keep(intents) != Keep(intents[..n]) {
        DescendingSnoc(Keep(intents[..n]), intents[n]);
      }
    }
  }

  // An intent that stays, on the same key and of at least the same priority.
  ghost predicate Yields(kept: seq<OrderIntent>, intent: OrderIntent) {
    exists w :: w in kept && KeyOf(w) == KeyOf(intent) && w.priority >= intent.priority
  }

  lemma {:induction false} DroppedYield(intents: seq<OrderIntent>)
    requires Descending(intents)
    ensures forall i :: i in intents ==> Yields(Keep(intents), i)
  {
    if intents != [] {
      var n := |intents| - 1;
      var before, last := intents[..n], intents[n];
      LastIsLowest(intents);
      DroppedYield(before);
      KeepLast(intents);
      hide Keep, Descending;
      forall i | i in intents ensures Yields(Keep(intents), i) {
        if i in before {
          YieldsMore(Keep(before), last, i);
        } else if last.IsGrouped() || KeyOf(last) !in Keys(before) {
          assert last in Keep(intents);
        } else {
          var j :| j in before && KeyOf(j) == KeyOf(last);
          assert Yields(Keep(before), j);
        }
      }
    }
  }

  lemma YieldsMore(kept: seq<OrderIntent>, last: OrderIntent, i: OrderIntent)
    requires Yields(kept, i)
    ensures Yields(kept + [last], i)
  {
    var w :| w in kept && KeyOf(w) == KeyOf(i) && w.priority >= i.priority;
    assert w in kept + [last];
  }

  // At most one intent of a key is not grouped, and it comes first.
  ghost predicate OnePerKey(kept: seq<OrderIntent>) {
    forall i, j :: 0 <= i < j < |kept| && KeyOf(kept[i]) == KeyOf(kept[j]) ==> kept[j].IsGrouped()
  }

  lemma {:induction false} KeepIsOnePerKey(intents: seq<OrderIntent>)
    ensures OnePerKey(Keep(intents))
  {
    if intents != [] {
      var n := |intents| - 1;
      var kept := Keep(intents[..n]);
      KeepIsOnePerKey(intents[..n]);
      KeepMembers(intents[..n]);
      KeepLast(intents);
      hide Keep;
      forall i | 0 <= i < |kept| ensures KeyOf(kept[i]) in Keys(intents[..n]) {
        assert kept[i] in kept;
      }
    }
  }

  lemma SameMembers(a: seq<OrderIntent>, b: seq<OrderIntent>)
    requires multiset(a) == multiset(b)
    ensures forall i :: i in a <==> i in b
  {
    assert forall i :: i in a <==> i in multiset(a);
    assert forall i :: i in b <==> i in multiset(b);
  }

  // The promise as a whole, for any intents from any strategies.
  lemma ResolutionIsSound(intents: seq<OrderIntent>)
    ensures Descending(Resolved(intents))
    ensures IsSubsequence(Resolved(intents), Sort(intents))
    ensures forall i :: i in Resolved(intents) ==> i in intents
    ensures forall i :: i in intents && i.IsGrouped() ==> i in Resolved(intents)
    ensures forall i :: i in intents ==> Yields(Resolved(intents), i)
    ensures OnePerKey(Resolved(intents))
  {
    hide Keep, Descending, OnePerKey, IsSubsequence, Yields;
    var sorted := Sort(intents);
    SortOrders(intents);
    SameMembers(sorted, intents);
    KeepIsSubsequence(sorted);
    KeepMembers(sorted);
    KeepIsDescending(sorted);
    DroppedYield(sorted);
    KeepIsOnePerKey(sorted);
  }

  // ---- resolving again, and in another order -----------------------------------------------------

  lemma {:induction false} SortOfSorted(intents: seq<OrderIntent>)
    requires Descending(intents)
    ensures Sort(intents) == intents
  {
    SortOrders(intents);
    forall p: nat ensures OfPriority(Sort(intents), p) == OfPriority(intents, p) {
      SortIsStable(intents, p);
    }
    SortIsUnique(Sort(intents), intents);
  }

  lemma {:induction false} KeepOfKept(kept: seq<OrderIntent>)
    requires OnePerKey(kept)
    ensures Keep(kept) == kept
  {
    if kept != [] {
      var n := |kept| - 1;
      KeepOfKept(kept[..n]);
      if KeyOf(kept[n]) in Keys(kept[..n]) {
        var i :| i in kept[..n] && KeyOf(i) == KeyOf(kept[n]);
        var k :| 0 <= k < n && kept[k] == i;
      }
      KeepLast(kept);
    }
  }

  lemma ResolvingIsIdempotent(intents: seq<OrderIntent>)
    ensures Resolved(Resolved(intents)) == Resolved(intents)
  {
    var kept := Resolved(intents);
    ResolutionIsSound(intents);
    SortOfSorted(kept);
    KeepOfKept(kept);
  }

  // Only the order among intents of equal priority can be seen in the result.
  lemma OnlyTiesMatter(a: seq<OrderIntent>, b: seq<OrderIntent>)
    requires forall p: nat :: OfPriority(a, p) == OfPriority(b, p)
    ensures Resolved(a) == Resolved(b)
  {
    SortOrders(a);
    SortOrders(b);
    forall p: nat ensures OfPriority(Sort(a), p) == OfPriority(Sort(b), p) {
      SortIsStable(a, p);
      SortIsStable(b, p);
    }
    SortIsUnique(Sort(a), Sort(b));
  }

  // When no two intents share a priority, any permutation of them resolves alike.
  lemma PermutationsResolveAlike(a: seq<OrderIntent>, b: seq<OrderIntent>)
    requires multiset(a) == multiset(b)
    requires forall i, j :: 0 <= i < j < |a| ==> a[i].priority != a[j].priority
    ensures Resolved(a) == Resolved(b)
  {
    forall p: nat ensures OfPriority(a, p) == OfPriority(b, p) {
      AtMostOne(a, p);
      SamePriority(a, b, p);
    }
    OnlyTiesMatter(a, b);
  }

  // The intents of all strategies, collected in the order a hash map happens to list them.
  function Collected(outputs: map<string, seq<OrderIntent>>, names: seq<string>): seq<OrderIntent>
    requires forall n :: n in names ==> n in outputs
  {
    if names == [] then []
    else Collected(outputs, names[..|names| - 1]) + outputs[names[|names| - 1]]
  }

  ghost predicate IsListing(outputs: map<string, seq<OrderIntent>>, names: seq<string>) {
    && (forall n :: n in names <==> n in outputs)
    && (forall i, j :: 0 <= i < j < |names| ==> names[i] != names[j])
  }

  lemma {:induction false} CollectedOfPriority(
      outputs: map<string, seq<OrderIntent>>, names: seq<string>, p: nat, speaker: string)
    requires forall n :: n in names ==> n in outputs
    requires forall i, j :: 0 <= i < j < |names| ==> names[i] != names[j]
    requires forall n :: n in names && n != speaker ==> OfPriority(outputs[n], p) == []
    ensures OfPriority(Collected(outputs, names), p) == if speaker in names then OfPriority(outputs[speaker], p) else []
  {
    if names != [] {
      var k := |names| - 1;
      var init, last := names[..k], names[k];
      assert names == init + [last];
      OfPriorityJoin(Collected(outputs, init), outputs[last], p);
      CollectedOfPriority(outputs, init, p, speaker);
      assert last !in init;
      assert OfPriority(outputs[last], p) + [] == OfPriority(outputs[last], p);
    }
  }

  // The order in which the hash map yields the strategies cannot be seen, as long as no two
  // strategies issue intents of the same priority.
  lemma StrategyOrderIsIrrelevant(outputs: map<string, seq<OrderIntent>>, names: seq<string>, others: seq<string>)
    requires IsListing(outputs, names) && IsListing(outputs, others)
    requires forall m, n, p: nat :: m in outputs && n in outputs && m != n ==>
               OfPriority(outputs[m], p) == [] || OfPriority(outputs[n], p) == []
    ensures Resolved(Collected(outputs, names)) == Resolved(Collected(outputs, others))
  {
    forall p: nat ensures OfPriority(Collected(outputs, names), p) == OfPriority(Collected(outputs, others), p) {
      var speaker := if exists n :: n in outputs && OfPriority(outputs[n], p) != []
                     then var n :| n in outputs && OfPriority(outputs[n], p) != []; n
                     else "";
      CollectedOfPriority(outputs, names, p, speaker);
      CollectedOfPriority(outputs, others, p, speaker);
    }
    OnlyTiesMatter(Collected(outputs, names), Collected(outputs, others));
  }

  lemma {:induction false} OfPriorityCount(intents: seq<OrderIntent>, p: nat, x: OrderIntent)
    ensures multiset(OfPriority(intents, p))[x] == if x.priority == p then multiset(intents)[x] else 0
  {
    if intents != [] {
      var n := |intents| - 1;
      OfPriorityCount(intents[..n], p, x);
      assert intents == intents[..n] + [intents[n]];
    }
  }

  lemma {:induction false} AtMostOne(intents: seq<OrderIntent>, p: nat)
    requires forall i, j :: 0 <= i < j < |intents| ==> intents[i].priority != intents[j].priority
    ensures |OfPriority(intents, p)| <= 1
  {
    if intents != [] {
      var n := |intents| - 1;
      AtMostOne(intents[..n], p);
      if intents[n].priority == p {
        NoneOfPriority(intents[..n], p);
      }
    }
  }

  lemma SamePriority(a: seq<OrderIntent>, b: seq<OrderIntent>, p: nat)
    requires multiset(a) == multiset(b) && |OfPriority(a, p)| <= 1
    ensures OfPriority(a, p) == OfPriority(b, p)
  {
    var x, y := OfPriority(a, p), OfPriority(b, p);
    forall i ensures multiset(x)[i] == multiset(y)[i] {
      OfPriorityCount(a, p, i);
      OfPriorityCount(b, p, i);
    }
    assert multiset(x) == multiset(y);
    assert |x| == |multiset(x)| == |multiset(y)| == |y|;
    if x != [] {
      assert x[0] in multiset(x);
      assert y[0] in multiset(y);
      assert x == [x[0]] && y == [y[0]];
    }
  }

  // ---- the loop, intent by intent -------------------------------------------------------------------

  predicate SameKey(a: OrderIntent, b: OrderIntent) {
    a.marketId == b.marketId && a.tokenId == b.tokenId && a.side == b.side
  }

  // Of the sorted intents, each is kept if and only if it is linked to others or no intent before
  // it is for the same market, token and side.
  lemma KeepExactly(intents: seq<OrderIntent>, i: nat)
    requires i < |intents|
    ensures Keep(intents[..i + 1]) ==
            if intents[i].groupId.Some? || forall j :: 0 <= j < i ==> !SameKey(intents[j], intents[i])
            then Keep(intents[..i]) + [intents[i]]
            else Keep(intents[..i])
    ensures Keep([]) == [] && Keep(intents[..|intents|]) == Keep(intents)
  {
    KeepLast(intents[..i + 1]);
    assert intents[..i + 1][..i] == intents[..i];
    assert intents[..|intents|] == intents;
    if exists j :: 0 <= j < i && SameKey(intents[j], intents[i]) {
      var j :| 0 <= j < i && SameKey(intents[j], intents[i]);
      assert intents[..i][j] in intents[..i];
    }
    if KeyOf(intents[i]) in Keys(intents[..i]) {
      var m :| m in intents[..i] && KeyOf(m) == KeyOf(intents[i]);
      var j :| 0 <= j < i && intents[..i][j] == m;
      assert SameKey(intents[j], intents[i]);
    }
    hide Keep, Keys;
  }

  // The same in terms of what comes out: at most one unlinked intent for each market, token and
  // side, and for every intent one of at least its priority for the same.
  lemma ResolutionByKey(intents: seq<OrderIntent>)
    ensures forall i :: i in intents ==> YieldsByKey(Resolved(intents), i)
    ensures var kept := Resolved(intents);
            forall i, j :: 0 <= i < j < |kept| && SameKey(kept[i], kept[j]) ==> kept[j].groupId.Some?
    ensures forall i :: i in intents && i.groupId.Some? ==> i in Resolved(intents)
  {
    ResolutionIsSound(intents);
    hide Resolved, IsSubsequence, Descending;
    var kept := Resolved(intents);
    forall i | i in intents ensures YieldsByKey(kept, i) {
      assert Yields(kept, i);
      hide OnePerKey;
    }
    forall i, j | 0 <= i < j < |kept| && SameKey(kept[i], kept[j]) ensures kept[j].groupId.Some? {
      hide Yields;
    }
  }

  ghost predicate YieldsByKey(kept: seq<OrderIntent>, intent: OrderIntent) {
    exists w :: w in kept && SameKey(w, intent) && w.priority >= intent.priority
  }
}
