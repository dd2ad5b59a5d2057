// Value types shared by every module, and the arithmetic helpers of exact decimals.

module Base {
  datatype Option<+T> = None | Some(value: T)

  type TokenId = string
  type ConditionId = string
  type OrderId = string

  datatype Side = Buy | Sell

  function Abs(x: real): real {
    if x < 0.0 then -x else x
  }

  function Min(x: real, y: real): real {
    if x <= y then x else y
  }

  function Max(x: real, y: real): real {
    if x >= y then x else y
  }

  // What n shares cost at a price.
  function Value(price: real, n: real): real {
    price * n
  }
}

// Sums over the values of a map and over a sequence. A concurrent map is iterated in
// an order nobody controls, so its sum is defined by picking keys arbitrarily and
// shown not to depend on the picks.
module Sums {
  ghost function Over<K(!new), V(!new)>(m: map<K, V>, f: V -> real): real {
    if m == map[] then 0.0
    else
      var k :| k in m;
      f(m[k]) + Over(m - {k}, f)
  }

  lemma {:induction false} Remove<K(!new), V(!new)>(m: map<K, V>, k: K, f: V -> real)
    requires k in m
    ensures Over(m, f) == f(m[k]) + Over(m - {k}, f)
  {
    var j :| j in m && Over(m, f) == f(m[j]) + Over(m - {j}, f);
    if j != k {
      Remove(m - {j}, k, f);
      Remove(m - {k}, j, f);
      assert (m - {j}) - {k} == (m - {k}) - {j};
    }
  }

  lemma Update<K(!new), V(!new)>(m: map<K, V>, k: K, v: V, f: V -> real)
    ensures Over(m[k := v], f) == Over(m, f) + f(v) - (if k in m then f(m[k]) else 0.0)
  {
    Remove(m[k := v], k, f);
    if k in m {
      Remove(m, k, f);
      assert m[k := v] - {k} == m - {k};
    } else {
      assert m[k := v] - {k} == m;
    }
  }

  // Two functions that agree on every value have the same sum.
  lemma {:induction false} Agree<K(!new), V(!new), W(!new)>(m: map<K, V>, n: map<K, W>, f: V -> real, g: W -> real)
    requires m.Keys == n.Keys
    requires forall k :: k in m ==> f(m[k]) == g(n[k])
    ensures Over(m, f) == Over(n, g)
  {
    if m != map[] {
      var k :| k in m;
      Remove(m, k, f);
      Remove(n, k, g);
      Agree(m - {k}, n - {k}, f, g);
    } else {
      assert n.Keys == {};
      assert n == map[];
    }
  }

  // A sum is at most another one it is below value by value.
  lemma {:induction false} AtMost<K(!new), V(!new), W(!new)>(m: map<K, V>, n: map<K, W>, f: V -> real, g: W -> real)
    requires m.Keys == n.Keys
    requires forall k :: k in m ==> f(m[k]) <= g(n[k])
    ensures Over(m, f) <= Over(n, g)
  {
    if m != map[] {
      var k :| k in m;
      Remove(m, k, f);
      Remove(n, k, g);
      AtMost(m - {k}, n - {k}, f, g);
    } else {
      assert n.Keys == {};
      assert n == map[];
    }
  }

  lemma {:induction false} NonNegative<K(!new), V(!new)>(m: map<K, V>, f: V -> real)
    requires forall k :: k in m ==> f(m[k]) >= 0.0
    ensures Over(m, f) >= 0.0
  {
    if m != map[] {
      var k :| k in m;
      Remove(m, k, f);
      NonNegative(m - {k}, f);
    }
  }

  // No value exceeds a sum of values that are not negative.
  lemma Member<K(!new), V(!new)>(m: map<K, V>, k: K, f: V -> real)
    requires k in m
    requires forall j :: j in m ==> f(m[j]) >= 0.0
    ensures 0.0 <= f(m[k]) <= Over(m, f)
  {
    Remove(m, k, f);
    NonNegative(m - {k}, f);
  }

  // A map that is split in two has its sum split.
  lemma {:induction false} Split<K(!new), V(!new)>(m: map<K, V>, part: set<K>, f: V -> real)
    ensures Over(m, f) == Over(m - part, f) + Over(m - (m.Keys - part), f)
    decreases m.Keys
  {
    if m != map[] {
      var k :| k in m;
      Remove(m, k, f);
      Split(m - {k}, part, f);
      var rest := m - {k};
      if k in part {
        Remove(m - (m.Keys - part), k, f);
        assert m - part == rest - part;
        assert (m - (m.Keys - part)) - {k} == rest - (rest.Keys - part);
      } else {
        Remove(m - part, k, f);
        assert (m - part) - {k} == rest - part;
        assert m - (m.Keys - part) == rest - (rest.Keys - part);
      }
    }
  }

  function OverSeq<T>(xs: seq<T>, f: T -> real): real {
    if xs == [] then 0.0 else OverSeq(xs[..|xs| - 1], f) + f(xs[|xs| - 1])
  }

  lemma OverSeqSnoc<T>(xs: seq<T>, x: T, f: T -> real)
    ensures OverSeq(xs + [x], f) == OverSeq(xs, f) + f(x)
  {
    assert (xs + [x])[..|xs|] == xs;
  }

  // Taking one element out of the middle takes its term out of the sum.
  lemma {:induction false} OverSeqRemove<T>(xs: seq<T>, i: nat, f: T -> real)
    requires i < |xs|
    ensures OverSeq(xs, f) == OverSeq(xs[..i] + xs[i + 1..], f) + f(xs[i])
  {
    var n := |xs| - 1;
    if i == n {
      assert xs[..i] + xs[i + 1..] == xs[..n];
    } else {
      OverSeqRemove(xs[..n], i, f);
      assert xs[..i] + xs[i + 1..] == (xs[..n][..i] + xs[..n][i + 1..]) + [xs[n]];
      OverSeqSnoc(xs[..n][..i] + xs[..n][i + 1..], xs[n], f);
    }
  }

  // The sum over a sequence depends only on the multiset of its elements.
  lemma {:induction false} OverSeqPermutation<T>(xs: seq<T>, ys: seq<T>, f: T -> real)
    requires multiset(xs) == multiset(ys)
    ensures OverSeq(xs, f) == OverSeq(ys, f)
  {
    if xs == [] {
      assert |ys| == |multiset(ys)|;
    } else {
      var n := |xs| - 1;
      var x := xs[n];
      assert x in multiset(ys);
      var i :| 0 <= i < |ys| && ys[i] == x;
      var rest := ys[..i] + ys[i + 1..];
      assert xs == xs[..n] + [x];
      assert ys == ys[..i] + [x] + ys[i + 1..];
      assert multiset(rest) == multiset(ys) - multiset{x};
      OverSeqRemove(ys, i, f);
      OverSeqPermutation(xs[..n], rest, f);
    }
  }
}
