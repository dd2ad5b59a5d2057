// Order submission (src/execution/executor.rs): sizes are cut to lots whose cost is a whole
// number of cents, responses are classified, and grouped orders are balanced afterwards.

// Euclid's algorithm and the divisibility fact the lot size rests on.
module NumberTheory {
  function Gcd(a: nat, b: nat): nat
    decreases b
  {
    if b == 0 then a else Gcd(b, a % b)
  }

  method GcdU64(a0: nat, b0: nat) returns (a: nat)
    ensures a == Gcd(a0, b0)
  {
    var b: nat := b0;
    a := a0;
    while b != 0
      invariant Gcd(a, b) == Gcd(a0, b0)
      decreases b
    {
      var t := b;
      b := a % b;
      a := t;
    }
  }

  function Times(a: int, b: int): int {
    a * b
  }

  ghost predicate Divides(d: int, n: int) {
    exists q: int :: n == Times(d, q)
  }

  lemma Assoc(a: int, b: int, c: int)
    ensures Times(Times(a, b), c) == Times(a, Times(b, c))
  {
  }

  lemma Comm(a: int, b: int)
    ensures Times(a, b) == Times(b, a)
  {
  }

  lemma Dist(a: int, b: int, c: int)
    ensures Times(a, b + c) == Times(a, b) + Times(a, c)
  {
  }

  lemma Units(a: int)
    ensures Times(a, 1) == a && Times(a, 0) == 0
  {
  }

  lemma Cancel(g: int, a: int, b: int)
    requires g != 0 && Times(g, a) == Times(g, b)
    ensures a == b
  {
    assert g * (a - b) == 0;
  }

  lemma DivMod(a: nat, b: nat)
    requires b > 0
    ensures a == Times(b, a / b) + a % b
  {
  }

  // A divisor of two numbers divides every combination of them.
  lemma Combine(d: int, a: int, x: int, b: int, y: int)
    requires Divides(d, a) && Divides(d, b)
    ensures Divides(d, Times(a, x) + Times(b, y))
  {
    hide Times;
    var p :| a == Times(d, p);
    var q :| b == Times(d, q);
    Assoc(d, p, x);
    Assoc(d, q, y);
    Dist(d, Times(p, x), Times(q, y));
    assert Times(a, x) + Times(b, y) == Times(d, Times(p, x) + Times(q, y));
  }

  lemma {:induction false} Bezout(a: nat, b: nat) returns (x: int, y: int)
    ensures Times(a, x) + Times(b, y) == Gcd(a, b)
    decreases b
  {
    hide Times;
    if b == 0 {
      x, y := 1, 0;
      Units(a);
      Units(b);
    } else {
      var q, r := a / b, a % b;
      var x', y' := Bezout(b, r);
      x, y := y', x' - Times(q, y');
      DivMod(a, b);
      // (b q + r) y' + b (x' - q y') == b x' + r y'
      Comm(a, y');
      Dist(y', Times(b, q), r);
      Comm(y', Times(b, q));
      Comm(y', r);
      Assoc(b, q, y');
      Dist(b, y, Times(q, y'));
    }
  }

  lemma {:induction false} GcdDividesBoth(a: nat, b: nat)
    requires a > 0 || b > 0
    ensures Gcd(a, b) > 0
    ensures Divides(Gcd(a, b), a) && Divides(Gcd(a, b), b)
    decreases b
  {
    hide Times;
    if b == 0 {
      Units(a);
      assert a == Times(a, 1) && b == Times(a, 0);
    } else {
      GcdDividesBoth(b, a % b);
      Combine(Gcd(a, b), b, a / b, a % b, 1);
      DivMod(a, b);
      Units(a % b);
    }
  }

  // Anything that divides both numbers divides their gcd, so it is the greatest.
  lemma GcdIsGreatest(a: nat, b: nat, d: int)
    requires Divides(d, a) && Divides(d, b)
    ensures Divides(d, Gcd(a, b))
  {
    hide Times, Divides;
    var x, y := Bezout(a, b);
    Combine(d, a, x, b, y);
  }

  // c k is a multiple of m exactly when k is a multiple of m / gcd(c, m).
  lemma Cofactor(c: nat, m: nat, n: nat, k: int)
    requires c > 0 && m > 0 && m == Times(Gcd(c, m), n)
    ensures Divides(m, Times(c, k)) <==> Divides(n, k)
  {
    hide Times, Gcd;
    var g := Gcd(c, m);
    GcdDividesBoth(c, m);
    if Divides(m, Times(c, k)) {
      var x, y := Bezout(c, m);
      Units(m);
      Combine(m, Times(c, k), x, m, Times(k, y));
      // g k == c k x + m k y
      Comm(g, k);
      Dist(k, Times(c, x), Times(m, y));
      Rotate(k, c, x);
      Rotate(k, m, y);
      var s :| Times(g, k) == Times(m, s);
      Assoc(g, n, s);
      Cancel(g, k, Times(n, s));
    }
    if Divides(n, k) {
      var e :| c == Times(g, e);
      var s :| k == Times(n, s);
      Cross(g, e, n, s);
      assert Times(c, k) == Times(m, Times(e, s));
    }
  }

  lemma Rotate(k: int, c: int, x: int)
    ensures Times(k, Times(c, x)) == Times(Times(c, k), x) == Times(c, Times(k, x))
  {
    assert k * (c * x) == (c * k) * x == c * (k * x);
  }

  lemma Cross(g: int, e: int, n: int, s: int)
    ensures Times(Times(g, e), Times(n, s)) == Times(Times(g, n), Times(e, s))
  {
    assert (g * e) * (n * s) == (g * n) * (e * s);
  }
}

module Quantizer {
  import opened Base
  import opened NumberTheory

  const MIN_NOTIONAL := 1.0
  const I64_LIMIT := 0x8000_0000_0000_0000

  // k hundredths: cents of a dollar, or hundredths of a share.
  function Cents(k: int): real {
    k as real / 100.0
  }

  ghost predicate WholeCents(amount: real) {
    exists n: int :: amount == Cents(n)
  }

  // The decimal library's default rounding: half to even.
  function Round(x: real): int {
    var below := x.Floor;
    var rest := x - below as real;
    if rest < 0.5 || (rest == 0.5 && below % 2 == 0) then below else below + 1
  }

  // The price in cents, 1 if that is below 1 or does not fit 64 bits.
  function PriceCents(price: real): (c: nat)
    ensures c >= 1
  {
    var r := Round(price * 100.0);
    if 1 <= r < I64_LIMIT then r else 1
  }

  // Hundredths of a share in a lot.
  function LotHundredths(price: real): int {
    var g := Gcd(PriceCents(price), 100);
    if g == 0 then 0 else 100 / g
  }

  function Lot(price: real): real {
    Cents(LotHundredths(price))
  }

  function Lots(count: int, lot: real): real {
    Value(lot, count as real)
  }

  // The whole lots in a size.
  function Count(price: real, size: real): int {
    if Lot(price) == 0.0 then 0 else (size / Lot(price)).Floor
  }

  function Quantized(price: real, size: real): real {
    if price == 0.0 || size == 0.0 then size
    else
      var quantized := Lots(Count(price, size), Lot(price));
      if Value(price, quantized) < MIN_NOTIONAL then quantized + Lot(price) else quantized
  }

  lemma LotIsCofactor(price: real)
    ensures var n := LotHundredths(price);
            && 1 <= n <= 100
            && 100 == Times(Gcd(PriceCents(price), 100), n)
            && 0.0 < Lot(price) <= 1.0
  {
    var g := Gcd(PriceCents(price), 100);
    GcdDividesBoth(PriceCents(price), 100);
    hide Gcd, PriceCents;
    var n :| 100 == Times(g, n);
    QuotientIs(100, g, n);
  }

  lemma QuotientIs(m: int, g: int, n: int)
    requires m > 0 && g > 0 && m == Times(g, n)
    ensures m / g == n && 1 <= n <= m
  {
    assert n <= 0 ==> g * n <= 0;
    assert (g - 1) * n >= 0;
    var k := m / g - n;
    assert g * k == -(m % g);
    assert k >= 1 ==> g * k >= g;
    assert k <= -1 ==> g * k <= -g;
  }

  // ---- what a lot is ---------------------------------------------------------------------

  lemma CentsTimes(c: int, k: int)
    ensures Value(Cents(c), Cents(k)) == Cents(Times(c, k)) / 100.0
  {
    assert c as real * k as real == (c * k) as real;
  }

  lemma CentsEqual(a: int, b: int)
    ensures Cents(a) / 100.0 == Cents(b) <==> a == 100 * b
  {
    assert Cents(b) == Cents(100 * b) / 100.0;
  }

  lemma Hundredfold(n: int)
    ensures Times(100, n) == 100 * n
  {
  }

  // At a price of c cents, k hundredths of a share cost whole cents exactly when 100 divides c k.
  lemma CostIsWhole(c: int, k: int)
    ensures WholeCents(Value(Cents(c), Cents(k))) <==> Divides(100, Times(c, k))
  {
    CentsTimes(c, k);
    hide Cents, Times, Value;
    if WholeCents(Value(Cents(c), Cents(k))) {
      var n :| Value(Cents(c), Cents(k)) == Cents(n);
      CentsEqual(Times(c, k), n);
      Hundredfold(n);
      assert Times(c, k) == Times(100, n);
    }
    if Divides(100, Times(c, k)) {
      var n :| Times(c, k) == Times(100, n);
      Hundredfold(n);
      CentsEqual(Times(c, k), n);
      assert Value(Cents(c), Cents(k)) == Cents(n);
    }
  }

  lemma PriceCentsOf(c: int)
    ensures 1 <= c < I64_LIMIT ==> PriceCents(Cents(c)) == c
    ensures !(1 <= c < I64_LIMIT) ==> PriceCents(Cents(c)) == 1
  {
    assert Cents(c) * 100.0 == c as real;
    assert (c as real).Floor == c;
  }

  // The lot is exact: at a whole-cent price, a size in hundredths of a share costs whole cents
  // if and only if it is a multiple of the lot.
  lemma LotIsExact(c: int, k: int)
    requires 1 <= c < I64_LIMIT
    ensures WholeCents(Value(Cents(c), Cents(k))) <==> Divides(LotHundredths(Cents(c)), k)
  {
    PriceCentsOf(c);
    LotIsCofactor(Cents(c));
    CostIsWhole(c, k);
    Cofactor(c, 100, LotHundredths(Cents(c)), k);
  }

  // ---- what cutting to lots does --------------------------------------------------------------

  lemma ValueOrder(price: real, a: real, b: real)
    requires price > 0.0
    ensures Value(price, a) <= Value(price, b) <==> a <= b
    ensures Value(price, a) < Value(price, b) <==> a < b
  {
    var d := b - a;
    assert price * d == Value(price, b) - Value(price, a);
    assert d >= 0.0 ==> price * d >= 0.0;
    assert d > 0.0 ==> price * d > 0.0;
    assert d < 0.0 ==> price * d < 0.0;
  }

  lemma ValueNext(price: real, a: real)
    ensures Value(price, a + 1.0) == Value(price, a) + price
  {
  }

  lemma LotsOrder(a: int, b: int, lot: real)
    requires lot > 0.0
    ensures Lots(a, lot) <= Lots(b, lot) <==> a <= b
    ensures Lots(a, lot) < Lots(b, lot) <==> a < b
    ensures Lots(a + 1, lot) == Lots(a, lot) + lot
  {
    hide Value;
    ValueOrder(lot, a as real, b as real);
    ValueNext(lot, a as real);
    assert (a + 1) as real == a as real + 1.0;
  }

  lemma LotsOfCents(s: int, n: int)
    ensures Lots(s, Cents(n)) == Cents(Times(n, s))
  {
    assert n as real * s as real == (n * s) as real;
    assert n as real / 100.0 * s as real == n as real * s as real / 100.0;
  }

  lemma QuotientValue(size: real, lot: real)
    requires lot != 0.0
    ensures Value(lot, size / lot) == size
  {
  }

  // The count is the largest number of lots that fits the size.
  lemma CountFits(price: real, size: real)
    ensures Lots(Count(price, size), Lot(price)) <= size < Lots(Count(price, size) + 1, Lot(price))
    ensures Lots(Count(price, size) + 1, Lot(price)) == Lots(Count(price, size), Lot(price)) + Lot(price)
  {
    LotIsCofactor(price);
    hide Lot, Value;
    var lot := Lot(price);
    var x := size / lot;
    QuotientValue(size, lot);
    ValueOrder(lot, x.Floor as real, x);
    ValueOrder(lot, x, (x.Floor + 1) as real);
    LotsOrder(x.Floor, x.Floor, lot);
  }

  lemma CountIsLargest(price: real, size: real, s: int)
    ensures Lots(s, Lot(price)) <= size <==> s <= Count(price, size)
  {
    LotIsCofactor(price);
    CountFits(price, size);
    hide Lot, Lots, Count;
    LotsOrder(s, Count(price, size), Lot(price));
    LotsOrder(s, Count(price, size) + 1, Lot(price));
  }

  // The quantized size is a whole number of lots: those that fit, or one more.
  lemma QuantizedIs(price: real, size: real)
    requires price != 0.0 && size != 0.0
    ensures var fits := Count(price, size);
            Quantized(price, size) ==
            Lots(if Value(price, Lots(fits, Lot(price))) < MIN_NOTIONAL then fits + 1 else fits, Lot(price))
  {
    CountFits(price, size);
  }

  // Within one lot of the request, and worth at least a dollar whenever the request was.
  lemma QuantizedIsClose(price: real, size: real)
    requires price > 0.0
    ensures size - Lot(price) < Quantized(price, size) <= size + Lot(price)
    ensures Value(price, size) >= MIN_NOTIONAL ==> Value(price, Quantized(price, size)) >= MIN_NOTIONAL
    ensures Quantized(price, size) > size ==> Value(price, size - Lot(price)) < MIN_NOTIONAL
  {
    LotIsCofactor(price);
    if size != 0.0 {
      QuantizedIs(price, size);
      CountFits(price, size);
      hide Lot, Lots, Count, Value;
      var floored := Lots(Count(price, size), Lot(price));
      ValueOrder(price, size, floored + Lot(price));
      ValueOrder(price, size - Lot(price), floored);
    }
  }

  // A request goes through unchanged exactly when it is free or empty, or a whole number of
  // lots worth a dollar.
  lemma QuantizedKeeps(price: real, size: real)
    ensures Quantized(price, size) == size <==>
            || price == 0.0 || size == 0.0
            || (Value(price, size) >= MIN_NOTIONAL && exists n :: size == Lots(n, Lot(price)))
  {
    LotIsCofactor(price);
    if price != 0.0 && size != 0.0 {
      var fits := Count(price, size);
      QuantizedIs(price, size);
      CountFits(price, size);
      hide Lot, Lots, Count, Value, Quantized;
      if n :| size == Lots(n, Lot(price)) {
        LotsOrder(fits, n, Lot(price));
        LotsOrder(n, fits + 1, Lot(price));
      }
    }
  }

  // Never further than a lot from the request, at any price.
  lemma QuantizedWithinLot(price: real, size: real)
    ensures size - Lot(price) < Quantized(price, size) <= size + Lot(price)
  {
    LotIsCofactor(price);
    if price != 0.0 && size != 0.0 {
      QuantizedIs(price, size);
      CountFits(price, size);
      hide Lot, Lots, Count, Value;
    }
  }

  // Minimal lots. At a whole-cent price the result costs whole cents. It is the largest size
  // in hundredths of a share not above the request that does, unless none of those is worth a
  // dollar; then it is the smallest one above the request.
  lemma QuantizedIsBest(c: int, size: real, k: int)
    requires 1 <= c < I64_LIMIT
    ensures var price := Cents(c);
            var result := Quantized(price, size);
            && WholeCents(Value(price, result))
            && (WholeCents(Value(price, Cents(k))) ==>
                  if result <= size then Cents(k) <= size ==> Cents(k) <= result
                  else
                    && (Cents(k) <= size ==> Value(price, Cents(k)) < MIN_NOTIONAL)
                    && (Cents(k) > size ==> Cents(k) >= result))
  {
    var price := Cents(c);
    assert price > 0.0;
    var n := LotHundredths(price);
    LotIsCofactor(price);
    if size == 0.0 {
      ZeroIsWhole(price);
    } else {
      var fits := Count(price, size);
      var floored := Lots(fits, Lot(price));
      QuantizedIs(price, size);
      CountFits(price, size);
      LotIsWhole(c, fits);
      LotIsWhole(c, fits + 1);
      if WholeCents(Value(price, Cents(k))) {
        LotIsExact(c, k);
        var s :| k == Times(n, s);
        LotsOfCents(s, n);
        CountIsLargest(price, size, s);
        hide Lots, Count, Value, Times, LotHundredths;
        LotsOrder(s, fits, Lot(price));
        LotsOrder(s, fits + 1, Lot(price));
        if Cents(k) <= floored {
          ValueOrder(price, Cents(k), floored);
        }
      }
    }
  }

  lemma ZeroIsWhole(price: real)
    ensures Value(price, 0.0) == Cents(0)
    ensures WholeCents(Value(price, 0.0))
  {
  }

  lemma LotIsWhole(c: int, s: int)
    requires 1 <= c < I64_LIMIT
    ensures WholeCents(Value(Cents(c), Lots(s, Lot(Cents(c)))))
  {
    var n := LotHundredths(Cents(c));
    LotsOfCents(s, n);
    LotIsExact(c, Times(n, s));
    hide Times, Value, Lots, LotHundredths;
  }

  // The lot goes by the nearest cent: half a cent off at most, and to the even one from the middle.
  lemma NearestCent(price: real)
    ensures var cents := Round(price * 100.0);
            && -0.5 <= cents as real - price * 100.0 <= 0.5
            && (cents as real - price * 100.0 in {-0.5, 0.5} ==> cents % 2 == 0)
            && PriceCents(price) == (if 1 <= cents < 0x8000_0000_0000_0000 then cents else 1)
    ensures Lot(price) == Lot(Cents(PriceCents(price)))
    ensures Times(Gcd(PriceCents(price), 100), LotHundredths(price)) == 100
  {
    LotIsCofactor(price);
    PriceCentsOf(PriceCents(price));
    hide Gcd, LotHundredths;
    SameLot(price);
  }

  lemma SameLot(price: real)
    ensures Lot(price) == Lot(Cents(PriceCents(price)))
  {
    PriceCentsOf(PriceCents(price));
    hide Gcd;
  }

  // ---- where whole cents stop --------------------------------------------------------------------

  lemma UnitLot(c: int)
    requires !(1 <= c < I64_LIMIT)
    ensures Lot(Cents(c)) == 1.0
  {
    PriceCentsOf(c);
    assert Gcd(1, 100) == Gcd(100, 1) == Gcd(1, 0) == 1;
  }

  lemma OddPriceIsWhole(c: int, size: real)
    requires !(1 <= c < I64_LIMIT)
    ensures WholeCents(Value(Cents(c), Quantized(Cents(c), size)))
  {
    var price := Cents(c);
    UnitLot(c);
    if price == 0.0 {
      assert Value(price, size) == Cents(0);
    } else if size == 0.0 {
      ZeroIsWhole(price);
    } else {
      QuantizedIs(price, size);
      var s: int :| Quantized(price, size) == Lots(s, 1.0);
      assert Lots(s, 1.0) == s as real;
      assert c as real / 100.0 * s as real == c as real * s as real / 100.0 == (c * s) as real / 100.0;
      assert Value(price, s as real) == Cents(c * s);
    }
  }

  // Requests that come back as two consecutive numbers of lots.
  lemma Consecutive(price: real) returns (k: int, size: real, size': real)
    requires price != 0.0
    ensures Quantized(price, size) == Lots(k, Lot(price)) && Quantized(price, size') == Lots(k + 1, Lot(price))
  {
    LotIsCofactor(price);
    hide LotHundredths, Lot;
    var lot := Lot(price);
    var worth := Value(price, lot);
    var n := if price > 0.0 then (1.0 / worth).Floor + 1 else 1;
    size, size' := Lots(n, lot), Lots(n + 1, lot);
    assert price > 0.0 ==> worth > 0.0;
    assert n >= 1;
    ExactCount(price, n);
    ExactCount(price, n + 1);
    QuantizedIs(price, size);
    QuantizedIs(price, size');
    LotsWorth(price, n, lot);
    LotsWorth(price, n + 1, lot);
    if price > 0.0 {
      EnoughLots(worth, n);
      EnoughLots(worth, n + 1);
      k := n;
    } else {
      NeverEnough(worth, n);
      NeverEnough(worth, n + 1);
      k := n + 1;
    }
  }

  lemma EnoughLots(worth: real, n: int)
    requires worth > 0.0 && n >= (1.0 / worth).Floor + 1
    ensures Value(worth, n as real) >= 1.0
  {
    QuotientValue(1.0, worth);
    ValueOrder(worth, 1.0 / worth, n as real);
  }

  lemma NeverEnough(worth: real, n: int)
    requires worth <= 0.0 && n >= 0
    ensures Value(worth, n as real) <= 0.0
  {
    assert -worth * n as real >= 0.0;
  }

  lemma LotsWorth(price: real, n: int, lot: real)
    ensures Value(price, Lots(n, lot)) == Value(Value(price, lot), n as real)
  {
  }

  lemma ExactCount(price: real, n: int)
    requires n >= 1
    ensures Count(price, Lots(n, Lot(price))) == n
    ensures Lots(n, Lot(price)) > 0.0
  {
    LotIsCofactor(price);
    CountIsLargest(price, Lots(n, Lot(price)), n);
    CountIsLargest(price, Lots(n, Lot(price)), n + 1);
    hide Lot, Count, Value;
    LotsOrder(n, n, Lot(price));
    LotsOrder(n, n + 1, Lot(price));
    LotsOrder(0, n, Lot(price));
    assert Lots(0, Lot(price)) == 0.0 by { NoLots(Lot(price)); }
  }

  lemma NoLots(lot: real)
    ensures Lots(0, lot) == 0.0
  {
  }

  // If a lot costs whole cents, so does a share.
  lemma WholeLotPrice(price: real, m: int)
    requires Value(price, Lot(price)) == Cents(m)
    ensures WholeCents(price)
  {
    var g, n := Gcd(PriceCents(price), 100), LotHundredths(price);
    LotIsCofactor(price);
    hide Gcd, LotHundredths, Times;
    Comm(g, n);
    LotsOfCents(g, n);
    LotsWorth(price, g, Lot(price));
    assert Value(price, 1.0) == price;
    LotsOfCents(g, m);
  }

  lemma ValueMinus(price: real, a: real, b: real)
    ensures Value(price, a) - Value(price, b) == Value(price, a - b)
  {
  }

  lemma OneLotMore(price: real, k: int, a: int, b: int)
    requires Value(price, Lots(k, Lot(price))) == Cents(a) && Value(price, Lots(k + 1, Lot(price))) == Cents(b)
    ensures Value(price, Lot(price)) == Cents(b - a)
  {
    LotIsCofactor(price);
    hide Lot, Lots, Value;
    LotsOrder(k, k + 1, Lot(price));
    ValueMinus(price, Lots(k + 1, Lot(price)), Lots(k, Lot(price)));
  }

  lemma AlwaysWholeMeansCentPrice(price: real)
    requires forall size :: WholeCents(Value(price, Quantized(price, size)))
    ensures WholeCents(price)
  {
    if price == 0.0 {
      assert price == Cents(0);
    } else {
      hide Value, Quantized, Cents;
      var k, size, size' := Consecutive(price);
      assert WholeCents(Value(price, Quantized(price, size)));
      assert WholeCents(Value(price, Quantized(price, size')));
      var a :| Value(price, Quantized(price, size)) == Cents(a);
      var b :| Value(price, Quantized(price, size')) == Cents(b);
      OneLotMore(price, k, a, b);
      WholeLotPrice(price, b - a);
    }
  }

  // The promise that every submitted order costs whole cents holds for all sizes exactly at
  // whole-cent prices.
  lemma WholeCentsExactlyAtCentPrices(price: real)
    ensures (forall size :: WholeCents(Value(price, Quantized(price, size)))) <==> WholeCents(price)
  {
    if WholeCents(price) {
      var c :| price == Cents(c);
      forall size ensures WholeCents(Value(price, Quantized(price, size))) {
        if 1 <= c < I64_LIMIT {
          QuantizedIsBest(c, size, 0);
        } else {
          OddPriceIsWhole(c, size);
        }
      }
    }
    if forall size :: WholeCents(Value(price, Quantized(price, size))) {
      AlwaysWholeMeansCentPrice(price);
    }
  }
}

module GroupExecution {
  import opened Base
  import opened NumberTheory
  import opened Quantizer
  import opened Strategies
  import opened OrderPolicy

  datatype ExecutionStatus =
    | FullyFilled
    | PartialFill
    | Pending
    | Rejected
    | Cancelled
    | SubmissionFailed
    | CircuitOpen

  // The exchange's answer, or the reason there is none.
  datatype Response =
    | Taken(amount: real)
    | Refused
    | NotSubmitted
    | Halted

  datatype ExecutionResult = ExecutionResult(status: ExecutionStatus, filledSize: real)

  // The order an intent is submitted as: priced by the policy, which is configured with an
  // offset for posted orders, and sized in lots.
  function Submitted(offsetCents: real, intent: OrderIntent): OrderParams {
    var params := DualParams(offsetCents, intent);
    params.(size := Quantized(params.price, params.size))
  }

  // The order's size is the quantized one, so that a complete fill is recognised as such.
  function ProcessResponse(order: OrderParams, response: Response): ExecutionResult {
    match response
    case Taken(amount) =>
      var filled := Min(amount, order.size);
      ExecutionResult(
        if filled >= order.size then FullyFilled
        else if filled > 0.0 then PartialFill
        else if order.orderType == FOK then ExecutionStatus.Cancelled
        else Pending,
        filled)
    case Refused => ExecutionResult(Rejected, 0.0)
    case NotSubmitted => ExecutionResult(SubmissionFailed, 0.0)
    case Halted => ExecutionResult(CircuitOpen, 0.0)
  }

  // One leg of a group after its submission: the intent and how much of it filled.
  datatype Leg = Leg(intent: OrderIntent, filled: real)

  const DECIMAL_MAX := 79228162514264337593543950335.0

  function MinFilled(legs: seq<Leg>): real {
    if legs == [] then DECIMAL_MAX
    else Min(MinFilled(legs[..|legs| - 1]), legs[|legs| - 1].filled)
  }

  // Crosses the whole book: sell at a cent, or buy at 99.
  function UnwindPrice(side: Side): real {
    if side == Sell then Cents(1) else Cents(99)
  }

  function Opposite(side: Side): Side {
    if side == Buy then Sell else Buy
  }

  function UnwindFor(leg: Leg, minFilled: real): Option<OrderIntent> {
    var excess := leg.filled - minFilled;
    var side := Opposite(leg.intent.side);
    if excess <= 0.0 then None
    else Some(NewIntent(leg.intent.marketId, leg.intent.tokenId, side, UnwindPrice(side), excess, Immediate,
                        "unwind:" + leg.intent.strategyName))
  }

  lemma {:induction false} MinFilledIsLeast(legs: seq<Leg>)
    ensures forall leg :: leg in legs ==> MinFilled(legs) <= leg.filled
    ensures legs != [] && (forall leg :: leg in legs ==> leg.filled <= DECIMAL_MAX) ==>
              exists leg :: leg in legs && leg.filled == MinFilled(legs)
  {
    if legs != [] {
      var n := |legs| - 1;
      MinFilledIsLeast(legs[..n]);
      assert legs[n] in legs;
      assert forall leg :: leg in legs[..n] ==> leg in legs;
    }
  }

  // A group is left alone exactly when its legs filled equally, and otherwise precisely the
  // legs above the least one are unwound, by their excess and on the other side.
  lemma UnwindsTheExcess(legs: seq<Leg>)
    requires forall leg :: leg in legs ==> leg.filled <= DECIMAL_MAX
    ensures forall leg :: leg in legs ==>
              match UnwindFor(leg, MinFilled(legs))
              case None => forall other :: other in legs ==> leg.filled <= other.filled
              case Some(unwind) =>
                && unwind.size > 0.0 && unwind.side != leg.intent.side && unwind.tokenId == leg.intent.tokenId
                && leg.filled - unwind.size == MinFilled(legs)
                && exists other :: other in legs && other.filled < leg.filled
  {
    MinFilledIsLeast(legs);
  }

  lemma UnwindLot(side: Side)
    ensures Lot(UnwindPrice(side)) == 1.0
  {
    PriceCentsOf(1);
    PriceCentsOf(99);
    assert Gcd(1, 100) == Gcd(100, 1) == Gcd(1, 0) == 1;
    assert Gcd(99, 100) == Gcd(100, 99) == Gcd(99, 1) == Gcd(1, 0) == 1;
  }

  // The excess from which on an unwind no longer overshoots: 100 shares sold at a cent, or
  // 2 bought at 99, are worth the exchange's dollar.
  function OvershootLimit(side: Side): real {
    if side == Sell then 100.0 else 2.0
  }

  // An unwind of whole shares that fills ends within one share of the excess, and it trades
  // more than the excess exactly when that is too small to reach a dollar at its limit price.
  lemma UnwindWithinOneShare(side: Side, excess: real)
    requires excess > 0.0
    ensures var unwound := Quantized(UnwindPrice(side), excess);
            && excess - 1.0 < unwound <= excess + 1.0
            && (unwound > excess <==> excess < OvershootLimit(side))
  {
    var price := UnwindPrice(side);
    var n := Count(price, excess);
    UnwindLot(side);
    QuantizedIs(price, excess);
    CountFits(price, excess);
    CountIsLargest(price, excess, if side == Sell then 100 else 2);
    hide Quantized, Lot, Count, Lots;
    WholeShares(n);
    WholeShares(n + 1);
    WholeShares(if side == Sell then 100 else 2);
    WorthADollar(side, n);
  }

  lemma WorthADollar(side: Side, n: int)
    ensures Value(UnwindPrice(side), n as real) < MIN_NOTIONAL <==> n < if side == Sell then 100 else 2
  {
  }

  lemma WholeShares(n: int)
    ensures Lots(n, 1.0) == n as real
  {
  }

  // How much of a leg an unwind that is answered so leaves, and whether it went through.
  function Residual(offsetCents: real, leg: Leg, minFilled: real, response: Response): real {
    match UnwindFor(leg, minFilled)
    case None => leg.filled
    case Some(unwind) => leg.filled - ProcessResponse(Submitted(offsetCents, unwind), response).filledSize
  }

  predicate Settled(offsetCents: real, leg: Leg, minFilled: real, response: Response) {
    match UnwindFor(leg, minFilled)
    case None => true
    case Some(unwind) => response.Taken? && response.amount >= Submitted(offsetCents, unwind).size
  }

  // The first leg whose unwind did not go through, if any.
  function FirstUnsettled(offsetCents: real, legs: seq<Leg>, minFilled: real, responses: seq<Response>): (i: nat)
    requires |responses| == |legs|
    ensures i <= |legs|
    ensures forall j :: 0 <= j < i ==> Settled(offsetCents, legs[j], minFilled, responses[j])
    ensures i < |legs| ==> !Settled(offsetCents, legs[i], minFilled, responses[i])
  {
    if legs == [] || !Settled(offsetCents, legs[0], minFilled, responses[0]) then 0
    else 1 + FirstUnsettled(offsetCents, legs[1..], minFilled, responses[1..])
  }

  lemma SettledWithinOneShare(offsetCents: real, leg: Leg, minFilled: real, response: Response)
    requires minFilled <= leg.filled && Settled(offsetCents, leg, minFilled, response)
    ensures minFilled - 1.0 <= Residual(offsetCents, leg, minFilled, response) < minFilled + 1.0
  {
    hide Quantized;
    match UnwindFor(leg, minFilled)
    case None =>
    case Some(unwind) => UnwindWithinOneShare(unwind.side, unwind.size);
  }

  // Balances a group after its legs were submitted: each excess is sold back or bought in, as
  // an immediate order that is priced, quantized and answered like any other. The circuit
  // breaker is opened exactly when an unwind does not go through completely. From then on no
  // order is sent any more: every later leg keeps all it filled. If it is not opened, every leg
  // ends within one share of the least filled one.
  method Balance(offsetCents: real, legs: seq<Leg>, responses: seq<Response>)
    returns (residual: seq<real>, breakerOpened: bool)
    requires |responses| == |legs|
    ensures |residual| == |legs|
    ensures var first := FirstUnsettled(offsetCents, legs, MinFilled(legs), responses);
            && (breakerOpened <==> first < |legs|)
            && (forall i :: 0 <= i < |legs| && i <= first ==>
                  residual[i] == Residual(offsetCents, legs[i], MinFilled(legs), responses[i]))
            && (forall i :: first < i < |legs| ==> residual[i] == legs[i].filled)
            && (forall i :: 0 <= i < first ==> MinFilled(legs) - 1.0 <= residual[i] < MinFilled(legs) + 1.0)
  {
    hide Submitted;
    var minFilled := MinFilled(legs);
    ghost var first := FirstUnsettled(offsetCents, legs, minFilled, responses);
    residual := [];
    breakerOpened := false;
    for i := 0 to |legs|
      invariant |residual| == i
      invariant breakerOpened <==> first < i
      invariant forall j :: 0 <= j < i && j <= first ==>
                  residual[j] == Residual(offsetCents, legs[j], minFilled, responses[j])
      invariant forall j :: first < j < i ==> residual[j] == legs[j].filled
    {
      var leg := legs[i];
      match UnwindFor(leg, minFilled) {
        case None =>
          residual := residual + [leg.filled];
        case Some(unwind) =>
          // An open breaker refuses every order before it is submitted.
          var response := if breakerOpened then Halted else responses[i];
          var result := ProcessResponse(Submitted(offsetCents, unwind), response);
          if result.status != FullyFilled {
            breakerOpened := true;
          }
          residual := residual + [leg.filled - result.filledSize];
      }
    }
    MinFilledIsLeast(legs);
    forall i | 0 <= i < first
      ensures minFilled - 1.0 <= residual[i] < minFilled + 1.0
    {
      assert legs[i] in legs;
      SettledWithinOneShare(offsetCents, legs[i], minFilled, responses[i]);
    }
  }

  // How an answer is read. A fill is never more than was ordered; the order is fully filled exactly
  // when all of it was taken, partially when some of it was, and otherwise waits on the book
  // unless it had to fill at once. No answer from the exchange, no fill.
  lemma ResponseExactly(order: OrderParams, response: Response)
    ensures var result := ProcessResponse(order, response);
            match response
            case Taken(amount) =>
              && result.filledSize == (if amount <= order.size then amount else order.size)
              && (result.status == FullyFilled <==> amount >= order.size)
              && (result.status == PartialFill <==> 0.0 < amount < order.size)
              && (result.status == ExecutionStatus.Cancelled <==>
                    amount < order.size && amount <= 0.0 && order.orderType == FOK)
              && (result.status == Pending <==> amount < order.size && amount <= 0.0 && order.orderType != FOK)
            case Refused => result == ExecutionResult(Rejected, 0.0)
            case NotSubmitted => result == ExecutionResult(SubmissionFailed, 0.0)
            case Halted => result == ExecutionResult(CircuitOpen, 0.0)
  {
  }

  // What an intent is submitted as, besides price and size.
  lemma SubmittedAs(offsetCents: real, intent: OrderIntent)
    ensures var order := Submitted(offsetCents, intent);
            && order.tokenId == intent.tokenId && order.side == intent.side
            && order.size == Quantized(order.price, intent.size)
            && (order.orderType == FOK <==> intent.urgency == Immediate)
            && (order.orderType == FAK <==> intent.urgency == Normal)
            && (order.orderType == GTC <==> intent.urgency == Passive)
  {
  }

  // What an excess is unwound by.
  lemma UnwindExactly(leg: Leg, minFilled: real)
    ensures if leg.filled <= minFilled then UnwindFor(leg, minFilled) == None
            else
              var sell := leg.intent.side == Buy;
              UnwindFor(leg, minFilled) == Some(OrderIntent(
                leg.intent.marketId, leg.intent.tokenId, if sell then Sell else Buy, if sell then 0.01 else 0.99,
                leg.filled - minFilled, Immediate, "unwind:" + leg.intent.strategyName, None, 50, 0.0))
  {
  }
}
