/** The venue that buys the vault's rewards at a linear rate, and how a sale is sized to what it can pay. */
module Broker {
  import opened Arith
  import opened Results

  const FEE_PERMILLE: nat := 10

  /** `num / den` VTRS a LNRG, less the fee; at most `depth` VTRS to pay out. */
  datatype Terms = Terms(num: nat, den: nat, depth: nat)

  type Broker = b: Terms | b.den > 0 witness Terms(1, 1, 0)

  datatype SellError = NotExpendable | ZeroAmount | BelowMinimum | InsufficientLiquidity

  function AfterFee(x: nat): nat {
    x * (1000 - FEE_PERMILLE) / 1000
  }

  function OutFor(b: Broker, x: nat): nat {
    AfterFee(x) * b.num / b.den
  }

  /** No quote where the amount would not fit. */
  function Quote(b: Broker, x: nat): Option<nat> {
    if OutFor(b, x) <= U128_MAX then Some(OutFor(b, x)) else None
  }

  /** What a seller who can part with `reducible` gets for exactly `x`, if at least `least`. */
  function Sell(b: Broker, reducible: nat, x: nat, least: nat): Result<nat, SellError> {
    if reducible < x then Err(NotExpendable)
    else if OutFor(b, x) == 0 then Err(ZeroAmount)
    else if OutFor(b, x) < least then Err(BelowMinimum)
    else if b.depth < OutFor(b, x) then Err(InsufficientLiquidity)
    else Ok(OutFor(b, x))
  }

  /** One proportional step down from a quote the broker cannot pay, shaved by a hundredth. */
  function Shaved(x: nat, depth: nat, q: nat): nat
    requires q > 0
  {
    var y := x * depth / q;
    y - y / 100
  }

  datatype Sale = Sale(amount: nat, quote: nat)

  /** The first of `x` and at most `tries` steps below it whose quote the broker can pay. */
  function Sized(b: Broker, x: nat, tries: nat): Option<Sale>
    decreases tries
  {
    match Quote(b, x)
    case None => None
    case Some(q) =>
      if q <= b.depth then if q != 0 then Some(Sale(x, q)) else None
      else if tries == 0 || Shaved(x, b.depth, q) == 0 then None
      else Sized(b, Shaved(x, b.depth, q), tries - 1)
  }

  /** Largest sale within `want` the broker can pay, as the loop finds it; `want` itself where that can be paid. */
  function Sellable(b: Broker, want: nat): Option<Sale> {
    if b.depth == 0 || want == 0 then None else Sized(b, want, 3)
  }

  /** A step goes strictly down. */
  lemma ShavedIsLess(x: nat, depth: nat, q: nat)
    requires depth < q && 0 < x
    ensures Shaved(x, depth, q) < x
  {
    FloorBounds(x * depth, q);
    MulStrict(depth, q, x);
    MulCancelStrict(x * depth / q, x, q);
  }

  /** A sized sale is no larger than asked, quoted exactly, within the broker's depth, and whole where it can be. */
  lemma {:induction false} SizedIsPayable(b: Broker, x: nat, tries: nat)
    requires 0 < x
    ensures var s := Sized(b, x, tries);
            s.Some? ==>
              && 0 < s.value.amount <= x && s.value.quote == OutFor(b, s.value.amount)
              && 0 < s.value.quote <= b.depth && s.value.quote <= U128_MAX
              && (OutFor(b, x) <= b.depth ==> s.value.amount == x)
    decreases tries
  {
    var q := Quote(b, x);
    if q.Some? && q.value > b.depth && tries > 0 && Shaved(x, b.depth, q.value) > 0 {
      ShavedIsLess(x, b.depth, q.value);
      SizedIsPayable(b, Shaved(x, b.depth, q.value), tries - 1);
    }
  }

  /** A sale as sized is never refused: not for its size, its minimum or the broker's depth. */
  lemma SizedSaleGoesThrough(b: Broker, accrued: nat, canPartWith: nat, least: nat)
    requires var s := Sellable(b, Min(accrued, canPartWith)); s.Some? && least <= s.value.quote
    ensures var s := Sellable(b, Min(accrued, canPartWith)).value;
            && s.amount <= Min(accrued, canPartWith) && 0 < s.amount
            && 0 < s.quote <= b.depth && s.quote <= U128_MAX
            && Sell(b, canPartWith, s.amount, least) == Ok(s.quote)
  {
    SizedIsPayable(b, Min(accrued, canPartWith), 3);
  }

  method SizeSale(b: Broker, accrued: nat, canPartWith: nat) returns (sale: Option<Sale>)
    ensures sale == Sellable(b, Min(accrued, canPartWith))
    ensures sale.Some? ==>
              0 < sale.value.amount <= Min(accrued, canPartWith) && sale.value.quote == OutFor(b, sale.value.amount)
              && 0 < sale.value.quote <= b.depth
  {
    var want := Min(accrued, canPartWith);
    if b.depth == 0 || want == 0 {
      return None;
    }
    SizedIsPayable(b, want, 3);
    ghost var sized := Sized(b, want, 3);
    var x, q, i := want, Quote(b, want), 0;
    while i < 3 && q.Some? && q.value > b.depth
      invariant i <= 3 && q == Quote(b, x)
      invariant Sized(b, x, 3 - i) == sized
    {
      var step := Shaved(x, b.depth, q.value);
      if step == 0 {
        return None;
      }
      x := step;
      q := Quote(b, x);
      i := i + 1;
    }
    return if q.Some? && 0 < q.value <= b.depth then Some(Sale(x, q.value)) else None;
  }

  // ---- one step lands -------------------------------------------------------------------

  /** A quote is within one unit, and one rate's worth, of the linear rate. */
  lemma QuoteBounds(b: Broker, x: nat)
    ensures 1000 * (b.den * OutFor(b, x)) <= 990 * (x * b.num)
    ensures 990 * (x * b.num) < 1000 * (b.den * OutFor(b, x)) + 1000 * b.den + 1000 * b.num + 1
  {
    var g := AfterFee(x);
    assert 1000 * g <= 990 * x < 1000 * g + 1000;
    FloorBounds(g * b.num, b.den);
    MulMono(1000 * g, 990 * x, b.num);
    MulMono(990 * x, 1000 * g + 1000, b.num);
    assert 1000 * g * b.num == 1000 * (g * b.num);
    assert 990 * x * b.num == 990 * (x * b.num);
    assert (1000 * g + 1000) * b.num == 1000 * (g * b.num) + 1000 * b.num;
    assert OutFor(b, x) * b.den == b.den * OutFor(b, x);
  }

  lemma ShaveBounds(x: nat, depth: nat, q: nat)
    requires q > 0
    ensures 100 * (Shaved(x, depth, q) * q) <= 99 * (x * depth) + 99 * q
    ensures 99 * (x * depth) < 100 * (Shaved(x, depth, q) * q) + 99 * q
  {
    var y, s := x * depth / q, Shaved(x, depth, q);
    FloorBounds(x * depth, q);
    assert 100 * s <= 99 * y + 99 && 99 * y <= 100 * s;
    MulMono(100 * s, 99 * y + 99, q);
    MulMono(99 * y, 100 * s, q);
    assert 100 * s * q == 100 * (s * q);
    assert (99 * y + 99) * q == 99 * (y * q) + 99 * q;
    assert 99 * y * q == 99 * (y * q);
  }

  lemma ScaleLow(d: nat, depth: nat, q: nat, sn: nat)
    requires 1000 * (d * depth) + 1000 * d <= 990 * sn
    ensures 100_000 * (d * depth * q) + 100_000 * (d * q) <= 99_000 * (sn * q)
  {
    MulMono(1000 * (d * depth) + 1000 * d, 990 * sn, q);
    assert (1000 * (d * depth) + 1000 * d) * q == 1000 * (d * depth * q) + 1000 * (d * q);
  }

  lemma ScaleShave(s: nat, q: nat, x: nat, depth: nat, n: nat)
    requires 100 * (s * q) <= 99 * (x * depth) + 99 * q
    ensures 100 * (s * n * q) <= 99 * (x * n * depth) + 99 * (n * q)
  {
    MulMono(100 * (s * q), 99 * (x * depth) + 99 * q, n);
    assert 100 * (s * q) * n == 100 * (s * n * q);
    assert (99 * (x * depth) + 99 * q) * n == 99 * (x * n * depth) + 99 * (n * q);
  }

  lemma ScaleQuote(xn: nat, d: nat, q: nat, n: nat, depth: nat)
    requires 990 * xn <= 1000 * (d * q) + 1000 * d + 1000 * n && depth < q
    ensures 990 * (xn * depth) <= 1000 * (d * depth * q) + 1000 * (d * q) + 1000 * (n * q)
  {
    MulMono(990 * xn, 1000 * (d * q) + 1000 * d + 1000 * n, depth);
    assert (1000 * (d * q) + 1000 * d + 1000 * n) * depth
           == 1000 * (d * depth * q) + 1000 * (depth * d) + 1000 * (depth * n);
    MulMono(depth, q, d);
    MulMono(depth, q, n);
  }

  lemma ScaleDepth(d: nat, n: nat, depth: nat, q: nat)
    requires 100 * d + 200 * n <= depth * d
    ensures 100 * (d * q) + 200 * (n * q) <= d * depth * q
  {
    MulMono(100 * d + 200 * n, depth * d, q);
    assert (100 * d + 200 * n) * q == 100 * (d * q) + 200 * (n * q);
    assert depth * d * q == d * depth * q;
  }

  /** Where the broker's depth is worth a hundred quotes of one unit, one step lands at or below it. */
  lemma StepLandsBelow(d: nat, n: nat, depth: nat, q: nat, x: nat, s: nat)
    requires 100 * d + 200 * n <= depth * d && 0 < d && depth < q
    requires 100 * (s * q) <= 99 * (x * depth) + 99 * q
    requires 990 * (x * n) <= 1000 * (d * q) + 1000 * d + 1000 * n
    ensures 990 * (s * n) < 1000 * (d * depth) + 1000 * d
  {
    if 1000 * (d * depth) + 1000 * d <= 990 * (s * n) {
      ScaleLow(d, depth, q, s * n);
      ScaleShave(s, q, x, depth, n);
      ScaleQuote(x * n, d, q, n, depth);
      ScaleDepth(d, n, depth, q);
      MulStrict(0, d, q);
      assert false;
    }
  }

  lemma ScaleHigh(d: nat, n: nat, q: nat, sn: nat)
    requires 990 * sn <= 1000 * d + 1000 * n
    ensures 990 * (sn * q) <= 1000 * (d * q) + 1000 * (n * q)
  {
    MulMono(990 * sn, 1000 * d + 1000 * n, q);
    assert (1000 * d + 1000 * n) * q == 1000 * (d * q) + 1000 * (n * q);
  }

  lemma ScaleWhole(d: nat, q: nat, xn: nat, depth: nat)
    requires 1000 * (d * q) <= 990 * xn
    ensures 1000 * (d * depth * q) <= 990 * (xn * depth)
  {
    MulMono(1000 * (d * q), 990 * xn, depth);
    assert 1000 * (d * q) * depth == 1000 * (d * depth * q);
  }

  lemma ScaleKept(s: nat, q: nat, x: nat, depth: nat, n: nat)
    requires 99 * (x * depth) <= 100 * (s * q) + 99 * q
    ensures 99 * (x * n * depth) <= 100 * (s * n * q) + 99 * (n * q)
  {
    MulMono(99 * (x * depth), 100 * (s * q) + 99 * q, n);
    assert 99 * (x * depth) * n == 99 * (x * n * depth);
    assert (100 * (s * q) + 99 * q) * n == 100 * (s * n * q) + 99 * (n * q);
  }

  /** ... and stays worth at least one unit. */
  lemma StepPays(d: nat, n: nat, depth: nat, q: nat, x: nat, s: nat)
    requires 100 * d + 200 * n <= depth * d && 0 < d && depth < q
    requires 1000 * (d * q) <= 990 * (x * n)
    requires 99 * (x * depth) <= 100 * (s * q) + 99 * q
    ensures 1000 * d + 1000 * n < 990 * (s * n)
  {
    if 990 * (s * n) <= 1000 * d + 1000 * n {
      ScaleHigh(d, n, q, s * n);
      ScaleWhole(d, q, x * n, depth);
      ScaleKept(s, q, x, depth, n);
      ScaleDepth(d, n, depth, q);
      MulStrict(0, d, q);
      assert false;
    }
  }

  /** Where the depth is worth a hundred units of currency and two hundred of the asset, a sale of any size is found at
      the first step: all of it, or a part that pays. */
  lemma SaleIsFound(b: Broker, want: nat)
    requires 100 * b.den + 200 * b.num <= b.depth * b.den && Quote(b, want).Some? && 0 < OutFor(b, want)
    ensures Sellable(b, want).Some?
    ensures Sellable(b, want) == Sized(b, want, 1)
  {
    if b.depth < OutFor(b, want) {
      StepIsPayable(b, want);
    }
  }

  lemma StepIsPayable(b: Broker, want: nat)
    requires 100 * b.den + 200 * b.num <= b.depth * b.den && b.depth < OutFor(b, want)
    ensures var s := Shaved(want, b.depth, OutFor(b, want)); 0 < s && 0 < OutFor(b, s) <= b.depth
  {
    var q := OutFor(b, want);
    var s := Shaved(want, b.depth, q);
    QuoteBounds(b, want);
    QuoteBounds(b, s);
    ShaveBounds(want, b.depth, q);
    StepLandsBelow(b.den, b.num, b.depth, q, want, s);
    StepPays(b.den, b.num, b.depth, q, want, s);
    LandsBelow(b, s);
    PositiveQuote(b, s);
  }

  lemma LandsBelow(b: Broker, s: nat)
    requires 1000 * (b.den * OutFor(b, s)) <= 990 * (s * b.num) < 1000 * (b.den * b.depth) + 1000 * b.den
    ensures OutFor(b, s) <= b.depth
  {
    assert (b.depth + 1) * b.den == b.den * b.depth + b.den;
    MulCancelStrict(OutFor(b, s), b.depth + 1, b.den);
  }

  lemma PositiveQuote(b: Broker, s: nat)
    requires 1000 * b.den + 1000 * b.num < 990 * (s * b.num)
    requires 990 * (s * b.num) < 1000 * (b.den * OutFor(b, s)) + 1000 * b.den + 1000 * b.num + 1
    ensures 0 < OutFor(b, s) && 0 < s
  {
  }
}
