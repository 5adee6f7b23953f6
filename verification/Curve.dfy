/**
 Constant-product bonding-curve pricing: pure functions from a launch's terms and curve state to a
 quote or an error. Operands are 128-bit, products are wide, and every division rounds towards the pool.
 */
module Curve {
  import opened Arith
  import opened Results

  /** Largest quote input of a single trade. */
  const MAX_TRADE_IN: nat := 10_000_000_000_000_000_000_000_000_000_000_000

  datatype Terms = Terms(virtualQuote: U128, tokenFloor: U128, feeBps: U128)

  datatype State = State(realQuote: U128, tokensRemaining: U128)

  datatype BuyQuote = BuyQuote(tokensOut: U128, quoteUsed: U128, quoteNetUsed: U128, fee: U128, crossed: bool)

  datatype SellQuote = SellQuote(quoteGross: U128, fee: U128, quoteOut: U128)

  datatype MathError = ZeroAmount | Overflow | Unquotable | BadState

  /** Virtual quote reserve `Q`. */
  function QuoteSide(t: Terms, s: State): nat {
    t.virtualQuote + s.realQuote
  }

  /** Virtual token reserve `Tk`. */
  function TokenSide(t: Terms, s: State): nat {
    t.tokenFloor + s.tokensRemaining
  }

  /** The curve invariant `k = Q * Tk`, unchecked. */
  function K(t: Terms, s: State): nat {
    QuoteSide(t, s) * TokenSide(t, s)
  }

  /** The curve's pricing preconditions on a state: both sums fit and neither side is empty. */
  predicate Priceable(t: Terms, s: State) {
    && 0 < QuoteSide(t, s) <= U128_MAX
    && 0 < TokenSide(t, s) <= U128_MAX
  }

  /** Trading fee on `amount`, rounded up. */
  function FeeOn(amount: U128, feeBps: U128): Result<U128, MathError> {
    if feeBps == 0 then Ok(0)
    else if amount * feeBps > U128_MAX then Err(Overflow)
    else
      CeilIff(amount * feeBps, BPS, amount * feeBps);
      Ok(CeilDiv(amount * feeBps, BPS))
  }

  /** Virtual reserves and their product. */
  function Reserves(t: Terms, s: State): Result<(U128, U128, nat), MathError> {
    if Priceable(t, s) then Ok((QuoteSide(t, s), TokenSide(t, s), K(t, s))) else Err(BadState)
  }

  function ToU128(x: nat): Result<U128, MathError> {
    if x <= U128_MAX then Ok(x) else Err(Overflow)
  }

  /** Quote for an exact-quote-in buy. */
  function QuoteBuy(t: Terms, s: State, qIn: U128): Result<BuyQuote, MathError> {
    if qIn == 0 then Err(ZeroAmount)
    else if qIn > MAX_TRADE_IN then Err(Overflow)
    else if s.tokensRemaining == 0 then Err(BadState)
    else if t.feeBps >= BPS then Err(BadState)
    else
      var fee :- FeeOn(qIn, t.feeBps);
      if qIn < fee then Err(Overflow)
      else if qIn == fee then Err(Unquotable)
      else
        var qNet: U128 := qIn - fee;
        var (q, tk, k) :- Reserves(t, s);
        if q + qNet > U128_MAX then Err(Overflow)
        else
          var rounded :- ToU128(CeilDiv(k, q + qNet));
          var tkNew := Min(rounded, tk);
          var tOut: U128 := tk - tkNew;
          if tOut == 0 then Err(Unquotable)
          else if tOut < s.tokensRemaining then
            Ok(BuyQuote(tOut, qIn, qNet, fee, false))
          else
            QuoteBuyCrossing(t, s, qIn, q, k, qNet)
  }

  /**
   The partial fill that empties the curve: it charges what the curve needs to reach its floor, plus the
   inverse of the normal fee rounding. Reached only when the floor is positive.
   */
  function QuoteBuyCrossing(t: Terms, s: State, qIn: U128, q: U128, k: nat, qNet: U128): Result<BuyQuote, MathError>
    requires 0 < q && 0 < qNet && q + qNet <= U128_MAX && t.feeBps < BPS && k == K(t, s)
    requires 0 < k && CeilDiv(k, q + qNet) <= t.tokenFloor
  {
    FloorReached(k, q + qNet, t.tokenFloor);
    var qEnd :- ToU128(CeilDiv(k, t.tokenFloor));
    if qEnd < q then Err(BadState)
    else if qEnd == q then Err(Unquotable)
    else
      var net: U128 := qEnd - q;
      if t.feeBps != 0 && net * t.feeBps > U128_MAX then Err(Overflow)
      else
        var feeC := if t.feeBps == 0 then 0 else CeilDiv(net * t.feeBps, BPS - t.feeBps);
        if net + feeC > U128_MAX then Err(Overflow)
        else if net + feeC > qIn then Err(Overflow)
        else Ok(BuyQuote(s.tokensRemaining, net + feeC, net, feeC, true))
  }

  /** A positive product never rounds up to nothing, so a crossing floor is positive. */
  lemma FloorReached(k: nat, d: nat, floor: nat)
    requires 0 < d && 0 < k && CeilDiv(k, d) <= floor
    ensures 0 < floor
  {
    CeilBounds(k, d);
  }

  /** Quote for an exact-tokens-in sell. */
  function QuoteSell(t: Terms, s: State, tIn: U128): Result<SellQuote, MathError> {
    if tIn == 0 then Err(ZeroAmount)
    else if t.feeBps >= BPS then Err(BadState)
    else
      var (q, tk, k) :- Reserves(t, s);
      if tk + tIn > U128_MAX then Err(Overflow)
      else
        var rounded :- ToU128(CeilDiv(k, tk + tIn));
        var qNew := if rounded < t.virtualQuote then t.virtualQuote else rounded;
        if q < qNew then Err(BadState)
        else if q == qNew then Err(Unquotable)
        else if q - qNew > s.realQuote then Err(BadState)
        else
          var gross: U128 := q - qNew;
          var fee :- FeeOn(gross, t.feeBps);
          if gross < fee then Err(Overflow)
          else if gross == fee then Err(Unquotable)
          else Ok(SellQuote(gross, fee, gross - fee))
  }

  /** Quote raised when the curve sells out, as advertised at creation; the terms have a positive floor. */
  function RaiseAtSellout(t: Terms, sellable: U128): Option<U128>
    requires t.tokenFloor > 0
  {
    if t.tokenFloor + sellable > U128_MAX then None
    else
      var qEnd := CeilDiv(t.virtualQuote * (t.tokenFloor + sellable), t.tokenFloor);
      if qEnd > U128_MAX || qEnd < t.virtualQuote then None else Some(qEnd - t.virtualQuote)
  }

  /** Curve state after a quoted buy. */
  function AfterBuy(s: State, b: BuyQuote): State
    requires s.realQuote + b.quoteNetUsed <= U128_MAX && b.tokensOut <= s.tokensRemaining
  {
    State(s.realQuote + b.quoteNetUsed, s.tokensRemaining - b.tokensOut)
  }

  /** Curve state after a quoted sell of `tIn` tokens. */
  function AfterSell(s: State, tIn: U128, x: SellQuote): State
    requires x.quoteGross <= s.realQuote && s.tokensRemaining + tIn <= U128_MAX
  {
    State(s.realQuote - x.quoteGross, s.tokensRemaining + tIn)
  }
}
