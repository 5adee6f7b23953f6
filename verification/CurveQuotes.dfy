/** What each quote is, stated without its guards: when it fails, what it charges, and what it does to `k`. */
module CurveQuotes {
  import opened Arith
  import opened Results
  import opened Curve

  /** What is left of `amount` after the fee, rounded down. */
  function NetOf(amount: nat, feeBps: nat): nat
    requires feeBps <= BPS
  {
    amount * (BPS - feeBps) / BPS
  }

  /** A fee rounded up leaves the net rounded down. */
  lemma FeeLeavesNet(amount: U128, feeBps: U128)
    requires feeBps < BPS
    ensures CeilDiv(amount * feeBps, BPS) <= amount
    ensures amount - CeilDiv(amount * feeBps, BPS) == NetOf(amount, feeBps)
  {
    var fee := CeilDiv(amount * feeBps, BPS);
    assert amount * (BPS - feeBps) == amount * BPS - amount * feeBps;
    MulMono(feeBps, BPS, amount);
    CeilIff(amount * feeBps, BPS, amount);
    CeilBounds(amount * feeBps, BPS);
    FloorBounds(amount * (BPS - feeBps), BPS);
    FloorIff(amount * (BPS - feeBps), BPS, amount - fee);
    assert (amount - fee) * BPS == amount * BPS - fee * BPS;
    assert (amount - fee + 1) * BPS > amount * (BPS - feeBps);
    FloorIff(amount * (BPS - feeBps), BPS, amount - fee + 1);
  }

  /** What a crossing buy charges for `net`: the least offer whose net reaches `net`. */
  function GrossFor(net: nat, feeBps: nat): nat
    requires feeBps < BPS
  {
    net + CeilDiv(net * feeBps, BPS - feeBps)
  }

  lemma GrossIsThreshold(net: nat, feeBps: nat, offer: nat)
    requires feeBps < BPS
    ensures GrossFor(net, feeBps) <= offer <==> net <= NetOf(offer, feeBps)
  {
    FloorIff(offer * (BPS - feeBps), BPS, net);
    if net <= offer {
      CoveringOffer(net, feeBps, offer);
    } else {
      MulStrict(offer, net, BPS - feeBps);
      FeeParts(net, feeBps);
    }
  }

  lemma CoveringOffer(net: nat, feeBps: nat, offer: nat)
    requires feeBps < BPS && net <= offer
    ensures GrossFor(net, feeBps) <= offer <==> net * BPS <= offer * (BPS - feeBps)
  {
    CeilIff(net * feeBps, BPS - feeBps, offer - net);
    FeeParts(net, feeBps);
    RestOfOffer(offer, net, BPS - feeBps);
  }

  lemma FeeParts(net: nat, feeBps: nat)
    requires feeBps <= BPS
    ensures net * BPS == net * (BPS - feeBps) + net * feeBps
  {
  }

  lemma RestOfOffer(offer: nat, net: nat, rest: nat)
    requires net <= offer
    ensures (offer - net) * rest == offer * rest - net * rest
  {
  }

  /** The buy delivers tokens at net `net`: rounding `Tk` up does not absorb them all. */
  predicate Delivers(t: Terms, s: State, net: nat)
  {
    TokenSide(t, s) > 0 && K(t, s) <= (TokenSide(t, s) - 1) * (QuoteSide(t, s) + net)
  }

  /** Net `net` pays for every remaining token. */
  predicate Empties(t: Terms, s: State, net: nat) {
    K(t, s) <= t.tokenFloor * (QuoteSide(t, s) + net)
  }

  /** Net cost of the last tokens, `ceil(k / floor) - Q`. */
  function NetToFloor(t: Terms, s: State): int
    requires t.tokenFloor > 0
  {
    CeilDiv(K(t, s), t.tokenFloor) - QuoteSide(t, s)
  }

  lemma NetToFloorIff(t: Terms, s: State, net: nat)
    requires t.tokenFloor > 0
    ensures Empties(t, s, net) <==> NetToFloor(t, s) <= net
    ensures s.tokensRemaining > 0 && QuoteSide(t, s) > 0 ==> NetToFloor(t, s) > 0
  {
    CeilIff(K(t, s), t.tokenFloor, QuoteSide(t, s) + net);
    CeilIff(K(t, s), t.tokenFloor, QuoteSide(t, s));
    if s.tokensRemaining > 0 && QuoteSide(t, s) > 0 {
      MulStrict(t.tokenFloor, TokenSide(t, s), QuoteSide(t, s));
    }
  }

  lemma EmptiesNeedsFloor(t: Terms, s: State, net: nat)
    requires Priceable(t, s) && Empties(t, s, net)
    ensures t.tokenFloor > 0
  {
    MulStrict(0, TokenSide(t, s), QuoteSide(t, s));
  }

  /** The only errors of a buy, and its fill otherwise; no guard after the crossing test can fire. */
  function BuyOutcome(t: Terms, s: State, qIn: U128): Result<BuyQuote, MathError> {
    if qIn == 0 then Err(ZeroAmount)
    else if qIn > MAX_TRADE_IN then Err(Overflow)
    else if s.tokensRemaining == 0 || t.feeBps >= BPS then Err(BadState)
    else if NetOf(qIn, t.feeBps) == 0 then Err(Unquotable)
    else if !Priceable(t, s) then Err(BadState)
    else if QuoteSide(t, s) + NetOf(qIn, t.feeBps) > U128_MAX then Err(Overflow)
    else if !Delivers(t, s, NetOf(qIn, t.feeBps)) then Err(Unquotable)
    else if Empties(t, s, NetOf(qIn, t.feeBps)) then Ok(CrossingFill(t, s, qIn))
    else Ok(PartialFill(t, s, qIn))
  }

  function PartialFill(t: Terms, s: State, qIn: U128): (b: BuyQuote)
    requires t.feeBps < BPS && Priceable(t, s)
  {
    var net := NetOf(qIn, t.feeBps);
    MulDivAtMost(qIn, BPS - t.feeBps, BPS);
    var tkNew := CeilDiv(K(t, s), QuoteSide(t, s) + net);
    BuyQuote(SatSub(TokenSide(t, s), tkNew), qIn, net, qIn - net, false)
  }

  function CrossingFill(t: Terms, s: State, qIn: U128): (b: BuyQuote)
    requires t.feeBps < BPS && Priceable(t, s) && s.tokensRemaining > 0
    requires Empties(t, s, NetOf(qIn, t.feeBps))
  {
    EmptiesNeedsFloor(t, s, NetOf(qIn, t.feeBps));
    NetToFloorIff(t, s, NetOf(qIn, t.feeBps));
    var net := NetToFloor(t, s);
    GrossIsThreshold(net, t.feeBps, qIn);
    BuyQuote(s.tokensRemaining, GrossFor(net, t.feeBps), net, GrossFor(net, t.feeBps) - net, true)
  }

  lemma BuyIsOutcome(t: Terms, s: State, qIn: U128)
    ensures QuoteBuy(t, s, qIn) == BuyOutcome(t, s, qIn)
  {
    if 0 < qIn <= MAX_TRADE_IN && s.tokensRemaining > 0 && t.feeBps < BPS {
      MulMono(t.feeBps, BPS, qIn);
      MulMono(qIn, MAX_TRADE_IN, BPS);
      FeeLeavesNet(qIn, t.feeBps);
      var net := NetOf(qIn, t.feeBps);
      if net > 0 && Priceable(t, s) && QuoteSide(t, s) + net <= U128_MAX {
        var q, tk, k := QuoteSide(t, s), TokenSide(t, s), K(t, s);
        CeilAntitone(k, q, q + net);
        CeilIff(k, q, tk);
        CeilIff(k, q + net, tk - 1);
        CeilIff(k, q + net, t.tokenFloor);
        if Empties(t, s, net) {
          CrossingGuards(t, s, qIn, net);
        }
      }
    }
  }

  /** The three guards of the crossing branch hold by construction. */
  lemma CrossingGuards(t: Terms, s: State, qIn: U128, net: U128)
    requires 0 < qIn <= MAX_TRADE_IN && s.tokensRemaining > 0 && t.feeBps < BPS && Priceable(t, s)
    requires net == NetOf(qIn, t.feeBps) && net > 0 && QuoteSide(t, s) + net <= U128_MAX && Empties(t, s, net)
    ensures K(t, s) > 0 && CeilDiv(K(t, s), QuoteSide(t, s) + net) <= t.tokenFloor
    ensures QuoteBuyCrossing(t, s, qIn, QuoteSide(t, s), K(t, s), net) == Ok(CrossingFill(t, s, qIn))
  {
    var q, k := QuoteSide(t, s), K(t, s);
    MulStrict(0, TokenSide(t, s), q);
    CeilIff(k, q + net, t.tokenFloor);
    EmptiesNeedsFloor(t, s, net);
    NetToFloorIff(t, s, net);
    var cost: nat := NetToFloor(t, s);
    GrossIsThreshold(cost, t.feeBps, qIn);
    MulMono(cost, MAX_TRADE_IN, t.feeBps);
    MulMono(t.feeBps, BPS, MAX_TRADE_IN);
    if t.feeBps == 0 {
      CeilIff(0, BPS, 0);
    }
  }

  /** What a sell moves out of the curve before fees. */
  function GrossOut(t: Terms, s: State, tIn: U128): nat
    requires Priceable(t, s)
  {
    var rounded := CeilDiv(K(t, s), TokenSide(t, s) + tIn);
    SatSub(QuoteSide(t, s), if rounded < t.virtualQuote then t.virtualQuote else rounded)
  }

  /** The only errors of a sell; the curve always holds what it pays. */
  function SellOutcome(t: Terms, s: State, tIn: U128): Result<SellQuote, MathError> {
    if tIn == 0 then Err(ZeroAmount)
    else if t.feeBps >= BPS || !Priceable(t, s) then Err(BadState)
    else if TokenSide(t, s) + tIn > U128_MAX then Err(Overflow)
    else
      var gross := GrossOut(t, s, tIn);
      MulDivAtMost(gross, BPS - t.feeBps, BPS);
      if gross == 0 then Err(Unquotable)
      else if gross * t.feeBps > U128_MAX then Err(Overflow)
      else if NetOf(gross, t.feeBps) == 0 then Err(Unquotable)
      else Ok(SellQuote(gross, gross - NetOf(gross, t.feeBps), NetOf(gross, t.feeBps)))
  }

  /** The new quote side of a sell stays between the phantom reserve and the old one. */
  lemma SellRounds(t: Terms, s: State, tIn: U128)
    requires Priceable(t, s)
    ensures CeilDiv(K(t, s), TokenSide(t, s) + tIn) <= QuoteSide(t, s)
    ensures GrossOut(t, s, tIn) <= s.realQuote
  {
    CeilIff(K(t, s), TokenSide(t, s) + tIn, QuoteSide(t, s));
    MulMono(TokenSide(t, s), TokenSide(t, s) + tIn, QuoteSide(t, s));
  }

  /** A fee within 128 bits is the ceiling, zero rate included. */
  lemma FeeIs(amount: U128, feeBps: U128)
    requires feeBps < BPS
    ensures FeeOn(amount, feeBps) ==
            if amount * feeBps > U128_MAX then Err(Overflow) else Ok(amount - NetOf(amount, feeBps))
    ensures NetOf(amount, feeBps) <= amount
  {
    FeeLeavesNet(amount, feeBps);
  }

  lemma SellIsOutcome(t: Terms, s: State, tIn: U128)
    ensures QuoteSell(t, s, tIn) == SellOutcome(t, s, tIn)
  {
    if Priceable(t, s) && tIn > 0 && t.feeBps < BPS && TokenSide(t, s) + tIn <= U128_MAX {
      SellRounds(t, s, tIn);
      FeeIs(GrossOut(t, s, tIn), t.feeBps);
    }
  }
}
