/** How trades compose: monotone quotes, no gain from splitting, and no gain from bracketing a capped burn slice. */
module CurveTrading {
  import opened Arith
  import opened Results
  import opened Curve
  import opened CurveQuotes
  import opened CurveHistory

  /** The curve after a buy, or as it was when the buy is refused. */
  function Bought(t: Terms, s: State, q: U128): State {
    if QuoteBuy(t, s, q).Ok? then BuyFits(t, s, q); AfterBuy(s, QuoteBuy(t, s, q).value) else s
  }

  /** The curve after a sell, or as it was when the sell is refused. */
  function Sold(t: Terms, s: State, x: U128): State {
    if QuoteSell(t, s, x).Ok? then SellKeepsK(t, s, x); AfterSell(s, x, QuoteSell(t, s, x).value) else s
  }

  lemma FloorSuperadditive(a: nat, b: nat, d: nat)
    requires d > 0
    ensures a / d + b / d <= (a + b) / d
  {
    var x, y := a / d, b / d;
    FloorBounds(a, d);
    FloorBounds(b, d);
    Distribute(x, y, d);
    FloorIff(a + b, d, x + y);
  }

  lemma Distribute(a: int, b: int, c: int)
    ensures (a + b) * c == a * c + b * c
  {
  }

  lemma Swap(a: int, b: int, c: int, d: int)
    ensures (a * b) * (c * d) == (a * c) * (b * d)
  {
    Assoc(a, b, c * d);
    Assoc(b, c, d);
    Assoc(c, b, d);
    Assoc(a, c, b * d);
  }

  lemma Assoc(a: int, b: int, c: int)
    ensures (a * b) * c == a * (b * c)
  {
  }

  lemma NetMono(a: nat, b: nat, feeBps: nat)
    requires feeBps <= BPS && a <= b
    ensures NetOf(a, feeBps) <= NetOf(b, feeBps)
  {
    MulMono(a, b, BPS - feeBps);
    FloorMono(a * (BPS - feeBps), b * (BPS - feeBps), BPS);
  }

  lemma NetSuperadditive(a: nat, b: nat, feeBps: nat)
    requires feeBps <= BPS
    ensures NetOf(a, feeBps) + NetOf(b, feeBps) <= NetOf(a + b, feeBps)
  {
    var r := BPS - feeBps;
    assert (a + b) * r == a * r + b * r;
    FloorSuperadditive(a * r, b * r, BPS);
  }

  /** `ceil(k / d)` for no larger a `k` and no smaller a `d`. */
  lemma CeilBoth(k: nat, k': nat, d: nat, d': nat)
    requires k <= k' && 0 < d <= d'
    ensures CeilDiv(k, d') <= CeilDiv(k', d)
  {
    CeilMono(k, k', d');
    CeilAntitone(k', d, d');
  }

  lemma DeliversMono(t: Terms, s: State, net: nat, more: nat)
    requires net <= more && Delivers(t, s, net)
    ensures Delivers(t, s, more)
  {
    MulMono(QuoteSide(t, s) + net, QuoteSide(t, s) + more, TokenSide(t, s) - 1);
  }

  lemma EmptiesMono(t: Terms, s: State, net: nat, more: nat)
    requires net <= more && Empties(t, s, net)
    ensures Empties(t, s, more)
  {
    MulMono(QuoteSide(t, s) + net, QuoteSide(t, s) + more, t.tokenFloor);
  }

  /** A larger offer buys at least as many tokens and never undoes a crossing. */
  lemma BuyIsMonotone(t: Terms, s: State, a: U128, b: U128)
    requires a <= b && QuoteBuy(t, s, a).Ok? && QuoteBuy(t, s, b).Ok?
    ensures QuoteBuy(t, s, a).value.tokensOut <= QuoteBuy(t, s, b).value.tokensOut
    ensures QuoteBuy(t, s, a).value.quoteUsed <= QuoteBuy(t, s, b).value.quoteUsed
    ensures QuoteBuy(t, s, a).value.crossed ==> QuoteBuy(t, s, b) == QuoteBuy(t, s, a)
  {
    BuyIsOutcome(t, s, a);
    BuyIsOutcome(t, s, b);
    BuyFits(t, s, a);
    BuyFits(t, s, b);
    var na, nb := NetOf(a, t.feeBps), NetOf(b, t.feeBps);
    NetMono(a, b, t.feeBps);
    if Empties(t, s, na) {
      EmptiesMono(t, s, na, nb);
    } else if Empties(t, s, nb) {
      NetToFloorIff(t, s, na);
      EmptiesNeedsFloor(t, s, nb);
      NetToFloorIff(t, s, nb);
      GrossIsThreshold(NetToFloor(t, s), t.feeBps, a);
    } else {
      CeilAntitone(K(t, s), QuoteSide(t, s) + na, QuoteSide(t, s) + nb);
    }
  }

  /** Two normal buys in a row get no more than one buy of their sum, which the curve can quote. */
  lemma SplittingABuyNeverHelps(t: Terms, s: State, a: U128, b: U128)
    requires QuoteBuy(t, s, a).Ok? && !QuoteBuy(t, s, a).value.crossed
    requires QuoteBuy(t, Bought(t, s, a), b).Ok? && !QuoteBuy(t, Bought(t, s, a), b).value.crossed
    requires a + b <= MAX_TRADE_IN && QuoteSide(t, s) + NetOf(a + b, t.feeBps) <= U128_MAX
    ensures QuoteBuy(t, s, a + b).Ok?
    ensures QuoteBuy(t, s, a).value.tokensOut + QuoteBuy(t, Bought(t, s, a), b).value.tokensOut
            <= QuoteBuy(t, s, a + b).value.tokensOut
  {
    PartialStep(t, s, a);
    PartialStep(t, Bought(t, s, a), b);
    var s2 := Bought(t, Bought(t, s, a), b);
    NetSuperadditive(a, b, t.feeBps);
    OneBuyReaches(t, s, a, a + b, s2);
  }

  /** A buy of at least `a` whose net covers the way to `s2` gets at least the tokens `s2` gave up. */
  lemma OneBuyReaches(t: Terms, s: State, a: U128, sum: U128, s2: State)
    requires QuoteBuy(t, s, a).Ok? && a <= sum <= MAX_TRADE_IN
    requires QuoteSide(t, s2) <= QuoteSide(t, s) + NetOf(sum, t.feeBps) <= U128_MAX && K(t, s) <= K(t, s2)
    requires 0 < QuoteSide(t, s2)
    ensures QuoteBuy(t, s, sum).Ok?
    ensures s.tokensRemaining - QuoteBuy(t, s, sum).value.tokensOut <= s2.tokensRemaining
  {
    BuyIsOutcome(t, s, a);
    BuyIsOutcome(t, s, sum);
    NetMono(a, sum, t.feeBps);
    DeliversMono(t, s, NetOf(a, t.feeBps), NetOf(sum, t.feeBps));
    TokensReach(t, s, NetOf(sum, t.feeBps), s2);
  }

  lemma TokensReach(t: Terms, s: State, net: nat, s2: State)
    requires 0 < QuoteSide(t, s2) <= QuoteSide(t, s) + net && K(t, s) <= K(t, s2)
    ensures CeilDiv(K(t, s), QuoteSide(t, s) + net) <= TokenSide(t, s2)
  {
    CeilBoth(K(t, s), K(t, s2), QuoteSide(t, s2), QuoteSide(t, s) + net);
    CeilIff(K(t, s2), QuoteSide(t, s2), TokenSide(t, s2));
  }

  /** Selling more pays at least as much. */
  lemma SellIsMonotone(t: Terms, s: State, a: U128, b: U128)
    requires a <= b && QuoteSell(t, s, a).Ok? && QuoteSell(t, s, b).Ok?
    ensures QuoteSell(t, s, a).value.quoteGross <= QuoteSell(t, s, b).value.quoteGross
    ensures QuoteSell(t, s, a).value.quoteOut <= QuoteSell(t, s, b).value.quoteOut
  {
    SellIsOutcome(t, s, a);
    SellIsOutcome(t, s, b);
    CeilAntitone(K(t, s), TokenSide(t, s) + a, TokenSide(t, s) + b);
    NetMono(GrossOut(t, s, a), GrossOut(t, s, b), t.feeBps);
  }

  /**
   Two sells in a row pay no more than one sell of their sum; that sell is refused only if its fee product
   leaves 128 bits.
   */
  lemma SplittingASellNeverHelps(t: Terms, s: State, a: U128, b: U128)
    requires QuoteSell(t, s, a).Ok?
    requires QuoteSell(t, Sold(t, s, a), b).Ok?
    ensures a + b <= U128_MAX
    ensures var two := QuoteSell(t, s, a).value.quoteOut + QuoteSell(t, Sold(t, s, a), b).value.quoteOut;
            match QuoteSell(t, s, a + b)
            case Ok(x) => two <= x.quoteOut
            case Err(e) => e == Overflow && GrossOut(t, s, a + b) * t.feeBps > U128_MAX
  {
    SellKeepsK(t, s, a);
    var s1 := Sold(t, s, a);
    SellKeepsK(t, s1, b);
    SellIsOutcome(t, s, a);
    SellIsOutcome(t, s1, b);
    SellIsOutcome(t, s, a + b);
    GrossTogether(t, s, a, b, s1);
    var ga, gb := GrossOut(t, s, a), GrossOut(t, s1, b);
    NetSuperadditive(ga, gb, t.feeBps);
    NetMono(ga + gb, GrossOut(t, s, a + b), t.feeBps);
  }

  lemma GrossTogether(t: Terms, s: State, a: U128, b: U128, s1: State)
    requires Priceable(t, s) && Priceable(t, s1) && K(t, s) <= K(t, s1) && a + b <= U128_MAX
    requires TokenSide(t, s1) == TokenSide(t, s) + a && QuoteSide(t, s1) == QuoteSide(t, s) - GrossOut(t, s, a)
    ensures GrossOut(t, s, a) + GrossOut(t, s1, b) <= GrossOut(t, s, a + b)
  {
    CeilMono(K(t, s), K(t, s1), TokenSide(t, s1) + b);
    SellRounds(t, s1, b);
  }

  // ---- bracketing a burn slice -------------------------------------------

  /** Largest slice the treasury buys against `quoteReserve`: impact under the term and under twice the fee. */
  function ImpactBps(termBps: nat, feeBps: nat): nat {
    Min(termBps, SatSub(2 * feeBps, 1))
  }

  function SliceCap(quoteReserve: nat, termBps: nat, feeBps: nat): nat {
    quoteReserve * ImpactBps(termBps, feeBps) / (2 * BPS)
  }

  /** The slice moves the quote side by less than the fee takes: `Q2 * (BPS - f) < Q1 * BPS`. */
  lemma SliceUnderFee(q1: nat, slice: nat, termBps: nat, feeBps: nat)
    requires 0 < q1 && feeBps < BPS && 0 < slice <= SliceCap(q1, termBps, feeBps)
    ensures (q1 + NetOf(slice, feeBps)) * (BPS - feeBps) < q1 * BPS
  {
    var r, v, imp := BPS - feeBps, NetOf(slice, feeBps), ImpactBps(termBps, feeBps);
    MulDivAtMost(slice, r, BPS);
    FloorIff(q1 * imp, 2 * BPS, slice);
    MulCancelStrict(0, imp, q1);
    MulMono(imp, 2 * feeBps, q1);
    assert q1 * (2 * feeBps) == 2 * (q1 * feeBps);
    MulStrict(0, feeBps, q1);
    if v > 0 {
      MulStrict(r, BPS, v);
    }
    Distribute(q1, v, r);
    Distribute(r, feeBps, q1);
  }

  /**
   The key step in whole numbers: buying `bought` of `tk0` with net `a` (from `q0` to `q1`), a slice lifting
   the quote side to `q2` while the token side keeps `tk2`, then selling `bought`, pays `gross` with
   `gross * q1^2 <= q2^2 * a`.
   */
  lemma BracketGross(q0: nat, tk0: nat, a: nat, tk1: nat, q2: nat, tk2: nat, gross: nat)
    requires 0 < q0 && 0 < tk0 && tk1 <= tk0 && q0 + a <= q2
    requires q0 * tk0 <= (q0 + a) * tk1 <= q2 * tk2
    requires gross * (tk2 + (tk0 - tk1)) <= q2 * (tk0 - tk1)
    ensures gross * ((q0 + a) * (q0 + a)) <= q2 * q2 * a
  {
    var q1, bought := q0 + a, tk0 - tk1;
    var d := tk2 + bought;
    assert bought * q1 <= tk0 * a by {
      Distribute(bought, tk1, q1);
      Distribute(q0, a, tk0);
    }
    assert q1 * tk0 <= q2 * d by {
      MulMono(q1, q2, bought);
      Distribute(tk1, bought, q1);
      Distribute(tk2, bought, q2);
    }
    BracketChain(gross, q1, q2, tk0, d, bought, a);
  }

  lemma BracketChain(gross: nat, q1: nat, q2: nat, tk0: nat, d: nat, bought: nat, a: nat)
    requires 0 < tk0 && bought * q1 <= tk0 * a && q1 * tk0 <= q2 * d && gross * d <= q2 * bought
    ensures gross * (q1 * q1) <= q2 * q2 * a
  {
    calc {
      gross * (q1 * q1) * tk0;
    == { Assoc(gross, q1 * q1, tk0); Assoc(q1, q1, tk0); Assoc(gross, q1, q1 * tk0); }
      gross * q1 * (q1 * tk0);
    <= { MulMono(q1 * tk0, q2 * d, gross * q1); }
      gross * q1 * (q2 * d);
    == { assert q2 * d == d * q2; Swap(gross, q1, d, q2); }
      (gross * d) * (q1 * q2);
    <= { MulMono(gross * d, q2 * bought, q1 * q2); }
      (q2 * bought) * (q1 * q2);
    == { assert q1 * q2 == q2 * q1; Swap(q2, bought, q2, q1); }
      (q2 * q2) * (bought * q1);
    <= { MulMono(bought * q1, tk0 * a, q2 * q2); }
      (q2 * q2) * (tk0 * a);
    == { assert tk0 * a == a * tk0; Assoc(q2 * q2, a, tk0); }
      q2 * q2 * a * tk0;
    }
    MulCancel(gross * (q1 * q1), q2 * q2 * a, tk0);
  }

  /** With the fee taken twice and the slice under the fee, the bracket gets back less than it paid. */
  lemma FeesBeatTheSlice(qIn: nat, a: nat, gross: nat, out: nat, q1: nat, q2: nat, r: nat, b: nat)
    requires 0 < qIn && 0 < q1 && 0 < b && a * b <= qIn * r && out * b <= gross * r
    requires gross * (q1 * q1) <= q2 * q2 * a && q2 * r < q1 * b
    ensures out < qIn
  {
    var x, y := q2 * r, q1 * b;
    TwoFees(qIn, a, gross, out, q1, q2, r, b);
    MulMono(x, y, x);
    MulStrict(x, y, y);
    MulStrict(x * x, y * y, qIn);
    MulCancelStrict(out, qIn, y * y);
  }

  lemma TwoFees(qIn: nat, a: nat, gross: nat, out: nat, q1: nat, q2: nat, r: nat, b: nat)
    requires a * b <= qIn * r && out * b <= gross * r && gross * (q1 * q1) <= q2 * q2 * a
    ensures out * ((q1 * b) * (q1 * b)) <= qIn * ((q2 * r) * (q2 * r))
  {
    var u, w := q1 * q1, q2 * q2;
    calc {
      out * ((q1 * b) * (q1 * b));
    == { Swap(q1, b, q1, b); Assoc(out, u, b * b); Swap(out, u, b, b); }
      (out * b) * (u * b);
    <= { MulMono(out * b, gross * r, u * b); }
      (gross * r) * (u * b);
    == { Swap(gross, r, u, b); }
      (gross * u) * (r * b);
    <= { MulMono(gross * u, w * a, r * b); }
      (w * a) * (r * b);
    == { Swap(w, a, r, b); }
      (w * r) * (a * b);
    <= { MulMono(a * b, qIn * r, w * r); }
      (w * r) * (qIn * r);
    == { Swap(w, r, qIn, r); assert w * qIn == qIn * w; Assoc(qIn, w, r * r); Swap(q2, r, q2, r); }
      qIn * ((q2 * r) * (q2 * r));
    }
  }

  /**
   Bracketing a burn slice never pays: buy, let the vault buy its slice, sell exactly what was bought. With
   the slice capped against the reserve it sees, the seller gets back less than the buyer paid.
   */
  lemma BracketNeverPays(t: Terms, s: State, qIn: U128, slice: U128, termBps: nat)
    requires QuoteBuy(t, s, qIn).Ok? && !QuoteBuy(t, s, qIn).value.crossed
    requires QuoteBuy(t, Bought(t, s, qIn), slice).Ok? && !QuoteBuy(t, Bought(t, s, qIn), slice).value.crossed
    requires slice <= SliceCap(QuoteSide(t, Bought(t, s, qIn)), termBps, t.feeBps)
    requires QuoteSell(t, Bought(t, Bought(t, s, qIn), slice), QuoteBuy(t, s, qIn).value.tokensOut).Ok?
    ensures QuoteSell(t, Bought(t, Bought(t, s, qIn), slice), QuoteBuy(t, s, qIn).value.tokensOut).value.quoteOut
            < qIn
  {
    var s1 := Bought(t, s, qIn);
    var s2 := Bought(t, s1, slice);
    var tokens := QuoteBuy(t, s, qIn).value.tokensOut;
    var sold := QuoteSell(t, s2, tokens).value;
    PartialStep(t, s, qIn);
    PartialStep(t, s1, slice);
    SellGrossBound(t, s2, tokens);
    NetBound(qIn, t.feeBps);
    NetBound(sold.quoteGross, t.feeBps);
    BracketArith(QuoteSide(t, s), TokenSide(t, s), NetOf(qIn, t.feeBps), TokenSide(t, s1), QuoteSide(t, s2),
                 TokenSide(t, s2), qIn, slice, termBps, t.feeBps, sold.quoteGross, sold.quoteOut);
  }

  /** A normal buy in the terms the bracket reasons about. */
  lemma PartialStep(t: Terms, s: State, q: U128)
    requires QuoteBuy(t, s, q).Ok? && !QuoteBuy(t, s, q).value.crossed
    ensures 0 < q && t.feeBps < BPS && 0 < QuoteSide(t, s) && 0 < TokenSide(t, s)
    ensures QuoteSide(t, Bought(t, s, q)) == QuoteSide(t, s) + NetOf(q, t.feeBps)
    ensures TokenSide(t, Bought(t, s, q)) == TokenSide(t, s) - QuoteBuy(t, s, q).value.tokensOut
    ensures K(t, s) <= K(t, Bought(t, s, q))
  {
    PartialBuyKeepsK(t, s, q);
  }

  /** The bracket on the three reserve pairs alone: `a` is the net of `paid`, `out` what is left of `gross`. */
  lemma BracketArith(q0: nat, tk0: nat, a: nat, tk1: nat, q2: nat, tk2: nat, paid: nat, slice: nat, termBps: nat,
                     feeBps: nat, gross: nat, out: nat)
    requires 0 < paid && 0 < q0 && 0 < tk0 && tk1 <= tk0 && feeBps < BPS
    requires q2 == q0 + a + NetOf(slice, feeBps)
    requires a * BPS <= paid * (BPS - feeBps) && out * BPS <= gross * (BPS - feeBps)
    requires q0 * tk0 <= (q0 + a) * tk1 <= q2 * tk2
    requires 0 < slice <= SliceCap(q0 + a, termBps, feeBps)
    requires gross * (tk2 + (tk0 - tk1)) <= q2 * (tk0 - tk1)
    ensures out < paid
  {
    SliceUnderFee(q0 + a, slice, termBps, feeBps);
    BracketGross(q0, tk0, a, tk1, q2, tk2, gross);
    FeesBeatTheSlice(paid, a, gross, out, q0 + a, q2, BPS - feeBps, BPS);
  }

  lemma NetBound(amount: nat, feeBps: nat)
    requires feeBps <= BPS
    ensures NetOf(amount, feeBps) * BPS <= amount * (BPS - feeBps)
  {
    FloorBounds(amount * (BPS - feeBps), BPS);
  }

  /** A sell pays at most the tokens' share of the quote side. */
  lemma SellGrossBound(t: Terms, s: State, x: U128)
    requires QuoteSell(t, s, x).Ok?
    ensures QuoteSell(t, s, x).value.quoteGross * (TokenSide(t, s) + x) <= QuoteSide(t, s) * x
    ensures QuoteSell(t, s, x).value.quoteOut == NetOf(QuoteSell(t, s, x).value.quoteGross, t.feeBps)
  {
    SellIsOutcome(t, s, x);
    GrossOutBound(t, s, x);
  }

  lemma GrossOutBound(t: Terms, s: State, x: U128)
    requires Priceable(t, s)
    ensures GrossOut(t, s, x) * (TokenSide(t, s) + x) <= QuoteSide(t, s) * x
  {
    var q, tk, gross := QuoteSide(t, s), TokenSide(t, s), GrossOut(t, s, x);
    SellRounds(t, s, x);
    CeilBounds(K(t, s), tk + x);
    MulMono(CeilDiv(K(t, s), tk + x), q - gross, tk + x);
    Distribute(q - gross, gross, tk + x);
    Distribute(tk, x, q);
  }

  /** Without the cap a bracket can pay: against a slice of half the reserve it gets back more than it spent. */
  lemma UncappedBracketPays()
    ensures exists t: Terms, s: State, qIn: U128, slice: U128 ::
              && QuoteBuy(t, s, qIn).Ok? && QuoteBuy(t, Bought(t, s, qIn), slice).Ok?
              && QuoteSell(t, Bought(t, Bought(t, s, qIn), slice), QuoteBuy(t, s, qIn).value.tokensOut).Ok?
              && QuoteSell(t, Bought(t, Bought(t, s, qIn), slice), QuoteBuy(t, s, qIn).value.tokensOut).value.quoteOut
                 > qIn
  {
    var s := State(0, 1_000_000);
    ExampleFirstBuy();
    ExampleSlice();
    ExampleSell();
    assert Bought(EXAMPLE, s, 100_000) == State(99_000, 819_837);
    assert Bought(EXAMPLE, Bought(EXAMPLE, s, 100_000), 500_000) == State(594_000, 254_706);
  }

  const EXAMPLE: Terms := Terms(1_000_000, 1_000_000, 100)

  lemma ExampleFirstBuy()
    ensures QuoteBuy(EXAMPLE, State(0, 1_000_000), 100_000) == Ok(BuyQuote(180_163, 100_000, 99_000, 1_000, false))
  {
  }

  lemma ExampleSlice()
    ensures QuoteBuy(EXAMPLE, State(99_000, 819_837), 500_000) == Ok(BuyQuote(565_131, 500_000, 495_000, 5_000, false))
  {
  }

  lemma ExampleSell()
    ensures QuoteSell(EXAMPLE, State(594_000, 254_706), 180_163) == Ok(SellQuote(200_143, 2_002, 198_141))
  {
  }

  lemma ExampleCappedSlice()
    ensures SliceCap(QuoteSide(EXAMPLE, State(99_000, 819_837)), 200, EXAMPLE.feeBps) == 10_935
    ensures QuoteBuy(EXAMPLE, State(99_000, 819_837), 10_935) == Ok(BuyQuote(17_750, 10_935, 10_825, 110, false))
  {
  }

  lemma ExampleCappedSell()
    ensures QuoteSell(EXAMPLE, State(109_825, 802_087), 180_163) == Ok(SellQuote(100_869, 1_009, 99_860))
  {
    var k, tk := K(EXAMPLE, State(109_825, 802_087)), 1_982_250;
    assert k == 2_000_001_204_775;
    FloorIff(k + tk - 1, tk, 1_008_956);
    FloorIff(k + tk - 1, tk, 1_008_957);
    assert CeilDiv(k, tk) == 1_008_956;
    assert CeilDiv(100_869 * 100, BPS) == 1_009;
    SellIsOutcome(EXAMPLE, State(109_825, 802_087), 180_163);
  }

  /** The same bracket around the largest slice the cap allows: every step is quotable, and it gets back less. */
  lemma CappedBracketLoses()
    ensures var s1 := Bought(EXAMPLE, State(0, 1_000_000), 100_000);
            var slice := SliceCap(QuoteSide(EXAMPLE, s1), 200, EXAMPLE.feeBps);
            && slice == 10_935 && QuoteBuy(EXAMPLE, s1, 10_935).Ok?
            && QuoteSell(EXAMPLE, Bought(EXAMPLE, s1, 10_935), 180_163).Ok?
            && QuoteSell(EXAMPLE, Bought(EXAMPLE, s1, 10_935), 180_163).value.quoteOut == 99_860
  {
    var s := State(0, 1_000_000);
    ExampleFirstBuy();
    ExampleCappedSlice();
    ExampleCappedSell();
    assert Bought(EXAMPLE, s, 100_000) == State(99_000, 819_837);
    assert Bought(EXAMPLE, State(99_000, 819_837), 10_935) == State(109_825, 802_087);
  }
}
