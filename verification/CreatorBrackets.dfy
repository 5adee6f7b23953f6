/** Where a creator's bracket does pay: past the condition under which it cannot, by a relative margin, on deep
    curves. */
module CreatorBrackets {
  import opened Arith
  import opened Results
  import opened Curve
  import opened CurveQuotes
  import opened CurveHistory
  import opened CurveTrading
  import opened CurveBrackets

  // ---- the margin -----------------------------------------------------------------------

  /** One part in this many. */
  const MARGIN: nat := 1_000_000_000_000

  /** There is an impact, and it is past what is kept of two fees by the margin at least. */
  ghost predicate PastMargin(impactBps: nat, feeBps: nat, keptBps: nat)
    requires feeBps < BPS && keptBps <= BPS
  {
    0 < impactBps && WeighsMore(Lift(impactBps, feeBps), KeptRate(keptBps, feeBps), BPS - feeBps)
  }

  ghost predicate WeighsMore(lift: nat, g: nat, r: nat)
    requires g <= BPS * BPS
  {
    forall sold: nat, paid: nat :: Sides(lift, g, r, sold, paid) ==> paid * (MARGIN + 1) <= sold * MARGIN
  }

  lemma WeighsMoreIff(lift: nat, g: nat, r: nat)
    requires g <= BPS * BPS
    ensures WeighsMore(lift, g, r)
            <==> 2 * BPS * BPS * (2 * BPS * BPS) * PaidWeight(g, r) * (MARGIN + 1)
                 <= lift * lift * SoldWeight(g, r) * MARGIN
  {
    assert Sides(lift, g, r, lift * lift * SoldWeight(g, r), 2 * BPS * BPS * (2 * BPS * BPS) * PaidWeight(g, r));
  }

  /** Past the margin is past the condition. */
  lemma PastIsNotOutweighed(impactBps: nat, feeBps: nat, keptBps: nat)
    requires feeBps < BPS && keptBps <= BPS && PastMargin(impactBps, feeBps, keptBps)
    ensures !Outweighed(impactBps, feeBps, keptBps)
  {
    MoreIsNotLess(Lift(impactBps, feeBps), KeptRate(keptBps, feeBps), BPS - feeBps);
  }

  lemma MoreIsNotLess(lift: nat, g: nat, r: nat)
    requires g <= BPS * BPS && 0 < r && WeighsMore(lift, g, r)
    ensures !SquaresWeigh(lift, g, r)
  {
    PaidIsPositive(g, r);
    SquaresWeighIff(lift, g, r);
    WeighsMoreIff(lift, g, r);
    MarginApart(lift * lift * SoldWeight(g, r), 2 * BPS * BPS * (2 * BPS * BPS) * PaidWeight(g, r));
  }

  lemma PaidIsPositive(g: nat, r: nat)
    requires 0 < r
    ensures BPS * BPS * r <= PaidWeight(g, r)
  {
  }

  lemma MarginApart(x: nat, y: nat)
    requires 0 < y && y * (MARGIN + 1) <= x * MARGIN
    ensures y < x
  {
  }

  // ---- the probe: a deep curve, a small buy, the largest slice, a sell of what was bought ----------

  /** What is paid, over `BPS`, and what the quote side is after the buy, over `2 * BPS * BPS`. */
  const PAID: nat := 10_000_000_000_000_000
  const DEPTH: nat := 10_000_000_000_000_000_000_000_000

  /** Terms a curve this deep can have. */
  const ROOM: nat := 400_000_000_000_000_000_000_000_000_000_000

  const DEEP: nat := 2 * BPS * BPS * DEPTH

  function ProbeState(t: Terms): State
    requires t.feeBps < BPS && t.virtualQuote <= ROOM && t.tokenFloor <= ROOM
  {
    MulMono(BPS - t.feeBps, BPS, PAID);
    State(DEEP - PAID * (BPS - t.feeBps) - t.virtualQuote, DEEP - t.tokenFloor)
  }

  function ProbeSlice(impactBps: nat): U128
    requires impactBps <= 2 * BPS
  {
    BPS * DEPTH * impactBps
  }

  /** The buy divides without remainder: what is left of the payment, and as many tokens. */
  lemma ProbeBuy(t: Terms)
    requires t.feeBps < BPS && t.virtualQuote <= ROOM && t.tokenFloor <= ROOM
    ensures var s, a := ProbeState(t), PAID * (BPS - t.feeBps);
            && QuoteBuy(t, s, PAID * BPS) == Ok(BuyQuote(a, PAID * BPS, a, PAID * t.feeBps, false))
            && QuoteSide(t, Bought(t, s, PAID * BPS)) == DEEP && TokenSide(t, Bought(t, s, PAID * BPS)) == DEEP - a
  {
    var s, r := ProbeState(t), BPS - t.feeBps;
    var a := PAID * r;
    MulMono(r, BPS, PAID);
    NetOfWhole(PAID, t.feeBps);
    assert QuoteSide(t, s) + a == DEEP == TokenSide(t, s) && K(t, s) == (DEEP - a) * DEEP;
    CeilWhole(DEEP - a, DEEP);
    MulMono(DEEP - a, DEEP - 1, DEEP);
    MulStrict(t.tokenFloor, DEEP - a, DEEP);
    BuyIsOutcome(t, s, PAID * BPS);
  }

  lemma NetOfWhole(m: nat, feeBps: nat)
    requires feeBps <= BPS
    ensures NetOf(m * BPS, feeBps) == m * (BPS - feeBps) && m * BPS - m * (BPS - feeBps) == m * feeBps
  {
    Distribute(BPS - feeBps, feeBps, m);
    Swap2(m, BPS, BPS - feeBps);
    FloorWhole(m * (BPS - feeBps), BPS);
  }

  lemma FloorWhole(x: nat, d: nat)
    requires 0 < d
    ensures x * d / d == x
  {
    FloorIff(x * d, d, x);
    FloorIff(x * d, d, x + 1);
    Distribute(x, 1, d);
  }

  lemma CeilWhole(x: nat, d: nat)
    requires 0 < d
    ensures CeilDiv(x * d, d) == x
  {
    CeilIff(x * d, d, x);
    if 0 < x {
      CeilIff(x * d, d, x - 1);
      MulStrict(x - 1, x, d);
    }
  }

  /** A normal fill, from what its net does. */
  lemma FillIs(t: Terms, s: State, q: U128, net: nat)
    requires 0 < q <= MAX_TRADE_IN && 0 < s.tokensRemaining && t.feeBps < BPS && Priceable(t, s)
    requires NetOf(q, t.feeBps) == net && 0 < net && QuoteSide(t, s) + net <= U128_MAX
    requires Delivers(t, s, net) && !Empties(t, s, net)
    ensures QuoteBuy(t, s, q).Ok? && !QuoteBuy(t, s, q).value.crossed
    ensures var s' := Bought(t, s, q);
            && QuoteSide(t, s') == QuoteSide(t, s) + net && TokenSide(t, s') == CeilDiv(K(t, s), QuoteSide(t, s) + net)
            && TokenSide(t, s') <= TokenSide(t, s)
  {
    BuyIsOutcome(t, s, q);
    PartialRounds(t, s, net);
  }

  /** The largest slice divides as well: the quote side grows by exactly the lift. */
  lemma ProbeSliceIs(t: Terms, s: State, impactBps: nat)
    requires t.feeBps < BPS && t.tokenFloor <= ROOM && 0 < impactBps <= 2 * BPS
    requires QuoteSide(t, s) == DEEP && DEEP <= 2 * TokenSide(t, s) && TokenSide(t, s) <= DEEP
    ensures 0 < ProbeSlice(impactBps) <= MAX_TRADE_IN
    ensures ProbeSlice(impactBps) == DEEP * impactBps / (2 * BPS)
    ensures QuoteBuy(t, s, ProbeSlice(impactBps)).Ok? && !QuoteBuy(t, s, ProbeSlice(impactBps)).value.crossed
    ensures var s', q := Bought(t, s, ProbeSlice(impactBps)), DEPTH * Lift(impactBps, t.feeBps);
            && QuoteSide(t, s') == q && TokenSide(t, s') == CeilDiv(K(t, s), q) && TokenSide(t, s') <= TokenSide(t, s)
  {
    var net := DEPTH * (impactBps * (BPS - t.feeBps));
    SliceDivides(impactBps);
    SliceNet(impactBps, t.feeBps);
    SliceDelivers(DEEP, TokenSide(t, s), t.tokenFloor, net);
    FillIs(t, s, ProbeSlice(impactBps), net);
  }

  lemma SliceDivides(impactBps: nat)
    requires 0 < impactBps <= 2 * BPS
    ensures 0 < ProbeSlice(impactBps) <= MAX_TRADE_IN
    ensures ProbeSlice(impactBps) == DEEP * impactBps / (2 * BPS)
  {
    FloorWhole(ProbeSlice(impactBps), 2 * BPS);
  }

  lemma SliceNet(impactBps: nat, feeBps: nat)
    requires 0 < impactBps <= 2 * BPS && feeBps < BPS
    ensures var net := DEPTH * (impactBps * (BPS - feeBps));
            && NetOf(ProbeSlice(impactBps), feeBps) == net && DEPTH <= net <= DEEP
            && DEEP + net == DEPTH * Lift(impactBps, feeBps)
  {
    var r := BPS - feeBps;
    NetOfWhole(DEPTH * impactBps, feeBps);
    Assoc(DEPTH, impactBps, r);
    MulMono(impactBps, 2 * BPS, r);
    MulStrict(0, impactBps, r);
  }

  /** Enough net for a token, not enough for all of them. */
  lemma SliceDelivers(q: nat, tk: nat, floor: nat, net: nat)
    requires 1 < tk <= q <= 2 * tk && 4 <= net <= q && 4 * floor < q
    ensures q * tk <= (tk - 1) * (q + net) && floor * (q + net) < q * tk
  {
    OneToken(q, tk, net);
    NotTheFloor(q, tk, floor, net);
  }

  lemma OneToken(q: nat, tk: nat, net: nat)
    requires 1 < tk && q <= 2 * tk && 4 <= net
    ensures q * tk <= (tk - 1) * (q + net)
  {
    MulMono(4, net, tk - 1);
    assert (tk - 1) * (q + net) == q * tk - q + (tk - 1) * net;
  }

  lemma NotTheFloor(q: nat, tk: nat, floor: nat, net: nat)
    requires 0 < q <= 2 * tk && net <= q && 4 * floor < q
    ensures floor * (q + net) < q * tk
  {
    MulMono(q + net, 2 * q, floor);
    MulStrict(2 * floor, tk, q);
    Swap2(2, floor, q);
  }

  // ---- what the sell brings ------------------------------------------------------------------

  lemma SellIs(t: Terms, s: State, x: U128, gross: nat)
    requires Priceable(t, s) && 0 < x && TokenSide(t, s) + x <= U128_MAX && t.feeBps < BPS
    requires t.virtualQuote * (TokenSide(t, s) + x) <= K(t, s)
    requires gross == SatSub(QuoteSide(t, s), CeilDiv(K(t, s), TokenSide(t, s) + x))
    requires BPS <= gross && gross * BPS <= U128_MAX
    ensures NetOf(gross, t.feeBps) <= gross
    ensures QuoteSell(t, s, x)
            == Ok(SellQuote(gross, gross - NetOf(gross, t.feeBps), NetOf(gross, t.feeBps)))
  {
    var d := TokenSide(t, s) + x;
    SellIsOutcome(t, s, x);
    SellRounds(t, s, x);
    CeilBounds(K(t, s), d);
    MulCancel(t.virtualQuote, CeilDiv(K(t, s), d), d);
    MulMono(t.feeBps, BPS, gross);
    MulDivAtMost(gross, BPS - t.feeBps, BPS);
    MulMono(1, BPS - t.feeBps, gross);
    FloorIff(gross * (BPS - t.feeBps), BPS, 1);
  }

  /** What `x` tokens take out of `q * tk`, rounded: just short of their share. */
  lemma GrossNear(q: nat, tk: nat, x: nat)
    requires 0 < tk + x
    ensures CeilDiv(q * tk, tk + x) <= q
    ensures q * x < (q - CeilDiv(q * tk, tk + x) + 1) * (tk + x)
  {
    var c := CeilDiv(q * tk, tk + x);
    MulMono(tk, tk + x, q);
    CeilIff(q * tk, tk + x, q);
    CeilBounds(q * tk, tk + x);
    Distribute(q - c, 1, tk + x);
    Distribute(q - c, c, tk + x);
    Distribute(tk, x, q);
  }

  /** On a curve this deep against the buy, next to nothing is lost of the square of the lift. */
  lemma DeepGross(lift: nat, impactBps: nat, r: nat, tk: nat, gross: nat)
    requires impactBps <= 2 * BPS && 0 < r <= BPS && lift == 2 * BPS * BPS + impactBps * r
    requires PAID * r <= DEEP && tk == CeilDiv(DEEP * (DEEP - PAID * r), DEPTH * lift)
    requires DEPTH * lift * (PAID * r) < (gross + 1) * (tk + PAID * r)
    ensures lift * lift * (PAID * r) < (gross + 1) * (2 * BPS * BPS * (2 * BPS * BPS) + 2_001)
  {
    var q2, a, e := DEPTH * lift, PAID * r, 2 * BPS * BPS * (2 * BPS * BPS) + 2_001;
    DeepSide(lift, impactBps, r, tk);
    MulStrict(q2 * a, (gross + 1) * (tk + a), q2);
    Assoc(gross + 1, tk + a, q2);
    MulMono((tk + a) * q2, DEPTH * DEPTH * e, gross + 1);
    DeepSquare(lift, a, gross + 1, e, q2);
  }

  lemma DeepSquare(lift: nat, a: nat, g: nat, e: nat, q: nat)
    requires q == DEPTH * lift && q * a * q < DEPTH * DEPTH * e * g
    ensures lift * lift * a < g * e
  {
    Swap2(q, a, q);
    Swap(DEPTH, lift, DEPTH, lift);
    Assoc(DEPTH * DEPTH, lift * lift, a);
    Assoc(DEPTH * DEPTH, e, g);
    MulCancelStrict(lift * lift * a, e * g, DEPTH * DEPTH);
  }

  lemma DeepSide(lift: nat, impactBps: nat, r: nat, tk: nat)
    requires impactBps <= 2 * BPS && 0 < r <= BPS && lift == 2 * BPS * BPS + impactBps * r
    requires PAID * r <= DEEP && tk == CeilDiv(DEEP * (DEEP - PAID * r), DEPTH * lift)
    ensures (tk + PAID * r) * (DEPTH * lift) <= DEPTH * DEPTH * (2 * BPS * BPS * (2 * BPS * BPS) + 2_001)
  {
    Distribute(2 * BPS * BPS, impactBps * r, DEPTH);
    LiftSpends(impactBps, r);
    LiftIsShallow(lift);
    CeilBounds(DEEP * (DEEP - PAID * r), DEPTH * lift);
    DeepEnough(tk, PAID * r, DEPTH * lift, DEPTH * (impactBps * r));
  }

  lemma DeepEnough(tk: nat, a: nat, q: nat, w: nat)
    requires q == DEEP + w && a <= DEEP && tk * q < DEEP * (DEEP - a) + q
    requires a * w <= 2_000 * DEPTH * DEPTH && q <= DEPTH * DEPTH
    ensures (tk + a) * q <= DEPTH * DEPTH * (2 * BPS * BPS * (2 * BPS * BPS) + 2_001)
  {
    DeepSum(a * w, q);
    SideBound(tk, a, q, DEEP, w, DEPTH * DEPTH * (2 * BPS * BPS * (2 * BPS * BPS) + 2_001));
  }

  lemma SideBound(tk: nat, a: nat, q: nat, deep: nat, w: nat, most: nat)
    requires q == deep + w && a <= deep && tk * q < deep * (deep - a) + q && deep * deep + a * w + q <= most
    ensures (tk + a) * q <= most
  {
    SideArith(tk, a, q, deep, w);
  }

  lemma LiftIsShallow(lift: nat)
    requires lift <= 4 * BPS * BPS
    ensures DEPTH * lift <= DEPTH * DEPTH
  {
  }

  lemma DeepSum(spent: nat, q: nat)
    requires spent <= 2_000 * DEPTH * DEPTH && q <= DEPTH * DEPTH
    ensures DEEP * DEEP + spent + q <= DEPTH * DEPTH * (2 * BPS * BPS * (2 * BPS * BPS) + 2_001)
  {
  }

  lemma SideArith(tk: nat, a: nat, q: nat, deep: nat, w: nat)
    requires q == deep + w && a <= deep && tk * q < deep * (deep - a) + q
    ensures (tk + a) * q < deep * deep + a * w + q
  {
    Distribute(tk, a, q);
    Distribute(deep - a, a, deep);
    assert a * q == a * deep + a * w;
  }

  /** What the buy takes part in of the lift is a two-thousandth part of a unit, squared. */
  lemma LiftSpends(impactBps: nat, r: nat)
    requires impactBps <= 2 * BPS && 0 < r <= BPS
    ensures impactBps * r <= 2 * BPS * BPS
    ensures PAID * r * (DEPTH * (impactBps * r)) <= 2_000 * DEPTH * DEPTH
  {
    MulMono(impactBps, 2 * BPS, r);
    SquareMono(r, BPS);
    MulMono(impactBps * r, 2 * BPS * BPS, r);
    Assoc(PAID, r, DEPTH * (impactBps * r));
    Swap2(r, DEPTH, impactBps * r);
    assert r * (DEPTH * (impactBps * r)) == DEPTH * (impactBps * r * r);
  }

  // ---- what the creator ends with ------------------------------------------------------------

  /** Past the margin the gross outweighs the payment by four whole units. */
  lemma PastGains(lift: nat, g: nat, r: nat, gross: nat, kept: nat)
    requires g <= BPS * BPS && 0 < r && kept <= BPS && WeighsMore(lift, g, r)
    requires lift * lift * (PAID * r) < (gross + 1) * (2 * BPS * BPS * (2 * BPS * BPS) + 2_001)
    ensures PAID * PaidWeight(g, r) + BPS * kept + 4 * BPS * BPS <= gross * (BPS * BPS - g)
  {
    var x, p, d, ll := BPS * BPS - g, PaidWeight(g, r), 2 * BPS * BPS * (2 * BPS * BPS), lift * lift;
    assert SoldWeight(g, r) == x * r;
    PaidIsPositive(g, r);
    WeighsMoreIff(lift, g, r);
    MulMono(ll * (PAID * r), (gross + 1) * (d + 2_001), x);
    Regroup(ll, r, x);
    Distribute(gross, 1, x);
    Swap2(gross + 1, d + 2_001, x);
    GainArith(ll * (x * r), (gross + 1) * x, p);
  }

  lemma Regroup(ll: nat, r: nat, x: nat)
    ensures ll * (PAID * r) * x == PAID * (ll * (x * r))
  {
    Assoc(ll, PAID * r, x);
    Assoc(PAID, r, x);
    assert PAID * r * x == PAID * (x * r);
    assert ll * (PAID * (x * r)) == PAID * (ll * (x * r));
  }

  lemma GainArith(weighed: nat, sold: nat, p: nat)
    requires BPS * BPS <= p && 2 * BPS * BPS * (2 * BPS * BPS) * p * (MARGIN + 1) <= weighed * MARGIN
    requires PAID * weighed <= sold * (2 * BPS * BPS * (2 * BPS * BPS) + 2_001)
    ensures PAID * p + 6 * BPS * BPS <= sold
  {
  }

  lemma KeptAtMost(fee: U128, a: nat, b: nat)
    requires a + b <= BPS
    ensures KeptOf(fee, a, b) * BPS <= fee * (a + b)
  {
    Distribute(a, b, fee);
    FloorBounds(Min(fee * a, U128_MAX), BPS);
    FloorBounds(Min(fee * b, U128_MAX), BPS);
  }

  /** The creator's end of one buy and one sell, in units. */
  lemma EndsAbove(gross: nat, net: nat, feeBps: nat, kept: nat, g: nat, k1: nat, k2: nat)
    requires feeBps < BPS && kept <= BPS && g == kept * feeBps <= BPS * BPS && net == NetOf(gross, feeBps) <= gross
    requires PAID * PaidWeight(g, BPS - feeBps) + BPS * kept + 4 * BPS * BPS <= gross * (BPS * BPS - g)
    requires k1 * BPS <= PAID * feeBps * kept && k2 * BPS <= (gross - net) * kept
    ensures PAID * (BPS - feeBps) + k1 + k2 + 4 <= gross
  {
    var r, f2 := BPS - feeBps, gross - net;
    FloorBounds(gross * r, BPS);
    Distribute(r, feeBps, gross);
    assert f2 * BPS <= gross * feeBps + BPS;
    MulMono(f2 * BPS, gross * feeBps + BPS, kept);
    KeptOfSale(gross, f2, feeBps, kept, g);
    KeptOfBuy(feeBps, kept, g);
    MulMono(k2 * BPS, f2 * kept, BPS);
    UnitsArith(gross, r, g, k1, k2, kept);
  }

  lemma KeptOfSale(gross: nat, f2: nat, feeBps: nat, kept: nat, g: nat)
    requires g == kept * feeBps && f2 * BPS * kept <= (gross * feeBps + BPS) * kept
    ensures f2 * kept * BPS <= gross * g + BPS * kept
  {
    Swap2(f2, BPS, kept);
    Distribute(gross * feeBps, BPS, kept);
    Assoc(gross, feeBps, kept);
  }

  lemma KeptOfBuy(feeBps: nat, kept: nat, g: nat)
    requires g == kept * feeBps
    ensures PAID * feeBps * kept == PAID * g
  {
    Assoc(PAID, feeBps, kept);
  }

  lemma UnitsArith(gross: nat, r: nat, g: nat, k1: nat, k2: nat, kept: nat)
    requires g <= BPS * BPS && k1 * BPS <= PAID * g && k2 * BPS * BPS <= gross * g + BPS * kept
    requires PAID * PaidWeight(g, r) + BPS * kept + 4 * BPS * BPS <= gross * (BPS * BPS - g)
    ensures PAID * r + k1 + k2 + 4 <= gross
  {
    Distribute(BPS * BPS - g, g, gross);
    assert PaidWeight(g, r) == BPS * BPS * r + BPS * g;
  }

  // ---- the bracket -----------------------------------------------------------------------------

  /** The curve after the buy and the slice. */
  function ProbeEnd(t: Terms, impactBps: nat): State
    requires t.feeBps < BPS && t.virtualQuote <= ROOM && t.tokenFloor <= ROOM && impactBps <= 2 * BPS
  {
    Bought(t, Bought(t, ProbeState(t), PAID * BPS), ProbeSlice(impactBps))
  }

  /** Its two sides: the lift, and what of the tokens the slice left. */
  predicate Lifted(t: Terms, s: State, impactBps: nat, a: nat)
    requires t.feeBps < BPS && a <= DEEP
  {
    && Priceable(t, s) && QuoteSide(t, s) == DEPTH * Lift(impactBps, t.feeBps)
    && TokenSide(t, s) == CeilDiv(DEEP * (DEEP - a), QuoteSide(t, s)) && TokenSide(t, s) + a <= DEEP
  }

  lemma ProbeEndLifts(t: Terms, impactBps: nat, a: nat)
    requires t.feeBps < BPS && t.virtualQuote <= ROOM && t.tokenFloor <= ROOM && 0 < impactBps <= 2 * BPS
    requires a == PAID * (BPS - t.feeBps)
    ensures a <= PAID * BPS && Lifted(t, ProbeEnd(t, impactBps), impactBps, a)
  {
    var s1 := Bought(t, ProbeState(t), PAID * BPS);
    MulMono(BPS - t.feeBps, BPS, PAID);
    ProbeBuy(t);
    ProbeSliceIs(t, s1, impactBps);
    PartialBuyKeepsK(t, s1, ProbeSlice(impactBps));
  }

  /** What the sell of `a` tokens takes out. */
  function ProbeGross(t: Terms, s: State, a: nat): (gross: nat)
    requires Priceable(t, s)
  {
    SatSub(QuoteSide(t, s), CeilDiv(K(t, s), TokenSide(t, s) + a))
  }

  /** The sell of what was bought goes through. */
  lemma ProbeSells(t: Terms, s: State, impactBps: nat, a: nat)
    requires t.feeBps < BPS && t.virtualQuote <= ROOM && 0 < impactBps <= 2 * BPS
    requires BPS <= a <= PAID * BPS && Lifted(t, s, impactBps, a)
    ensures var gross := ProbeGross(t, s, a);
            && NetOf(gross, t.feeBps) <= gross <= U128_MAX
            && QuoteSell(t, s, a) == Ok(SellQuote(gross, gross - NetOf(gross, t.feeBps), NetOf(gross, t.feeBps)))
  {
    var q, tk, gross := QuoteSide(t, s), TokenSide(t, s), ProbeGross(t, s, a);
    SliceNet(impactBps, t.feeBps);
    GrossNear(q, tk, a);
    GrossIsDeep(q, tk, a, gross);
    CeilBounds(DEEP * (DEEP - a), q);
    MulMono(tk + a, DEEP, t.virtualQuote);
    MulMono(t.virtualQuote, DEEP - a, DEEP);
    SellIs(t, s, a, gross);
  }

  lemma GrossIsDeep(q: nat, tk: nat, a: nat, gross: nat)
    requires tk + a <= DEEP <= q && q * a < (gross + 1) * (tk + a)
    ensures a <= gross
  {
    MulMono(tk + a, q, gross + 1);
    MulCancelStrict(a, gross + 1, q);
  }

  /** Past the margin, on any terms a deep curve can have, the creator's bracket ends at least four units, two a trade,
      above what it paid. */
  lemma CreatorBracketPaysPast(t: Terms, termBps: nat, a: nat, b: nat)
    returns (s: State, slice: U128, tokens: U128)
    requires t.feeBps < BPS && t.virtualQuote <= ROOM && t.tokenFloor <= ROOM && a + b <= BPS
    requires PastMargin(ImpactBps(termBps, t.feeBps), t.feeBps, a + b)
    ensures IsBracket(t, s, [PAID * BPS], slice, [tokens], termBps)
    ensures CreatorGets(t, s, [PAID * BPS], slice, [tokens], a, b) >= Sum([PAID * BPS]) + 4
  {
    var impact := ImpactBps(termBps, t.feeBps);
    s, slice, tokens := ProbeState(t), ProbeSlice(impact), PAID * (BPS - t.feeBps);
    var s1 := Bought(t, s, PAID * BPS);
    ProbeBuy(t);
    ProbeSliceIs(t, s1, impact);
    ProbeEndLifts(t, impact, tokens);
    MulMono(1, BPS - t.feeBps, PAID);
    ProbeSells(t, ProbeEnd(t, impact), impact, tokens);
    ProbeIsBracket(t, s, slice, tokens, termBps);
    ProbeBrings(t, s, slice, tokens, a, b, impact);
  }

  /** What the probe brings, from the state it ends in. */
  lemma ProbeBrings(t: Terms, s: State, slice: U128, tokens: U128, a: nat, b: nat, impactBps: nat)
    requires t.feeBps < BPS && t.virtualQuote <= ROOM && a + b <= BPS && 0 < impactBps <= 2 * BPS
    requires PastMargin(impactBps, t.feeBps, a + b) && tokens == PAID * (BPS - t.feeBps) && BPS <= tokens <= PAID * BPS
    requires QuoteBuy(t, s, PAID * BPS).Ok? && QuoteBuy(t, s, PAID * BPS).value.fee == PAID * t.feeBps
    requires Lifted(t, Bought(t, Bought(t, s, PAID * BPS), slice), impactBps, tokens)
    ensures CreatorGets(t, s, [PAID * BPS], slice, [tokens], a, b) >= Sum([PAID * BPS]) + 4
  {
    var s2 := Bought(t, Bought(t, s, PAID * BPS), slice);
    var gross := ProbeGross(t, s2, tokens);
    GrossNear(QuoteSide(t, s2), TokenSide(t, s2), tokens);
    DeepGross(Lift(impactBps, t.feeBps), impactBps, BPS - t.feeBps, TokenSide(t, s2), gross);
    ProbeSells(t, s2, impactBps, tokens);
    ProbeGains(t, s, slice, a, b, impactBps, gross);
  }

  lemma ProbeGains(t: Terms, s: State, slice: U128, a: nat, b: nat, impactBps: nat, gross: nat)
    requires t.feeBps < BPS && a + b <= BPS && PastMargin(impactBps, t.feeBps, a + b)
    requires QuoteBuy(t, s, PAID * BPS).Ok? && QuoteBuy(t, s, PAID * BPS).value.fee == PAID * t.feeBps
    requires 0 <= PAID * (BPS - t.feeBps) <= U128_MAX && NetOf(gross, t.feeBps) <= gross <= U128_MAX
    requires QuoteSell(t, Bought(t, Bought(t, s, PAID * BPS), slice), PAID * (BPS - t.feeBps))
             == Ok(SellQuote(gross, gross - NetOf(gross, t.feeBps), NetOf(gross, t.feeBps)))
    requires Lift(impactBps, t.feeBps) * Lift(impactBps, t.feeBps) * (PAID * (BPS - t.feeBps))
             < (gross + 1) * (2 * BPS * BPS * (2 * BPS * BPS) + 2_001)
    ensures CreatorGets(t, s, [PAID * BPS], slice, [PAID * (BPS - t.feeBps)], a, b) >= Sum([PAID * BPS]) + 4
  {
    var f1: U128, net: nat, tokens: U128 := PAID * t.feeBps, NetOf(gross, t.feeBps), PAID * (BPS - t.feeBps);
    KeptAtMost(f1, a, b);
    KeptAtMost(gross - net, a, b);
    ProbeEnds(t.feeBps, a + b, Lift(impactBps, t.feeBps), KeptRate(a + b, t.feeBps), gross, net, KeptOf(f1, a, b),
              KeptOf(gross - net, a, b));
    NetOfWhole(PAID, t.feeBps);
    OneTradeEach(t, s, PAID * BPS, slice, tokens, a, b);
  }

  lemma ProbeIsBracket(t: Terms, s: State, slice: U128, tokens: U128, termBps: nat)
    requires t.feeBps < BPS && QuoteBuy(t, s, PAID * BPS).Ok? && !QuoteBuy(t, s, PAID * BPS).value.crossed
    requires var s1 := Bought(t, s, PAID * BPS);
             && QuoteBuy(t, s1, slice).Ok? && !QuoteBuy(t, s1, slice).value.crossed
             && slice <= SliceCap(QuoteSide(t, s1), termBps, t.feeBps)
             && QuoteSell(t, Bought(t, s1, slice), tokens).Ok?
             && s1.tokensRemaining + tokens <= s.tokensRemaining
    ensures IsBracket(t, s, [PAID * BPS], slice, [tokens], termBps)
  {
    var buys: seq<U128>, sells: seq<U128> := [PAID * BPS], [tokens];
    assert buys[1..] == [] && sells[1..] == [];
  }

  /** The creator's end of it, from the fees and what is kept of them. */
  lemma ProbeEnds(feeBps: nat, kept: nat, lift: nat, g: nat, gross: nat, net: nat, k1: nat, k2: nat)
    requires feeBps < BPS && kept <= BPS && g == KeptRate(kept, feeBps) && WeighsMore(lift, g, BPS - feeBps)
    requires net == NetOf(gross, feeBps) <= gross
    requires k1 * BPS <= PAID * feeBps * kept && k2 * BPS <= (gross - net) * kept
    requires lift * lift * (PAID * (BPS - feeBps)) < (gross + 1) * (2 * BPS * BPS * (2 * BPS * BPS) + 2_001)
    ensures PAID * (BPS - feeBps) + k1 + k2 + 4 <= gross
  {
    PastGains(lift, g, BPS - feeBps, gross, kept);
    EndsAbove(gross, net, feeBps, kept, g, k1, k2);
  }

  lemma OneTradeEach(t: Terms, s: State, paid: U128, slice: U128, tokens: U128, a: nat, b: nat)
    requires a + b <= BPS && QuoteBuy(t, s, paid).Ok?
    requires QuoteSell(t, Bought(t, Bought(t, s, paid), slice), tokens).Ok?
    ensures Sum([paid]) == paid
    ensures var f1 := QuoteBuy(t, s, paid).value.fee;
            var x := QuoteSell(t, Bought(t, Bought(t, s, paid), slice), tokens).value;
            CreatorGets(t, s, [paid], slice, [tokens], a, b)
            == x.quoteOut + f1 - KeptOf(f1, a, b) + x.fee - KeptOf(x.fee, a, b)
  {
    OneBuy(t, s, paid, a, b);
    OneSell(t, Bought(t, Bought(t, s, paid), slice), tokens, a, b);
  }

  lemma OneBuy(t: Terms, s: State, paid: U128, a: nat, b: nat)
    requires a + b <= BPS && QuoteBuy(t, s, paid).Ok?
    ensures Sum([paid]) == paid && BuyAll(t, s, [paid]) == Bought(t, s, paid)
    ensures BuyFees(t, s, [paid]) == QuoteBuy(t, s, paid).value.fee
    ensures BuysKept(t, s, [paid], a, b) == KeptOf(QuoteBuy(t, s, paid).value.fee, a, b)
  {
    var buys: seq<U128> := [paid];
    assert buys[1..] == [];
  }

  lemma OneSell(t: Terms, s: State, tokens: U128, a: nat, b: nat)
    requires a + b <= BPS && QuoteSell(t, s, tokens).Ok?
    ensures Received(t, s, [tokens]) == QuoteSell(t, s, tokens).value.quoteOut
    ensures SellFees(t, s, [tokens]) == QuoteSell(t, s, tokens).value.fee
    ensures SellsKept(t, s, [tokens], a, b) == KeptOf(QuoteSell(t, s, tokens).value.fee, a, b)
  {
    var sells: seq<U128> := [tokens];
    assert sells[1..] == [];
  }

  // ---- both ways ---------------------------------------------------------------------------------

  /** No bracket on these terms brings the creator two units a trade. */
  ghost predicate SafeFromCreator(t: Terms, termBps: nat, a: nat, b: nat)
    requires a + b <= BPS
  {
    forall s: State, buys: seq<U128>, slice: U128, sells: seq<U128> ::
      IsBracket(t, s, buys, slice, sells, termBps) ==>
        CreatorGets(t, s, buys, slice, sells, a, b) < Sum(buys) + 2 * (|buys| + |sells|)
  }

  /** Where the impact is outweighed the creator gains by no bracket, and past the margin by some: on all terms but
      those within one part in a million million of the line it gains by none if and only if the impact is outweighed.
      */
  lemma SafeFromCreatorIff(t: Terms, termBps: nat, a: nat, b: nat)
    requires t.feeBps < BPS && t.virtualQuote <= ROOM && t.tokenFloor <= ROOM && a + b <= BPS
    ensures Outweighed(ImpactBps(termBps, t.feeBps), t.feeBps, a + b) ==> SafeFromCreator(t, termBps, a, b)
    ensures PastMargin(ImpactBps(termBps, t.feeBps), t.feeBps, a + b) ==> !SafeFromCreator(t, termBps, a, b)
  {
    if Outweighed(ImpactBps(termBps, t.feeBps), t.feeBps, a + b) {
      OutweighedIsSafe(t, termBps, a, b);
    }
    if PastMargin(ImpactBps(termBps, t.feeBps), t.feeBps, a + b) {
      PastIsUnsafe(t, termBps, a, b);
    }
  }

  lemma OutweighedIsSafe(t: Terms, termBps: nat, a: nat, b: nat)
    requires t.feeBps < BPS && a + b <= BPS && Outweighed(ImpactBps(termBps, t.feeBps), t.feeBps, a + b)
    ensures SafeFromCreator(t, termBps, a, b)
  {
    forall s: State, buys: seq<U128>, slice: U128, sells: seq<U128> | IsBracket(t, s, buys, slice, sells, termBps)
      ensures CreatorGets(t, s, buys, slice, sells, a, b) < Sum(buys) + 2 * (|buys| + |sells|)
    {
      CreatorBracketNeverPays(t, s, buys, slice, sells, termBps, a, b);
    }
  }

  lemma PastIsUnsafe(t: Terms, termBps: nat, a: nat, b: nat)
    requires t.feeBps < BPS && t.virtualQuote <= ROOM && t.tokenFloor <= ROOM && a + b <= BPS
    requires PastMargin(ImpactBps(termBps, t.feeBps), t.feeBps, a + b)
    ensures !SafeFromCreator(t, termBps, a, b)
  {
    var s, slice, tokens := CreatorBracketPaysPast(t, termBps, a, b);
    var buys: seq<U128>, sells: seq<U128> := [PAID * BPS], [tokens];
    assert IsBracket(t, s, buys, slice, sells, termBps);
  }
}
