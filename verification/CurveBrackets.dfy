/** Brackets around a burn slice in any number of trades, and what the launch's own creator gets back of their fees. */
module CurveBrackets {
  import opened Arith
  import opened Curve
  import opened CurveQuotes
  import opened CurveHistory
  import opened CurveTrading
  import LaunchTerms

  // ---- several trades in a row ------------------------------------------------------------

  function BuyAll(t: Terms, s: State, qs: seq<U128>): State
    decreases |qs|
  {
    if qs == [] then s else BuyAll(t, Bought(t, s, qs[0]), qs[1..])
  }

  /** Every buy goes through without reaching the end of the curve. */
  predicate NormalBuys(t: Terms, s: State, qs: seq<U128>)
    decreases |qs|
  {
    qs == []
    || (&& QuoteBuy(t, s, qs[0]).Ok? && !QuoteBuy(t, s, qs[0]).value.crossed
        && NormalBuys(t, Bought(t, s, qs[0]), qs[1..]))
  }

  function Sum(xs: seq<U128>): nat
    decreases |xs|
  {
    if xs == [] then 0 else xs[0] + Sum(xs[1..])
  }

  function BuyFees(t: Terms, s: State, qs: seq<U128>): nat
    decreases |qs|
  {
    if qs == [] || QuoteBuy(t, s, qs[0]).Err? then 0
    else QuoteBuy(t, s, qs[0]).value.fee + BuyFees(t, Bought(t, s, qs[0]), qs[1..])
  }

  function SellAll(t: Terms, s: State, xs: seq<U128>): State
    decreases |xs|
  {
    if xs == [] then s else SellAll(t, Sold(t, s, xs[0]), xs[1..])
  }

  predicate Sells(t: Terms, s: State, xs: seq<U128>)
    decreases |xs|
  {
    xs == [] || (QuoteSell(t, s, xs[0]).Ok? && Sells(t, Sold(t, s, xs[0]), xs[1..]))
  }

  /** What the sells pay, after their fees. */
  function Received(t: Terms, s: State, xs: seq<U128>): nat
    decreases |xs|
  {
    if xs == [] || QuoteSell(t, s, xs[0]).Err? then 0
    else QuoteSell(t, s, xs[0]).value.quoteOut + Received(t, Sold(t, s, xs[0]), xs[1..])
  }

  function SellFees(t: Terms, s: State, xs: seq<U128>): nat
    decreases |xs|
  {
    if xs == [] || QuoteSell(t, s, xs[0]).Err? then 0
    else QuoteSell(t, s, xs[0]).value.fee + SellFees(t, Sold(t, s, xs[0]), xs[1..])
  }

  /** Buys together: what was paid is the rise of the quote side and the fees, no token comes back, `k` does not fall.
      */
  lemma {:induction false} BuysTogether(t: Terms, s: State, qs: seq<U128>)
    requires NormalBuys(t, s, qs) && t.feeBps <= BPS
    ensures var s' := BuyAll(t, s, qs);
            var net := Sum(qs) - BuyFees(t, s, qs);
            && 0 <= net && QuoteSide(t, s') == QuoteSide(t, s) + net && net * BPS <= Sum(qs) * (BPS - t.feeBps)
            && TokenSide(t, s') <= TokenSide(t, s) && K(t, s) <= K(t, s')
            && (qs != [] ==> 0 < Sum(qs) && 0 < QuoteSide(t, s) && 0 < TokenSide(t, s) && t.feeBps < BPS)
    decreases |qs|
  {
    if qs != [] {
      var s1 := Bought(t, s, qs[0]);
      PartialBuyKeepsK(t, s, qs[0]);
      NetBound(qs[0], t.feeBps);
      BuysTogether(t, s1, qs[1..]);
      var net := Sum(qs[1..]) - BuyFees(t, s1, qs[1..]);
      Distribute(qs[0], Sum(qs[1..]), BPS - t.feeBps);
      Distribute(NetOf(qs[0], t.feeBps), net, BPS);
    }
  }

  /** Sells together: what left the curve is what was received and the fees, the tokens came back, `k` does not fall. */
  lemma {:induction false} SellsTogether(t: Terms, s: State, xs: seq<U128>)
    requires Sells(t, s, xs) && t.feeBps <= BPS
    ensures var s' := SellAll(t, s, xs);
            var gross := Received(t, s, xs) + SellFees(t, s, xs);
            && QuoteSide(t, s') + gross == QuoteSide(t, s) && TokenSide(t, s') == TokenSide(t, s) + Sum(xs)
            && K(t, s) <= K(t, s') && Received(t, s, xs) * BPS <= gross * (BPS - t.feeBps)
    decreases |xs|
  {
    if xs != [] {
      var s1, r := Sold(t, s, xs[0]), QuoteSell(t, s, xs[0]).value;
      SellKeepsK(t, s, xs[0]);
      NetBound(r.quoteGross, t.feeBps);
      SellsTogether(t, s1, xs[1..]);
      var rest := Received(t, s1, xs[1..]) + SellFees(t, s1, xs[1..]);
      Distribute(r.quoteGross, rest, BPS - t.feeBps);
      Distribute(r.quoteOut, Received(t, s1, xs[1..]), BPS);
    }
  }

  /** Leaving `q - gross` for `tk + x` with `k` kept takes at most the tokens' share; more tokens take no less. */
  lemma GrossShare(q: nat, tk: nat, gross: nat, x: nat, most: nat)
    requires gross <= q && 0 < tk && q * tk <= (q - gross) * (tk + x) && x <= most
    ensures gross * (tk + most) <= q * most
  {
    Distribute(q - gross, gross, tk + x);
    Distribute(tk, x, q);
    assert gross * (tk + x) <= q * x;
    MulMono(gross, q, most - x);
    Distribute(tk + x, most - x, gross);
    Distribute(x, most - x, q);
  }

  // ---- the bracket, in parts ----------------------------------------------------------------

  /** A bracket: buys, the vault's slice under its cap, then sells of at most the tokens bought. */
  predicate IsBracket(t: Terms, s: State, buys: seq<U128>, slice: U128, sells: seq<U128>, termBps: nat) {
    var s1 := BuyAll(t, s, buys);
    && t.feeBps < BPS && buys != [] && NormalBuys(t, s, buys)
    && QuoteBuy(t, s1, slice).Ok? && !QuoteBuy(t, s1, slice).value.crossed
    && slice <= SliceCap(QuoteSide(t, s1), termBps, t.feeBps)
    && Sells(t, Bought(t, s1, slice), sells)
    && s1.tokensRemaining + Sum(sells) <= s.tokensRemaining
  }

  lemma SliceLifts(t: Terms, s: State, slice: U128)
    requires t.feeBps < BPS && QuoteBuy(t, s, slice).Ok? && !QuoteBuy(t, s, slice).value.crossed
    ensures 0 < slice && QuoteSide(t, Bought(t, s, slice)) == QuoteSide(t, s) + NetOf(slice, t.feeBps)
    ensures K(t, s) <= K(t, Bought(t, s, slice)) && 0 < TokenSide(t, Bought(t, s, slice))
  {
    PartialBuyKeepsK(t, s, slice);
  }

  /** What a bracket comes to: the reserves before it, after its buys and after the slice, the net its buys brought
      and the gross its sells took. */
  lemma BracketReserves(t: Terms, s: State, buys: seq<U128>, slice: U128, sells: seq<U128>,
                        termBps: nat)
    returns (q0: nat, tk0: nat, a: nat, tk1: nat, q2: nat, tk2: nat, gross: nat)
    requires IsBracket(t, s, buys, slice, sells, termBps)
    ensures var s2 := Bought(t, BuyAll(t, s, buys), slice);
            && a + BuyFees(t, s, buys) == Sum(buys) && gross == Received(t, s2, sells) + SellFees(t, s2, sells)
            && a * BPS <= Sum(buys) * (BPS - t.feeBps) && Received(t, s2, sells) * BPS <= gross * (BPS - t.feeBps)
    ensures 0 < Sum(buys) && 0 < q0 && 0 < tk0 && tk1 <= tk0 && 0 < slice <= SliceCap(q0 + a, termBps, t.feeBps)
    ensures q2 == q0 + a + NetOf(slice, t.feeBps) && q0 * tk0 <= (q0 + a) * tk1 <= q2 * tk2
    ensures gross * (tk2 + (tk0 - tk1)) <= q2 * (tk0 - tk1)
  {
    q0, tk0, a, tk1 := ReservesAfterBuys(t, s, buys);
    q2, tk2, gross := ReservesAfterSlice(t, BuyAll(t, s, buys), slice, sells, tk0 - tk1);
  }

  lemma ReservesAfterSlice(t: Terms, s: State, slice: U128, sells: seq<U128>, most: nat)
    returns (q2: nat, tk2: nat, gross: nat)
    requires t.feeBps < BPS && QuoteBuy(t, s, slice).Ok? && !QuoteBuy(t, s, slice).value.crossed
    requires Sells(t, Bought(t, s, slice), sells) && Sum(sells) <= most
    ensures var s2 := Bought(t, s, slice);
            && gross == Received(t, s2, sells) + SellFees(t, s2, sells)
            && Received(t, s2, sells) * BPS <= gross * (BPS - t.feeBps)
    ensures 0 < slice && q2 == QuoteSide(t, s) + NetOf(slice, t.feeBps) && K(t, s) <= q2 * tk2
    ensures gross * (tk2 + most) <= q2 * most
  {
    var s2 := Bought(t, s, slice);
    SliceLifts(t, s, slice);
    SellsTake(t, s2, sells, most);
    q2, tk2, gross := QuoteSide(t, s2), TokenSide(t, s2), Received(t, s2, sells) + SellFees(t, s2, sells);
  }

  lemma ReservesAfterBuys(t: Terms, s: State, buys: seq<U128>)
    returns (q0: nat, tk0: nat, a: nat, tk1: nat)
    requires t.feeBps <= BPS && buys != [] && NormalBuys(t, s, buys)
    ensures var s1 := BuyAll(t, s, buys);
            && QuoteSide(t, s1) == q0 + a && TokenSide(t, s1) == tk1 <= tk0 && q0 * tk0 <= K(t, s1)
            && tk0 - tk1 == s.tokensRemaining - s1.tokensRemaining
    ensures a + BuyFees(t, s, buys) == Sum(buys) && a * BPS <= Sum(buys) * (BPS - t.feeBps)
    ensures 0 < Sum(buys) && 0 < q0 && 0 < tk0
  {
    BuysTogether(t, s, buys);
    q0, tk0, tk1 := QuoteSide(t, s), TokenSide(t, s), TokenSide(t, BuyAll(t, s, buys));
    a := Sum(buys) - BuyFees(t, s, buys);
  }

  /** What sells take, at most, by the tokens they may bring. */
  lemma SellsTake(t: Terms, s: State, xs: seq<U128>, most: nat)
    requires Sells(t, s, xs) && t.feeBps <= BPS && Sum(xs) <= most && 0 < TokenSide(t, s)
    ensures var gross := Received(t, s, xs) + SellFees(t, s, xs);
            && Received(t, s, xs) * BPS <= gross * (BPS - t.feeBps)
            && gross * (TokenSide(t, s) + most) <= QuoteSide(t, s) * most
  {
    SellsTogether(t, s, xs);
    GrossShare(QuoteSide(t, s), TokenSide(t, s), Received(t, s, xs) + SellFees(t, s, xs), Sum(xs), most);
  }

  /** However the buys before the slice and the sells after it are split up, they return less than they cost. */
  lemma BracketInPartsNeverPays(t: Terms, s: State, buys: seq<U128>, slice: U128, sells: seq<U128>,
                                termBps: nat)
    requires IsBracket(t, s, buys, slice, sells, termBps)
    ensures Received(t, Bought(t, BuyAll(t, s, buys), slice), sells) < Sum(buys)
  {
    var q0, tk0, a, tk1, q2, tk2, gross := BracketReserves(t, s, buys, slice, sells, termBps);
    BracketArith(q0, tk0, a, tk1, q2, tk2, Sum(buys), slice, termBps, t.feeBps, gross,
                 Received(t, Bought(t, BuyAll(t, s, buys), slice), sells));
  }

  // ---- the creator's bracket ----------------------------------------------------------------

  /** What protocol and treasury keep of a fee; the creator claims the rest. */
  function KeptOf(fee: U128, a: nat, b: nat): (kept: nat)
    requires a + b <= BPS
    ensures kept <= fee
  {
    LaunchTerms.SharesFit(fee, a, b);
    LaunchTerms.SplitFee(fee, a, b).protocol + LaunchTerms.SplitFee(fee, a, b).treasury
  }

  function BuysKept(t: Terms, s: State, qs: seq<U128>, a: nat, b: nat): nat
    requires a + b <= BPS
    decreases |qs|
  {
    if qs == [] || QuoteBuy(t, s, qs[0]).Err? then 0
    else KeptOf(QuoteBuy(t, s, qs[0]).value.fee, a, b) + BuysKept(t, Bought(t, s, qs[0]), qs[1..], a, b)
  }

  function SellsKept(t: Terms, s: State, xs: seq<U128>, a: nat, b: nat): nat
    requires a + b <= BPS
    decreases |xs|
  {
    if xs == [] || QuoteSell(t, s, xs[0]).Err? then 0
    else KeptOf(QuoteSell(t, s, xs[0]).value.fee, a, b) + SellsKept(t, Sold(t, s, xs[0]), xs[1..], a, b)
  }

  /** Two floored shares lose less than two units, the saturating product included. */
  lemma KeptLoses(fee: U128, a: nat, b: nat)
    requires a + b <= BPS && fee <= U128_MAX / BPS + 1
    ensures fee * (a + b) <= KeptOf(fee, a, b) * BPS + 2 * (BPS - 1)
  {
    Distribute(a, b, fee);
    MulMono(a, BPS, fee);
    MulMono(b, BPS, fee);
    if a < BPS && b < BPS {
      MulMono(a, BPS - 1, fee);
      MulMono(b, BPS - 1, fee);
    }
  }

  lemma LossesAdd(fee: nat, rest: nat, k: nat, ks: nat, shares: nat, n: nat)
    requires fee * shares <= k * BPS + 2 * (BPS - 1) && rest * shares <= ks * BPS + 2 * (BPS - 1) * n
    ensures (fee + rest) * shares <= (k + ks) * BPS + 2 * (BPS - 1) * (n + 1)
  {
    Distribute(fee, rest, shares);
  }

  lemma {:induction false} BuysKeptLose(t: Terms, s: State, qs: seq<U128>, a: nat, b: nat)
    requires NormalBuys(t, s, qs) && a + b <= BPS
    ensures BuysKept(t, s, qs, a, b) <= BuyFees(t, s, qs)
    ensures BuyFees(t, s, qs) * (a + b) <= BuysKept(t, s, qs, a, b) * BPS + 2 * (BPS - 1) * |qs|
    decreases |qs|
  {
    if qs != [] {
      var s1, fee := Bought(t, s, qs[0]), QuoteBuy(t, s, qs[0]).value.fee;
      BuyIsOutcome(t, s, qs[0]);
      KeptLoses(fee, a, b);
      BuysKeptLose(t, s1, qs[1..], a, b);
      LossesAdd(fee, BuyFees(t, s1, qs[1..]), KeptOf(fee, a, b), BuysKept(t, s1, qs[1..], a, b), a + b, |qs| - 1);
    }
  }

  lemma {:induction false} SellsKeptLose(t: Terms, s: State, xs: seq<U128>, a: nat, b: nat)
    requires Sells(t, s, xs) && a + b <= BPS
    ensures SellsKept(t, s, xs, a, b) <= SellFees(t, s, xs)
    ensures SellFees(t, s, xs) * (a + b) <= SellsKept(t, s, xs, a, b) * BPS + 2 * (BPS - 1) * |xs|
    decreases |xs|
  {
    if xs != [] {
      var s1, fee := Sold(t, s, xs[0]), QuoteSell(t, s, xs[0]).value.fee;
      SellFeeFits(t, s, xs[0]);
      KeptLoses(fee, a, b);
      SellsKeptLose(t, s1, xs[1..], a, b);
      LossesAdd(fee, SellFees(t, s1, xs[1..]), KeptOf(fee, a, b), SellsKept(t, s1, xs[1..], a, b), a + b, |xs| - 1);
    }
  }

  lemma SellFeeFits(t: Terms, s: State, x: U128)
    requires QuoteSell(t, s, x).Ok?
    ensures QuoteSell(t, s, x).value.fee <= U128_MAX / BPS + 1
  {
  }

  /** What the creator ends a bracket with: proceeds, and its share of the fees of its own trades. */
  function CreatorGets(t: Terms, s: State, buys: seq<U128>, slice: U128, sells: seq<U128>, a: nat, b: nat): int
    requires a + b <= BPS
  {
    var s2 := Bought(t, BuyAll(t, s, buys), slice);
    Received(t, s2, sells) + (BuyFees(t, s, buys) - BuysKept(t, s, buys, a, b))
    + (SellFees(t, s2, sells) - SellsKept(t, s2, sells, a, b))
  }

  /** How a bracket's gross and net weigh against each other once the fees that come back are counted, in whole
      numbers: `g` is the fee times what is kept of it, `r` what a fee leaves. Gross times the one against net times
      the other. */
  function SoldWeight(g: nat, r: nat): nat
    requires g <= BPS * BPS
  {
    (BPS * BPS - g) * r
  }

  function PaidWeight(g: nat, r: nat): nat {
    BPS * BPS * r + BPS * g
  }

  /** What is kept of a fee, as a part of what is traded, over `BPS * BPS`. */
  function KeptRate(keptBps: nat, feeBps: nat): (g: nat)
    requires keptBps <= BPS && feeBps <= BPS
    ensures g <= BPS * BPS
  {
    MulMono(keptBps, BPS, feeBps);
    keptBps * feeBps
  }

  /** The quote side after a slice over the one before it, at most, over `2 * BPS * BPS`. */
  function Lift(impactBps: nat, feeBps: nat): nat
    requires feeBps < BPS
  {
    2 * BPS * BPS + impactBps * (BPS - feeBps)
  }

  /** The slice's impact is outweighed by what is really kept of two fees. */
  ghost predicate Outweighed(impactBps: nat, feeBps: nat, keptBps: nat)
    requires feeBps < BPS && keptBps <= BPS
  {
    SquaresWeigh(Lift(impactBps, feeBps), KeptRate(keptBps, feeBps), BPS - feeBps)
  }

  /** The two sides that are compared: what is sold under the square of the lift, and what is paid. */
  predicate Sides(lift: nat, g: nat, r: nat, sold: nat, paid: nat)
    requires g <= BPS * BPS
  {
    sold == lift * lift * SoldWeight(g, r) && paid == 2 * BPS * BPS * (2 * BPS * BPS) * PaidWeight(g, r)
  }

  ghost predicate SquaresWeigh(lift: nat, g: nat, r: nat)
    requires g <= BPS * BPS
  {
    forall sold: nat, paid: nat :: Sides(lift, g, r, sold, paid) ==> sold <= paid
  }

  lemma SquaresWeighIff(lift: nat, g: nat, r: nat)
    requires g <= BPS * BPS
    ensures SquaresWeigh(lift, g, r)
            <==> lift * lift * SoldWeight(g, r) <= 2 * BPS * BPS * (2 * BPS * BPS) * PaidWeight(g, r)
  {
    assert Sides(lift, g, r, lift * lift * SoldWeight(g, r), 2 * BPS * BPS * (2 * BPS * BPS) * PaidWeight(g, r));
  }

  /** A slice under its cap lifts the quote side by at most half its impact, less its fee. */
  lemma LiftBound(q1: nat, slice: nat, termBps: nat, feeBps: nat)
    requires feeBps < BPS && slice <= SliceCap(q1, termBps, feeBps)
    ensures (q1 + NetOf(slice, feeBps)) * (2 * BPS * BPS)
            <= q1 * Lift(ImpactBps(termBps, feeBps), feeBps)
  {
    var v, r, imp := NetOf(slice, feeBps), BPS - feeBps, ImpactBps(termBps, feeBps);
    NetBound(slice, feeBps);
    FloorIff(q1 * imp, 2 * BPS, slice);
    MulMono(slice * (2 * BPS), q1 * imp, r);
    assert slice * (2 * BPS) * r == 2 * BPS * (slice * r);
    Assoc(q1, imp, r);
    Distribute(2 * BPS * BPS, imp * r, q1);
    assert q1 * (2 * BPS * BPS + imp * r) == q1 * (2 * BPS * BPS) + q1 * (imp * r);
  }

  lemma SquareChain(gross: nat, q1: nat, q2: nat, a: nat, n: nat, d: nat, x: nat, y: nat)
    requires 0 < q1 && 0 < d && gross * (q1 * q1) <= q2 * q2 * a && q2 * d <= q1 * n && n * n * x <= d * d * y
    ensures gross * x <= a * y
  {
    LiftSquare(gross, q1, q2, a, n, d);
    var nn, dd := n * n, d * d;
    calc {
      gross * x * dd;
    == { Swap2(gross, x, dd); }
      gross * dd * x;
    <= { MulMono(gross * dd, nn * a, x); }
      nn * a * x;
    == { Swap2(nn, a, x); assert nn * x * a == a * (nn * x); }
      a * (nn * x);
    <= { MulMono(nn * x, dd * y, a); }
      a * (dd * y);
    == { Assoc(a, dd, y); Swap2(a, dd, y); }
      a * y * dd;
    }
    MulStrict(0, d, d);
    MulCancel(gross * x, a * y, dd);
  }

  lemma Swap2(x: int, y: int, z: int)
    ensures x * y * z == x * z * y
  {
    Assoc(x, y, z);
    Assoc(x, z, y);
  }

  lemma LiftSquare(gross: nat, q1: nat, q2: nat, a: nat, n: nat, d: nat)
    requires 0 < q1 && gross * (q1 * q1) <= q2 * q2 * a && q2 * d <= q1 * n
    ensures gross * (d * d) <= n * n * a
  {
    calc {
      gross * (d * d) * (q1 * q1);
    == { Swap2(gross, d * d, q1 * q1); }
      gross * (q1 * q1) * (d * d);
    <= { MulMono(gross * (q1 * q1), q2 * q2 * a, d * d); }
      q2 * q2 * a * (d * d);
    == { Swap2(q2 * q2, a, d * d); Swap(q2, q2, d, d); }
      (q2 * d) * (q2 * d) * a;
    <= { SquareMono(q2 * d, q1 * n); MulMono((q2 * d) * (q2 * d), (q1 * n) * (q1 * n), a); }
      (q1 * n) * (q1 * n) * a;
    == { Swap(q1, n, q1, n); Swap2(q1 * q1, n * n, a); assert (q1 * q1) * a * (n * n) == n * n * a * (q1 * q1); }
      n * n * a * (q1 * q1);
    }
    MulStrict(0, q1, q1);
    MulCancel(gross * (d * d), n * n * a, q1 * q1);
  }

  lemma SquareMono(x: nat, y: nat)
    requires x <= y
    ensures x * x <= y * y
  {
    MulMono(x, y, x);
    MulMono(x, y, y);
  }

  lemma FeesTaken(a: nat, f1: nat, gross: nat, f2: nat, feeBps: nat)
    requires feeBps < BPS && f2 <= gross
    requires a * BPS <= (a + f1) * (BPS - feeBps) && (gross - f2) * BPS <= gross * (BPS - feeBps)
    ensures a * feeBps <= f1 * (BPS - feeBps) && gross * feeBps <= f2 * BPS
  {
    Distribute(a, f1, BPS - feeBps);
    Distribute(BPS - feeBps, feeBps, a);
    Distribute(BPS - feeBps, feeBps, gross);
    Distribute(gross - f2, f2, BPS);
  }

  lemma ExpandGross(gross: nat, g: nat, r: nat)
    requires g <= BPS * BPS
    ensures gross * ((BPS * BPS - g) * r) == BPS * BPS * (gross * r) - gross * g * r
  {
    Distribute(BPS * BPS - g, g, r);
    Distribute((BPS * BPS - g) * r, g * r, gross);
    Assoc(gross, g, r);
  }

  lemma ExpandNet(a: nat, g: nat, r: nat)
    ensures a * (BPS * BPS * r + BPS * g) == BPS * BPS * (a * r) + BPS * (a * g)
  {
    Distribute(BPS * BPS * r, BPS * g, a);
  }

  lemma KeptOfGross(gross: nat, f2: nat, feeBps: nat, kept: nat, g: nat, r: nat)
    requires gross * feeBps <= f2 * BPS && g == kept * feeBps
    ensures gross * g * r <= BPS * (kept * f2 * r)
  {
    MulMono(gross * feeBps, f2 * BPS, kept * r);
    assert gross * feeBps * (kept * r) == gross * (kept * feeBps) * r;
    assert f2 * BPS * (kept * r) == BPS * (kept * f2 * r);
  }

  lemma KeptOfNet(a: nat, f1: nat, feeBps: nat, kept: nat, g: nat, r: nat)
    requires a * feeBps <= f1 * r && g == kept * feeBps
    ensures a * g <= kept * f1 * r
  {
    MulMono(a * feeBps, f1 * r, kept);
    assert a * feeBps * kept == a * (kept * feeBps);
    assert f1 * r * kept == kept * f1 * r;
  }

  lemma CancelRest(gross: nat, a: nat, f1: nat, f2: nat, kept: nat, r: nat)
    requires 0 < r && BPS * (gross * r) <= BPS * (a * r) + kept * f1 * r + kept * f2 * r
    ensures gross * BPS <= a * BPS + kept * (f1 + f2)
  {
    Distribute(f1, f2, kept);
    Distribute(a * BPS, kept * (f1 + f2), r);
    Distribute(kept * f1, kept * f2, r);
    Swap2(gross, BPS, r);
    Swap2(a, BPS, r);
    MulCancel(gross * BPS, a * BPS + kept * (f1 + f2), r);
  }

  /** Where the impact is outweighed, the bracket's gain is covered by what is kept of its two fees. */
  lemma WeighedParts(gross: nat, a: nat, g: nat, r: nat, feeBps: nat, kept: nat, f1: nat, f2: nat)
    requires g <= BPS * BPS && gross * SoldWeight(g, r) <= a * PaidWeight(g, r)
    requires 0 < r && g == kept * feeBps && a * feeBps <= f1 * r && gross * feeBps <= f2 * BPS
    ensures gross * BPS <= a * BPS + kept * (f1 + f2)
  {
    KeptOfGross(gross, f2, feeBps, kept, g, r);
    KeptOfNet(a, f1, feeBps, kept, g, r);
    WeighedFees(gross, a, g, r, kept * f1 * r, kept * f2 * r);
    CancelRest(gross, a, f1, f2, kept, r);
  }

  lemma WeighedFees(gross: nat, a: nat, g: nat, r: nat, k1: nat, k2: nat)
    requires g <= BPS * BPS && gross * SoldWeight(g, r) <= a * PaidWeight(g, r)
    requires gross * g * r <= BPS * k2 && a * g <= k1
    ensures BPS * (gross * r) <= BPS * (a * r) + k1 + k2
  {
    Expanded(gross, a, g, r);
    KeptSums(BPS * (gross * r), BPS * (a * r), gross * g * r, a * g, k1, k2);
  }

  lemma Expanded(gross: nat, a: nat, g: nat, r: nat)
    requires g <= BPS * BPS && gross * SoldWeight(g, r) <= a * PaidWeight(g, r)
    ensures BPS * (BPS * (gross * r)) <= BPS * (BPS * (a * r)) + BPS * (a * g) + gross * g * r
  {
    ExpandGross(gross, g, r);
    ExpandNet(a, g, r);
  }

  lemma KeptSums(sold: nat, paid: nat, soldKept: nat, paidKept: nat, k1: nat, k2: nat)
    requires BPS * sold <= BPS * paid + BPS * paidKept + soldKept && soldKept <= BPS * k2 && paidKept <= k1
    ensures sold <= paid + k1 + k2
  {
  }

  /** The gain in whole units, given that the kept parts lose less than two units a trade. */
  lemma GainInUnits(a: nat, f1: nat, gross: nat, f2: nat, kept: nat, k1: nat, k2: nat, n: nat, m: nat)
    requires gross * BPS <= a * BPS + kept * (f1 + f2) && 0 < n
    requires f1 * kept <= k1 * BPS + 2 * (BPS - 1) * n && f2 * kept <= k2 * BPS + 2 * (BPS - 1) * m
    ensures gross <= a + k1 + k2 + 2 * (n + m) - 1
  {
    Distribute(f1, f2, kept);
  }

  /** The gain on the three reserve pairs alone. */
  lemma WeighedGain(q0: nat, tk0: nat, a: nat, tk1: nat, q2: nat, tk2: nat, slice: nat, termBps: nat, feeBps: nat,
                    g: nat, gross: nat)
    requires 0 < q0 && 0 < tk0 && tk1 <= tk0 && feeBps < BPS && g <= BPS * BPS
    requires q2 == q0 + a + NetOf(slice, feeBps) && q0 * tk0 <= (q0 + a) * tk1 <= q2 * tk2
    requires slice <= SliceCap(q0 + a, termBps, feeBps)
    requires SquaresWeigh(Lift(ImpactBps(termBps, feeBps), feeBps), g, BPS - feeBps)
    requires gross * (tk2 + (tk0 - tk1)) <= q2 * (tk0 - tk1)
    ensures gross * SoldWeight(g, BPS - feeBps) <= a * PaidWeight(g, BPS - feeBps)
  {
    SquaresWeighIff(Lift(ImpactBps(termBps, feeBps), feeBps), g, BPS - feeBps);
    BracketGross(q0, tk0, a, tk1, q2, tk2, gross);
    LiftBound(q0 + a, slice, termBps, feeBps);
    SquareChain(gross, q0 + a, q2, a, Lift(ImpactBps(termBps, feeBps), feeBps), 2 * BPS * BPS,
                SoldWeight(g, BPS - feeBps), PaidWeight(g, BPS - feeBps));
  }

  lemma ReservesGain(q0: nat, tk0: nat, a: nat, tk1: nat, q2: nat, tk2: nat, slice: nat, termBps: nat, feeBps: nat,
                     kept: nat, g: nat, f1: nat, gross: nat, f2: nat)
    requires 0 < q0 && 0 < tk0 && tk1 <= tk0 && feeBps < BPS && kept <= BPS && f2 <= gross
    requires g == KeptRate(kept, feeBps)
    requires q2 == q0 + a + NetOf(slice, feeBps) && q0 * tk0 <= (q0 + a) * tk1 <= q2 * tk2
    requires slice <= SliceCap(q0 + a, termBps, feeBps)
    requires SquaresWeigh(Lift(ImpactBps(termBps, feeBps), feeBps), g, BPS - feeBps)
    requires gross * (tk2 + (tk0 - tk1)) <= q2 * (tk0 - tk1)
    requires a * BPS <= (a + f1) * (BPS - feeBps) && (gross - f2) * BPS <= gross * (BPS - feeBps)
    ensures gross * BPS <= a * BPS + kept * (f1 + f2)
  {
    WeighedGain(q0, tk0, a, tk1, q2, tk2, slice, termBps, feeBps, g, gross);
    FeesTaken(a, f1, gross, f2, feeBps);
    WeighedParts(gross, a, g, BPS - feeBps, feeBps, kept, f1, f2);
  }

  lemma BracketGain(t: Terms, s: State, buys: seq<U128>, slice: U128, sells: seq<U128>, termBps: nat,
                    kept: nat)
    requires IsBracket(t, s, buys, slice, sells, termBps) && kept <= BPS
    requires Outweighed(ImpactBps(termBps, t.feeBps), t.feeBps, kept)
    ensures var s2 := Bought(t, BuyAll(t, s, buys), slice);
            var f1, f2 := BuyFees(t, s, buys), SellFees(t, s2, sells);
            var a, gross := Sum(buys) - f1, Received(t, s2, sells) + f2;
            0 <= a && gross * BPS <= a * BPS + kept * (f1 + f2)
  {
    var q0, tk0, a, tk1, q2, tk2, gross := BracketReserves(t, s, buys, slice, sells, termBps);
    ReservesGain(q0, tk0, a, tk1, q2, tk2, slice, termBps, t.feeBps, kept, KeptRate(kept, t.feeBps),
                 BuyFees(t, s, buys), gross,
                 SellFees(t, Bought(t, BuyAll(t, s, buys), slice), sells));
  }

  /** Where the slice's impact is outweighed by what protocol and treasury keep of the fees, not even the launch's own
      creator gains by a bracket, its share of its own fees counted, but for less than two units of share rounding a
      trade. */
  lemma CreatorBracketNeverPays(t: Terms, s: State, buys: seq<U128>, slice: U128, sells: seq<U128>,
                                termBps: nat, a: nat, b: nat)
    requires IsBracket(t, s, buys, slice, sells, termBps) && a + b <= BPS
    requires Outweighed(ImpactBps(termBps, t.feeBps), t.feeBps, a + b)
    ensures CreatorGets(t, s, buys, slice, sells, a, b) < Sum(buys) + 2 * (|buys| + |sells|)
  {
    BracketGain(t, s, buys, slice, sells, termBps, a + b);
    BracketInUnits(t, s, buys, slice, sells, a, b);
  }

  lemma BracketInUnits(t: Terms, s: State, buys: seq<U128>, slice: U128, sells: seq<U128>, a: nat, b: nat)
    requires buys != [] && NormalBuys(t, s, buys) && a + b <= BPS
    requires Sells(t, Bought(t, BuyAll(t, s, buys), slice), sells)
    requires var s2 := Bought(t, BuyAll(t, s, buys), slice);
             var f1, f2 := BuyFees(t, s, buys), SellFees(t, s2, sells);
             var net, gross := Sum(buys) - f1, Received(t, s2, sells) + f2;
             0 <= net && gross * BPS <= net * BPS + (a + b) * (f1 + f2)
    ensures CreatorGets(t, s, buys, slice, sells, a, b) < Sum(buys) + 2 * (|buys| + |sells|)
  {
    TradesInUnits(t, s, buys, Bought(t, BuyAll(t, s, buys), slice), sells, a, b);
  }

  lemma TradesInUnits(t: Terms, s: State, buys: seq<U128>, s2: State, sells: seq<U128>, a: nat,
                      b: nat)
    requires buys != [] && NormalBuys(t, s, buys) && Sells(t, s2, sells) && a + b <= BPS
    requires var f1, f2 := BuyFees(t, s, buys), SellFees(t, s2, sells);
             var net, gross := Sum(buys) - f1, Received(t, s2, sells) + f2;
             0 <= net && gross * BPS <= net * BPS + (a + b) * (f1 + f2)
    ensures Received(t, s2, sells) + (BuyFees(t, s, buys) - BuysKept(t, s, buys, a, b))
            + (SellFees(t, s2, sells) - SellsKept(t, s2, sells, a, b)) < Sum(buys) + 2 * (|buys| + |sells|)
  {
    BuysKeptLose(t, s, buys, a, b);
    SellsKeptLose(t, s2, sells, a, b);
    var f1, f2 := BuyFees(t, s, buys), SellFees(t, s2, sells);
    GainInUnits(Sum(buys) - f1, f1, Received(t, s2, sells) + f2, f2, a + b, BuysKept(t, s, buys, a, b),
                SellsKept(t, s2, sells, a, b), |buys|, |sells|);
  }

  // ---- a simple bound on the term -------------------------------------------------------------

  lemma LiftedShare(g: nat, r: nat)
    requires g <= BPS * BPS && r <= BPS
    ensures (BPS * BPS * BPS + g * r) * (BPS * BPS - g) <= BPS * BPS * BPS * BPS * BPS
  {
    var x := BPS * BPS - g;
    MulMono(r, BPS, g);
    MulMono(g * r, g * BPS, x);
    Distribute(BPS * BPS * BPS, g * r, x);
    assert g * BPS * x == BPS * (g * x);
    Distribute(x, g, g);
  }

  lemma LiftedRest(g: nat, r: nat)
    requires r <= BPS
    ensures (BPS * BPS * BPS + g * r) * r <= BPS * BPS * BPS * r + BPS * BPS * g
  {
    Distribute(BPS * BPS * BPS, g * r, r);
    SquareMono(r, BPS);
    MulMono(r * r, BPS * BPS, g);
    Assoc(g, r, r);
  }

  lemma OutweighedArith(g: nat, r: nat, n: nat)
    requires g <= BPS * BPS && r <= BPS && n * BPS <= 2 * (BPS * BPS * BPS + g * r)
    ensures n * n * SoldWeight(g, r) <= 2 * BPS * BPS * (2 * BPS * BPS) * PaidWeight(g, r)
  {
    var h, x := BPS * BPS * BPS + g * r, BPS * BPS - g;
    LiftedShare(g, r);
    LiftedRest(g, r);
    OutweighedChain(n, h, x, r, BPS * BPS * BPS * r + BPS * BPS * g);
  }

  lemma OutweighedChain(n: nat, h: nat, x: nat, r: nat, most: nat)
    requires n * BPS <= 2 * h && h * x <= BPS * BPS * BPS * BPS * BPS && h * r <= most
    ensures n * n * (x * r) <= 4 * BPS * BPS * BPS * most
  {
    calc {
      n * n * (x * r) * (BPS * BPS);
    == { Swap2(n * n, x * r, BPS * BPS); Swap(n, n, BPS, BPS); }
      (n * BPS) * (n * BPS) * (x * r);
    <= { SquareMono(n * BPS, 2 * h); MulMono((n * BPS) * (n * BPS), (2 * h) * (2 * h), x * r); }
      (2 * h) * (2 * h) * (x * r);
    == { Swap(2, h, 2, h); Assoc(4, h * h, x * r); Swap(h, h, x, r); }
      4 * ((h * x) * (h * r));
    <= { MulMono(h * x, BPS * BPS * BPS * BPS * BPS, h * r); MulMono(h * r, most, BPS * BPS * BPS * BPS * BPS); }
      4 * (BPS * BPS * BPS * BPS * BPS * most);
    }
  }

  /** A term of at most twice the fee that is really kept is enough: a condition on the treasury's term and the launch's
      fee and shares alone. */
  lemma LowTermIsOutweighed(termBps: nat, feeBps: nat, kept: nat)
    requires feeBps < BPS && kept <= BPS && termBps * BPS <= 2 * KeptRate(kept, feeBps)
    ensures Outweighed(ImpactBps(termBps, feeBps), feeBps, kept)
  {
    var g := KeptRate(kept, feeBps);
    LowLift(ImpactBps(termBps, feeBps), g, BPS - feeBps);
    OutweighedArith(g, BPS - feeBps, Lift(ImpactBps(termBps, feeBps), feeBps));
    SquaresWeighIff(Lift(ImpactBps(termBps, feeBps), feeBps), g, BPS - feeBps);
  }

  lemma LowLift(imp: nat, g: nat, r: nat)
    requires imp * BPS <= 2 * g
    ensures (2 * BPS * BPS + imp * r) * BPS <= 2 * (BPS * BPS * BPS + g * r)
  {
    MulMono(imp * BPS, 2 * g, r);
    Swap2(imp, BPS, r);
    Assoc(2, g, r);
  }

  lemma ExampleIsBracket()
    ensures IsBracket(EXAMPLE, State(0, 1_000_000), [100_000], 10_935, [180_163], 200)
    ensures BuyAll(EXAMPLE, State(0, 1_000_000), [100_000]) == State(99_000, 819_837)
    ensures Bought(EXAMPLE, State(99_000, 819_837), 10_935) == State(109_825, 802_087)
  {
    var buys: seq<U128>, sells: seq<U128> := [100_000], [180_163];
    ExampleFirstBuy();
    ExampleCappedSlice();
    ExampleCappedSell();
    assert Bought(EXAMPLE, State(0, 1_000_000), 100_000) == State(99_000, 819_837);
    assert Bought(EXAMPLE, State(99_000, 819_837), 10_935) == State(109_825, 802_087);
    assert buys[1..] == [] && sells[1..] == [];
    assert BuyAll(EXAMPLE, State(0, 1_000_000), buys) == State(99_000, 819_837);
    assert Sum(sells) == 180_163;
  }

  /** On the example's numbers, with a term of twice the fee and half of each fee going to the creator, the creator's
      bracket around the largest slice ends 865 above what it paid: a bound on the impact by the venue's fee alone does
      not stop it. */
  lemma CreatorBracketPays()
    ensures IsBracket(EXAMPLE, State(0, 1_000_000), [100_000], 10_935, [180_163], 200)
    ensures CreatorGets(EXAMPLE, State(0, 1_000_000), [100_000], 10_935, [180_163], 5_000, 0) == Sum([100_000]) + 865
    ensures !Outweighed(ImpactBps(200, EXAMPLE.feeBps), EXAMPLE.feeBps, 5_000)
  {
    ExampleIsNotOutweighed();
    ExampleIsBracket();
    ExampleBuyKept();
    ExampleSellKept();
  }

  lemma ExampleIsNotOutweighed()
    ensures !Outweighed(ImpactBps(200, EXAMPLE.feeBps), EXAMPLE.feeBps, 5_000)
  {
    var fee := EXAMPLE.feeBps;
    SquaresWeighIff(Lift(ImpactBps(200, fee), fee), KeptRate(5_000, fee), BPS - fee);
  }

  lemma ExampleBuyKept()
    ensures BuyFees(EXAMPLE, State(0, 1_000_000), [100_000]) == 1_000
    ensures BuysKept(EXAMPLE, State(0, 1_000_000), [100_000], 5_000, 0) == 500
  {
    ExampleFirstBuy();
    var buys: seq<U128> := [100_000];
    assert buys[1..] == [] && KeptOf(1_000, 5_000, 0) == 500;
  }

  lemma ExampleSellKept()
    ensures SellFees(EXAMPLE, State(109_825, 802_087), [180_163]) == 1_009
    ensures SellsKept(EXAMPLE, State(109_825, 802_087), [180_163], 5_000, 0) == 504
    ensures Received(EXAMPLE, State(109_825, 802_087), [180_163]) == 99_860
  {
    ExampleCappedSell();
    var sells: seq<U128> := [180_163];
    assert sells[1..] == [] && KeptOf(1_009, 5_000, 0) == 504;
  }
}
