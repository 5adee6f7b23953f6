/** The curve as the treasury's venue: its buys honour what a slice relies on, and who can gain around a slice. */
module TreasuryVenue {
  import opened Arith
  import opened Results
  import opened Ledger
  import L = LaunchpadSpec
  import E = LaunchpadEffects
  import R = LaunchpadRuns
  import T = TreasurySpec
  import LaunchTerms
  import Curve
  import CurveHistory
  import CurveTrading
  import CurveBrackets
  import CreatorBrackets

  /** The vault's own balance around one buy: it pays what was used, and its launch's fee part comes back. */
  lemma VaultPays(p: L.Pad, p': L.Pad, id: nat, b: Curve.BuyQuote, sinkOpen: bool)
    requires id in p.launches && id in p.curves && E.BoughtAt(p, p', L.Vault, id, b, 0, false, sinkOpen)
    ensures var f := E.Divided(p.config, p.launches[id].curve, b.fee, sinkOpen,
                               E.VaultAt(p.quote, L.Vault, b.quoteUsed)).treasury;
            Bal(p'.quote, L.Vault) + b.quoteUsed == Bal(p.quote, L.Vault) + f && (f > 0 ==> sinkOpen)
  {
  }

  lemma VaultBuysBeforeSeed(p: L.Pad, id: nat, y: U128, env: L.Env)
    requires R.LaunchOk(p, id) && env.hook == Some((y, 0))
    requires L.BuyBeforeSeed(p, L.Vault, id, y, 0, false, env).Ok?
    ensures var b := L.BuyBeforeSeed(p, L.Vault, id, y, 0, false, env).value;
            && 0 < b.quoteUsed <= y && b.treasuryFee <= b.quoteUsed && (b.treasuryFee > 0 ==> env.sinkOpen)
            && Bal(b.pad.quote, L.Vault) + b.quoteUsed == Bal(p.quote, L.Vault) + b.treasuryFee
            && R.LaunchOk(b.pad, id)
  {
    R.BuyEffect(p, L.Vault, id, y, 0, false, env);
    E.BuyExactly(p, L.Vault, id, y, 0, false, env);
    var f, b := L.BuyBeforeSeed(p, L.Vault, id, y, 0, false, env).value, E.BuyPrice(p, id, y).value;
    CurveHistory.BuyFits(LaunchTerms.TermsOf(p.config, p.launches[id].curve), L.CurveOf(p.curves[id]), y);
    VaultPays(p, f.pad, id, b, env.sinkOpen);
  }

  /** A slice bought on the curve takes something and no more than offered, sends back at most what it took and only
      to a launch that takes fees, and moves the vault's balance by exactly the difference: crossing or not, seeded or
      not. */
  lemma CurveBuyIsDeliverable(t: T.Treasury, p: L.Pad, id: nat, y: U128, env: L.Env)
    requires R.LaunchOk(p, id) && env.hook == Some((y, 0)) && env.sinkOpen == T.TakesFees(t, id)
    requires L.Buy(p, L.Vault, id, y, 0, false, env).Ok? && Bal(p.quote, L.Vault) == t.vtrs && y + T.Locked(t) <= t.vtrs
    ensures var b := L.Buy(p, L.Vault, id, y, 0, false, env).value;
            && T.Deliverable(t, id, y, T.Bought(b.quoteUsed, b.treasuryFee))
            && T.AfterVenue(t, id, b.quoteUsed, b.treasuryFee).vtrs == Bal(b.pad.quote, L.Vault)
  {
    VaultBuysBeforeSeed(p, id, y, env);
    var b := L.BuyBeforeSeed(p, L.Vault, id, y, 0, false, env).value;
    if b.crossed && L.Seed(b.pad, id, env.seeding).Ok? {
      SeedLeavesVault(b.pad, id, env.seeding);
    }
  }

  lemma SeedLeavesVault(p: L.Pad, id: nat, seeding: L.Seeding)
    requires L.Seed(p, id, seeding).Ok?
    ensures Bal(L.Seed(p, id, seeding).value.quote, L.Vault) == Bal(p.quote, L.Vault)
  {
  }

  /** A slice the vault sizes on the curve, between buys and sells of one trader. */
  predicate AroundSlice(terms: Curve.Terms, s: Curve.State, buys: seq<U128>, slice: U128, sells: seq<U128>,
                        pendingBurn: U128, termBps: nat)
  {
    var s1 := CurveBrackets.BuyAll(terms, s, buys);
    && CurveBrackets.IsBracket(terms, s, buys, slice, sells, termBps)
    && slice == T.SliceOf(pendingBurn, T.Venue(Curve.QuoteSide(terms, s1), terms.feeBps), termBps)
  }

  /** Whoever buys before the vault's slice and sells at most the same tokens after it, in however many trades, gets
      back less than they paid, whatever the slice's launch holds to burn and however the impact term is set. Fees
      that come back to a trader outside the curve are not counted: see below for the launch's own creator. */
  lemma SliceCannotBeBracketed(terms: Curve.Terms, s: Curve.State, buys: seq<U128>, slice: U128,
                               sells: seq<U128>, pendingBurn: U128, termBps: nat)
    requires AroundSlice(terms, s, buys, slice, sells, pendingBurn, termBps)
    ensures var s2 := CurveTrading.Bought(terms, CurveBrackets.BuyAll(terms, s, buys), slice);
            CurveBrackets.Received(terms, s2, sells) < CurveBrackets.Sum(buys)
  {
    CurveBrackets.BracketInPartsNeverPays(terms, s, buys, slice, sells, termBps);
  }

  /** The launch's own creator, who claims its share of every fee, gains less than two units a trade around a slice
      while the treasury's term is at most twice the fee that protocol and treasury really keep. */
  lemma CreatorCannotBracketSlice(terms: Curve.Terms, s: Curve.State, buys: seq<U128>, slice: U128,
                                  sells: seq<U128>, pendingBurn: U128, termBps: nat,
                                  protocolBps: nat, treasuryBps: nat)
    requires AroundSlice(terms, s, buys, slice, sells, pendingBurn, termBps) && protocolBps + treasuryBps <= BPS
    requires termBps * BPS <= 2 * CurveBrackets.KeptRate(protocolBps + treasuryBps, terms.feeBps)
    ensures CurveBrackets.CreatorGets(terms, s, buys, slice, sells, protocolBps, treasuryBps)
            < CurveBrackets.Sum(buys) + 2 * (|buys| + |sells|)
  {
    CurveBrackets.LowTermIsOutweighed(termBps, terms.feeBps, protocolBps + treasuryBps);
    CurveBrackets.CreatorBracketNeverPays(terms, s, buys, slice, sells, termBps, protocolBps, treasuryBps);
  }

  /** Past that line by a margin the creator does gain around a slice, four units in two trades, on any terms a deep
      curve can have. */
  lemma CreatorBracketsSlice(terms: Curve.Terms, termBps: nat, protocolBps: nat, treasuryBps: nat)
    returns (s: Curve.State, paid: U128, slice: U128, tokens: U128)
    requires terms.feeBps < BPS && protocolBps + treasuryBps <= BPS
    requires terms.virtualQuote <= CreatorBrackets.ROOM && terms.tokenFloor <= CreatorBrackets.ROOM
    requires CreatorBrackets.PastMargin(CurveTrading.ImpactBps(termBps, terms.feeBps), terms.feeBps,
                                        protocolBps + treasuryBps)
    ensures AroundSlice(terms, s, [paid], slice, [tokens], slice, termBps)
    ensures CurveBrackets.CreatorGets(terms, s, [paid], slice, [tokens], protocolBps, treasuryBps)
            >= CurveBrackets.Sum([paid]) + 4
  {
    paid := CreatorBrackets.PAID * BPS;
    s, slice, tokens := CreatorBrackets.CreatorBracketPaysPast(terms, termBps, protocolBps, treasuryBps);
  }
}
