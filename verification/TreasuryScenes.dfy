/** What single calls do to a treasury without targets and without rewards due: the steps the example runs are made
    of. */
module TreasuryScenes {
  import opened Arith
  import opened Results
  import opened Staking
  import opened TreasurySpec
  import opened TreasurySolvency
  import opened TreasuryRuns

  const CONFIG := Config(Rules(1, 1, 1, 8), 16, 1)
  const TERMS := TreasurySpec.Terms(1, 1, 100, 0, 0)

  // ---- runs, one call at a time -------------------------------------------------------

  /** A run with one more call: where it ends, whether it fits, and how many stakes were late. */
  lemma {:induction false} RunOneMore(t: Treasury, calls: seq<Call>, call: Call)
    ensures Run(t, calls + [call]) == Step(Run(t, calls), call)
    ensures RunFits(t, calls + [call]) <==> RunFits(t, calls) && Fits(Run(t, calls), call)
    ensures RunCountsVtrs(t, calls + [call]) <==> RunCountsVtrs(t, calls) && CountsVtrs(Run(t, calls), call)
    ensures LateStakes(t, calls + [call]) == LateStakes(t, calls) + LateOf(Run(t, calls), call)
    ensures Given(t, calls + [call]) == Given(t, calls) + GivenBy(Run(t, calls), call)
    decreases |calls|
  {
    var all := calls + [call];
    if calls == [] {
      assert all[0] == call && all[1..] == [];
    } else {
      assert all[0] == calls[0] && all[1..] == calls[1..] + [call];
      RunOneMore(Step(t, calls[0]), calls[1..], call);
    }
  }

  // ---- fees ---------------------------------------------------------------------------

  /** A launch's record at its first fee. */
  function Opened(t: Treasury, pending: nat): Record {
    Record(pending, 0, 0, 0, 0, t.now, t.terms.dormancyBlocks, Active)
  }

  lemma FirstFee(t: Treasury, id: nat, amount: nat)
    requires !t.funded && t.recs == map[] && 0 < amount && t.config.rules.ed <= t.vtrs + amount <= U128_MAX
    ensures Step(t, FeeNoted(id, amount))
            == t.(vtrs := t.vtrs + amount, funded := true,
                  recs := map[][id := Opened(t, SatSub(amount, t.config.rules.ed))])
  {
  }

  lemma NewFee(t: Treasury, id: nat, amount: nat)
    requires t.funded && id !in t.recs && 0 < amount && t.config.rules.ed <= t.vtrs + amount <= U128_MAX
    ensures Step(t, FeeNoted(id, amount))
            == t.(vtrs := t.vtrs + amount, recs := t.recs[id := Opened(t, amount)])
  {
  }

  // ---- stake --------------------------------------------------------------------------

  lemma NoTargets(t: Treasury)
    requires t.targets == []
    ensures Recooperate(t) == t.(stale := true)
  {
    assert Survivors([], t.cooperable) == [];
  }

  function WithMore(s: Option<Stake>, value: nat): Stake {
    if s.Some? then s.value.(active := s.value.active + value) else Stake(value, [], false, [])
  }

  /** A launch's first stake, minting `m` shares checkpointed at `debt`. */
  lemma FirstStake(t: Treasury, id: nat, m: nat, debt: nat)
    requires t.targets == [] && Harvest(t).Ok? && id in t.recs
    requires var r := t.recs[id];
             && r.status == Active && r.shares == 0 && r.lnrgDebt == 0 && r.lnrgAccrued == 0
             && 0 < r.pending && t.terms.minStake <= r.pending && HeldBy(t.stake) + r.pending <= t.vtrs
             && t.config.rules.ed <= ActiveOf(t.stake) + r.pending
             && SharesFor(r.pending, t.totalShares, ActiveOf(t.stake)) == Ok(m) && m <= U128_MAX
    requires t.totalShares != 0 ==> ActiveOf(t.stake) != 0
    requires OwedGross(Harvest(t).value.perShare, m) == Ok(debt)
    ensures StakePending(t, id).Ok?
    ensures Step(t, StakeCall(id))
            == Harvest(t).value.(recs := t.recs[id := t.recs[id].(pending := 0, shares := m, lnrgDebt := debt)],
                                 totalShares := SatAdd(t.totalShares, m),
                                 stake := Some(WithMore(t.stake, t.recs[id].pending)), stale := true)
  {
    var t1, r := Harvest(t).value, t.recs[id];
    assert Settle(t1.perShare, r) == Ok(r);
    BondsWithMore(t1, r.pending);
    NoTargets(Bonded(t1, id, r.(pending := 0, shares := m, lnrgDebt := debt), m, WithMore(t.stake, r.pending)));
  }

  lemma BondsWithMore(t: Treasury, value: nat)
    requires HeldBy(t.stake) + value <= t.vtrs && t.config.rules.ed <= ActiveOf(t.stake) + value
    ensures BondMore(t, value) == Ok(WithMore(t.stake, value))
  {
    if t.stake.None? {
      assert Amounts([]) == 0;
    }
  }

  // ---- retire -------------------------------------------------------------------------

  /** A launch without rewards leaves, `v` of its stake unbonded and the rest swept if it cannot stand. */
  lemma PlainRetire(t: Treasury, id: nat, lastTrade: nat, v: nat)
    requires id in t.recs && t.recs[id].status == Active && t.recs[id].dormancy <= SatSub(t.now, lastTrade)
    requires Unattributed(t) == 0 && t.perShare == 0 && t.recs[id].lnrgDebt == 0 && t.recs[id].lnrgAccrued <= U128_MAX
    requires t.stake.Some? && !t.stake.value.cooperating && t.stake.value.targets == []
    requires ValueOf(t.recs[id].shares, t.totalShares, ActiveOf(t.stake)) == Ok(v) && 0 < v <= ActiveOf(t.stake)
    requires |t.queue| < t.config.rules.maxChunks && |t.stake.value.unlocking| < t.config.rules.maxChunks
    ensures var l, due := t.stake.value, t.era + t.config.rules.bondingDuration;
            var taken := Swept(t.config.rules, l.active, v);
            && Retire(t, id, Some(lastTrade)).Ok?
            && Step(t, RetireCall(id, Some(lastTrade)))
               == t.(recs := t.recs[id := Redeemed(t.recs[id], Retiring(due))],
                     totalShares := SatSub(t.totalShares, t.recs[id].shares), queue := t.queue + [Entry(id, due, v)],
                     stake := Some(Stake(l.active - taken, PushChunk(l.unlocking, due, taken), false, [])))
  {
    var r := t.recs[id];
    assert r.shares * t.perShare == 0;
    assert Settle(t.perShare, r) == Ok(r);
    assert Amounts([]) == 0;
  }

  // ---- slash --------------------------------------------------------------------------

  lemma PlainSlash(t: Treasury, bps: nat)
    requires t.stake.Some? && t.stake.value.targets == [] && bps <= BPS
    ensures var l := t.stake.value;
            var l' := Stake(Cut(l.active, bps), CutAll(l.unlocking, bps), l.cooperating, []);
            && TotalOf(l') <= TotalOf(l)
            && Step(t, Slashed(bps)) == t.(stake := Some(l'), vtrs := SatSub(t.vtrs, TotalOf(l) - TotalOf(l')))
  {
    assert Amounts([]) == 0;
    SlashLowers(t.stake.value, bps);
  }

  lemma OneAmount(c: (nat, nat))
    ensures Amounts([]) == 0 && Amounts([c]) == c.1
  {
    assert [c][..0] == [];
  }
}
