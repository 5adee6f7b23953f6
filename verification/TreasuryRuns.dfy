/** Runs of the treasury: every call, every fee, and the chain's own steps, in any order. */
module TreasuryRuns {
  import opened Arith
  import opened Results
  import opened Ledger
  import opened Staking
  import opened TreasurySpec
  import opened TreasurySolvency
  import opened TreasuryBacking
  import opened TreasuryRetirement
  import opened TreasuryFinalize
  import opened TreasuryShares

  // ---- cooperation tracks the stake -----------------------------------------------------

  /** A cooperation that is not flagged stale adds up to the active stake, less at most one unit a target. */
  predicate CoopOk(t: Treasury) {
    && |t.targets| <= t.config.maxTargets
    && (IsCooperating(t.stake) ==> |t.stake.value.targets| <= t.config.maxTargets)
    && (t.stake.Some? && !t.stale ==> Tracks(t.stake.value))
  }

  lemma {:induction false} SurvivorsAreTargets(targets: seq<nat>, cooperable: set<nat>)
    ensures |Survivors(targets, cooperable)| <= |targets|
    ensures forall v :: v in Survivors(targets, cooperable) ==> v in cooperable && v in targets
  {
    if targets != [] {
      SurvivorsAreTargets(targets[..|targets| - 1], cooperable);
    }
  }

  /** The stake is split evenly over the cooperable targets, and over no others. */
  ghost predicate SpreadOver(p: Pairs, active: nat, targets: seq<nat>, cooperable: set<nat>) {
    && EvenlySplit(p, active) && |p| <= |targets|
    && (forall i :: 0 <= i < |p| ==> p[i].0 in targets && p[i].0 in cooperable)
    && (forall v :: v in targets && v in cooperable ==> exists i :: 0 <= i < |p| && p[i].0 == v)
  }

  /** A retarget succeeds exactly on enough stake, a cooperable target and a good reputation, and then matches the stake
      to the unit, evenly over the cooperable targets. */
  lemma RetargetIff(t: Treasury)
    requires t.config.rules.minCoopBond > 0
    ensures Retarget(t).Ok? <==>
              && ActiveOf(t.stake) >= t.config.rules.minCoopBond && t.reputationOk
              && exists v :: v in t.targets && v in t.cooperable
    ensures Retarget(t).Ok? ==>
              var l := Retarget(t).value.stake;
              l.Some? && l.value.cooperating && Cooperated(l.value) == l.value.active == ActiveOf(t.stake)
              && 0 < |l.value.targets| <= |t.targets| && !Retarget(t).value.stale
              && SpreadOver(l.value.targets, l.value.active, t.targets, t.cooperable)
  {
    var survivors := Survivors(t.targets, t.cooperable);
    SurvivorsAreTargets(t.targets, t.cooperable);
    if survivors != [] {
      assert survivors[0] in survivors;
    }
    forall v | v in t.targets && v in t.cooperable
      ensures v in survivors
    {
      SurvivorsKeep(t.targets, t.cooperable, v);
    }
    if ActiveOf(t.stake) >= t.config.rules.minCoopBond && survivors != [] {
      CooperateIffReputable(t.config.rules, t.stake, survivors, t.cooperable, t.reputationOk);
    }
  }

  lemma {:induction false} SurvivorsKeep(targets: seq<nat>, cooperable: set<nat>, v: nat)
    requires v in targets && v in cooperable
    ensures v in Survivors(targets, cooperable)
  {
    if v != targets[|targets| - 1] {
      SurvivorsKeep(targets[..|targets| - 1], cooperable, v);
    }
  }

  lemma RecooperateCoop(t: Treasury)
    requires t.config.rules.minCoopBond > 0 && |t.targets| <= t.config.maxTargets
    requires IsCooperating(t.stake) ==> |t.stake.value.targets| <= t.config.maxTargets
    ensures CoopOk(Recooperate(t))
  {
    RetargetIff(t);
  }

  lemma StakeCoop(t: Treasury, id: nat)
    requires t.config.rules.minCoopBond > 0 && Solvent(t) && CoopOk(t) && StakePending(t, id).Ok?
    ensures CoopOk(StakePending(t, id).value)
  {
    StakeIsBond(t, id);
    HarvestSolvent(t);
    var t1 := Harvest(t).value;
    var rec := Settle(t1.perShare, t.recs[id]).value;
    RecordReserved(t1, id);
    BondPendingIs(t1, id, rec);
    BondTakesAll(t1, rec.pending);
    var m := SharesFor(rec.pending, t1.totalShares, ActiveOf(t1.stake)).value;
    RecooperateCoop(Bonded(t1, id, Minted(t1.perShare, rec, 0, m).value, m, BondMore(t1, rec.pending).value));
  }

  lemma UnstakeSizes(t: Treasury, v: nat)
    requires Unstake(t, v).Ok? && CoopOk(t)
    ensures Unstake(t, v).value.cooperating ==> |Unstake(t, v).value.targets| <= t.config.maxTargets
  {
  }

  lemma RetireCoop(t: Treasury, id: nat, lastTrade: Option<nat>)
    requires t.config.rules.minCoopBond > 0 && CoopOk(t) && Retire(t, id, lastTrade).Ok?
    ensures CoopOk(Retire(t, id, lastTrade).value)
  {
    RetireIsRedeem(t, id, lastTrade);
    var t1 := Harvest(t).value;
    var rec := Settle(t1.perShare, t.recs[id]).value;
    var t2 := RedeemShares(t1, id, rec).value;
    RedeemCoop(t1, id, rec);
    if IsCooperating(t2.stake) {
      RecooperateCoop(t2);
    }
  }

  lemma RedeemCoop(t: Treasury, id: nat, rec: Record)
    requires CoopOk(t) && RedeemShares(t, id, rec).Ok?
    ensures var t' := RedeemShares(t, id, rec).value;
            && t'.targets == t.targets && t'.config == t.config
            && (IsCooperating(t'.stake) ==> |t'.stake.value.targets| <= t.config.maxTargets)
  {
    var v := ValueOf(rec.shares, t.totalShares, ActiveOf(t.stake)).value;
    if v != 0 {
      UnstakeSizes(t, v);
    }
  }

  lemma SlashCoop(t: Treasury, bps: nat)
    requires CoopOk(t) && SlashVault(t, bps).Ok?
    ensures CoopOk(SlashVault(t, bps).value)
  {
    if !t.stale {
      SlashTracks(t.stake.value, bps);
    }
  }

  // ---- calls ------------------------------------------------------------------------------

  datatype Call =
    | FeeNoted(launch: nat, amount: nat)
    | StakeCall(launch: nat)
    | RetargetCall
    | HarvestCallNow
    | CompoundCall(launch: nat, market: Market)
    | RetireCall(launch: nat, lastTrade: Option<nat>)
    | FinalizeCall(launch: nat)
    | SetTermsCall(terms: Terms)
    | SetTargetsCall(targets: seq<nat>)
    | Slashed(bps: nat)
    | Rewarded(amount: nat)
    | Donated(amount: nat)
    | NextEra
    | NextBlock
    | ValidatorsChange(cooperable: set<nat>)
    | ReputationChanges(ok: bool)

  type Terms = TreasurySpec.Terms

  function Dispatch(t: Treasury, call: Call): Result<Treasury, Error> {
    match call
    case FeeNoted(id, amount) => Fee(t, id, amount)
    case StakeCall(id) => StakePending(t, id)
    case RetargetCall => Retarget(t)
    case HarvestCallNow => HarvestCall(t)
    case CompoundCall(id, m) => Compound(t, id, m)
    case RetireCall(id, lastTrade) => Retire(t, id, lastTrade)
    case FinalizeCall(id) => Finalize(t, id)
    case SetTermsCall(terms) => SetTerms(t, terms)
    case SetTargetsCall(targets) => SetTargets(t, targets)
    case Slashed(bps) => SlashVault(t, bps)
    case Rewarded(amount) => Reward(t, amount)
    case Donated(amount) => Donate(t, amount)
    case NextEra => Ok(t.(era := t.era + 1))
    case NextBlock => Ok(t.(now := t.now + 1))
    case ValidatorsChange(c) => Ok(t.(cooperable := c))
    case ReputationChanges(ok) => Ok(t.(reputationOk := ok))
  }

  /** A refused call leaves no trace. */
  function Step(t: Treasury, call: Call): Treasury {
    match Dispatch(t, call)
    case Ok(t') => t'
    case Err(_) => t
  }

  function Run(t: Treasury, calls: seq<Call>): Treasury
    decreases |calls|
  {
    if calls == [] then t else Run(Step(t, calls[0]), calls[1..])
  }

  /** No VTRS is miscounted: a slice is read in full, and finalizing overpays nobody. */
  predicate CountsVtrs(t: Treasury, call: Call) {
    match call
    case CompoundCall(id, m) => Compound(t, id, m).Ok? ==> Measurable(t, id, m)
    case FinalizeCall(id) => Finalize(t, id).Ok? ==> Creditable(t)
    case _ => true
  }

  /** No share is miscounted: a stake's mint leaves the total exact. */
  predicate CountsShares(t: Treasury, call: Call) {
    call.StakeCall? && StakePending(t, call.launch).Ok? ==> Roomy(t, call.launch)
  }

  /** Nothing saturates. */
  predicate Fits(t: Treasury, call: Call) {
    CountsVtrs(t, call) && CountsShares(t, call)
  }

  predicate RunFits(t: Treasury, calls: seq<Call>)
    decreases |calls|
  {
    calls == [] || (Fits(t, calls[0]) && RunFits(Step(t, calls[0]), calls[1..]))
  }

  predicate RunCountsVtrs(t: Treasury, calls: seq<Call>)
    decreases |calls|
  {
    calls == [] || (CountsVtrs(t, calls[0]) && RunCountsVtrs(Step(t, calls[0]), calls[1..]))
  }

  // ---- solvency, queue and cooperation -----------------------------------------------------

  ghost predicate Inv(t: Treasury) {
    t.config.rules.minCoopBond > 0 && Solvent(t) && QueueOk(t) && CoopOk(t)
  }

  lemma ConfigStands(t: Treasury, call: Call)
    ensures Step(t, call).config == t.config
  {
    if Dispatch(t, call).Ok? {
      match call
      case StakeCall(id) => StakeShape(t, id);
      case CompoundCall(id, m) => WorkShape(t, id, m);
      case RetireCall(id, lastTrade) => RetireConfig(t, id, lastTrade);
      case _ =>
    }
  }

  lemma RetireConfig(t: Treasury, id: nat, lastTrade: Option<nat>)
    requires Retire(t, id, lastTrade).Ok?
    ensures Retire(t, id, lastTrade).value.config == t.config
  {
    RetireIsRedeem(t, id, lastTrade);
    var t1 := Harvest(t).value;
    RedeemIs(t1, id, Settle(t1.perShare, t.recs[id]).value);
  }

  lemma FinalizeCoop(t: Treasury, id: nat)
    requires CoopOk(t) && Finalize(t, id).Ok?
    ensures CoopOk(Finalize(t, id).value)
  {
  }

  lemma CompoundCoop(t: Treasury, id: nat, m: Market)
    requires CoopOk(t) && Compound(t, id, m).Ok?
    ensures CoopOk(Compound(t, id, m).value)
  {
    WorkShape(t, id, m);
  }

  /** A call on no launch's record: settings, harvest, retarget, the chain's own steps. */
  predicate Quiet(call: Call) {
    !call.FeeNoted? && !call.StakeCall? && !call.CompoundCall? && !call.RetireCall? && !call.FinalizeCall?
  }

  /** What such a call leaves alone. */
  lemma QuietShape(t: Treasury, call: Call)
    requires Quiet(call) && Dispatch(t, call).Ok?
    ensures var t' := Dispatch(t, call).value;
            && t'.recs == t.recs && t'.queue == t.queue && t'.config == t.config && t'.funded == t.funded
            && t'.totalShares == t.totalShares
  {
    match call
    case RetargetCall => RetargetKeepsTotals(t);
    case SetTargetsCall(targets) => RetargetKeepsTotals(t.(targets := targets));
    case _ => ChainShape(t, call);
  }

  lemma ChainShape(t: Treasury, call: Call)
    requires Quiet(call) && !call.RetargetCall? && !call.SetTargetsCall? && Dispatch(t, call).Ok?
    ensures var t' := Dispatch(t, call).value;
            && t'.recs == t.recs && t'.queue == t.queue && t'.config == t.config && t'.funded == t.funded
            && t'.totalShares == t.totalShares
  {
  }

  lemma SameRecordsQueue(t: Treasury, t': Treasury)
    requires QueueOk(t) && t'.recs == t.recs && t'.queue == t.queue && t'.config == t.config
    ensures QueueOk(t')
  {
    forall i | 0 <= i < |t'.queue|
      ensures EntryOk(t'.recs, t'.queue[i])
    {
      assert EntryOk(t.recs, t.queue[i]);
    }
    forall i | i in t'.recs
      ensures RecordOk(t'.recs, t'.queue, i)
    {
      assert RecordOk(t.recs, t.queue, i);
    }
  }

  lemma QuietKeepsInv(t: Treasury, call: Call)
    requires Inv(t) && Quiet(call) && Dispatch(t, call).Ok?
    ensures Inv(Dispatch(t, call).value)
  {
    QuietShape(t, call);
    SameRecordsQueue(t, Dispatch(t, call).value);
    QuietSolvent(t, call);
    QuietCoop(t, call);
  }

  lemma QuietSolvent(t: Treasury, call: Call)
    requires Solvent(t) && Quiet(call) && Dispatch(t, call).Ok?
    ensures Solvent(Dispatch(t, call).value)
  {
    match call
    case HarvestCallNow => HarvestSolvent(t);
    case RetargetCall => RetargetKeepsTotals(t);
    case SetTargetsCall(targets) => RetargetKeepsTotals(t.(targets := targets));
    case Slashed(bps) => SlashSolvent(t, bps);
    case _ =>
  }

  lemma QuietCoop(t: Treasury, call: Call)
    requires t.config.rules.minCoopBond > 0 && CoopOk(t) && Quiet(call) && Dispatch(t, call).Ok?
    ensures CoopOk(Dispatch(t, call).value)
  {
    match call
    case RetargetCall => RecooperateCoop(t);
    case SetTargetsCall(targets) => RecooperateCoop(t.(targets := targets));
    case Slashed(bps) => SlashCoop(t, bps);
    case _ =>
  }

  lemma LaunchKeepsInv(t: Treasury, call: Call)
    requires Inv(t) && !Quiet(call) && CountsVtrs(t, call) && Dispatch(t, call).Ok?
    ensures Inv(Dispatch(t, call).value)
  {
    ConfigStands(t, call);
    match call
    case FeeNoted(id, amount) =>
      FeeSolvent(t, id, amount);
      FeeQueue(t, id, amount);
    case StakeCall(id) =>
      StakeBondsAll(t, id);
      StakeQueue(t, id);
      StakeCoop(t, id);
    case CompoundCall(id, m) =>
      CompoundSolvent(t, id, m);
      CompoundQueue(t, id, m);
      CompoundCoop(t, id, m);
    case RetireCall(id, lastTrade) =>
      RetireSolvent(t, id, lastTrade);
      RetireQueue(t, id, lastTrade);
      RetireCoop(t, id, lastTrade);
    case FinalizeCall(id) =>
      FinalizeSolvent(t, id);
      FinalizeQueue(t, id);
      FinalizeCoop(t, id);
  }

  /** Every call and every step of the chain that miscounts no VTRS keeps the vault solvent, the queue exact and the
      cooperation in track. */
  lemma StepKeepsInv(t: Treasury, call: Call)
    requires Inv(t) && CountsVtrs(t, call)
    ensures Inv(Step(t, call))
  {
    if Dispatch(t, call).Ok? {
      if Quiet(call) {
        QuietKeepsInv(t, call);
      } else {
        LaunchKeepsInv(t, call);
      }
    }
  }

  // ---- backing and ownership ---------------------------------------------------------------

  /** Whether a call is a stake that took its checkpoint after the accumulator had moved. */
  function LateOf(t: Treasury, call: Call): nat {
    if call.StakeCall? && Dispatch(t, call).Ok? && Step(t, call).perShare > 0 then 1 else 0
  }

  function LateStakes(t: Treasury, calls: seq<Call>): nat
    decreases |calls|
  {
    if calls == [] then 0 else LateOf(t, calls[0]) + LateStakes(Step(t, calls[0]), calls[1..])
  }

  lemma QuietBacked(t: Treasury, call: Call, late: nat)
    requires Backed(t, late) && Quiet(call) && Dispatch(t, call).Ok?
    ensures Backed(Dispatch(t, call).value, late)
  {
    QuietShape(t, call);
    if call.HarvestCallNow? {
      HarvestBacked(t, late);
    } else {
      QuietClaims(t, call);
      UnmovedBacked(t, Dispatch(t, call).value, late);
    }
  }

  lemma QuietClaims(t: Treasury, call: Call)
    requires Quiet(call) && !call.HarvestCallNow? && Dispatch(t, call).Ok?
    ensures Dispatch(t, call).value.perShare == t.perShare && Dispatch(t, call).value.accounted == t.accounted
  {
  }

  lemma StepKeepsBacked(t: Treasury, call: Call, late: nat)
    requires Solvent(t) && Backed(t, late) && CountsShares(t, call)
    ensures Backed(Step(t, call), late + LateOf(t, call))
  {
    if Dispatch(t, call).Ok? {
      if Quiet(call) {
        QuietBacked(t, call, late);
      } else {
        match call
        case FeeNoted(id, amount) => FeeBacked(t, id, amount, late);
        case StakeCall(id) => StakeBacked(t, id, late);
        case CompoundCall(id, m) => CompoundBacked(t, id, m, late);
        case RetireCall(id, lastTrade) => RetireBacked(t, id, lastTrade, late);
        case FinalizeCall(id) => FinalizeBacked(t, id, late);
      }
    }
  }

  lemma QuietActive(t: Treasury, call: Call)
    requires Quiet(call) && Dispatch(t, call).Ok?
    ensures ActiveOf(Dispatch(t, call).value.stake) <= ActiveOf(t.stake)
  {
    match call
    case RetargetCall => RetargetKeepsTotals(t);
    case SetTargetsCall(targets) => RetargetKeepsTotals(t.(targets := targets));
    case Slashed(bps) => SlashLowers(t.stake.value, bps);
    case _ =>
  }

  lemma FinalizeOwned(t: Treasury, id: nat)
    requires Finalize(t, id).Ok?
    ensures ActiveOf(Finalize(t, id).value.stake) == ActiveOf(t.stake)
    ensures Finalize(t, id).value.totalShares == t.totalShares
  {
    WithdrawTakesMatured(t.stake, t.era);
  }

  lemma StepKeepsOwned(t: Treasury, call: Call)
    requires Solvent(t) && SharesOk(t) && StakeOwned(t) && CountsShares(t, call)
    ensures StakeOwned(Step(t, call))
  {
    if Dispatch(t, call).Ok? {
      if Quiet(call) {
        QuietShape(t, call);
        QuietActive(t, call);
      } else {
        match call
        case FeeNoted(id, amount) =>
        case StakeCall(id) => StakeKeepsOwned(t, id);
        case CompoundCall(id, m) => WorkShape(t, id, m);
        case RetireCall(id, lastTrade) => RetireKeepsOwned(t, id, lastTrade);
        case FinalizeCall(id) => FinalizeOwned(t, id);
      }
    }
  }

  // ---- conservation --------------------------------------------------------------------------

  /** What a step of the chain sends the vault outside every record. */
  function GivenBy(t: Treasury, call: Call): nat {
    if call.Donated? && Dispatch(t, call).Ok? then call.amount else 0
  }

  function Given(t: Treasury, calls: seq<Call>): nat
    decreases |calls|
  {
    if calls == [] then 0 else GivenBy(t, calls[0]) + Given(Step(t, calls[0]), calls[1..])
  }

  lemma QuietConserves(t: Treasury, call: Call)
    requires Solvent(t) && Quiet(call) && Dispatch(t, call).Ok?
    ensures Surplus(Dispatch(t, call).value) == Surplus(t) + GivenBy(t, call)
  {
    match call
    case HarvestCallNow => HarvestSolvent(t);
    case RetargetCall => RetargetKeepsTotals(t);
    case SetTargetsCall(targets) => RetargetKeepsTotals(t.(targets := targets));
    case Slashed(bps) => SlashSolvent(t, bps);
    case _ => ChainConserves(t, call);
  }

  lemma ChainConserves(t: Treasury, call: Call)
    requires Quiet(call) && !call.HarvestCallNow? && !call.RetargetCall? && !call.SetTargetsCall? && !call.Slashed?
    requires Dispatch(t, call).Ok?
    ensures Surplus(Dispatch(t, call).value) == Surplus(t) + GivenBy(t, call)
  {
  }

  lemma LaunchConserves(t: Treasury, call: Call)
    requires Inv(t) && t.funded && !Quiet(call) && Dispatch(t, call).Ok?
    ensures Surplus(Dispatch(t, call).value) == Surplus(t) <==> CountsVtrs(t, call)
  {
    match call
    case FeeNoted(id, amount) => FeeSolvent(t, id, amount);
    case StakeCall(id) => StakeBondsAll(t, id);
    case CompoundCall(id, m) => CompoundSolvent(t, id, m);
    case RetireCall(id, lastTrade) => RetireSolvent(t, id, lastTrade);
    case FinalizeCall(id) => FinalizeConserves(t, id);
  }

  /** A call of a funded vault conserves what it holds above its records and its ledger exactly when it miscounts
      nothing. */
  lemma StepConservesIff(t: Treasury, call: Call)
    requires Inv(t) && t.funded
    ensures Surplus(Step(t, call)) == Surplus(t) + GivenBy(t, call) <==> CountsVtrs(t, call)
  {
    if Dispatch(t, call).Ok? {
      if Quiet(call) {
        QuietConserves(t, call);
      } else {
        LaunchConserves(t, call);
      }
    }
  }

  /** A call keeps the records' shares equal to the total exactly when its mint has room. */
  lemma StepKeepsSharesIff(t: Treasury, call: Call, late: nat)
    requires Solvent(t) && Backed(t, late)
    ensures SharesOk(Step(t, call)) <==> CountsShares(t, call)
  {
    if CountsShares(t, call) {
      StepKeepsBacked(t, call, late);
    } else {
      SaturatedStake(t, call.launch);
    }
  }

  lemma SaturatedStake(t: Treasury, id: nat)
    requires Solvent(t) && SharesOk(t) && StakePending(t, id).Ok? && !Roomy(t, id)
    ensures !SharesOk(StakePending(t, id).value)
  {
    StakeIsBond(t, id);
    HarvestSolvent(t);
    var t1 := Harvest(t).value;
    var rec := Settle(t1.perShare, t.recs[id]).value;
    RecordReserved(t1, id);
    BondPendingIs(t1, id, rec);
    var m := SharesFor(rec.pending, t1.totalShares, ActiveOf(t1.stake)).value;
    SharesStayExactIff(t1, id, rec, m);
    var t2 := Bonded(t1, id, Minted(t1.perShare, rec, 0, m).value, m, BondMore(t1, rec.pending).value);
    RetargetKeepsTotals(t2);
  }

  lemma StaysFunded(t: Treasury, call: Call)
    requires t.funded
    ensures Step(t, call).funded
  {
    if Dispatch(t, call).Ok? {
      match call
      case StakeCall(id) => StakeFunded(t, id);
      case CompoundCall(id, m) => WorkShape(t, id, m);
      case RetireCall(id, lastTrade) => RetireFunded(t, id, lastTrade);
      case _ =>
    }
  }

  lemma StakeFunded(t: Treasury, id: nat)
    requires StakePending(t, id).Ok?
    ensures StakePending(t, id).value.funded == t.funded
  {
  }

  lemma RetireFunded(t: Treasury, id: nat, lastTrade: Option<nat>)
    requires Retire(t, id, lastTrade).Ok?
    ensures Retire(t, id, lastTrade).value.funded == t.funded
  {
    RetireIsRedeem(t, id, lastTrade);
    var t1 := Harvest(t).value;
    RedeemIs(t1, id, Settle(t1.perShare, t.recs[id]).value);
  }

  /** Every unit is accounted for: over every run of a funded vault, what it holds above its records and its ledger
      changes by exactly what was sent to it outside them. */
  lemma {:induction false} RunConserves(t: Treasury, calls: seq<Call>)
    requires Inv(t) && t.funded && RunCountsVtrs(t, calls)
    ensures Surplus(Run(t, calls)) == Surplus(t) + Given(t, calls)
    decreases |calls|
  {
    if calls != [] {
      StepKeepsInv(t, calls[0]);
      StaysFunded(t, calls[0]);
      StepConservesIff(t, calls[0]);
      RunConserves(Step(t, calls[0]), calls[1..]);
    }
  }

  // ---- where nothing saturates ---------------------------------------------------------------

  /** Every step of a run leaves the records' shares equal to the total, and a funded vault's surplus where it was but
      for what was sent to it. */
  ghost predicate RunExact(t: Treasury, calls: seq<Call>)
    decreases |calls|
  {
    calls == []
    || (&& SharesOk(Step(t, calls[0]))
        && (t.funded ==> Surplus(Step(t, calls[0])) == Surplus(t) + GivenBy(t, calls[0]))
        && RunExact(Step(t, calls[0]), calls[1..]))
  }

  /** A run is exact if and only if nothing in it saturates. */
  lemma {:induction false} RunExactIff(t: Treasury, calls: seq<Call>, late: nat)
    requires Inv(t) && Backed(t, late)
    ensures RunExact(t, calls) <==> RunFits(t, calls)
    decreases |calls|
  {
    if calls != [] {
      StepKeepsSharesIff(t, calls[0], late);
      if t.funded {
        StepConservesIff(t, calls[0]);
      }
      if Fits(t, calls[0]) {
        StepKeepsInv(t, calls[0]);
        StepKeepsBacked(t, calls[0], late);
        RunExactIff(Step(t, calls[0]), calls[1..], late + LateOf(t, calls[0]));
      }
    }
  }

  /** Bounds known before a call, whatever the venue answers: the share total takes the mint, the vault takes what the
      broker can pay and the largest slice, and the matured entries but one unbonded an amount that fits. */
  predicate HasRoom(t: Treasury, call: Call) {
    match call
    case StakeCall(id) => Roomy(t, id)
    case CompoundCall(_, m) =>
      t.vtrs + m.broker.depth + SliceOf(t.vtrs + m.broker.depth, m.venue, t.terms.maxBurnImpactBps) <= U128_MAX
    case FinalizeCall(_) =>
      var due := DueEntries(t.queue, t.era, true);
      due != [] ==> Unbonded(due[..|due| - 1]) <= U128_MAX
    case _ => true
  }

  lemma RoomFits(t: Treasury, call: Call)
    requires Solvent(t) && HasRoom(t, call)
    ensures Fits(t, call)
  {
    match call
    case CompoundCall(id, m) => RoomIsMeasurable(t, id, m);
    case FinalizeCall(_) => FittingIsCreditable(t);
    case _ =>
  }

  // ---- over every run ------------------------------------------------------------------------

  /** Over every run the vault holds its deposit, every launch's VTRS and the whole ledger; the records' shares add up;
      claims are backed up to less than a unit for each late stake; without shares nothing is staked. */
  lemma {:induction false} RunKeepsTreasury(t: Treasury, calls: seq<Call>, late: nat)
    requires Inv(t) && Backed(t, late) && StakeOwned(t) && RunFits(t, calls)
    ensures var e := Run(t, calls);
            Inv(e) && Backed(e, late + LateStakes(t, calls)) && StakeOwned(e)
    decreases |calls|
  {
    if calls != [] {
      StepKeepsInv(t, calls[0]);
      StepKeepsBacked(t, calls[0], late);
      StepKeepsOwned(t, calls[0]);
      RunKeepsTreasury(Step(t, calls[0]), calls[1..], late + LateOf(t, calls[0]));
    }
  }

  /** The treasury before its first fee: whatever the vault was sent, nothing is recorded. */
  function Genesis(c: Config, terms: Terms, vtrs: nat, lnrg: nat): Treasury {
    Treasury(c, map[], 0, 0, 0, terms, [], false, false, [], vtrs, lnrg, None, 0, 0, {}, true)
  }

  lemma GenesisOk(c: Config, terms: Terms, vtrs: nat, lnrg: nat)
    requires c.rules.minCoopBond > 0 && TermsInBounds(terms) && vtrs <= U128_MAX && lnrg <= U128_MAX
    ensures var t := Genesis(c, terms, vtrs, lnrg); Inv(t) && Backed(t, 0) && StakeOwned(t)
  {
    SumEmpty(Pending);
    SumEmpty(ToBurn);
    SumEmpty(Shares);
    SumEmpty(Accrued);
    SumEmpty(Debt);
  }

  /** From the first fee on, whatever happens, all claims together exceed the attributed rewards by no more than the
      late stakes' dust, and the attributed rewards are in the vault. */
  lemma ClaimsOverRuns(c: Config, terms: Terms, vtrs: nat, lnrg: nat, calls: seq<Call>)
    requires c.rules.minCoopBond > 0 && TermsInBounds(terms) && vtrs <= U128_MAX && lnrg <= U128_MAX
    requires RunFits(Genesis(c, terms, vtrs, lnrg), calls)
    ensures var t, e := Genesis(c, terms, vtrs, lnrg), Run(Genesis(c, terms, vtrs, lnrg), calls);
            && Total(Claimables(e.recs, e.perShare)) <= e.accounted + Dust(LateStakes(t, calls))
            && e.accounted <= e.lnrg && Reserved(e) <= e.vtrs
            && SumOf(e.recs, Shares) == e.totalShares && (e.totalShares == 0 ==> ActiveOf(e.stake) == 0)
  {
    var t := Genesis(c, terms, vtrs, lnrg);
    GenesisOk(c, terms, vtrs, lnrg);
    RunKeepsTreasury(t, calls, 0);
    ClaimsAreBacked(Run(t, calls), LateStakes(t, calls));
  }
}
