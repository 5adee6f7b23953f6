/** Runs from an empty treasury at whose end a documented property fails: each is counted exactly up to its last call.
    */
module TreasuryExamples {
  import opened Arith
  import opened Results
  import opened Staking
  import B = Broker
  import opened TreasurySpec
  import opened TreasurySolvency
  import opened TreasuryBacking
  import opened TreasuryFinalize
  import opened TreasuryShares
  import opened TreasuryRuns
  import opened TreasuryScenes

  // ---- what every run so far keeps ----------------------------------------------------

  /** An empty treasury that was sent nothing. */
  function Start(c: Config): Treasury {
    Genesis(c, TERMS, 0, 0)
  }

  /** A run that fits ends in a state with every invariant. */
  lemma EndOk(c: Config, calls: seq<Call>)
    requires c.rules.minCoopBond > 0 && RunFits(Start(c), calls)
    ensures Inv(Run(Start(c), calls)) && Backed(Run(Start(c), calls), LateStakes(Start(c), calls))
  {
    GenesisOk(c, TERMS, 0, 0);
    RunKeepsTreasury(Start(c), calls, 0);
  }

  /** The run goes one call further and still fits. */
  lemma GoesOn(t: Treasury, calls: seq<Call>, call: Call)
    requires RunFits(t, calls) && Fits(Run(t, calls), call)
    ensures RunFits(t, calls + [call]) && Run(t, calls + [call]) == Step(Run(t, calls), call)
  {
    RunOneMore(t, calls, call);
  }

  function Holder(shares: nat): Record {
    Record(0, shares, 0, 0, 0, 0, 1, Active)
  }

  /** One launch with all it was paid staked, but for the deposit. */
  function Sole(c: Config, amount: nat): Treasury
    requires c.rules.ed <= amount
  {
    var n := amount - c.rules.ed;
    Treasury(c, map[0 := Holder(n)], n, 0, 0, TERMS, [], true, true, [], amount, 0, Some(Stake(n, [], false, [])), 0, 0,
             {}, true)
  }

  function FirstCalls(amount: nat): seq<Call> {
    [] + [FeeNoted(0, amount)] + [StakeCall(0)]
  }

  lemma SoleRun(c: Config, amount: nat)
    requires 0 < c.rules.ed && 2 * c.rules.ed <= amount <= U128_MAX
    ensures RunFits(Start(c), FirstCalls(amount)) && Run(Start(c), FirstCalls(amount)) == Sole(c, amount)
  {
    var t0, c0: seq<Call> := Start(c), [];
    var c1 := c0 + [FeeNoted(0, amount)];
    GoesOn(t0, c0, FeeNoted(0, amount));
    FirstFee(t0, 0, amount);
    var t1 := Run(t0, c1);
    GoesOn(t0, c1, StakeCall(0));
    FirstStake(t1, 0, amount - c.rules.ed, 0);
    assert Step(t1, StakeCall(0)).recs == Sole(c, amount).recs;
  }

  // ---- a retirement that takes another launch's stake ------------------------------------

  /** A deposit of ten. */
  const SWEEPING := Config(Rules(10, 100, 1, 8), 16, 1)

  function TwoHolders(): seq<Call> {
    FirstCalls(30) + [FeeNoted(1, 20)] + [StakeCall(1)]
  }

  function SweepCalls(): seq<Call> {
    TwoHolders() + [Slashed(6_500)] + [NextBlock]
  }

  /** Twenty shares each of `active`. */
  function Halves(active: nat, now: nat): Treasury {
    Treasury(SWEEPING, map[0 := Holder(20), 1 := Holder(20)], 40, 0, 0, TERMS, [], true, true, [], 10 + active, 0,
             Some(Stake(active, [], false, [])), 0, now, {}, true)
  }

  lemma TwoHoldersRun()
    ensures RunFits(Start(SWEEPING), TwoHolders()) && Run(Start(SWEEPING), TwoHolders()) == Halves(40, 0)
  {
    SoleRun(SWEEPING, 30);
    SecondHolder();
    GoesOn(Start(SWEEPING), FirstCalls(30), FeeNoted(1, 20));
    GoesOn(Start(SWEEPING), FirstCalls(30) + [FeeNoted(1, 20)], StakeCall(1));
  }

  lemma SecondHolder()
    ensures var t := Step(Sole(SWEEPING, 30), FeeNoted(1, 20));
            Fits(t, StakeCall(1)) && Step(t, StakeCall(1)) == Halves(40, 0)
  {
    NewFee(Sole(SWEEPING, 30), 1, 20);
    var t := Step(Sole(SWEEPING, 30), FeeNoted(1, 20));
    OneAmount((0, 0));
    FirstStake(t, 1, 20, 0);
    assert Step(t, StakeCall(1)).recs == Halves(40, 0).recs;
  }

  lemma HalvesSlashed()
    ensures Step(Halves(40, 0), Slashed(6_500)) == Halves(14, 0)
  {
    PlainSlash(Halves(40, 0), 6_500);
    OneAmount((0, 0));
    assert CutAll([], 6_500) == [];
  }

  lemma SweepRun()
    ensures RunFits(Start(SWEEPING), SweepCalls()) && Run(Start(SWEEPING), SweepCalls()) == Halves(14, 1)
  {
    TwoHoldersRun();
    HalvesSlashed();
    GoesOn(Start(SWEEPING), TwoHolders(), Slashed(6_500));
    GoesOn(Start(SWEEPING), TwoHolders() + [Slashed(6_500)], NextBlock);
  }

  lemma HalvesSwept()
    ensures var t := Halves(14, 1);
            && Retire(t, 0, Some(0)).Ok? && StakedValue(t, 1) == 7 && StakedValue(Retire(t, 0, Some(0)).value, 1) == 0
  {
    PlainRetire(Halves(14, 1), 0, 0, 7);
  }

  /** Two launches hold half each of a stake that was slashed to fourteen, under a deposit of ten. The first retires
      with its seven; the seven left cannot stand and leave with it, and the second launch's seven are worth nothing.
      */
  lemma SweepExample()
    ensures RunFits(Start(SWEEPING), SweepCalls()) && Inv(Run(Start(SWEEPING), SweepCalls()))
    ensures var t := Run(Start(SWEEPING), SweepCalls());
            && SharesOk(t) && Retire(t, 0, Some(0)).Ok? && 1 in t.recs
            && StakedValue(t, 1) == 7 && StakedValue(Retire(t, 0, Some(0)).value, 1) == 0
  {
    SweepRun();
    EndOk(SWEEPING, SweepCalls());
    HalvesSwept();
  }

  // ---- a stake that leaves the share total short -------------------------------------------

  /** All but one of the shares there can be, and half of the stake under them. */
  const HALF: nat := U128_MAX / 2

  function SharesCalls(): seq<Call> {
    FirstCalls(U128_MAX) + [Slashed(5_000)] + [FeeNoted(1, 2)]
  }

  function SharesEnd(): Treasury {
    var newcomer := Record(2, 0, 0, 0, 0, 0, 1, Active);
    Treasury(CONFIG, map[0 := Holder(U128_MAX - 1), 1 := newcomer], U128_MAX - 1, 0, 0, TERMS,
             [], true, true, [], HALF + 3, 0, Some(Stake(HALF, [], false, [])), 0, 0, {}, true)
  }

  lemma SharesRun()
    ensures RunFits(Start(CONFIG), SharesCalls()) && Run(Start(CONFIG), SharesCalls()) == SharesEnd()
  {
    SoleRun(CONFIG, U128_MAX);
    HalfSlashed();
    GoesOn(Start(CONFIG), FirstCalls(U128_MAX), Slashed(5_000));
    GoesOn(Start(CONFIG), FirstCalls(U128_MAX) + [Slashed(5_000)], FeeNoted(1, 2));
  }

  lemma HalfSlashed()
    ensures Step(Step(Sole(CONFIG, U128_MAX), Slashed(5_000)), FeeNoted(1, 2)) == SharesEnd()
  {
    SoleSlashed();
    var t := HalfLeft();
    NewFee(t, 1, 2);
    assert Step(t, FeeNoted(1, 2)).recs == SharesEnd().recs;
  }

  function HalfLeft(): Treasury {
    Sole(CONFIG, U128_MAX).(vtrs := HALF + 1, stake := Some(Stake(HALF, [], false, [])))
  }

  lemma SoleSlashed()
    ensures Step(Sole(CONFIG, U128_MAX), Slashed(5_000)) == HalfLeft()
  {
    PlainSlash(Sole(CONFIG, U128_MAX), 5_000);
    OneAmount((0, 0));
    assert CutAll([], 5_000) == [];
  }

  lemma FourShares()
    requires SumOf(SharesEnd().recs, Shares) == U128_MAX - 1
    ensures var t' := StakePending(SharesEnd(), 1);
            && t'.Ok? && t'.value.totalShares == U128_MAX && SumOf(t'.value.recs, Shares) == U128_MAX + 3
  {
    OneAmount((0, 0));
    FourMinted(SharesEnd(), HALF);
    SumPut(SharesEnd().recs, 1, SharesEnd().recs[1].(pending := 0, shares := 4), Shares);
  }

  /** Two units on `half`, under twice as many shares. */
  lemma FourMinted(t: Treasury, half: nat)
    requires t.targets == [] && t.perShare == 0 && Unattributed(t) == 0 && 1 in t.recs && half + 2 <= t.vtrs
    requires t.recs[1] == Record(2, 0, 0, 0, 0, 0, 1, Active) && t.terms.minStake <= 2 && t.config.rules.ed <= 2
    requires HeldBy(t.stake) == ActiveOf(t.stake) == half && 0 < half && t.totalShares == 2 * half == U128_MAX - 1
    ensures StakePending(t, 1).Ok? && StakePending(t, 1).value.totalShares == U128_MAX
    ensures StakePending(t, 1).value.recs == t.recs[1 := t.recs[1].(pending := 0, shares := 4)]
  {
    FourForTwo(half);
    FirstStake(t, 1, 4, 0);
  }

  lemma FourForTwo(half: nat)
    requires 0 < half
    ensures 2 * (2 * half) / half == 4
  {
  }

  /** One launch holds all but one of the shares there can be; half of the stake is slashed; the next launch stakes two
      units and is minted four shares. The records count three shares more than the total does. */
  lemma SharesCanSaturate()
    ensures RunFits(Start(CONFIG), SharesCalls()) && Inv(Run(Start(CONFIG), SharesCalls()))
    ensures var t := Run(Start(CONFIG), SharesCalls());
            && SharesOk(t) && StakePending(t, 1).Ok? && StakePending(t, 1).value.totalShares == U128_MAX
            && SumOf(StakePending(t, 1).value.recs, Shares) == U128_MAX + 3
  {
    SharesRun();
    EndOk(CONFIG, SharesCalls());
    FourShares();
  }

  // ---- a finalize that credits more than came back -------------------------------------------

  /** All that a full vault can have bonded beside its deposit. */
  const FULL: nat := U128_MAX - 1

  /** Everyone has retired, and one chunk holds what all of them unbonded. */
  function Waiting(recs: map<nat, Record>, queue: seq<Entry>, vtrs: nat, chunk: nat): Treasury {
    Treasury(CONFIG, recs, 0, 0, 0, TERMS, [], true, true, queue, vtrs, 0, Some(Stake(0, [(1, chunk)], false, [])),
             0, 1, {}, true)
  }

  function Left(since: nat): Record {
    Record(0, 0, 0, 0, 0, since, 1, Retiring(1))
  }

  /** A launch is paid `amount`, stakes it and retires at once. */
  function InAndOut(calls: seq<Call>, id: nat, amount: nat): seq<Call> {
    calls + [FeeNoted(id, amount)] + [StakeCall(id)] + [RetireCall(id, Some(0))]
  }

  /** One more launch has staked `amount`. */
  function Staked(recs: map<nat, Record>, queue: seq<Entry>, vtrs: nat, chunk: nat, id: nat, amount: nat): Treasury {
    Waiting(recs[id := Record(0, amount, 0, 0, 0, 1, 1, Active)], queue, vtrs, chunk)
    .(totalShares := amount, stake := Some(Stake(amount, [(1, chunk)], false, [])))
  }

  lemma StaysIn(recs: map<nat, Record>, queue: seq<Entry>, vtrs: nat, chunk: nat, id: nat,
                amount: nat)
    requires id !in recs && 0 < amount && vtrs + amount <= U128_MAX && chunk <= vtrs
    ensures var t := Step(Waiting(recs, queue, vtrs, chunk), FeeNoted(id, amount));
            && Fits(t, StakeCall(id))
            && Step(t, StakeCall(id)) == Staked(recs, queue, vtrs + amount, chunk, id, amount)
  {
    NewFee(Waiting(recs, queue, vtrs, chunk), id, amount);
    var t := Step(Waiting(recs, queue, vtrs, chunk), FeeNoted(id, amount));
    OneAmount((1, chunk));
    FirstStake(t, id, amount, 0);
    assert Step(t, StakeCall(id)).recs == recs[id := Record(0, amount, 0, 0, 0, 1, 1, Active)];
  }

  lemma GoesOut(recs: map<nat, Record>, queue: seq<Entry>, vtrs: nat, chunk: nat, id: nat,
                amount: nat)
    requires id !in recs && 0 < amount <= U128_MAX && |queue| < 8
    ensures Step(Staked(recs, queue, vtrs, chunk, id, amount), RetireCall(id, Some(0)))
            == Waiting(recs[id := Left(1)], queue + [Entry(id, 1, amount)], vtrs, chunk + amount)
  {
    var t := Staked(recs, queue, vtrs, chunk, id, amount);
    MulDivSelf(amount, amount);
    PlainRetire(t, id, 0, amount);
    assert [(1, chunk)][..0] == [];
    assert PushChunk([(1, chunk)], 1, amount) == [(1, chunk + amount)];
    assert recs[id := Record(0, amount, 0, 0, 0, 1, 1, Active)][id := Left(1)] == recs[id := Left(1)];
  }

  lemma RunIn(calls: seq<Call>, recs: map<nat, Record>, queue: seq<Entry>, vtrs: nat, chunk: nat,
              id: nat, amount: nat)
    requires id !in recs && 0 < amount && vtrs + amount <= U128_MAX && chunk <= vtrs
    requires RunFits(Start(CONFIG), calls) && Run(Start(CONFIG), calls) == Waiting(recs, queue, vtrs, chunk)
    ensures var staked := calls + [FeeNoted(id, amount)] + [StakeCall(id)];
            && RunFits(Start(CONFIG), staked)
            && Run(Start(CONFIG), staked) == Staked(recs, queue, vtrs + amount, chunk, id, amount)
  {
    StaysIn(recs, queue, vtrs, chunk, id, amount);
    GoesOn(Start(CONFIG), calls, FeeNoted(id, amount));
    GoesOn(Start(CONFIG), calls + [FeeNoted(id, amount)], StakeCall(id));
  }

  lemma RunInAndOut(calls: seq<Call>, recs: map<nat, Record>, queue: seq<Entry>, vtrs: nat,
                    chunk: nat, id: nat, amount: nat)
    requires id !in recs && 0 < amount && vtrs + amount <= U128_MAX && chunk <= vtrs && |queue| < 8
    requires RunFits(Start(CONFIG), calls) && Run(Start(CONFIG), calls) == Waiting(recs, queue, vtrs, chunk)
    ensures RunFits(Start(CONFIG), InAndOut(calls, id, amount))
    ensures Run(Start(CONFIG), InAndOut(calls, id, amount))
            == Waiting(recs[id := Left(1)], queue + [Entry(id, 1, amount)], vtrs + amount, chunk + amount)
  {
    RunIn(calls, recs, queue, vtrs, chunk, id, amount);
    RunOut(calls + [FeeNoted(id, amount)] + [StakeCall(id)], recs, queue, vtrs + amount, chunk, id, amount);
  }

  lemma RunOut(calls: seq<Call>, recs: map<nat, Record>, queue: seq<Entry>, vtrs: nat, chunk: nat,
               id: nat, amount: nat)
    requires id !in recs && 0 < amount <= U128_MAX && |queue| < 8
    requires RunFits(Start(CONFIG), calls)
    requires Run(Start(CONFIG), calls) == Staked(recs, queue, vtrs, chunk, id, amount)
    ensures RunFits(Start(CONFIG), calls + [RetireCall(id, Some(0))])
    ensures Run(Start(CONFIG), calls + [RetireCall(id, Some(0))])
            == Waiting(recs[id := Left(1)], queue + [Entry(id, 1, amount)], vtrs, chunk + amount)
  {
    GoesOut(recs, queue, vtrs, chunk, id, amount);
    GoesOn(Start(CONFIG), calls, RetireCall(id, Some(0)));
  }

  /** All of the stake is slashed. */
  lemma RunSlashed(calls: seq<Call>, recs: map<nat, Record>, queue: seq<Entry>, vtrs: nat,
                   chunk: nat)
    requires chunk <= vtrs
    requires RunFits(Start(CONFIG), calls) && Run(Start(CONFIG), calls) == Waiting(recs, queue, vtrs, chunk)
    ensures RunFits(Start(CONFIG), calls + [Slashed(BPS)])
    ensures Run(Start(CONFIG), calls + [Slashed(BPS)]) == Waiting(recs, queue, vtrs - chunk, 0)
  {
    AllSlashed(recs, queue, vtrs, chunk);
    GoesOn(Start(CONFIG), calls, Slashed(BPS));
  }

  lemma AllSlashed(recs: map<nat, Record>, queue: seq<Entry>, vtrs: nat, chunk: nat)
    requires chunk <= vtrs
    ensures Step(Waiting(recs, queue, vtrs, chunk), Slashed(BPS)) == Waiting(recs, queue, vtrs - chunk, 0)
  {
    PlainSlash(Waiting(recs, queue, vtrs, chunk), BPS);
    CutToNothing((1, chunk));
    OneAmount((1, chunk));
    OneAmount((1, 0));
  }

  lemma CutToNothing(c: (nat, nat))
    ensures CutAll([c], BPS) == [(c.0, 0)]
  {
  }

  function FirstOut(amount: nat): seq<Call> {
    FirstCalls(amount) + [NextBlock] + [RetireCall(0, Some(0))]
  }

  lemma FirstOutRun(amount: nat)
    requires 2 <= amount <= U128_MAX
    ensures RunFits(Start(CONFIG), FirstOut(amount))
    ensures Run(Start(CONFIG), FirstOut(amount))
            == Waiting(map[0 := Left(0)], [Entry(0, 1, amount - 1)], amount, amount - 1)
  {
    SoleRun(CONFIG, amount);
    FirstGoesOut(amount);
    GoesOn(Start(CONFIG), FirstCalls(amount), NextBlock);
    GoesOn(Start(CONFIG), FirstCalls(amount) + [NextBlock], RetireCall(0, Some(0)));
  }

  lemma FirstGoesOut(amount: nat)
    requires 2 <= amount <= U128_MAX
    ensures Step(Sole(CONFIG, amount).(now := 1), RetireCall(0, Some(0)))
            == Waiting(map[0 := Left(0)], [Entry(0, 1, amount - 1)], amount, amount - 1)
  {
    var t, n := Sole(CONFIG, amount).(now := 1), amount - 1;
    MulDivSelf(n, n);
    PlainRetire(t, 0, 0, n);
    assert map[0 := Holder(n)][0 := Left(0)] == map[0 := Left(0)];
    assert PushChunk([], 1, n) == [(1, n)];
  }

  function SecondOut(): seq<Call> {
    InAndOut(FirstOut(U128_MAX) + [Slashed(BPS)], 1, FULL)
  }

  function ThirdOut(): seq<Call> {
    InAndOut(SecondOut() + [Slashed(BPS)], 2, 3)
  }

  function OverpaidCalls(): seq<Call> {
    ThirdOut() + [NextEra]
  }

  /** What the launches leave behind them: nothing pending or set to burn, and an entry each, two of a full vault. */
  ghost predicate AllOut(recs: map<nat, Record>, queue: seq<Entry>) {
    && 0 in recs && recs[0].status == Retiring(1)
    && (forall id :: id in recs ==> recs[id].pending == 0 && recs[id].pendingBurn == 0)
    && |queue| >= 2 && (forall i :: 0 <= i < |queue| ==> queue[i].era == 1)
    && queue[0].amount == FULL && queue[1].amount == FULL
  }

  /** All is slashed, and the next launch goes in and out. */
  lemma NextOut(calls: seq<Call>, recs: map<nat, Record>, queue: seq<Entry>, chunk: nat, id: nat,
                amount: nat)
    requires id !in recs && 0 < amount <= FULL && chunk <= FULL && |queue| < 8
    requires RunFits(Start(CONFIG), calls) && Run(Start(CONFIG), calls) == Waiting(recs, queue, 1 + chunk, chunk)
    ensures RunFits(Start(CONFIG), InAndOut(calls + [Slashed(BPS)], id, amount))
    ensures Run(Start(CONFIG), InAndOut(calls + [Slashed(BPS)], id, amount))
            == Waiting(recs[id := Left(1)], queue + [Entry(id, 1, amount)], 1 + amount, amount)
  {
    RunSlashed(calls, recs, queue, 1 + chunk, chunk);
    RunInAndOut(calls + [Slashed(BPS)], recs, queue, 1, 0, id, amount);
  }

  lemma SecondOutRun()
    returns (recs: map<nat, Record>, queue: seq<Entry>)
    ensures AllOut(recs, queue) && |queue| == 2 && 2 !in recs
    ensures RunFits(Start(CONFIG), SecondOut())
    ensures Run(Start(CONFIG), SecondOut()) == Waiting(recs, queue, 1 + FULL, FULL)
  {
    var r0, q0 := map[0 := Left(0)], [Entry(0, 1, FULL)];
    FirstOutRun(U128_MAX);
    NextOut(FirstOut(U128_MAX), r0, q0, FULL, 1, FULL);
    recs, queue := r0[1 := Left(1)], q0 + [Entry(1, 1, FULL)];
  }

  lemma ThirdOutRun()
    returns (recs: map<nat, Record>, queue: seq<Entry>)
    ensures AllOut(recs, queue) && |queue| == 3 && queue[2].amount == 3 && RunFits(Start(CONFIG), ThirdOut())
    ensures Run(Start(CONFIG), ThirdOut()) == Waiting(recs, queue, 4, 3)
  {
    var r1, q1 := SecondOutRun();
    NextOut(SecondOut(), r1, q1, FULL, 2, 3);
    OneMoreOut(r1, q1, 2, 3);
    recs, queue := r1[2 := Left(1)], q1 + [Entry(2, 1, 3)];
  }

  lemma OneMoreOut(recs: map<nat, Record>, queue: seq<Entry>, id: nat, amount: nat)
    requires AllOut(recs, queue) && id !in recs
    ensures AllOut(recs[id := Left(1)], queue + [Entry(id, 1, amount)])
  {
  }

  lemma OverpaidRun()
    returns (recs: map<nat, Record>, queue: seq<Entry>)
    ensures AllOut(recs, queue) && |queue| == 3 && queue[2].amount == 3 && RunFits(Start(CONFIG), OverpaidCalls())
    ensures Run(Start(CONFIG), OverpaidCalls()) == Waiting(recs, queue, 4, 3).(era := 1)
  {
    recs, queue := ThirdOutRun();
    GoesOn(Start(CONFIG), ThirdOut(), NextEra);
  }

  lemma {:induction false} NothingIn(recs: map<nat, Record>, f: Field)
    requires forall id :: id in recs ==> Get(recs[id], f) == 0
    ensures SumOf(recs, f) == 0
    decreases |recs|
  {
    if recs == map[] {
      SumEmpty(f);
    } else {
      var id :| id in recs;
      NothingIn(recs - {id}, f);
      SumDrop(recs, id, f);
    }
  }

  lemma {:induction false} AllDue(q: seq<Entry>, era: nat)
    requires forall i :: 0 <= i < |q| ==> q[i].era <= era
    ensures DueEntries(q, era, true) == q
  {
    if q != [] {
      AllDue(q[..|q| - 1], era);
    }
  }

  /** Two shares of almost all of the queue's sum, and a sum that saturates: two units each of the three that came back,
      and nothing left for the last entry. */
  lemma TwoEach(q: seq<Entry>, full: nat, most: nat)
    requires |q| == 3 && q[0].amount == full && q[1].amount == full
    requires 2 < full && most == full + 1
    ensures CreditedInAll(q, 3, most) == 4
  {
    var head, first := q[..2], q[..1];
    assert head[..1] == first && first[..0] == [] && head[1] == q[1] && first[0] == q[0];
    TwoUnits(full);
    assert ShareOf(first[0], 3, most) == 2 && ShareOf(head[1], 3, most) == 2;
    assert FloorShares(first, 3, most) == 2;
    assert FloorShares(head, 3, most) == 4;
  }

  lemma TwoUnits(full: nat)
    requires 2 < full
    ensures full * 3 / (full + 1) == 2
  {
    FloorIff(full * 3, full + 1, 2);
    FloorIff(full * 3, full + 1, 3);
  }

  lemma SumSaturates(q: seq<Entry>)
    requires |q| == 3 && q[0].amount == FULL && q[1].amount == FULL
    ensures Expected(q) == U128_MAX
  {
    ExpectedIsCapped(q);
    var head := q[..2];
    assert head[..1][..0] == [];
    assert Unbonded(head) >= U128_MAX;
  }

  lemma ChunkComesBack(t: Treasury, chunk: (nat, nat))
    requires t.stake == Some(Stake(0, [chunk], false, [])) && chunk.0 <= t.era
    ensures CameBack(t) == chunk.1
  {
    assert [chunk][..0] == [];
    assert Due([chunk], t.era, true) == [chunk];
    OneAmount(chunk);
  }

  /** The first launch is due; three units came back, four would be credited, and there is nothing to spare. */
  ghost predicate Short(t: Treasury) {
    && t.stake.Some? && 0 in t.recs && t.recs[0].status == Retiring(t.era)
    && CameBack(t) == 3 && Overpaid(t) == 1 && Surplus(t) == 0 && SumOf(t.recs, ToBurn) == 0
  }

  lemma EndIsShort(recs: map<nat, Record>, queue: seq<Entry>)
    requires AllOut(recs, queue) && |queue| == 3 && queue[2].amount == 3
    ensures Short(Waiting(recs, queue, 4, 3).(era := 1))
  {
    var t := Waiting(recs, queue, 4, 3).(era := 1);
    AllDue(queue, 1);
    SumSaturates(queue);
    TwoEach(queue, FULL, U128_MAX);
    ChunkComesBack(t, (1, 3));
    NothingIn(recs, Pending);
    NothingIn(recs, ToBurn);
    OneAmount((1, 3));
  }

  lemma ShortFails(t: Treasury)
    requires Inv(t) && Short(t)
    ensures Finalize(t, 0).Ok? && !Solvent(Finalize(t, 0).value) && SumOf(Finalize(t, 0).value.recs, ToBurn) == 4
  {
    FinalizeWorksIff(t, 0);
    FinalizeConserves(t, 0);
    FinalizeSolvent(t, 0);
  }

  /** Two launches unbond a full vault each, slashed to nothing before it is due, and a third unbonds three: three units
      come back and four are credited, one more than the vault holds. */
  lemma SaturatedExample()
    ensures RunFits(Start(CONFIG), OverpaidCalls()) && Inv(Run(Start(CONFIG), OverpaidCalls()))
    ensures var t := Run(Start(CONFIG), OverpaidCalls());
            && Finalize(t, 0).Ok? && CameBack(t) == 3 && SumOf(t.recs, ToBurn) == 0
            && SumOf(Finalize(t, 0).value.recs, ToBurn) == 4 && !Solvent(Finalize(t, 0).value)
  {
    var recs, queue := OverpaidRun();
    EndIsShort(recs, queue);
    EndOk(CONFIG, OverpaidCalls());
    ShortFails(Run(Start(CONFIG), OverpaidCalls()));
  }

  // ---- a slice that is misread ------------------------------------------------------------------

  /** A broker at par, and no venue. */
  function SaleOnly(): Market {
    Market(B.Terms(1, 1, 400), true, true, true, NoVenue, CannotQuote)
  }

  /** A venue that takes two hundred and sends ten back as the launch's fee. */
  function SliceOnly(): Market {
    Market(B.Terms(1, 1, 0), true, true, true, Venue(1_000_000_000, 100), Bought(200, 10))
  }

  function SliceCalls(): seq<Call> {
    FirstCalls(5) + [Rewarded(400)] + [CompoundCall(0, SaleOnly())] + [FeeNoted(0, U128_MAX - 400)]
  }

  function SliceEnd(pending: nat, vtrs: nat): Treasury {
    Treasury(CONFIG, map[0 := Record(pending, 4, 400, 1, 395, 0, 1, Active)], 4, 100 * SCALE, 1, TERMS, [], true, true,
             [], vtrs, 1, Some(Stake(4, [], false, [])), 0, 0, {}, true)
  }

  lemma SaleStep()
    ensures Step(Sole(CONFIG, 5).(lnrg := 400), CompoundCall(0, SaleOnly())) == SliceEnd(0, 400)
  {
    SoleHarvested();
    var rec := Holder(4).(lnrgAccrued := 400, lnrgDebt := 400);
    SaleOf(Sole(CONFIG, 5).(lnrg := 400, perShare := 100 * SCALE, accounted := 400), rec);
    assert map[0 := Holder(4)][0 := rec.(lnrgAccrued := 1, pendingBurn := 395)] == SliceEnd(0, 400).recs;
  }

  lemma SoleHarvested()
    ensures var t := Sole(CONFIG, 5).(lnrg := 400);
            && Harvest(t) == Ok(t.(perShare := 100 * SCALE, accounted := 400))
            && Settle(100 * SCALE, Holder(4)) == Ok(Holder(4).(lnrgAccrued := 400, lnrgDebt := 400))
  {
  }

  lemma SaleOf(t: Treasury, rec: Record)
    requires t == Sole(CONFIG, 5).(lnrg := 400, perShare := 100 * SCALE, accounted := 400)
    requires rec == Holder(4).(lnrgAccrued := 400, lnrgDebt := 400)
    ensures var w := Work(t.(vtrs := 400, lnrg := 1, accounted := 1), rec.(lnrgAccrued := 1, pendingBurn := 395), true);
            SellAccrued(Work(t, rec, false), SaleOnly().broker, true) == Ok(w)
  {
    var b := SaleOnly().broker;
    assert B.OutFor(b, 399) == 395;
    assert B.Sellable(b, 399) == Some(B.Sale(399, 395));
    assert B.Sell(b, 399, 399, 395) == Ok(395);
  }

  lemma SliceRun()
    ensures RunFits(Start(CONFIG), SliceCalls())
    ensures Run(Start(CONFIG), SliceCalls()) == SliceEnd(U128_MAX - 400, U128_MAX)
  {
    var t0, sold := Start(CONFIG), FirstCalls(5) + [Rewarded(400)] + [CompoundCall(0, SaleOnly())];
    SaleRun();
    GoesOn(t0, sold, FeeNoted(0, U128_MAX - 400));
    FullAgain();
  }

  lemma FullAgain()
    ensures Step(SliceEnd(0, 400), FeeNoted(0, U128_MAX - 400)) == SliceEnd(U128_MAX - 400, U128_MAX)
  {
    assert Step(SliceEnd(0, 400), FeeNoted(0, U128_MAX - 400)).recs == SliceEnd(U128_MAX - 400, U128_MAX).recs;
  }

  lemma SaleRun()
    ensures var sold := FirstCalls(5) + [Rewarded(400)] + [CompoundCall(0, SaleOnly())];
            RunFits(Start(CONFIG), sold) && Run(Start(CONFIG), sold) == SliceEnd(0, 400)
  {
    var t0, before := Start(CONFIG), FirstCalls(5) + [Rewarded(400)];
    SoleRun(CONFIG, 5);
    GoesOn(t0, FirstCalls(5), Rewarded(400));
    SaleStep();
    EndOk(CONFIG, before);
    SaleFits(Run(t0, before));
    GoesOn(t0, before, CompoundCall(0, SaleOnly()));
  }

  lemma SaleFits(t: Treasury)
    requires Solvent(t) && t.vtrs <= U128_MAX - 400
    ensures Fits(t, CompoundCall(0, SaleOnly()))
  {
    RoomFits(t, CompoundCall(0, SaleOnly()));
  }

  lemma TenMissed()
    ensures MissedIn(SliceEnd(U128_MAX - 400, U128_MAX), 0, SliceOnly()) == 10
    ensures Compound(SliceEnd(U128_MAX - 400, U128_MAX), 0, SliceOnly()).Ok?
  {
    var t := SliceEnd(U128_MAX - 400, U128_MAX);
    assert Settle(t.perShare, t.recs[0]) == Ok(t.recs[0]);
    assert B.Sellable(SliceOnly().broker, 0) == None;
    assert SliceOf(395, SliceOnly().venue, 100) == 395;
    OneAmount((0, 0));
  }

  lemma SliceFails(t: Treasury)
    requires t == SliceEnd(U128_MAX - 400, U128_MAX) && Inv(t)
    ensures Compound(t, 0, SliceOnly()).Ok? && MissedIn(t, 0, SliceOnly()) == 10
    ensures !Solvent(Compound(t, 0, SliceOnly()).value)
  {
    TenMissed();
    NoneSpare(U128_MAX - 400, U128_MAX);
    MissFails(t, 0, SliceOnly());
  }

  lemma MissFails(t: Treasury, id: nat, m: Market)
    requires Solvent(t) && Compound(t, id, m).Ok? && Surplus(t) < MissedIn(t, id, m)
    ensures !Solvent(Compound(t, id, m).value)
  {
    CompoundSolvent(t, id, m);
  }

  lemma NoneSpare(pending: nat, vtrs: nat)
    requires vtrs == pending + 400
    ensures Surplus(SliceEnd(pending, vtrs)) == 0
  {
    var t := SliceEnd(pending, vtrs);
    OneAmount((0, 0));
    OneRecord(t.recs[0], Pending);
    OneRecord(t.recs[0], ToBurn);
    assert t.recs == map[0 := t.recs[0]];
  }

  lemma OneRecord(rec: Record, f: Field)
    ensures SumOf(map[0 := rec], f) == Get(rec, f)
  {
    var none: map<nat, Record> := map[];
    SumEmpty(f);
    SumPut(none, 0, rec, f);
    assert none[0 := rec] == map[0 := rec];
  }

  /** A full vault burns a slice of two hundred of which ten come back as a fee: the balance and the fee no longer fit
      128 bits, the call reads a hundred and ninety, and the vault ends ten short of what its records say. */
  lemma SliceMisread()
    ensures RunFits(Start(CONFIG), SliceCalls()) && Inv(Run(Start(CONFIG), SliceCalls()))
    ensures var t := Run(Start(CONFIG), SliceCalls());
            && Compound(t, 0, SliceOnly()).Ok? && MissedIn(t, 0, SliceOnly()) == 10
            && !Solvent(Compound(t, 0, SliceOnly()).value)
  {
    SliceRun();
    EndOk(CONFIG, SliceCalls());
    SliceFails(Run(Start(CONFIG), SliceCalls()));
  }

  // ---- a retirement whose ledger is gone ------------------------------------------------------

  /** Two launches retire an era apart, all they unbonded is slashed, and the first is finalized. */
  function StrandedCalls(): seq<Call> {
    BothOut() + [Slashed(BPS)] + [FinalizeCall(0)] + [NextEra]
  }

  function BothOut(): seq<Call> {
    FirstOut(5) + [NextEra] + [FeeNoted(1, 3)] + [StakeCall(1)] + [RetireCall(1, Some(0))]
  }

  function Leaving(since: nat, due: nat): Record {
    Record(0, 0, 0, 0, 0, since, 1, Retiring(due))
  }

  /** Nothing is active, and chunks wait for two eras. */
  function TwoChunks(first: nat, second: nat): Treasury {
    Treasury(CONFIG, map[0 := Leaving(0, 1), 1 := Leaving(1, 2)], 0, 0, 0, TERMS, [], true, true,
             [Entry(0, 1, 4), Entry(1, 2, 3)], 1 + first + second, 0,
             Some(Stake(0, [(1, first), (2, second)], false, [])), 1, 1, {}, true)
  }

  lemma SecondStakes()
    ensures var t := Waiting(map[0 := Left(0)], [Entry(0, 1, 4)], 5, 4).(era := 1);
            var t1 := Step(t, FeeNoted(1, 3));
            && Fits(t1, StakeCall(1))
            && Step(t1, StakeCall(1))
               == Staked(map[0 := Left(0)], [Entry(0, 1, 4)], 8, 4, 1, 3).(era := 1)
  {
    var t := Waiting(map[0 := Left(0)], [Entry(0, 1, 4)], 5, 4).(era := 1);
    NewFee(t, 1, 3);
    var t1 := Step(t, FeeNoted(1, 3));
    OneAmount((1, 4));
    FirstStake(t1, 1, 3, 0);
    assert Step(t1, StakeCall(1)).recs == map[0 := Left(0)][1 := Record(0, 3, 0, 0, 0, 1, 1, Active)];
  }

  lemma SecondLeaves()
    ensures Step(Staked(map[0 := Left(0)], [Entry(0, 1, 4)], 8, 4, 1, 3).(era := 1), RetireCall(1, Some(0)))
            == TwoChunks(4, 3)
  {
    var t := Staked(map[0 := Left(0)], [Entry(0, 1, 4)], 8, 4, 1, 3).(era := 1);
    PlainRetire(t, 1, 0, 3);
    assert PushChunk([(1, 4)], 2, 3) == [(1, 4), (2, 3)];
    assert map[0 := Left(0)][1 := Record(0, 3, 0, 0, 0, 1, 1, Active)][1 := Leaving(1, 2)] == TwoChunks(4, 3).recs;
  }

  lemma BothOutRun()
    ensures RunFits(Start(CONFIG), BothOut()) && Run(Start(CONFIG), BothOut()) == TwoChunks(4, 3)
  {
    var t0, calls := Start(CONFIG), FirstOut(5) + [NextEra];
    FirstOutRun(5);
    GoesOn(t0, FirstOut(5), NextEra);
    SecondStakes();
    GoesOn(t0, calls, FeeNoted(1, 3));
    GoesOn(t0, calls + [FeeNoted(1, 3)], StakeCall(1));
    SecondLeaves();
    GoesOn(t0, calls + [FeeNoted(1, 3)] + [StakeCall(1)], RetireCall(1, Some(0)));
  }

  lemma TwoAmounts(a: (nat, nat), b: (nat, nat))
    ensures Amounts([a, b]) == a.1 + b.1
  {
    OneAmount(a);
    assert [a, b][..1] == [a];
  }

  lemma BothSlashed(first: nat, second: nat)
    ensures Step(TwoChunks(first, second), Slashed(BPS)) == TwoChunks(0, 0)
  {
    PlainSlash(TwoChunks(first, second), BPS);
    assert CutAll([(1, first), (2, second)], BPS) == [(1, 0), (2, 0)];
    TwoAmounts((1, first), (2, second));
    TwoAmounts((1, 0), (2, 0));
  }

  /** The last withdrawal of nothing takes the ledger with it. */
  lemma LedgerGoes(first: (nat, nat), second: (nat, nat), era: nat)
    requires first.0 <= era < second.0 && first.1 == second.1 == 0
    ensures Withdraw(Some(Stake(0, [first, second], false, [])), era) == Ok(Withdrawal(None, 0))
  {
    assert [first, second][..1] == [first] && [first][..0] == [];
    assert Due([first], era, true) == [first] && Due([first], era, false) == [];
    assert Due([first, second], era, true) == [first] && Due([first, second], era, false) == [second];
    OneAmount(first);
    OneAmount(second);
  }

  lemma OneOfTwoDue(a: Entry, b: Entry, era: nat)
    requires a.era <= era < b.era
    ensures DueEntries([a, b], era, true) == [a] && DueEntries([a, b], era, false) == [b]
  {
    assert [a, b][..1] == [a] && [a][..0] == [];
    assert DueEntries([a], era, true) == [a] && DueEntries([a], era, false) == [];
  }

  /** Finalizing the one entry that is due, out of nothing. */
  lemma ClosesOne(t: Treasury, a: Entry, b: Entry)
    requires t.queue == [a, b] && a.era <= t.era < b.era && 0 < a.amount <= U128_MAX
    requires a.id in t.recs && t.recs[a.id].status == Retiring(a.era) && t.recs[a.id].pendingBurn <= U128_MAX
    requires Withdraw(t.stake, t.era) == Ok(Withdrawal(None, 0))
    ensures Finalize(t, a.id)
            == Ok(t.(stake := None, recs := t.recs[a.id := t.recs[a.id].(status := Retired)], queue := [b]))
    ensures Creditable(t)
  {
    OneOfTwoDue(a, b, t.era);
    assert [a][..0] == [];
    assert Expected([a]) == a.amount;
    FittingIsCreditable(t);
    var paid := CreditRecord(t.recs, a.id, 0);
    assert CreditFrom(paid, [a], 1, 0, a.amount, 0) == Ok(paid);
    assert CreditFrom(t.recs, [a], 0, 0, a.amount, 0) == Ok(paid);
  }

  /** One retirement is due, one is not, and nothing is left to withdraw. */
  ghost predicate Drained(t: Treasury) {
    && t.era == 1 && t.queue == [Entry(0, 1, 4), Entry(1, 2, 3)] && 0 in t.recs && 1 in t.recs
    && t.recs[0] == Leaving(0, 1) && t.recs[1].status == Retiring(2)
    && Withdraw(t.stake, t.era) == Ok(Withdrawal(None, 0))
  }

  lemma DrainedRun()
    returns (t: Treasury)
    ensures RunFits(Start(CONFIG), BothOut() + [Slashed(BPS)]) && Run(Start(CONFIG), BothOut() + [Slashed(BPS)]) == t
    ensures Drained(t)
  {
    BothOutRun();
    BothSlashed(4, 3);
    GoesOn(Start(CONFIG), BothOut(), Slashed(BPS));
    LedgerGoes((1, 0), (2, 0), 1);
    t := TwoChunks(0, 0);
  }

  lemma DrainedFinalize(t: Treasury)
    requires Drained(t)
    ensures Fits(t, FinalizeCall(0))
    ensures Step(t, FinalizeCall(0))
            == t.(stake := None, recs := t.recs[0 := t.recs[0].(status := Retired)], queue := [Entry(1, 2, 3)])
  {
    ClosesOne(t, Entry(0, 1, 4), Entry(1, 2, 3));
  }

  /** Its chunk is due and its entry is queued, but the ledger went with the first launch's withdrawal: the second
      launch's retirement is refused. */
  lemma RetirementStranded()
    ensures RunFits(Start(CONFIG), StrandedCalls()) && Inv(Run(Start(CONFIG), StrandedCalls()))
    ensures var t := Run(Start(CONFIG), StrandedCalls());
            && 1 in t.recs && t.recs[1].status == Retiring(t.era) && t.queue == [Entry(1, t.era, 3)]
            && Finalize(t, 1) == Err(StakingFailed(NotController))
  {
    var slashed := BothOut() + [Slashed(BPS)];
    var t := DrainedRun();
    DrainedFinalize(t);
    GoesOn(Start(CONFIG), slashed, FinalizeCall(0));
    GoesOn(Start(CONFIG), slashed + [FinalizeCall(0)], NextEra);
    EndOk(CONFIG, StrandedCalls());
  }
}
