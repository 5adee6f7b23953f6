/** A launch's life over whole runs, saturating calls among them: retirement is one way and comes to an end. */
module TreasuryLifecycle {
  import opened Arith
  import opened Results
  import opened Staking
  import opened TreasurySpec
  import opened TreasurySolvency
  import opened TreasuryRetirement
  import opened TreasuryFinalize
  import opened TreasuryRuns

  /** What a launch's way out rests on: an exact queue, and a balance within 128 bits. */
  ghost predicate LifeOk(t: Treasury) {
    QueueOk(t) && t.vtrs <= U128_MAX
  }

  lemma StepKeepsLife(t: Treasury, call: Call)
    requires LifeOk(t)
    ensures LifeOk(Step(t, call))
  {
    if Dispatch(t, call).Ok? {
      if Quiet(call) {
        QuietShape(t, call);
        SameRecordsQueue(t, Dispatch(t, call).value);
        QuietBalance(t, call);
      } else {
        match call
        case FeeNoted(id, amount) => FeeQueue(t, id, amount);
        case StakeCall(id) =>
          StakeQueue(t, id);
          StakeBalance(t, id);
        case CompoundCall(id, m) => CompoundQueue(t, id, m);
        case RetireCall(id, lastTrade) =>
          RetireQueue(t, id, lastTrade);
          RetireBalance(t, id, lastTrade);
        case FinalizeCall(id) => FinalizeQueue(t, id);
      }
    }
  }

  lemma QuietBalance(t: Treasury, call: Call)
    requires t.vtrs <= U128_MAX && Quiet(call) && Dispatch(t, call).Ok?
    ensures Dispatch(t, call).value.vtrs <= U128_MAX
  {
    match call
    case RetargetCall => RetargetKeepsTotals(t);
    case SetTargetsCall(targets) => RetargetKeepsTotals(t.(targets := targets));
    case Slashed(bps) => SlashLowers(t.stake.value, bps);
    case _ =>
  }

  lemma StakeBalance(t: Treasury, id: nat)
    requires StakePending(t, id).Ok?
    ensures StakePending(t, id).value.vtrs == t.vtrs
  {
  }

  lemma RetireBalance(t: Treasury, id: nat, lastTrade: Option<nat>)
    requires Retire(t, id, lastTrade).Ok?
    ensures Retire(t, id, lastTrade).value.vtrs == t.vtrs
  {
    RetireIsRedeem(t, id, lastTrade);
    var t1 := Harvest(t).value;
    RedeemIs(t1, id, Settle(t1.perShare, t.recs[id]).value);
  }

  // ---- one way --------------------------------------------------------------------------

  /** A launch that is no longer active is left as it is, or brought nearer its end. */
  ghost predicate OneWay(t: Treasury, t': Treasury, id: nat)
    requires id in t.recs
  {
    id in t'.recs && (t'.recs[id] == t.recs[id] || Below(t'.recs[id], t.recs[id]))
  }

  lemma FinalizeOneWay(t: Treasury, finalized: nat, id: nat)
    requires QueueOk(t) && Finalize(t, finalized).Ok? && id in t.recs
    ensures OneWay(t, Finalize(t, finalized).value, id)
    ensures finalized == id ==> Finalize(t, finalized).value.recs[id] != t.recs[id]
  {
    var m := DueEntries(t.queue, t.era, true);
    FinalizeCloses(t, finalized);
    if Names(m, id) {
      var j :| 0 <= j < |m| && m[j].id == id;
      MaturedOk(t, j);
    }
  }

  lemma CompoundOneWay(t: Treasury, compounded: nat, m: Market, id: nat)
    requires LifeOk(t) && Compound(t, compounded, m).Ok? && id in t.recs && t.recs[id].status != Active
    ensures OneWay(t, Compound(t, compounded, m).value, id)
    ensures compounded == id ==> Compound(t, compounded, m).value.recs[id] != t.recs[id]
  {
    WorkShape(t, compounded, m);
    if compounded == id {
      CompoundDescends(t, id, m);
    }
  }

  lemma FeeOneWay(t: Treasury, launch: nat, amount: nat, id: nat)
    requires Fee(t, launch, amount).Ok? && id in t.recs && t.recs[id].status != Active
    ensures OneWay(t, Fee(t, launch, amount).value, id)
  {
  }

  lemma LaunchOneWay(t: Treasury, call: Call, id: nat)
    requires LifeOk(t) && !Quiet(call) && Dispatch(t, call).Ok?
    requires id in t.recs && t.recs[id].status != Active
    ensures OneWay(t, Dispatch(t, call).value, id)
  {
    match call
    case FeeNoted(launch, amount) => FeeOneWay(t, launch, amount, id);
    case StakeCall(launch) => StakeShape(t, launch);
    case CompoundCall(launch, m) => CompoundOneWay(t, launch, m, id);
    case RetireCall(launch, lastTrade) => RetireQueue(t, launch, lastTrade);
    case FinalizeCall(launch) => FinalizeOneWay(t, launch, id);
  }

  lemma StepOneWay(t: Treasury, call: Call, id: nat)
    requires LifeOk(t) && id in t.recs && t.recs[id].status != Active
    ensures OneWay(t, Step(t, call), id) && Step(t, call).recs[id].status != Active
  {
    if Dispatch(t, call).Ok? {
      if Quiet(call) {
        QuietShape(t, call);
      } else {
        LaunchOneWay(t, call, id);
      }
    }
  }

  /** Over every run a launch that has begun to retire never becomes active, holds no share and no pending fee, and only
      ever comes nearer its end. */
  lemma {:induction false} RetirementIsOneWay(t: Treasury, calls: seq<Call>, id: nat)
    requires LifeOk(t) && id in t.recs && t.recs[id].status != Active
    ensures var e := Run(t, calls);
            && OneWay(t, e, id)
            && e.recs[id].status != Active && e.recs[id].shares == 0 && e.recs[id].pending == 0
            && e.recs[id].lnrgDebt == 0
    decreases |calls|
  {
    if calls == [] {
      assert RecordOk(t.recs, t.queue, id);
    } else {
      var t1 := Step(t, calls[0]);
      StepKeepsLife(t, calls[0]);
      StepOneWay(t, calls[0], id);
      RetirementIsOneWay(t1, calls[1..], id);
      var e := Run(t1, calls[1..]);
      if t1.recs[id] != t.recs[id] && e.recs[id] != t1.recs[id] {
        BelowTwice(e.recs[id], t1.recs[id], t.recs[id]);
      }
    }
  }

  /** A closed record stays as it is over every run: no fee reopens it. */
  lemma ClosedForever(t: Treasury, calls: seq<Call>, id: nat)
    requires LifeOk(t) && id in t.recs && Closed(t.recs[id])
    ensures id in Run(t, calls).recs && Run(t, calls).recs[id] == t.recs[id]
  {
    RetirementIsOneWay(t, calls, id);
  }

  /** Along any infinite execution the record of a launch that has begun to retire stops changing, and from then on no
      compound or finalize call on it succeeds: only finitely many ever do. */
  lemma RetirementEnds(states: nat -> Treasury, calls: nat -> Call, id: nat)
    requires LifeOk(states(0)) && id in states(0).recs && states(0).recs[id].status != Active
    requires forall n: nat :: Follows(states, calls, n)
    ensures exists last: nat :: UnchangedFrom(states, id, last) && NothingSucceedsFrom(states, calls, id, last)
  {
    var f: nat -> Record := (n: nat) => RecordIn(states(n), id);
    forall n: nat
      ensures StaysOrFalls(f, n)
    {
      FollowsOneWay(states, calls, id, n);
    }
    EventuallyStill(f, 0);
    var last: nat :| StillFrom(f, last);
    forall n: nat | n >= last
      ensures RecordIn(states(n), id) == RecordIn(states(last), id)
    {
      assert f(n) == f(last);
    }
    assert UnchangedFrom(states, id, last);
    StillMeansStuck(states, calls, id, last);
  }

  lemma FollowsOneWay(states: nat -> Treasury, calls: nat -> Call, id: nat, n: nat)
    requires LifeOk(states(0)) && id in states(0).recs && states(0).recs[id].status != Active
    requires forall i: nat :: Follows(states, calls, i)
    ensures var r, r' := RecordIn(states(n), id), RecordIn(states(n + 1), id); r' == r || Below(r', r)
  {
    Reached(states, calls, id, n);
    assert Follows(states, calls, n);
    StepOneWay(states(n), calls(n), id);
  }

  lemma StillMeansStuck(states: nat -> Treasury, calls: nat -> Call, id: nat, last: nat)
    requires LifeOk(states(0)) && id in states(0).recs && states(0).recs[id].status != Active
    requires forall n: nat :: Follows(states, calls, n)
    requires UnchangedFrom(states, id, last)
    ensures NothingSucceedsFrom(states, calls, id, last)
  {
    forall n: nat | n >= last && Works(calls(n), id)
      ensures !Dispatch(states(n), calls(n)).Ok?
    {
      Reached(states, calls, id, n);
      assert Follows(states, calls, n);
      assert RecordIn(states(n + 1), id) == RecordIn(states(last), id) == RecordIn(states(n), id);
      SuccessMoves(states(n), calls(n), id);
    }
  }

  /** A call that works towards a launch's end. */
  predicate Works(call: Call, id: nat) {
    (call.CompoundCall? || call.FinalizeCall?) && call.launch == id
  }

  ghost predicate NothingSucceedsFrom(states: nat -> Treasury, calls: nat -> Call, id: nat, last: nat) {
    forall n: nat :: n >= last && Works(calls(n), id) ==> !Dispatch(states(n), calls(n)).Ok?
  }

  /** Every success strictly changes the record. */
  lemma SuccessMoves(t: Treasury, call: Call, id: nat)
    requires LifeOk(t) && id in t.recs && t.recs[id].status != Active && Works(call, id)
    ensures Dispatch(t, call).Ok? ==> id in Step(t, call).recs && Step(t, call).recs[id] != t.recs[id]
  {
    if Dispatch(t, call).Ok? {
      if call.CompoundCall? {
        CompoundOneWay(t, id, call.market, id);
      } else {
        FinalizeOneWay(t, id, id);
      }
    }
  }

  function RecordIn(t: Treasury, id: nat): Record {
    if id in t.recs then t.recs[id] else Record(0, 0, 0, 0, 0, 0, 0, Retired)
  }

  ghost predicate UnchangedFrom(states: nat -> Treasury, id: nat, last: nat) {
    forall n: nat :: n >= last ==> RecordIn(states(n), id) == RecordIn(states(last), id)
  }

  /** The execution takes its `n`-th call. */
  predicate Follows(states: nat -> Treasury, calls: nat -> Call, n: nat) {
    states(n + 1) == Step(states(n), calls(n))
  }

  lemma {:induction false} Reached(states: nat -> Treasury, calls: nat -> Call, id: nat, n: nat)
    requires LifeOk(states(0)) && id in states(0).recs && states(0).recs[id].status != Active
    requires forall i: nat :: Follows(states, calls, i)
    ensures LifeOk(states(n)) && id in states(n).recs && states(n).recs[id].status != Active
    decreases n
  {
    if n > 0 {
      Reached(states, calls, id, n - 1);
      assert Follows(states, calls, n - 1);
      StepKeepsLife(states(n - 1), calls(n - 1));
      StepOneWay(states(n - 1), calls(n - 1), id);
    }
  }
}
