/** The staking ledger as it runs: one stash's ledger updated in place, chunk by chunk and target by target. */
module StakingPallet {
  import opened Arith
  import opened Results
  import opened Staking

  class StakingLedger {
    const rules: Rules
    var stash: Option<Stake>
    var era: nat
    var cooperable: set<nat>
    var reputationOk: bool

    constructor (rules: Rules)
      ensures this.rules == rules && stash == None && era == 0 && cooperable == {} && reputationOk
    {
      this.rules := rules;
      stash, era, cooperable, reputationOk := None, 0, {}, true;
    }

    method Bond(value: nat, free: nat) returns (r: Result<(), StakeError>)
      modifies this`stash
      ensures match Staking.Bond(rules, old(stash), value, free)
              case Ok(l) => r == Ok(()) && stash == Some(l)
              case Err(e) => r == Err(e) && stash == old(stash)
    {
      if stash.Some? {
        return Err(AlreadyBonded);
      }
      if value < rules.ed {
        return Err(InsufficientBond);
      }
      stash := Some(Stake(Min(value, free), [], false, []));
      return Ok(());
    }

    method BondExtra(most: nat, free: nat) returns (r: Result<(), StakeError>)
      modifies this`stash
      ensures match Staking.BondExtra(rules, old(stash), most, free)
              case Ok(l) => r == Ok(()) && stash == Some(l)
              case Err(e) => r == Err(e) && stash == old(stash)
    {
      if stash.None? {
        return Err(NotStash);
      }
      var l := stash.value;
      if TotalOf(l) <= free {
        var extra := Min(free - TotalOf(l), most);
        l := l.(active := l.active + extra);
        if l.active < rules.ed {
          return Err(InsufficientBond);
        }
        stash := Some(l);
      }
      return Ok(());
    }

    method Cooperate(targets: Pairs) returns (r: Result<(), StakeError>)
      modifies this`stash
      ensures match Staking.Cooperate(rules, old(stash), targets, cooperable, reputationOk)
              case Ok(l) => r == Ok(()) && stash == Some(l)
              case Err(e) => r == Err(e) && stash == old(stash)
    {
      if stash.None? {
        return Err(NotController);
      }
      var l := stash.value;
      if l.active < rules.minCoopBond || Amounts(targets) > l.active {
        return Err(InsufficientBond);
      }
      if targets == [] {
        return Err(EmptyTargets);
      }
      if !reputationOk {
        return Err(ReputationTooLow);
      }
      for i := 0 to |targets|
        invariant forall j :: 0 <= j < i ==> targets[j].0 in cooperable
        invariant stash == old(stash)
      {
        if targets[i].0 !in cooperable {
          return Err(BadTarget);
        }
      }
      l := l.(cooperating := true);
      l := l.(targets := targets);
      stash := Some(l);
      return Ok(());
    }

    method Chill() returns (r: Result<(), StakeError>)
      modifies this`stash
      ensures match Staking.Chill(old(stash))
              case Ok(l) => r == Ok(()) && stash == Some(l)
              case Err(e) => r == Err(e) && stash == old(stash)
    {
      if stash.None? {
        return Err(NotController);
      }
      stash := Some(stash.value.(cooperating := false, targets := []));
      return Ok(());
    }

    /** Scales every target down with the active stake, one by one. */
    method ScaleTargets(targets: Pairs, active: nat) returns (t: Pairs)
      ensures t == FollowDown(targets, active)
    {
      t := targets;
      var whole := Amounts(targets);
      if whole > active {
        for i := 0 to |targets|
          invariant |t| == |targets|
          invariant forall k :: 0 <= k < i ==> t[k] == (targets[k].0, targets[k].1 * active / whole)
          invariant forall k :: i <= k < |t| ==> t[k] == targets[k]
        {
          t := t[i := (t[i].0, t[i].1 * active / whole)];
        }
        assert t == Scaled(targets, active, whole);
      }
    }

    method Unbond(want: nat) returns (r: Result<(), StakeError>)
      modifies this`stash
      ensures match Staking.Unbond(rules, old(stash), want, era)
              case Ok(l) => r == Ok(()) && stash == Some(l)
              case Err(e) => r == Err(e) && stash == old(stash)
    {
      if stash.None? {
        return Err(NotController);
      }
      var l := stash.value;
      if |l.unlocking| >= rules.maxChunks {
        return Err(NoMoreChunks);
      }
      var value := Min(want, l.active);
      if value == 0 {
        return Ok(());
      }
      l := l.(active := l.active - value);
      if l.active < rules.ed {
        value := value + l.active;
        l := l.(active := 0);
      }
      if l.cooperating && l.active < rules.minCoopBond {
        return Err(InsufficientBond);
      }
      l := l.(unlocking := PushChunk(l.unlocking, era + rules.bondingDuration, value));
      var targets := ScaleTargets(l.targets, l.active);
      l := l.(targets := targets);
      stash := Some(l);
      return Ok(());
    }

    /** Parts the chunks into matured and waiting, in one pass. */
    method Partition(chunks: Pairs) returns (matured: Pairs, waiting: Pairs)
      ensures matured == Due(chunks, era, true) && waiting == Due(chunks, era, false)
    {
      matured, waiting := [], [];
      for i := 0 to |chunks|
        invariant matured == Due(chunks[..i], era, true) && waiting == Due(chunks[..i], era, false)
      {
        assert chunks[..i + 1][..i] == chunks[..i];
        if chunks[i].0 <= era {
          matured := matured + [chunks[i]];
        } else {
          waiting := waiting + [chunks[i]];
        }
      }
      assert chunks[..|chunks|] == chunks;
    }

    method WithdrawUnbonded() returns (r: Result<nat, StakeError>)
      modifies this`stash
      ensures match Staking.Withdraw(old(stash), era)
              case Ok(w) => r == Ok(w.amount) && stash == w.stake
              case Err(e) => r == Err(e) && stash == old(stash)
    {
      if stash.None? {
        return Err(NotController);
      }
      var l := stash.value;
      var matured, waiting := Partition(l.unlocking);
      l := l.(unlocking := waiting);
      if TotalOf(l) == 0 {
        stash := None;
      } else {
        stash := Some(l);
      }
      return Ok(Amounts(matured));
    }

    /** Cuts every chunk, one by one. */
    method CutChunks(chunks: Pairs, bps: nat) returns (c: Pairs)
      requires bps <= BPS
      ensures c == CutAll(chunks, bps)
    {
      c := chunks;
      for i := 0 to |chunks|
        invariant |c| == |chunks|
        invariant forall k :: 0 <= k < i ==> c[k] == (chunks[k].0, Cut(chunks[k].1, bps))
        invariant forall k :: i <= k < |c| ==> c[k] == chunks[k]
      {
        c := c[i := (c[i].0, Cut(c[i].1, bps))];
      }
    }

    /** Slashes the whole ledger; answers what left it. */
    method Slash(bps: nat) returns (cut: nat)
      requires bps <= BPS && stash.Some?
      modifies this`stash
      ensures stash == Some(Staking.Slash(old(stash).value, bps))
      ensures cut == TotalOf(old(stash).value) - TotalOf(stash.value)
    {
      var l := stash.value;
      var before := TotalOf(l);
      SlashLowers(l, bps);
      var unlocking := CutChunks(l.unlocking, bps);
      l := l.(active := Cut(l.active, bps));
      l := l.(unlocking := unlocking);
      var targets := ScaleTargets(l.targets, l.active);
      l := l.(targets := targets);
      stash := Some(l);
      cut := before - TotalOf(l);
    }
  }
}
