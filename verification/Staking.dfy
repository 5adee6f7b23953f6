/** The staking ledger the treasury bonds into: bond, cooperate, unbond, withdraw and slash, by its own rules. */
module Staking {
  import opened Arith
  import opened Results

  /** `(era, amount)` chunks and `(validator, stake)` targets alike. */
  type Pairs = seq<(nat, nat)>

  datatype Stake = Stake(active: nat, unlocking: Pairs, cooperating: bool, targets: Pairs)

  /** The constants of the staking side; a cooperator's minimum is at least the existential deposit. */
  datatype Rules = Rules(ed: nat, minCoopBond: nat, bondingDuration: nat, maxChunks: nat)

  datatype StakeError =
    | AlreadyBonded | NotStash | NotController | InsufficientBond | EmptyTargets | ReputationTooLow | BadTarget
    | NoMoreChunks

  /** Sum of the second components. */
  function Amounts(p: Pairs): nat {
    if p == [] then 0 else Amounts(p[..|p| - 1]) + p[|p| - 1].1
  }

  function TotalOf(l: Stake): nat {
    l.active + Amounts(l.unlocking)
  }

  function Cooperated(l: Stake): nat {
    Amounts(l.targets)
  }

  function ActiveOf(s: Option<Stake>): nat {
    if s.Some? then s.value.active else 0
  }

  function HeldBy(s: Option<Stake>): nat {
    if s.Some? then TotalOf(s.value) else 0
  }

  predicate IsCooperating(s: Option<Stake>) {
    s.Some? && s.value.cooperating
  }

  // ---- operations -----------------------------------------------------------------

  function Bond(r: Rules, s: Option<Stake>, value: nat, free: nat): Result<Stake, StakeError> {
    if s.Some? then Err(AlreadyBonded)
    else if value < r.ed then Err(InsufficientBond)
    else Ok(Stake(Min(value, free), [], false, []))
  }

  function BondExtra(r: Rules, s: Option<Stake>, most: nat, free: nat): Result<Stake, StakeError> {
    if s.None? then Err(NotStash)
    else
      var l := s.value;
      if free < TotalOf(l) then Ok(l)
      else
        var active := l.active + Min(free - TotalOf(l), most);
        if active < r.ed then Err(InsufficientBond) else Ok(l.(active := active))
  }

  function Cooperate(r: Rules, s: Option<Stake>, targets: Pairs, cooperable: set<nat>, reputationOk: bool)
    : Result<Stake, StakeError>
  {
    if s.None? then Err(NotController)
    else if s.value.active < r.minCoopBond then Err(InsufficientBond)
    else if Amounts(targets) > s.value.active then Err(InsufficientBond)
    else if targets == [] then Err(EmptyTargets)
    else if !reputationOk then Err(ReputationTooLow)
    else if exists i :: 0 <= i < |targets| && targets[i].0 !in cooperable then Err(BadTarget)
    else Ok(s.value.(cooperating := true, targets := targets))
  }

  function Chill(s: Option<Stake>): Result<Stake, StakeError> {
    if s.None? then Err(NotController) else Ok(s.value.(cooperating := false, targets := []))
  }

  /** Each pair scaled by `total / whole`, rounded down. */
  function Scaled(p: Pairs, total: nat, whole: nat): (q: Pairs)
    requires whole > 0
    ensures |q| == |p|
  {
    seq(|p|, i requires 0 <= i < |p| => (p[i].0, p[i].1 * total / whole))
  }

  /** Targets follow a lower active stake down; they never follow it up. */
  function FollowDown(targets: Pairs, active: nat): Pairs {
    if Amounts(targets) > active then Scaled(targets, active, Amounts(targets)) else targets
  }

  /** A chunk joins the last one when both mature in the same era. */
  function PushChunk(u: Pairs, era: nat, value: nat): Pairs {
    if u != [] && u[|u| - 1].0 == era then u[..|u| - 1] + [(era, u[|u| - 1].1 + value)] else u + [(era, value)]
  }

  /** What `unbond` takes: the rest goes too when it would be left below the existential deposit. */
  function Swept(r: Rules, active: nat, value: nat): nat
    requires value <= active
  {
    if active - value < r.ed then active else value
  }

  function Unbond(r: Rules, s: Option<Stake>, want: nat, era: nat): Result<Stake, StakeError> {
    if s.None? then Err(NotController)
    else
      var l := s.value;
      if |l.unlocking| >= r.maxChunks then Err(NoMoreChunks)
      else if Min(want, l.active) == 0 then Ok(l)
      else
        var value := Swept(r, l.active, Min(want, l.active));
        var active := l.active - value;
        if l.cooperating && active < r.minCoopBond then Err(InsufficientBond)
        else
          Ok(Stake(active, PushChunk(l.unlocking, era + r.bondingDuration, value), l.cooperating,
                   FollowDown(l.targets, active)))
  }

  /** The chunks of `p` that have (`matured`) or have not reached `era`, in order. */
  function Due(p: Pairs, era: nat, matured: bool): Pairs {
    if p == [] then []
    else
      var rest := Due(p[..|p| - 1], era, matured);
      if (p[|p| - 1].0 <= era) == matured then rest + [p[|p| - 1]] else rest
  }

  datatype Withdrawal = Withdrawal(stake: Option<Stake>, amount: nat)

  function Withdraw(s: Option<Stake>, era: nat): Result<Withdrawal, StakeError> {
    if s.None? then Err(NotController)
    else
      var l := s.value.(unlocking := Due(s.value.unlocking, era, false));
      Ok(Withdrawal(if TotalOf(l) == 0 then None else Some(l), Amounts(Due(s.value.unlocking, era, true))))
  }

  function Cut(v: nat, bps: nat): (c: nat)
    requires bps <= BPS
    ensures c <= v
  {
    MulDivAtMost(v, bps, BPS);
    v - v * bps / BPS
  }

  function CutAll(p: Pairs, bps: nat): (q: Pairs)
    requires bps <= BPS
    ensures |q| == |p|
  {
    seq(|p|, i requires 0 <= i < |p| => (p[i].0, Cut(p[i].1, bps)))
  }

  /** A slash of `bps` on active stake and chunks alike; targets follow. */
  function Slash(l: Stake, bps: nat): Stake
    requires bps <= BPS
  {
    var active := Cut(l.active, bps);
    Stake(active, CutAll(l.unlocking, bps), l.cooperating, FollowDown(l.targets, active))
  }

  // ---- totals -----------------------------------------------------------------------

  lemma PushChunkAdds(u: Pairs, era: nat, value: nat)
    ensures Amounts(PushChunk(u, era, value)) == Amounts(u) + value
  {
    if u != [] && u[|u| - 1].0 == era {
      var head := u[..|u| - 1];
      assert (head + [(era, u[|u| - 1].1 + value)])[..|head|] == head;
    } else {
      assert (u + [(era, value)])[..|u|] == u;
    }
  }

  /** Chunks split into matured and waiting with nothing lost. */
  lemma {:induction false} DueSplits(p: Pairs, era: nat)
    ensures Amounts(Due(p, era, true)) + Amounts(Due(p, era, false)) == Amounts(p)
  {
    if p != [] {
      DueSplits(p[..|p| - 1], era);
      var rest := Due(p[..|p| - 1], era, p[|p| - 1].0 <= era);
      assert (rest + [p[|p| - 1]])[..|rest|] == rest;
    }
  }

  lemma {:induction false} CutAllLowers(p: Pairs, bps: nat)
    requires bps <= BPS
    ensures Amounts(CutAll(p, bps)) <= Amounts(p)
  {
    if p != [] {
      CutAllLowers(p[..|p| - 1], bps);
      assert CutAll(p, bps)[..|p| - 1] == CutAll(p[..|p| - 1], bps);
    }
  }

  /** Unbonding moves stake between active and unlocking; the ledger's total stands. */
  lemma UnbondKeepsTotal(r: Rules, s: Option<Stake>, want: nat, era: nat)
    requires Unbond(r, s, want, era).Ok?
    ensures s.Some? && TotalOf(Unbond(r, s, want, era).value) == TotalOf(s.value)
  {
    var l := s.value;
    if Min(want, l.active) > 0 {
      PushChunkAdds(l.unlocking, era + r.bondingDuration, Swept(r, l.active, Min(want, l.active)));
    }
  }

  lemma {:induction false} DueIsDue(p: Pairs, era: nat, matured: bool)
    ensures forall i :: 0 <= i < |Due(p, era, matured)| ==>
              Due(p, era, matured)[i] in p && (Due(p, era, matured)[i].0 <= era) == matured
  {
    if p != [] {
      DueIsDue(p[..|p| - 1], era, matured);
    }
  }

  /** A withdrawal takes exactly the matured chunks off the ledger, and those it leaves wait. */
  lemma WithdrawTakesMatured(s: Option<Stake>, era: nat)
    requires Withdraw(s, era).Ok?
    ensures var w := Withdraw(s, era).value;
            && s.Some? && w.amount == Amounts(Due(s.value.unlocking, era, true))
            && HeldBy(w.stake) + w.amount == HeldBy(s) && ActiveOf(w.stake) == ActiveOf(s)
            && (w.stake.Some? ==>
                  forall c :: c in w.stake.value.unlocking ==> c in s.value.unlocking && era < c.0)
  {
    DueSplits(s.value.unlocking, era);
    DueIsDue(s.value.unlocking, era, false);
  }

  lemma DueSnoc(p: Pairs, c: (nat, nat), era: nat)
    ensures Due(p + [c], era, true) == if c.0 <= era then Due(p, era, true) + [c] else Due(p, era, true)
  {
    assert (p + [c])[..|p|] == p;
  }

  lemma PushReleases(u: Pairs, due: nat, value: nat, e: nat)
    ensures Amounts(Due(PushChunk(u, due, value), e, true))
            == Amounts(Due(u, e, true)) + (if due <= e then value else 0)
  {
    if u != [] && u[|u| - 1].0 == due {
      var head, last := u[..|u| - 1], u[|u| - 1];
      assert u == head + [last];
      DueSnoc(head, last, e);
      DueSnoc(head, (due, last.1 + value), e);
      LastAmount(Due(head, e, true), last);
      LastAmount(Due(head, e, true), (due, last.1 + value));
    } else {
      DueSnoc(u, (due, value), e);
      LastAmount(Due(u, e, true), (due, value));
    }
  }

  lemma UnbondPushes(r: Rules, s: Option<Stake>, want: nat, era: nat)
    requires Unbond(r, s, want, era).Ok?
    ensures s.Some?
    ensures var l, l' := s.value, Unbond(r, s, want, era).value;
            && l'.active <= l.active
            && l'.unlocking == (if l'.active == l.active then l.unlocking
                                else PushChunk(l.unlocking, era + r.bondingDuration, l.active - l'.active))
  {
  }

  /** What is unbonded now can be withdrawn from its own era on and not before: until then the matured amount is what it
      would have been. */
  lemma NothingReleasedEarly(r: Rules, s: Option<Stake>, want: nat, era: nat, e: nat)
    requires Unbond(r, s, want, era).Ok?
    ensures s.Some?
    ensures var l, l' := s.value, Unbond(r, s, want, era).value;
            Amounts(Due(l'.unlocking, e, true))
            == Amounts(Due(l.unlocking, e, true)) + (if era + r.bondingDuration <= e then l.active - l'.active else 0)
  {
    var l, l' := s.value, Unbond(r, s, want, era).value;
    UnbondPushes(r, s, want, era);
    PushReleases(l.unlocking, era + r.bondingDuration, l.active - l'.active, e);
  }

  lemma LastAmount(p: Pairs, c: (nat, nat))
    ensures Amounts(p + [c]) == Amounts(p) + c.1
  {
    assert (p + [c])[..|p|] == p;
  }

  /** A slash takes its share, rounded down, of the active stake and of every chunk, and moves no chunk's era. */
  lemma SlashCuts(l: Stake, bps: nat)
    requires bps <= BPS
    ensures var l' := Slash(l, bps);
            && l'.active <= l.active && IsShare(l.active - l'.active, l.active, bps)
            && |l'.unlocking| == |l.unlocking| && l'.cooperating == l.cooperating
            && forall i :: 0 <= i < |l.unlocking| ==>
                 && l'.unlocking[i].0 == l.unlocking[i].0 && l'.unlocking[i].1 <= l.unlocking[i].1
                 && IsShare(l.unlocking[i].1 - l'.unlocking[i].1, l.unlocking[i].1, bps)
  {
    CutIsShare(l.active, bps);
    forall i | 0 <= i < |l.unlocking|
      ensures IsShare(l.unlocking[i].1 - Cut(l.unlocking[i].1, bps), l.unlocking[i].1, bps)
    {
      CutIsShare(l.unlocking[i].1, bps);
    }
  }

  lemma CutIsShare(v: nat, bps: nat)
    requires bps <= BPS
    ensures IsShare(v - Cut(v, bps), v, bps)
  {
    FloorBounds(v * bps, BPS);
  }

  lemma SlashLowers(l: Stake, bps: nat)
    requires bps <= BPS
    ensures TotalOf(Slash(l, bps)) <= TotalOf(l) && Slash(l, bps).active <= l.active
  {
    CutAllLowers(l.unlocking, bps);
  }

  // ---- cooperation tracks stake -------------------------------------------------------

  /** A cooperator's targets add up to its active stake, less at most one unit each. */
  predicate Tracks(l: Stake) {
    l.cooperating ==> l.targets != [] && 0 <= l.active - Cooperated(l) <= |l.targets|
  }

  lemma {:induction false} ScaledBounds(p: Pairs, total: nat, whole: nat)
    requires whole > 0
    ensures var q := Amounts(Scaled(p, total, whole));
            q * whole <= Amounts(p) * total && Amounts(p) * total <= q * whole + |p| * whole
  {
    if p != [] {
      var head, last := p[..|p| - 1], p[|p| - 1].1;
      ScaledBounds(head, total, whole);
      assert Scaled(p, total, whole)[..|p| - 1] == Scaled(head, total, whole);
      assert Amounts(Scaled(p, total, whole)) == Amounts(Scaled(head, total, whole)) + last * total / whole;
      FloorBounds(last * total, whole);
      ScaledStep(Amounts(Scaled(head, total, whole)), Amounts(head), |head|, last, last * total / whole, total, whole);
    }
  }

  lemma ScaledStep(q: nat, a: nat, n: nat, last: nat, part: nat, total: nat, whole: nat)
    requires q * whole <= a * total && a * total <= q * whole + n * whole
    requires part * whole <= last * total <= part * whole + whole
    ensures (q + part) * whole <= (a + last) * total
    ensures (a + last) * total <= (q + part) * whole + (n + 1) * whole
  {
    assert (q + part) * whole == q * whole + part * whole;
    assert (a + last) * total == a * total + last * total;
    assert (n + 1) * whole == n * whole + whole;
  }

  lemma ScaledWithin(q: nat, n: nat, active: nat, whole: nat)
    requires whole > 0 && q * whole <= whole * active <= q * whole + n * whole
    ensures q <= active <= q + n
  {
    assert whole * active == active * whole;
    assert (q + n) * whole == q * whole + n * whole;
    MulCancel(q, active, whole);
    MulCancel(active, q + n, whole);
  }

  /** However far the active stake falls, the targets that follow it fall short by at most one unit each. */
  lemma FollowDownTracks(targets: Pairs, before: nat, active: nat)
    requires Amounts(targets) <= before <= Amounts(targets) + |targets| && active <= before
    ensures var t := FollowDown(targets, active);
            |t| == |targets| && Amounts(t) <= active <= Amounts(t) + |t|
  {
    var whole := Amounts(targets);
    if whole > active {
      ScaledBounds(targets, active, whole);
      ScaledWithin(Amounts(Scaled(targets, active, whole)), |targets|, active, whole);
    }
  }

  /** A slash, or any number of them, leaves the cooperation within one unit a target of the stake. */
  lemma SlashTracks(l: Stake, bps: nat)
    requires bps <= BPS && Tracks(l)
    ensures Tracks(Slash(l, bps)) && |Slash(l, bps).targets| == |l.targets|
  {
    if l.cooperating {
      FollowDownTracks(l.targets, l.active, Cut(l.active, bps));
    }
  }

  lemma UnbondTracks(r: Rules, s: Option<Stake>, want: nat, era: nat)
    requires Unbond(r, s, want, era).Ok? && s.Some? && Tracks(s.value)
    ensures Tracks(Unbond(r, s, want, era).value)
    ensures |Unbond(r, s, want, era).value.targets| == |s.value.targets|
  {
    var l := s.value;
    if l.cooperating && Min(want, l.active) > 0 {
      FollowDownTracks(l.targets, l.active, l.active - Swept(r, l.active, Min(want, l.active)));
    }
  }

  /** Equal parts of `active`, the first with the remainder. */
  function EqualParts(active: nat, survivors: seq<nat>): (t: Pairs)
    requires survivors != []
    ensures |t| == |survivors| && forall i :: 0 <= i < |t| ==> t[i].0 == survivors[i]
  {
    var each := active / |survivors|;
    var extra := active - each * |survivors|;
    seq(|survivors|, i requires 0 <= i < |survivors| => (survivors[i], if i == 0 then each + extra else each))
  }

  lemma MulNext(each: nat, n: nat)
    requires n > 0
    ensures each * n == each * (n - 1) + each
  {
  }

  lemma {:induction false} EqualPartsPrefix(active: nat, survivors: seq<nat>, n: nat)
    requires survivors != [] && 1 <= n <= |survivors|
    ensures var each := active / |survivors|;
            Amounts(EqualParts(active, survivors)[..n]) == each * n + (active - each * |survivors|)
  {
    var t := EqualParts(active, survivors);
    assert t[..n][..n - 1] == t[..n - 1];
    if n > 1 {
      EqualPartsPrefix(active, survivors, n - 1);
      MulNext(active / |survivors|, n);
    }
  }

  /** The whole of `total` in equal parts, all but the first, which has what the others' rounding leaves. */
  predicate EvenlySplit(p: Pairs, total: nat) {
    && p != [] && Amounts(p) == total && p[0].1 < total / |p| + |p|
    && forall i :: 0 < i < |p| ==> p[i].1 == total / |p|
  }

  /** The split hands out the whole stake, evenly. */
  lemma EqualPartsAddUp(active: nat, survivors: seq<nat>)
    requires survivors != []
    ensures EvenlySplit(EqualParts(active, survivors), active)
  {
    FloorBounds(active, |survivors|);
    EqualPartsPrefix(active, survivors, |survivors|);
    assert EqualParts(active, survivors)[..|survivors|] == EqualParts(active, survivors);
  }

  /** Over a big enough stake and cooperable targets, only a bad reputation stops a cooperation, which then matches the
      stake exactly. */
  lemma CooperateIffReputable(r: Rules, s: Option<Stake>, survivors: seq<nat>, cooperable: set<nat>,
                              reputationOk: bool)
    requires s.Some? && s.value.active >= r.minCoopBond && survivors != []
    requires forall v :: v in survivors ==> v in cooperable
    ensures var c := Cooperate(r, s, EqualParts(s.value.active, survivors), cooperable, reputationOk);
            && (c.Ok? <==> reputationOk)
            && (c.Ok? ==> c.value.cooperating && Cooperated(c.value) == c.value.active == s.value.active
                          && TotalOf(c.value) == TotalOf(s.value)
                          && EvenlySplit(c.value.targets, s.value.active) && |c.value.targets| == |survivors|
                          && forall i :: 0 <= i < |survivors| ==> c.value.targets[i].0 == survivors[i])
  {
    EqualPartsAddUp(s.value.active, survivors);
    var t := EqualParts(s.value.active, survivors);
    forall i | 0 <= i < |t|
      ensures t[i].0 in cooperable
    {
      assert survivors[i] in survivors;
    }
  }
}
