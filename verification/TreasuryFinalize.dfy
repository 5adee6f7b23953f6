/** Finalizing retirements: the matured entries are credited exactly what came back, and nobody else is touched. */
module TreasuryFinalize {
  import opened Arith
  import opened Results
  import opened Staking
  import opened TreasurySpec
  import opened TreasurySolvency
  import opened TreasuryBacking
  import opened TreasuryRetirement

  // ---- matured and waiting entries ----------------------------------------------------

  /** The due entries are exactly the queue's entries on that side of the era. */
  lemma {:induction false} DueIsFilter(q: seq<Entry>, era: nat, matured: bool, e: Entry)
    ensures e in DueEntries(q, era, matured) <==> e in q && ((e.era <= era) == matured)
  {
    if q != [] {
      DueIsFilter(q[..|q| - 1], era, matured, e);
      assert q == q[..|q| - 1] + [q[|q| - 1]];
    }
  }

  lemma {:induction false} DueStaysDistinct(q: seq<Entry>, era: nat, matured: bool)
    requires Distinct(q)
    ensures Distinct(DueEntries(q, era, matured)) && |DueEntries(q, era, matured)| <= |q|
  {
    if q != [] {
      var head, last := q[..|q| - 1], q[|q| - 1];
      var rest := DueEntries(head, era, matured);
      DueStaysDistinct(head, era, matured);
      forall i | 0 <= i < |rest|
        ensures rest[i].id != last.id
      {
        DueIsFilter(head, era, matured, rest[i]);
      }
    }
  }

  /** A name is due, on one side or the other, exactly when the queue has it. */
  lemma DueNames(q: seq<Entry>, era: nat, id: nat)
    ensures Names(q, id) <==> Names(DueEntries(q, era, true), id) || Names(DueEntries(q, era, false), id)
  {
    var m, w := DueEntries(q, era, true), DueEntries(q, era, false);
    if Names(q, id) {
      var i :| 0 <= i < |q| && q[i].id == id;
      DueIsFilter(q, era, q[i].era <= era, q[i]);
      var side := DueEntries(q, era, q[i].era <= era);
      var j :| 0 <= j < |side| && side[j] == q[i];
    }
    if Names(m, id) {
      var i :| 0 <= i < |m| && m[i].id == id;
      DueIsFilter(q, era, true, m[i]);
      var j :| 0 <= j < |q| && q[j] == m[i];
    }
    if Names(w, id) {
      var i :| 0 <= i < |w| && w[i].id == id;
      DueIsFilter(q, era, false, w[i]);
      var j :| 0 <= j < |q| && q[j] == w[i];
    }
  }

  lemma NotOnBothSides(q: seq<Entry>, era: nat, e: Entry, f: Entry)
    requires Distinct(q) && e in DueEntries(q, era, true) && f in DueEntries(q, era, false)
    ensures e.id != f.id
  {
    DueIsFilter(q, era, true, e);
    DueIsFilter(q, era, false, f);
    var k :| 0 <= k < |q| && q[k] == e;
    var l :| 0 <= l < |q| && q[l] == f;
    assert k != l;
  }

  // ---- credits ----------------------------------------------------------------------------

  /** All that the entries are credited. */
  function CreditedInAll(q: seq<Entry>, w: nat, expected: nat): (all: nat)
    requires expected > 0 && q != []
    ensures w <= all
    ensures all == w <==> FloorShares(q[..|q| - 1], w, expected) <= w
  {
    FloorShares(q[..|q| - 1], w, expected) + CreditOf(q, |q| - 1, w, expected)
  }

  /** What the entries from `i` on are credited. */
  function CreditsFrom(q: seq<Entry>, i: nat, w: nat, expected: nat): nat
    requires expected > 0 && i <= |q|
    decreases |q| - i
  {
    if i == |q| then 0 else CreditOf(q, i, w, expected) + CreditsFrom(q, i + 1, w, expected)
  }

  /** The running sum of credits before entry `i`, as the call keeps it. */
  function Passed(q: seq<Entry>, i: nat, w: nat, expected: nat): nat
    requires expected > 0 && i <= |q|
  {
    Min(FloorShares(q[..i], w, expected), U128_MAX)
  }

  lemma NextShares(q: seq<Entry>, i: nat, w: nat, expected: nat)
    requires expected > 0 && i < |q|
    ensures FloorShares(q[..i + 1], w, expected) == FloorShares(q[..i], w, expected) + ShareOf(q[i], w, expected)
  {
    assert q[..i + 1][..i] == q[..i];
  }

  lemma {:induction false} CreditsAreAll(q: seq<Entry>, i: nat, w: nat, expected: nat)
    requires expected > 0 && i < |q|
    ensures FloorShares(q[..i], w, expected) + CreditsFrom(q, i, w, expected) == CreditedInAll(q, w, expected)
    decreases |q| - i
  {
    if i + 1 < |q| {
      NextShares(q, i, w, expected);
      CreditsAreAll(q, i + 1, w, expected);
    } else {
      assert CreditsFrom(q, i + 1, w, expected) == 0;
    }
  }

  /** Every entry is within what the shares are counted by. */
  predicate Counted(q: seq<Entry>, expected: nat) {
    forall j :: 0 <= j < |q| ==> q[j].amount <= expected
  }

  lemma ShareWithin(e: Entry, w: nat, expected: nat)
    requires 0 < expected && e.amount <= expected
    ensures ShareOf(e, w, expected) <= w
  {
    MulDivAtMost(w, e.amount, expected);
    assert w * e.amount == e.amount * w;
  }

  lemma {:induction false} AmountInSum(q: seq<Entry>, j: nat)
    requires j < |q|
    ensures q[j].amount <= Unbonded(q)
    decreases |q|
  {
    if j < |q| - 1 {
      AmountInSum(q[..|q| - 1], j);
    }
  }

  /** One more credit: never refused, of what `CreditOf` says, and the running sum moves on. */
  lemma OneCredit(recs: map<nat, Record>, q: seq<Entry>, i: nat, w: nat, expected: nat)
    requires expected > 0 && i < |q| && w <= U128_MAX && Counted(q, expected)
    ensures CreditOf(q, i, w, expected) <= w
    ensures CreditFrom(recs, q, i, w, expected, Passed(q, i, w, expected))
            == if i + 1 == |q| then Ok(CreditRecord(recs, q[i].id, CreditOf(q, i, w, expected)))
               else CreditFrom(CreditRecord(recs, q[i].id, CreditOf(q, i, w, expected)), q, i + 1, w, expected,
                               Passed(q, i + 1, w, expected))
  {
    ShareWithin(q[i], w, expected);
    NextShares(q, i, w, expected);
  }

  /** Crediting from `i` on never fails, and adds to the launches exactly what `CreditsFrom` says. */
  lemma {:induction false} CreditsSum(recs: map<nat, Record>, q: seq<Entry>, i: nat, w: nat, expected: nat)
    requires expected > 0 && i < |q| && w <= U128_MAX && Counted(q, expected) && Distinct(q)
    requires forall j :: i <= j < |q| ==> q[j].id in recs && recs[q[j].id].pendingBurn + w <= U128_MAX
    ensures CreditFrom(recs, q, i, w, expected, Passed(q, i, w, expected)).Ok?
    ensures SumOf(CreditFrom(recs, q, i, w, expected, Passed(q, i, w, expected)).value, ToBurn)
            == SumOf(recs, ToBurn) + CreditsFrom(q, i, w, expected)
    decreases |q| - i
  {
    var next := CreditRecord(recs, q[i].id, CreditOf(q, i, w, expected));
    OneCredit(recs, q, i, w, expected);
    SumPut(recs, q[i].id, next[q[i].id], ToBurn);
    if i + 1 < |q| {
      CreditsSum(next, q, i + 1, w, expected);
    } else {
      assert CreditsFrom(q, i + 1, w, expected) == 0;
    }
  }

  lemma {:induction false} CreditsSpareOthers(recs: map<nat, Record>, q: seq<Entry>, i: nat, w: nat, expected: nat,
                                              done: nat, id: nat)
    requires i <= |q| && CreditFrom(recs, q, i, w, expected, done).Ok? && id in recs
    requires forall j :: i <= j < |q| ==> q[j].id != id
    ensures id in CreditFrom(recs, q, i, w, expected, done).value
    ensures CreditFrom(recs, q, i, w, expected, done).value[id] == recs[id]
    decreases |q| - i
  {
    if i < |q| {
      var credit := if i + 1 == |q| then SatSub(w, done) else MulDiv(q[i].amount, w, expected).value;
      CreditsSpareOthers(CreditRecord(recs, q[i].id, credit), q, i + 1, w, expected, SatAdd(done, credit), id);
    }
  }

  /** Whoever is credited is closed, and closed launches stay so. */
  lemma {:induction false} CreditsClose(recs: map<nat, Record>, q: seq<Entry>, i: nat, w: nat, expected: nat, done: nat,
                                        id: nat)
    requires i <= |q| && CreditFrom(recs, q, i, w, expected, done).Ok? && id in recs
    requires recs[id].status == Retired || Names(q[i..], id)
    ensures id in CreditFrom(recs, q, i, w, expected, done).value
    ensures CreditFrom(recs, q, i, w, expected, done).value[id].status == Retired
    decreases |q| - i
  {
    if i < |q| {
      var credit := if i + 1 == |q| then SatSub(w, done) else MulDiv(q[i].amount, w, expected).value;
      var next := CreditRecord(recs, q[i].id, credit);
      if next[id].status != Retired {
        var k :| 0 <= k < |q[i..]| && q[i..][k].id == id;
        assert q[i + 1..][k - 1].id == id;
      }
      CreditsClose(next, q, i + 1, w, expected, SatAdd(done, credit), id);
    }
  }

  /** Crediting from `i` on closes entry `j` with its own part. */
  lemma {:induction false} CreditsLand(recs: map<nat, Record>, q: seq<Entry>, i: nat, w: nat, expected: nat, j: nat)
    requires expected > 0 && i <= j < |q| && w <= U128_MAX && Counted(q, expected) && Distinct(q)
    requires q[j].id in recs && recs[q[j].id].pendingBurn + w <= U128_MAX
    requires CreditFrom(recs, q, i, w, expected, Passed(q, i, w, expected)).Ok?
    ensures var r := CreditFrom(recs, q, i, w, expected, Passed(q, i, w, expected)).value;
            && q[j].id in r
            && r[q[j].id] == recs[q[j].id].(
                 pendingBurn := recs[q[j].id].pendingBurn + CreditOf(q, j, w, expected), status := Retired)
    decreases |q| - i
  {
    var next := CreditRecord(recs, q[i].id, CreditOf(q, i, w, expected));
    OneCredit(recs, q, i, w, expected);
    if i + 1 < |q| {
      if i < j {
        CreditsLand(next, q, i + 1, w, expected, j);
      } else {
        CreditsSpareOthers(next, q, i + 1, w, expected, Passed(q, i + 1, w, expected), q[i].id);
      }
    }
  }

  // ---- finalize -----------------------------------------------------------------------------

  lemma MaturedOk(t: Treasury, j: nat)
    requires QueueOk(t) && j < |DueEntries(t.queue, t.era, true)|
    ensures var e := DueEntries(t.queue, t.era, true)[j];
            EntryOk(t.recs, e) && e in t.queue && e.era <= t.era
  {
    var e := DueEntries(t.queue, t.era, true)[j];
    DueIsFilter(t.queue, t.era, true, e);
    var k :| 0 <= k < |t.queue| && t.queue[k] == e;
    assert EntryOk(t.recs, t.queue[k]);
  }

  lemma PositiveExpected(q: seq<Entry>)
    requires q != [] && 0 < q[|q| - 1].amount
    ensures 0 < Expected(q)
  {
    ExpectedIsCapped(q);
  }

  /** A launch whose chunk has matured is among the matured entries: there is always something to credit. */
  lemma AlwaysSomethingToDo(t: Treasury, id: nat)
    requires QueueOk(t) && id in t.recs && t.recs[id].status.Retiring? && t.recs[id].status.chunkEra <= t.era
    ensures Names(DueEntries(t.queue, t.era, true), id) && 0 < Expected(DueEntries(t.queue, t.era, true))
  {
    var m := DueEntries(t.queue, t.era, true);
    RetiringIffQueued(t, id);
    var i :| 0 <= i < |t.queue| && t.queue[i].id == id;
    DueIsFilter(t.queue, t.era, true, t.queue[i]);
    var j :| 0 <= j < |m| && m[j] == t.queue[i];
    MaturedOk(t, |m| - 1);
    PositiveExpected(m);
  }

  /** What came back for the matured entries. */
  function CameBack(t: Treasury): nat {
    var w := Withdraw(t.stake, t.era);
    if w.Ok? then w.value.amount else 0
  }

  /** What the crediting of matured entries may rely on. */
  lemma MaturedFit(t: Treasury)
    requires Solvent(t) && QueueOk(t) && t.stake.Some?
    ensures var m := DueEntries(t.queue, t.era, true);
            && CameBack(t) <= U128_MAX && Distinct(m) && Counted(m, Expected(m))
            && (forall j :: 0 <= j < |m| ==>
                  m[j].id in t.recs && t.recs[m[j].id].pendingBurn + CameBack(t) <= U128_MAX)
  {
    var m := DueEntries(t.queue, t.era, true);
    WithdrawTakesMatured(t.stake, t.era);
    DueStaysDistinct(t.queue, t.era, true);
    ExpectedIsCapped(m);
    forall j | 0 <= j < |m|
      ensures m[j].id in t.recs && t.recs[m[j].id].pendingBurn + CameBack(t) <= U128_MAX
      ensures m[j].amount <= Expected(m)
    {
      MaturedOk(t, j);
      AmountInSum(m, j);
      AtMostSum(t.recs, m[j].id, ToBurn);
    }
  }

  /** A finalize call is the withdrawal, the credits and the queue of the others. */
  lemma FinalizeIs(t: Treasury, id: nat)
    requires QueueOk(t) && Finalize(t, id).Ok?
    ensures t.stake.Some? && Withdraw(t.stake, t.era).Ok?
    ensures var m, t' := DueEntries(t.queue, t.era, true), Finalize(t, id).value;
            && Names(m, id) && 0 < Expected(m)
            && CreditFrom(t.recs, m, 0, CameBack(t), Expected(m), 0) == Ok(t'.recs)
            && t' == t.(stake := Withdraw(t.stake, t.era).value.stake, recs := t'.recs,
                        queue := DueEntries(t.queue, t.era, false))
  {
    AlwaysSomethingToDo(t, id);
  }

  /** A retiring launch whose chunk has matured can be finalized as long as the ledger exists, whatever was slashed. */
  lemma FinalizeWorksIff(t: Treasury, id: nat)
    requires Solvent(t) && QueueOk(t)
    requires id in t.recs && t.recs[id].status.Retiring? && t.recs[id].status.chunkEra <= t.era
    ensures Finalize(t, id).Ok? <==> t.stake.Some?
  {
    AlwaysSomethingToDo(t, id);
    if t.stake.Some? {
      var m := DueEntries(t.queue, t.era, true);
      MaturedFit(t);
      assert m[..0] == [];
      CreditsSum(t.recs, m, 0, CameBack(t), Expected(m));
    }
  }

  /** Each matured launch is closed with its own part; no other launch is touched. */
  lemma FinalizeCredits(t: Treasury, id: nat)
    requires Solvent(t) && QueueOk(t) && Finalize(t, id).Ok?
    ensures var t', m := Finalize(t, id).value, DueEntries(t.queue, t.era, true);
            && t'.recs.Keys == t.recs.Keys && Names(m, id) && 0 < Expected(m)
            && (forall j :: 0 <= j < |m| ==>
                  && m[j].id in t.recs
                  && t'.recs[m[j].id] == t.recs[m[j].id].(
                       pendingBurn := t.recs[m[j].id].pendingBurn + CreditOf(m, j, CameBack(t), Expected(m)),
                       status := Retired))
            && (forall i :: i in t.recs && !Names(m, i) ==> t'.recs[i] == t.recs[i])
  {
    FinalizeIs(t, id);
    FinalizeCloses(t, id);
    var m, w := DueEntries(t.queue, t.era, true), CameBack(t);
    MaturedFit(t);
    assert m[..0] == [];
    forall j | 0 <= j < |m|
      ensures m[j].id in t.recs
      ensures Finalize(t, id).value.recs[m[j].id] == t.recs[m[j].id].(
                pendingBurn := t.recs[m[j].id].pendingBurn + CreditOf(m, j, w, Expected(m)), status := Retired)
    {
      CreditsLand(t.recs, m, 0, w, Expected(m), j);
    }
  }

  /** Whatever the amounts, the matured launches are closed, and nothing of any launch but its status and what is set to
      burn changes. */
  lemma FinalizeCloses(t: Treasury, id: nat)
    requires QueueOk(t) && Finalize(t, id).Ok?
    ensures var t', m := Finalize(t, id).value, DueEntries(t.queue, t.era, true);
            && t'.recs.Keys == t.recs.Keys && Names(m, id)
            && (forall i :: i in t.recs ==>
                  t'.recs[i] == if Names(m, i) then t.recs[i].(pendingBurn := t'.recs[i].pendingBurn, status := Retired)
                                else t.recs[i])
  {
    FinalizeIs(t, id);
    var m, w := DueEntries(t.queue, t.era, true), CameBack(t);
    CreditsUnmoved(t.recs, m, 0, w, Expected(m), 0);
    forall i | i in t.recs
      ensures var r' := Finalize(t, id).value.recs[i];
              r' == if Names(m, i) then t.recs[i].(pendingBurn := r'.pendingBurn, status := Retired) else t.recs[i]
    {
      if Names(m, i) {
        assert m[0..] == m;
        CreditsClose(t.recs, m, 0, w, Expected(m), 0, i);
      } else {
        CreditsSpareOthers(t.recs, m, 0, w, Expected(m), 0, i);
      }
    }
  }

  /** After a finalize the launches still retiring are exactly those still queued. */
  lemma FinalizeQueue(t: Treasury, id: nat)
    requires QueueOk(t) && Finalize(t, id).Ok?
    ensures QueueOk(Finalize(t, id).value)
  {
    var t', m, left := Finalize(t, id).value, DueEntries(t.queue, t.era, true), DueEntries(t.queue, t.era, false);
    FinalizeIs(t, id);
    FinalizeCloses(t, id);
    DueStaysDistinct(t.queue, t.era, false);
    forall i | 0 <= i < |left|
      ensures EntryOk(t'.recs, left[i])
    {
      WaitingKept(t, i);
      assert left[i].id in t.recs && !Names(m, left[i].id);
    }
    forall i | i in t'.recs
      ensures RecordOk(t'.recs, left, i)
    {
      assert RecordOk(t.recs, t.queue, i);
      DueNames(t.queue, t.era, i);
    }
  }

  lemma WaitingKept(t: Treasury, i: nat)
    requires QueueOk(t) && i < |DueEntries(t.queue, t.era, false)|
    ensures var e := DueEntries(t.queue, t.era, false)[i];
            EntryOk(t.recs, e) && !Names(DueEntries(t.queue, t.era, true), e.id)
  {
    var m, e := DueEntries(t.queue, t.era, true), DueEntries(t.queue, t.era, false)[i];
    DueIsFilter(t.queue, t.era, false, e);
    var k :| 0 <= k < |t.queue| && t.queue[k] == e;
    assert EntryOk(t.recs, t.queue[k]);
    forall j | 0 <= j < |m|
      ensures m[j].id != e.id
    {
      NotOnBothSides(t.queue, t.era, m[j], e);
    }
  }

  // ---- what finalizing conserves ----------------------------------------------------------------

  /** What the matured entries are credited past what came back. */
  function Overpaid(t: Treasury): nat {
    var m := DueEntries(t.queue, t.era, true);
    if m == [] || Expected(m) == 0 then 0 else CreditedInAll(m, CameBack(t), Expected(m)) - CameBack(t)
  }

  /** The floor shares of all matured entries but the last stay within what came back: what the last one gets makes up
      the whole. */
  predicate Creditable(t: Treasury) {
    Overpaid(t) == 0
  }

  /** Entries that unbonded an amount within 128 bits, the last one aside, can be credited whatever comes back. */
  lemma FittingIsCreditable(t: Treasury)
    requires var m := DueEntries(t.queue, t.era, true); m != [] ==> Unbonded(m[..|m| - 1]) <= U128_MAX
    ensures Creditable(t)
  {
    var m := DueEntries(t.queue, t.era, true);
    if m != [] && Expected(m) != 0 {
      FloorSharesFit(m, |m| - 1, CameBack(t));
    }
  }

  /** Finalizing credits the matured launches what was withdrawn and what their shares overpay, in total: the surplus is
      conserved exactly when nothing is overpaid, and the vault stays solvent exactly when the surplus covers it. */
  lemma FinalizeConserves(t: Treasury, id: nat)
    requires Solvent(t) && QueueOk(t) && Finalize(t, id).Ok?
    ensures t.stake.Some?
    ensures var t', w := Finalize(t, id).value, Withdraw(t.stake, t.era).value;
            && SumOf(t'.recs, ToBurn) == SumOf(t.recs, ToBurn) + w.amount + Overpaid(t)
            && HeldBy(t'.stake) + w.amount == HeldBy(t.stake) && ActiveOf(t'.stake) == ActiveOf(t.stake)
            && t'.vtrs == t.vtrs && t'.queue == DueEntries(t.queue, t.era, false)
            && SumOf(t'.recs, Pending) == SumOf(t.recs, Pending) && t'.funded == t.funded && t'.config == t.config
            && Surplus(t') == Surplus(t) - Overpaid(t)
  {
    WithdrawTakesMatured(t.stake, t.era);
    FinalizeIs(t, id);
    var m, w := DueEntries(t.queue, t.era, true), CameBack(t);
    MaturedFit(t);
    assert m[..0] == [];
    CreditsSum(t.recs, m, 0, w, Expected(m));
    CreditsAreAll(m, 0, w, Expected(m));
    CreditsUnmoved(t.recs, m, 0, w, Expected(m), 0);
    assert Column(Finalize(t, id).value.recs, Pending) == Column(t.recs, Pending);
  }

  lemma FinalizeSolvent(t: Treasury, id: nat)
    requires Solvent(t) && QueueOk(t) && Finalize(t, id).Ok?
    ensures Solvent(Finalize(t, id).value) <==> Overpaid(t) <= Surplus(t)
  {
    FinalizeConserves(t, id);
    FinalizeIs(t, id);
  }

  // ---- how the withdrawal is shared -----------------------------------------------------------

  lemma RestLow(w: nat, shares: nat, head: nat, last: nat, expected: nat)
    requires expected == head + last && shares <= w && shares * expected <= head * w
    ensures last * w <= (w - shares) * expected
  {
    assert (w - shares) * expected == w * expected - shares * expected;
    assert w * expected == head * w + last * w;
  }

  lemma RestHigh(w: nat, shares: nat, head: nat, last: nat, n: nat, expected: nat)
    requires expected == head + last && shares <= w && head * w <= shares * expected + n * expected
    ensures (w - shares) * expected <= last * w + n * expected
  {
    assert (w - shares) * expected == w * expected - shares * expected;
    assert w * expected == head * w + last * w;
  }

  lemma RestArith(rest: nat, part: nat, n: nat, expected: nat)
    requires 0 < expected && part <= rest * expected <= part + n * expected
    ensures part / expected <= rest < part / expected + n + 1
  {
    FloorBounds(part, expected);
    MulCancel(part / expected, rest, expected);
    assert (part / expected + n + 1) * expected == part / expected * expected + n * expected + expected;
    MulCancelStrict(rest, part / expected + n + 1, expected);
  }

  lemma RestOf(w: nat, shares: nat, head: nat, last: nat, n: nat, expected: nat)
    requires expected == head + last && 0 < expected && shares <= w
    requires shares * expected <= head * w <= shares * expected + n * expected
    ensures last * w / expected <= w - shares < last * w / expected + n + 1
  {
    RestLow(w, shares, head, last, expected);
    RestHigh(w, shares, head, last, n, expected);
    RestArith(w - shares, last * w, n, expected);
  }

  /** The last entry gets at least its own share, and less than one unit more for each entry. */
  lemma LastGetsTheRest(q: seq<Entry>, w: nat)
    requires q != [] && 0 < Unbonded(q) <= U128_MAX
    ensures Expected(q) == Unbonded(q)
    ensures var share, credit := ShareOf(q[|q| - 1], w, Unbonded(q)), CreditOf(q, |q| - 1, w, Unbonded(q));
            share <= credit < share + |q|
  {
    ExpectedIsCapped(q);
    var head := q[..|q| - 1];
    UnbondedPrefix(q, |q| - 1);
    FloorSharesFit(q, |q| - 1, w);
    FloorSharesWithin(head, w, Unbonded(q));
    var all, shares, last := Unbonded(q), FloorShares(head, w, Unbonded(q)), q[|q| - 1].amount;
    RestOf(w, shares, Unbonded(head), last, |head|, all);
    assert CreditOf(q, |q| - 1, w, all) == w - shares;
    assert ShareOf(q[|q| - 1], w, all) == last * w / all;
  }

  lemma {:induction false} FullShares(q: seq<Entry>)
    ensures FloorShares(q, U128_MAX, U128_MAX) == Unbonded(q)
  {
    if q != [] {
      FullShares(q[..|q| - 1]);
      assert q[|q| - 1].amount * U128_MAX / U128_MAX == q[|q| - 1].amount;
    }
  }

  /** The entries are credited exactly what came back, whatever came back, if and only if all of them but the last
      unbonded an amount that fits 128 bits: past that the sum they are shared by saturates. */
  lemma ConservesIff(q: seq<Entry>)
    requires q != [] && 0 < Expected(q)
    ensures (forall w: U128 :: CreditedInAll(q, w, Expected(q)) == w) <==> Unbonded(q[..|q| - 1]) <= U128_MAX
  {
    if Unbonded(q[..|q| - 1]) <= U128_MAX {
      forall w: U128
        ensures CreditedInAll(q, w, Expected(q)) == w
      {
        FloorSharesFit(q, |q| - 1, w);
      }
    } else {
      ExpectedIsCapped(q);
      UnbondedPrefix(q, |q| - 1);
      FullShares(q[..|q| - 1]);
      var w: U128 := U128_MAX;
      assert CreditedInAll(q, w, Expected(q)) != w;
    }
  }

  // ---- retirement ends --------------------------------------------------------------------------

  predicate Closed(r: Record) {
    && r.status == Retired && r.shares == 0 && r.lnrgDebt == 0 && r.pending == 0 && r.lnrgAccrued == 0
    && r.pendingBurn == 0
  }

  /** A closed launch has nothing to compound. */
  lemma ClosedCannotCompound(t: Treasury, id: nat, m: Market)
    requires id in t.recs && Closed(t.recs[id])
    ensures !Compound(t, id, m).Ok?
  {
    if Compound(t, id, m).Ok? {
      CompoundStages(t, id, m);
    }
  }

  /** No call finds anything to do on a closed launch, and no fee reopens it. */
  lemma ClosedIsInert(t: Treasury, id: nat, m: Market, lastTrade: Option<nat>, amount: nat)
    requires id in t.recs && Closed(t.recs[id])
    ensures !Compound(t, id, m).Ok? && !Finalize(t, id).Ok? && !StakePending(t, id).Ok?
    ensures !Retire(t, id, lastTrade).Ok? && !Fee(t, id, amount).Ok?
  {
    ClosedCannotCompound(t, id, m);
  }

  predicate StaysOrFalls(f: nat -> Record, n: nat) {
    f(n + 1) == f(n) || Below(f(n + 1), f(n))
  }

  ghost predicate StillFrom(f: nat -> Record, last: nat) {
    forall n: nat :: n >= last ==> f(n) == f(last)
  }

  /** A record that at every step stays or goes down stops changing for good: only finitely many calls can bring it
      down. */
  lemma {:induction false} EventuallyStill(f: nat -> Record, k: nat)
    requires forall n: nat :: StaysOrFalls(f, n)
    ensures exists last: nat :: last >= k && StillFrom(f, last)
    decreases Rank(f(k).status), f(k).lnrgAccrued, f(k).pendingBurn
  {
    if n: nat :| n >= k && f(n) != f(k) {
      StaysOrFallsAcross(f, k, n);
      EventuallyStill(f, n);
    } else {
      assert StillFrom(f, k);
    }
  }

  lemma {:induction false} StaysOrFallsAcross(f: nat -> Record, k: nat, n: nat)
    requires forall i: nat :: StaysOrFalls(f, i)
    requires k <= n
    ensures f(n) == f(k) || Below(f(n), f(k))
    decreases n - k
  {
    if k < n {
      StaysOrFallsAcross(f, k, n - 1);
      assert StaysOrFalls(f, n - 1);
      if f(n) != f(n - 1) && f(n - 1) != f(k) {
        BelowTwice(f(n), f(n - 1), f(k));
      }
    }
  }
}
