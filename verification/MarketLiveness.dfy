/** What the marketplace promises its users over time: closed intents stay closed, bids only improve, lock-up ends. */
module MarketLiveness {
  import opened Arith
  import opened Results
  import opened Ledger
  import opened MarketSpec
  import opened MarketRuns

  // ---- one call, one intent -----------------------------------------------------------

  function Max(a: nat, b: nat): nat {
    if a < b then b else a
  }

  /** The bid an intent's commitment holds. */
  function Standing(m: Market, id: nat): nat {
    if id in m.commitments then m.commitments[id].amountOut else 0
  }

  /** The last block at which an intent can still be waiting on a solver. */
  function LockEnd(m: Market, i: Intent): nat {
    Min(i.submittedAt + m.bidWindow, SatSub(i.deadline, 1)) + m.settlementWindow
  }

  /** An intent's terms stand, it never reopens, and once closed it is not touched. */
  predicate TermsKept(i: Intent, i': Intent) {
    i' == i.(status := i'.status) && (!Live(i.status) ==> i' == i) && (i'.status == Open ==> i.status == Open)
  }

  /** What a call that bids `bid` for the intent (nothing, if zero) may do to it and to its commitment. */
  ghost predicate Moves(m: Market, m': Market, id: nat, bid: nat) {
    && (id in m.intents ==> id in m'.intents && TermsKept(m.intents[id], m'.intents[id]))
    && (|| Standing(m', id) == Max(Standing(m, id), bid)
        || (id in m'.intents && !Live(m'.intents[id].status)))
    && (id in m'.commitments ==>
          || (id in m.commitments && m'.commitments[id] == m.commitments[id])
          || (&& id in m.intents && m'.commitments[id].settleBy <= LockEnd(m, m.intents[id])
              && m'.commitments[id].settleBy == m.now + m.settlementWindow))
  }

  lemma SubmitMoves(m: Market, who: Account, tokenIn: Asset, tokenOut: Asset, amountIn: U128,
                    minOut: U128, deadline: nat, id: nat)
    requires Inv(m) && SubmitIntent(m, who, tokenIn, tokenOut, amountIn, minOut, deadline).Ok?
    ensures Moves(m, SubmitIntent(m, who, tokenIn, tokenOut, amountIn, minOut, deadline).value, id, 0)
  {
    if id in m.intents {
      assert IntentOk(m, id);
    }
  }

  lemma ReturnMoves(m: Market, closed: nat, status: IntentStatus, id: nat)
    requires closed in m.intents && m.intents[closed].status == Open && !Live(status)
    requires ReturnInput(m, closed, status).Ok?
    ensures Moves(m, ReturnInput(m, closed, status).value, id, 0)
  {
  }

  lemma CommitMoves(m: Market, who: Account, bidOn: nat, amountOut: U128, id: nat)
    requires CommitFill(m, who, bidOn, amountOut).Ok?
    ensures Moves(m, CommitFill(m, who, bidOn, amountOut).value, id, if id == bidOn then amountOut else 0)
  {
  }

  lemma SettleMoves(m: Market, who: Account, settled: nat, swapped: Option<U128>, id: nat)
    requires SettleIntent(m, who, settled, swapped).Ok?
    ensures Moves(m, SettleIntent(m, who, settled, swapped).value, id, 0)
  {
  }

  lemma SlashMoves(m: Market, slasher: Account, slashed: nat, id: nat)
    requires RecordsOk(m) && slasher.User? && SlashSolver(m, slasher, slashed).Ok?
    ensures Moves(m, SlashSolver(m, slasher, slashed).value, id, 0)
  {
    SlashMoneyEffect(m, slasher, slashed);
  }

  /** What one call bids for an intent, if the bid is accepted. */
  function BidOf(m: Market, call: Call, id: nat): nat {
    if call.Commit? && call.id == id && Dispatch(m, call).Ok? then call.amountOut else 0
  }

  lemma SolverCallMoves(m: Market, call: Call, id: nat)
    requires Inv(m) && (call.Commit? || call.Settle? || call.Slash?) && Dispatch(m, call).Ok?
    ensures Moves(m, Dispatch(m, call).value, id, BidOf(m, call, id))
  {
    match call
    case Commit(who, bidOn, amountOut) => CommitMoves(m, User(who), bidOn, amountOut, id);
    case Settle(who, settled, swapped) => SettleMoves(m, User(who), settled, swapped, id);
    case Slash(who, slashed) => SlashMoves(m, User(who), slashed, id);
  }

  lemma CloseMoves(m: Market, call: Call, id: nat)
    requires (call.Cancel? || call.Refund?) && Dispatch(m, call).Ok?
    ensures Moves(m, Dispatch(m, call).value, id, 0)
  {
    ReturnMoves(m, call.id, if call.Cancel? then Cancelled else Expired, id);
  }

  lemma UserCallMoves(m: Market, call: Call, id: nat)
    requires Inv(m) && !call.Commit? && !call.Settle? && !call.Slash? && Dispatch(m, call).Ok?
    ensures Moves(m, Dispatch(m, call).value, id, 0)
  {
    match call
    case Submit(who, tokenIn, tokenOut, amountIn, minOut, deadline) =>
      SubmitMoves(m, User(who), tokenIn, tokenOut, amountIn, minOut, deadline, id);
    case Cancel(_, _) => CloseMoves(m, call, id);
    case Refund(_, _) => CloseMoves(m, call, id);
    case _ => OtherMoves(m, call, id);
  }

  lemma OtherMoves(m: Market, call: Call, id: nat)
    requires !call.Commit? && !call.Settle? && !call.Slash? && !call.Submit? && !call.Cancel? && !call.Refund?
    requires Dispatch(m, call).Ok?
    ensures Moves(m, Dispatch(m, call).value, id, 0)
  {
  }

  lemma StepMoves(m: Market, call: Call, id: nat)
    requires Inv(m)
    ensures Moves(m, Step(m, call), id, BidOf(m, call, id))
  {
    if Dispatch(m, call).Ok? {
      if call.Commit? || call.Settle? || call.Slash? {
        SolverCallMoves(m, call, id);
      } else {
        UserCallMoves(m, call, id);
      }
    }
  }

  // ---- closed for good --------------------------------------------------------------

  /** Over every run the terms of an intent stand, and a settled, cancelled or expired intent is never touched again. */
  lemma {:induction false} ClosedForGood(m: Market, calls: seq<Call>, id: nat)
    requires Inv(m) && id in m.intents
    ensures id in Run(m, calls).intents
    ensures TermsKept(m.intents[id], Run(m, calls).intents[id])
    decreases |calls|
  {
    if calls != [] {
      StepMoves(m, calls[0], id);
      StepKeepsInv(m, calls[0]);
      ClosedForGood(Step(m, calls[0]), calls[1..], id);
    }
  }

  // ---- bids -------------------------------------------------------------------------

  /** The best bid a run accepted for an intent. */
  function HighestBid(m: Market, calls: seq<Call>, id: nat): nat
    decreases |calls|
  {
    if calls == [] then 0 else Max(BidOf(m, calls[0], id), HighestBid(Step(m, calls[0]), calls[1..], id))
  }

  /** An accepted bid strictly beats the one it replaces and meets the user's minimum. */
  lemma RebidRaises(m: Market, who: Account, id: nat, amountOut: U128)
    requires Inv(m) && CommitFill(m, who, id, amountOut).Ok?
    ensures id in m.intents && m.intents[id].minAmountOut <= amountOut
    ensures id in m.commitments ==> Standing(m, id) < amountOut
    ensures Standing(CommitFill(m, who, id, amountOut).value, id) == amountOut
    ensures CommitFill(m, who, id, amountOut).value.commitments[id].solverAccount == who
  {
    assert IntentOk(m, id);
  }

  /** Over every run, a commitment still standing is the best bid ever accepted. */
  lemma {:induction false} StandingIsHighest(m: Market, calls: seq<Call>, id: nat)
    requires Inv(m) && id in Run(m, calls).commitments
    ensures Standing(Run(m, calls), id) == Max(Standing(m, id), HighestBid(m, calls, id))
    decreases |calls|
  {
    if calls != [] {
      var m1 := Step(m, calls[0]);
      StepKeepsInv(m, calls[0]);
      StepMoves(m, calls[0], id);
      StandingIsHighest(m1, calls[1..], id);
      if Standing(m1, id) != Max(Standing(m, id), BidOf(m, calls[0], id)) {
        NoBidOnClosed(m1, calls[1..], id);
      }
    }
  }

  lemma NoBidOnClosed(m: Market, calls: seq<Call>, id: nat)
    requires Inv(m) && id in m.intents && !Live(m.intents[id].status)
    ensures id !in Run(m, calls).commitments
  {
    ClosedForGood(m, calls, id);
    RunKeepsInv(m, calls);
    assert IntentOk(Run(m, calls), id);
  }

  lemma UnknownIsUncommitted(m: Market, id: nat)
    requires RecordsOk(m) && id !in m.intents
    ensures id !in m.commitments
  {
    forall i | i in m.commitments
      ensures i in m.intents
    {
      assert CommitmentOk(m, i);
    }
  }

  /** For an intent submitted during the run, the standing commitment is the best bid of the run. */
  lemma BestOfTheRun(m: Market, calls: seq<Call>, id: nat)
    requires Inv(m) && id !in m.intents && id in Run(m, calls).commitments
    ensures Run(m, calls).commitments[id].amountOut == HighestBid(m, calls, id)
  {
    StandingIsHighest(m, calls, id);
    UnknownIsUncommitted(m, id);
  }

  /** Settling pays the user exactly `bid`, which meets the minimum, on top of the profit they made as a solver: what
      the output leaves after the bid and after a fifth of the rest, rounded down, for the protocol. */
  predicate SettlesAt(e: Market, who: Account, id: nat, swapped: Option<U128>, bid: nat)
    requires SettleIntent(e, who, id, swapped).Ok?
  {
    && id in e.intents && swapped.Some? && bid <= swapped.value && e.intents[id].minAmountOut <= bid
    && var i, profit := e.intents[id], swapped.value - bid;
       Held(SettleIntent(e, who, id, swapped).value.balances, i.tokenOut, i.user)
       == Held(e.balances, i.tokenOut, i.user) + bid + (if who == i.user then profit - profit * 2_000 / 10_000 else 0)
  }

  lemma SettlesAtCommitment(e: Market, who: Account, id: nat, swapped: Option<U128>)
    requires RecordsOk(e) && who.User? && SettleIntent(e, who, id, swapped).Ok?
    ensures id in e.commitments && SettlesAt(e, who, id, swapped, e.commitments[id].amountOut)
  {
    SettlePaysTheBid(e, who, id, swapped);
    SettleIsPaid(e, who, id, swapped);
    SettledUser(e.balances, SettleIntent(e, who, id, swapped).value.balances, e.intents[id], who,
                e.commitments[id].amountOut, swapped.value);
  }

  lemma SettledUser(b: Balances, b': Balances, i: Intent, who: Account, bid: nat, out: nat)
    requires bid <= out && SettledAt(b, b', i, who, bid, out) && i.user.User? && who.User?
    ensures Held(b', i.tokenOut, i.user)
            == Held(b, i.tokenOut, i.user) + bid
               + (if who == i.user then out - bid - (out - bid) * 2_000 / 10_000 else 0)
  {
  }

  /** A settled intent paid its user exactly the best bid the run accepted for it, and at least the user's minimum. */
  lemma SettlesAtHighestBid(m: Market, calls: seq<Call>, e: Market, who: nat, id: nat,
                            swapped: Option<U128>)
    requires Inv(m) && id !in m.intents && e == Run(m, calls) && SettleIntent(e, User(who), id, swapped).Ok?
    ensures SettlesAt(e, User(who), id, swapped, HighestBid(m, calls, id))
  {
    RunKeepsInv(m, calls);
    SettlesAtCommitment(e, User(who), id, swapped);
    BestOfTheRun(m, calls, id);
  }

  // ---- bounded lock-up --------------------------------------------------------------

  ghost predicate LockBounded(m: Market) {
    forall id :: id in m.commitments && id in m.intents ==> m.commitments[id].settleBy <= LockEnd(m, m.intents[id])
  }

  predicate SetsWindow(call: Call) {
    call.SetBidWindow? || call.SetSettlementWindow?
  }

  lemma WindowsStand(m: Market, call: Call)
    requires !SetsWindow(call)
    ensures Step(m, call).bidWindow == m.bidWindow && Step(m, call).settlementWindow == m.settlementWindow
  {
  }

  lemma LockBoundCarries(m: Market, m': Market, id: nat, bid: nat)
    requires RecordsOk(m) && LockBounded(m) && Moves(m, m', id, bid) && id in m'.commitments && id in m'.intents
    requires m'.bidWindow == m.bidWindow && m'.settlementWindow == m.settlementWindow
    ensures m'.commitments[id].settleBy <= LockEnd(m', m'.intents[id])
  {
    if id in m.commitments {
      assert CommitmentOk(m, id);
    }
  }

  lemma StepKeepsLockBound(m: Market, call: Call)
    requires Inv(m) && LockBounded(m) && !SetsWindow(call)
    ensures LockBounded(Step(m, call))
  {
    var m' := Step(m, call);
    forall id | id in m'.commitments && id in m'.intents
      ensures m'.commitments[id].settleBy <= LockEnd(m', m'.intents[id])
    {
      WindowsStand(m, call);
      StepMoves(m, call, id);
      LockBoundCarries(m, m', id, BidOf(m, call, id));
    }
  }

  /** While the windows stand, however often an intent is rebid, its settlement falls due by the same block. */
  lemma {:induction false} LockUpIsBounded(m: Market, calls: seq<Call>)
    requires Inv(m) && LockBounded(m) && forall c :: c in calls ==> !SetsWindow(c)
    ensures LockBounded(Run(m, calls))
    decreases |calls|
  {
    if calls != [] {
      StepKeepsInv(m, calls[0]);
      StepKeepsLockBound(m, calls[0]);
      LockUpIsBounded(Step(m, calls[0]), calls[1..]);
    }
  }

  lemma ClockRuns(m: Market, call: Call)
    ensures m.now <= Step(m, call).now
  {
  }

  /** Whoever bids, the winner has at least until `due`. */
  ghost predicate DueFrom(m: Market, id: nat, due: nat) {
    due <= m.now + m.settlementWindow && (id in m.commitments ==> due <= m.commitments[id].settleBy)
  }

  lemma {:induction false} RunKeepsDue(m: Market, calls: seq<Call>, id: nat, due: nat)
    requires Inv(m) && DueFrom(m, id, due) && forall c :: c in calls ==> !SetsWindow(c)
    ensures DueFrom(Run(m, calls), id, due)
    decreases |calls|
  {
    if calls != [] {
      StepKeepsInv(m, calls[0]);
      StepMoves(m, calls[0], id);
      WindowsStand(m, calls[0]);
      ClockRuns(m, calls[0]);
      RunKeepsDue(Step(m, calls[0]), calls[1..], id, due);
    }
  }

  /** An accepted bid gives its intent's solver the whole settlement window: while it lasts nobody can slash over that
      intent, however the intent is rebid. */
  lemma NoEarlySlash(m: Market, who: Account, id: nat, amountOut: U128, calls: seq<Call>,
                     slasher: Account)
    requires Inv(m) && who.User? && CommitFill(m, who, id, amountOut).Ok? && forall c :: c in calls ==> !SetsWindow(c)
    ensures var e := Run(CommitFill(m, who, id, amountOut).value, calls);
            e.now <= m.now + m.settlementWindow ==> !SlashSolver(e, slasher, id).Ok?
  {
    CommitKeepsInv(m, who, id, amountOut);
    BidIsDue(m, who, id, amountOut);
    RunKeepsDue(CommitFill(m, who, id, amountOut).value, calls, id, m.now + m.settlementWindow);
    DueIsNotSlashed(Run(CommitFill(m, who, id, amountOut).value, calls), id, m.now + m.settlementWindow, slasher);
  }

  lemma BidIsDue(m: Market, who: Account, id: nat, amountOut: U128)
    requires CommitFill(m, who, id, amountOut).Ok?
    ensures DueFrom(CommitFill(m, who, id, amountOut).value, id, m.now + m.settlementWindow)
  {
  }

  lemma DueIsNotSlashed(m: Market, id: nat, due: nat, slasher: Account)
    requires DueFrom(m, id, due)
    ensures m.now <= due ==> !SlashSolver(m, slasher, id).Ok?
  {
  }

  // ---- closing calls go through --------------------------------------------------------

  lemma InputIsHeld(m: Market, id: nat)
    requires Inv(m) && id in m.escrowed
    ensures m.escrowed[id].1 <= Held(m.balances, m.escrowed[id].0, IntentEscrow)
  {
    var (asset, amount) := m.escrowed[id];
    TotalRemove(Inputs(m.escrowed, asset), id);
    assert Inputs(m.escrowed, asset)[id] == amount;
    assert 0 <= Slack(m, asset);
  }

  /** An open intent can be cancelled at any time, and refunded once past its deadline; both return the input exactly.
      */
  lemma OpenIntentCloses(m: Market, id: nat, status: IntentStatus)
    requires Inv(m) && id in m.intents && m.intents[id].status == Open
    ensures CancelIntent(m, m.intents[id].user, id).Ok?
    ensures RefundExpired(m, m.intents[id].user, id).Ok? <==> m.intents[id].deadline <= m.now
    ensures ReturnInput(m, id, status).Ok?
    ensures var i, m' := m.intents[id], ReturnInput(m, id, status).value;
            Held(m'.balances, i.tokenIn, i.user) == Held(m.balances, i.tokenIn, i.user) + i.amountIn
  {
    var i := m.intents[id];
    assert IntentOk(m, id);
    InputIsHeld(m, id);
    SendWorks(m.balances, i.tokenIn, IntentEscrow, i.user, i.amountIn, InvalidAmount);
    ReturnEffect(m, id, status);
  }

  lemma PaySlashWorks(b: Balances, solver: nat, bond: U128, slasher: Account)
    requires slasher.User? && bond <= Held(b, NATIVE, SolverEscrow(solver)) && Total(Book(b, NATIVE)) <= U128_MAX
    ensures PaySlash(b, solver, bond, slasher).Ok?
  {
    var (toTreasury, toSlasher) := SplitSlashedBond(bond, SLASHER_REWARD_BPS);
    SendWorks(b, NATIVE, SolverEscrow(solver), FeeTreasury, toTreasury, InsufficientBondFunds);
    SendAnyEffect(b, NATIVE, SolverEscrow(solver), FeeTreasury, toTreasury, InsufficientBondFunds);
    var b1 := SendIfAny(b, NATIVE, SolverEscrow(solver), FeeTreasury, toTreasury, InsufficientBondFunds).value;
    SendWorks(b1, NATIVE, SolverEscrow(solver), slasher, toSlasher, InsufficientBondFunds);
  }

  lemma InputStaysHeld(m: Market, b: Balances, id: nat)
    requires Inv(m) && id in m.escrowed && id in m.intents && m.intents[id].user.User?
    requires Held(b, m.escrowed[id].0, IntentEscrow) == Held(m.balances, m.escrowed[id].0, IntentEscrow)
    requires Total(Book(b, m.escrowed[id].0)) <= U128_MAX
    ensures ReturnInput(m.(balances := b), id, Expired).Ok?
  {
    InputIsHeld(m, id);
    SendWorks(b, m.escrowed[id].0, IntentEscrow, m.intents[id].user, m.escrowed[id].1, InvalidAmount);
  }

  /** Paying out a bond takes nothing from the shared escrow. */
  lemma SlashSparesInputs(b: Balances, solver: nat, bond: U128, slasher: Account)
    requires slasher.User? && PaySlash(b, solver, bond, slasher).Ok?
    ensures var b' := PaySlash(b, solver, bond, slasher).value;
            forall a :: Held(b', a, IntentEscrow) == Held(b, a, IntentEscrow)
                        && Total(Book(b', a)) == Total(Book(b, a))
  {
    PaySlashEffect(b, solver, bond, slasher);
  }

  lemma SlashRefundWorks(m: Market, slasher: Account, id: nat)
    requires Inv(m) && slasher.User? && id in m.commitments && m.now > m.commitments[id].settleBy
    requires var sid := m.commitments[id].solverId;
             sid in m.solvers && PaySlash(m.balances, sid, m.solvers[sid].bond, slasher).Ok?
    ensures SlashSolver(m, slasher, id).Ok?
  {
    assert CommitmentOk(m, id);
    assert IntentOk(m, id);
    var sid := m.commitments[id].solverId;
    SlashSparesInputs(m.balances, sid, m.solvers[sid].bond, slasher);
    InputStaysHeld(m, PaySlash(m.balances, sid, m.solvers[sid].bond, slasher).value, id);
  }

  lemma SlashedUser(b: Balances, b': Balances, i: Intent, solver: nat, slasher: Account, bond: nat)
    requires SlashedAt(b, b', i, solver, slasher, bond) && i.user.User? && slasher.User?
    ensures Held(b', i.tokenIn, i.user)
            == Held(b, i.tokenIn, i.user) + i.amountIn
               + (if slasher == i.user && i.tokenIn == NATIVE then bond * 1_000 / 10_000 else 0)
  {
  }

  /** Past its settlement block a committed intent can be closed by anyone, which returns the input exactly. */
  lemma OverdueIntentCloses(m: Market, slasher: Account, id: nat)
    requires Inv(m) && slasher.User? && id in m.commitments && m.now > m.commitments[id].settleBy
    ensures id in m.intents && SlashSolver(m, slasher, id).Ok? && m.commitments[id].solverId in m.solvers
    ensures var i, m' := m.intents[id], SlashSolver(m, slasher, id).value;
            Held(m'.balances, i.tokenIn, i.user)
            == Held(m.balances, i.tokenIn, i.user) + i.amountIn
               + (if slasher == i.user && i.tokenIn == NATIVE then
                    m.solvers[m.commitments[id].solverId].bond * 1_000 / 10_000
                  else 0)
  {
    assert CommitmentOk(m, id);
    var sid := m.commitments[id].solverId;
    assert SolverOk(m, sid);
    PaySlashWorks(m.balances, sid, m.solvers[sid].bond, slasher);
    SlashRefundWorks(m, slasher, id);
    SlashPays(m, slasher, id);
    SlashNames(m, id);
    SlashedUser(m.balances, SlashSolver(m, slasher, id).value.balances, m.intents[id], sid, slasher,
                m.solvers[sid].bond);
  }

  /** The call that closes a live intent against its solver, or for want of one. */
  function ClosingCall(m: Market, id: nat, who: nat): Call
    requires id in m.intents
  {
    if id in m.commitments then Slash(who, id)
    else Refund(if m.intents[id].user.User? then m.intents[id].user.id else who, id)
  }

  lemma RefundCloses(e: Market, id: nat)
    requires Inv(e) && id in e.intents && e.intents[id].status == Open && e.now >= e.intents[id].deadline
    ensures e.intents[id].user.User? && RefundExpired(e, e.intents[id].user, id).Ok?
    ensures var i, closed := e.intents[id], RefundExpired(e, e.intents[id].user, id).value;
            Held(closed.balances, i.tokenIn, i.user) == Held(e.balances, i.tokenIn, i.user) + i.amountIn
  {
    assert IntentOk(e, id);
    OpenIntentCloses(e, id, Expired);
  }

  lemma ClosingCallWorks(e: Market, id: nat, who: nat)
    requires Inv(e) && id in e.intents && Live(e.intents[id].status) && e.now >= e.intents[id].deadline
    requires id in e.commitments ==> e.now > e.commitments[id].settleBy
    ensures Dispatch(e, ClosingCall(e, id, who)).Ok?
    ensures var i, closed := e.intents[id], Dispatch(e, ClosingCall(e, id, who)).value;
            Held(closed.balances, i.tokenIn, i.user) >= Held(e.balances, i.tokenIn, i.user) + i.amountIn
  {
    if id in e.commitments {
      SlashingCloses(e, id, who);
      ClosingIsSlash(e, id, who);
    } else {
      assert IntentOk(e, id);
      RefundingCloses(e, id, who);
    }
  }

  lemma SlashingCloses(e: Market, id: nat, who: nat)
    requires Inv(e) && id in e.intents && id in e.commitments && e.now > e.commitments[id].settleBy
    ensures SlashSolver(e, User(who), id).Ok?
    ensures var i, closed := e.intents[id], SlashSolver(e, User(who), id).value;
            Held(closed.balances, i.tokenIn, i.user) >= Held(e.balances, i.tokenIn, i.user) + i.amountIn
  {
    OverdueIntentCloses(e, User(who), id);
  }

  lemma ClosingIsSlash(e: Market, id: nat, who: nat)
    requires id in e.intents && id in e.commitments
    ensures Dispatch(e, ClosingCall(e, id, who)) == SlashSolver(e, User(who), id)
  {
  }

  lemma RefundingCloses(e: Market, id: nat, who: nat)
    requires Inv(e) && id in e.intents && e.intents[id].status == Open && e.now >= e.intents[id].deadline
    requires id !in e.commitments
    ensures Dispatch(e, ClosingCall(e, id, who)).Ok?
    ensures var i, closed := e.intents[id], Dispatch(e, ClosingCall(e, id, who)).value;
            Held(closed.balances, i.tokenIn, i.user) == Held(e.balances, i.tokenIn, i.user) + i.amountIn
  {
    RefundCloses(e, id);
  }

  /** With fixed windows, from any run: past its deadline and its lock-up bound a live intent can be closed, and the
      user then has the whole input back. */
  lemma NoInputIsStuck(m: Market, calls: seq<Call>, e: Market, id: nat, who: nat)
    requires Inv(m) && LockBounded(m) && (forall c :: c in calls ==> !SetsWindow(c)) && e == Run(m, calls)
    requires id in e.intents && Live(e.intents[id].status)
    requires e.now >= e.intents[id].deadline && e.now > LockEnd(e, e.intents[id])
    ensures Dispatch(e, ClosingCall(e, id, who)).Ok?
    ensures var i, closed := e.intents[id], Dispatch(e, ClosingCall(e, id, who)).value;
            Held(closed.balances, i.tokenIn, i.user) >= Held(e.balances, i.tokenIn, i.user) + i.amountIn
  {
    RunKeepsInv(m, calls);
    LockUpIsBounded(m, calls);
    ClosingCallWorks(e, id, who);
  }

  /** After any run an active solver with no open commitment can leave, and takes its whole bond. */
  lemma IdleSolverLeaves(m: Market, calls: seq<Call>, id: nat)
    requires Inv(m) && id in Run(m, calls).solvers
    requires Run(m, calls).solvers[id].active && Naming(Run(m, calls).commitments, id) == 0
    ensures var e := Run(m, calls);
            var left := DeregisterSolver(e, e.solvers[id].account);
            && left.Ok?
            && Held(left.value.balances, NATIVE, e.solvers[id].account)
               == Held(e.balances, NATIVE, e.solvers[id].account) + e.solvers[id].bond
            && left.value.solvers[id].bond == 0 && !left.value.solvers[id].active
  {
    var e := Run(m, calls);
    RunKeepsInv(m, calls);
    assert SolverOk(e, id);
    var s := e.solvers[id];
    SendWorks(e.balances, NATIVE, SolverEscrow(id), s.account, s.bond, InsufficientBondFunds);
    SendEffect(e.balances, NATIVE, SolverEscrow(id), s.account, s.bond, InsufficientBondFunds);
  }
}
