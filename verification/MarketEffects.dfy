/** Each marketplace call from the outside: exactly when it goes through, and exactly what it then changes; and what a
    solver's bond stands for over every run. */
module MarketEffects {
  import opened Arith
  import opened Results
  import opened Ledger
  import opened MarketSpec
  import opened MarketRuns
  import opened MarketLiveness

  /** A payment goes through exactly when it is covered. */
  lemma SendIff(b: Balances, asset: Asset, from: Account, to: Account, amount: nat, e: Error)
    requires from != to && Total(Book(b, asset)) <= U128_MAX
    ensures Send(b, asset, from, to, amount, e).Ok? <==> amount <= Held(b, asset, from)
  {
    if amount <= Held(b, asset, from) {
      SendWorks(b, asset, from, to, amount, e);
    } else {
      SendNeedsFunds(b, asset, from, to, amount, e);
    }
  }

  lemma SendNeedsFunds(b: Balances, asset: Asset, from: Account, to: Account, amount: nat, e: Error)
    requires Held(b, asset, from) < amount
    ensures Send(b, asset, from, to, amount, e).Err?
  {
  }

  // ---- solvers --------------------------------------------------------------------------

  /** `s` is the solver the account is registered as. */
  ghost predicate ActiveAs(m: Market, who: Account, s: nat) {
    s in m.solvers && m.solvers[s].account == who && m.solvers[s].active
  }

  lemma ActiveIsIndexed(m: Market, who: Account, s: nat)
    requires RecordsOk(m) && ActiveAs(m, who, s)
    ensures who in m.accountToId && m.accountToId[who] == s
    ensures m.solvers[s].activeCommitments == Naming(m.commitments, s)
  {
    assert SolverOk(m, s);
  }

  lemma IndexedIsOwn(m: Market, who: Account)
    requires RecordsOk(m) && who in m.accountToId
    ensures m.accountToId[who] in m.solvers && m.solvers[m.accountToId[who]].account == who
  {
    assert IndexOk(m, who);
  }

  /** An account can register exactly when it is no active solver and can pay the bond. */
  lemma RegisterIff(m: Market, who: Account)
    requires Inv(m) && who.User?
    ensures RegisterSolver(m, who).Ok? <==>
              (forall s :: !ActiveAs(m, who, s)) && m.bondAmount <= Held(m.balances, NATIVE, who)
  {
    forall s | ActiveAs(m, who, s)
      ensures RegisterSolver(m, who).Err?
    {
      ActiveIsIndexed(m, who, s);
    }
    if who in m.accountToId {
      IndexedIsOwn(m, who);
      assert ActiveAs(m, who, m.accountToId[who]) <==> m.solvers[m.accountToId[who]].active;
    }
    SendIff(m.balances, NATIVE, who, SolverEscrow(m.nextSolver), m.bondAmount, InsufficientBondFunds);
  }

  /** A registration moves the bond into the escrow of a new solver with a clean record; nothing else changes. */
  lemma RegisterEffect(m: Market, who: Account)
    requires Inv(m) && who.User? && RegisterSolver(m, who).Ok?
    ensures var m', s := RegisterSolver(m, who).value, m.nextSolver;
            && s !in m.solvers
            && Paid(m.balances, m'.balances, NATIVE, who, SolverEscrow(s), m.bondAmount)
            && m' == m.(nextSolver := s + 1, accountToId := m.accountToId[who := s], balances := m'.balances,
                        solvers := m.solvers[s := Solver(who, m.bondAmount, 0, 0, 0, 0, m.now, true)])
  {
    FreshSolverUnnamed(m);
    SendEffect(m.balances, NATIVE, who, SolverEscrow(m.nextSolver), m.bondAmount, InsufficientBondFunds);
  }

  /** An account can deregister exactly when it is an active solver that no commitment names: nobody walks away from an
      open bid. */
  lemma DeregisterIff(m: Market, who: Account)
    requires Inv(m) && who.User?
    ensures DeregisterSolver(m, who).Ok? <==> exists s :: ActiveAs(m, who, s) && Naming(m.commitments, s) == 0
  {
    forall s | ActiveAs(m, who, s)
      ensures DeregisterSolver(m, who).Ok? <==> Naming(m.commitments, s) == 0
      ensures who in m.accountToId && s == m.accountToId[who]
    {
      ActiveIsIndexed(m, who, s);
      BondIsHeld(m, s);
      SendWorks(m.balances, NATIVE, SolverEscrow(s), who, m.solvers[s].bond, InsufficientBondFunds);
    }
    if who in m.accountToId {
      IndexedIsOwn(m, who);
      assert ActiveAs(m, who, m.accountToId[who]) <==> m.solvers[m.accountToId[who]].active;
    }
  }

  lemma BondIsHeld(m: Market, s: nat)
    requires FundsOk(m) && s in m.solvers
    ensures m.solvers[s].bond <= Held(m.balances, NATIVE, SolverEscrow(s))
  {
  }

  /** A deregistration returns exactly the bond of the account's active solver, which is then out; nothing else
      changes. */
  lemma DeregisterEffect(m: Market, who: Account, s: nat)
    requires Inv(m) && who.User? && ActiveAs(m, who, s) && DeregisterSolver(m, who).Ok?
    ensures var m' := DeregisterSolver(m, who).value;
            && Paid(m.balances, m'.balances, NATIVE, SolverEscrow(s), who, m.solvers[s].bond)
            && m' == m.(balances := m'.balances,
                        solvers := m.solvers[s := m.solvers[s].(active := false, bond := 0)])
  {
    ActiveIsIndexed(m, who, s);
    SendEffect(m.balances, NATIVE, SolverEscrow(s), who, m.solvers[s].bond, InsufficientBondFunds);
  }

  // ---- intents --------------------------------------------------------------------------

  /** An intent is taken exactly when it offers something for something else, before its deadline, and is covered. */
  lemma SubmitIff(m: Market, who: Account, tokenIn: Asset, tokenOut: Asset, amountIn: U128, minOut: U128,
                  deadline: nat)
    requires Inv(m) && who.User?
    ensures SubmitIntent(m, who, tokenIn, tokenOut, amountIn, minOut, deadline).Ok? <==>
            0 < amountIn <= Held(m.balances, tokenIn, who) && tokenIn != tokenOut && m.now < deadline
  {
    SendIff(m.balances, tokenIn, who, IntentEscrow, amountIn, InvalidAmount);
  }

  /** A submission records the user's own terms under a new id and moves exactly the input into the shared escrow;
      nothing else changes. */
  lemma SubmitRecords(m: Market, who: Account, tokenIn: Asset, tokenOut: Asset, amountIn: U128, minOut: U128,
                      deadline: nat)
    requires Inv(m) && who.User? && SubmitIntent(m, who, tokenIn, tokenOut, amountIn, minOut, deadline).Ok?
    ensures var m', id := SubmitIntent(m, who, tokenIn, tokenOut, amountIn, minOut, deadline).value, m.nextIntent;
            && id !in m.intents && id !in m.escrowed
            && Paid(m.balances, m'.balances, tokenIn, who, IntentEscrow, amountIn)
            && m' == m.(nextIntent := id + 1, escrowed := m.escrowed[id := (tokenIn, amountIn)],
                        balances := m'.balances, intents := m.intents[id := m'.intents[id]])
            && var i := m'.intents[id];
               && i.user == who && i.tokenIn == tokenIn && i.tokenOut == tokenOut && i.amountIn == amountIn
               && i.minAmountOut == minOut && i.deadline == deadline && i.submittedAt == m.now && i.status == Open
  {
    SubmitKeepsRecords(m, who, tokenIn, tokenOut, amountIn, minOut, deadline);
    forall i | i in m.intents
      ensures i < m.nextIntent
    {
      assert IntentOk(m, i);
    }
    SendEffect(m.balances, tokenIn, who, IntentEscrow, amountIn, InvalidAmount);
  }

  /** `m'` is `m` after an open intent got its input back and was closed. */
  ghost predicate Returned(m: Market, m': Market, id: nat, status: IntentStatus)
    requires id in m.intents
  {
    var i := m.intents[id];
    && Paid(m.balances, m'.balances, i.tokenIn, IntentEscrow, i.user, i.amountIn)
    && m' == m.(intents := m.intents[id := i.(status := status)], escrowed := m.escrowed - {id},
                balances := m'.balances)
  }

  /** An open intent, and no other, can be cancelled, by its user and nobody else, who gets exactly the input back. */
  lemma CancelIff(m: Market, who: Account, id: nat)
    requires Inv(m)
    ensures CancelIntent(m, who, id).Ok? <==>
            id in m.intents && m.intents[id].user == who && m.intents[id].status == Open
    ensures CancelIntent(m, who, id).Ok? ==> Returned(m, CancelIntent(m, who, id).value, id, Cancelled)
  {
    if id in m.intents && m.intents[id].status == Open {
      OpenIntentCloses(m, id, Cancelled);
      OpenReturns(m, id, Cancelled);
    }
  }

  /** An open intent, and no other, can be refunded from its deadline on, by its user and nobody else, who gets exactly
      the input back. */
  lemma RefundIff(m: Market, who: Account, id: nat)
    requires Inv(m)
    ensures RefundExpired(m, who, id).Ok? <==>
            && id in m.intents && m.intents[id].user == who && m.intents[id].status == Open
            && m.intents[id].deadline <= m.now
    ensures RefundExpired(m, who, id).Ok? ==> Returned(m, RefundExpired(m, who, id).value, id, Expired)
  {
    if id in m.intents && m.intents[id].status == Open {
      OpenIntentCloses(m, id, Expired);
      OpenReturns(m, id, Expired);
    }
  }

  lemma OpenReturns(m: Market, id: nat, status: IntentStatus)
    requires RecordsOk(m) && id in m.intents && m.intents[id].status == Open && ReturnInput(m, id, status).Ok?
    ensures Returned(m, ReturnInput(m, id, status).value, id, status)
  {
    assert IntentOk(m, id);
    ReturnEffect(m, id, status);
  }

  // ---- bids -----------------------------------------------------------------------------

  /** A bid that may be placed: on a live intent, meeting its minimum, within its window and before its deadline, and
      better than the bid that stands. */
  predicate Biddable(m: Market, id: nat, amountOut: nat) {
    && id in m.intents && Live(m.intents[id].status) && m.intents[id].minAmountOut <= amountOut
    && m.now <= m.intents[id].submittedAt + m.bidWindow && m.now < m.intents[id].deadline
    && (id in m.commitments ==> m.commitments[id].amountOut < amountOut)
  }

  /** A bid is accepted exactly from an active solver, and when it may be placed. */
  lemma CommitIff(m: Market, who: Account, id: nat, amountOut: U128)
    requires Inv(m)
    ensures CommitFill(m, who, id, amountOut).Ok? <==> Biddable(m, id, amountOut) && exists s :: ActiveAs(m, who, s)
  {
    forall s | ActiveAs(m, who, s)
      ensures who in m.accountToId && s == m.accountToId[who]
    {
      ActiveIsIndexed(m, who, s);
    }
    if who in m.accountToId {
      IndexedIsOwn(m, who);
      assert ActiveAs(m, who, m.accountToId[who]) <==> m.solvers[m.accountToId[who]].active;
    }
  }

  /** An accepted bid puts its solver on the intent, at the amount bid and due a settlement window later, in place of
      whoever held it; every solver's count is then the commitments naming it, and no balance and no other record
      changes. */
  lemma CommitEffect(m: Market, who: Account, id: nat, amountOut: U128, s: nat)
    requires Inv(m) && ActiveAs(m, who, s) && CommitFill(m, who, id, amountOut).Ok?
    ensures id in m.intents
    ensures var m' := CommitFill(m, who, id, amountOut).value;
            && m' == m.(solvers := m'.solvers, intents := m.intents[id := m.intents[id].(status := Committed)],
                        commitments := m.commitments[id := m'.commitments[id]])
            && m'.commitments[id] == Commitment(s, who, amountOut, m.now, m.now + m.settlementWindow)
            && m'.solvers.Keys == m.solvers.Keys
            && forall t :: t in m.solvers ==>
                 m'.solvers[t] == m.solvers[t].(activeCommitments := Naming(m'.commitments, t))
  {
    var m' := CommitFill(m, who, id, amountOut).value;
    ActiveIsIndexed(m, who, s);
    forall t | t in m.solvers
      ensures t in m'.solvers
      ensures m'.solvers[t] == m.solvers[t].(activeCommitments := Naming(m'.commitments, t))
      ensures m'.solvers.Keys == m.solvers.Keys
    {
      TakeOverCounts(m, id, s, m'.commitments[id], t);
    }
  }

  // ---- settlement and slashing --------------------------------------------------------------

  /** A commitment can be settled exactly by the account that holds it, no later than it is due, against an output that
      meets the bid and that the exchange has. */
  lemma SettleIff(m: Market, who: Account, id: nat, swapped: Option<U128>)
    requires Inv(m) && who.User?
    ensures SettleIntent(m, who, id, swapped).Ok? <==>
            && id in m.commitments && id in m.intents && m.commitments[id].solverAccount == who
            && m.now <= m.commitments[id].settleBy && swapped.Some? && m.commitments[id].amountOut <= swapped.value
            && swapped.value <= Held(m.balances, m.intents[id].tokenOut, Exchange)
  {
    if id in m.commitments {
      SlashNames(m, id);
      assert IntentOk(m, id);
      InputIsHeld(m, id);
      var i, bid := m.intents[id], m.commitments[id].amountOut;
      if swapped.Some? && bid <= swapped.value {
        SettleMoneyIff(m.balances, i, who, bid, swapped.value);
      }
    }
  }

  lemma SettleMoneyIff(b: Balances, i: Intent, who: Account, bid: U128, out: U128)
    requires bid <= out && who.User? && i.user.User? && i.tokenIn != i.tokenOut
    requires i.amountIn <= Held(b, i.tokenIn, IntentEscrow)
    requires Total(Book(b, i.tokenIn)) <= U128_MAX && Total(Book(b, i.tokenOut)) <= U128_MAX
    ensures SettleMoney(b, i, who, bid, out).Ok? <==> out <= Held(b, i.tokenOut, Exchange)
  {
    SwapIff(b, i, out);
    if Swap(b, i, out).Ok? {
      SwapEffect(b, i, out);
      var b1 := Swap(b, i, out).value;
      assert Held(b1, i.tokenOut, IntentEscrow) == Held(b, i.tokenOut, IntentEscrow) + out;
      assert Total(Book(b1, i.tokenOut)) == Total(Book(b, i.tokenOut));
      PayOutWorks(b1, i, who, bid, out);
    }
  }

  lemma SwapIff(b: Balances, i: Intent, out: nat)
    requires i.tokenIn != i.tokenOut && i.amountIn <= Held(b, i.tokenIn, IntentEscrow)
    requires Total(Book(b, i.tokenIn)) <= U128_MAX && Total(Book(b, i.tokenOut)) <= U128_MAX
    ensures Swap(b, i, out).Ok? <==> out <= Held(b, i.tokenOut, Exchange)
  {
    SendWorks(b, i.tokenIn, IntentEscrow, Exchange, i.amountIn, DexFailed);
    SendEffect(b, i.tokenIn, IntentEscrow, Exchange, i.amountIn, DexFailed);
    var b1 := Send(b, i.tokenIn, IntentEscrow, Exchange, i.amountIn, DexFailed).value;
    SendIff(b1, i.tokenOut, Exchange, IntentEscrow, out, DexFailed);
  }

  lemma PayOutWorks(b: Balances, i: Intent, who: Account, bid: U128, out: U128)
    requires bid <= out <= Held(b, i.tokenOut, IntentEscrow) && who.User? && i.user.User?
    requires Total(Book(b, i.tokenOut)) <= U128_MAX
    ensures PayOut(b, i, who, bid, out).Ok?
  {
    var (net, fee) := SplitSolverProfit(out - bid, SOLVER_PROFIT_FEE_BPS);
    SendWorks(b, i.tokenOut, IntentEscrow, i.user, bid, InvalidAmount);
    SendEffect(b, i.tokenOut, IntentEscrow, i.user, bid, InvalidAmount);
    var b1 := Send(b, i.tokenOut, IntentEscrow, i.user, bid, InvalidAmount).value;
    assert Held(b1, i.tokenOut, IntentEscrow) == Held(b, i.tokenOut, IntentEscrow) - bid;
    SendWorks(b1, i.tokenOut, IntentEscrow, FeeTreasury, fee, InvalidAmount);
    SendAnyEffect(b1, i.tokenOut, IntentEscrow, FeeTreasury, fee, InvalidAmount);
    var b2 := SendIfAny(b1, i.tokenOut, IntentEscrow, FeeTreasury, fee, InvalidAmount).value;
    assert Held(b2, i.tokenOut, IntentEscrow) == Held(b1, i.tokenOut, IntentEscrow) - fee;
    SendWorks(b2, i.tokenOut, IntentEscrow, who, net, InvalidAmount);
  }

  /** A settlement pays bid, fee and profit, closes the intent and its commitment, and adds one fill and one point of
      reputation to the solver, whose bond stays; no other record changes. */
  lemma SettleEffect(m: Market, who: Account, id: nat, swapped: Option<U128>)
    requires Inv(m) && who.User? && SettleIntent(m, who, id, swapped).Ok?
    ensures id in m.intents && id in m.commitments && m.commitments[id].solverId in m.solvers && swapped.Some?
    ensures var m' := SettleIntent(m, who, id, swapped).value;
            var sid := m.commitments[id].solverId;
            var s := m.solvers[sid];
            && SettledAt(m.balances, m'.balances, m.intents[id], who, m.commitments[id].amountOut, swapped.value)
            && m' == m.(intents := m.intents[id := m.intents[id].(status := Settled)], escrowed := m.escrowed - {id},
                        commitments := m.commitments - {id}, balances := m'.balances,
                        solvers := m.solvers[sid := s.(
                          reputation := s.reputation + 1, fillsCompleted := s.fillsCompleted + 1,
                          activeCommitments := Naming(m.commitments - {id}, sid))])
  {
    SlashNames(m, id);
    SettlePaysTheBid(m, who, id, swapped);
    OneFewer(m, id);
    SettleMarks(m, who, id, swapped);
  }

  /** A solver's count when one of its commitments goes. */
  lemma OneFewer(m: Market, id: nat)
    requires RecordsOk(m) && id in m.commitments && m.commitments[id].solverId in m.solvers
    ensures var sid := m.commitments[id].solverId;
            m.solvers[sid].activeCommitments == Naming(m.commitments - {id}, sid) + 1
  {
    var sid := m.commitments[id].solverId;
    NamingDrop(m.commitments, id, sid);
    NamedIsCounted(m.commitments, id);
    assert SolverOk(m, sid);
  }

  lemma SettleMarks(m: Market, who: Account, id: nat, swapped: Option<U128>)
    requires SettleIntent(m, who, id, swapped).Ok? && id in m.intents && id in m.commitments
    requires m.commitments[id].solverId in m.solvers && 0 < m.solvers[m.commitments[id].solverId].activeCommitments
    ensures var m' := SettleIntent(m, who, id, swapped).value;
            var sid := m.commitments[id].solverId;
            var s := m.solvers[sid];
            m' == m.(intents := m.intents[id := m.intents[id].(status := Settled)], escrowed := m.escrowed - {id},
                     commitments := m.commitments - {id}, balances := m'.balances,
                     solvers := m.solvers[sid := s.(
                       reputation := s.reputation + 1, fillsCompleted := s.fillsCompleted + 1,
                       activeCommitments := s.activeCommitments - 1)])
  {
  }

  /** A commitment can be slashed exactly once it is overdue, by anyone. */
  lemma SlashIff(m: Market, slasher: Account, id: nat)
    requires Inv(m) && slasher.User?
    ensures SlashSolver(m, slasher, id).Ok? <==> id in m.commitments && m.commitments[id].settleBy < m.now
  {
    if id in m.commitments && m.commitments[id].settleBy < m.now {
      OverdueIntentCloses(m, slasher, id);
    }
  }

  /** A slash pays out the bond, returns the input, closes the intent and its commitment, and leaves the solver out,
      without bond, with one slash more and ten points of reputation less; no other record changes. */
  lemma SlashEffect(m: Market, slasher: Account, id: nat)
    requires Inv(m) && slasher.User? && SlashSolver(m, slasher, id).Ok?
    ensures id in m.intents && id in m.commitments && m.commitments[id].solverId in m.solvers
    ensures var m' := SlashSolver(m, slasher, id).value;
            var sid := m.commitments[id].solverId;
            var s := m.solvers[sid];
            && SlashedAt(m.balances, m'.balances, m.intents[id], sid, slasher, s.bond)
            && m' == m.(intents := m.intents[id := m.intents[id].(status := Expired)], escrowed := m.escrowed - {id},
                        commitments := m.commitments - {id}, balances := m'.balances,
                        solvers := m.solvers[sid := s.(
                          reputation := s.reputation - 10, fillsSlashed := s.fillsSlashed + 1, bond := 0,
                          active := false, activeCommitments := Naming(m.commitments - {id}, sid))])
  {
    SlashNames(m, id);
    SlashPays(m, slasher, id);
    OneFewer(m, id);
    SlashMarks(m, slasher, id);
  }

  lemma SlashMarks(m: Market, slasher: Account, id: nat)
    requires SlashSolver(m, slasher, id).Ok? && id in m.intents && id in m.commitments
    requires m.commitments[id].solverId in m.solvers && 0 < m.solvers[m.commitments[id].solverId].activeCommitments
    ensures var m' := SlashSolver(m, slasher, id).value;
            var sid := m.commitments[id].solverId;
            var s := m.solvers[sid];
            m' == m.(intents := m.intents[id := m.intents[id].(status := Expired)], escrowed := m.escrowed - {id},
                     commitments := m.commitments - {id}, balances := m'.balances,
                     solvers := m.solvers[sid := s.(
                       reputation := s.reputation - 10, fillsSlashed := s.fillsSlashed + 1, bond := 0,
                       active := false, activeCommitments := s.activeCommitments - 1)])
  {
  }

  // ---- governance and the clock ---------------------------------------------------------------

  /** Windows and bond amount are what was last set, never zero once set; the clock counts blocks; no other call touches
      them. */
  lemma OnlyGovernanceSets(m: Market, call: Call)
    ensures var m' := Step(m, call);
            && m'.bidWindow == (if call.SetBidWindow? && call.window > 0 then call.window else m.bidWindow)
            && m'.settlementWindow
               == (if call.SetSettlementWindow? && call.window > 0 then call.window else m.settlementWindow)
            && m'.bondAmount == (if call.SetBondAmount? && call.bond > 0 then call.bond else m.bondAmount)
            && m'.now == (if call.NextBlock? then m.now + 1 else m.now)
  {
  }

  // ---- a bond over every run --------------------------------------------------------------------

  /** A solver that is active, or that no commitment names. */
  ghost predicate Answers(m: Market, s: nat) {
    s in m.solvers && (m.solvers[s].active || Naming(m.commitments, s) == 0)
  }

  /** From `m` to `m'` a solver keeps its account and, while it is active, its bond; once out it stays out; and while it
      is not slashed it stays active or unnamed. */
  ghost predicate BondStands(m: Market, m': Market, s: nat)
    requires s in m.solvers
  {
    && s in m'.solvers && m'.solvers[s].account == m.solvers[s].account
    && m.solvers[s].fillsSlashed <= m'.solvers[s].fillsSlashed
    && (m'.solvers[s].active ==> m.solvers[s].active && m'.solvers[s].bond == m.solvers[s].bond)
    && (Answers(m, s) && m'.solvers[s].fillsSlashed == m.solvers[s].fillsSlashed ==> Answers(m', s))
  }

  lemma DeregisterStands(m: Market, who: Account, s: nat)
    requires Inv(m) && who.User? && s in m.solvers && DeregisterSolver(m, who).Ok?
    ensures BondStands(m, DeregisterSolver(m, who).value, s)
  {
    DeregisterIff(m, who);
    var left :| ActiveAs(m, who, left) && Naming(m.commitments, left) == 0;
    DeregisterEffect(m, who, left);
  }

  lemma RegisterStands(m: Market, who: Account, s: nat)
    requires Inv(m) && who.User? && s in m.solvers && RegisterSolver(m, who).Ok?
    ensures BondStands(m, RegisterSolver(m, who).value, s)
  {
    RegisterEffect(m, who);
  }

  lemma CommitStands(m: Market, who: Account, id: nat, amountOut: U128, s: nat)
    requires Inv(m) && s in m.solvers && CommitFill(m, who, id, amountOut).Ok?
    ensures BondStands(m, CommitFill(m, who, id, amountOut).value, s)
  {
    CommitIff(m, who, id, amountOut);
    var bidder :| ActiveAs(m, who, bidder);
    CommitEffect(m, who, id, amountOut, bidder);
    var m' := CommitFill(m, who, id, amountOut).value;
    NamingSet(m.commitments, id, m'.commitments[id], s);
  }

  lemma SettleStands(m: Market, who: Account, id: nat, swapped: Option<U128>, s: nat)
    requires Inv(m) && who.User? && s in m.solvers && SettleIntent(m, who, id, swapped).Ok?
    ensures BondStands(m, SettleIntent(m, who, id, swapped).value, s)
  {
    SettleEffect(m, who, id, swapped);
    NamingDrop(m.commitments, id, s);
  }

  lemma SlashStands(m: Market, slasher: Account, id: nat, s: nat)
    requires Inv(m) && slasher.User? && s in m.solvers && SlashSolver(m, slasher, id).Ok?
    ensures BondStands(m, SlashSolver(m, slasher, id).value, s)
  {
    SlashEffect(m, slasher, id);
    NamingDrop(m.commitments, id, s);
  }

  lemma UnmovedStands(m: Market, m': Market, s: nat)
    requires s in m.solvers && m'.solvers == m.solvers && m'.commitments == m.commitments
    ensures BondStands(m, m', s)
  {
  }

  lemma StepStands(m: Market, call: Call, s: nat)
    requires Inv(m) && s in m.solvers
    ensures BondStands(m, Step(m, call), s)
  {
    if Dispatch(m, call).Ok? {
      match call
      case Register(who) => RegisterStands(m, User(who), s);
      case Deregister(who) => DeregisterStands(m, User(who), s);
      case Commit(who, id, amountOut) => CommitStands(m, User(who), id, amountOut, s);
      case Settle(who, id, swapped) => SettleStands(m, User(who), id, swapped, s);
      case Slash(who, id) => SlashStands(m, User(who), id, s);
      case _ => QuietStands(m, call, s);
    } else {
      UnmovedStands(m, m, s);
    }
  }

  lemma QuietStands(m: Market, call: Call, s: nat)
    requires s in m.solvers && Dispatch(m, call).Ok?
    requires !call.Register? && !call.Deregister? && !call.Commit? && !call.Settle? && !call.Slash?
    ensures BondStands(m, Step(m, call), s)
  {
    UnmovedStands(m, Step(m, call), s);
  }

  lemma {:induction false} RunStands(m: Market, calls: seq<Call>, s: nat)
    requires Inv(m) && s in m.solvers
    ensures BondStands(m, Run(m, calls), s)
    decreases |calls|
  {
    if calls == [] {
      UnmovedStands(m, m, s);
    } else {
      var m1 := Step(m, calls[0]);
      StepKeepsInv(m, calls[0]);
      StepStands(m, calls[0], s);
      RunStands(m1, calls[1..], s);
      StandsOn(m, m1, Run(m1, calls[1..]), s);
    }
  }

  lemma StandsOn(m: Market, m1: Market, m2: Market, s: nat)
    requires s in m.solvers && BondStands(m, m1, s) && BondStands(m1, m2, s)
    ensures BondStands(m, m2, s)
  {
  }

  /** Over every run a solver that was not slashed since is active, with the whole bond it had and the escrow that holds
      it, for as long as any commitment names it. */
  lemma NamedKeepsBond(m: Market, calls: seq<Call>, e: Market, id: nat)
    requires Inv(m) && e == Run(m, calls) && id in e.commitments
    requires var s := e.commitments[id].solverId;
             s in m.solvers && m.solvers[s].active
             && (s in e.solvers ==> e.solvers[s].fillsSlashed == m.solvers[s].fillsSlashed)
    ensures var s := e.commitments[id].solverId;
            && s in e.solvers && ActiveAs(e, m.solvers[s].account, s) && e.solvers[s].bond == m.solvers[s].bond
            && e.solvers[s].bond <= Held(e.balances, NATIVE, SolverEscrow(s))
  {
    var s := e.commitments[id].solverId;
    RunStands(m, calls, s);
    RunKeepsInv(m, calls);
    NamedIsCounted(e.commitments, id);
    BondIsHeld(e, s);
  }

  /** The first overdue slash of a solver, whatever happened since it registered, goes through and takes exactly the
      bond it registered with: a tenth to whoever slashed, the rest to the treasury. */
  lemma FirstSlashTakesBond(m: Market, who: Account, calls: seq<Call>, e: Market, id: nat, slasher: Account)
    requires Inv(m) && who.User? && RegisterSolver(m, who).Ok? && e == Run(RegisterSolver(m, who).value, calls)
    requires id in e.commitments && e.commitments[id].solverId == m.nextSolver && slasher.User?
    requires m.nextSolver in e.solvers ==> e.solvers[m.nextSolver].fillsSlashed == 0
    requires e.commitments[id].settleBy < e.now
    ensures id in e.intents && SlashSolver(e, slasher, id).Ok?
    ensures SlashedAt(e.balances, SlashSolver(e, slasher, id).value.balances, e.intents[id], m.nextSolver, slasher,
                      m.bondAmount)
  {
    RegisterEffect(m, who);
    RegisterKeepsInv(m, who);
    NamedKeepsBond(RegisterSolver(m, who).value, calls, e, id);
    RunKeepsInv(RegisterSolver(m, who).value, calls);
    SlashIff(e, slasher, id);
    SlashEffect(e, slasher, id);
  }
}
