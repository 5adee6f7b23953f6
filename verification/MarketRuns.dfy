/** What every run of marketplace calls keeps: records that agree, escrows that cover them, bids that only improve. */
module MarketRuns {
  import opened Arith
  import opened Results
  import opened Ledger
  import opened MarketSpec

  // ---- the invariant --------------------------------------------------------------

  /** The intents whose commitment names one solver. */
  ghost function Names(c: map<nat, Commitment>, solver: nat): set<nat> {
    set i | i in c && c[i].solverId == solver
  }

  ghost function Naming(c: map<nat, Commitment>, solver: nat): nat {
    |Names(c, solver)|
  }

  /** One asset's recorded inputs, by intent. */
  ghost function Inputs(e: map<nat, (Asset, U128)>, asset: Asset): map<nat, nat> {
    map i | i in e && e[i].0 == asset :: e[i].1
  }

  /** What the shared escrow owes in one asset. */
  ghost function Owed(m: Market, asset: Asset): nat {
    Total(Inputs(m.escrowed, asset))
  }

  /** What the shared escrow holds above what it owes. */
  ghost function Slack(m: Market, asset: Asset): int {
    Held(m.balances, asset, IntentEscrow) - Owed(m, asset)
  }

  /** An intent is escrowed exactly while it is live and committed exactly while a commitment names it. */
  ghost predicate IntentOk(m: Market, id: nat)
    requires id in m.intents
  {
    var i := m.intents[id];
    && id < m.nextIntent && i.user.User? && i.tokenIn != i.tokenOut
    && (id in m.escrowed <==> Live(i.status))
    && (id in m.escrowed ==> m.escrowed[id] == (i.tokenIn, i.amountIn))
    && (id in m.commitments <==> i.status == Committed)
  }

  ghost predicate CommitmentOk(m: Market, id: nat)
    requires id in m.commitments
  {
    var c := m.commitments[id];
    && id in m.intents && c.amountOut >= m.intents[id].minAmountOut
    && c.solverId in m.solvers && m.solvers[c.solverId].account == c.solverAccount
  }

  /** A solver's count is its commitments and its reputation its record; an inactive one has no bond; an active one is
      its account's only entry. */
  ghost predicate SolverOk(m: Market, id: nat)
    requires id in m.solvers
  {
    var s := m.solvers[id];
    && id < m.nextSolver && s.account.User?
    && s.activeCommitments == Naming(m.commitments, id)
    && (!s.active ==> s.bond == 0)
    && s.reputation == s.fillsCompleted * REPUTATION_FILL_REWARD + s.fillsSlashed * REPUTATION_SLASH_PENALTY
    && (s.active ==> s.account in m.accountToId && m.accountToId[s.account] == id)
  }

  ghost predicate IndexOk(m: Market, who: Account)
    requires who in m.accountToId
  {
    m.accountToId[who] in m.solvers && m.solvers[m.accountToId[who]].account == who
  }

  ghost predicate RecordsOk(m: Market) {
    && (forall id :: id in m.intents ==> IntentOk(m, id))
    && m.escrowed.Keys <= m.intents.Keys
    && (forall id :: id in m.commitments ==> CommitmentOk(m, id))
    && (forall id :: id in m.solvers ==> SolverOk(m, id))
    && (forall who :: who in m.accountToId ==> IndexOk(m, who))
  }

  ghost predicate FundsOk(m: Market) {
    && (forall a: Asset :: 0 <= Slack(m, a))
    && (forall s :: s in m.solvers ==> m.solvers[s].bond <= Held(m.balances, NATIVE, SolverEscrow(s)))
    && (forall a: Asset :: Total(Book(m.balances, a)) <= U128_MAX)
  }

  ghost predicate Inv(m: Market) {
    RecordsOk(m) && FundsOk(m)
  }

  // ---- counting and summing ---------------------------------------------------------

  lemma NamingSet(c: map<nat, Commitment>, id: nat, com: Commitment, solver: nat)
    ensures Naming(c[id := com], solver) == Naming(c, solver)
            - (if id in c && c[id].solverId == solver then 1 else 0) + (if com.solverId == solver then 1 else 0)
  {
    if com.solverId == solver {
      assert Names(c[id := com], solver) == Names(c, solver) + {id};
    } else {
      assert Names(c[id := com], solver) == Names(c, solver) - {id};
    }
  }

  lemma NamingDrop(c: map<nat, Commitment>, id: nat, solver: nat)
    requires id in c
    ensures Naming(c - {id}, solver) == Naming(c, solver) - (if c[id].solverId == solver then 1 else 0)
  {
    assert Names(c - {id}, solver) == Names(c, solver) - {id};
  }

  lemma NamedIsCounted(c: map<nat, Commitment>, id: nat)
    requires id in c
    ensures 0 < Naming(c, c[id].solverId)
  {
    assert id in Names(c, c[id].solverId);
  }

  lemma OwedOnSubmit(e: map<nat, (Asset, U128)>, id: nat, asset: Asset, amount: U128, a: Asset)
    requires id !in e
    ensures Total(Inputs(e[id := (asset, amount)], a)) == Total(Inputs(e, a)) + (if a == asset then amount else 0)
  {
    if a == asset {
      assert Inputs(e[id := (asset, amount)], a) == Inputs(e, a)[id := amount];
      TotalSet(Inputs(e, a), id, amount);
    } else {
      assert Inputs(e[id := (asset, amount)], a) == Inputs(e, a);
    }
  }

  lemma OwedOnClose(e: map<nat, (Asset, U128)>, id: nat, a: Asset)
    requires id in e
    ensures Total(Inputs(e - {id}, a)) == Total(Inputs(e, a)) - (if a == e[id].0 then e[id].1 else 0)
  {
    if a == e[id].0 {
      assert Inputs(e - {id}, a) == Inputs(e, a) - {id};
      TotalRemove(Inputs(e, a), id);
    } else {
      assert Inputs(e - {id}, a) == Inputs(e, a);
    }
  }

  // ---- payments -----------------------------------------------------------------------

  /** `b'` is `b` after one payment. */
  ghost predicate Paid(b: Balances, b': Balances, asset: Asset, from: Account, to: Account, amount: nat) {
    && (forall a, who :: Held(b', a, who) == Held(b, a, who) + (if a == asset then Delta(who, from, to, amount) else 0))
    && (forall a :: Total(Book(b', a)) == Total(Book(b, a)))
  }

  lemma SendEffect(b: Balances, asset: Asset, from: Account, to: Account, amount: nat, e: Error)
    requires Send(b, asset, from, to, amount, e).Ok?
    ensures Paid(b, Send(b, asset, from, to, amount, e).value, asset, from, to, amount)
    ensures amount <= Held(b, asset, from)
  {
    TransferEffect(Book(b, asset), from, to, amount, 0, 0);
    var b' := Send(b, asset, from, to, amount, e).value;
    assert Book(b', asset) == Transfer(Book(b, asset), from, to, amount, 0, 0).value;
    assert forall a :: a != asset ==> Book(b', a) == Book(b, a);
  }

  lemma SendAnyEffect(b: Balances, asset: Asset, from: Account, to: Account, amount: nat, e: Error)
    requires SendIfAny(b, asset, from, to, amount, e).Ok?
    ensures Paid(b, SendIfAny(b, asset, from, to, amount, e).value, asset, from, to, amount)
  {
    if amount > 0 {
      SendEffect(b, asset, from, to, amount, e);
    }
  }

  /** A covered payment always goes through. */
  lemma SendWorks(b: Balances, asset: Asset, from: Account, to: Account, amount: nat, e: Error)
    requires from != to && amount <= Held(b, asset, from) && Total(Book(b, asset)) <= U128_MAX
    ensures Send(b, asset, from, to, amount, e).Ok?
  {
    CoveredTransfer(Book(b, asset), from, to, amount);
  }

  // ---- calls: funds -------------------------------------------------------------------

  /** No account but signers', the treasury's and the exchange's may lose anything unaccounted for. */
  ghost predicate SlackKept(m: Market, m': Market) {
    && (forall a: Asset :: Slack(m', a) == Slack(m, a))
    && (forall a: Asset :: Total(Book(m'.balances, a)) == Total(Book(m.balances, a)))
  }

  /** Closing an intent returns exactly its recorded input to its user and to nobody else. */
  lemma ReturnEffect(m: Market, id: nat, status: IntentStatus)
    requires id in m.intents && m.intents[id].user.User? && ReturnInput(m, id, status).Ok?
    ensures id in m.escrowed
    ensures var m' := ReturnInput(m, id, status).value;
            && SlackKept(m, m')
            && Paid(m.balances, m'.balances, m.escrowed[id].0, IntentEscrow, m.intents[id].user, m.escrowed[id].1)
            && m' == m.(intents := m.intents[id := m.intents[id].(status := status)], escrowed := m.escrowed - {id},
                        balances := m'.balances)
  {
    var (asset, amount) := m.escrowed[id];
    SendEffect(m.balances, asset, IntentEscrow, m.intents[id].user, amount, InvalidAmount);
    forall a: Asset {
      OwedOnClose(m.escrowed, id, a);
    }
  }

  lemma SubmitEffect(m: Market, who: Account, tokenIn: Asset, tokenOut: Asset, amountIn: U128,
                     minOut: U128, deadline: nat)
    requires who.User? && m.nextIntent !in m.escrowed
    requires SubmitIntent(m, who, tokenIn, tokenOut, amountIn, minOut, deadline).Ok?
    ensures var m' := SubmitIntent(m, who, tokenIn, tokenOut, amountIn, minOut, deadline).value;
            && SlackKept(m, m') && Paid(m.balances, m'.balances, tokenIn, who, IntentEscrow, amountIn)
  {
    SendEffect(m.balances, tokenIn, who, IntentEscrow, amountIn, InvalidAmount);
    forall a: Asset {
      OwedOnSubmit(m.escrowed, m.nextIntent, tokenIn, amountIn, a);
    }
  }

  /** What one payment of an asset adds to an account's holding of another, or the same, asset. */
  function Flow(a: Asset, w: Account, asset: Asset, from: Account, to: Account, amount: nat): int {
    if a == asset then Delta(w, from, to, amount) else 0
  }

  /** `b'` is `b` after a settlement: the exchange takes the input and gives the output, of which the user gets the
      bid, the treasury the fee, and the solver what is left; no other account moves. */
  ghost predicate SettledFrom(b: Balances, b': Balances, i: Intent, who: Account, bid: nat, out: nat, fee: nat)
    requires bid + fee <= out
  {
    && (forall a, w :: Held(b', a, w) == Held(b, a, w)
                         + Flow(a, w, i.tokenIn, IntentEscrow, Exchange, i.amountIn)
                         + Flow(a, w, i.tokenOut, Exchange, i.user, bid)
                         + Flow(a, w, i.tokenOut, Exchange, FeeTreasury, fee)
                         + Flow(a, w, i.tokenOut, Exchange, who, out - bid - fee))
    && (forall a :: Total(Book(b', a)) == Total(Book(b, a)))
  }

  lemma SwapEffect(b: Balances, i: Intent, out: nat)
    requires Swap(b, i, out).Ok?
    ensures var b' := Swap(b, i, out).value;
            && (forall a, w :: Held(b', a, w) == Held(b, a, w)
                                 + Flow(a, w, i.tokenIn, IntentEscrow, Exchange, i.amountIn)
                                 + Flow(a, w, i.tokenOut, Exchange, IntentEscrow, out))
            && (forall a :: Total(Book(b', a)) == Total(Book(b, a)))
    ensures i.amountIn <= Held(b, i.tokenIn, IntentEscrow)
    ensures i.tokenIn != i.tokenOut ==> out <= Held(b, i.tokenOut, Exchange)
  {
    SendEffect(b, i.tokenIn, IntentEscrow, Exchange, i.amountIn, DexFailed);
    SendEffect(Send(b, i.tokenIn, IntentEscrow, Exchange, i.amountIn, DexFailed).value, i.tokenOut, Exchange,
               IntentEscrow, out, DexFailed);
  }

  lemma PayOutEffect(b: Balances, i: Intent, who: Account, committed: U128, out: U128)
    requires committed <= out && PayOut(b, i, who, committed, out).Ok?
    ensures var b', (net, fee) := PayOut(b, i, who, committed, out).value,
                                  SplitSolverProfit(out - committed, SOLVER_PROFIT_FEE_BPS);
            && (forall a, w :: Held(b', a, w) == Held(b, a, w)
                                 + Flow(a, w, i.tokenOut, IntentEscrow, i.user, committed)
                                 + Flow(a, w, i.tokenOut, IntentEscrow, FeeTreasury, fee)
                                 + Flow(a, w, i.tokenOut, IntentEscrow, who, net))
            && (forall a :: Total(Book(b', a)) == Total(Book(b, a)))
  {
    var (net, fee) := SplitSolverProfit(out - committed, SOLVER_PROFIT_FEE_BPS);
    SendEffect(b, i.tokenOut, IntentEscrow, i.user, committed, InvalidAmount);
    var b1 := Send(b, i.tokenOut, IntentEscrow, i.user, committed, InvalidAmount).value;
    SendAnyEffect(b1, i.tokenOut, IntentEscrow, FeeTreasury, fee, InvalidAmount);
    var b2 := SendIfAny(b1, i.tokenOut, IntentEscrow, FeeTreasury, fee, InvalidAmount).value;
    SendAnyEffect(b2, i.tokenOut, IntentEscrow, who, net, InvalidAmount);
  }

  /** A settlement whose fee, what the treasury gained, is a fifth of what the output leaves after the bid, rounded
      down. */
  ghost predicate SettledAt(b: Balances, b': Balances, i: Intent, who: Account, bid: nat, out: nat) {
    var fee := Held(b', i.tokenOut, FeeTreasury) - Held(b, i.tokenOut, FeeTreasury);
    0 <= fee && bid + fee <= out && IsShare(fee, out - bid, 2_000) && SettledFrom(b, b', i, who, bid, out, fee)
  }

  /** Swap and pay-out together. */
  lemma SettleMoneyEffect(b: Balances, i: Intent, who: Account, committed: U128, out: U128)
    requires committed <= out && SettleMoney(b, i, who, committed, out).Ok?
    ensures var fee := SplitSolverProfit(out - committed, SOLVER_PROFIT_FEE_BPS).1;
            committed + fee <= out
            && SettledFrom(b, SettleMoney(b, i, who, committed, out).value, i, who, committed, out, fee)
    ensures i.amountIn <= Held(b, i.tokenIn, IntentEscrow)
    ensures i.tokenIn != i.tokenOut ==> out <= Held(b, i.tokenOut, Exchange)
  {
    SwapEffect(b, i, out);
    PayOutEffect(Swap(b, i, out).value, i, who, committed, out);
    PaidOutOfSwap(b, Swap(b, i, out).value, SettleMoney(b, i, who, committed, out).value, i, who, committed, out,
                  SplitSolverProfit(out - committed, SOLVER_PROFIT_FEE_BPS).1);
  }

  /** Three payments out of the escrow, on top of a swap. */
  lemma PaidOutOfSwap(b: Balances, b1: Balances, b': Balances, i: Intent, who: Account, bid: nat, out: nat, fee: nat)
    requires bid + fee <= out
    requires forall a, w :: Held(b1, a, w) == Held(b, a, w)
                              + Flow(a, w, i.tokenIn, IntentEscrow, Exchange, i.amountIn)
                              + Flow(a, w, i.tokenOut, Exchange, IntentEscrow, out)
    requires forall a, w :: Held(b', a, w) == Held(b1, a, w)
                              + Flow(a, w, i.tokenOut, IntentEscrow, i.user, bid)
                              + Flow(a, w, i.tokenOut, IntentEscrow, FeeTreasury, fee)
                              + Flow(a, w, i.tokenOut, IntentEscrow, who, out - bid - fee)
    requires forall a :: Total(Book(b1, a)) == Total(Book(b, a)) && Total(Book(b', a)) == Total(Book(b1, a))
    ensures SettledFrom(b, b', i, who, bid, out, fee)
  {
  }

  /** Settlement pays the user the committed bid, which meets the user's minimum; of the rest the protocol gets a fifth,
      rounded down, and the solver all that is left; the exchange gave exactly the output for exactly the input. */
  lemma SettlePaysTheBid(m: Market, who: Account, id: nat, swapped: Option<U128>)
    requires RecordsOk(m) && who.User? && SettleIntent(m, who, id, swapped).Ok?
    ensures swapped.Some? && id in m.intents && id in m.commitments && m.commitments[id].amountOut <= swapped.value
    ensures var m' := SettleIntent(m, who, id, swapped).value;
            && m.intents[id].minAmountOut <= m.commitments[id].amountOut
            && SettledAt(m.balances, m'.balances, m.intents[id], who, m.commitments[id].amountOut, swapped.value)
            && m'.intents[id].status == Settled
  {
    SettleIsPaid(m, who, id, swapped);
    SettleMoneyAt(m.balances, m.intents[id], who, m.commitments[id].amountOut, swapped.value);
  }

  lemma SettleMoneyAt(b: Balances, i: Intent, who: Account, bid: U128, out: U128)
    requires bid <= out && who.User? && i.user.User? && SettleMoney(b, i, who, bid, out).Ok?
    ensures SettledAt(b, SettleMoney(b, i, who, bid, out).value, i, who, bid, out)
  {
    SettleMoneyEffect(b, i, who, bid, out);
    SettledFee(b, SettleMoney(b, i, who, bid, out).value, i, who, bid, out);
  }

  /** A settlement that goes through has the records it needs and makes the payments of `SettleMoney`. */
  lemma SettleIsPaid(m: Market, who: Account, id: nat, swapped: Option<U128>)
    requires RecordsOk(m) && SettleIntent(m, who, id, swapped).Ok?
    ensures swapped.Some? && id in m.intents && id in m.commitments && m.commitments[id].amountOut <= swapped.value
    ensures var i := m.intents[id];
            && i.user.User? && i.tokenIn != i.tokenOut && i.minAmountOut <= m.commitments[id].amountOut
            && id in m.escrowed && m.escrowed[id] == (i.tokenIn, i.amountIn)
    ensures SettleMoney(m.balances, m.intents[id], who, m.commitments[id].amountOut, swapped.value)
            == Ok(SettleIntent(m, who, id, swapped).value.balances)
    ensures SettleIntent(m, who, id, swapped).value.intents[id].status == Settled
    ensures SettleIntent(m, who, id, swapped).value.escrowed == m.escrowed - {id}
  {
    assert IntentOk(m, id) && CommitmentOk(m, id);
  }

  lemma SettledFee(b: Balances, b': Balances, i: Intent, who: Account, bid: U128, out: U128)
    requires bid <= out && who.User? && i.user.User?
    requires SettledFrom(b, b', i, who, bid, out, SplitSolverProfit(out - bid, SOLVER_PROFIT_FEE_BPS).1)
    ensures SettledAt(b, b', i, who, bid, out)
  {
    var fee := SplitSolverProfit(out - bid, SOLVER_PROFIT_FEE_BPS).1;
    assert Held(b', i.tokenOut, FeeTreasury) == Held(b, i.tokenOut, FeeTreasury) + fee;
  }

  /** Of the escrows, a settlement moves the shared one, by the input. */
  lemma SettledEscrows(b: Balances, b': Balances, i: Intent, who: Account, bid: nat, out: nat)
    requires SettledAt(b, b', i, who, bid, out) && who.User? && i.user.User?
    ensures forall a ::
              Held(b', a, IntentEscrow) == Held(b, a, IntentEscrow) - (if a == i.tokenIn then i.amountIn else 0)
    ensures forall a, s :: Held(b', a, SolverEscrow(s)) == Held(b, a, SolverEscrow(s))
  {
  }

  /** Settlement leaves every other intent's backing, and every solver's bond, exactly as they were. */
  lemma SettleLeaksNothing(m: Market, who: Account, id: nat, swapped: Option<U128>)
    requires RecordsOk(m) && who.User? && SettleIntent(m, who, id, swapped).Ok?
    ensures var m' := SettleIntent(m, who, id, swapped).value;
            && SlackKept(m, m')
            && (forall s :: Held(m'.balances, NATIVE, SolverEscrow(s)) == Held(m.balances, NATIVE, SolverEscrow(s)))
  {
    SettleIsPaid(m, who, id, swapped);
    SettlePaysTheBid(m, who, id, swapped);
    SettledEscrows(m.balances, SettleIntent(m, who, id, swapped).value.balances, m.intents[id], who,
                   m.commitments[id].amountOut, swapped.value);
    ClosedKeepsSlack(m, SettleIntent(m, who, id, swapped).value, id);
  }

  /** An intent that leaves the escrow with exactly its input leaves the others' backing where it was. */
  lemma ClosedKeepsSlack(m: Market, m': Market, id: nat)
    requires id in m.escrowed && m'.escrowed == m.escrowed - {id}
    requires forall a ::
               Held(m'.balances, a, IntentEscrow)
               == Held(m.balances, a, IntentEscrow) - (if a == m.escrowed[id].0 then m.escrowed[id].1 else 0)
    ensures forall a: Asset :: Slack(m', a) == Slack(m, a)
  {
    forall a: Asset {
      OwedOnClose(m.escrowed, id, a);
    }
  }

  lemma PaySlashEffect(b: Balances, solver: nat, bond: U128, slasher: Account)
    requires PaySlash(b, solver, bond, slasher).Ok?
    ensures var b' := PaySlash(b, solver, bond, slasher).value;
            var (toTreasury, toSlasher) := SplitSlashedBond(bond, SLASHER_REWARD_BPS);
            && (forall a, w :: Held(b', a, w) == Held(b, a, w)
                                 + Flow(a, w, NATIVE, SolverEscrow(solver), FeeTreasury, toTreasury)
                                 + Flow(a, w, NATIVE, SolverEscrow(solver), slasher, toSlasher))
            && (forall a :: Total(Book(b', a)) == Total(Book(b, a)))
  {
    var (toTreasury, toSlasher) := SplitSlashedBond(bond, SLASHER_REWARD_BPS);
    SendAnyEffect(b, NATIVE, SolverEscrow(solver), FeeTreasury, toTreasury, InsufficientBondFunds);
    var b1 := SendIfAny(b, NATIVE, SolverEscrow(solver), FeeTreasury, toTreasury, InsufficientBondFunds).value;
    SendAnyEffect(b1, NATIVE, SolverEscrow(solver), slasher, toSlasher, InsufficientBondFunds);
  }

  // ---- calls: records -------------------------------------------------------------------

  /** Funds stay covered when no slack moved and no bond outgrew its escrow. */
  lemma FundsKept(m: Market, m': Market)
    requires FundsOk(m)
    requires forall a: Asset :: Slack(m, a) <= Slack(m', a)
    requires forall a: Asset :: Total(Book(m'.balances, a)) == Total(Book(m.balances, a))
    requires forall s :: s in m'.solvers ==> m'.solvers[s].bond <= Held(m'.balances, NATIVE, SolverEscrow(s))
    ensures FundsOk(m')
  {
    forall a: Asset
      ensures 0 <= Slack(m', a)
    {
      assert 0 <= Slack(m, a);
    }
  }

  lemma FreshSolverUnnamed(m: Market)
    requires RecordsOk(m)
    ensures m.nextSolver !in m.solvers && Naming(m.commitments, m.nextSolver) == 0
    ensures forall a :: a in m.accountToId ==> m.accountToId[a] != m.nextSolver
  {
    forall s | s in m.solvers
      ensures s < m.nextSolver
    {
      assert SolverOk(m, s);
    }
    forall i | i in m.commitments
      ensures m.commitments[i].solverId in m.solvers
    {
      assert CommitmentOk(m, i);
    }
    forall a | a in m.accountToId
      ensures m.accountToId[a] in m.solvers
    {
      assert IndexOk(m, a);
    }
    assert Names(m.commitments, m.nextSolver) == {};
  }

  lemma RegisterKeepsRecords(m: Market, who: Account)
    requires RecordsOk(m) && who.User? && RegisterSolver(m, who).Ok?
    ensures RecordsOk(RegisterSolver(m, who).value)
  {
    var m' := RegisterSolver(m, who).value;
    FreshSolverUnnamed(m);
    forall s | s in m'.solvers
      ensures SolverOk(m', s)
    {
      assert s == m.nextSolver || SolverOk(m, s);
    }
    forall i | i in m'.commitments
      ensures CommitmentOk(m', i)
    {
      assert CommitmentOk(m, i);
    }
    forall a | a in m'.accountToId
      ensures IndexOk(m', a)
    {
      assert a == who || IndexOk(m, a);
    }
    IntentsUnmoved(m, m');
  }

  /** Records about intents survive a call that leaves intents, commitments and escrow records alone. */
  lemma IntentsUnmoved(m: Market, m': Market)
    requires RecordsOk(m) && m'.intents == m.intents && m'.commitments == m.commitments
    requires m'.escrowed == m.escrowed && m'.nextIntent == m.nextIntent
    ensures forall i :: i in m'.intents ==> IntentOk(m', i)
  {
    forall i | i in m'.intents
      ensures IntentOk(m', i)
    {
      assert IntentOk(m, i);
    }
  }

  lemma RegisterKeepsInv(m: Market, who: Account)
    requires Inv(m) && who.User? && RegisterSolver(m, who).Ok?
    ensures Inv(RegisterSolver(m, who).value)
  {
    RegisterKeepsRecords(m, who);
    RegisterKeepsFunds(m, who);
  }

  lemma RegisterKeepsFunds(m: Market, who: Account)
    requires Inv(m) && who.User? && RegisterSolver(m, who).Ok?
    ensures FundsOk(RegisterSolver(m, who).value)
  {
    FreshSolverUnnamed(m);
    SendEffect(m.balances, NATIVE, who, SolverEscrow(m.nextSolver), m.bondAmount, InsufficientBondFunds);
    FundsKept(m, RegisterSolver(m, who).value);
  }

  lemma DeregisterKeepsRecords(m: Market, who: Account)
    requires RecordsOk(m) && DeregisterSolver(m, who).Ok?
    ensures RecordsOk(DeregisterSolver(m, who).value)
  {
    OtherSolversKept(m, DeregisterSolver(m, who).value, m.accountToId[who]);
  }

  lemma DeregisterKeepsFunds(m: Market, who: Account)
    requires FundsOk(m) && who.User? && DeregisterSolver(m, who).Ok?
    ensures FundsOk(DeregisterSolver(m, who).value)
  {
    var id := m.accountToId[who];
    SendEffect(m.balances, NATIVE, SolverEscrow(id), who, m.solvers[id].bond, InsufficientBondFunds);
    FundsKept(m, DeregisterSolver(m, who).value);
  }

  /** A call that changes one solver's money and flags, and no other record. */
  lemma OtherSolversKept(m: Market, m': Market, id: nat)
    requires RecordsOk(m) && id in m.solvers && id in m'.solvers
    requires m' == m.(solvers := m.solvers[id := m'.solvers[id]], balances := m'.balances)
    requires m'.solvers[id] == m.solvers[id].(bond := m'.solvers[id].bond, active := m'.solvers[id].active)
    requires !m'.solvers[id].active && m'.solvers[id].bond == 0
    ensures RecordsOk(m')
  {
    forall s | s in m'.solvers
      ensures SolverOk(m', s)
    {
      assert SolverOk(m, s);
    }
    forall i | i in m'.commitments
      ensures CommitmentOk(m', i)
    {
      assert CommitmentOk(m, i);
    }
    forall a | a in m'.accountToId
      ensures IndexOk(m', a)
    {
      assert IndexOk(m, a);
    }
    IntentsUnmoved(m, m');
  }

  lemma SubmitKeepsRecords(m: Market, who: Account, tokenIn: Asset, tokenOut: Asset, amountIn: U128,
                           minOut: U128, deadline: nat)
    requires RecordsOk(m) && who.User? && SubmitIntent(m, who, tokenIn, tokenOut, amountIn, minOut, deadline).Ok?
    ensures RecordsOk(SubmitIntent(m, who, tokenIn, tokenOut, amountIn, minOut, deadline).value)
    ensures m.nextIntent !in m.escrowed
  {
    var m' := SubmitIntent(m, who, tokenIn, tokenOut, amountIn, minOut, deadline).value;
    forall i | i in m.intents
      ensures i < m.nextIntent
    {
      assert IntentOk(m, i);
    }
    forall i | i in m'.commitments
      ensures CommitmentOk(m', i)
    {
      assert CommitmentOk(m, i);
    }
    forall i | i in m'.intents
      ensures IntentOk(m', i)
    {
      assert i == m.nextIntent || IntentOk(m, i);
    }
    SolversUnmoved(m, m');
  }

  lemma SubmitKeepsInv(m: Market, who: Account, tokenIn: Asset, tokenOut: Asset, amountIn: U128,
                       minOut: U128, deadline: nat)
    requires Inv(m) && who.User? && SubmitIntent(m, who, tokenIn, tokenOut, amountIn, minOut, deadline).Ok?
    ensures Inv(SubmitIntent(m, who, tokenIn, tokenOut, amountIn, minOut, deadline).value)
  {
    SubmitKeepsRecords(m, who, tokenIn, tokenOut, amountIn, minOut, deadline);
    SubmitEffect(m, who, tokenIn, tokenOut, amountIn, minOut, deadline);
    FundsKept(m, SubmitIntent(m, who, tokenIn, tokenOut, amountIn, minOut, deadline).value);
  }

  /** Records about solvers survive a call that leaves solvers and commitments alone. */
  lemma SolversUnmoved(m: Market, m': Market)
    requires RecordsOk(m) && m'.solvers == m.solvers && m'.commitments == m.commitments
    requires m'.accountToId == m.accountToId && m'.nextSolver == m.nextSolver
    ensures forall s :: s in m'.solvers ==> SolverOk(m', s)
    ensures forall a :: a in m'.accountToId ==> IndexOk(m', a)
  {
    forall s | s in m'.solvers
      ensures SolverOk(m', s)
    {
      assert SolverOk(m, s);
    }
    forall a | a in m'.accountToId
      ensures IndexOk(m', a)
    {
      assert IndexOk(m, a);
    }
  }

  /** An open intent closed by its owner. */
  lemma ReturnKeepsInv(m: Market, id: nat, status: IntentStatus)
    requires Inv(m) && id in m.intents && m.intents[id].status == Open && !Live(status)
    requires ReturnInput(m, id, status).Ok?
    ensures Inv(ReturnInput(m, id, status).value)
  {
    assert IntentOk(m, id);
    ReturnEffect(m, id, status);
    ReturnKeepsRecords(m, ReturnInput(m, id, status).value, id, status);
    FundsKept(m, ReturnInput(m, id, status).value);
  }

  lemma ReturnKeepsRecords(m: Market, m': Market, id: nat, status: IntentStatus)
    requires RecordsOk(m) && id in m.intents && m.intents[id].status == Open && !Live(status)
    requires m' == m.(intents := m.intents[id := m.intents[id].(status := status)], escrowed := m.escrowed - {id},
                      balances := m'.balances)
    ensures RecordsOk(m')
  {
    forall i | i in m'.intents
      ensures IntentOk(m', i)
    {
      assert IntentOk(m, i);
    }
    forall i | i in m'.commitments
      ensures CommitmentOk(m', i)
    {
      assert CommitmentOk(m, i);
    }
    SolversUnmoved(m, m');
  }

  /** The count follows the commitment: displaced, self-overbid or first bid alike. */
  lemma TakeOverCounts(m: Market, id: nat, solverId: nat, com: Commitment, s: nat)
    requires RecordsOk(m) && solverId in m.solvers && s in m.solvers && com.solverId == solverId
    ensures var t := TakeOver(m.solvers, PriorOf(m, id), solverId);
            && t.Keys == m.solvers.Keys
            && t[s] == m.solvers[s].(activeCommitments := t[s].activeCommitments)
            && t[s].activeCommitments == Naming(m.commitments[id := com], s)
  {
    NamingSet(m.commitments, id, com, s);
    assert SolverOk(m, s);
    if id in m.commitments {
      assert CommitmentOk(m, id) && SolverOk(m, m.commitments[id].solverId);
      NamedIsCounted(m.commitments, id);
    }
  }

  lemma CommitKeepsSolvers(m: Market, who: Account, id: nat, amountOut: U128)
    requires RecordsOk(m) && CommitFill(m, who, id, amountOut).Ok?
    ensures var m' := CommitFill(m, who, id, amountOut).value;
            && m'.solvers.Keys == m.solvers.Keys
            && (forall s :: s in m'.solvers ==>
                  && SolverOk(m', s) && m'.solvers[s].account == m.solvers[s].account
                  && m'.solvers[s].bond == m.solvers[s].bond)
  {
    var m' := CommitFill(m, who, id, amountOut).value;
    var solverId := m.accountToId[who];
    TakeOverCounts(m, id, solverId, m'.commitments[id], solverId);
    forall s | s in m.solvers
      ensures s in m'.solvers && SolverOk(m', s) && m'.solvers[s].account == m.solvers[s].account
      ensures m'.solvers[s].bond == m.solvers[s].bond
    {
      assert SolverOk(m, s);
      TakeOverCounts(m, id, solverId, m'.commitments[id], s);
    }
  }

  lemma CommitKeepsRecords(m: Market, who: Account, id: nat, amountOut: U128)
    requires RecordsOk(m) && CommitFill(m, who, id, amountOut).Ok?
    ensures RecordsOk(CommitFill(m, who, id, amountOut).value)
  {
    var m' := CommitFill(m, who, id, amountOut).value;
    assert IndexOk(m, who);
    CommitKeepsSolvers(m, who, id, amountOut);
    forall i | i in m'.intents
      ensures IntentOk(m', i)
    {
      assert IntentOk(m, i);
    }
    forall i | i in m'.commitments
      ensures CommitmentOk(m', i)
    {
      assert i == id || CommitmentOk(m, i);
    }
    forall a | a in m'.accountToId
      ensures IndexOk(m', a)
    {
      assert IndexOk(m, a);
    }
  }

  lemma CommitKeepsInv(m: Market, who: Account, id: nat, amountOut: U128)
    requires Inv(m) && who.User? && CommitFill(m, who, id, amountOut).Ok?
    ensures Inv(CommitFill(m, who, id, amountOut).value)
  {
    CommitKeepsRecords(m, who, id, amountOut);
    CommitKeepsSolvers(m, who, id, amountOut);
    FundsKept(m, CommitFill(m, who, id, amountOut).value);
  }

  /** A commitment dropped and its intent closed, with its solver's count lowered and no other record changed. */
  ghost predicate Closed(m: Market, m': Market, id: nat, status: IntentStatus) {
    && id in m.commitments && id in m.intents && m.commitments[id].solverId in m.solvers
    && var sid := m.commitments[id].solverId;
       && sid in m'.solvers
       && m' == m.(intents := m.intents[id := m.intents[id].(status := status)], escrowed := m.escrowed - {id},
                   commitments := m.commitments - {id}, solvers := m.solvers[sid := m'.solvers[sid]],
                   balances := m'.balances)
       && m'.solvers[sid].account == m.solvers[sid].account
       && m'.solvers[sid].activeCommitments == SatSub(m.solvers[sid].activeCommitments, 1)
       && (m'.solvers[sid].active ==> m.solvers[sid].active)
       && (!m'.solvers[sid].active ==> m'.solvers[sid].bond == 0)
       && m'.solvers[sid].reputation == m'.solvers[sid].fillsCompleted * REPUTATION_FILL_REWARD
                                        + m'.solvers[sid].fillsSlashed * REPUTATION_SLASH_PENALTY
  }

  lemma ClosedKeepsRecords(m: Market, m': Market, id: nat, status: IntentStatus)
    requires RecordsOk(m) && Closed(m, m', id, status) && !Live(status)
    ensures RecordsOk(m')
  {
    forall i | i in m'.intents
      ensures IntentOk(m', i)
    {
      assert IntentOk(m, i);
    }
    forall i | i in m'.commitments
      ensures CommitmentOk(m', i)
    {
      assert CommitmentOk(m, i);
    }
    forall s | s in m'.solvers
      ensures SolverOk(m', s)
    {
      assert SolverOk(m, s);
      NamingDrop(m.commitments, id, s);
      NamedIsCounted(m.commitments, id);
    }
    forall a | a in m'.accountToId
      ensures IndexOk(m', a)
    {
      assert IndexOk(m, a);
    }
  }

  lemma SettleKeepsRecords(m: Market, who: Account, id: nat, swapped: Option<U128>)
    requires RecordsOk(m) && SettleIntent(m, who, id, swapped).Ok?
    ensures var m' := SettleIntent(m, who, id, swapped).value;
            && RecordsOk(m') && m'.solvers.Keys == m.solvers.Keys
            && (forall s :: s in m.solvers ==> m'.solvers[s].bond == m.solvers[s].bond)
  {
    SettleCloses(m, who, id, swapped);
    ClosedKeepsRecords(m, SettleIntent(m, who, id, swapped).value, id, Settled);
  }

  lemma SettleCloses(m: Market, who: Account, id: nat, swapped: Option<U128>)
    requires RecordsOk(m) && SettleIntent(m, who, id, swapped).Ok?
    ensures var m' := SettleIntent(m, who, id, swapped).value;
            && Closed(m, m', id, Settled) && m'.solvers.Keys == m.solvers.Keys
            && (forall s :: s in m.solvers ==> m'.solvers[s].bond == m.solvers[s].bond)
  {
    assert CommitmentOk(m, id);
    assert SolverOk(m, m.commitments[id].solverId);
  }

  lemma SettleKeepsInv(m: Market, who: Account, id: nat, swapped: Option<U128>)
    requires Inv(m) && who.User? && SettleIntent(m, who, id, swapped).Ok?
    ensures Inv(SettleIntent(m, who, id, swapped).value)
  {
    SettleLeaksNothing(m, who, id, swapped);
    SettleKeepsRecords(m, who, id, swapped);
    FundsKept(m, SettleIntent(m, who, id, swapped).value);
  }

  /** Bond out, then input back: the two payments of a slash. */
  lemma SlashMoneyEffect(m: Market, slasher: Account, id: nat)
    requires RecordsOk(m) && slasher.User? && SlashSolver(m, slasher, id).Ok?
    ensures id in m.intents && id in m.commitments && m.commitments[id].solverId in m.solvers && id in m.escrowed
    ensures var b, sid := m.balances, m.commitments[id].solverId;
            var b1 := PaySlash(b, sid, m.solvers[sid].bond, slasher);
            && b1.Ok?
            && Paid(b1.value, SlashSolver(m, slasher, id).value.balances, m.intents[id].tokenIn, IntentEscrow,
                    m.intents[id].user, m.intents[id].amountIn)
    ensures Closed(m, SlashSolver(m, slasher, id).value, id, Expired)
    ensures var s := SlashSolver(m, slasher, id).value.solvers[m.commitments[id].solverId]; !s.active && s.bond == 0
  {
    var sid := m.commitments[id].solverId;
    assert IntentOk(m, id);
    assert CommitmentOk(m, id);
    assert SolverOk(m, sid);
    var m1 := m.(balances := PaySlash(m.balances, sid, m.solvers[sid].bond, slasher).value);
    ReturnEffect(m1, id, Expired);
  }

  /** `b'` is `b` after a slash: the solver's escrow gives up the bond, of which the slasher gets the reward and the
      treasury what is left, and the user gets the input back; no other account moves. */
  ghost predicate SlashedFrom(b: Balances, b': Balances, i: Intent, solver: nat, slasher: Account, bond: nat,
                              reward: nat)
    requires reward <= bond
  {
    && (forall a, w :: Held(b', a, w) == Held(b, a, w)
                         + Flow(a, w, NATIVE, SolverEscrow(solver), FeeTreasury, bond - reward)
                         + Flow(a, w, NATIVE, SolverEscrow(solver), slasher, reward)
                         + Flow(a, w, i.tokenIn, IntentEscrow, i.user, i.amountIn))
    && (forall a :: Total(Book(b', a)) == Total(Book(b, a)))
  }

  /** A slash whose reward, what the treasury did not gain of the bond, is a tenth of it, rounded down. */
  ghost predicate SlashedAt(b: Balances, b': Balances, i: Intent, solver: nat, slasher: Account, bond: nat) {
    var reward := bond - (Held(b', NATIVE, FeeTreasury) - Held(b, NATIVE, FeeTreasury));
    0 <= reward <= bond && IsShare(reward, bond, 1_000) && SlashedFrom(b, b', i, solver, slasher, bond, reward)
  }

  /** Slashing takes the whole bond, of which a tenth, rounded down, goes to whoever slashed and the rest to the
      treasury, and returns exactly the input to the user. */
  lemma SlashPays(m: Market, slasher: Account, id: nat)
    requires RecordsOk(m) && slasher.User? && SlashSolver(m, slasher, id).Ok?
    ensures id in m.intents && id in m.commitments && m.commitments[id].solverId in m.solvers
    ensures var m' := SlashSolver(m, slasher, id).value;
            var sid := m.commitments[id].solverId;
            SlashedAt(m.balances, m'.balances, m.intents[id], sid, slasher, m.solvers[sid].bond)
  {
    SlashMoneyEffect(m, slasher, id);
    SlashNames(m, id);
    var sid := m.commitments[id].solverId;
    var bond := m.solvers[sid].bond;
    PaySlashEffect(m.balances, sid, bond, slasher);
    PaidAfterSlash(m.balances, PaySlash(m.balances, sid, bond, slasher).value,
                   SlashSolver(m, slasher, id).value.balances, m.intents[id], sid, slasher, bond);
  }

  lemma SlashNames(m: Market, id: nat)
    requires RecordsOk(m) && id in m.commitments
    ensures id in m.intents && m.commitments[id].solverId in m.solvers && m.intents[id].user.User?
    ensures id in m.escrowed && m.escrowed[id] == (m.intents[id].tokenIn, m.intents[id].amountIn)
    ensures m.intents[id].tokenIn != m.intents[id].tokenOut
  {
    assert CommitmentOk(m, id);
    assert IntentOk(m, id);
  }

  /** The input returned after the bond is paid out. */
  lemma PaidAfterSlash(b: Balances, b1: Balances, b': Balances, i: Intent, solver: nat, slasher: Account, bond: U128)
    requires slasher.User? && i.user.User?
    requires var (toTreasury, toSlasher) := SplitSlashedBond(bond, SLASHER_REWARD_BPS);
             forall a, w :: Held(b1, a, w) == Held(b, a, w)
                              + Flow(a, w, NATIVE, SolverEscrow(solver), FeeTreasury, toTreasury)
                              + Flow(a, w, NATIVE, SolverEscrow(solver), slasher, toSlasher)
    requires forall a :: Total(Book(b1, a)) == Total(Book(b, a))
    requires Paid(b1, b', i.tokenIn, IntentEscrow, i.user, i.amountIn)
    ensures SlashedAt(b, b', i, solver, slasher, bond)
  {
    var reward := SplitSlashedBond(bond, SLASHER_REWARD_BPS).1;
    assert Held(b', NATIVE, FeeTreasury) == Held(b, NATIVE, FeeTreasury) + bond - reward;
  }

  /** Of the escrows, a slash moves the shared one, by the input, and the slashed solver's. */
  lemma SlashedEscrows(b: Balances, b': Balances, i: Intent, solver: nat, slasher: Account, bond: nat)
    requires SlashedAt(b, b', i, solver, slasher, bond) && slasher.User? && i.user.User?
    ensures forall a ::
              Held(b', a, IntentEscrow) == Held(b, a, IntentEscrow) - (if a == i.tokenIn then i.amountIn else 0)
    ensures forall s :: s != solver ==> Held(b', NATIVE, SolverEscrow(s)) == Held(b, NATIVE, SolverEscrow(s))
  {
  }

  /** Slashing leaves every other intent's backing and every other solver's bond as they were. */
  lemma SlashLeaksNothing(m: Market, slasher: Account, id: nat)
    requires RecordsOk(m) && slasher.User? && SlashSolver(m, slasher, id).Ok?
    ensures id in m.commitments && m.commitments[id].solverId in m.solvers
    ensures var m' := SlashSolver(m, slasher, id).value;
            && SlackKept(m, m')
            && (forall s :: s != m.commitments[id].solverId ==>
                  Held(m'.balances, NATIVE, SolverEscrow(s)) == Held(m.balances, NATIVE, SolverEscrow(s)))
  {
    SlashPays(m, slasher, id);
    SlashMoneyEffect(m, slasher, id);
    SlashNames(m, id);
    var m' := SlashSolver(m, slasher, id).value;
    SlashedEscrows(m.balances, m'.balances, m.intents[id], m.commitments[id].solverId, slasher,
                   m.solvers[m.commitments[id].solverId].bond);
    ClosedKeepsSlack(m, m', id);
  }

  lemma SlashKeepsRecords(m: Market, slasher: Account, id: nat)
    requires RecordsOk(m) && slasher.User? && SlashSolver(m, slasher, id).Ok?
    ensures RecordsOk(SlashSolver(m, slasher, id).value)
  {
    SlashMoneyEffect(m, slasher, id);
    ClosedKeepsRecords(m, SlashSolver(m, slasher, id).value, id, Expired);
  }

  lemma SlashKeepsFunds(m: Market, slasher: Account, id: nat)
    requires Inv(m) && slasher.User? && SlashSolver(m, slasher, id).Ok?
    ensures FundsOk(SlashSolver(m, slasher, id).value)
  {
    SlashMoneyEffect(m, slasher, id);
    SlashLeaksNothing(m, slasher, id);
    FundsKept(m, SlashSolver(m, slasher, id).value);
  }

  // ---- runs -------------------------------------------------------------------------------

  datatype Call =
    | Register(who: nat)
    | Deregister(who: nat)
    | Submit(who: nat, tokenIn: Asset, tokenOut: Asset, amountIn: U128, minOut: U128, deadline: nat)
    | Cancel(who: nat, id: nat)
    | Refund(who: nat, id: nat)
    | Commit(who: nat, id: nat, amountOut: U128)
    | Settle(who: nat, id: nat, swapped: Option<U128>)
    | Slash(who: nat, id: nat)
    | SetBidWindow(window: nat)
    | SetSettlementWindow(window: nat)
    | SetBondAmount(bond: U128)
    | Pay(from: nat, asset: Asset, to: Account, amount: nat)
    | NextBlock

  function Dispatch(m: Market, call: Call): Result<Market, Error> {
    match call
    case Register(who) => RegisterSolver(m, User(who))
    case Deregister(who) => DeregisterSolver(m, User(who))
    case Submit(who, tokenIn, tokenOut, amountIn, minOut, deadline) =>
      SubmitIntent(m, User(who), tokenIn, tokenOut, amountIn, minOut, deadline)
    case Cancel(who, id) => CancelIntent(m, User(who), id)
    case Refund(who, id) => RefundExpired(m, User(who), id)
    case Commit(who, id, amountOut) => CommitFill(m, User(who), id, amountOut)
    case Settle(who, id, swapped) => SettleIntent(m, User(who), id, swapped)
    case Slash(who, id) => SlashSolver(m, User(who), id)
    case SetBidWindow(w) => if w == 0 then Err(InvalidAmount) else Ok(m.(bidWindow := w))
    case SetSettlementWindow(w) => if w == 0 then Err(InvalidAmount) else Ok(m.(settlementWindow := w))
    case SetBondAmount(b) => if b == 0 then Err(InvalidAmount) else Ok(m.(bondAmount := b))
    case Pay(from, asset, to, amount) =>
      var b :- Send(m.balances, asset, User(from), to, amount, InvalidAmount); Ok(m.(balances := b))
    case NextBlock => Ok(m.(now := m.now + 1))
  }

  /** A refused call leaves no trace. */
  function Step(m: Market, call: Call): Market {
    match Dispatch(m, call)
    case Ok(m') => m'
    case Err(_) => m
  }

  function Run(m: Market, calls: seq<Call>): Market
    decreases |calls|
  {
    if calls == [] then m else Run(Step(m, calls[0]), calls[1..])
  }

  lemma PayKeepsFunds(m: Market, from: nat, asset: Asset, to: Account, amount: nat)
    requires FundsOk(m) && Send(m.balances, asset, User(from), to, amount, InvalidAmount).Ok?
    ensures FundsOk(m.(balances := Send(m.balances, asset, User(from), to, amount, InvalidAmount).value))
  {
    SendEffect(m.balances, asset, User(from), to, amount, InvalidAmount);
    FundsKept(m, m.(balances := Send(m.balances, asset, User(from), to, amount, InvalidAmount).value));
  }

  /** A call on no record: windows, the clock, a signer's payment. */
  lemma QuietKeepsInv(m: Market, call: Call)
    requires Inv(m) && Dispatch(m, call).Ok?
    requires call.SetBidWindow? || call.SetSettlementWindow? || call.SetBondAmount? || call.Pay? || call.NextBlock?
    ensures Inv(Step(m, call))
  {
    SameRecords(m, Step(m, call));
    if call.Pay? {
      PayKeepsFunds(m, call.from, call.asset, call.to, call.amount);
    } else {
      FundsKept(m, Step(m, call));
    }
  }

  lemma SameRecords(m: Market, m': Market)
    requires RecordsOk(m)
    requires m' == m.(bidWindow := m'.bidWindow, settlementWindow := m'.settlementWindow, bondAmount := m'.bondAmount,
                      now := m'.now, balances := m'.balances)
    ensures RecordsOk(m')
  {
    forall i | i in m'.commitments
      ensures CommitmentOk(m', i)
    {
      assert CommitmentOk(m, i);
    }
    IntentsUnmoved(m, m');
    SolversUnmoved(m, m');
  }

  /** Every call keeps the marketplace's books. */
  lemma StepKeepsInv(m: Market, call: Call)
    requires Inv(m)
    ensures Inv(Step(m, call))
  {
    if Dispatch(m, call).Ok? {
      match call
      case Register(who) => RegisterKeepsInv(m, User(who));
      case Deregister(who) =>
        DeregisterKeepsRecords(m, User(who));
        DeregisterKeepsFunds(m, User(who));
      case Submit(who, tokenIn, tokenOut, amountIn, minOut, deadline) =>
        SubmitKeepsInv(m, User(who), tokenIn, tokenOut, amountIn, minOut, deadline);
      case Cancel(who, id) => ReturnKeepsInv(m, id, Cancelled);
      case Refund(who, id) => ReturnKeepsInv(m, id, Expired);
      case Commit(who, id, amountOut) => CommitKeepsInv(m, User(who), id, amountOut);
      case Settle(who, id, swapped) => SettleKeepsInv(m, User(who), id, swapped);
      case Slash(who, id) =>
        SlashKeepsRecords(m, User(who), id);
        SlashKeepsFunds(m, User(who), id);
      case _ => QuietKeepsInv(m, call);
    }
  }

  /** Over every run the records agree, the shared escrow covers every live intent, and every bond is in its escrow. */
  lemma {:induction false} RunKeepsInv(m: Market, calls: seq<Call>)
    requires Inv(m)
    ensures Inv(Run(m, calls))
    decreases |calls|
  {
    if calls != [] {
      StepKeepsInv(m, calls[0]);
      RunKeepsInv(Step(m, calls[0]), calls[1..]);
    }
  }

  /** The marketplace before its first call. */
  function Genesis(bidWindow: nat, settlementWindow: nat, bondAmount: U128, balances: Balances): Market {
    Market(bidWindow, settlementWindow, bondAmount, 0, 0, 0, map[], map[], map[], map[], map[], balances)
  }

  lemma GenesisInv(bidWindow: nat, settlementWindow: nat, bondAmount: U128, balances: Balances)
    requires forall a: Asset :: Total(Book(balances, a)) <= U128_MAX
    ensures Inv(Genesis(bidWindow, settlementWindow, bondAmount, balances))
  {
    var m := Genesis(bidWindow, settlementWindow, bondAmount, balances);
    forall a: Asset
      ensures 0 <= Slack(m, a)
    {
      assert Inputs(m.escrowed, a) == map[];
    }
  }

  /** An account has at most one active solver, whatever it registered before. */
  lemma OneActiveSolver(m: Market, calls: seq<Call>, s: nat, s': nat)
    requires Inv(m)
    requires s in Run(m, calls).solvers && s' in Run(m, calls).solvers
    requires Run(m, calls).solvers[s].active && Run(m, calls).solvers[s'].active
    requires Run(m, calls).solvers[s].account == Run(m, calls).solvers[s'].account
    ensures s == s'
  {
    RunKeepsInv(m, calls);
    assert SolverOk(Run(m, calls), s) && SolverOk(Run(m, calls), s');
  }
}
