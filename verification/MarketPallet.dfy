/** The solver marketplace as it runs: storage maps, record fields and balances updated in place, call by call. */
module MarketPallet {
  import opened Arith
  import opened Results
  import opened Ledger
  import opened MarketSpec

  class Marketplace {
    var bidWindow: nat
    var settlementWindow: nat
    var bondAmount: U128
    var now: nat
    var nextIntent: nat
    var nextSolver: nat
    var intents: map<nat, Intent>
    var accountToId: map<Account, nat>
    var solvers: map<nat, Solver>
    var commitments: map<nat, Commitment>
    var escrowed: map<nat, (Asset, U128)>
    var balances: Balances

    constructor (bidWindow: nat, settlementWindow: nat, bondAmount: U128, balances: Balances)
      ensures View() == Market(bidWindow, settlementWindow, bondAmount, 0, 0, 0, map[], map[], map[], map[], map[],
                               balances)
    {
      this.bidWindow, this.settlementWindow, this.bondAmount := bidWindow, settlementWindow, bondAmount;
      now, nextIntent, nextSolver := 0, 0, 0;
      intents, accountToId, solvers, commitments, escrowed := map[], map[], map[], map[], map[];
      this.balances := balances;
    }

    /** Everything the calls read and write. */
    function View(): Market
      reads this
    {
      Market(bidWindow, settlementWindow, bondAmount, now, nextIntent, nextSolver, intents, accountToId, solvers,
             commitments, escrowed, balances)
    }

    /** Drops a storage layer. */
    method Restore(saved: Market)
      modifies this
      ensures View() == saved
    {
      bidWindow, settlementWindow, bondAmount := saved.bidWindow, saved.settlementWindow, saved.bondAmount;
      now, nextIntent, nextSolver := saved.now, saved.nextIntent, saved.nextSolver;
      intents, accountToId, solvers := saved.intents, saved.accountToId, saved.solvers;
      commitments, escrowed, balances := saved.commitments, saved.escrowed, saved.balances;
    }

    // ---- money ----------------------------------------------------------------------

    method Pay(asset: Asset, from: Account, to: Account, amount: nat, e: Error) returns (r: Result<(), Error>)
      modifies this`balances
      ensures match Send(old(balances), asset, from, to, amount, e)
              case Ok(b) => r == Ok(()) && balances == b
              case Err(f) => r == Err(f) && balances == old(balances)
    {
      var book := if asset in balances then balances[asset] else map[];
      var moved := Transfer(book, from, to, amount, 0, 0);
      if moved.Err? {
        return Err(e);
      }
      balances := balances[asset := moved.value];
      return Ok(());
    }

    method PayIfAny(asset: Asset, from: Account, to: Account, amount: nat, e: Error) returns (r: Result<(), Error>)
      modifies this`balances
      ensures match SendIfAny(old(balances), asset, from, to, amount, e)
              case Ok(b) => r == Ok(()) && balances == b
              case Err(f) => r == Err(f) && balances == old(balances)
    {
      if amount != 0 {
        r := Pay(asset, from, to, amount, e);
      } else {
        r := Ok(());
      }
    }

    // ---- solver lifecycle -------------------------------------------------------------

    method RegisterSolver(who: Account) returns (r: Result<(), Error>)
      modifies this
      ensures match MarketSpec.RegisterSolver(old(View()), who)
              case Ok(m) => r == Ok(()) && View() == m
              case Err(e) => r == Err(e) && View() == old(View())
    {
      if who in accountToId && accountToId[who] in solvers {
        if solvers[accountToId[who]].active {
          return Err(SolverAlreadyRegistered);
        }
      }
      var id := nextSolver;
      var bonded := Pay(NATIVE, who, SolverEscrow(id), bondAmount, InsufficientBondFunds);
      if bonded.Err? {
        return Err(bonded.error);
      }
      solvers := solvers[id := Solver(who, bondAmount, 0, 0, 0, 0, now, true)];
      accountToId := accountToId[who := id];
      nextSolver := id + 1;
      return Ok(());
    }

    method DeregisterSolver(who: Account) returns (r: Result<(), Error>)
      modifies this
      ensures match MarketSpec.DeregisterSolver(old(View()), who)
              case Ok(m) => r == Ok(()) && View() == m
              case Err(e) => r == Err(e) && View() == old(View())
    {
      if who !in accountToId || accountToId[who] !in solvers {
        return Err(SolverNotRegistered);
      }
      var id := accountToId[who];
      var solver := solvers[id];
      if !solver.active {
        return Err(SolverNotActive);
      }
      if solver.activeCommitments != 0 {
        return Err(ActiveCommitmentsExist);
      }
      var refunded := Pay(NATIVE, SolverEscrow(id), who, solver.bond, InsufficientBondFunds);
      if refunded.Err? {
        return Err(refunded.error);
      }
      solver := solver.(active := false);
      solver := solver.(bond := 0);
      solvers := solvers[id := solver];
      return Ok(());
    }

    // ---- intent lifecycle -------------------------------------------------------------

    method SubmitIntent(who: Account, tokenIn: Asset, tokenOut: Asset, amountIn: U128, minOut: U128, deadline: nat)
      returns (r: Result<nat, Error>)
      modifies this
      ensures match MarketSpec.SubmitIntent(old(View()), who, tokenIn, tokenOut, amountIn, minOut, deadline)
              case Ok(m) => r == Ok(old(nextIntent)) && View() == m
              case Err(e) => r == Err(e) && View() == old(View())
    {
      if amountIn == 0 || tokenIn == tokenOut {
        return Err(InvalidAmount);
      }
      if deadline <= now {
        return Err(InvalidDeadline);
      }
      var taken := Pay(tokenIn, who, IntentEscrow, amountIn, InvalidAmount);
      if taken.Err? {
        return Err(taken.error);
      }
      var id := nextIntent;
      intents := intents[id := Intent(who, tokenIn, tokenOut, amountIn, minOut, deadline, now, Open)];
      escrowed := escrowed[id := (tokenIn, amountIn)];
      nextIntent := id + 1;
      return Ok(id);
    }

    /** Sends a recorded input back and closes its intent. */
    method CloseOpen(id: nat, status: IntentStatus) returns (r: Result<(), Error>)
      requires id in intents
      modifies this`balances, this`intents, this`escrowed
      ensures match ReturnInput(old(View()), id, status)
              case Ok(m) => r == Ok(()) && View() == m
              case Err(e) => r == Err(e) && View() == old(View())
    {
      if id !in escrowed {
        return Err(IntentNotFound);
      }
      var (asset, amount) := escrowed[id];
      var returned := Pay(asset, IntentEscrow, intents[id].user, amount, InvalidAmount);
      if returned.Err? {
        return Err(returned.error);
      }
      intents := intents[id := intents[id].(status := status)];
      escrowed := escrowed - {id};
      return Ok(());
    }

    method CancelIntent(who: Account, id: nat) returns (r: Result<(), Error>)
      modifies this
      ensures match MarketSpec.CancelIntent(old(View()), who, id)
              case Ok(m) => r == Ok(()) && View() == m
              case Err(e) => r == Err(e) && View() == old(View())
    {
      if id !in intents {
        return Err(IntentNotFound);
      }
      if intents[id].user != who {
        return Err(NotIntentOwner);
      }
      if intents[id].status != Open {
        return Err(IntentNotOpen);
      }
      r := CloseOpen(id, Cancelled);
    }

    method RefundExpiredIntent(who: Account, id: nat) returns (r: Result<(), Error>)
      modifies this
      ensures match RefundExpired(old(View()), who, id)
              case Ok(m) => r == Ok(()) && View() == m
              case Err(e) => r == Err(e) && View() == old(View())
    {
      if id !in intents {
        return Err(IntentNotFound);
      }
      if intents[id].user != who {
        return Err(NotIntentOwner);
      }
      if intents[id].status != Open {
        return Err(IntentNotOpen);
      }
      if now < intents[id].deadline {
        return Err(DeadlineNotPassed);
      }
      r := CloseOpen(id, Expired);
    }

    // ---- fill lifecycle ---------------------------------------------------------------

    /** Lowers the count of the solver a new bid displaces, if it is another solver. */
    method Displace(id: nat, solverId: nat) returns (selfReplaced: bool)
      modifies this`solvers
      ensures selfReplaced == (id in commitments && commitments[id].solverId == solverId)
      ensures solvers == if id in commitments && !selfReplaced
                         then Release(old(solvers), commitments[id].solverId) else old(solvers)
    {
      selfReplaced := false;
      if id in commitments {
        var prior := commitments[id];
        if prior.solverId == solverId {
          selfReplaced := true;
        } else if prior.solverId in solvers {
          var displaced := solvers[prior.solverId];
          displaced := displaced.(activeCommitments := SatSub(displaced.activeCommitments, 1));
          solvers := solvers[prior.solverId := displaced];
        }
      }
    }

    method CommitFill(who: Account, id: nat, amountOut: U128) returns (r: Result<(), Error>)
      modifies this
      ensures match MarketSpec.CommitFill(old(View()), who, id, amountOut)
              case Ok(m) => r == Ok(()) && View() == m
              case Err(e) => r == Err(e) && View() == old(View())
    {
      if who !in accountToId || accountToId[who] !in solvers {
        return Err(SolverNotRegistered);
      }
      var solverId := accountToId[who];
      var solver := solvers[solverId];
      if !solver.active {
        return Err(SolverNotActive);
      }
      if id !in intents {
        return Err(IntentNotFound);
      }
      var intent := intents[id];
      if intent.status != Open && intent.status != Committed {
        return Err(IntentNotOpen);
      }
      if amountOut < intent.minAmountOut {
        return Err(BelowMinAmountOut);
      }
      if now > intent.submittedAt + bidWindow {
        return Err(BidWindowClosed);
      }
      if now >= intent.deadline {
        return Err(IntentExpired);
      }
      if id in commitments && amountOut <= commitments[id].amountOut {
        return Err(BidNotBetter);
      }
      PlaceBid(solverId, who, id, amountOut);
      return Ok(());
    }

    /** Puts the bid in the standing one's place, and counts it. */
    method PlaceBid(solverId: nat, who: Account, id: nat, amountOut: U128)
      requires solverId in solvers && id in intents
      modifies this`solvers, this`commitments, this`intents
      ensures solvers
              == TakeOver(old(solvers), if id in old(commitments) then Some(old(commitments)[id]) else None, solverId)
      ensures commitments
              == old(commitments)[id := Commitment(solverId, who, amountOut, now, now + settlementWindow)]
      ensures intents == old(intents)[id := old(intents)[id].(status := Committed)]
    {
      var solver := solvers[solverId];
      var selfReplaced := Displace(id, solverId);
      commitments := commitments[id := Commitment(solverId, who, amountOut, now, now + settlementWindow)];
      if !selfReplaced {
        solver := solver.(activeCommitments := solver.activeCommitments + 1);
        solvers := solvers[solverId := solver];
      }
      var intent := intents[id];
      intent := intent.(status := Committed);
      intents := intents[id := intent];
    }

    /** Runs the swap through the exchange. */
    method SwapThrough(intent: Intent, out: nat) returns (r: Result<(), Error>)
      modifies this`balances
      ensures match Swap(old(balances), intent, out)
              case Ok(b) => r == Ok(()) && balances == b
              case Err(e) => r == Err(e)
    {
      r := Pay(intent.tokenIn, IntentEscrow, Exchange, intent.amountIn, DexFailed);
      if r.Ok? {
        r := Pay(intent.tokenOut, Exchange, IntentEscrow, out, DexFailed);
      }
    }

    /** Delivers the committed amount, then splits what is left of the output. */
    method Distribute(intent: Intent, who: Account, committed: U128, out: U128) returns (r: Result<(), Error>)
      requires committed <= out
      modifies this`balances
      ensures match PayOut(old(balances), intent, who, committed, out)
              case Ok(b) => r == Ok(()) && balances == b
              case Err(e) => r == Err(e)
    {
      var profit := SatSub(out, committed);
      var (netProfit, protocolFee) := SplitSolverProfit(profit, SOLVER_PROFIT_FEE_BPS);
      r := Pay(intent.tokenOut, IntentEscrow, intent.user, committed, InvalidAmount);
      if r.Err? {
        return;
      }
      r := PayIfAny(intent.tokenOut, IntentEscrow, FeeTreasury, protocolFee, InvalidAmount);
      if r.Err? {
        return;
      }
      r := PayIfAny(intent.tokenOut, IntentEscrow, who, netProfit, InvalidAmount);
    }

    /** Swap, then pay out. */
    method SettleFunds(intent: Intent, who: Account, committed: U128, out: U128) returns (r: Result<(), Error>)
      requires committed <= out
      modifies this`balances
      ensures match SettleMoney(old(balances), intent, who, committed, out)
              case Ok(b) => r == Ok(()) && balances == b
              case Err(e) => r == Err(e)
    {
      r := SwapThrough(intent, out);
      if r.Ok? {
        r := Distribute(intent, who, committed, out);
      }
    }

    method Credit(solverId: nat)
      modifies this`solvers
      ensures solvers == CreditFill(old(solvers), solverId)
    {
      if solverId in solvers {
        var solver := solvers[solverId];
        solver := solver.(reputation := solver.reputation + REPUTATION_FILL_REWARD);
        solver := solver.(fillsCompleted := solver.fillsCompleted + 1);
        solver := solver.(activeCommitments := SatSub(solver.activeCommitments, 1));
        solvers := solvers[solverId := solver];
      }
    }

    /** Drops the commitment and the escrow record, closes the intent and credits the solver. */
    method CloseSettled(id: nat)
      requires id in intents && id in commitments
      modifies this`escrowed, this`intents, this`commitments, this`solvers
      ensures View() == MarkSettled(old(View()), id)
    {
      escrowed := escrowed - {id};
      intents := intents[id := intents[id].(status := Settled)];
      Credit(commitments[id].solverId);
      commitments := commitments - {id};
    }

    /** `swapped` is what the exchange would deliver; on an error the caller's storage layer drops what was done. */
    method DoSettle(who: Account, id: nat, swapped: Option<U128>) returns (r: Result<(), Error>)
      modifies this
      ensures match MarketSpec.SettleIntent(old(View()), who, id, swapped)
              case Ok(m) => r == Ok(()) && View() == m
              case Err(e) => r == Err(e)
    {
      if id !in commitments {
        return Err(IntentNotCommitted);
      }
      var commitment := commitments[id];
      if commitment.solverAccount != who {
        return Err(NotCommittedSolver);
      }
      if now > commitment.settleBy {
        return Err(SettlementWindowPassed);
      }
      if id !in intents {
        return Err(IntentNotFound);
      }
      var intent := intents[id];
      if intent.status != Committed {
        return Err(IntentNotCommitted);
      }
      if swapped.None? || swapped.value < commitment.amountOut {
        return Err(DexFailed);
      }
      r := FinishSettle(who, id, swapped.value);
    }

    method FinishSettle(who: Account, id: nat, out: U128) returns (r: Result<(), Error>)
      requires id in commitments && id in intents && commitments[id].amountOut <= out
      modifies this
      ensures match Execute(old(View()), who, id, out)
              case Ok(m) => r == Ok(()) && View() == m
              case Err(e) => r == Err(e)
    {
      r := SettleFunds(intents[id], who, commitments[id].amountOut, out);
      if r.Ok? {
        CloseSettled(id);
      }
    }

    method SettleIntent(who: Account, id: nat, swapped: Option<U128>) returns (r: Result<(), Error>)
      modifies this
      ensures match MarketSpec.SettleIntent(old(View()), who, id, swapped)
              case Ok(m) => r == Ok(()) && View() == m
              case Err(e) => r == Err(e) && View() == old(View())
    {
      var layer := View();
      r := DoSettle(who, id, swapped);
      if r.Err? {
        Restore(layer);
      }
    }

    method PayBond(solverId: nat, bond: U128, slasher: Account) returns (r: Result<(), Error>)
      modifies this`balances
      ensures match PaySlash(old(balances), solverId, bond, slasher)
              case Ok(b) => r == Ok(()) && balances == b
              case Err(e) => r == Err(e)
    {
      var (toTreasury, toSlasher) := SplitSlashedBond(bond, SLASHER_REWARD_BPS);
      r := PayIfAny(NATIVE, SolverEscrow(solverId), FeeTreasury, toTreasury, InsufficientBondFunds);
      if r.Err? {
        return;
      }
      r := PayIfAny(NATIVE, SolverEscrow(solverId), slasher, toSlasher, InsufficientBondFunds);
    }

    method Penalise(solverId: nat)
      requires solverId in solvers
      modifies this`solvers
      ensures solvers == old(solvers)[solverId := Slashed(old(solvers)[solverId])]
    {
      var solver := solvers[solverId];
      solver := solver.(bond := 0);
      solver := solver.(reputation := solver.reputation + REPUTATION_SLASH_PENALTY);
      solver := solver.(fillsSlashed := solver.fillsSlashed + 1);
      solver := solver.(activeCommitments := SatSub(solver.activeCommitments, 1));
      solver := solver.(active := false);
      solvers := solvers[solverId := solver];
    }

    method DoSlash(slasher: Account, id: nat) returns (r: Result<(), Error>)
      modifies this
      ensures match MarketSpec.SlashSolver(old(View()), slasher, id)
              case Ok(m) => r == Ok(()) && View() == m
              case Err(e) => r == Err(e)
    {
      if id !in commitments {
        return Err(IntentNotCommitted);
      }
      var commitment := commitments[id];
      if now <= commitment.settleBy {
        return Err(SettlementWindowNotPassed);
      }
      if id !in intents {
        return Err(IntentNotFound);
      }
      if intents[id].status != Committed {
        return Err(IntentNotCommitted);
      }
      if commitment.solverId !in solvers {
        return Err(SolverNotRegistered);
      }
      r := FinishSlash(slasher, id);
    }

    method FinishSlash(slasher: Account, id: nat) returns (r: Result<(), Error>)
      requires id in commitments && id in intents && commitments[id].solverId in solvers
      modifies this
      ensures match Confiscate(old(View()), slasher, id)
              case Ok(m) => r == Ok(()) && View() == m
              case Err(e) => r == Err(e)
    {
      var solverId := commitments[id].solverId;
      r := PayBond(solverId, solvers[solverId].bond, slasher);
      if r.Err? {
        return;
      }
      r := CloseOpen(id, Expired);
      if r.Err? {
        return;
      }
      DropSlashed(id, solverId);
    }

    method DropSlashed(id: nat, solverId: nat)
      requires solverId in solvers
      modifies this`commitments, this`solvers
      ensures commitments == old(commitments) - {id}
      ensures solvers == old(solvers)[solverId := Slashed(old(solvers)[solverId])]
    {
      commitments := commitments - {id};
      Penalise(solverId);
    }

    method SlashSolver(slasher: Account, id: nat) returns (r: Result<(), Error>)
      modifies this
      ensures match MarketSpec.SlashSolver(old(View()), slasher, id)
              case Ok(m) => r == Ok(()) && View() == m
              case Err(e) => r == Err(e) && View() == old(View())
    {
      var layer := View();
      r := DoSlash(slasher, id);
      if r.Err? {
        Restore(layer);
      }
    }
  }
}
