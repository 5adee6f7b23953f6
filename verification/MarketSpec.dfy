/** The solver marketplace's calls as functions from one state to the next, or to an error that changes nothing. */
module MarketSpec {
  import opened Arith
  import opened Results
  import opened Ledger

  // ---- settlement arithmetic ----------------------------------------------------

  const REPUTATION_FILL_REWARD: int := 1
  const REPUTATION_SLASH_PENALTY: int := -10
  const SLASHER_REWARD_BPS: nat := 1_000
  const SOLVER_PROFIT_FEE_BPS: nat := 2_000

  /** `floor(amount * bps / 10_000)` in wide precision; the fallback is the amount itself. */
  function BpsOf(amount: U128, bps: nat): nat {
    var x := amount * bps / BPS;
    if x <= U128_MAX then x else amount
  }

  /** `(to treasury, to slasher)`. */
  function SplitSlashedBond(bond: U128, rewardBps: nat): (r: (nat, nat))
    requires rewardBps <= BPS
    ensures r.0 + r.1 == bond && IsShare(r.1, bond, rewardBps)
  {
    MulDivAtMost(bond, rewardBps, BPS);
    FloorBounds(bond * rewardBps, BPS);
    var slasher := BpsOf(bond, rewardBps);
    (SatSub(bond, slasher), slasher)
  }

  /** `(solver's net, protocol fee)`. */
  function SplitSolverProfit(profit: U128, feeBps: nat): (r: (nat, nat))
    requires feeBps <= BPS
    ensures r.0 + r.1 == profit && IsShare(r.1, profit, feeBps)
  {
    MulDivAtMost(profit, feeBps, BPS);
    FloorBounds(profit * feeBps, BPS);
    var fee := BpsOf(profit, feeBps);
    (SatSub(profit, fee), fee)
  }

  // ---- records ------------------------------------------------------------------

  /** Distinct accounts: signers, one escrow per solver, the shared intent escrow, the fee treasury, the exchange. */
  datatype Account = User(id: nat) | SolverEscrow(solver: nat) | IntentEscrow | FeeTreasury | Exchange

  type Asset = nat

  const NATIVE: Asset := 0

  datatype IntentStatus = Open | Committed | Settled | Cancelled | Expired

  datatype Intent = Intent(
    user: Account, tokenIn: Asset, tokenOut: Asset, amountIn: U128, minAmountOut: U128, deadline: nat,
    submittedAt: nat, status: IntentStatus)

  datatype Solver = Solver(
    account: Account, bond: U128, reputation: int, fillsCompleted: nat, fillsSlashed: nat, activeCommitments: nat,
    registeredAt: nat, active: bool)

  datatype Commitment = Commitment(
    solverId: nat, solverAccount: Account, amountOut: U128, committedAt: nat, settleBy: nat)

  datatype Error =
    | SolverNotRegistered | SolverAlreadyRegistered | SolverNotActive | InsufficientBondFunds | IntentNotFound
    | IntentNotOpen | IntentNotCommitted | IntentExpired | NotIntentOwner | BidWindowClosed | BelowMinAmountOut
    | BidNotBetter | NotCommittedSolver | SettlementWindowPassed | SettlementWindowNotPassed | ActiveCommitmentsExist
    | InvalidDeadline | DeadlineNotPassed | InvalidAmount | DexFailed

  type Balances = map<Asset, map<Account, nat>>

  datatype Market = Market(
    bidWindow: nat, settlementWindow: nat, bondAmount: U128, now: nat, nextIntent: nat, nextSolver: nat,
    intents: map<nat, Intent>, accountToId: map<Account, nat>, solvers: map<nat, Solver>,
    commitments: map<nat, Commitment>, escrowed: map<nat, (Asset, U128)>, balances: Balances)

  predicate Live(status: IntentStatus) {
    status == Open || status == Committed
  }

  // ---- money ----------------------------------------------------------------------

  /** One asset's accounts. */
  function Book(b: Balances, asset: Asset): map<Account, nat> {
    if asset in b then b[asset] else map[]
  }

  function Held(b: Balances, asset: Asset, who: Account): nat {
    Bal(Book(b, asset), who)
  }

  function Send(b: Balances, asset: Asset, from: Account, to: Account, amount: nat, e: Error): Result<Balances, Error> {
    match Transfer(Book(b, asset), from, to, amount, 0, 0)
    case Ok(book) => Ok(b[asset := book])
    case Err(_) => Err(e)
  }

  function SendIfAny(b: Balances, asset: Asset, from: Account, to: Account, amount: nat, e: Error)
    : Result<Balances, Error>
  {
    if amount == 0 then Ok(b) else Send(b, asset, from, to, amount, e)
  }

  // ---- solver lifecycle -----------------------------------------------------------

  function RegisterSolver(m: Market, who: Account): Result<Market, Error> {
    if who in m.accountToId && m.accountToId[who] in m.solvers && m.solvers[m.accountToId[who]].active then
      Err(SolverAlreadyRegistered)
    else
      var id := m.nextSolver;
      var b :- Send(m.balances, NATIVE, who, SolverEscrow(id), m.bondAmount, InsufficientBondFunds);
      Ok(m.(
         solvers := m.solvers[id := Solver(who, m.bondAmount, 0, 0, 0, 0, m.now, true)],
         accountToId := m.accountToId[who := id], nextSolver := id + 1, balances := b))
  }

  function DeregisterSolver(m: Market, who: Account): Result<Market, Error> {
    if who !in m.accountToId || m.accountToId[who] !in m.solvers then Err(SolverNotRegistered)
    else
      var id := m.accountToId[who];
      var solver := m.solvers[id];
      if !solver.active then Err(SolverNotActive)
      else if solver.activeCommitments != 0 then Err(ActiveCommitmentsExist)
      else
        var b :- Send(m.balances, NATIVE, SolverEscrow(id), who, solver.bond, InsufficientBondFunds);
        Ok(m.(solvers := m.solvers[id := solver.(active := false, bond := 0)], balances := b))
  }

  // ---- intent lifecycle -----------------------------------------------------------

  function SubmitIntent(m: Market, who: Account, tokenIn: Asset, tokenOut: Asset, amountIn: U128, minOut: U128,
                        deadline: nat): Result<Market, Error>
  {
    if amountIn == 0 || tokenIn == tokenOut then Err(InvalidAmount)
    else if deadline <= m.now then Err(InvalidDeadline)
    else
      var b :- Send(m.balances, tokenIn, who, IntentEscrow, amountIn, InvalidAmount);
      var id := m.nextIntent;
      Ok(m.(
         intents := m.intents[id := Intent(who, tokenIn, tokenOut, amountIn, minOut, deadline, m.now, Open)],
         escrowed := m.escrowed[id := (tokenIn, amountIn)], nextIntent := id + 1, balances := b))
  }

  /** Returns the recorded input and closes an intent that no solver holds. */
  function ReturnInput(m: Market, id: nat, status: IntentStatus): Result<Market, Error>
    requires id in m.intents
  {
    if id !in m.escrowed then Err(IntentNotFound)
    else
      var (asset, amount) := m.escrowed[id];
      var b :- Send(m.balances, asset, IntentEscrow, m.intents[id].user, amount, InvalidAmount);
      Ok(m.(
         intents := m.intents[id := m.intents[id].(status := status)], escrowed := m.escrowed - {id}, balances := b))
  }

  function CancelIntent(m: Market, who: Account, id: nat): Result<Market, Error> {
    if id !in m.intents then Err(IntentNotFound)
    else if m.intents[id].user != who then Err(NotIntentOwner)
    else if m.intents[id].status != Open then Err(IntentNotOpen)
    else ReturnInput(m, id, Cancelled)
  }

  function RefundExpired(m: Market, who: Account, id: nat): Result<Market, Error> {
    if id !in m.intents then Err(IntentNotFound)
    else if m.intents[id].user != who then Err(NotIntentOwner)
    else if m.intents[id].status != Open then Err(IntentNotOpen)
    else if m.now < m.intents[id].deadline then Err(DeadlineNotPassed)
    else ReturnInput(m, id, Expired)
  }

  // ---- fill lifecycle -------------------------------------------------------------

  /** One commitment fewer on a solver that exists. */
  function Release(solvers: map<nat, Solver>, id: nat): map<nat, Solver> {
    if id in solvers then
      solvers[id := solvers[id].(activeCommitments := SatSub(solvers[id].activeCommitments, 1))]
    else solvers
  }

  /** The solver table after `solverId` takes an intent from `prior`, if anyone held it; a self-overbid moves nothing.
      */
  function TakeOver(solvers: map<nat, Solver>, prior: Option<Commitment>, solverId: nat): map<nat, Solver>
    requires solverId in solvers
  {
    if prior.Some? && prior.value.solverId == solverId then solvers
    else
      var released := if prior.Some? then Release(solvers, prior.value.solverId) else solvers;
      released[solverId := solvers[solverId].(activeCommitments := solvers[solverId].activeCommitments + 1)]
  }

  function PriorOf(m: Market, id: nat): Option<Commitment> {
    if id in m.commitments then Some(m.commitments[id]) else None
  }

  function CommitFill(m: Market, who: Account, id: nat, amountOut: U128): Result<Market, Error> {
    if who !in m.accountToId || m.accountToId[who] !in m.solvers then Err(SolverNotRegistered)
    else
      var solverId := m.accountToId[who];
      if !m.solvers[solverId].active then Err(SolverNotActive)
      else if id !in m.intents then Err(IntentNotFound)
      else
        var intent := m.intents[id];
        if !Live(intent.status) then Err(IntentNotOpen)
        else if amountOut < intent.minAmountOut then Err(BelowMinAmountOut)
        else if m.now > intent.submittedAt + m.bidWindow then Err(BidWindowClosed)
        else if m.now >= intent.deadline then Err(IntentExpired)
        else if id in m.commitments && amountOut <= m.commitments[id].amountOut then Err(BidNotBetter)
        else
          Ok(m.(
             solvers := TakeOver(m.solvers, PriorOf(m, id), solverId),
             commitments :=
                m.commitments[id := Commitment(solverId, who, amountOut, m.now, m.now + m.settlementWindow)],
             intents := m.intents[id := intent.(status := Committed)]))
  }

  /** Exactly the input against `out`, through the exchange and back to the escrow. */
  function Swap(b: Balances, intent: Intent, out: nat): Result<Balances, Error> {
    var b1 :- Send(b, intent.tokenIn, IntentEscrow, Exchange, intent.amountIn, DexFailed);
    Send(b1, intent.tokenOut, Exchange, IntentEscrow, out, DexFailed)
  }

  /** The user's amount, the protocol's fee and the solver's profit, out of the swap's output. */
  function PayOut(b: Balances, intent: Intent, who: Account, committed: U128, out: U128): Result<Balances, Error>
    requires committed <= out
  {
    var (net, fee) := SplitSolverProfit(out - committed, SOLVER_PROFIT_FEE_BPS);
    var b1 :- Send(b, intent.tokenOut, IntentEscrow, intent.user, committed, InvalidAmount);
    var b2 :- SendIfAny(b1, intent.tokenOut, IntentEscrow, FeeTreasury, fee, InvalidAmount);
    SendIfAny(b2, intent.tokenOut, IntentEscrow, who, net, InvalidAmount)
  }

  function SettleMoney(b: Balances, intent: Intent, who: Account, committed: U128, out: U128): Result<Balances, Error>
    requires committed <= out
  {
    var b1 :- Swap(b, intent, out);
    PayOut(b1, intent, who, committed, out)
  }

  /** A settlement that passed its checks. */
  function Execute(m: Market, who: Account, id: nat, out: U128): Result<Market, Error>
    requires id in m.commitments && id in m.intents && m.commitments[id].amountOut <= out
  {
    var intent, c := m.intents[id], m.commitments[id];
    var b :- SettleMoney(m.balances, intent, who, c.amountOut, out);
    Ok(MarkSettled(m, id).(balances := b))
  }

  /** The records of a settlement: the escrow record and the commitment go, the solver has one more fill. */
  function MarkSettled(m: Market, id: nat): Market
    requires id in m.commitments && id in m.intents
  {
    m.(
    escrowed := m.escrowed - {id}, commitments := m.commitments - {id},
    intents := m.intents[id := m.intents[id].(status := Settled)],
    solvers := CreditFill(m.solvers, m.commitments[id].solverId))
  }

  /** `swapped` is the exchange's output, if it would deliver; it never delivers less than was committed. */
  function SettleIntent(m: Market, who: Account, id: nat, swapped: Option<U128>): Result<Market, Error> {
    if id !in m.commitments then Err(IntentNotCommitted)
    else
      var c := m.commitments[id];
      if c.solverAccount != who then Err(NotCommittedSolver)
      else if m.now > c.settleBy then Err(SettlementWindowPassed)
      else if id !in m.intents then Err(IntentNotFound)
      else if m.intents[id].status != Committed then Err(IntentNotCommitted)
      else if swapped.None? || swapped.value < c.amountOut then Err(DexFailed)
      else
        Execute(m, who, id, swapped.value)
  }

  function CreditFill(solvers: map<nat, Solver>, id: nat): map<nat, Solver> {
    if id !in solvers then solvers
    else
      var s := solvers[id];
      solvers[id := s.(
        reputation := s.reputation + REPUTATION_FILL_REWARD, fillsCompleted := s.fillsCompleted + 1,
        activeCommitments := SatSub(s.activeCommitments, 1))]
  }

  /** Splits a slashed bond between treasury and slasher. */
  function PaySlash(b: Balances, solverId: nat, bond: U128, slasher: Account): Result<Balances, Error> {
    var (toTreasury, toSlasher) := SplitSlashedBond(bond, SLASHER_REWARD_BPS);
    var b1 :- SendIfAny(b, NATIVE, SolverEscrow(solverId), FeeTreasury, toTreasury, InsufficientBondFunds);
    SendIfAny(b1, NATIVE, SolverEscrow(solverId), slasher, toSlasher, InsufficientBondFunds)
  }

  function Slashed(s: Solver): Solver {
    s.(
    bond := 0, reputation := s.reputation + REPUTATION_SLASH_PENALTY, fillsSlashed := s.fillsSlashed + 1,
    activeCommitments := SatSub(s.activeCommitments, 1), active := false)
  }

  /** A slash that passed its checks: the bond goes, the user's input comes back. */
  function Confiscate(m: Market, slasher: Account, id: nat): Result<Market, Error>
    requires id in m.commitments && id in m.intents && m.commitments[id].solverId in m.solvers
  {
    var sid := m.commitments[id].solverId;
    var b1 :- PaySlash(m.balances, sid, m.solvers[sid].bond, slasher);
    var refunded :- ReturnInput(m.(balances := b1), id, Expired);
    Ok(refunded.(
       commitments := m.commitments - {id}, solvers := m.solvers[sid := Slashed(m.solvers[sid])]))
  }

  function SlashSolver(m: Market, slasher: Account, id: nat): Result<Market, Error> {
    if id !in m.commitments then Err(IntentNotCommitted)
    else if m.now <= m.commitments[id].settleBy then Err(SettlementWindowNotPassed)
    else if id !in m.intents then Err(IntentNotFound)
    else if m.intents[id].status != Committed then Err(IntentNotCommitted)
    else if m.commitments[id].solverId !in m.solvers then Err(SolverNotRegistered)
    else Confiscate(m, slasher, id)
  }
}
