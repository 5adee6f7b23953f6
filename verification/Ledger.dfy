/** Account balances: a transfer checks both ends, then moves; what it moves is neither minted nor burned. */
module Ledger {
  import opened Arith
  import opened Results

  datatype TransferError = InsufficientFunds | BelowMinimum | DepositOverflow

  function Bal<A>(m: map<A, nat>, a: A): nat {
    if a in m then m[a] else 0
  }

  function Move<A>(m: map<A, nat>, from: A, to: A, amount: nat): map<A, nat>
    requires amount <= Bal(m, from)
  {
    var taken := m[from := Bal(m, from) - amount];
    taken[to := Bal(taken, to) + amount]
  }

  /** A deposit lands when it is zero, or leaves the account at or above the minimum and within 128 bits. */
  predicate CanDeposit<A>(m: map<A, nat>, to: A, amount: nat, minimum: nat) {
    amount == 0 || minimum <= Bal(m, to) + amount <= U128_MAX
  }

  /** Moves `amount`, leaving at least `keep` behind; a transfer to oneself passes its checks and moves nothing. */
  function Transfer<A>(m: map<A, nat>, from: A, to: A, amount: nat, keep: nat, minimum: nat)
    : Result<map<A, nat>, TransferError>
  {
    if Bal(m, from) < amount + keep then Err(InsufficientFunds)
    else if amount > 0 && Bal(m, to) + amount > U128_MAX then Err(DepositOverflow)
    else if !CanDeposit(m, to, amount, minimum) then Err(BelowMinimum)
    else Ok(Move(m, from, to, amount))
  }

  /** Sum of all balances. */
  ghost function Total<A>(m: map<A, nat>): nat
    decreases |m|
  {
    if m == map[] then 0
    else
      var a :| a in m;
      m[a] + Total(m - {a})
  }

  lemma {:induction false} TotalRemove<A>(m: map<A, nat>, a: A)
    requires a in m
    ensures Total(m) == m[a] + Total(m - {a})
    decreases |m|
  {
    var b :| b in m && Total(m) == m[b] + Total(m - {b});
    if b != a {
      TotalRemove(m - {b}, a);
      TotalRemove(m - {a}, b);
      assert m - {b} - {a} == m - {a} - {b};
    }
  }

  lemma TotalSet<A>(m: map<A, nat>, a: A, v: nat)
    ensures Total(m[a := v]) + Bal(m, a) == Total(m) + v
  {
    var m' := m[a := v];
    TotalRemove(m', a);
    assert m' - {a} == m - {a};
    if a in m {
      TotalRemove(m, a);
    } else {
      assert m - {a} == m;
    }
  }

  /** A move conserves the total. */
  lemma MoveConserves<A>(m: map<A, nat>, from: A, to: A, amount: nat)
    requires amount <= Bal(m, from)
    ensures Total(Move(m, from, to, amount)) == Total(m)
  {
    var taken := m[from := Bal(m, from) - amount];
    TotalSet(m, from, Bal(m, from) - amount);
    TotalSet(taken, to, Bal(taken, to) + amount);
  }

  /** What a payment takes from one account and brings to another. */
  function Delta<A(==)>(a: A, from: A, to: A, amount: nat): int {
    (if a == to then amount else 0) - (if a == from then amount else 0)
  }

  lemma TransferEffect<A(!new)>(m: map<A, nat>, from: A, to: A, amount: nat, keep: nat, minimum: nat)
    requires Transfer(m, from, to, amount, keep, minimum).Ok?
    ensures var m' := Transfer(m, from, to, amount, keep, minimum).value;
            && (forall a :: Bal(m', a) == Bal(m, a) + Delta(a, from, to, amount))
            && Total(m') == Total(m)
    ensures amount + keep <= Bal(m, from)
  {
    MoveConserves(m, from, to, amount);
  }

  /** Any two accounts hold at most the total between them. */
  lemma TwoWithinTotal<A>(m: map<A, nat>, a: A, b: A)
    requires a != b
    ensures Bal(m, a) + Bal(m, b) <= Total(m)
  {
    if a in m {
      TotalRemove(m, a);
    }
    if b in m {
      TotalRemove(m, b);
      if a in m {
        TotalRemove(m - {a}, b);
      }
    }
  }

  /** A covered payment between two accounts whose currency fits 128 bits is never refused. */
  lemma CoveredTransfer<A>(m: map<A, nat>, from: A, to: A, amount: nat)
    requires from != to && amount <= Bal(m, from) && Total(m) <= U128_MAX
    ensures Transfer(m, from, to, amount, 0, 0).Ok?
  {
    TwoWithinTotal(m, from, to);
  }
}
