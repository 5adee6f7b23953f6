/** Integer division as the pallets use it: 128-bit operands, wide intermediates, floor or ceiling. */
module Arith {
  const U128_MAX: nat := 0xFFFF_FFFF_FFFF_FFFF_FFFF_FFFF_FFFF_FFFF

  /** Basis-point denominator. */
  const BPS: nat := 10_000

  type U128 = x: nat | x <= U128_MAX

  function Min(a: nat, b: nat): nat {
    if a <= b then a else b
  }

  function SatSub(a: nat, b: nat): nat {
    if b <= a then a - b else 0
  }

  function SatAdd(a: nat, b: nat): nat {
    Min(a + b, U128_MAX)
  }

  /** `part` is `bps` basis points of `whole`, rounded down. */
  predicate IsShare(part: nat, whole: nat, bps: nat) {
    part * 10_000 <= whole * bps < part * 10_000 + 10_000
  }

  function CeilDiv(n: nat, d: nat): nat
    requires d > 0
  {
    (n + d - 1) / d
  }

  lemma MulMono(a: nat, b: nat, c: nat)
    requires a <= b
    ensures a * c <= b * c && c * a <= c * b
  {
  }

  lemma MulStrict(a: nat, b: nat, c: nat)
    requires a < b && 0 < c
    ensures a * c < b * c
  {
  }

  lemma MulCancel(a: nat, b: nat, c: nat)
    requires 0 < c && a * c <= b * c
    ensures a <= b
  {
    if b < a {
      MulStrict(b, a, c);
    }
  }

  lemma MulCancelStrict(a: nat, b: nat, c: nat)
    requires a * c < b * c
    ensures a < b
  {
    if b <= a {
      MulMono(b, a, c);
    }
  }

  /** `n / d` is the largest `m` with `m * d <= n`. */
  lemma FloorBounds(n: nat, d: nat)
    requires d > 0
    ensures n / d * d <= n < n / d * d + d
  {
  }

  lemma FloorIff(n: nat, d: nat, m: nat)
    requires d > 0
    ensures m <= n / d <==> m * d <= n
  {
    FloorBounds(n, d);
    if m <= n / d {
      MulMono(m, n / d, d);
    } else {
      MulMono(n / d + 1, m, d);
      assert (n / d + 1) * d == n / d * d + d;
    }
  }

  /** `CeilDiv(n, d)` is the least `m` with `n <= m * d`. */
  lemma CeilBounds(n: nat, d: nat)
    requires d > 0
    ensures n <= CeilDiv(n, d) * d < n + d
  {
    FloorBounds(n + d - 1, d);
  }

  lemma CeilIff(n: nat, d: nat, m: nat)
    requires d > 0
    ensures CeilDiv(n, d) <= m <==> n <= m * d
  {
    CeilBounds(n, d);
    if CeilDiv(n, d) <= m {
      MulMono(CeilDiv(n, d), m, d);
    } else {
      MulMono(m + 1, CeilDiv(n, d), d);
      assert (m + 1) * d == m * d + d;
    }
  }

  lemma CeilMono(n: nat, n': nat, d: nat)
    requires d > 0 && n <= n'
    ensures CeilDiv(n, d) <= CeilDiv(n', d)
  {
    CeilBounds(n', d);
    CeilIff(n, d, CeilDiv(n', d));
  }

  lemma FloorMono(n: nat, n': nat, d: nat)
    requires d > 0 && n <= n'
    ensures n / d <= n' / d
  {
    FloorBounds(n, d);
    FloorIff(n', d, n / d);
  }

  /** A larger denominator rounds up to no more. */
  lemma CeilAntitone(n: nat, d: nat, d': nat)
    requires 0 < d <= d'
    ensures CeilDiv(n, d') <= CeilDiv(n, d)
  {
    CeilBounds(n, d);
    MulMono(d, d', CeilDiv(n, d));
    CeilIff(n, d', CeilDiv(n, d));
  }

  /** `floor(a * b / c)` never exceeds `a` when `b <= c`. */
  lemma MulDivAtMost(a: nat, b: nat, c: nat)
    requires c > 0 && b <= c
    ensures a * b / c <= a
  {
    MulMono(b, c, a);
    FloorBounds(a * b, c);
    if a * b / c > a {
      MulStrict(a, a * b / c, c);
    }
  }
}
