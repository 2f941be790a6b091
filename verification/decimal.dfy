/** Exact decimal arithmetic as rationals, with the quantize steps written out.
    Python's default decimal context rounds ROUND_HALF_EVEN ("banker's rounding"). */
module Decimal {
  import opened Common

  function Abs(x: real): real {
    if x < 0.0 then -x else x
  }

  function Max(a: real, b: real): real {
    if a < b then b else a
  }

  /** The integer nearest to `x`, ties going to the even neighbour. */
  function RoundHalfEven(x: real): (n: int)
    ensures Abs(n as real - x) <= 0.5
    ensures Abs(n as real - x) == 0.5 ==> n % 2 == 0
  {
    var f := x.Floor;
    var d := x - f as real;
    if d < 0.5 then f
    else if d > 0.5 then f + 1
    else if f % 2 == 0 then f
    else f + 1
  }

  /** Nearest-integer rounding has no other candidate: any integer closer than
      one half is the result. */
  lemma RoundHalfEvenUnique(x: real, m: int)
    requires Abs(m as real - x) < 0.5
    ensures RoundHalfEven(x) == m
  {
    var n := RoundHalfEven(x);
    assert Abs(n as real - m as real) < 1.0;
  }

  /** `x.to_integral_value()`. */
  function ToIntegral(x: real): (r: real)
    ensures r.Floor as real == r && Abs(r - x) <= 0.5
    ensures Abs(r - x) == 0.5 ==> r.Floor % 2 == 0
  {
    RoundHalfEven(x) as real
  }

  /** Rounding `x * scale` to `n` puts `n / scale` within half a step of `x`,
      on the grid of steps `1 / scale`. */
  lemma ScaleDown(x: real, n: int, scale: real)
    requires scale >= 1.0 && Abs(n as real - x * scale) <= 0.5
    ensures (n as real / scale) * scale == n as real
    ensures ((n as real / scale) * scale).Floor == n
    ensures Abs(n as real / scale - x) * scale == Abs(n as real - x * scale)
  {
    var r := n as real / scale;
    assert r * scale == n as real;
    assert (r - x) * scale == n as real - x * scale;
    assert Abs(r - x) * scale == Abs(n as real - x * scale);
  }

  /** `x.quantize(Decimal("0.01"))`. */
  function Cents(x: real): (r: real)
    ensures Abs(r - x) <= 0.005
    ensures IsWholeCents(r)
    ensures Abs(r - x) == 0.005 ==> (r * 100.0).Floor % 2 == 0
  {
    var n := RoundHalfEven(x * 100.0);
    ScaleDown(x, n, 100.0);
    n as real / 100.0
  }

  /** `x.quantize(Decimal("0.001"))`. */
  function Mils(x: real): (r: real)
    ensures Abs(r - x) <= 0.0005
    ensures (r * 1000.0).Floor as real == r * 1000.0
    ensures Abs(r - x) == 0.0005 ==> (r * 1000.0).Floor % 2 == 0
  {
    var n := RoundHalfEven(x * 1000.0);
    ScaleDown(x, n, 1000.0);
    n as real / 1000.0
  }

  /** `(d * 100) % 1 == 0`: `d` has at most two decimal places. */
  predicate IsWholeCents(d: real) {
    (d * 100.0).Floor as real == d * 100.0
  }

  /** `_close(a, b)`: both present and within max(2% of |b|, 0.05) of each other. */
  function Close(a: Option<real>, b: Option<real>): (r: bool)
    ensures a.None? || b.None? ==> !r
    ensures a.Some? && b.Some? && Abs(a.value - b.value) <= 0.05 ==> r
    ensures a.Some? && b.Some? && Abs(a.value - b.value) <= Abs(b.value) * 0.02 ==> r
    ensures r ==> Abs(a.value - b.value) <= Max(Abs(b.value) * 0.02, 0.05)
  {
    if a.None? || b.None? then false
    else
      var tol := Max(Abs(b.value) * 0.02, 0.05);
      Abs(a.value - b.value) <= tol
  }
}
