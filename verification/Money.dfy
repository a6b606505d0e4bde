// Exact-real arithmetic shared by the ledger: tolerances, truthiness of optional
// floats, and the two or three nonlinear facts the weighted averages need.
module Money {

  datatype Option<+T> = None | Some(value: T)

  // The quantity tolerance of the reconciliation loops, the slicer and the position netting.
  const QTY_EPS: real := 0.000000001

  // The smallest execution delta the reconciliation loops record.
  const DELTA_EPS: real := 0.000000000001

  const COMMISSION_RATE: real := 0.001

  function Abs(x: real): real { if x < 0.0 then -x else x }

  function Min(x: real, y: real): real { if x < y then x else y }

  function Max(x: real, y: real): real { if x > y then x else y }

  /** `x or default` on an optional float: both a missing value and 0 are falsy. */
  function Or(x: Option<real>, default: real): real
  {
    if x.Some? && x.value != 0.0 then x.value else default
  }

  /** A quantity covers another when they differ by at most a millionth of it, or by 1e-12. */
  predicate Covers(q: real, newly: real) { Abs(q - newly) <= Max(newly * 0.000001, 0.000000000001) }

  function Total(xs: seq<real>): real
  {
    if xs == [] then 0.0 else Total(xs[..|xs| - 1]) + xs[|xs| - 1]
  }

  /** What a quantity is worth at a price. */
  function Value(qty: real, price: real): real { qty * price }

  lemma ValueOfQuotient(n: real, q: real)
    requires q != 0.0
    ensures Value(q, n / q) == n
  {}

  lemma ValueMono(q: real, x: real, y: real)
    requires 0.0 <= q && x <= y
    ensures Value(q, x) <= Value(q, y)
  {}

  lemma ValueStrict(q: real, x: real, y: real)
    requires 0.0 < q && x < y
    ensures Value(q, x) < Value(q, y)
  {}

  lemma ValueNonNegative(q: real, x: real)
    requires 0.0 <= q && 0.0 <= x
    ensures 0.0 <= Value(q, x)
  {}

  lemma ValueAdds(p: real, q: real, x: real)
    ensures Value(p + q, x) == Value(p, x) + Value(q, x)
    ensures Value(p - q, x) == Value(p, x) - Value(q, x)
    ensures Value(-q, x) == -Value(q, x)
  {}

  lemma ValueOfOne(x: real)
    ensures Value(1.0, x) == x
  {}

  lemma ValueAtZero(x: real)
    ensures Value(0.0, x) == 0.0 && Value(x, 0.0) == 0.0
  {}

  /** A value is bounded by the bounds on its quantity and price. */
  lemma ValueBound(q: real, x: real, c: real, m: real)
    requires Abs(q) <= c && Abs(x) <= m
    ensures Abs(Value(q, x)) <= Value(c, m)
  {
    var p := Abs(q);
    ValueMono(p, -m, x);
    ValueMono(p, x, m);
    ValueSwap(p, m);
    ValueSwap(c, m);
    ValueMono(m, p, c);
    ValueNegate(p, m);
    ValueAdds(0.0, q, x);
  }

  lemma ValueSwap(q: real, x: real)
    ensures Value(q, x) == Value(x, q)
  {}

  lemma ValueNegate(q: real, x: real)
    ensures Value(q, -x) == -Value(q, x)
  {}

  /** The value-weighted average of two prices lies between any bounds on both. */
  lemma WeightedAverage(p: real, x: real, q: real, y: real, lo: real, hi: real)
    requires 0.0 <= p && 0.0 <= q && 0.0 < p + q
    requires lo <= x <= hi && lo <= y <= hi
    ensures lo <= (Value(p, x) + Value(q, y)) / (p + q) <= hi
  {
    var n, t := Value(p, x) + Value(q, y), p + q;
    ValueMono(p, lo, x);
    ValueMono(q, lo, y);
    ValueAdds(p, q, lo);
    ValueMono(p, x, hi);
    ValueMono(q, y, hi);
    ValueAdds(p, q, hi);
    QuotientBounds(n, t, lo, hi);
  }

  lemma QuotientBounds(n: real, t: real, lo: real, hi: real)
    requires 0.0 < t && Value(t, lo) <= n <= Value(t, hi)
    ensures lo <= n / t <= hi
  {
    ValueOfQuotient(n, t);
    if n / t < lo { ValueStrict(t, n / t, lo); }
    if hi < n / t { ValueStrict(t, hi, n / t); }
  }
}
