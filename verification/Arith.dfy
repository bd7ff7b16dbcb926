/** Small facts about products and quotients of variables. */
module Arith {

  lemma Cancel(c: int, a: int, b: int)
    requires c > 0 && c * a < c * b
    ensures a < b
  {
    assert c * (b - a) > 0;
  }

  lemma QuotientIs(n: int, d: int, q: int, r: int)
    requires d >= 1 && 0 <= r < d && n == d * q + r
    ensures n / d == q && n % d == r
  {
    var p := n / d;
    assert n == d * p + n % d;
    assert d * (q + 1) == d * q + d && d * (p + 1) == d * p + d;
    Cancel(d, p, q + 1);
    Cancel(d, q, p + 1);
  }

  lemma NextMultiple(a: int, b: int)
    ensures (a + 1) * b == a * b + b
  {}

  lemma MultipleMonotone(a: nat, b: nat, c: nat)
    requires a <= b
    ensures a * c <= b * c
  {}
}
