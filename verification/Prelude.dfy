/** Small value types and sequence facts shared by every module. */
module Prelude {

  datatype Option<+T> = None | Some(value: T)

  newtype byte = x: int | 0 <= x < 0x100

  function Min(a: int, b: int): (m: int)
    ensures m <= a && m <= b && (m == a || m == b)
  {
    if a <= b then a else b
  }

  predicate IsDigit(c: char) { '0' <= c <= '9' }

  function Last<T>(s: seq<T>): T
    requires s != []
  {
    s[|s| - 1]
  }

  lemma ProductBound(d: nat, q: nat, m: nat)
    requires d < q
    ensures d * m + m <= q * m
  {
    assert (d + 1) * m <= q * m;
  }

  /** Quotient and remainder are unique. */
  lemma ModOf(a: nat, m: nat, q: nat, x: nat)
    requires x < m && a == q * m + x
    ensures a % m == x
  {
    var d := a / m;
    assert a == d * m + a % m;
    if d < q { ProductBound(d, q, m); }
    if q < d { ProductBound(q, d, m); }
  }
}
