/** The few pieces of JavaScript semantics the model needs: optional values
    (`null`/`undefined`), `Math.abs`, the truncating `%` operator and
    `Math.floor` of a quotient. */
module Js {

  /** A value that may be `null` or `undefined` in the source. */
  datatype Option<+T> = None | Some(value: T) {

    /** The value, or `default` when there is none (what `Object.assign`
        over a default does when the option is absent). */
    function GetOr(default: T): (r: T)
      ensures Some? ==> r == value
      ensures None? ==> r == default
    {
      match this
      case Some(v) => v
      case None => default
    }
  }

  /** `Math.abs` on integers. */
  function Abs(x: int): (r: int)
    ensures 0 <= r
    ensures r == x || r == -x
  {
    if x < 0 then -x else x
  }

  /** JavaScript's `a % b`: the remainder of the division truncated toward
      zero, so it keeps the sign of the dividend `a` (Dafny's `%` is
      Euclidean and never negative). The four ensures clauses determine the
      result uniquely. */
  function Rem(a: int, b: int): (r: int)
    requires b != 0
    ensures Abs(r) < Abs(b)
    ensures 0 <= a ==> 0 <= r
    ensures a <= 0 ==> r <= 0
    ensures (a - r) % b == 0
  {
    var m := Abs(b);
    var r := if 0 <= a then a % m else -((-a) % m);
    DifferenceIsMultiple(a, b, r);
    r
  }

  /** `a - r` is a multiple of `b` when `r` is `a` or `-a` reduced modulo `|b|`. */
  lemma DifferenceIsMultiple(a: int, b: int, r: int)
    requires b != 0
    requires r == if 0 <= a then a % Abs(b) else -((-a) % Abs(b))
    ensures (a - r) % b == 0
  {
    var m := Abs(b);
    var q := if 0 <= a then a / m else -((-a) / m);
    assert a - r == q * m;
    var k := if b == m then q else -q;
    assert a - r == k * b;
    MultipleHasNoRemainder(k, b);
  }

  lemma MultipleHasNoRemainder(k: int, b: int)
    requires b != 0
    ensures (k * b) % b == 0
  {
    var n := k * b;
    assert n == b * (n / b) + n % b;
    assert 0 <= n % b < Abs(b);
    OnlyZeroRemainder(k, b, n, n / b, n % b);
  }

  /** If `k * b == q * b + r` with `0 <= r < |b|`, then `r` is zero. */
  lemma OnlyZeroRemainder(k: int, b: int, n: int, q: int, r: int)
    requires b != 0 && n == k * b && n == b * q + r && 0 <= r < Abs(b)
    ensures r == 0
  {
    assert r == (k - q) * b;
    if k - q > 0 {
      AtLeastOnce(k - q, Abs(b));
      assert false;
    } else if k - q < 0 {
      AtLeastOnce(q - k, Abs(b));
      assert false;
    }
  }

  lemma AtLeastOnce(d: int, m: int)
    requires 0 < d && 0 < m
    ensures m <= d * m
  {
  }

  /** `Math.floor(a / b)` for a positive divisor: Dafny's `/` already rounds
      down when `b > 0`. */
  function FloorDiv(a: int, b: int): (q: int)
    requires 0 < b
    ensures q * b <= a < q * b + b
  {
    a / b
  }

  /** For a non-negative dividend and a positive divisor the truncating and
      the Euclidean remainder agree. */
  lemma RemOfNonNegative(a: int, b: int)
    requires 0 <= a && 0 < b
    ensures Rem(a, b) == a % b
  {
  }

  /** For a negative dividend they differ: JavaScript gives `-75 % 60 == -15`
      where Dafny's `%` gives 45. */
  lemma RemKeepsSignOfDividend()
    ensures Rem(-75, 60) == -15
    ensures -75 % 60 == 45
  {
  }
}
