/** Integer arithmetic as C performs it: division truncates toward zero. */
module Arith {

  function Abs(x: int): (r: nat)
    ensures r == x || r == -x
  {
    if x < 0 then -x else x
  }

  function Min(a: int, b: int): (m: int)
    ensures m <= a && m <= b
    ensures m == a || m == b
  {
    if a < b then a else b
  }

  /** C's `a / b` for a positive divisor: the quotient is rounded toward
      zero, so its sign is that of a (TruncDivBracket gives its magnitude). */
  function TruncDiv(a: int, b: int): (q: int)
    requires b > 0
    ensures a >= 0 ==> q >= 0
    ensures a <= 0 ==> q <= 0
  {
    if a >= 0 then a / b else -((-a) / b)
  }

  /** The magnitude of a truncated quotient is the floor of |a| / b. */
  lemma TruncDivBracket(a: int, b: int)
    requires b > 0
    ensures Abs(TruncDiv(a, b)) * b <= Abs(a) < (Abs(TruncDiv(a, b)) + 1) * b
  {
  }

  /** Truncation is odd: negating the dividend negates the quotient
      (Euclidean or floored division does not have this property). */
  lemma TruncDivNegate(a: int, b: int)
    requires b > 0
    ensures TruncDiv(-a, b) == -TruncDiv(a, b)
  {
  }

  lemma {:induction false} MulLeftMonotone(k: int, x: int, y: int)
    requires k >= 0 && x <= y
    ensures k * x <= k * y
  {
    assert k * y - k * x == k * (y - x);
  }

  /** A quotient is determined by the bracket ensured by TruncDiv. */
  lemma {:induction false} QuotientBelow(q: int, q': int, b: int, a: int, a': int)
    requires b > 0 && 0 <= a <= a'
    requires q >= 0 && q' >= 0
    requires q * b <= a < (q + 1) * b
    requires q' * b <= a' < (q' + 1) * b
    ensures q <= q'
  {
    if q > q' {
      MulLeftMonotone(b, q' + 1, q);
    }
  }

  /** Division of a non-negative dividend is monotone. */
  lemma {:induction false} TruncDivMonotoneNonNeg(a: int, a': int, b: int)
    requires b > 0 && 0 <= a <= a'
    ensures TruncDiv(a, b) <= TruncDiv(a', b)
  {
    TruncDivBracket(a, b);
    TruncDivBracket(a', b);
    QuotientBelow(TruncDiv(a, b), TruncDiv(a', b), b, a, a');
  }

  /** C's truncating division is monotone in its dividend. */
  lemma {:induction false} TruncDivMonotone(a: int, a': int, b: int)
    requires b > 0 && a <= a'
    ensures TruncDiv(a, b) <= TruncDiv(a', b)
  {
    if 0 <= a {
      TruncDivMonotoneNonNeg(a, a', b);
    } else if a' <= 0 {
      TruncDivMonotoneNonNeg(-a', -a, b);
      TruncDivNegate(a, b);
      TruncDivNegate(a', b);
    }
  }

  lemma {:induction false} TruncDivStrictNonNeg(a: int, a': int, b: int)
    requires b > 0 && 0 <= a && a + b <= a'
    ensures TruncDiv(a, b) < TruncDiv(a', b)
  {
    var q, q' := TruncDiv(a, b), TruncDiv(a', b);
    TruncDivBracket(a, b);
    TruncDivBracket(a', b);
    if q' <= q {
      MulLeftMonotone(b, q' + 1, q + 1);
    }
  }

  /** Two dividends at least 2b apart have different quotients: the widest
      bucket of truncating division is (-b, b), of width 2b - 1. */
  lemma {:induction false} TruncDivStrict(a: int, a': int, b: int)
    requires b > 0 && a + 2 * b <= a'
    ensures TruncDiv(a, b) < TruncDiv(a', b)
  {
    if a >= 0 {
      TruncDivStrictNonNeg(a, a', b);
    } else if a' <= 0 {
      TruncDivStrictNonNeg(-a', -a, b);
      TruncDivNegate(a, b);
      TruncDivNegate(a', b);
    }
  }

  /** A dividend of magnitude at most k * b has a quotient of magnitude at most k. */
  lemma {:induction false} TruncDivBound(a: int, b: int, k: int)
    requires b > 0 && k >= 0 && Abs(a) <= k * b
    ensures Abs(TruncDiv(a, b)) <= k
  {
    var q := TruncDiv(a, b);
    TruncDivBracket(a, b);
    if Abs(q) > k {
      MulLeftMonotone(b, k + 1, Abs(q));
    }
  }

  /** An exact multiple divides back to its factor. */
  lemma {:induction false} TruncDivExact(k: int, b: int)
    requires b > 0
    ensures TruncDiv(k * b, b) == k
  {
    var q := TruncDiv(k * b, b);
    TruncDivBracket(k * b, b);
    if k >= 0 {
      assert Abs(k * b) == k * b;
      if q < k { MulLeftMonotone(b, q + 1, k); }
      if q > k { MulLeftMonotone(b, k + 1, q); }
    } else {
      assert Abs(k * b) == (-k) * b;
      assert Abs(q) == -q;
      if -q < -k { MulLeftMonotone(b, -q + 1, -k); }
      if -q > -k { MulLeftMonotone(b, -k + 1, -q); }
    }
  }
}
