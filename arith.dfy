/** Exact real arithmetic facts the model leans on, each stated on one product at a time
    so that the solver's non-linear reasoning stays small. */
module Arith {

  function Sq(t: real): real { t * t }

  function Mul(a: real, b: real): real { a * b }

  function Cube(t: real): real { t * t * t }

  /** `x` to the natural power `n`. */
  function Pow(x: real, n: nat): real
  {
    if n == 0 then 1.0 else x * Pow(x, n - 1)
  }

  lemma MulPositive(a: real, b: real)
    requires a > 0.0 && b > 0.0
    ensures Mul(a, b) > 0.0
  {
  }

  lemma SqPositive(t: real)
    requires t != 0.0
    ensures Sq(t) > 0.0
  {
    if t > 0.0 {
      MulPositive(t, t);
    } else {
      MulPositive(-t, -t);
      assert Mul(-t, -t) == Sq(t);
    }
  }

  lemma SqNonNegative(t: real)
    ensures Sq(t) >= 0.0
  {
    if t != 0.0 {
      SqPositive(t);
    }
  }

  lemma MulLeft(a: real, b: real, c: real)
    requires a <= b && c > 0.0
    ensures a * c <= b * c
  {
  }

  lemma MulStrict(a: real, b: real, c: real)
    requires a < b && c > 0.0
    ensures a * c < b * c
  {
  }

  lemma DivMul(x: real, l: real)
    requires l > 0.0
    ensures (x / l) * l == x
  {
  }

  lemma AddMul(j: real, k: real, l: real)
    ensures (j + k) * l == j * l + k * l
  {
  }

  /** Two numbers with the same positive multiple are equal. */
  lemma MulCancel(a: real, b: real, l: real)
    requires l > 0.0 && a * l == b * l
    ensures a == b
  {
    if a < b {
      MulStrict(a, b, l);
    } else if b < a {
      MulStrict(b, a, l);
    }
  }

  function Abs(t: real): real
  {
    if t < 0.0 then -t else t
  }

  lemma AddOne(k: real, l: real)
    ensures (k + 1.0) * l == k * l + l
  {
  }

  lemma SqMul(x: real, y: real)
    ensures Sq(x) * Sq(y) == Sq(x * y)
  {
  }

  lemma DivOf(x: real, y: real, z: real)
    requires y != 0.0 && z * y == x
    ensures x / y == z
  {
  }

  lemma SqOfQuotient(a: real, b: real)
    requires b != 0.0
    ensures Sq(b) != 0.0 && Sq(a) / Sq(b) == Sq(a / b)
  {
    var q := a / b;
    assert q * b == a;
    SqPositive(b);
    SqMul(q, b);
    assert Sq(q) * Sq(b) == Sq(a);
    DivOf(Sq(a), Sq(b), Sq(q));
  }

  lemma SqMonotone(a: real, b: real)
    requires 0.0 < a <= b
    ensures Sq(a) <= Sq(b)
  {
    MulLeft(a, b, a);
    MulLeft(a, b, b);
    assert a * b == b * a;
  }

  lemma {:induction false} PowAdd(x: real, m: nat, n: nat)
    ensures Pow(x, m + n) == Pow(x, m) * Pow(x, n)
  {
    if m > 0 {
      PowAdd(x, m - 1, n);
      assert Pow(x, m + n) == x * Pow(x, m - 1 + n);
    }
  }

  lemma {:induction false} PowOfSq(q: real, n: nat)
    ensures Pow(Sq(q), n) == Pow(q, 2 * n)
  {
    if n > 0 {
      PowOfSq(q, n - 1);
      assert Pow(q, 2 * n) == q * (q * Pow(q, 2 * n - 2));
    }
  }

  lemma PowOne(n: nat)
    ensures Pow(1.0, n) == 1.0
  {
  }

  lemma CubeIsPow(t: real)
    ensures Cube(t) == Pow(t, 3)
  {
    assert Pow(t, 1) == t;
    assert Pow(t, 2) == t * t;
    assert Pow(t, 3) == t * Pow(t, 2);
  }

  lemma SqStrict(a: real, b: real)
    requires 0.0 <= a < b
    ensures Sq(a) < Sq(b)
  {
    if a == 0.0 {
      SqPositive(b);
    } else {
      MulStrict(a, b, a);
      MulStrict(a, b, b);
      assert a * b == b * a;
    }
  }

  lemma MulNonNegative(a: real, b: real)
    requires a >= 0.0 && b >= 0.0
    ensures Mul(a, b) >= 0.0
  {
    if a > 0.0 && b > 0.0 {
      MulPositive(a, b);
    }
  }

  /** Dividing by the larger of two positive numbers gives the smaller quotient. */
  lemma DivAntitone(a: real, x: real, y: real)
    requires a >= 0.0 && 0.0 < x <= y
    ensures a / y <= a / x
  {
    var p, q := a / x, a / y;
    assert p * x == a && q * y == a;
    if p < q {
      MulStrict(p, q, x);
      MulLeft(x, y, q);
    }
  }

  lemma CubeMonotone(a: real, b: real)
    requires 0.0 <= a <= b
    ensures Cube(a) <= Cube(b)
  {
    if a > 0.0 {
      SqMonotone(a, b);
      MulLeft(Sq(a), Sq(b), a);
      SqPositive(b);
      MulLeft(a, b, Sq(b));
      assert Sq(b) * a == a * Sq(b);
    } else {
      MulNonNegative(b, b);
      MulNonNegative(Mul(b, b), b);
    }
  }
}
