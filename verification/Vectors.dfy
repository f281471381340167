/** Real vectors of any dimension: the Cauchy-Schwarz inequality and when it is an equality. */
module Vectors {

  function Dot(u: seq<real>, v: seq<real>): real
    requires |u| == |v|
  {
    if u == [] then 0.0 else u[0] * v[0] + Dot(u[1..], v[1..])
  }

  /** The sum of the squares of p u - q v. */
  function SquaredCombination(u: seq<real>, v: seq<real>, p: real, q: real): real
    requires |u| == |v|
  {
    if u == [] then 0.0
    else (p * u[0] - q * v[0]) * (p * u[0] - q * v[0]) + SquaredCombination(u[1..], v[1..], p, q)
  }

  lemma ProductIsPositive(x: real, y: real)
    requires x > 0.0 && y > 0.0
    ensures x * y > 0.0
  {
  }

  lemma NegatedProduct(x: real, y: real, product: real)
    requires product == x * y
    ensures (-x) * (-y) == product
  {
  }

  lemma SquareIsNonNegative(x: real)
    ensures x * x >= 0.0
  {
    if x > 0.0 {
      ProductIsPositive(x, x);
    } else if x < 0.0 {
      NegatedProduct(x, x, x * x);
      ProductIsPositive(-x, -x);
    }
  }

  lemma ZeroSquare(x: real, y: real, square: real)
    requires x == y && square == x * y && square == 0.0
    ensures x == 0.0
  {
    if x > 0.0 {
      ProductIsPositive(x, y);
    } else if x < 0.0 {
      NegatedProduct(x, y, square);
      ProductIsPositive(-x, -y);
    }
  }

  lemma {:induction false} CombinationIsNonNegative(u: seq<real>, v: seq<real>, p: real, q: real)
    requires |u| == |v|
    ensures SquaredCombination(u, v, p, q) >= 0.0
    ensures SquaredCombination(u, v, p, q) == 0.0 ==> forall i :: 0 <= i < |u| ==> p * u[i] == q * v[i]
  {
    if u != [] {
      var gap := p * u[0] - q * v[0];
      SquareIsNonNegative(gap);
      assert SquaredCombination(u, v, p, q) == gap * gap + SquaredCombination(u[1..], v[1..], p, q);
      CombinationIsNonNegative(u[1..], v[1..], p, q);
      if SquaredCombination(u, v, p, q) == 0.0 {
        ZeroSquare(gap, gap, gap * gap);
        forall i | 1 <= i < |u| ensures p * u[i] == q * v[i] {
          assert p * u[1..][i - 1] == q * v[1..][i - 1];
        }
      }
    }
  }

  lemma ExpandSquare(p: real, q: real, x: real, y: real)
    ensures (p * x - q * y) * (p * x - q * y) == (p * p) * (x * x) - 2.0 * ((p * q) * (x * y)) + (q * q) * (y * y)
  {
    assert (p * x - q * y) * (p * x - q * y)
        == (p * x) * (p * x) - 2.0 * ((p * x) * (q * y)) + (q * y) * (q * y);
    Regroup(p, x, p, x);
    Regroup(p, x, q, y);
    Regroup(q, y, q, y);
  }

  lemma Regroup(a: real, b: real, c: real, d: real)
    ensures (a * b) * (c * d) == (a * c) * (b * d)
  {
    assert (a * b) * (c * d) == a * (b * (c * d));
    assert b * (c * d) == c * (b * d);
    assert a * (c * (b * d)) == (a * c) * (b * d);
  }

  lemma Distribute(k: real, a: real, b: real)
    ensures k * (a + b) == k * a + k * b
  {
  }

  lemma {:induction false} ExpandCombination(u: seq<real>, v: seq<real>, p: real, q: real)
    requires |u| == |v|
    ensures SquaredCombination(u, v, p, q) == (p * p) * Dot(u, u) - 2.0 * ((p * q) * Dot(u, v)) + (q * q) * Dot(v, v)
  {
    if u != [] {
      ExpandCombination(u[1..], v[1..], p, q);
      ExpandSquare(p, q, u[0], v[0]);
      Distribute(p * p, u[0] * u[0], Dot(u[1..], u[1..]));
      Distribute(p * q, u[0] * v[0], Dot(u[1..], v[1..]));
      Distribute(q * q, v[0] * v[0], Dot(v[1..], v[1..]));
    }
  }

  lemma {:induction false} DotSelf(v: seq<real>)
    ensures Dot(v, v) >= 0.0
    ensures Dot(v, v) == 0.0 ==> forall i :: 0 <= i < |v| ==> v[i] == 0.0
  {
    if v != [] {
      SquareIsNonNegative(v[0]);
      DotSelf(v[1..]);
      if Dot(v, v) == 0.0 {
        ZeroSquare(v[0], v[0], v[0] * v[0]);
        forall i | 1 <= i < |v| ensures v[i] == 0.0 {
          assert v[1..][i - 1] == 0.0;
        }
      }
    }
  }

  lemma {:induction false} DotZero(u: seq<real>, v: seq<real>)
    requires |u| == |v| && forall i :: 0 <= i < |u| ==> u[i] == 0.0
    ensures Dot(u, v) == 0.0
  {
    if u != [] {
      DotZero(u[1..], v[1..]);
    }
  }

  lemma GapAlgebra(a: real, b: real, c: real)
    ensures (b * b) * a - 2.0 * ((b * a) * b) + (a * a) * c == a * (a * c - b * b)
  {
    assert (b * a) * b == (b * b) * a;
    assert (a * a) * c == a * (a * c);
    Distribute(a, a * c, -(b * b));
    assert a * (-(b * b)) == -((b * b) * a);
    assert a * (a * c - b * b) == a * (a * c + -(b * b));
  }

  /** The combination B u - A v, with A = u.u and B = u.v, measures the gap of the inequality. */
  lemma {:induction false} GapOf(u: seq<real>, v: seq<real>, a: real, b: real, c: real)
    requires |u| == |v| && a == Dot(u, u) && b == Dot(u, v) && c == Dot(v, v)
    ensures SquaredCombination(u, v, b, a) == a * (a * c - b * b)
  {
    ExpandCombination(u, v, b, a);
    GapAlgebra(a, b, c);
  }

  lemma DividesOut(a: real, x: real)
    requires a > 0.0 && a * x >= 0.0
    ensures x >= 0.0
    ensures a * x == 0.0 <==> x == 0.0
  {
  }

  lemma CauchyAlgebra(a: real, b: real, c: real)
    requires if a == 0.0 then b == 0.0 else a > 0.0 && a * (a * c - b * b) >= 0.0
    ensures b * b <= a * c
  {
    if a == 0.0 {
      assert a * c == 0.0 && b * b == 0.0;
    } else {
      DividesOut(a, a * c - b * b);
    }
  }

  lemma {:induction false} GapIsNonNegative(u: seq<real>, v: seq<real>, a: real, b: real, c: real)
    requires |u| == |v| && a == Dot(u, u) && b == Dot(u, v) && c == Dot(v, v)
    ensures a * (a * c - b * b) >= 0.0
  {
    GapOf(u, v, a, b, c);
    CombinationIsNonNegative(u, v, b, a);
  }

  lemma {:induction false} CauchySchwarz(u: seq<real>, v: seq<real>)
    requires |u| == |v|
    ensures Dot(u, v) * Dot(u, v) <= Dot(u, u) * Dot(v, v)
  {
    var a, b, c := Dot(u, u), Dot(u, v), Dot(v, v);
    DotSelf(u);
    if a == 0.0 {
      DotZero(u, v);
    }
    GapIsNonNegative(u, v, a, b, c);
    CauchyAlgebra(a, b, c);
  }

  /** u is k times v, for some k > 0. */
  ghost predicate PositiveMultiple(u: seq<real>, v: seq<real>) {
    |u| == |v| && exists k: real :: IsMultiple(u, v, k)
  }

  ghost predicate IsMultiple(u: seq<real>, v: seq<real>, k: real)
    requires |u| == |v|
  {
    k > 0.0 && forall i :: 0 <= i < |u| ==> u[i] == k * v[i]
  }

  lemma MultipleAlgebra(k: real, y: real, d: real)
    ensures (k * y) * y + k * d == k * (y * y + d)
    ensures (k * y) * (k * y) + (k * k) * d == (k * k) * (y * y + d)
  {
    assert (k * y) * y == k * (y * y);
    Distribute(k, y * y, d);
    Regroup(k, y, k, y);
    Distribute(k * k, y * y, d);
  }

  lemma {:induction false} DotOfMultiple(u: seq<real>, v: seq<real>, k: real)
    requires |u| == |v| && IsMultiple(u, v, k)
    ensures Dot(u, v) == k * Dot(v, v) && Dot(u, u) == (k * k) * Dot(v, v)
  {
    if u != [] {
      assert u[0] == k * v[0];
      DotOfMultiple(u[1..], v[1..], k);
      MultipleAlgebra(k, v[0], Dot(v[1..], v[1..]));
    }
  }

  lemma Scale(b: real, x: real, a: real, y: real)
    requires b > 0.0 && b * x == a * y
    ensures x == (a / b) * y
  {
    assert b * ((a / b) * y) == a * y by {
      assert b * (a / b) == a;
      assert b * ((a / b) * y) == (b * (a / b)) * y;
    }
    assert b * (x - (a / b) * y) == 0.0;
  }

  /** Equality, with a positive product, makes one a positive multiple of the other. */
  lemma {:induction false} EqualityMakesMultiples(u: seq<real>, v: seq<real>)
    requires |u| == |v| && Dot(u, v) > 0.0 && Dot(u, v) * Dot(u, v) == Dot(u, u) * Dot(v, v)
    ensures PositiveMultiple(u, v)
  {
    var a, b := Dot(u, u), Dot(u, v);
    DotSelf(u);
    if a == 0.0 {
      DotZero(u, v);
    }
    GapOf(u, v, a, b, Dot(v, v));
    CombinationIsNonNegative(u, v, b, a);
    assert SquaredCombination(u, v, b, a) == 0.0;
    assert a / b > 0.0;
    forall i | 0 <= i < |u| ensures u[i] == (a / b) * v[i] {
      Scale(b, u[i], a, v[i]);
    }
    assert IsMultiple(u, v, a / b);
  }
}
