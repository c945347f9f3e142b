// gcd_iter of gui/inspecteyedataview.py: Euclid's algorithm on Python
// integers, whose `%` takes the sign of the divisor (floor division).

module InspectEyeDataView {

  /** Python's `a % b` for `b != 0`: the remainder of floor division, with the sign of `b`. */
  function PyMod(a: int, b: int): (r: int)
    requires b != 0
    ensures b > 0 ==> 0 <= r < b
    ensures b < 0 ==> b < r <= 0
  {
    if b > 0 || a % b == 0 then a % b else a % b + b
  }

  /** Python's `a // b` for `b != 0`. */
  function PyDiv(a: int, b: int): int
    requires b != 0
  {
    if b > 0 || a % b == 0 then a / b else a / b - 1
  }

  /** Floor division and its remainder recompose the dividend. */
  lemma PyDivMod(a: int, b: int)
    requires b != 0
    ensures a == b * PyDiv(a, b) + PyMod(a, b)
  {
    if !(b > 0 || a % b == 0) {
      assert b * (a / b - 1) + (a % b + b) == b * (a / b) + a % b;
    }
  }

  function Abs(n: int): nat { if n < 0 then -n else n }

  /** `d` divides `n`: some whole multiple of `d` is `n` (so 0 divides only 0). */
  ghost predicate Divides(d: int, n: int)
  {
    exists k :: n == d * k
  }

  lemma DividesZero(d: int)
    ensures Divides(d, 0)
  {
    assert 0 == d * 0;
  }

  lemma DividesSelf(d: int)
    ensures Divides(d, d) && Divides(Abs(d), d) && Divides(d, Abs(d))
  {
    assert d == d * 1;
    assert d == Abs(d) * (if d < 0 then -1 else 1);
    assert Abs(d) == d * (if d < 0 then -1 else 1);
  }

  lemma DividesAbs(d: int, n: int)
    ensures Divides(d, n) <==> Divides(d, Abs(n))
    ensures Divides(d, n) <==> Divides(Abs(d), n)
  {
    if Divides(d, n) {
      var k :| n == d * k;
      assert Abs(n) == d * (if n < 0 then -k else k);
      assert n == Abs(d) * (if d < 0 then -k else k);
    }
    if Divides(d, Abs(n)) {
      var k :| Abs(n) == d * k;
      assert n == d * (if n < 0 then -k else k);
    }
    if Divides(Abs(d), n) {
      var k :| n == Abs(d) * k;
      assert n == d * (if d < 0 then -k else k);
    }
  }

  lemma MulAssoc(d: int, y: int, q: int)
    ensures (d * y) * q == d * (y * q)
  {
  }

  lemma MulDistrib(d: int, x: int, w: int)
    ensures d * x - d * w == d * (x - w) && d * x + d * w == d * (x + w)
  {
  }

  /** A divisor of `a` and `b` divides `a - b * q`, and a divisor of `b` and `a - b * q` divides `a`. */
  lemma DividesCombination(d: int, a: int, b: int, q: int)
    ensures Divides(d, a) && Divides(d, b) ==> Divides(d, a - b * q)
    ensures Divides(d, b) && Divides(d, a - b * q) ==> Divides(d, a)
  {
    if Divides(d, a) && Divides(d, b) {
      var x :| a == d * x;
      var y :| b == d * y;
      MulAssoc(d, y, q);
      MulDistrib(d, x, y * q);
      assert a - b * q == d * (x - y * q);
    }
    if Divides(d, b) && Divides(d, a - b * q) {
      var y :| b == d * y;
      var z :| a - b * q == d * z;
      MulAssoc(d, y, q);
      MulDistrib(d, z, y * q);
      assert a == d * (z + y * q);
    }
  }

  /** One step of the loop keeps the common divisors. */
  lemma StepKeepsDivisors(u: int, v: int)
    requires v != 0
    ensures forall d :: Divides(d, u) && Divides(d, v) <==> Divides(d, v) && Divides(d, PyMod(u, v))
  {
    PyDivMod(u, v);
    forall d
      ensures Divides(d, u) && Divides(d, v) <==> Divides(d, v) && Divides(d, PyMod(u, v))
    {
      DividesCombination(d, u, v, PyDiv(u, v));
    }
  }

  /**
   * gcd_iter(u, v): while v is non-zero, (u, v) becomes (v, u % v); the
   * result is |u|. It is a common divisor of the inputs that every common
   * divisor divides, and gcd_iter(u, 0) is |u|.
   */
  method GcdIter(u0: int, v0: int) returns (g: nat)
    ensures v0 == 0 ==> g == Abs(u0)
    ensures Divides(g, u0) && Divides(g, v0)
    ensures forall d :: Divides(d, u0) && Divides(d, v0) ==> Divides(d, g)
    ensures g == 0 <==> u0 == 0 && v0 == 0
  {
    var u, v := u0, v0;
    while v != 0
      invariant forall d :: Divides(d, u) && Divides(d, v) <==> Divides(d, u0) && Divides(d, v0)
      invariant v0 != 0 ==> u != 0 || v != 0
      invariant v0 == 0 ==> u == u0 && v == 0
      decreases Abs(v)
    {
      StepKeepsDivisors(u, v);
      u, v := v, PyMod(u, v);
    }
    g := Abs(u);
    DividesZero(g);
    DividesSelf(u);
    assert Divides(g, u) && Divides(g, v);
    forall d | Divides(d, u0) && Divides(d, v0)
      ensures Divides(d, g)
    {
      DividesAbs(d, u);
    }
    if g == 0 {
      assert u == 0;
      ZeroDividesOnlyZero(u0);
      ZeroDividesOnlyZero(v0);
    }
  }

  lemma ZeroDividesOnlyZero(n: int)
    ensures Divides(0, n) <==> n == 0
  {
    DividesZero(0);
  }
}
