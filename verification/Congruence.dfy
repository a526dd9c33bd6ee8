/** Integers modulo a number: congruence, units, inverses. */
module Congruence {

  /** `a` and `b` have the same remainder modulo `p`. */
  ghost predicate Eq(p: int, a: int, b: int) {
    exists k :: a == b + k * p
  }

  ghost predicate Unit(p: int, a: int) {
    exists b :: Eq(p, a * b, 1)
  }

  lemma EqBy(p: int, a: int, b: int, k: int)
    requires a == b + k * p
    ensures Eq(p, a, b)
  {
  }

  lemma EqSelf(p: int, a: int)
    ensures Eq(p, a, a)
  {
    EqBy(p, a, a, 0);
  }

  lemma EqSym(p: int, a: int, b: int)
    requires Eq(p, a, b)
    ensures Eq(p, b, a)
  {
    var k :| a == b + k * p;
    EqBy(p, b, a, -k);
  }

  lemma EqTrans(p: int, a: int, b: int, c: int)
    requires Eq(p, a, b) && Eq(p, b, c)
    ensures Eq(p, a, c)
  {
    var k :| a == b + k * p;
    var l :| b == c + l * p;
    EqBy(p, a, c, k + l);
  }

  lemma EqAdd(p: int, a: int, b: int, c: int, d: int)
    requires Eq(p, a, b) && Eq(p, c, d)
    ensures Eq(p, a + c, b + d) && Eq(p, a - c, b - d)
  {
    var k :| a == b + k * p;
    var l :| c == d + l * p;
    EqBy(p, a + c, b + d, k + l);
    EqBy(p, a - c, b - d, k - l);
  }

  lemma EqMul(p: int, a: int, b: int, c: int, d: int)
    requires Eq(p, a, b) && Eq(p, c, d)
    ensures Eq(p, a * c, b * d)
  {
    var k :| a == b + k * p;
    var l :| c == d + l * p;
    MulOut(b, k, d, l, p);
    EqBy(p, a * c, b * d, b * l + k * d + k * l * p);
  }

  lemma MulOut(b: int, k: int, d: int, l: int, p: int)
    ensures (b + k * p) * (d + l * p) == b * d + (b * l + k * d + k * l * p) * p
  {
  }

  lemma EqScale(p: int, a: int, b: int, c: int)
    requires Eq(p, a, b)
    ensures Eq(p, c * a, c * b) && Eq(p, a * c, b * c)
  {
    EqSelf(p, c);
    EqMul(p, a, b, c, c);
  }

  lemma EqMod(p: int, a: int)
    requires p > 0
    ensures Eq(p, a % p, a) && 0 <= a % p < p
  {
    EqBy(p, a % p, a, -(a / p));
  }

  /** Reduced numbers that are congruent are equal. */
  lemma EqReduced(p: int, a: int, b: int)
    requires 0 <= a < p && 0 <= b < p && Eq(p, a, b)
    ensures a == b
  {
    var k :| a == b + k * p;
    Multiple(k, p);
  }

  lemma Multiple(k: int, p: int)
    requires p > 0
    ensures (k >= 1 ==> k * p >= p) && (k <= -1 ==> k * p <= -p) && (k == 0 ==> k * p == 0)
  {
  }

  lemma EqModIff(p: int, a: int, b: int)
    requires p > 0
    ensures Eq(p, a, b) <==> a % p == b % p
  {
    EqMod(p, a);
    EqMod(p, b);
    if Eq(p, a, b) {
      EqTrans(p, a % p, a, b);
      EqSym(p, b % p, b);
      EqTrans(p, a % p, b, b % p);
      EqReduced(p, a % p, b % p);
    }
    if a % p == b % p {
      EqSym(p, a % p, a);
      EqTrans(p, a, a % p, b);
    }
  }

  // ----- units

  lemma UnitEq(p: int, a: int, b: int)
    requires Unit(p, a) && Eq(p, a, b)
    ensures Unit(p, b)
  {
    var i :| Eq(p, a * i, 1);
    EqSym(p, a, b);
    EqScale(p, b, a, i);
    EqTrans(p, b * i, a * i, 1);
  }

  lemma UnitMul(p: int, a: int, b: int)
    ensures Unit(p, a * b) <==> Unit(p, a) && Unit(p, b)
  {
    if Unit(p, a) && Unit(p, b) {
      var i :| Eq(p, a * i, 1);
      var j :| Eq(p, b * j, 1);
      EqMul(p, a * i, 1, b * j, 1);
      assert (a * i) * (b * j) == (a * b) * (i * j);
    }
    if Unit(p, a * b) {
      var i :| Eq(p, (a * b) * i, 1);
      assert (a * b) * i == a * (b * i) == b * (a * i);
    }
  }

  /** A unit may be cancelled. */
  lemma Cancel(p: int, u: int, a: int, b: int)
    requires Unit(p, u) && Eq(p, u * a, u * b)
    ensures Eq(p, a, b)
  {
    var i :| Eq(p, u * i, 1);
    EqScale(p, u * a, u * b, i);
    EqScale(p, u * i, 1, a);
    EqScale(p, u * i, 1, b);
    assert (u * i) * a == i * (u * a) && (u * i) * b == i * (u * b);
    EqSym(p, i * (u * a), 1 * a);
    EqTrans(p, a, i * (u * a), i * (u * b));
    EqTrans(p, a, i * (u * b), b);
  }

  // ----- prime moduli

  ghost predicate Prime(p: int) {
    p > 1 && forall d :: 1 < d < p ==> p % d != 0
  }

  lemma {:induction false} Bezout(a: nat, b: nat) returns (x: int, y: int, g: nat)
    requires a > 0
    ensures g > 0 && a * x + b * y == g && Eq(g, a, 0) && Eq(g, b, 0)
    decreases b
  {
    if b == 0 {
      x, y, g := 1, 0, a;
      EqBy(g, a, 0, 1);
      EqBy(g, b, 0, 0);
    } else {
      var x', y';
      x', y', g := Bezout(b, a % b);
      x, y := y', x' - a / b * y';
      var q, m := a / b, a % b;
      assert a == q * b + m;
      BezoutStep(q, b, m, x', y');
      EqScale(g, b, 0, q);
      EqAdd(g, q * b, q * 0, m, 0);
    }
  }

  lemma BezoutStep(q: int, b: int, m: int, x: int, y: int)
    ensures (q * b + m) * y + b * (x - q * y) == b * x + m * y
  {
  }

  /** Modulo a prime, everything but zero is a unit. */
  lemma PrimeUnits(p: int, a: int)
    requires Prime(p)
    ensures Unit(p, a) <==> a % p != 0
  {
    if a % p != 0 {
      NonzeroUnit(p, a);
    }
    if Unit(p, a) {
      UnitNonzero(p, a);
    }
  }

  lemma NonzeroUnit(p: int, a: int)
    requires Prime(p) && a % p != 0
    ensures Unit(p, a)
  {
    var m := a % p;
    var x, y, g := Bezout(p, m);
    var k :| m == 0 + k * g;
    var l :| p == 0 + l * g;
    Multiple(k, g);
    DivZero(l, g);
    assert g <= m && p % g == 0;
    EqBy(p, m * y, 1, -x);
    EqMod(p, a);
    EqSym(p, m, a);
    EqScale(p, a, m, y);
    EqTrans(p, a * y, m * y, 1);
  }

  lemma DivZero(l: int, g: int)
    requires g > 0
    ensures (l * g) % g == 0
  {
    EqBy(g, l * g, 0, l);
    EqModIff(g, l * g, 0);
  }

  lemma UnitNonzero(p: int, a: int)
    requires p > 1 && Unit(p, a)
    ensures a % p != 0
  {
    var b :| Eq(p, a * b, 1);
    if a % p == 0 {
      EqModIff(p, a, 0);
      EqScale(p, a, 0, b);
      EqSym(p, a * b, 0 * b);
      EqTrans(p, 0, a * b, 1);
      EqReduced(p, 0, 1);
      assert false;
    }
  }
}
