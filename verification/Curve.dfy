/** Point arithmetic on a curve y^2 = x^3 + b in Jacobian coordinates, against
    the chord and tangent formulas. */
module Curve {
  import opened Options
  import opened Congruence

  // ----- the sum and the double as polynomials

  ghost function AddH(x1: int, z1: int, x2: int, z2: int): int {
    x2 * (z1 * z1) - x1 * (z2 * z2)
  }

  ghost function AddR(y1: int, z1: int, y2: int, z2: int): int {
    2 * (y2 * z1 * (z1 * z1) - y1 * z2 * (z2 * z2))
  }

  /** With `h` and `r` for the differences, `u` for x1 z2^2 and `s` for y1 z2^3. */
  ghost function AddX(h: int, r: int, u: int): int {
    var i := (2 * h) * (2 * h);
    r * r - h * i - u * i - u * i
  }

  ghost function AddY(h: int, r: int, u: int, s: int): int {
    var i := (2 * h) * (2 * h);
    r * (u * i - AddX(h, r, u)) - 2 * (s * (h * i))
  }

  ghost function AddZ(z1: int, z2: int, h: int): int {
    2 * (z1 * z2) * h
  }

  /** With `e` for 3 x^2, `d` for 4 x y^2 and `c` for y^4. */
  ghost function DoubleX(e: int, d: int): int {
    e * e - 2 * d
  }

  ghost function DoubleY(e: int, d: int, c: int): int {
    e * (d - DoubleX(e, d)) - 8 * c
  }

  // ----- single steps with a reduction

  lemma MulMod(p: int, a: int, a': int, b: int, b': int)
    requires p > 0 && Eq(p, a, a') && Eq(p, b, b')
    ensures Eq(p, (a * b) % p, a' * b') && 0 <= (a * b) % p < p
  {
    hide Eq;
    EqMul(p, a, a', b, b');
    EqMod(p, a * b);
    EqTrans(p, (a * b) % p, a * b, a' * b');
  }

  lemma SubMod(p: int, a: int, a': int, b: int, b': int)
    requires p > 0 && Eq(p, a, a') && Eq(p, b, b')
    ensures Eq(p, a - b, a' - b') && Eq(p, a - b + p, a' - b')
  {
    hide Eq;
    EqAdd(p, a, a', b, b');
    EqBy(p, a - b + p, a - b, 1);
    EqTrans(p, a - b + p, a - b, a' - b');
  }

  datatype BitCurve = BitCurve(p: int, b: int) {

    ghost predicate OnCurve(x: int, y: int) {
      Eq(p, y * y, x * x * x + b)
    }

    method IsOnCurve(x: int, y: int) returns (r: bool)
      requires p > 0
      ensures r <==> OnCurve(x, y)
    {
      var y2 := y * y;
      y2 := y2 % p;
      var x3 := x * x;
      x3 := x3 * x;
      x3 := x3 + b;
      x3 := x3 % p;
      r := x3 == y2;
      EqModIff(p, y * y, x * x * x + b);
    }

    // The steps of addition. Reductions along the way change only the representatives.

    /** A square, reduced. */
    method Square(z: int) returns (zz: int)
      requires p > 0
      ensures 0 <= zz < p && Eq(p, zz, z * z)
    {
      zz := z * z;
      EqMod(p, zz);
      zz := zz % p;
    }

    /** u2 - u1 for u1 = x1 z2^2 and u2 = x2 z1^2. */
    method DiffX(x1: int, z1: int, x2: int, z2: int, z1z1: int, z2z2: int) returns (u1: int, h: int)
      requires p > 0 && Eq(p, z1z1, z1 * z1) && Eq(p, z2z2, z2 * z2)
      ensures Eq(p, u1, x1 * (z2 * z2)) && Eq(p, h, AddH(x1, z1, x2, z2))
    {
      hide Eq;
      u1 := x1 * z2z2;
      u1 := u1 % p;
      EqSelf(p, x1);
      MulMod(p, x1, x1, z2z2, z2 * z2);
      var u2 := x2 * z1z1;
      u2 := u2 % p;
      EqSelf(p, x2);
      MulMod(p, x2, x2, z1z1, z1 * z1);
      h := u2 - u1;
      SubMod(p, u2, x2 * (z1 * z1), u1, x1 * (z2 * z2));
      if h < 0 {
        h := h + p;
      }
    }

    /** 2 (s2 - s1) for s1 = y1 z2^3 and s2 = y2 z1^3. */
    method DiffY(y1: int, z1: int, y2: int, z2: int, z1z1: int, z2z2: int) returns (s1: int, r: int)
      requires p > 0 && Eq(p, z1z1, z1 * z1) && Eq(p, z2z2, z2 * z2)
      ensures Eq(p, s1, y1 * z2 * (z2 * z2)) && Eq(p, r, AddR(y1, z1, y2, z2))
    {
      hide Eq;
      s1 := y1 * z2;
      ghost var w1 := s1;
      s1 := s1 * z2z2;
      s1 := s1 % p;
      EqSelf(p, w1);
      MulMod(p, w1, w1, z2z2, z2 * z2);
      var s2 := y2 * z1;
      ghost var w2 := s2;
      s2 := s2 * z1z1;
      s2 := s2 % p;
      EqSelf(p, w2);
      MulMod(p, w2, w2, z1z1, z1 * z1);
      r := s2 - s1;
      SubMod(p, s2, w2 * (z1 * z1), s1, w1 * (z2 * z2));
      if r < 0 {
        r := r + p;
      }
      EqScale(p, r, w2 * (z1 * z1) - w1 * (z2 * z2), 2);
      r := 2 * r;
    }

    /** r^2 - j - 2v and r (v - x3) - 2 s1 j, for i = (2h)^2, j = h i and v = u1 i. */
    method SumXY(u1: int, h: int, s1: int, r: int) returns (x3: int, y3: int)
      requires p > 0
      ensures 0 <= x3 < p && 0 <= y3 < p
      ensures Eq(p, x3, AddX(h, r, u1)) && Eq(p, y3, AddY(h, r, u1, s1))
    {
      hide Eq;
      var i := 2 * h;
      i := i * i;
      var j := h * i;
      var v := u1 * i;
      x3 := r * r;
      x3 := x3 - j;
      x3 := x3 - v;
      x3 := x3 - v;
      EqMod(p, x3);
      ghost var x := x3;
      x3 := x3 % p;
      assert x == AddX(h, r, u1);
      y3 := r;
      EqSelf(p, v);
      EqAdd(p, v, v, x3, x);
      EqScale(p, v - x3, v - x, r);
      v := v - x3;
      y3 := y3 * v;
      var t := s1 * j;
      t := 2 * t;
      EqSelf(p, t);
      EqAdd(p, y3, r * (u1 * i - x), t, t);
      y3 := y3 - t;
      EqMod(p, y3);
      EqTrans(p, y3 % p, y3, AddY(h, r, u1, s1));
      y3 := y3 % p;
    }

    /** ((z1 + z2)^2 - z1^2 - z2^2) h. */
    method SumZ(z1: int, z2: int, z1z1: int, z2z2: int, h: int) returns (z3: int)
      requires p > 0 && Eq(p, z1z1, z1 * z1) && Eq(p, z2z2, z2 * z2)
      ensures 0 <= z3 < p && Eq(p, z3, AddZ(z1, z2, h))
    {
      hide Eq;
      z3 := z1 + z2;
      z3 := z3 * z3;
      ghost var q := z3;
      EqSelf(p, q);
      SubMod(p, q, q, z1z1, z1 * z1);
      z3 := z3 - z1z1;
      if z3 < 0 {
        z3 := z3 + p;
      }
      SubMod(p, z3, q - z1 * z1, z2z2, z2 * z2);
      z3 := z3 - z2z2;
      if z3 < 0 {
        z3 := z3 + p;
      }
      assert q - z1 * z1 - z2 * z2 == 2 * (z1 * z2);
      EqSelf(p, h);
      MulMod(p, z3, 2 * (z1 * z2), h, h);
      z3 := z3 * h;
      z3 := z3 % p;
    }

    /** The sum in Jacobian form. */
    method AddJacobian(x1: int, y1: int, z1: int, x2: int, y2: int, z2: int) returns (x3: int, y3: int, z3: int)
      requires p > 0
      ensures 0 <= x3 < p && 0 <= y3 < p && 0 <= z3 < p
      ensures var h, r, u, s := AddH(x1, z1, x2, z2), AddR(y1, z1, y2, z2), x1 * (z2 * z2), y1 * z2 * (z2 * z2);
              Eq(p, x3, AddX(h, r, u)) && Eq(p, y3, AddY(h, r, u, s)) && Eq(p, z3, AddZ(z1, z2, h))
    {
      hide Eq, AddH, AddR, AddX, AddY, AddZ;
      var z1z1 := Square(z1);
      var z2z2 := Square(z2);
      var u1, h := DiffX(x1, z1, x2, z2, z1z1, z2z2);
      var s1, r := DiffY(y1, z1, y2, z2, z1z1, z2z2);
      x3, y3 := SumXY(u1, h, s1, r);
      z3 := SumZ(z1, z2, z1z1, z2z2, h);
      SumSame(p, h, AddH(x1, z1, x2, z2), r, AddR(y1, z1, y2, z2), u1, x1 * (z2 * z2), s1, y1 * z2 * (z2 * z2));
      ghost var h', r', u', s' := AddH(x1, z1, x2, z2), AddR(y1, z1, y2, z2), x1 * (z2 * z2), y1 * z2 * (z2 * z2);
      EqTrans(p, x3, AddX(h, r, u1), AddX(h', r', u'));
      EqTrans(p, y3, AddY(h, r, u1, s1), AddY(h', r', u', s'));
      SumZSame(p, z1, z2, h, h');
      EqTrans(p, z3, AddZ(z1, z2, h), AddZ(z1, z2, h'));
    }

    /** The double in Jacobian form. */
    method DoubleJacobian(x: int, y: int, z: int) returns (x3: int, y3: int, z3: int)
      requires p > 0
      ensures 0 <= x3 < p && 0 <= y3 < p && 0 <= z3 < p
      ensures var e, d, c := 3 * (x * x), 4 * (x * (y * y)), (y * y) * (y * y);
              Eq(p, x3, DoubleX(e, d)) && Eq(p, y3, DoubleY(e, d, c)) && Eq(p, z3, 2 * (y * z))
    {
      hide Eq;
      var a := x * x;
      var b := y * y;
      var c := b * b;
      var d := x + b;
      d := d * d;
      d := d - a;
      d := d - c;
      d := d * 2;
      SquareOfSum(x, b);
      var e := 3 * a;
      var f := e * e;
      x3 := 2 * d;
      x3 := f - x3;
      ghost var w := x3;
      EqMod(p, w);
      x3 := x3 % p;
      EqSelf(p, d);
      EqAdd(p, d, d, x3, w);
      y3 := d - x3;
      EqScale(p, y3, d - w, e);
      y3 := e * y3;
      EqSelf(p, 8 * c);
      EqAdd(p, y3, e * (d - w), 8 * c, 8 * c);
      y3 := y3 - 8 * c;
      EqMod(p, y3);
      EqTrans(p, y3 % p, y3, e * (d - w) - 8 * c);
      y3 := y3 % p;
      z3 := y * z;
      z3 := 2 * z3;
      EqMod(p, z3);
      z3 := z3 % p;
    }

    /** The inverse, if there is one. */
    method ModInverse(z: int) returns (r: Option<int>)
      requires p > 0
      ensures r.Some? <==> Unit(p, z)
      ensures r.Some? ==> Eq(p, r.value * z, 1)
    {
      hide Eq;
      if i :| 0 <= i < p && (i * z) % p == 1 % p {
        EqModIff(p, i * z, 1);
        assert z * i == i * z;
        return Some(i);
      }
      if Unit(p, z) {
        var i :| Eq(p, z * i, 1);
        ReducedInverse(p, z, i);
        assert false;
      }
      return None;
    }

    /** Back to affine coordinates; there is no point when `z` has no inverse. */
    method AffineFromJacobian(x: int, y: int, z: int) returns (r: Option<(int, int)>)
      requires p > 0
      ensures r.Some? <==> Unit(p, z)
      ensures r.Some? ==> 0 <= r.value.0 < p && 0 <= r.value.1 < p && Rep(p, x, y, z, r.value.0, r.value.1)
    {
      hide Eq, Unit;
      var zinv := ModInverse(z);
      if zinv.None? {
        return None;
      }
      var zinvsq := zinv.value * zinv.value;
      ghost var sq := zinvsq;
      var xOut := x * zinvsq;
      EqMod(p, xOut);
      xOut := xOut % p;
      zinvsq := zinvsq * zinv.value;
      var yOut := y * zinvsq;
      EqMod(p, yOut);
      yOut := yOut % p;
      AffineRep(p, x, y, z, zinv.value, xOut, yOut);
      return Some((xOut, yOut));
    }

    /** The sum of two affine points. There is a result exactly when twice the difference of
        the x is a unit; it is then the chord point, and on the curve with its arguments. */
    method Add(x1: int, y1: int, x2: int, y2: int) returns (r: Option<(int, int)>)
      requires p > 0
      ensures r.Some? <==> Unit(p, 2 * (x2 - x1))
      ensures r.Some? ==> forall l, x3, y3 :: Chord(p, x1, y1, x2, y2, l, x3, y3) ==> r.value == (x3 % p, y3 % p)
      ensures r.Some? ==> exists l, x3, y3 :: Chord(p, x1, y1, x2, y2, l, x3, y3)
      ensures r.Some? && OnCurve(x1, y1) && OnCurve(x2, y2) ==> OnCurve(r.value.0, r.value.1)
    {
      hide Eq, Unit, AddX, AddY, AddR, BitCurve.OnCurve, Chord;
      var z := 1;
      var x, y, w := AddJacobian(x1, y1, z, x2, y2, z);
      SumZOne(p, x1, x2, w);
      r := AffineFromJacobian(x, y, w);
      if r.Some? {
        AddIsChord(p, x1, y1, x2, y2, x, y, w, r.value.0, r.value.1);
        AddOnCurve(p, b, x1, y1, x2, y2, r.value.0, r.value.1);
      }
    }

    /** Twice an affine point: the tangent point, when twice the y is a unit. */
    method Double(x1: int, y1: int) returns (r: Option<(int, int)>)
      requires p > 0
      ensures r.Some? <==> Unit(p, 2 * y1)
      ensures r.Some? ==> forall l, x3, y3 :: Tangent(p, x1, y1, l, x3, y3) ==> r.value == (x3 % p, y3 % p)
      ensures r.Some? ==> exists l, x3, y3 :: Tangent(p, x1, y1, l, x3, y3)
      ensures r.Some? && OnCurve(x1, y1) ==> OnCurve(r.value.0, r.value.1)
    {
      hide Eq, Unit, DoubleX, DoubleY, BitCurve.OnCurve, Tangent;
      var z1 := 1;
      var x, y, w := DoubleJacobian(x1, y1, z1);
      UnitSame(p, w, 2 * y1);
      r := AffineFromJacobian(x, y, w);
      if r.Some? {
        DoubleIsAffine(p, x1, y1, x, y, w, r.value.0, r.value.1);
        DoubleOnCurve(p, b, x1, y1, r.value.0, r.value.1);
      }
    }
  }

  lemma UnitSame(p: int, a: int, b: int)
    requires Eq(p, a, b)
    ensures Unit(p, a) <==> Unit(p, b)
  {
    hide Eq, Unit;
    EqSym(p, a, b);
    if Unit(p, a) {
      UnitEq(p, a, b);
    }
    if Unit(p, b) {
      UnitEq(p, b, a);
    }
  }

  lemma SumZOne(p: int, x1: int, x2: int, w: int)
    requires Eq(p, w, AddZ(1, 1, AddH(x1, 1, x2, 1)))
    ensures Unit(p, w) <==> Unit(p, 2 * (x2 - x1))
  {
    hide Eq, Unit;
    assert AddZ(1, 1, AddH(x1, 1, x2, 1)) == 2 * (x2 - x1);
    UnitSame(p, w, 2 * (x2 - x1));
  }

  lemma RepOne(p: int, x: int, y: int)
    ensures Rep(p, x, y, 1, x, y)
  {
    EqSelf(p, x);
    EqSelf(p, y);
    EqSelf(p, 1 * 1);
  }

  /** What represents one affine point reduces to it. */
  lemma RepReduced(p: int, x: int, y: int, z: int, ax: int, ay: int, cx: int, cy: int)
    requires Rep(p, x, y, z, ax, ay) && Rep(p, x, y, z, cx, cy) && 0 <= ax < p && 0 <= ay < p
    ensures ax == cx % p && ay == cy % p
  {
    hide Eq, Unit, Rep;
    RepUnique(p, x, y, z, ax, ay, cx, cy);
    EqModIff(p, ax, cx);
    EqModIff(p, ay, cy);
  }

  lemma AddIsChord(p: int, x1: int, y1: int, x2: int, y2: int, x: int, y: int, z: int, ax: int, ay: int)
    requires Unit(p, 2 * (x2 - x1)) && Rep(p, x, y, z, ax, ay) && 0 <= ax < p && 0 <= ay < p
    requires var h, r, u, s := AddH(x1, 1, x2, 1), AddR(y1, 1, y2, 1), x1 * (1 * 1), y1 * 1 * (1 * 1);
             Eq(p, x, AddX(h, r, u)) && Eq(p, y, AddY(h, r, u, s)) && Eq(p, z, AddZ(1, 1, h))
    ensures forall l, x3, y3 :: Chord(p, x1, y1, x2, y2, l, x3, y3) ==> ax == x3 % p && ay == y3 % p
    ensures exists l, x3, y3 :: Chord(p, x1, y1, x2, y2, l, x3, y3)
  {
    hide Eq, Unit, AddX, AddY, AddZ, AddR, AddH, Chord, Rep;
    forall l, x3, y3 | Chord(p, x1, y1, x2, y2, l, x3, y3) ensures ax == x3 % p && ay == y3 % p {
      RepOne(p, x1, y1);
      RepOne(p, x2, y2);
      SumIsChord(p, x1, y1, 1, x2, y2, 1, x1, y1, x2, y2, l, x3, y3);
      var h, r, u, s := AddH(x1, 1, x2, 1), AddR(y1, 1, y2, 1), x1 * (1 * 1), y1 * 1 * (1 * 1);
      RepEq(p, AddX(h, r, u), AddY(h, r, u, s), AddZ(1, 1, h), x, y, z, x3, y3);
      RepReduced(p, x, y, z, ax, ay, x3, y3);
    }
    ChordExists(p, x1, y1, x2, y2);
  }

  lemma ChordExists(p: int, x1: int, y1: int, x2: int, y2: int)
    requires Unit(p, 2 * (x2 - x1))
    ensures exists l, x3, y3 :: Chord(p, x1, y1, x2, y2, l, x3, y3)
  {
    hide Eq;
    UnitMul(p, 2, x2 - x1);
    var i :| Eq(p, (x2 - x1) * i, 1);
    var l := (y2 - y1) * i;
    EqScale(p, (x2 - x1) * i, 1, y2 - y1);
    assert l * (x2 - x1) == (y2 - y1) * ((x2 - x1) * i);
    var x3 := l * l - x1 - x2;
    assert Chord(p, x1, y1, x2, y2, l, x3, l * (x1 - x3) - y1);
  }

  lemma AddOnCurve(p: int, b: int, x1: int, y1: int, x2: int, y2: int, ax: int, ay: int)
    requires p > 0 && Unit(p, 2 * (x2 - x1)) && exists l, x3, y3 :: Chord(p, x1, y1, x2, y2, l, x3, y3)
    requires forall l, x3, y3 :: Chord(p, x1, y1, x2, y2, l, x3, y3) ==> ax == x3 % p && ay == y3 % p
    ensures BitCurve(p, b).OnCurve(x1, y1) && BitCurve(p, b).OnCurve(x2, y2) ==> BitCurve(p, b).OnCurve(ax, ay)
  {
    hide Eq, Unit, Chord, BitCurve.OnCurve;
    UnitMul(p, 2, x2 - x1);
    var l, x3, y3 :| Chord(p, x1, y1, x2, y2, l, x3, y3);
    if BitCurve(p, b).OnCurve(x1, y1) && BitCurve(p, b).OnCurve(x2, y2) {
      ChordOnCurve(p, b, x1, y1, x2, y2, l, x3, y3);
      OnCurveMod(p, b, x3, y3);
    }
  }

  lemma OnCurveMod(p: int, b: int, x: int, y: int)
    requires p > 0 && BitCurve(p, b).OnCurve(x, y)
    ensures BitCurve(p, b).OnCurve(x % p, y % p)
  {
    hide Eq;
    EqMod(p, x);
    EqMod(p, y);
    var x', y' := x % p, y % p;
    EqMul(p, y', y, y', y);
    EqMul(p, x', x, x', x);
    EqMul(p, x' * x', x * x, x', x);
    EqSelf(p, b);
    EqAdd(p, x' * x' * x', x * x * x, b, b);
    EqSym(p, x' * x' * x' + b, x * x * x + b);
    EqTrans(p, y' * y', y * y, x * x * x + b);
    EqTrans(p, y' * y', x * x * x + b, x' * x' * x' + b);
  }

  lemma DoubleIsAffine(p: int, x1: int, y1: int, x: int, y: int, z: int, ax: int, ay: int)
    requires Unit(p, 2 * y1) && Rep(p, x, y, z, ax, ay) && 0 <= ax < p && 0 <= ay < p
    requires var e, d, c := 3 * (x1 * x1), 4 * (x1 * (y1 * y1)), (y1 * y1) * (y1 * y1);
             Eq(p, x, DoubleX(e, d)) && Eq(p, y, DoubleY(e, d, c)) && Eq(p, z, 2 * (y1 * 1))
    ensures forall l, x3, y3 :: Tangent(p, x1, y1, l, x3, y3) ==> ax == x3 % p && ay == y3 % p
    ensures exists l, x3, y3 :: Tangent(p, x1, y1, l, x3, y3)
  {
    hide Eq, Unit, DoubleX, DoubleY, Tangent, Rep;
    var e, d, c := 3 * (x1 * x1), 4 * (x1 * (y1 * y1)), (y1 * y1) * (y1 * y1);
    forall l, x3, y3 | Tangent(p, x1, y1, l, x3, y3) ensures ax == x3 % p && ay == y3 % p {
      RepOne(p, x1, y1);
      DoubleIsTangent(p, x1, y1, 1, x1, y1, l, x3, y3);
      RepEq(p, DoubleX(e, d), DoubleY(e, d, c), 2 * (y1 * 1), x, y, z, x3, y3);
      RepReduced(p, x, y, z, ax, ay, x3, y3);
    }
    TangentExists(p, x1, y1);
  }

  lemma TangentExists(p: int, x: int, y: int)
    requires Unit(p, 2 * y)
    ensures exists l, x3, y3 :: Tangent(p, x, y, l, x3, y3)
  {
    hide Eq;
    var i :| Eq(p, 2 * y * i, 1);
    var l := 3 * (x * x) * i;
    EqScale(p, 2 * y * i, 1, 3 * (x * x));
    assert l * (2 * y) == 3 * (x * x) * (2 * y * i);
    var x3 := l * l - x - x;
    assert Tangent(p, x, y, l, x3, l * (x - x3) - y);
  }

  lemma DoubleOnCurve(p: int, b: int, x1: int, y1: int, ax: int, ay: int)
    requires p > 0 && exists l, x3, y3 :: Tangent(p, x1, y1, l, x3, y3)
    requires forall l, x3, y3 :: Tangent(p, x1, y1, l, x3, y3) ==> ax == x3 % p && ay == y3 % p
    ensures BitCurve(p, b).OnCurve(x1, y1) ==> BitCurve(p, b).OnCurve(ax, ay)
  {
    hide Eq, Tangent, BitCurve.OnCurve;
    var l, x3, y3 :| Tangent(p, x1, y1, l, x3, y3);
    if BitCurve(p, b).OnCurve(x1, y1) {
      TangentOnCurve(p, b, x1, y1, l, x3, y3);
      OnCurveMod(p, b, x3, y3);
    }
  }

  /** The chord does not depend on the order of the points. */
  lemma ChordCommutes(p: int, x1: int, y1: int, x2: int, y2: int, l: int, x3: int, y3: int, l': int, x3': int, y3': int)
    requires Chord(p, x1, y1, x2, y2, l, x3, y3) && Chord(p, x2, y2, x1, y1, l', x3', y3') && Unit(p, x2 - x1)
    ensures Eq(p, x3, x3') && Eq(p, y3, y3')
  {
    hide Eq, Unit;
    EqSelf(p, 0);
    EqAdd(p, 0, 0, l' * (x1 - x2), y1 - y2);
    assert 0 - l' * (x1 - x2) == (x2 - x1) * l' && l * (x2 - x1) == (x2 - x1) * l;
    EqSym(p, (x2 - x1) * l', y2 - y1);
    EqTrans(p, (x2 - x1) * l, y2 - y1, (x2 - x1) * l');
    Cancel(p, x2 - x1, l, l');
    EqMul(p, l, l', l, l');
    EqSelf(p, x1 + x2);
    EqAdd(p, l * l, l' * l', x1 + x2, x1 + x2);
    EqSelf(p, x2);
    EqAdd(p, x2, x2, x3, x3');
    EqMul(p, l, l', x2 - x3, x2 - x3');
    EqAdd(p, l * (x2 - x1), y2 - y1, 0, 0);
    EqAdd(p, l * (x2 - x3), l' * (x2 - x3'), l * (x2 - x1), y2 - y1);
    assert l * (x2 - x3) - l * (x2 - x1) == l * (x1 - x3);
    EqSelf(p, y1);
    EqAdd(p, l * (x1 - x3), l' * (x2 - x3') - (y2 - y1), y1, y1);
  }

  lemma SquareOfSum(x: int, b: int)
    ensures (x + b) * (x + b) - x * x - b * b == 2 * (x * b)
  {
  }

  lemma ReducedInverse(p: int, z: int, i: int)
    requires p > 0 && Eq(p, z * i, 1)
    ensures var j := i % p; 0 <= j < p && (j * z) % p == 1 % p
  {
    hide Eq;
    EqMod(p, i);
    EqScale(p, i % p, i, z);
    assert i * z == z * i;
    EqTrans(p, i % p * z, z * i, 1);
    EqModIff(p, i % p * z, 1);
  }

  /** The sum polynomials respect congruence. */
  lemma SumSame(p: int, h: int, h': int, r: int, r': int, u: int, u': int, s: int, s': int)
    requires Eq(p, h, h') && Eq(p, r, r') && Eq(p, u, u') && Eq(p, s, s')
    ensures Eq(p, AddX(h, r, u), AddX(h', r', u')) && Eq(p, AddY(h, r, u, s), AddY(h', r', u', s'))
  {
    hide Eq;
    EqScale(p, h, h', 2);
    EqMul(p, 2 * h, 2 * h', 2 * h, 2 * h');
    var i, i' := (2 * h) * (2 * h), (2 * h') * (2 * h');
    SumWith(p, h, h', r, r', u, u', s, s', i, i');
  }

  lemma SumWith(p: int, h: int, h': int, r: int, r': int, u: int, u': int, s: int, s': int, i: int, i': int)
    requires Eq(p, h, h') && Eq(p, r, r') && Eq(p, u, u') && Eq(p, s, s') && Eq(p, i, i')
    requires i == (2 * h) * (2 * h) && i' == (2 * h') * (2 * h')
    ensures Eq(p, AddX(h, r, u), AddX(h', r', u')) && Eq(p, AddY(h, r, u, s), AddY(h', r', u', s'))
  {
    hide Eq;
    EqMul(p, h, h', i, i');
    EqMul(p, u, u', i, i');
    EqMul(p, r, r', r, r');
    EqAdd(p, r * r, r' * r', h * i, h' * i');
    EqAdd(p, r * r - h * i, r' * r' - h' * i', u * i, u' * i');
    EqAdd(p, r * r - h * i - u * i, r' * r' - h' * i' - u' * i', u * i, u' * i');
    EqAdd(p, u * i, u' * i', AddX(h, r, u), AddX(h', r', u'));
    EqMul(p, r, r', u * i - AddX(h, r, u), u' * i' - AddX(h', r', u'));
    EqMul(p, s, s', h * i, h' * i');
    EqScale(p, s * (h * i), s' * (h' * i'), 2);
    EqAdd(p, r * (u * i - AddX(h, r, u)), r' * (u' * i' - AddX(h', r', u')), 2 * (s * (h * i)), 2 * (s' * (h' * i')));
  }

  lemma SumZSame(p: int, z1: int, z2: int, h: int, h': int)
    requires Eq(p, h, h')
    ensures Eq(p, AddZ(z1, z2, h), AddZ(z1, z2, h'))
  {
    hide Eq;
    EqScale(p, h, h', 2 * (z1 * z2));
  }

  // ----- affine points

  /** (x, y, z) stands for the affine point (ax, ay). */
  ghost predicate Rep(p: int, x: int, y: int, z: int, ax: int, ay: int) {
    Unit(p, z) && Eq(p, x, ax * (z * z)) && Eq(p, y, ay * (z * z * z))
  }

  /** (x3, y3) is where the line of slope `l` through two points meets the curve again, mirrored. */
  ghost predicate Chord(p: int, x1: int, y1: int, x2: int, y2: int, l: int, x3: int, y3: int) {
    Eq(p, l * (x2 - x1), y2 - y1) && x3 == l * l - x1 - x2 && y3 == l * (x1 - x3) - y1
  }

  /** The sum polynomials once the differences are multiples of a common power. */
  lemma SumForm(l: int, x1: int, dx: int, y1: int, e: int, f: int, z: int)
    requires e * e * e == f * f && z == 2 * dx * f
    ensures var x3 := l * l - x1 - (x1 + dx);
            && AddX(dx * e, l * z, x1 * e) == x3 * (z * z)
            && AddY(dx * e, l * z, x1 * e, y1 * f) == (l * (x1 - x3) - y1) * (z * z * z)
  {
    var i, w, x3 := (2 * (dx * e)) * (2 * (dx * e)), z * z, l * l - x1 - (x1 + dx);
    assert e * i == w by { Powers(dx, e, f); }
    FormX(l, x1, dx, e, z, i, w);
    FormY(l, x1, dx, y1, e, f, z, i, w, x3);
  }

  lemma Powers(dx: int, e: int, f: int)
    requires e * e * e == f * f
    ensures e * ((2 * (dx * e)) * (2 * (dx * e))) == (2 * dx * f) * (2 * dx * f)
  {
    assert e * ((2 * (dx * e)) * (2 * (dx * e))) == 4 * (dx * dx) * (e * e * e);
    assert (2 * dx * f) * (2 * dx * f) == 4 * (dx * dx) * (f * f);
  }

  lemma FormX(l: int, x1: int, dx: int, e: int, z: int, i: int, w: int)
    requires i == (2 * (dx * e)) * (2 * (dx * e)) && e * i == w && w == z * z
    ensures AddX(dx * e, l * z, x1 * e) == (l * l - x1 - (x1 + dx)) * w
  {
    assert (dx * e) * i == dx * (e * i);
    assert (x1 * e) * i == x1 * (e * i);
    assert (l * z) * (l * z) == (l * l) * (z * z);
    assert (l * l - x1 - (x1 + dx)) * w == (l * l) * w - x1 * w - x1 * w - dx * w;
  }

  lemma FormY(l: int, x1: int, dx: int, y1: int, e: int, f: int, z: int, i: int, w: int, x3: int)
    requires i == (2 * (dx * e)) * (2 * (dx * e)) && e * i == w && w == z * z && z == 2 * dx * f
    requires AddX(dx * e, l * z, x1 * e) == x3 * w
    ensures AddY(dx * e, l * z, x1 * e, y1 * f) == (l * (x1 - x3) - y1) * (z * z * z)
  {
    hide AddX;
    assert (dx * e) * i == dx * w && (x1 * e) * i == x1 * w;
    assert (l * z) * (x1 * w - x3 * w) == (l * (x1 - x3)) * (z * w);
    assert 2 * ((y1 * f) * (dx * w)) == y1 * (2 * dx * f) * w == y1 * (z * w);
    assert (l * (x1 - x3) - y1) * (z * w) == (l * (x1 - x3)) * (z * w) - y1 * (z * w);
  }

  /** Dividing by the square and the cube undoes the Jacobian transform. */
  lemma AffineRep(p: int, x: int, y: int, z: int, i: int, ax: int, ay: int)
    requires Eq(p, i * z, 1) && Unit(p, z) && Eq(p, ax, x * (i * i)) && Eq(p, ay, y * (i * i * i))
    ensures Rep(p, x, y, z, ax, ay)
  {
    hide Eq, Unit;
    EqMul(p, i * z, 1, i * z, 1);
    EqMul(p, (i * z) * (i * z), 1, i * z, 1);
    Undo(p, x, ax, i * i, z * z, (i * z) * (i * z));
    Undo(p, y, ay, i * i * i, z * z * z, (i * z) * (i * z) * (i * z));
  }

  lemma Undo(p: int, x: int, ax: int, i: int, z: int, one: int)
    requires Eq(p, ax, x * i) && one == i * z && Eq(p, one, 1)
    ensures Eq(p, x, ax * z)
  {
    hide Eq;
    EqScale(p, ax, x * i, z);
    EqScale(p, one, 1, x);
    assert (x * i) * z == x * one;
    EqTrans(p, ax * z, x * one, x);
    EqSym(p, ax * z, x);
  }

  /** A Jacobian point stands for one affine point. */
  lemma RepUnique(p: int, x: int, y: int, z: int, ax: int, ay: int, cx: int, cy: int)
    requires Rep(p, x, y, z, ax, ay) && Rep(p, x, y, z, cx, cy)
    ensures Eq(p, ax, cx) && Eq(p, ay, cy)
  {
    hide Eq, Unit;
    UnitMul(p, z, z);
    UnitMul(p, z * z, z);
    SameMultiple(p, x, z * z, ax, cx);
    SameMultiple(p, y, z * z * z, ay, cy);
  }

  lemma SameMultiple(p: int, x: int, u: int, a: int, b: int)
    requires Unit(p, u) && Eq(p, x, a * u) && Eq(p, x, b * u)
    ensures Eq(p, a, b)
  {
    hide Eq, Unit;
    EqSym(p, x, a * u);
    EqTrans(p, a * u, x, b * u);
    assert u * a == a * u && u * b == b * u;
    Cancel(p, u, a, b);
  }

  lemma RepEq(p: int, x: int, y: int, z: int, x': int, y': int, z': int, ax: int, ay: int)
    requires Rep(p, x, y, z, ax, ay) && Eq(p, x', x) && Eq(p, y', y) && Eq(p, z', z)
    ensures Rep(p, x', y', z', ax, ay)
  {
    hide Eq, Unit;
    EqSym(p, z', z);
    UnitEq(p, z, z');
    EqMul(p, z, z', z, z');
    EqMul(p, z * z, z' * z', z, z');
    EqScale(p, z * z, z' * z', ax);
    EqScale(p, z * z * z, z' * z' * z', ay);
    EqTrans(p, x', x, ax * (z * z));
    EqTrans(p, x', ax * (z * z), ax * (z' * z'));
    EqTrans(p, y', y, ay * (z * z * z));
    EqTrans(p, y', ay * (z * z * z), ay * (z' * z' * z'));
  }

  // ----- the sum is the chord construction

  lemma Product(p: int, x: int, ax: int, w: int, v: int, e: int)
    requires Eq(p, x, ax * w) && e == w * v
    ensures Eq(p, x * v, ax * e)
  {
    hide Eq;
    EqScale(p, x, ax * w, v);
    assert (ax * w) * v == ax * e;
  }

  /** The differences of two represented points, over the common denominator z1 z2. */
  lemma SumDiffs(p: int, x1: int, y1: int, z1: int, x2: int, y2: int, z2: int, ax: int, ay: int, cx: int, cy: int)
    requires Rep(p, x1, y1, z1, ax, ay) && Rep(p, x2, y2, z2, cx, cy)
    ensures var d := z1 * z2; var e, f := d * d, d * d * d;
            && Eq(p, AddH(x1, z1, x2, z2), (cx - ax) * e) && Eq(p, AddR(y1, z1, y2, z2), 2 * ((cy - ay) * f))
            && Eq(p, x1 * (z2 * z2), ax * e) && Eq(p, y1 * z2 * (z2 * z2), ay * f)
  {
    hide Eq, Unit;
    var d := z1 * z2;
    var e, f := d * d, d * d * d;
    assert e == (z1 * z1) * (z2 * z2) == (z2 * z2) * (z1 * z1);
    assert f == (z1 * z1 * z1) * (z2 * z2 * z2) == (z2 * z2 * z2) * (z1 * z1 * z1) by { Cubes(z1, z2); }
    Product(p, x1, ax, z1 * z1, z2 * z2, e);
    Product(p, x2, cx, z2 * z2, z1 * z1, e);
    Product(p, y1, ay, z1 * z1 * z1, z2 * z2 * z2, f);
    Product(p, y2, cy, z2 * z2 * z2, z1 * z1 * z1, f);
    EqAdd(p, x2 * (z1 * z1), cx * e, x1 * (z2 * z2), ax * e);
    EqAdd(p, y2 * (z1 * z1 * z1), cy * f, y1 * (z2 * z2 * z2), ay * f);
    EqScale(p, y2 * (z1 * z1 * z1) - y1 * (z2 * z2 * z2), cy * f - ay * f, 2);
    assert y1 * z2 * (z2 * z2) == y1 * (z2 * z2 * z2) && y2 * z1 * (z1 * z1) == y2 * (z1 * z1 * z1);
    assert cx * e - ax * e == (cx - ax) * e && cy * f - ay * f == (cy - ay) * f;
  }

  lemma Cubes(a: int, b: int)
    ensures (a * b) * (a * b) * (a * b) == (a * a * a) * (b * b * b) == (b * b * b) * (a * a * a)
  {
    assert (a * b) * (a * b) == (a * a) * (b * b);
  }

  /** Adding represented points of different x gives a representative of the chord point. */
  lemma SumIsChord(p: int, x1: int, y1: int, z1: int, x2: int, y2: int, z2: int,
                   ax: int, ay: int, cx: int, cy: int, l: int, x3: int, y3: int)
    requires Rep(p, x1, y1, z1, ax, ay) && Rep(p, x2, y2, z2, cx, cy)
    requires Chord(p, ax, ay, cx, cy, l, x3, y3) && Unit(p, 2 * (cx - ax))
    ensures var h, r, u, s := AddH(x1, z1, x2, z2), AddR(y1, z1, y2, z2), x1 * (z2 * z2), y1 * z2 * (z2 * z2);
            Rep(p, AddX(h, r, u), AddY(h, r, u, s), AddZ(z1, z2, h), x3, y3)
  {
    hide Eq, Unit, AddX, AddY, AddH, AddR;
    var d, dx := z1 * z2, cx - ax;
    var e, f := d * d, d * d * d;
    var z := 2 * dx * f;
    SumDiffs(p, x1, y1, z1, x2, y2, z2, ax, ay, cx, cy);
    var h, r, u, s := AddH(x1, z1, x2, z2), AddR(y1, z1, y2, z2), x1 * (z2 * z2), y1 * z2 * (z2 * z2);
    Slope(p, r, cy - ay, l, dx, f);
    SumSame(p, h, dx * e, r, l * z, u, ax * e, s, ay * f);
    assert e * e * e == f * f by { Sixth(d); }
    SumForm(l, ax, dx, ay, e, f, z);
    assert ax + dx == cx;
    SumUnit(p, z1, z2, d, dx, f, h);
    EqSelf(p, z);
    assert Rep(p, x3 * (z * z), y3 * (z * z * z), z, x3, y3) by { RepSelf(p, x3, y3, z); }
    RepEq(p, x3 * (z * z), y3 * (z * z * z), z, AddX(h, r, u), AddY(h, r, u, s), AddZ(z1, z2, h), x3, y3);
  }

  lemma RepSelf(p: int, x: int, y: int, z: int)
    requires Unit(p, z)
    ensures Rep(p, x * (z * z), y * (z * z * z), z, x, y)
  {
    hide Eq, Unit;
    EqSelf(p, x * (z * z));
    EqSelf(p, y * (z * z * z));
  }

  lemma Sixth(d: int)
    ensures (d * d) * (d * d) * (d * d) == (d * d * d) * (d * d * d)
  {
    assert (d * d) * (d * d) == d * d * d * d;
  }

  lemma Slope(p: int, r: int, dy: int, l: int, dx: int, f: int)
    requires Eq(p, r, 2 * (dy * f)) && Eq(p, l * dx, dy)
    ensures Eq(p, r, l * (2 * dx * f))
  {
    hide Eq;
    EqSym(p, l * dx, dy);
    EqScale(p, dy, l * dx, 2 * f);
    assert dy * (2 * f) == 2 * (dy * f) && (l * dx) * (2 * f) == l * (2 * dx * f);
    EqTrans(p, r, 2 * (dy * f), l * (2 * dx * f));
  }

  lemma SumUnit(p: int, z1: int, z2: int, d: int, dx: int, f: int, h: int)
    requires Unit(p, z1) && Unit(p, z2) && d == z1 * z2 && f == d * d * d && Unit(p, 2 * dx) && Eq(p, h, dx * (d * d))
    ensures Unit(p, 2 * dx * f) && Eq(p, AddZ(z1, z2, h), 2 * dx * f)
  {
    hide Eq, Unit;
    UnitMul(p, z1, z2);
    UnitMul(p, d, d);
    UnitMul(p, d * d, d);
    UnitMul(p, 2 * dx, f);
    EqScale(p, h, dx * (d * d), 2 * d);
    assert (2 * d) * (dx * (d * d)) == 2 * dx * f;
  }

  // ----- the double is the tangent construction

  /** (x3, y3) is where the tangent of slope `l` meets the curve again, mirrored. */
  ghost predicate Tangent(p: int, x: int, y: int, l: int, x3: int, y3: int) {
    Eq(p, l * (2 * y), 3 * (x * x)) && x3 == l * l - x - x && y3 == l * (x - x3) - y
  }

  lemma DoubleParts(p: int, x: int, y: int, z: int, ax: int, ay: int, l: int)
    requires Rep(p, x, y, z, ax, ay) && Eq(p, l * (2 * ay), 3 * (ax * ax))
    ensures var w := 2 * ay * (z * z * z * z);
            && Eq(p, 3 * (x * x), l * w) && Eq(p, 4 * (x * (y * y)), ax * (w * w))
            && Eq(p, (8 * ((y * y) * (y * y))), ay * (w * w * w)) && Eq(p, 2 * (y * z), w)
  {
    hide Eq, Unit;
    var e, f, g := z * z, z * z * z, z * z * z * z;
    var w := 2 * ay * g;
    assert g == e * e && g == z * f;
    DoubleE(p, x, ax, e, ay, l, w);
    FourthPower(z, ax, ay);
    DoubleD(p, x, y, e, f, ax, ay, w * w);
    EighthPower(z, ay);
    DoubleC(p, y, f, ay, w * w * w);
    DoubleZ(p, y, z, f, ay, w);
  }

  lemma DoubleD(p: int, x: int, y: int, e: int, f: int, ax: int, ay: int, v: int)
    requires Eq(p, x, ax * e) && Eq(p, y, ay * f) && 4 * ((ax * e) * ((ay * f) * (ay * f))) == ax * v
    ensures Eq(p, 4 * (x * (y * y)), ax * v)
  {
    hide Eq;
    EqMul(p, y, ay * f, y, ay * f);
    EqMul(p, x, ax * e, y * y, (ay * f) * (ay * f));
    EqScale(p, x * (y * y), (ax * e) * ((ay * f) * (ay * f)), 4);
  }

  lemma DoubleC(p: int, y: int, f: int, ay: int, v: int)
    requires Eq(p, y, ay * f) && 8 * (((ay * f) * (ay * f)) * ((ay * f) * (ay * f))) == ay * v
    ensures Eq(p, 8 * ((y * y) * (y * y)), ay * v)
  {
    hide Eq;
    EqMul(p, y, ay * f, y, ay * f);
    EqMul(p, y * y, (ay * f) * (ay * f), y * y, (ay * f) * (ay * f));
    EqScale(p, (y * y) * (y * y), ((ay * f) * (ay * f)) * ((ay * f) * (ay * f)), 8);
  }

  lemma DoubleZ(p: int, y: int, z: int, f: int, ay: int, w: int)
    requires Eq(p, y, ay * f) && w == 2 * ay * (z * f)
    ensures Eq(p, 2 * (y * z), w)
  {
    hide Eq;
    EqScale(p, y, ay * f, 2 * z);
    assert (2 * z) * y == 2 * (y * z) && (2 * z) * (ay * f) == w;
  }

  lemma DoubleE(p: int, x: int, ax: int, e: int, ay: int, l: int, w: int)
    requires Eq(p, x, ax * e) && Eq(p, l * (2 * ay), 3 * (ax * ax)) && w == 2 * ay * (e * e)
    ensures Eq(p, 3 * (x * x), l * w)
  {
    hide Eq;
    EqMul(p, x, ax * e, x, ax * e);
    EqScale(p, x * x, (ax * e) * (ax * e), 3);
    EqSym(p, l * (2 * ay), 3 * (ax * ax));
    EqScale(p, 3 * (ax * ax), l * (2 * ay), e * e);
    assert 3 * ((ax * e) * (ax * e)) == 3 * (ax * ax) * (e * e);
    assert l * (2 * ay) * (e * e) == l * w;
    EqTrans(p, 3 * (x * x), 3 * (ax * ax) * (e * e), l * w);
  }

  lemma FourthPower(z: int, ax: int, ay: int)
    ensures var f, w := z * z * z, 2 * ay * (z * z * z * z);
            4 * ((ax * (z * z)) * ((ay * f) * (ay * f))) == ax * (w * w)
  {
    var f, g := z * z * z, z * z * z * z;
    assert (z * z) * (f * f) == g * g;
    assert (ay * f) * (ay * f) == (ay * ay) * (f * f);
    assert (2 * ay * g) * (2 * ay * g) == 4 * ((ay * ay) * (g * g));
    assert (ax * (z * z)) * ((ay * ay) * (f * f)) == ax * ((ay * ay) * ((z * z) * (f * f)));
  }

  lemma EighthPower(z: int, ay: int)
    ensures var f, w := z * z * z, 2 * ay * (z * z * z * z);
            8 * (((ay * f) * (ay * f)) * ((ay * f) * (ay * f))) == ay * (w * w * w)
  {
    var f, g, b := z * z * z, z * z * z * z, ay * ay;
    var ff, gg := f * f, g * g;
    assert ff * ff == gg * g by { Twelfth(z); }
    assert (ay * f) * (ay * f) == b * ff;
    assert (b * ff) * (b * ff) == (b * b) * (ff * ff);
    assert (2 * ay * g) * (2 * ay * g) == 4 * (b * gg);
    assert 4 * (b * gg) * (2 * ay * g) == 8 * ((b * ay) * (gg * g));
    assert ay * (8 * ((b * ay) * (gg * g))) == 8 * ((b * b) * (gg * g));
  }

  lemma Twelfth(z: int)
    ensures var f, g := z * z * z, z * z * z * z; (f * f) * (f * f) == (g * g) * g
  {
    var c := z * z;
    assert z * z * z * z == c * c;
    assert (z * z * z) * (z * z * z) == c * c * c;
    assert (c * c * c) * (c * c * c) == ((c * c) * (c * c)) * (c * c);
  }

  /** Doubling a represented point gives a representative of the tangent point. */
  lemma DoubleIsTangent(p: int, x: int, y: int, z: int, ax: int, ay: int, l: int, x3: int, y3: int)
    requires Rep(p, x, y, z, ax, ay) && Tangent(p, ax, ay, l, x3, y3) && Unit(p, 2 * ay)
    ensures var e, d, c := 3 * (x * x), 4 * (x * (y * y)), (y * y) * (y * y);
            Rep(p, DoubleX(e, d), DoubleY(e, d, c), 2 * (y * z), x3, y3)
  {
    hide Eq, Unit, DoubleX, DoubleY;
    var w := 2 * ay * (z * z * z * z);
    DoubleParts(p, x, y, z, ax, ay, l);
    var e, d, c := 3 * (x * x), 4 * (x * (y * y)), (y * y) * (y * y);
    DoubleForm(p, e, d, 8 * c, l, w, ax, ay, x3, y3);
    DoubleUnfold(e, d, c);
    assert Unit(p, w) by { DoubleUnit(p, z, ay); }
    RepSelf(p, x3, y3, w);
    RepEq(p, x3 * (w * w), y3 * (w * w * w), w, DoubleX(e, d), DoubleY(e, d, c), 2 * (y * z), x3, y3);
  }

  lemma DoubleUnfold(e: int, d: int, c: int)
    ensures DoubleX(e, d) == e * e - 2 * d && DoubleY(e, d, c) == e * (d - (e * e - 2 * d)) - 8 * c
  {
  }

  lemma DoubleUnit(p: int, z: int, ay: int)
    requires Unit(p, z) && Unit(p, 2 * ay)
    ensures Unit(p, 2 * ay * (z * z * z * z))
  {
    hide Eq, Unit;
    UnitMul(p, z, z);
    UnitMul(p, z * z, z);
    UnitMul(p, z * z * z, z);
    UnitMul(p, 2 * ay, z * z * z * z);
  }

  lemma DoubleForm(p: int, e: int, d: int, c: int, l: int, w: int, ax: int, ay: int, x3: int, y3: int)
    requires Eq(p, e, l * w) && Eq(p, d, ax * (w * w)) && Eq(p, c, ay * (w * w * w))
    requires x3 == l * l - ax - ax && y3 == l * (ax - x3) - ay
    ensures Eq(p, e * e - 2 * d, x3 * (w * w)) && Eq(p, e * (d - (e * e - 2 * d)) - c, y3 * (w * w * w))
  {
    DoubleFormX(p, e, d, l, w, w * w, ax, x3);
    DoubleFormY(p, e, d, e * e - 2 * d, c, l, w, w * w, ax, ay, x3, y3);
  }

  lemma DoubleFormX(p: int, e: int, d: int, l: int, w: int, v: int, ax: int, x3: int)
    requires Eq(p, e, l * w) && Eq(p, d, ax * v) && v == w * w && x3 == l * l - ax - ax
    ensures Eq(p, e * e - 2 * d, x3 * v)
  {
    hide Eq;
    EqMul(p, e, l * w, e, l * w);
    EqScale(p, d, ax * v, 2);
    EqAdd(p, e * e, (l * w) * (l * w), 2 * d, 2 * (ax * v));
    assert (l * w) * (l * w) == (l * l) * v;
    assert x3 * v == (l * l) * v - 2 * (ax * v);
  }

  lemma DoubleFormY(p: int, e: int, d: int, x: int, c: int, l: int, w: int, v: int, ax: int, ay: int, x3: int, y3: int)
    requires Eq(p, e, l * w) && Eq(p, d, ax * v) && Eq(p, x, x3 * v) && Eq(p, c, ay * (v * w))
    requires y3 == l * (ax - x3) - ay
    ensures Eq(p, e * (d - x) - c, y3 * (v * w))
  {
    hide Eq;
    EqAdd(p, d, ax * v, x, x3 * v);
    EqMul(p, e, l * w, d - x, ax * v - x3 * v);
    EqAdd(p, e * (d - x), (l * w) * (ax * v - x3 * v), c, ay * (v * w));
    assert (l * w) * (ax * v - x3 * v) == (l * (ax - x3)) * (v * w);
    assert y3 * (v * w) == (l * (ax - x3)) * (v * w) - ay * (v * w);
  }

  // ----- both constructions stay on the curve

  /** The cubic that vanishes where the line of slope `l` and offset `m` meets the curve. */
  ghost function Cubic(b: int, l: int, m: int, t: int): int {
    t * t * t + b - (l * t + m) * (l * t + m)
  }

  /** Up to a linear remainder, the cubic is the product over three points whose x add up to l^2. */
  lemma CubicRoots(b: int, l: int, m: int, x1: int, x2: int, x3: int, t: int)
    requires x1 + x2 + x3 == l * l
    ensures var c1, c0 := -2 * (l * m) - (x1 * x2 + x1 * x3 + x2 * x3), b - m * m + x1 * x2 * x3;
            Cubic(b, l, m, t) == (t - x1) * (t - x2) * (t - x3) + c1 * t + c0
  {
    assert (l * t + m) * (l * t + m) == (l * l) * (t * t) + 2 * (l * m) * t + m * m;
    assert (l * l) * (t * t) == x1 * (t * t) + x2 * (t * t) + x3 * (t * t);
    var s1, s2, s3 := x1 + x2, x1 * x2, x3;
    assert (t - x1) * (t - x2) == t * t - s1 * t + s2;
    assert (t * t - s1 * t + s2) * (t - s3) == t * t * t - s1 * (t * t) + s2 * t - s3 * (t * t) + s3 * s1 * t - s2 * s3;
    assert s3 * s1 * t == (x1 * x3 + x2 * x3) * t;
  }

  lemma LinearZero(p: int, c1: int, c0: int, x1: int, x2: int, x3: int)
    requires Unit(p, x2 - x1) && Eq(p, c1 * x1 + c0, 0) && Eq(p, c1 * x2 + c0, 0)
    ensures Eq(p, c1 * x3 + c0, 0)
  {
    hide Eq, Unit;
    EqAdd(p, c1 * x2 + c0, 0, c1 * x1 + c0, 0);
    assert c1 * x2 + c0 - (c1 * x1 + c0) == (x2 - x1) * c1 && (x2 - x1) * 0 == 0;
    Cancel(p, x2 - x1, c1, 0);
    LineZero(p, c1, c0, x1, x3);
  }

  lemma LineZero(p: int, c1: int, c0: int, x1: int, x3: int)
    requires Eq(p, c1, 0) && Eq(p, c1 * x1 + c0, 0)
    ensures Eq(p, c1 * x3 + c0, 0)
  {
    hide Eq;
    EqScale(p, c1, 0, x3 - x1);
    EqAdd(p, c1 * x1 + c0, 0, c1 * (x3 - x1), 0);
    assert c1 * x1 + c0 + c1 * (x3 - x1) == c1 * x3 + c0;
  }

  lemma CurveCubic(p: int, b: int, l: int, m: int, x: int, y: int)
    requires Eq(p, y, l * x + m) || Eq(p, y, -(l * x + m))
    ensures BitCurve(p, b).OnCurve(x, y) <==> Eq(p, Cubic(b, l, m, x), 0)
  {
    hide Eq;
    var n := l * x + m;
    if Eq(p, y, n) {
      EqMul(p, y, n, y, n);
    } else {
      EqMul(p, y, -n, y, -n);
      assert (-n) * (-n) == n * n;
    }
    var w := x * x * x + b;
    if Eq(p, y * y, w) {
      EqSym(p, y * y, n * n);
      EqTrans(p, n * n, y * y, w);
      EqSelf(p, w);
      EqSym(p, n * n, w);
      EqAdd(p, w, n * n, n * n, n * n) by { EqSelf(p, n * n); }
    }
    if Eq(p, w - n * n, 0) {
      EqSelf(p, n * n);
      EqAdd(p, w - n * n, 0, n * n, n * n);
      EqSym(p, w, n * n);
      EqTrans(p, y * y, n * n, w);
    }
  }

  /** The chord point of two curve points is on the curve. */
  lemma ChordOnCurve(p: int, b: int, x1: int, y1: int, x2: int, y2: int, l: int, x3: int, y3: int)
    requires BitCurve(p, b).OnCurve(x1, y1) && BitCurve(p, b).OnCurve(x2, y2)
    requires Chord(p, x1, y1, x2, y2, l, x3, y3) && Unit(p, x2 - x1)
    ensures BitCurve(p, b).OnCurve(x3, y3)
  {
    hide Eq, Unit, Cubic, BitCurve.OnCurve;
    var m := y1 - l * x1;
    var c1, c0 := -2 * (l * m) - (x1 * x2 + x1 * x3 + x2 * x3), b - m * m + x1 * x2 * x3;
    CubicRoots(b, l, m, x1, x2, x3, x1);
    CubicRoots(b, l, m, x1, x2, x3, x2);
    CubicRoots(b, l, m, x1, x2, x3, x3);
    EqSelf(p, y1);
    CurveCubic(p, b, l, m, x1, y1);
    EqSelf(p, y1);
    EqAdd(p, l * (x2 - x1), y2 - y1, y1, y1);
    assert l * (x2 - x1) + y1 == l * x2 + m;
    EqSym(p, l * x2 + m, y2);
    CurveCubic(p, b, l, m, x2, y2);
    LinearZero(p, c1, c0, x1, x2, x3);
    assert y3 == -(l * x3 + m);
    EqSelf(p, y3);
    CurveCubic(p, b, l, m, x3, y3);
  }

  /** The tangent point of a curve point is on the curve. */
  lemma TangentOnCurve(p: int, b: int, x: int, y: int, l: int, x3: int, y3: int)
    requires BitCurve(p, b).OnCurve(x, y) && Tangent(p, x, y, l, x3, y3)
    ensures BitCurve(p, b).OnCurve(x3, y3)
  {
    hide Eq, Cubic, BitCurve.OnCurve;
    var m := y - l * x;
    var c1, c0 := -2 * (l * m) - (x * x + x * x3 + x * x3), b - m * m + x * x * x3;
    CubicRoots(b, l, m, x, x, x3, x);
    CubicRoots(b, l, m, x, x, x3, x3);
    EqSelf(p, y);
    CurveCubic(p, b, l, m, x, y);
    Derivative(p, l, x, y, x3);
    LineZero(p, c1, c0, x, x3);
    assert y3 == -(l * x3 + m);
    EqSelf(p, y3);
    CurveCubic(p, b, l, m, x3, y3);
  }

  /** The slope is that of the curve, so the remainder has no linear part. */
  lemma Derivative(p: int, l: int, x: int, y: int, x3: int)
    requires Eq(p, l * (2 * y), 3 * (x * x)) && x3 == l * l - x - x
    ensures Eq(p, -2 * (l * (y - l * x)) - (x * x + x * x3 + x * x3), 0)
  {
    hide Eq;
    assert l * (y - l * x) == l * y - l * l * x;
    assert x * x3 == l * l * x - 2 * (x * x);
    assert -2 * (l * (y - l * x)) - (x * x + x * x3 + x * x3) == 3 * (x * x) - l * (2 * y);
    EqSelf(p, 3 * (x * x));
    EqAdd(p, 3 * (x * x), 3 * (x * x), l * (2 * y), 3 * (x * x));
  }

  // ----- the curve in use (section 2.7.1 of SEC 2)

  const FIELD: int := 0xFFFFFFFFFFFFFFFFFFFFFFFFFFFFFFFFFFFFFFFFFFFFFFFFFFFFFFFEFFFFFC2F
  const BASE_X: int := 0x79BE667EF9DCBBAC55A06295CE870B07029BFCDB2DCE28D959F2815B16F81798
  const BASE_Y: int := 0x483ADA7726A3C4655DA4FBFC0E1108A8FD17B448A68554199C47D08FFB10D4B8

  function S256(): BitCurve {
    BitCurve(FIELD, 7)
  }

  lemma BasePoint()
    ensures S256().OnCurve(BASE_X, BASE_Y)
  {
    assert (BASE_Y * BASE_Y) % FIELD == (BASE_X * BASE_X * BASE_X + 7) % FIELD;
    EqModIff(FIELD, BASE_Y * BASE_Y, BASE_X * BASE_X * BASE_X + 7);
  }

  lemma NoInverse(p: int)
    requires p > 1
    ensures !Unit(p, 0)
  {
    hide Unit;
    if Unit(p, 0) {
      UnitNonzero(p, 0);
    }
  }

  /** The base point has no sum with itself, and a point on the x axis no double. */
  method NoResult() returns (sum: Option<(int, int)>, double: Option<(int, int)>)
    ensures S256().OnCurve(BASE_X, BASE_Y) && sum.None?
    ensures BitCurve(7, 6).OnCurve(1, 0) && double.None?
  {
    hide Unit, Chord, Tangent, BitCurve.OnCurve;
    BasePoint();
    NoInverse(FIELD);
    sum := S256().Add(BASE_X, BASE_Y, BASE_X, BASE_Y);
    AxisPoint();
    NoInverse(7);
    double := BitCurve(7, 6).Double(1, 0);
  }

  lemma AxisPoint()
    ensures BitCurve(7, 6).OnCurve(1, 0)
  {
    EqModIff(7, 0, 7);
  }

  /** Over an odd prime field there is a sum exactly for points with different x, and a double
      exactly for points off the x axis. */
  lemma PrimeField(p: int, x1: int, x2: int, y: int)
    requires Prime(p) && p > 2
    ensures Unit(p, 2 * (x2 - x1)) <==> x1 % p != x2 % p
    ensures Unit(p, 2 * y) <==> y % p != 0
  {
    hide Eq, Unit;
    UnitMul(p, 2, x2 - x1);
    UnitMul(p, 2, y);
    PrimeUnits(p, 2);
    PrimeUnits(p, x2 - x1);
    PrimeUnits(p, y);
    assert 2 % p == 2;
    DiffZero(p, x1, x2);
  }

  lemma DiffZero(p: int, x1: int, x2: int)
    requires p > 0
    ensures (x2 - x1) % p == 0 <==> x1 % p == x2 % p
  {
    hide Eq;
    DiffEq(p, x1, x2);
    EqModIff(p, x2 - x1, 0);
    EqModIff(p, x1, x2);
  }

  lemma DiffEq(p: int, x1: int, x2: int)
    ensures Eq(p, x2 - x1, 0) <==> Eq(p, x1, x2)
  {
    hide Eq;
    EqSelf(p, x1);
    if Eq(p, x2 - x1, 0) {
      EqAdd(p, x2 - x1, 0, x1, x1);
      EqSym(p, x2, x1);
    }
    if Eq(p, x1, x2) {
      EqSym(p, x1, x2);
      EqAdd(p, x2, x1, x1, x1);
    }
  }
}
