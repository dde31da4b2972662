/** The filter that smooths the trajectory of a response's length. */
module Kalman {

  /** Multiplication under a name, so that a proof can hide it. */
  function Mul(x: real, y: real): real {
    x * y
  }

  lemma MulConstants(y: real)
    ensures Mul(1.0, y) == Mul(y, 1.0) == y
    ensures Mul(0.0, y) == Mul(y, 0.0) == 0.0
    ensures Mul(0.5, y) == Mul(y, 0.5) == 0.5 * y
  {}

  // -- Matrices as lists of rows ------------------------------------------------

  type Matrix = seq<seq<real>>

  predicate Shape(m: Matrix, rows: nat, cols: nat) {
    |m| == rows && forall i :: 0 <= i < rows ==> |m[i]| == cols
  }

  /** The first `n` terms of entry (i, j) of a product. */
  function Dot(a: Matrix, b: Matrix, i: nat, j: nat, n: nat): real
    requires i < |a| && n <= |a[i]| && n <= |b| && forall k :: 0 <= k < |b| ==> j < |b[k]|
  {
    if n == 0 then 0.0 else Dot(a, b, i, j, n - 1) + Mul(a[i][n - 1], b[n - 1][j])
  }

  function Product(a: Matrix, b: Matrix, rows: nat, inner: nat, cols: nat): (p: Matrix)
    requires Shape(a, rows, inner) && Shape(b, inner, cols)
    ensures Shape(p, rows, cols)
  {
    seq(rows, i requires 0 <= i < rows => seq(cols, j requires 0 <= j < cols => Dot(a, b, i, j, inner)))
  }

  function Plus(a: Matrix, b: Matrix, rows: nat, cols: nat): (p: Matrix)
    requires Shape(a, rows, cols) && Shape(b, rows, cols)
    ensures Shape(p, rows, cols)
  {
    seq(rows, i requires 0 <= i < rows => seq(cols, j requires 0 <= j < cols => a[i][j] + b[i][j]))
  }

  function Minus(a: Matrix, b: Matrix, rows: nat, cols: nat): (p: Matrix)
    requires Shape(a, rows, cols) && Shape(b, rows, cols)
    ensures Shape(p, rows, cols)
  {
    seq(rows, i requires 0 <= i < rows => seq(cols, j requires 0 <= j < cols => a[i][j] - b[i][j]))
  }

  function Transposed(m: Matrix, rows: nat, cols: nat): (t: Matrix)
    requires Shape(m, rows, cols)
    ensures Shape(t, cols, rows)
  {
    seq(cols, i requires 0 <= i < cols => seq(rows, j requires 0 <= j < rows => m[j][i]))
  }

  /** The triple loop of the product. */
  method MatMul(a: Matrix, b: Matrix) returns (p: Matrix)
    requires |a| > 0 && |b| > 0 && Shape(a, |a|, |b|) && Shape(b, |b|, |b[0]|)
    ensures p == Product(a, b, |a|, |b|, |b[0]|)
  {
    var rowsA, colsA, colsB := |a|, |a[0]|, |b[0]|;
    ghost var product := Product(a, b, rowsA, colsA, colsB);
    p := seq(rowsA, _ => seq(colsB, _ => 0.0));
    for i := 0 to rowsA
      invariant |p| == rowsA
      invariant forall r :: 0 <= r < i ==> p[r] == product[r]
      invariant forall r :: i <= r < rowsA ==> |p[r]| == colsB
    {
      for j := 0 to colsB
        invariant |p| == rowsA
        invariant forall r :: 0 <= r < i ==> p[r] == product[r]
        invariant forall r :: i <= r < rowsA ==> |p[r]| == colsB
        invariant forall c :: 0 <= c < j ==> p[i][c] == product[i][c]
      {
        var s := 0.0;
        for k := 0 to colsA
          invariant s == Dot(a, b, i, j, k)
        {
          s := s + Mul(a[i][k], b[k][j]);
        }
        p := p[i := p[i][j := s]];
      }
      assert p[i] == product[i];
    }
  }

  // -- One step of the filter ------------------------------------------------------

  const F: Matrix := [[1.0, 1.0, 0.5], [0.0, 1.0, 1.0], [0.0, 0.0, 1.0]]
  const H: Matrix := [[1.0, 0.0, 0.0]]
  const Q: Matrix := [[1.0, 0.0, 0.0], [0.0, 1.0, 0.0], [0.0, 0.0, 5.0]]
  const R: real := 25.0
  const IDENTITY: Matrix := [[1.0, 0.0, 0.0], [0.0, 1.0, 0.0], [0.0, 0.0, 1.0]]
  const P0: Matrix := [[100.0, 0.0, 0.0], [0.0, 100.0, 0.0], [0.0, 0.0, 100.0]]
  const X0: seq<real> := [0.0, 0.0, 0.0]

  predicate Square(p: Matrix) {
    Shape(p, 3, 3)
  }

  /** Length, velocity and acceleration, and their covariance. */
  datatype Filter = Filter(x: seq<real>, p: Matrix)

  predicate WellShaped(f: Filter) {
    |f.x| == 3 && Square(f.p)
  }

  const START: Filter := Filter(X0, P0)

  function PredictedX(x: seq<real>): (y: seq<real>)
    requires |x| == 3
    ensures |y| == 3
  {
    [Mul(F[0][0], x[0]) + Mul(F[0][1], x[1]) + Mul(F[0][2], x[2]),
     Mul(F[1][0], x[0]) + Mul(F[1][1], x[1]) + Mul(F[1][2], x[2]),
     Mul(F[2][0], x[0]) + Mul(F[2][1], x[1]) + Mul(F[2][2], x[2])]
  }

  /** F P F' + Q. */
  function PredictedP(p: Matrix): (q: Matrix)
    requires Square(p)
    ensures Square(q)
  {
    Plus(Product(Product(F, p, 3, 3, 3), Transposed(F, 3, 3), 3, 3, 3), Q, 3, 3)
  }

  /** H P H' + R. */
  function InnovationVariance(p: Matrix): real
    requires Square(p)
  {
    Product(Product(H, p, 1, 3, 3), Transposed(H, 1, 3), 1, 3, 1)[0][0] + R
  }

  function AtLeast(x: real, lo: real): real {
    if x < lo then lo else x
  }

  /** P H' / S, with S kept away from 0. */
  function Gain(p: Matrix): (k: Matrix)
    requires Square(p)
    ensures Shape(k, 3, 1)
  {
    GainFrom(Product(p, Transposed(H, 1, 3), 3, 3, 1), InnovationVariance(p))
  }

  function GainFrom(pht: Matrix, s: real): (k: Matrix)
    requires Shape(pht, 3, 1)
    ensures Shape(k, 3, 1)
  {
    var inverse := 1.0 / AtLeast(s, 0.0000000001);
    [[Mul(pht[0][0], inverse)], [Mul(pht[1][0], inverse)], [Mul(pht[2][0], inverse)]]
  }

  function UpdatedX(x: seq<real>, k: Matrix, z: real): (y: seq<real>)
    requires |x| == 3 && Shape(k, 3, 1)
    ensures |y| == 3
  {
    var innovation := z - (Mul(H[0][0], x[0]) + Mul(H[0][1], x[1]) + Mul(H[0][2], x[2]));
    [x[0] + Mul(k[0][0], innovation), x[1] + Mul(k[1][0], innovation), x[2] + Mul(k[2][0], innovation)]
  }

  /** (I - K H) P. */
  function UpdatedP(p: Matrix): (q: Matrix)
    requires Square(p)
    ensures Square(q)
  {
    Product(Minus(IDENTITY, Product(Gain(p), H, 3, 1, 3), 3, 3), p, 3, 3, 3)
  }

  datatype Operation = Predict | Update(z: real) | Reset

  function Step(f: Filter, op: Operation): (g: Filter)
    requires WellShaped(f)
    ensures WellShaped(g)
  {
    match op
    case Predict => Filter(PredictedX(f.x), PredictedP(f.p))
    case Update(z) => Filter(UpdatedX(f.x, Gain(f.p), z), UpdatedP(f.p))
    case Reset => START
  }

  function Run(ops: seq<Operation>): (f: Filter)
    ensures WellShaped(f)
  {
    if ops == [] then START else Step(Run(ops[..|ops| - 1]), ops[|ops| - 1])
  }

  // -- The covariance stays a covariance --------------------------------------------

  /** v' P v for v = (x, y, z) and P with rows (a, b, c), (d, e, f), (g, h, i). */
  function Form(a: real, b: real, c: real, d: real, e: real, f: real, g: real, h: real, i: real,
                x: real, y: real, z: real): real {
    Mul(x, Row(a, b, c, x, y, z)) + Mul(y, Row(d, e, f, x, y, z)) + Mul(z, Row(g, h, i, x, y, z))
  }

  function Row(a: real, b: real, c: real, x: real, y: real, z: real): real {
    a * x + b * y + c * z
  }

  function Quadratic(p: Matrix, x: real, y: real, z: real): real
    requires Square(p)
  {
    Form(p[0][0], p[0][1], p[0][2], p[1][0], p[1][1], p[1][2], p[2][0], p[2][1], p[2][2], x, y, z)
  }

  ghost predicate PositiveDefinite(p: Matrix)
    requires Square(p)
  {
    forall x: real, y: real, z: real :: (x != 0.0 || y != 0.0 || z != 0.0) ==> Quadratic(p, x, y, z) > 0.0
  }

  predicate Symmetric(p: Matrix)
    requires Square(p)
  {
    p[0][1] == p[1][0] && p[0][2] == p[2][0] && p[1][2] == p[2][1]
  }

  ghost predicate Covariance(p: Matrix) {
    Square(p) && Symmetric(p) && PositiveDefinite(p)
  }

  lemma DotOfThree(a: Matrix, b: Matrix, i: nat, j: nat)
    requires i < |a| && |a[i]| == 3 && |b| == 3 && forall k :: 0 <= k < |b| ==> j < |b[k]|
    ensures Dot(a, b, i, j, 3) == Mul(a[i][0], b[0][j]) + Mul(a[i][1], b[1][j]) + Mul(a[i][2], b[2][j])
  {
    hide Mul;
    assert Dot(a, b, i, j, 1) == Mul(a[i][0], b[0][j]);
    assert Dot(a, b, i, j, 2) == Mul(a[i][0], b[0][j]) + Mul(a[i][1], b[1][j]);
  }

  lemma TimesF(p: Matrix, j: nat)
    requires Square(p) && j < 3
    ensures var fp := Product(F, p, 3, 3, 3);
      && fp[0][j] == p[0][j] + p[1][j] + 0.5 * p[2][j]
      && fp[1][j] == p[1][j] + p[2][j]
      && fp[2][j] == p[2][j]
  {
    hide Mul;
    DotOfThree(F, p, 0, j);
    DotOfThree(F, p, 1, j);
    DotOfThree(F, p, 2, j);
    MulConstants(p[0][j]);
    MulConstants(p[1][j]);
    MulConstants(p[2][j]);
  }

  lemma TimesTransposedF(m: Matrix, i: nat)
    requires Square(m) && i < 3
    ensures var mf := Product(m, Transposed(F, 3, 3), 3, 3, 3);
      && mf[i][0] == m[i][0] + m[i][1] + 0.5 * m[i][2]
      && mf[i][1] == m[i][1] + m[i][2]
      && mf[i][2] == m[i][2]
  {
    hide Mul;
    DotOfThree(m, Transposed(F, 3, 3), i, 0);
    DotOfThree(m, Transposed(F, 3, 3), i, 1);
    DotOfThree(m, Transposed(F, 3, 3), i, 2);
    MulConstants(m[i][0]);
    MulConstants(m[i][1]);
    MulConstants(m[i][2]);
  }

  /** Row `i` of F P F' + Q, given rows of F P. */
  lemma PredictedRow(p: Matrix, i: nat)
    requires Square(p) && i < 3
    ensures var q, fp := PredictedP(p), Product(F, p, 3, 3, 3);
      && q[i][0] == fp[i][0] + fp[i][1] + 0.5 * fp[i][2] + Q[i][0]
      && q[i][1] == fp[i][1] + fp[i][2] + Q[i][1]
      && q[i][2] == fp[i][2] + Q[i][2]
  {
    TimesTransposedF(Product(F, p, 3, 3, 3), i);
  }

  /** Predicting pulls the quadratic form back along F and adds Q. */
  lemma PredictedForm(a: real, b: real, c: real, d: real, e: real, f: real, g: real, h: real, i: real,
                      x: real, y: real, z: real)
    ensures
      var r, s, t := a + d + 0.5 * g, b + e + 0.5 * h, c + f + 0.5 * i;
      Form(r + s + 0.5 * t + 1.0, s + t, t,
           d + g + e + h + 0.5 * (f + i), e + h + f + i + 1.0, f + i,
           g + h + 0.5 * i, h + i, i + 5.0, x, y, z)
      == Form(a, b, c, d, e, f, g, h, i, x, x + y, 0.5 * x + y + z) + Mul(x, x) + Mul(y, y) + 5.0 * Mul(z, z)
  {}

  lemma PredictedQuadratic(p: Matrix, x: real, y: real, z: real)
    requires Square(p)
    ensures Quadratic(PredictedP(p), x, y, z)
      == Quadratic(p, x, x + y, 0.5 * x + y + z) + Mul(x, x) + Mul(y, y) + 5.0 * Mul(z, z)
    ensures Symmetric(p) ==> Symmetric(PredictedP(p))
  {
    hide PredictedP, Form, Product, Mul;
    TimesF(p, 0);
    TimesF(p, 1);
    TimesF(p, 2);
    PredictedRow(p, 0);
    PredictedRow(p, 1);
    PredictedRow(p, 2);
    PredictedForm(p[0][0], p[0][1], p[0][2], p[1][0], p[1][1], p[1][2], p[2][0], p[2][1], p[2][2], x, y, z);
  }

  lemma PredictKeepsCovariance(p: Matrix)
    requires Covariance(p)
    ensures Covariance(PredictedP(p))
  {
    hide PredictedP, Form, Mul;
    var q := PredictedP(p);
    PredictedQuadratic(p, 0.0, 0.0, 0.0);
    forall x: real, y: real, z: real | x != 0.0 || y != 0.0 || z != 0.0
      ensures Quadratic(q, x, y, z) > 0.0
    {
      PredictedQuadratic(p, x, y, z);
      NonNegativeQuadratic(p, x, x + y, 0.5 * x + y + z);
      Positive(x);
      Positive(y);
      Positive(z);
    }
  }

  lemma NonNegativeQuadratic(p: Matrix, x: real, y: real, z: real)
    requires Covariance(p)
    ensures Quadratic(p, x, y, z) >= 0.0
  {
    if x == 0.0 && y == 0.0 && z == 0.0 {
      ZeroForm(p[0][0], p[0][1], p[0][2], p[1][0], p[1][1], p[1][2], p[2][0], p[2][1], p[2][2]);
    }
  }

  lemma ZeroForm(a: real, b: real, c: real, d: real, e: real, f: real, g: real, h: real, i: real)
    ensures Form(a, b, c, d, e, f, g, h, i, 0.0, 0.0, 0.0) == 0.0
    ensures Form(a, b, c, d, e, f, g, h, i, 1.0, 0.0, 0.0) == a
  {}

  lemma VarianceIsPositive(p: Matrix)
    requires Covariance(p)
    ensures p[0][0] > 0.0
  {
    ZeroForm(p[0][0], p[0][1], p[0][2], p[1][0], p[1][1], p[1][2], p[2][0], p[2][1], p[2][2]);
    assert Quadratic(p, 1.0, 0.0, 0.0) > 0.0;
  }

  /** With a covariance, S exceeds R, so the guard against division by zero is inert. */
  lemma GainEntries(p: Matrix)
    requires Square(p) && p[0][0] > 0.0
    ensures InnovationVariance(p) == p[0][0] + R > R
    ensures forall i: nat :: i < 3 ==> Gain(p)[i][0] == Mul(p[i][0], 1.0 / (p[0][0] + R))
  {
    hide Mul;
    var hp, ht := Product(H, p, 1, 3, 3), Transposed(H, 1, 3);
    DotOfThree(H, p, 0, 0);
    DotOfThree(H, p, 0, 1);
    DotOfThree(H, p, 0, 2);
    forall j: nat, i: nat | j < 3 && i < 3
      ensures Mul(1.0, p[i][j]) == Mul(p[i][j], 1.0) == p[i][j] && Mul(0.0, p[i][j]) == Mul(p[i][j], 0.0) == 0.0
    {
      MulConstants(p[i][j]);
    }
    DotOfThree(hp, ht, 0, 0);
    DotOfThree(p, ht, 0, 0);
    DotOfThree(p, ht, 1, 0);
    DotOfThree(p, ht, 2, 0);
  }

  lemma IdentityMinusGain(k: Matrix, i: nat)
    requires Shape(k, 3, 1) && i < 3
    ensures var m := Minus(IDENTITY, Product(k, H, 3, 1, 3), 3, 3);
      && m[i][0] == IDENTITY[i][0] - k[i][0]
      && m[i][1] == IDENTITY[i][1]
      && m[i][2] == IDENTITY[i][2]
  {
    hide Mul;
    forall c: nat | c < 3
      ensures Dot(k, H, i, c, 1) == Mul(k[i][0], H[0][c])
    {
      assert Dot(k, H, i, c, 1) == Dot(k, H, i, c, 0) + Mul(k[i][0], H[0][c]);
    }
    MulConstants(k[i][0]);
  }

  lemma UpdatedEntries(p: Matrix, j: nat)
    requires Square(p) && j < 3
    ensures var k, q := Gain(p), UpdatedP(p);
      && q[0][j] == p[0][j] - Mul(k[0][0], p[0][j])
      && q[1][j] == p[1][j] - Mul(k[1][0], p[0][j])
      && q[2][j] == p[2][j] - Mul(k[2][0], p[0][j])
  {
    hide Mul, Gain;
    var k := Gain(p);
    var m := Minus(IDENTITY, Product(k, H, 3, 1, 3), 3, 3);
    IdentityMinusGain(k, 0);
    IdentityMinusGain(k, 1);
    IdentityMinusGain(k, 2);
    DotOfThree(m, p, 0, j);
    DotOfThree(m, p, 1, j);
    DotOfThree(m, p, 2, j);
    MulConstants(p[0][j]);
    MulConstants(p[1][j]);
    MulConstants(p[2][j]);
    MulOneMinus(k[0][0], p[0][j]);
    MulOneMinus(k[1][0], p[0][j]);
    MulOneMinus(k[2][0], p[0][j]);
  }

  lemma MulOneMinus(k: real, y: real)
    ensures Mul(1.0 - k, y) == y - Mul(k, y)
    ensures Mul(0.0 - k, y) == -Mul(k, y)
  {}

  /** The update in its symmetric form: shifting v by t along the measured axis and
  paying R for the shift. */
  lemma UpdatedForm(
    a: real, b: real, c: real, d: real, e: real, f: real, s: real, w: real, x: real, y: real, z: real, t: real
  )
    requires s == a + R && w * s == 1.0 && t * s == Row(a, b, c, x, y, z)
    ensures
      var i, j, k := Mul(a, w), Mul(b, w), Mul(c, w);
      Form(a - Mul(i, a), b - Mul(i, b), c - Mul(i, c),
           b - Mul(j, a), d - Mul(j, b), e - Mul(j, c),
           c - Mul(k, a), e - Mul(k, b), f - Mul(k, c), x, y, z)
      == Form(a, b, c, b, d, e, c, e, f, x - t, y, z) + R * Mul(t, t)
  {
    hide Mul, Row;
    RowShrinks(a, b, c, Mul(a, w), a, b, c, x, y, z);
    RowShrinks(b, d, e, Mul(b, w), a, b, c, x, y, z);
    RowShrinks(c, e, f, Mul(c, w), a, b, c, x, y, z);
    Joseph(a, b, c, d, e, f, s, w, x, y, z, t);
  }

  lemma RowShrinks(r0: real, r1: real, r2: real, k: real, a: real, b: real, c: real, x: real, y: real, z: real)
    ensures Row(r0 - Mul(k, a), r1 - Mul(k, b), r2 - Mul(k, c), x, y, z)
      == Row(r0, r1, r2, x, y, z) - Mul(k, Row(a, b, c, x, y, z))
  {}

  lemma Joseph(
    a: real, b: real, c: real, d: real, e: real, f: real, s: real, w: real, x: real, y: real, z: real, t: real
  )
    requires s == a + R && w * s == 1.0 && t * s == Row(a, b, c, x, y, z)
    ensures var u := Row(a, b, c, x, y, z);
      Mul(x, u - Mul(Mul(a, w), u))
      + Mul(y, Row(b, d, e, x, y, z) - Mul(Mul(b, w), u))
      + Mul(z, Row(c, e, f, x, y, z) - Mul(Mul(c, w), u))
      == Form(a, b, c, b, d, e, c, e, f, x - t, y, z) + R * Mul(t, t)
  {
    var u := a * x + b * y + c * z;
    Inverse(w, s, t, u);
    assert (a * w) * u == a * t && (b * w) * u == b * t && (c * w) * u == c * t;
    assert x * (a * t) + y * (b * t) + z * (c * t) == t * u;
    assert t * u == t * t * a + R * (t * t) by {
      assert t * u == t * (t * (a + R));
    }
  }

  lemma Inverse(w: real, s: real, t: real, u: real)
    requires w * s == 1.0 && t * s == u
    ensures w * u == t
  {
    assert w * u == w * (t * s) == t * (w * s);
  }

  lemma UpdatedQuadratic(p: Matrix, x: real, y: real, z: real, t: real)
    requires Square(p) && Symmetric(p) && p[0][0] > 0.0
    requires t * (p[0][0] + R) == p[0][0] * x + p[0][1] * y + p[0][2] * z
    ensures Quadratic(UpdatedP(p), x, y, z) == Quadratic(p, x - t, y, z) + R * Mul(t, t)
  {
    hide Mul, Form, UpdatedP, Gain;
    GainEntries(p);
    UpdatedEntries(p, 0);
    UpdatedEntries(p, 1);
    UpdatedEntries(p, 2);
    UpdatedForm(p[0][0], p[0][1], p[0][2], p[1][1], p[1][2], p[2][2], p[0][0] + R, 1.0 / (p[0][0] + R), x, y, z, t);
  }

  lemma UpdatedIsSymmetric(p: Matrix)
    requires Square(p) && Symmetric(p) && p[0][0] > 0.0
    ensures Symmetric(UpdatedP(p))
  {
    hide Mul, UpdatedP, Gain;
    GainEntries(p);
    UpdatedEntries(p, 0);
    UpdatedEntries(p, 1);
    UpdatedEntries(p, 2);
    var w := 1.0 / (p[0][0] + R);
    MulSwaps(p[0][0], w, p[0][1]);
    MulSwaps(p[0][0], w, p[0][2]);
    MulSwaps(p[0][1], w, p[0][2]);
  }

  lemma MulSwaps(x: real, w: real, y: real)
    ensures Mul(Mul(x, w), y) == Mul(Mul(y, w), x)
  {}

  lemma UpdateKeepsCovariance(p: Matrix)
    requires Covariance(p)
    ensures Covariance(UpdatedP(p))
  {
    hide Form, UpdatedP, Mul;
    var q := UpdatedP(p);
    VarianceIsPositive(p);
    UpdatedIsSymmetric(p);
    forall x: real, y: real, z: real | x != 0.0 || y != 0.0 || z != 0.0
      ensures Quadratic(q, x, y, z) > 0.0
    {
      var t := (p[0][0] * x + p[0][1] * y + p[0][2] * z) / (p[0][0] + R);
      assert t * (p[0][0] + R) == p[0][0] * x + p[0][1] * y + p[0][2] * z;
      UpdatedQuadratic(p, x, y, z, t);
      NonNegativeQuadratic(p, x - t, y, z);
      Positive(t);
      assert x - t != 0.0 || y != 0.0 || z != 0.0 || t != 0.0;
    }
  }

  lemma StartIsCovariance()
    ensures Covariance(P0)
  {
    hide Form;
    forall x: real, y: real, z: real | x != 0.0 || y != 0.0 || z != 0.0
      ensures Quadratic(P0, x, y, z) > 0.0
    {
      StartForm(x, y, z);
    }
  }

  lemma StartForm(x: real, y: real, z: real)
    requires x != 0.0 || y != 0.0 || z != 0.0
    ensures Form(100.0, 0.0, 0.0, 0.0, 100.0, 0.0, 0.0, 0.0, 100.0, x, y, z) > 0.0
  {
    hide Form, Mul;
    StartFormExpands(x, y, z);
    Positive(x);
    Positive(y);
    Positive(z);
  }

  lemma StartFormExpands(x: real, y: real, z: real)
    ensures Form(100.0, 0.0, 0.0, 0.0, 100.0, 0.0, 0.0, 0.0, 100.0, x, y, z)
      == 100.0 * Mul(x, x) + 100.0 * Mul(y, y) + 100.0 * Mul(z, z)
  {}

  lemma Positive(x: real)
    ensures Mul(x, x) >= 0.0
    ensures x != 0.0 ==> Mul(x, x) > 0.0
  {
    if x < 0.0 {
      PositiveProduct(-x, -x);
      assert Mul(-x, -x) == Mul(x, x);
    } else if x > 0.0 {
      PositiveProduct(x, x);
    }
  }

  lemma PositiveProduct(x: real, y: real)
    requires x > 0.0 && y > 0.0
    ensures Mul(x, y) > 0.0
  {}

  /** Over every run, P is symmetric and positive definite. */
  lemma {:induction false} RunKeepsCovariance(ops: seq<Operation>)
    ensures Covariance(Run(ops).p)
  {
    if ops == [] {
      StartIsCovariance();
    } else {
      RunKeepsCovariance(ops[..|ops| - 1]);
      match ops[|ops| - 1]
      case Predict => PredictKeepsCovariance(Run(ops[..|ops| - 1]).p);
      case Update(_) => UpdateKeepsCovariance(Run(ops[..|ops| - 1]).p);
      case Reset => StartIsCovariance();
    }
  }

  /** What that buys at every update: the guard never fires, the gain of the measured
  component lies strictly between 0 and 1, and its variance falls below both its
  predicted value and the measurement's. */
  lemma UpdateContracts(ops: seq<Operation>)
    ensures Contracts(Run(ops).p)
  {
    RunKeepsCovariance(ops);
    CovarianceContracts(Run(ops).p);
  }

  predicate Contracts(p: Matrix)
    requires Square(p)
  {
    && InnovationVariance(p) > R
    && 0.0 < Gain(p)[0][0] < 1.0
    && 0.0 < UpdatedP(p)[0][0] < p[0][0]
    && UpdatedP(p)[0][0] < R
  }

  lemma CovarianceContracts(p: Matrix)
    requires Covariance(p)
    ensures Contracts(p)
  {
    hide Mul, UpdatedP, Gain, Form, InnovationVariance;
    VarianceIsPositive(p);
    GainEntries(p);
    UpdatedEntries(p, 0);
    Contraction(p[0][0], 1.0 / (p[0][0] + R));
  }

  lemma Contraction(a: real, w: real)
    requires a > 0.0 && w * (a + R) == 1.0
    ensures var k := Mul(a, w);
      && 0.0 < k < 1.0
      && 0.0 < a - Mul(k, a) < a
      && a - Mul(k, a) < R
  {
    hide Mul;
    var k, ka := Mul(a, w), Mul(Mul(a, w), a);
    PositiveFactor(w, a + R);
    PositiveProduct(a, w);
    PositiveProduct(k, a);
    Shares(a, w);
    Remainder(a, w);
    assert a - ka == R * k;
  }

  lemma Shares(a: real, w: real)
    requires w * (a + R) == 1.0
    ensures Mul(a, w) + R * w == 1.0
  {}

  lemma Remainder(a: real, w: real)
    requires Mul(a, w) + R * w == 1.0
    ensures a - Mul(Mul(a, w), a) == R * Mul(a, w)
  {
    var k := a * w;
    assert 1.0 - k == R * w;
    assert a - k * a == a * (1.0 - k);
    assert a * (R * w) == R * k;
  }

  lemma PositiveFactor(x: real, s: real)
    requires s > 0.0 && x * s > 0.0
    ensures x > 0.0
  {}

  // -- Smoothing is linear ------------------------------------------------------------

  function AfterSmoothing(f: Filter, zs: seq<real>): (g: Filter)
    requires WellShaped(f)
    ensures WellShaped(g)
    decreases |zs|
  {
    if zs == [] then f else AfterSmoothing(Step(Step(f, Predict), Update(zs[0])), zs[1..])
  }

  function Smoothed(f: Filter, zs: seq<real>): (s: seq<real>)
    requires WellShaped(f)
    ensures |s| == |zs|
    decreases |zs|
  {
    if zs == [] then []
    else
      var g := Step(Step(f, Predict), Update(zs[0]));
      [g.x[0]] + Smoothed(g, zs[1..])
  }

  /** `w` is the combination of `u` and `v` with weights `a` and `b`. */
  predicate Combination(a: real, u: seq<real>, b: real, v: seq<real>, w: seq<real>) {
    |u| == |v| == |w| && forall i :: 0 <= i < |w| ==> w[i] == Mul(a, u[i]) + Mul(b, v[i])
  }

  lemma CombinedInnovation(a: real, b: real, k: real, u: real, v: real, w: real, du: real, dv: real, dw: real)
    requires w == Mul(a, u) + Mul(b, v) && dw == Mul(a, du) + Mul(b, dv)
    ensures w + Mul(k, dw) == Mul(a, u + Mul(k, du)) + Mul(b, v + Mul(k, dv))
  {}

  lemma CombinedDifference(a: real, b: real, zu: real, zv: real, u: real, v: real)
    ensures Mul(a, zu) + Mul(b, zv) - (Mul(a, u) + Mul(b, v)) == Mul(a, zu - u) + Mul(b, zv - v)
  {}

  lemma StepIsLinear(a: real, b: real, f: Filter, g: Filter, h: Filter, zf: real, zg: real, zh: real)
    requires WellShaped(f) && WellShaped(g) && WellShaped(h) && zh == Mul(a, zf) + Mul(b, zg)
    requires f.p == g.p == h.p && Combination(a, f.x, b, g.x, h.x)
    ensures var f', g' := Step(Step(f, Predict), Update(zf)), Step(Step(g, Predict), Update(zg));
      var h' := Step(Step(h, Predict), Update(zh));
      f'.p == g'.p == h'.p && Combination(a, f'.x, b, g'.x, h'.x)
  {
    hide Mul, Gain, PredictedP, UpdatedP, PredictedX, UpdatedX, Combination;
    PredictionIsLinear(a, b, f.x, g.x, h.x);
    UpdateIsLinear(a, b, Gain(PredictedP(f.p)), PredictedX(f.x), PredictedX(g.x), PredictedX(h.x), zf, zg, zh);
  }

  lemma PredictedXEntries(x: seq<real>)
    requires |x| == 3
    ensures PredictedX(x) == [x[0] + x[1] + 0.5 * x[2], x[1] + x[2], x[2]]
  {
    hide Mul;
    MulConstants(x[0]);
    MulConstants(x[1]);
    MulConstants(x[2]);
  }

  lemma PredictionIsLinear(a: real, b: real, u: seq<real>, v: seq<real>, w: seq<real>)
    requires |w| == 3 && Combination(a, u, b, v, w)
    ensures Combination(a, PredictedX(u), b, PredictedX(v), PredictedX(w))
  {
    hide Mul, PredictedX;
    PredictedXEntries(u);
    PredictedXEntries(v);
    PredictedXEntries(w);
    CombinedSum(a, b, u[0], u[1], u[2], v[0], v[1], v[2]);
  }

  lemma CombinedSum(a: real, b: real, u0: real, u1: real, u2: real, v0: real, v1: real, v2: real)
    ensures (Mul(a, u0) + Mul(b, v0)) + (Mul(a, u1) + Mul(b, v1)) + 0.5 * (Mul(a, u2) + Mul(b, v2))
      == Mul(a, u0 + u1 + 0.5 * u2) + Mul(b, v0 + v1 + 0.5 * v2)
    ensures (Mul(a, u1) + Mul(b, v1)) + (Mul(a, u2) + Mul(b, v2)) == Mul(a, u1 + u2) + Mul(b, v1 + v2)
  {}

  lemma UpdatedXEntries(x: seq<real>, k: Matrix, z: real)
    requires |x| == 3 && Shape(k, 3, 1)
    ensures forall i :: 0 <= i < 3 ==> UpdatedX(x, k, z)[i] == x[i] + Mul(k[i][0], z - x[0])
  {
    hide Mul;
    MulConstants(x[0]);
    MulConstants(x[1]);
    MulConstants(x[2]);
  }

  lemma UpdateIsLinear(
    a: real, b: real, k: Matrix, u: seq<real>, v: seq<real>, w: seq<real>, zu: real, zv: real, zw: real
  )
    requires |w| == 3 && Shape(k, 3, 1) && Combination(a, u, b, v, w) && zw == Mul(a, zu) + Mul(b, zv)
    ensures Combination(a, UpdatedX(u, k, zu), b, UpdatedX(v, k, zv), UpdatedX(w, k, zw))
  {
    hide Mul, UpdatedX;
    UpdatedXEntries(u, k, zu);
    UpdatedXEntries(v, k, zv);
    UpdatedXEntries(w, k, zw);
    CombinedDifference(a, b, zu, zv, u[0], v[0]);
    forall i | 0 <= i < 3
      ensures UpdatedX(w, k, zw)[i] == Mul(a, UpdatedX(u, k, zu)[i]) + Mul(b, UpdatedX(v, k, zv)[i])
    {
      CombinedInnovation(a, b, k[i][0], u[i], v[i], w[i], zu - u[0], zv - v[0], zw - w[0]);
    }
  }

  lemma {:induction false} SmoothingCombines(
    a: real, b: real, f: Filter, g: Filter, h: Filter, us: seq<real>, vs: seq<real>, ws: seq<real>
  )
    requires WellShaped(f) && WellShaped(g) && WellShaped(h)
    requires f.p == g.p == h.p && Combination(a, f.x, b, g.x, h.x)
    requires Combination(a, us, b, vs, ws)
    ensures Combination(a, Smoothed(f, us), b, Smoothed(g, vs), Smoothed(h, ws))
    ensures Combination(a, AfterSmoothing(f, us).x, b, AfterSmoothing(g, vs).x, AfterSmoothing(h, ws).x)
    ensures AfterSmoothing(f, us).p == AfterSmoothing(g, vs).p == AfterSmoothing(h, ws).p
    decreases |us|
  {
    hide Step, Mul;
    if us != [] {
      StepIsLinear(a, b, f, g, h, us[0], vs[0], ws[0]);
      SmoothingCombines(a, b, Step(Step(f, Predict), Update(us[0])), Step(Step(g, Predict), Update(vs[0])),
                        Step(Step(h, Predict), Update(ws[0])), us[1..], vs[1..], ws[1..]);
    }
  }

  /** From reset, smoothing is a linear map of the measurements, in every output and
  in the final state, and the covariance depends only on how many there were. */
  lemma SmoothingIsLinear(a: real, us: seq<real>, b: real, vs: seq<real>, ws: seq<real>)
    requires Combination(a, us, b, vs, ws)
    ensures Combination(a, Smoothed(START, us), b, Smoothed(START, vs), Smoothed(START, ws))
    ensures Combination(a, AfterSmoothing(START, us).x, b, AfterSmoothing(START, vs).x, AfterSmoothing(START, ws).x)
    ensures AfterSmoothing(START, us).p == AfterSmoothing(START, vs).p
  {
    MulConstants(a);
    MulConstants(b);
    SmoothingCombines(a, b, START, START, START, us, vs, ws);
  }

  // -- What smoothing lists --------------------------------------------------------------

  /** Each smoothed length is the first component of the state that the filter has after the
  measurements so far. */
  lemma {:induction false} SmoothedIsTheLength(f: Filter, zs: seq<real>, t: nat)
    requires WellShaped(f) && t < |zs|
    ensures Smoothed(f, zs)[t] == AfterSmoothing(f, zs[..t + 1]).x[0]
    decreases t
  {
    hide Step;
    var g := Step(Step(f, Predict), Update(zs[0]));
    var first := zs[..t + 1];
    assert first[0] == zs[0] && first[1..] == zs[1..][..t];
    if t > 0 {
      SmoothedIsTheLength(g, zs[1..], t - 1);
    }
  }

  /** A prediction and an update for each measurement. */
  function Alternating(zs: seq<real>): seq<Operation> {
    if zs == [] then [] else Alternating(zs[..|zs| - 1]) + [Predict] + [Update(zs[|zs| - 1])]
  }

  lemma {:induction false} SmoothingOneMore(f: Filter, zs: seq<real>, z: real)
    requires WellShaped(f)
    ensures AfterSmoothing(f, zs + [z]) == Step(Step(AfterSmoothing(f, zs), Predict), Update(z))
    decreases |zs|
  {
    hide Step;
    if zs != [] {
      assert (zs + [z])[0] == zs[0] && (zs + [z])[1..] == zs[1..] + [z];
      SmoothingOneMore(Step(Step(f, Predict), Update(zs[0])), zs[1..], z);
    } else {
      assert zs + [z] == [z] && [z][1..] == [];
    }
  }

  lemma RunOneMore(ops: seq<Operation>, op: Operation)
    ensures Run(ops + [op]) == Step(Run(ops), op)
  {
    assert (ops + [op])[..|ops|] == ops;
  }

  lemma {:induction false} SmoothingIsARun(zs: seq<real>)
    ensures AfterSmoothing(START, zs) == Run(Alternating(zs))
  {
    hide Step, Run;
    if zs == [] {
      RunOfNothing();
    } else {
      var before, z := zs[..|zs| - 1], zs[|zs| - 1];
      SmoothingIsARun(before);
      assert before + [z] == zs;
      SmoothingOneMore(START, before, z);
      RunOneMore(Alternating(before), Predict);
      RunOneMore(Alternating(before) + [Predict], Update(z));
    }
  }

  lemma RunOfNothing()
    ensures Run([]) == START
  {}

  /** From reset, each smoothed length is the length that predicting and updating once for
  each measurement so far arrives at. */
  lemma SmoothedIsTheRunsLength(zs: seq<real>, t: nat)
    requires t < |zs|
    ensures Smoothed(START, zs)[t] == Run(Alternating(zs[..t + 1])).x[0]
  {
    hide Smoothed, AfterSmoothing, Alternating, Run;
    SmoothedIsTheLength(START, zs, t);
    SmoothingIsARun(zs[..t + 1]);
  }

  /** The first smoothed length lies strictly between 0 and a positive first measurement. */
  lemma FirstLengthIsBetween(zs: seq<real>)
    requires zs != [] && zs[0] > 0.0
    ensures 0.0 < Smoothed(START, zs)[0] < zs[0]
  {
    var f := Step(START, Predict);
    RunOfNothing();
    RunOneMore([], Predict);
    assert [] + [Predict] == [Predict];
    UpdateContracts([Predict]);
    StillAtRest();
    LengthMovesTowards(f.x, Gain(f.p), zs[0]);
  }

  lemma FirstVariance()
    ensures PredictedP(P0)[0][0] == 226.0
  {
    hide PredictedP;
    PredictedQuadratic(P0, 1.0, 0.0, 0.0);
    var q := PredictedP(P0);
    assert Quadratic(q, 1.0, 0.0, 0.0) == q[0][0] by {
      FormAtOne(q[0][0], q[0][1], q[0][2], q[1][0], q[1][1], q[1][2], q[2][0], q[2][1], q[2][2]);
    }
    StartFormExpands(1.0, 1.0, 0.5);
  }

  lemma FormAtOne(a: real, b: real, c: real, d: real, e: real, f: real, g: real, h: real, i: real)
    ensures Form(a, b, c, d, e, f, g, h, i, 1.0, 0.0, 0.0) == a
  {}

  /** And exactly: with these noise levels it is 226 parts in 251 of the measurement. */
  lemma FirstLengthIs(zs: seq<real>)
    requires zs != []
    ensures Smoothed(START, zs)[0] == zs[0] * 226.0 / 251.0
  {
    hide PredictedP, Gain, Mul;
    var f := Step(START, Predict);
    FirstVariance();
    GainEntries(f.p);
    StillAtRest();
    UpdatedXEntries(f.x, Gain(f.p), zs[0]);
    ShareOf(226.0, 251.0, zs[0]);
  }

  lemma ShareOf(a: real, b: real, z: real)
    requires b > 0.0
    ensures Mul(Mul(a, 1.0 / b), z) == z * a / b
  {}

  lemma StillAtRest()
    ensures PredictedX(X0) == X0
  {}

  /** An update moves the length towards the measurement by the share that the gain gives. */
  lemma LengthMovesTowards(x: seq<real>, k: Matrix, z: real)
    requires |x| == 3 && Shape(k, 3, 1) && 0.0 < k[0][0] < 1.0
    ensures x[0] < z ==> x[0] < UpdatedX(x, k, z)[0] < z
    ensures x[0] > z ==> x[0] > UpdatedX(x, k, z)[0] > z
    ensures x[0] == z ==> UpdatedX(x, k, z) == x
  {
    UpdatedXEntries(x, k, z);
    ShareOfGap(k[0][0], z - x[0]);
    if x[0] == z {
      NothingGained(k);
    }
  }

  lemma NothingGained(k: Matrix)
    requires Shape(k, 3, 1)
    ensures forall i :: 0 <= i < 3 ==> Mul(k[i][0], 0.0) == 0.0
  {}

  lemma ShareOfGap(k: real, gap: real)
    requires 0.0 < k < 1.0
    ensures gap > 0.0 ==> 0.0 < Mul(k, gap) < gap
    ensures gap < 0.0 ==> gap < Mul(k, gap) < 0.0
  {
    if gap > 0.0 {
      PositiveProduct(k, gap);
      PositiveProduct(1.0 - k, gap);
    } else if gap < 0.0 {
      PositiveProduct(k, -gap);
      PositiveProduct(1.0 - k, -gap);
    }
  }

  // -- What the filter predicts and how it corrects --------------------------------------------

  /** Where something with this length, velocity and acceleration is after `t` ticks. */
  function Moved(x: seq<real>, t: real): (y: seq<real>)
    requires |x| == 3
    ensures |y| == 3
  {
    [x[0] + x[1] * t + x[2] * t * t / 2.0, x[1] + x[2] * t, x[2]]
  }

  function Predictions(x: seq<real>, n: nat): (y: seq<real>)
    requires |x| == 3
    ensures |y| == 3
  {
    if n == 0 then x else PredictedX(Predictions(x, n - 1))
  }

  /** Predicting follows the law of constant acceleration, over any number of ticks. */
  lemma {:induction false} PredictionIsKinematic(x: seq<real>, n: nat)
    requires |x| == 3
    ensures Predictions(x, n) == Moved(x, n as real)
  {
    if n > 0 {
      PredictionIsKinematic(x, n - 1);
      OneMoreTick(x, (n - 1) as real);
      assert (n - 1) as real + 1.0 == n as real;
    } else {
      assert x == [x[0], x[1], x[2]];
    }
  }

  lemma OneMoreTick(x: seq<real>, t: real)
    requires |x| == 3
    ensures PredictedX(Moved(x, t)) == Moved(x, t + 1.0)
  {
    MulConstants(Moved(x, t)[0]);
    MulConstants(Moved(x, t)[1]);
    MulConstants(Moved(x, t)[2]);
    HalfSquare(x[2], t);
    assert x[1] * (t + 1.0) == x[1] * t + x[1];
    assert x[2] * (t + 1.0) == x[2] * t + x[2];
  }

  lemma HalfSquare(a: real, t: real)
    ensures a * (t + 1.0) * (t + 1.0) / 2.0 == a * t * t / 2.0 + a * t + a / 2.0
  {
    assert a * (t + 1.0) * (t + 1.0) == a * t * t + 2.0 * (a * t) + a;
  }

  /** The measurements of something that moves so. */
  function Trajectory(x: seq<real>, n: nat): (zs: seq<real>)
    requires |x| == 3
    ensures |zs| == n
    decreases n
  {
    if n == 0 then [] else [Moved(x, 1.0)[0]] + Trajectory(Moved(x, 1.0), n - 1)
  }

  /** A filter that knows where something is and how it moves is not disturbed by measuring
  it: the smoothed lengths are the measurements. */
  lemma {:induction false} ExactFilterStaysExact(f: Filter, n: nat)
    requires WellShaped(f) && Covariance(f.p)
    ensures Smoothed(f, Trajectory(f.x, n)) == Trajectory(f.x, n)
    decreases n
  {
    if n > 0 {
      var zs := Trajectory(f.x, n);
      var predicted := Step(f, Predict);
      PredictionIsKinematic(f.x, 1);
      assert Predictions(f.x, 1) == PredictedX(Predictions(f.x, 0)) == PredictedX(f.x);
      PredictKeepsCovariance(f.p);
      CovarianceContracts(predicted.p);
      LengthMovesTowards(predicted.x, Gain(predicted.p), zs[0]);
      UpdateKeepsCovariance(predicted.p);
      var g := Step(predicted, Update(zs[0]));
      ExactFilterStaysExact(g, n - 1);
      assert zs[1..] == Trajectory(g.x, n - 1);
    }
  }

  /** The corrected state balances the two sources: it leaves the prediction by what is still
  missing to the measurement, weighted by the covariances with the length over 25; and the
  corrected covariance solves the same equation. Nothing else does. */
  lemma UpdateBalances(x: seq<real>, p: Matrix, z: real, i: nat)
    requires |x| == 3 && Covariance(p) && i < 3
    ensures var y := UpdatedX(x, Gain(p), z); R * (y[i] - x[i]) == Mul(p[i][0], z - y[0])
    ensures forall j :: 0 <= j < 3 ==> R * (p[i][j] - UpdatedP(p)[i][j]) == Mul(p[i][0], UpdatedP(p)[0][j])
  {
    hide UpdatedP, UpdatedX, Gain, Mul;
    VarianceIsPositive(p);
    GainEntries(p);
    UpdatedXEntries(x, Gain(p), z);
    var w := 1.0 / (p[0][0] + R);
    Balance(p[i][0], p[0][0], w, z - x[0]);
    forall j | 0 <= j < 3
      ensures R * (p[i][j] - UpdatedP(p)[i][j]) == Mul(p[i][0], UpdatedP(p)[0][j])
    {
      UpdatedEntries(p, j);
      Balance(p[i][0], p[0][0], w, p[0][j]);
    }
  }

  lemma Balance(c: real, a: real, w: real, gap: real)
    requires w * (a + R) == 1.0
    ensures R * Mul(Mul(c, w), gap) == Mul(c, gap - Mul(Mul(a, w), gap))
  {
    Shares(a, w);
    var rest := gap - (a * w) * gap;
    assert rest == (R * w) * gap by {
      assert (a * w + R * w) * gap == gap;
      assert (a * w + R * w) * gap == (a * w) * gap + (R * w) * gap;
    }
    assert c * ((R * w) * gap) == R * ((c * w) * gap);
  }

  // -- The class ---------------------------------------------------------------------

  class ResponseKalmanFilter {
    var x: seq<real>
    var p: Matrix

    ghost predicate Valid()
      reads this
    {
      |x| == 3 && Covariance(p)
    }

    ghost function View(): Filter
      reads this
    {
      Filter(x, p)
    }

    constructor ()
      ensures Valid() && View() == START
    {
      x, p := X0, P0;
      new;
      StartIsCovariance();
    }

    method Predict() returns (estimate: seq<real>)
      requires Valid()
      modifies this
      ensures Valid() && View() == Step(old(View()), Operation.Predict) && estimate == x
    {
      PredictKeepsCovariance(p);
      x := PredictedX(x);
      var ft := Transposed(F, 3, 3);
      var fp := MatMul(F, p);
      var fpft := MatMul(fp, ft);
      p := Plus(fpft, Q, 3, 3);
      estimate := x;
    }

    method Update(z: real) returns (estimate: seq<real>)
      requires Valid()
      modifies this
      ensures Valid() && View() == Step(old(View()), Operation.Update(z)) && estimate == x
    {
      UpdateKeepsCovariance(p);
      var k := ComputeGain(p);
      x := UpdatedX(x, k, z);
      p := Shrink(p, k);
      estimate := x;
    }

    static method ComputeGain(p: Matrix) returns (k: Matrix)
      requires Square(p)
      ensures k == Gain(p)
    {
      var hp := MatMul(H, p);
      var ht := Transposed(H, 1, 3);
      var hpht := MatMul(hp, ht);
      var s := hpht[0][0] + R;
      assert s == InnovationVariance(p);
      var pht := MatMul(p, ht);
      k := GainFrom(pht, s);
    }

    static method Shrink(p: Matrix, k: Matrix) returns (q: Matrix)
      requires Square(p) && k == Gain(p)
      ensures q == UpdatedP(p)
    {
      var kh := MatMul(k, H);
      q := MatMul(Minus(IDENTITY, kh, 3, 3), p);
    }

    method Reset()
      modifies this
      ensures Valid() && View() == START
    {
      x, p := X0, P0;
      StartIsCovariance();
    }

    method Smooth(measurements: seq<real>) returns (smoothed: seq<real>)
      requires Valid()
      modifies this
      ensures Valid()
      ensures View() == AfterSmoothing(old(View()), measurements)
      ensures smoothed == Smoothed(old(View()), measurements)
      ensures forall t :: 0 <= t < |measurements| ==>
        smoothed[t] == AfterSmoothing(old(View()), measurements[..t + 1]).x[0]
    {
      hide Step;
      smoothed := [];
      for i := 0 to |measurements|
        invariant Valid()
        invariant AfterSmoothing(View(), measurements[i..]) == AfterSmoothing(old(View()), measurements)
        invariant smoothed + Smoothed(View(), measurements[i..]) == Smoothed(old(View()), measurements)
      {
        assert measurements[i..][0] == measurements[i] && measurements[i..][1..] == measurements[i + 1..];
        var length := Cycle(measurements[i]);
        smoothed := smoothed + [length];
      }
      forall t | 0 <= t < |measurements|
        ensures Smoothed(old(View()), measurements)[t] == AfterSmoothing(old(View()), measurements[..t + 1]).x[0]
      {
        SmoothedIsTheLength(old(View()), measurements, t);
      }
    }

    method Cycle(z: real) returns (length: real)
      requires Valid()
      modifies this
      ensures Valid() && length == x[0]
      ensures View() == Step(Step(old(View()), Operation.Predict), Operation.Update(z))
    {
      var _ := Predict();
      var state := Update(z);
      length := state[0];
    }
  }
}
