/**
 * BBMC, the semantic residue: `B = I - G + m * c^2` between an input vector I
 * and a ground vector G, optionally after L2-normalising both, and its norm.
 */
module Bbmc {
  import opened Numerics

  /** The defaults of `compute_residue`. */
  const DefaultM: real := 0.1
  const DefaultC: real := 0.5

  /** The `ValueError` raised when I and G differ in shape. */
  datatype BbmcError = ShapeMismatch

  /** The result dictionary: `B_norm` always, `B_vec` only when requested. */
  datatype Residue = Residue(bNorm: real, bVec: Option<seq<real>>)

  /** `_safe_normalise`: `v / ||v||`, or `v` itself when its norm is zero. */
  function SafeNormalise(mx: MathFns, v: seq<real>): (r: seq<real>)
    ensures |r| == |v|
  {
    var n := Norm(mx, v);
    if n == 0.0 then v else Scale(1.0 / n, v)
  }

  /** The uniform bias `m * c ** 2` added to every component. */
  function Bias(m: real, c: real): (r: real)
    ensures r == 0.0 <==> m == 0.0 || c == 0.0
    ensures m >= 0.0 ==> r >= 0.0
  {
    MulZeroIff(c, c);
    MulZeroIff(m, c * c);
    m * (c * c)
  }

  /** `input_vec - ground_vec + m * c ** 2` on vectors of one length. */
  function ResidueVector(i: seq<real>, g: seq<real>, m: real, c: real): (b: seq<real>)
    requires |i| == |g|
    ensures |b| == |i|
  {
    seq(|i|, k requires 0 <= k < |i| => i[k] - g[k] + Bias(m, c))
  }

  /** The two vectors after the optional normalisation step. */
  function Prepared(mx: MathFns, v: seq<real>, normalise: bool): (r: seq<real>)
    ensures |r| == |v|
  {
    if normalise then SafeNormalise(mx, v) else v
  }

  /** `compute_residue`. */
  function ComputeResidue(mx: MathFns, i: seq<real>, g: seq<real>, m: real, c: real,
                          normalise: bool, returnVector: bool): (r: Result<Residue, BbmcError>)
    ensures r.Err? <==> |i| != |g|
    ensures r.Ok? ==> (r.value.bVec.Some? <==> returnVector)
    ensures r.Ok? && returnVector ==> |r.value.bVec.value| == |i|
    ensures r.Ok? && returnVector ==> r.value.bNorm == Norm(mx, r.value.bVec.value)
    ensures r.Ok? && Lawful(mx) ==> r.value.bNorm >= 0.0
  {
    if |i| != |g| then Err(ShapeMismatch)
    else
      var b := ResidueVector(Prepared(mx, i, normalise), Prepared(mx, g, normalise), m, c);
      Ok(Residue(Norm(mx, b), if returnVector then Some(b) else None))
  }

  // ---------------------------------------------------------------- lemmas

  /** Without normalisation each component is `I[k] - G[k] + m * c * c`. */
  lemma ResidueComponents(mx: MathFns, i: seq<real>, g: seq<real>, m: real, c: real, k: int)
    requires |i| == |g| && 0 <= k < |i|
    ensures var r := ComputeResidue(mx, i, g, m, c, false, true);
      r.Ok? && r.value.bVec.Some? && r.value.bVec.value[k] == i[k] - g[k] + m * (c * c)
  {
    var b := ResidueVector(i, g, m, c);
    assert Prepared(mx, i, false) == i && Prepared(mx, g, false) == g;
    assert ComputeResidue(mx, i, g, m, c, false, true).value.bVec.value == b;
    assert b[k] == i[k] - g[k] + Bias(m, c);
  }

  /**
   * The bias is one scalar added to every component: differences between
   * components of B are the differences of the (prepared) I - G.
   */
  lemma BiasIsUniform(mx: MathFns, i: seq<real>, g: seq<real>, m: real, c: real,
                      normalise: bool, j: int, k: int)
    requires |i| == |g| && 0 <= j < |i| && 0 <= k < |i|
    ensures var r := ComputeResidue(mx, i, g, m, c, normalise, true);
      var i', g' := Prepared(mx, i, normalise), Prepared(mx, g, normalise);
      r.Ok? && r.value.bVec.Some? &&
      r.value.bVec.value[j] - r.value.bVec.value[k] == (i'[j] - g'[j]) - (i'[k] - g'[k])
  {
  }

  /** Identical vectors and a zero bias give the zero residue and `B_norm = 0`. */
  lemma EqualInputsZeroResidue(mx: MathFns, v: seq<real>, m: real, c: real, normalise: bool)
    requires Lawful(mx) && Bias(m, c) == 0.0
    ensures var r := ComputeResidue(mx, v, v, m, c, normalise, true);
      r.Ok? && r.value.bVec.Some? && AllZero(r.value.bVec.value) && r.value.bNorm == 0.0
  {
    var p := Prepared(mx, v, normalise);
    var b := ResidueVector(p, p, m, c);
    assert AllZero(b);
    NormZeroIff(mx, b);
  }

  /** `_safe_normalise` leaves a zero-norm vector as it is, and otherwise yields a unit vector. */
  lemma SafeNormaliseUnit(mx: MathFns, v: seq<real>)
    requires Lawful(mx)
    ensures AllZero(v) ==> SafeNormalise(mx, v) == v
    ensures !AllZero(v) ==> Norm(mx, SafeNormalise(mx, v)) == 1.0
  {
    NormZeroIff(mx, v);
    if !AllZero(v) {
      var n := Norm(mx, v);
      var q := SumSq(v);
      assert n * n == q;
      var a := 1.0 / n;
      var u := Scale(a, v);
      assert SafeNormalise(mx, v) == u;
      SumSqScale(v, a);
      assert SumSq(u) == a * a * q;
      InverseSquare(n, q);
      assert SumSq(u) == 1.0;
      SqrtOfOne(mx);
      assert Norm(mx, u) == mx.sqrt(1.0);
    }
  }

  lemma InverseSquare(n: real, q: real)
    requires n != 0.0 && n * n == q
    ensures (1.0 / n) * (1.0 / n) * q == 1.0
  {
  }

  lemma SqrtOfOne(mx: MathFns)
    requires Lawful(mx)
    ensures mx.sqrt(1.0) == 1.0
  {
    SqrtUnique(mx.sqrt(1.0), 1.0);
  }

  /** Negating both vectors negates the residue's direction but keeps its norm, when `m * c^2 = 0`. */
  lemma NegationKeepsNorm(mx: MathFns, i: seq<real>, g: seq<real>, m: real, c: real, normalise: bool)
    requires Lawful(mx) && |i| == |g| && Bias(m, c) == 0.0
    ensures var r, r' := ComputeResidue(mx, i, g, m, c, normalise, false),
                         ComputeResidue(mx, Scale(-1.0, i), Scale(-1.0, g), m, c, normalise, false);
      r.Ok? && r'.Ok? && r'.value.bNorm == r.value.bNorm
  {
    var pi, pg := Prepared(mx, i, normalise), Prepared(mx, g, normalise);
    PreparedNegated(mx, i, normalise);
    PreparedNegated(mx, g, normalise);
    var b := ResidueVector(pi, pg, m, c);
    var b' := ResidueVector(Scale(-1.0, pi), Scale(-1.0, pg), m, c);
    forall k | 0 <= k < |b| ensures b'[k] == Scale(-1.0, b)[k] {
      assert b'[k] == -pi[k] - -pg[k] + 0.0;
      assert b[k] == pi[k] - pg[k] + 0.0;
    }
    assert b' == Scale(-1.0, b);
    NormNegated(mx, b);
  }

  lemma PreparedNegated(mx: MathFns, v: seq<real>, normalise: bool)
    ensures Prepared(mx, Scale(-1.0, v), normalise) == Scale(-1.0, Prepared(mx, v, normalise))
  {
    if normalise {
      var n := Norm(mx, v);
      NormNegated(mx, v);
      if n != 0.0 {
        var a := 1.0 / n;
        var l, r := Scale(a, Scale(-1.0, v)), Scale(-1.0, Scale(a, v));
        forall k | 0 <= k < |v| ensures l[k] == r[k] {
          assert l[k] == a * (-1.0 * v[k]);
          assert r[k] == -1.0 * (a * v[k]);
        }
      }
    }
  }
}
