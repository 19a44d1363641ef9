/**
 * BBCR, collapse-rebirth: the collapse predicate, the bounded retry loop over
 * a state factory, and the Lyapunov-exponent estimate of an error trajectory.
 */
module Bbcr {
  import opened Numerics

  /** The defaults of `check_collapse` and `collapse_rebirth`. */
  const DefaultBc: real := 1.0
  const DefaultEps: real := 0.05
  const DefaultMaxRetries: int := 3

  /** The lower clip bound `1e-12` applied before taking logarithms. */
  const ClipFloor: real := 0.000000000001

  /** `return state` with `state` never assigned: `max_retries <= 0` runs no attempt. */
  datatype BbcrError = UnboundState

  /** `check_collapse`: collapse when the residue reaches `Bc` or the stability falls to `eps`. */
  predicate CheckCollapse(residueNorm: real, fS: real, bc: real, eps: real) {
    residueNorm >= bc || fS <= eps
  }

  /** `state.get("_collapse", False)`: a missing flag reads as "not collapsed". */
  predicate Collapsed(flag: Option<bool>) {
    flag == Some(true)
  }

  /**
   * `collapse_rebirth`. The factory is modelled by what its successive calls
   * return: `factory(k)` is the state produced by call number k (from 0), and
   * `flag` reads a state's `_collapse` entry. `calls` counts factory calls.
   */
  method CollapseRebirth<S>(factory: nat -> S, flag: S -> Option<bool>, maxRetries: int)
    returns (r: Result<S, BbcrError>, ghost calls: nat)
    ensures maxRetries <= 0 ==> r.Err? && r.error == UnboundState && calls == 0
    ensures maxRetries >= 1 ==> r.Ok? && 1 <= calls <= maxRetries && r.value == factory(calls - 1)
    ensures forall k :: 0 <= k < calls - 1 ==> Collapsed(flag(factory(k)))
    ensures r.Ok? ==> !Collapsed(flag(r.value)) || calls == maxRetries
  {
    calls := 0;
    var last: Option<S> := None;
    var attempt := 0;
    while attempt < maxRetries
      invariant 0 <= attempt && (attempt == 0 || attempt <= maxRetries)
      invariant calls == attempt
      invariant last == (if attempt == 0 then None else Some(factory(attempt - 1)))
      invariant forall k :: 0 <= k < attempt ==> Collapsed(flag(factory(k)))
    {
      var state := factory(attempt);
      calls := calls + 1;
      if !Collapsed(flag(state)) {
        return Ok(state), calls;
      }
      last := Some(state);
      attempt := attempt + 1;
    }
    r := if last.Some? then Ok(last.value) else Err(UnboundState);
  }

  /** `np.clip(x, 1e-12, None)`. */
  function Clip(x: real): (r: real)
    ensures r >= ClipFloor > 0.0
    ensures x >= ClipFloor ==> r == x
  {
    if x < ClipFloor then ClipFloor else x
  }

  /** `np.log(np.clip(trajectory, 1e-12, None))`. */
  function LogClipped(mx: MathFns, t: seq<real>): (r: seq<real>)
    ensures |r| == |t|
  {
    seq(|t|, i requires 0 <= i < |t| => mx.log(Clip(t[i])))
  }

  /** `np.diff`: successive differences, one fewer than the input. */
  function Diff(s: seq<real>): (d: seq<real>)
    ensures |d| == if |s| == 0 then 0 else |s| - 1
  {
    if |s| == 0 then [] else seq(|s| - 1, i requires 0 <= i < |s| - 1 => s[i + 1] - s[i])
  }

  /**
   * `compute_lyapunov`: the mean of the log-differences, which telescopes to
   * the log-ratio of the last and first (clipped) values over `n - 1` steps.
   */
  function ComputeLyapunov(mx: MathFns, t: seq<real>): (r: real)
    ensures |t| < 2 ==> r == 0.0
    ensures |t| >= 2 ==>
      r == (mx.log(Clip(t[|t| - 1])) - mx.log(Clip(t[0]))) / ((|t| - 1) as real)
  {
    if |t| < 2 then 0.0
    else
      var l := LogClipped(mx, t);
      DiffTelescopes(l);
      Mean(Diff(l))
  }

  // ---------------------------------------------------------------- lemmas

  lemma {:induction false} DiffTelescopes(s: seq<real>)
    requires |s| >= 1
    ensures Sum(Diff(s)) == s[|s| - 1] - s[0]
  {
    if |s| > 1 {
      var d := Diff(s);
      assert d[1..] == Diff(s[1..]);
      DiffTelescopes(s[1..]);
      assert Sum(d) == (s[1] - s[0]) + Sum(d[1..]);
    }
  }

  /** The estimate is positive exactly when the clipped last value exceeds the clipped first. */
  lemma LyapunovSign(mx: MathFns, t: seq<real>)
    requires Lawful(mx) && |t| >= 2
    ensures ComputeLyapunov(mx, t) > 0.0 <==> Clip(t[|t| - 1]) > Clip(t[0])
    ensures ComputeLyapunov(mx, t) < 0.0 <==> Clip(t[|t| - 1]) < Clip(t[0])
  {
    var a, b := Clip(t[0]), Clip(t[|t| - 1]);
    var n := (|t| - 1) as real;
    var diff := mx.log(b) - mx.log(a);
    assert ComputeLyapunov(mx, t) == diff / n;
    QuotientSign(diff, n);
    if a < b {
      assert mx.log(a) < mx.log(b);
    } else if b < a {
      assert mx.log(b) < mx.log(a);
    }
  }

  lemma QuotientSign(x: real, n: real)
    requires n > 0.0
    ensures x / n > 0.0 <==> x > 0.0
    ensures x / n < 0.0 <==> x < 0.0
  {
  }

  /** Collapse persists when the residue grows or the stability drops. */
  lemma CollapseIsMonotone(b: real, f: real, b': real, f': real, bc: real, eps: real)
    requires CheckCollapse(b, f, bc, eps) && b <= b' && f' <= f
    ensures CheckCollapse(b', f', bc, eps)
  {
  }

  /** The module's own smoke test: residue 1.2 with f_S 0.8 collapses; the trajectory contracts. */
  lemma DemoScenario(mx: MathFns)
    requires Lawful(mx)
    ensures CheckCollapse(1.2, 0.8, DefaultBc, DefaultEps)
    ensures CheckCollapse(1.5, 0.8, DefaultBc, DefaultEps)
    ensures ComputeLyapunov(mx, [0.3, 0.21, 0.15, 0.14]) < 0.0
  {
    var t := [0.3, 0.21, 0.15, 0.14];
    LyapunovSign(mx, t);
  }
}
