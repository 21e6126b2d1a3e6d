/**
  The one-dimensional searches of ImageRegistration/vtkPowellMinimizer.cxx: Brent's
  line minimisation (`PowellBrent`) and golden-ratio bracketing (`PowellBracket`).

  Both search along the line `p0 + u*vec` and write each probe into the parameter
  buffer `point` before asking the minimiser to evaluate the cost there.
 */
module Powell {
  import opened Minimizer
  import opened Reals

  /** The golden ratio conjugate used by both searches. */
  const Golden: real := 0.6180339887498949
  /** The fraction of the larger half-interval taken by a golden-section step. */
  const GoldenComplement: real := 1.0 - Golden
  /** The largest magnification the bracketing search allows. */
  const GrowLimit: real := 110.0
  /** The smallest parabola curvature term the bracketing search divides by. */
  const TinyValue: real := 0.000000000000000000001

  /** The point at parameter `u` on the search line. */
  function LinePoint(p0: seq<real>, vec: seq<real>, u: real): (pt: seq<real>)
    requires |p0| == |vec|
    ensures |pt| == |p0|
  {
    seq(|p0|, i requires 0 <= i < |p0| => p0[i] + u * vec[i])
  }

  /** Write the point at parameter `u` on the search line into the parameter buffer. */
  method SetLinePoint(point: array<real>, p0: seq<real>, vec: seq<real>, u: real)
    requires |p0| == |vec| == point.Length
    modifies point
    ensures point[..] == LinePoint(p0, vec, u)
  {
    var i := 0;
    while i < point.Length
      invariant 0 <= i <= point.Length
      invariant forall k :: 0 <= k < i ==> point[k] == p0[k] + u * vec[k]
    {
      point[i] := p0[i] + u * vec[i];
      i := i + 1;
    }
    assert forall k :: 0 <= k < point.Length ==> point[..][k] == LinePoint(p0, vec, u)[k];
  }

  /** Write the line point at `u` into the parameter buffer and evaluate the cost there. */
  method EvaluateAt(m: FunctionMinimizer, point: array<real>, p0: seq<real>, vec: seq<real>, u: real)
    returns (fu: real)
    requires |p0| == |vec| == point.Length
    modifies point, m
    ensures point[..] == LinePoint(p0, vec, u)
    ensures fu == m.f(LinePoint(p0, vec, u))
    ensures m.evaluations == old(m.evaluations) + 1
    ensures m.abortFlag == (old(m.abortFlag) || m.requestAbort(m.evaluations))
    ensures m.maxIterations == old(m.maxIterations)
  {
    SetLinePoint(point, p0, vec, u);
    fu := m.EvaluateFunction(point[..]);
  }

  // ---------------------------------------------------------------------------
  // Brent's step

  /** The numerator `p` and denominator `q` of a parabolic step `d = -p/q`. */
  datatype Parabola = Parabola(p: real, q: real)

  /**
    The parabola through (x,fx), (w,fw), (v,fv) as the source computes it, with the
    two products added in the numerator.
   */
  function ParabolaAsWritten(x: real, w: real, v: real, fx: real, fw: real, fv: real): Parabola
  {
    var r := (x - w) * (fx - fv);
    var q := (x - v) * (fx - fw);
    Parabola((x - v) * q + (x - w) * r, 2.0 * (q - r))
  }

  /** The parabola fit of Brent's method, with the two products subtracted. */
  function ParabolaFit(x: real, w: real, v: real, fx: real, fw: real, fv: real): Parabola
  {
    var r := (x - w) * (fx - fv);
    var q := (x - v) * (fx - fw);
    Parabola((x - v) * q - (x - w) * r, 2.0 * (q - r))
  }

  function Quadratic(alpha: real, mid: real, c: real, t: real): real
  {
    alpha * (t - mid) * (t - mid) + c
  }

  /**
    Through three distinct points of a parabola with vertex `mid`, the corrected fit
    has q != 0 and p == q*(x - mid), so the parabolic step -p/q is exactly mid - x.
   */
  lemma ParabolaFitFindsVertex(alpha: real, mid: real, c: real, x: real, w: real, v: real,
                                fx: real, fw: real, fv: real)
    requires alpha != 0.0 && x != w && x != v && w != v
    requires fx == Quadratic(alpha, mid, c, x) && fw == Quadratic(alpha, mid, c, w)
    requires fv == Quadratic(alpha, mid, c, v)
    ensures var fit := ParabolaFit(x, w, v, fx, fw, fv);
            fit.q != 0.0 && fit.p == fit.q * (x - mid)
  {
    var k := alpha * (x - w) * (x - v);
    NonZeroFactor(alpha, x - w, x - v, k);
    NonZeroProduct(2.0, k, w - v);
    DifferenceProducts(alpha, mid, c, x, w, v);
    FitOfDifferences(x, w, v, mid, k, fx, fw, fv);
  }

  /** The two cross products of the fit, for three points of a parabola. */
  lemma DifferenceProducts(alpha: real, mid: real, c: real, x: real, w: real, v: real)
    ensures var fx, fw, fv := Quadratic(alpha, mid, c, x), Quadratic(alpha, mid, c, w),
                              Quadratic(alpha, mid, c, v);
            (x - w) * (fx - fv) == (alpha * (x - w) * (x - v)) * (x + v - 2.0 * mid) &&
            (x - v) * (fx - fw) == (alpha * (x - w) * (x - v)) * (x + w - 2.0 * mid)
  {
    QuadraticDifference(alpha, mid, c, x, v);
    QuadraticDifference(alpha, mid, c, x, w);
    ProductRegroup(x - w, alpha, x - v, x + v - 2.0 * mid);
    ProductRegroup(x - v, alpha, x - w, x + w - 2.0 * mid);
    assert alpha * (x - v) * (x - w) == alpha * (x - w) * (x - v);
  }

  /** The fit in terms of the common factor k of its cross products. */
  lemma FitOfDifferences(x: real, w: real, v: real, mid: real, k: real, fx: real, fw: real, fv: real)
    requires (x - w) * (fx - fv) == k * (x + v - 2.0 * mid)
    requires (x - v) * (fx - fw) == k * (x + w - 2.0 * mid)
    ensures ParabolaFit(x, w, v, fx, fw, fv) == Parabola((2.0 * k * (w - v)) * (x - mid), 2.0 * k * (w - v))
  {
    VertexIdentity(x, w, v, mid, k);
  }

  lemma QuadraticDifference(alpha: real, mid: real, c: real, s: real, t: real)
    ensures Quadratic(alpha, mid, c, s) - Quadratic(alpha, mid, c, t)
         == alpha * (s - t) * (s + t - 2.0 * mid)
  {
  }

  lemma ProductRegroup(s: real, alpha: real, t: real, z: real)
    ensures s * (alpha * t * z) == (alpha * s * t) * z
  {
  }

  lemma VertexIdentity(x: real, w: real, v: real, mid: real, k: real)
    ensures (x - v) * (k * (x + w - 2.0 * mid)) - (x - w) * (k * (x + v - 2.0 * mid))
         == (2.0 * k * (w - v)) * (x - mid)
    ensures 2.0 * (k * (x + w - 2.0 * mid) - k * (x + v - 2.0 * mid)) == 2.0 * k * (w - v)
  {
  }

  lemma NonZeroFactor(alpha: real, s: real, t: real, k: real)
    requires alpha != 0.0 && s != 0.0 && t != 0.0 && k == alpha * s * t
    ensures k != 0.0
  {
    NonZeroProduct(alpha, s, t);
  }

  lemma NonZeroProduct(alpha: real, s: real, t: real)
    requires alpha != 0.0 && s != 0.0 && t != 0.0
    ensures alpha * s * t != 0.0
  {
  }

  /**
    The numerator as written does not reach the vertex: on f(u) = u*u (vertex 0) with
    x = 1, w = -2 and v = 3 it gives p = -84 and q = 60, a step -p/q = 1.4 to u = 2.4,
    while the fit gives p = 60, the step -1 to the minimum at 0.
   */
  lemma ParabolaAsWrittenMissesVertex()
    ensures var fit := ParabolaAsWritten(1.0, -2.0, 3.0, 1.0, 4.0, 9.0);
            fit == Parabola(-84.0, 60.0) && fit.p != fit.q * (1.0 - 0.0)
    ensures var fit := ParabolaFit(1.0, -2.0, 3.0, 1.0, 4.0, 9.0);
            fit == Parabola(60.0, 60.0) && fit.p == fit.q * (1.0 - 0.0)
  {
  }

  /** A step `d` together with the step `e` taken before it. */
  datatype Step = Step(d: real, e: real)

  /** A golden-section step into the larger of the two parts of [a, b]. */
  function GoldenSection(a: real, b: real, x: real, xc: real): Step
  {
    var e := (if x < xc then b else a) - x;
    Step(GoldenComplement * e, e)
  }

  /** The parabola with its denominator made non-negative, as the step uses it. */
  function Normalised(fit: Parabola): Parabola
  {
    Parabola(if fit.q > 0.0 then -fit.p else fit.p, Abs(fit.q))
  }

  /**
    A parabolic step is useful when it lands strictly inside (a, b) and is smaller
    than half of the step before last.
   */
  predicate Useful(a: real, b: real, x: real, etmp: real, n: Parabola)
  {
    n.p > n.q * (a - x) && n.p < n.q * (b - x) && Abs(n.p) < Abs(0.5 * n.q * etmp)
  }

  lemma DivisionBounds(p: real, q: real, lo: real, hi: real)
    requires q > 0.0 && q * lo < p < q * hi
    ensures lo < p / q < hi
  {
    var t := p / q;
    assert t * q == p;
    MulMonotone(lo, t, q);
    MulMonotone(t, hi, q);
  }

  /** Multiplying by a positive number keeps strict and non-strict comparisons. */
  lemma MulMonotone(s: real, t: real, c: real)
    requires c > 0.0
    ensures s < t <==> s * c < t * c
    ensures s <= t <==> s * c <= t * c
  {
    if s < t {
      assert (t - s) * c > 0.0;
    } else {
      assert (s - t) * c >= 0.0;
    }
  }

  /** A useful parabolic step lands strictly inside (a, b) and is shorter than |etmp|/2. */
  lemma UsefulStepInside(a: real, b: real, x: real, etmp: real, n: Parabola)
    requires Useful(a, b, x, etmp, n) && n.q >= 0.0
    ensures n.q > 0.0 && a < x + n.p / n.q < b
    ensures Abs(n.p / n.q) < Abs(etmp) / 2.0
  {
    DivisionBounds(n.p, n.q, a - x, b - x);
    UsefulStepShort(n.p, n.q, etmp);
  }

  lemma UsefulStepShort(p: real, q: real, etmp: real)
    requires q > 0.0 && Abs(p) < Abs(0.5 * q * etmp)
    ensures Abs(p / q) < Abs(etmp) / 2.0
  {
    var t := p / q;
    var h := 0.5 * etmp;
    assert t * q == p;
    assert 0.5 * q * etmp == h * q;
    AbsOfProduct(t, q);
    AbsOfProduct(h, q);
    var at, ah := Abs(t), Abs(h);
    assert Abs(p) == at * q;
    assert Abs(0.5 * q * etmp) == ah * q;
    CancelFactor(at, ah, q, Abs(p), Abs(0.5 * q * etmp));
    assert ah == Abs(etmp) / 2.0;
  }

  lemma CancelFactor(s: real, t: real, c: real, sc: real, tc: real)
    requires c > 0.0 && sc == s * c && tc == t * c && sc < tc
    ensures s < t
  {
    MulMonotone(s, t, c);
  }

  lemma AbsOfProduct(s: real, c: real)
    requires c > 0.0
    ensures Abs(s * c) == Abs(s) * c
  {
    if s < 0.0 {
      assert (0.0 - s) * c > 0.0;
      assert s * c == -((0.0 - s) * c);
    } else {
      assert s * c >= 0.0;
    }
  }

  /**
    The choice of the next step: golden section when the step before last was
    within tolerance or the parabola is not useful; otherwise the parabolic step,
    nudged to one tolerance towards the midpoint when it lands within 2*tol1 of
    either end.
   */
  function ChooseStep(a: real, b: real, x: real, xc: real, tol1: real, e: real, d: real,
                      fit: Parabola): (s: Step)
    ensures Abs(e) <= tol1 ==> s == GoldenSection(a, b, x, xc)
    ensures s != GoldenSection(a, b, x, xc) ==>
              Abs(e) > tol1 && s.e == d && Useful(a, b, x, e, Normalised(fit))
  {
    if Abs(e) <= tol1 then GoldenSection(a, b, x, xc)
    else
      var n := Normalised(fit);
      if Useful(a, b, x, e, n) then
        UsefulStepInside(a, b, x, e, n);
        var dp := n.p / n.q;
        var u := x + dp;
        if u - a < 2.0 * tol1 || b - u < 2.0 * tol1 then
          Step(if xc - x < 0.0 then -tol1 else tol1, d)
        else
          Step(dp, d)
      else
        GoldenSection(a, b, x, xc)
  }

  /** The probe: x + d, but always at least tol1 away from x. */
  function Probe(x: real, d: real, tol1: real): (u: real)
    ensures Abs(u - x) >= tol1
    ensures Abs(d) >= tol1 ==> u == x + d
  {
    if Abs(d) < tol1 then x + (if d < 0.0 then -tol1 else tol1) else x + d
  }

  /** The stopping test of Brent's loop, with xc the midpoint of [a, b]. */
  predicate BrentDone(a: real, b: real, x: real, tol1: real)
  {
    Abs(x - 0.5 * (a + b)) < 2.0 * tol1 - 0.5 * (b - a)
  }

  /** Brent's loop stops only once [a, b] is narrower than 4*tol1. */
  lemma BrentDoneNarrow(a: real, b: real, x: real, tol1: real)
    requires BrentDone(a, b, x, tol1)
    ensures b - a < 4.0 * tol1
  {
  }

  /**
    While the search goes on, every probe lies strictly inside the current bracket,
    whatever the parabola.
   */
  lemma ProbeInsideBracket(a: real, b: real, x: real, tol1: real, e: real, d: real, fit: Parabola)
    requires a <= x <= b && tol1 > 0.0 && !BrentDone(a, b, x, tol1)
    ensures var s := ChooseStep(a, b, x, 0.5 * (a + b), tol1, e, d, fit);
            a < Probe(x, s.d, tol1) < b
  {
    var xc := 0.5 * (a + b);
    var n := Normalised(fit);
    if Abs(e) > tol1 && Useful(a, b, x, e, n) {
      UsefulStepInside(a, b, x, e, n);
      ParabolicProbeInside(a, b, x, tol1, n.p / n.q, d);
    } else {
      GoldenProbeInside(a, b, x, tol1);
    }
  }

  /** The golden-section probe lies strictly inside the bracket. */
  lemma GoldenProbeInside(a: real, b: real, x: real, tol1: real)
    requires a <= x <= b && tol1 > 0.0 && !BrentDone(a, b, x, tol1)
    ensures a < Probe(x, GoldenSection(a, b, x, 0.5 * (a + b)).d, tol1) < b
  {
    var g := GoldenSection(a, b, x, 0.5 * (a + b));
    GoldenFraction(g.e);
    if x < 0.5 * (a + b) {
      assert g.e == b - x >= 2.0 * tol1;
    } else {
      assert g.e == a - x <= -2.0 * tol1;
    }
  }

  /** A golden-section step is a fraction of e strictly between 0 and e. */
  lemma GoldenFraction(e: real)
    ensures e > 0.0 ==> 0.0 < GoldenComplement * e < e
    ensures e < 0.0 ==> e < GoldenComplement * e < 0.0
  {
  }

  /**
    A parabolic step `dp` that lands inside the bracket, replaced by a step of tol1
    towards the middle when it lands within 2*tol1 of an end, gives a probe strictly
    inside the bracket.
   */
  lemma ParabolicProbeInside(a: real, b: real, x: real, tol1: real, dp: real, d: real)
    requires a <= x <= b && tol1 > 0.0 && !BrentDone(a, b, x, tol1)
    requires a < x + dp < b
    ensures var u := x + dp;
            var s := if u - a < 2.0 * tol1 || b - u < 2.0 * tol1
                     then Step(if 0.5 * (a + b) - x < 0.0 then -tol1 else tol1, d)
                     else Step(dp, d);
            a < Probe(x, s.d, tol1) < b
  {
    var xc := 0.5 * (a + b);
    assert x <= xc ==> b - x >= 2.0 * tol1;
    assert x >= xc ==> x - a >= 2.0 * tol1;
  }

  /** The state Brent's loop carries: bracket [a, b], the best three points and the last two steps. */
  datatype BrentState = BrentState(a: real, b: real, x: real, w: real, v: real,
                                   fx: real, fw: real, fv: real, e: real, d: real)

  /** The step chosen from the state, with the parabola through x, w and v fitted as written. */
  function NextStep(s: BrentState, tol1: real): Step
  {
    ChooseStep(s.a, s.b, s.x, 0.5 * (s.a + s.b), tol1, s.e, s.d,
               ParabolaAsWritten(s.x, s.w, s.v, s.fx, s.fw, s.fv))
  }

  /**
    The bookkeeping after evaluating fu at the probe u: a lower value moves x to u and
    shrinks the bracket to the side of u; a higher one shrinks the bracket to exclude u
    and may replace w or v.  x always keeps the lowest value found.
   */
  function Advance(s: BrentState, step: Step, u: real, fu: real): (r: BrentState)
    ensures r.e == step.e && r.d == step.d
    ensures r.fx <= s.fx
    ensures fu <= s.fx ==> r.x == u && r.fx == fu
    ensures fu > s.fx ==> r.x == s.x && r.fx == s.fx
    ensures s.a <= s.x <= s.b && s.a < u < s.b ==> s.a <= r.a <= r.x <= r.b <= s.b
  {
    if fu > s.fx then
      var a := if u < s.x then u else s.a;
      var b := if u < s.x then s.b else u;
      if fu <= s.fw || s.w == s.x then
        BrentState(a, b, s.x, u, s.w, s.fx, fu, s.fw, step.e, step.d)
      else if fu <= s.fv || s.v == s.x || s.v == s.w then
        BrentState(a, b, s.x, s.w, u, s.fx, s.fw, fu, step.e, step.d)
      else
        BrentState(a, b, s.x, s.w, s.v, s.fx, s.fw, s.fv, step.e, step.d)
    else
      var a := if u >= s.x then s.x else s.a;
      var b := if u >= s.x then s.b else s.x;
      BrentState(a, b, u, s.x, s.w, fu, s.fx, s.fw, step.e, step.d)
  }

  /** One iteration of Brent's loop that does not stop keeps x inside a bracket that only shrinks. */
  lemma AdvanceKeepsBracket(s: BrentState, tol1: real, fu: real)
    requires s.a <= s.x <= s.b && tol1 > 0.0 && !BrentDone(s.a, s.b, s.x, tol1)
    ensures var step := NextStep(s, tol1);
            var r := Advance(s, step, Probe(s.x, step.d, tol1), fu);
            s.a <= r.a <= r.x <= r.b <= s.b
  {
    ProbeInsideBracket(s.a, s.b, s.x, tol1, s.e, s.d, ParabolaAsWritten(s.x, s.w, s.v, s.fx, s.fw, s.fv));
  }

  /** A non-negative iteration limit, as a loop `ii < limit` counts it. */
  function Budget(limit: int): nat
  {
    if limit > 0 then limit else 0
  }

  /**
    PowellBrent: Brent's line minimisation inside `bracket`, starting from its middle
    point whose cost is `y0`.  The best cost never rises above y0, the returned cost
    belongs to the point left in `point`, the best point stays inside the bracket,
    at most MaxIterations evaluations are made, and none after the abort flag is set.
    The parabola is fitted as the source writes it, with the two products added
    (see ParabolaAsWrittenMissesVertex); every bound here holds for any parabola.
   */
  method PowellBrent(m: FunctionMinimizer, p0: seq<real>, y0: real, vec: seq<real>,
                     point: array<real>, bracket: seq<real>, tol: real)
    returns (fx: real, ghost xmin: real)
    requires |p0| == |vec| == point.Length && |bracket| == 3
    modifies point, m
    ensures fx <= y0
    ensures point[..] == LinePoint(p0, vec, xmin)
    ensures (xmin == bracket[1] && fx == y0) || fx == m.f(LinePoint(p0, vec, xmin))
    ensures tol > 0.0 && Min(bracket[0], bracket[2]) <= bracket[1] <= Max(bracket[0], bracket[2]) ==>
              Min(bracket[0], bracket[2]) <= xmin <= Max(bracket[0], bracket[2])
    ensures old(m.evaluations) <= m.evaluations <= old(m.evaluations) + Budget(m.maxIterations)
    ensures old(m.abortFlag) ==> m.evaluations == old(m.evaluations)
    ensures forall k :: old(m.evaluations) < k < m.evaluations ==> !m.requestAbort(k)
    ensures m.maxIterations == old(m.maxIterations)
  {
    var a := bracket[0];
    var b := bracket[2];
    if a > b {
      b := bracket[0];
      a := bracket[2];
    }
    ghost var lo, hi := a, b;
    ghost var inside := tol > 0.0 && a <= bracket[1] <= b;
    var x := bracket[1];
    var s := BrentState(a, b, x, x, x, y0, y0, y0, 0.0, 1.0);
    var ii := 0;
    while ii < m.maxIterations && !m.abortFlag
      invariant 0 <= ii <= Budget(m.maxIterations)
      invariant m.evaluations == old(m.evaluations) + ii
      invariant m.maxIterations == old(m.maxIterations)
      invariant s.fx <= y0
      invariant (s.x == bracket[1] && s.fx == y0) || s.fx == m.f(LinePoint(p0, vec, s.x))
      invariant inside ==> lo <= s.a <= s.x <= s.b <= hi
      invariant old(m.abortFlag) ==> m.abortFlag && ii == 0
      invariant ii > 0 && m.requestAbort(m.evaluations) ==> m.abortFlag
      invariant forall k :: old(m.evaluations) < k < m.evaluations ==> !m.requestAbort(k)
      decreases m.maxIterations - ii
      modifies point, m
    {
      var tol1 := tol + Abs(s.x) * 0.00000001;
      if BrentDone(s.a, s.b, s.x, tol1) {
        break;
      }
      var step := NextStep(s, tol1);
      var u := Probe(s.x, step.d, tol1);
      var fu := EvaluateAt(m, point, p0, vec, u);
      if inside {
        AdvanceKeepsBracket(s, tol1, fu);
      }
      s := Advance(s, step, u, fu);
      ii := ii + 1;
    }
    fx, xmin := s.fx, s.x;
    SetLinePoint(point, p0, vec, s.x);
  }

  function Min(s: real, t: real): real { if s <= t then s else t }
  function Max(s: real, t: real): real { if s >= t then s else t }

  // ---------------------------------------------------------------------------
  // Bracketing

  /** xb lies strictly between xa and xc. */
  predicate Ordered(xa: real, xb: real, xc: real)
  {
    (xa < xb < xc) || (xc < xb < xa)
  }

  /** A bracket of a minimum: xb strictly between the ends, with the lowest cost. */
  predicate IsBracket(xa: real, xb: real, xc: real, fa: real, fb: real, fc: real)
  {
    Ordered(xa, xb, xc) && fb <= fa && fb < fc
  }

  /**
    The start of PowellBracket: probe at 1 (0 was already evaluated as y0), name the
    two points so that the lower one is xb, and step beyond it by the golden ratio.
   */
  method BracketStart(m: FunctionMinimizer, p0: seq<real>, y0: real, vec: seq<real>,
                      point: array<real>)
    returns (xa: real, xb: real, xc: real, fa: real, fb: real, fc: real)
    requires |p0| == |vec| == point.Length
    modifies point, m
    ensures fb <= fa && Ordered(xa, xb, xc)
    ensures xa == 0.0 ==> xb == 1.0 && fa == y0 && fb == m.f(LinePoint(p0, vec, 1.0))
    ensures xa != 0.0 ==> xa == 1.0 && xb == 0.0 && fa == m.f(LinePoint(p0, vec, 1.0)) && fb == y0
    ensures xc == xb + Golden * (xb - xa)
    ensures fc == m.f(LinePoint(p0, vec, xc)) && point[..] == LinePoint(p0, vec, xc)
    ensures m.evaluations == old(m.evaluations) + 2 && m.maxIterations == old(m.maxIterations)
  {
    fa := y0;
    xa := 0.0;
    xb := 1.0;
    fb := EvaluateAt(m, point, p0, vec, xb);
    if fa < fb {
      xa := xb;
      xb := 0.0;
      fa := fb;
      fb := y0;
    }
    xc := xb + Golden * (xb - xa);
    fc := EvaluateAt(m, point, p0, vec, xc);
  }

  /** The trial point of a bracketing pass, its growth limit and the divisor used. */
  datatype Trial = Trial(w: real, wlim: real, denom: real)

  function BracketTrial(xa: real, xb: real, xc: real, fa: real, fb: real, fc: real): (t: Trial)
    ensures t.denom >= 2.0 * TinyValue
    ensures t.wlim - xb == GrowLimit * (xc - xb)
  {
    var tmp1 := (xb - xa) * (fb - fc);
    var tmp2 := (xb - xc) * (fb - fa);
    var val := tmp2 - tmp1;
    var clamped := if val < TinyValue then TinyValue else val;
    var denom := 2.0 * clamped;
    Trial(xb - ((xb - xc) * tmp2 - (xb - xa) * tmp1) / denom, xb + GrowLimit * (xc - xb), denom)
  }

  /**
    When its curvature term is not clamped, the trial point of a bracketing pass is the
    vertex of the parabola through the three points.
   */
  lemma BracketTrialFindsVertex(alpha: real, mid: real, c: real, xa: real, xb: real, xc: real)
    requires xa != xb && xb != xc && xa != xc
    requires var fa, fb, fc := Quadratic(alpha, mid, c, xa), Quadratic(alpha, mid, c, xb),
                               Quadratic(alpha, mid, c, xc);
             (xb - xc) * (fb - fa) - (xb - xa) * (fb - fc) >= TinyValue
    ensures BracketTrial(xa, xb, xc, Quadratic(alpha, mid, c, xa), Quadratic(alpha, mid, c, xb),
                         Quadratic(alpha, mid, c, xc)).w == mid
  {
    DifferenceProducts(alpha, mid, c, xb, xa, xc);
    TrialOfDifferences(xa, xb, xc, mid, alpha * (xb - xa) * (xb - xc),
                       Quadratic(alpha, mid, c, xa), Quadratic(alpha, mid, c, xb),
                       Quadratic(alpha, mid, c, xc));
  }

  /** The bracketing trial point, once the two cross terms share the factor k. */
  lemma TrialOfDifferences(xa: real, xb: real, xc: real, mid: real, k: real,
                           fa: real, fb: real, fc: real)
    requires (xb - xa) * (fb - fc) == k * (xb + xc - 2.0 * mid)
    requires (xb - xc) * (fb - fa) == k * (xb + xa - 2.0 * mid)
    requires (xb - xc) * (fb - fa) - (xb - xa) * (fb - fc) >= TinyValue
    ensures BracketTrial(xa, xb, xc, fa, fb, fc).w == mid
  {
    var tmp1 := (xb - xa) * (fb - fc);
    var tmp2 := (xb - xc) * (fb - fa);
    TrialIdentity(xa, xb, xc, mid, k);
    TrialNumerator(xb - xc, xb - xa, tmp2, tmp1, k * (xb + xa - 2.0 * mid), k * (xb + xc - 2.0 * mid),
                   xb - mid);
    Cancel((xb - xc) * tmp2 - (xb - xa) * tmp1, 2.0 * (tmp2 - tmp1), xb - mid);
    TrialUnclamped(xa, xb, xc, fa, fb, fc);
  }

  lemma TrialNumerator(s: real, t: real, t2: real, t1: real, k2: real, k1: real, z: real)
    requires t2 == k2 && t1 == k1 && s * k2 - t * k1 == (2.0 * (k2 - k1)) * z
    ensures s * t2 - t * t1 == (2.0 * (t2 - t1)) * z
  {
  }

  /** When the curvature term is at least TinyValue it is not clamped. */
  lemma TrialUnclamped(xa: real, xb: real, xc: real, fa: real, fb: real, fc: real)
    requires (xb - xc) * (fb - fa) - (xb - xa) * (fb - fc) >= TinyValue
    ensures var tmp1, tmp2 := (xb - xa) * (fb - fc), (xb - xc) * (fb - fa);
            BracketTrial(xa, xb, xc, fa, fb, fc).w
              == xb - ((xb - xc) * tmp2 - (xb - xa) * tmp1) / (2.0 * (tmp2 - tmp1))
  {
  }

  lemma TrialIdentity(xa: real, xb: real, xc: real, mid: real, k: real)
    ensures (xb - xc) * (k * (xb + xa - 2.0 * mid)) - (xb - xa) * (k * (xb + xc - 2.0 * mid))
         == (2.0 * (k * (xb + xa - 2.0 * mid) - k * (xb + xc - 2.0 * mid))) * (xb - mid)
  {
  }

  /** Dividing a product by one of its factors gives the other. */
  lemma Cancel(n: real, d: real, r: real)
    requires d != 0.0 && n == d * r
    ensures n / d == r
  {
  }

  /** How one pass of the bracketing loop ends, as far as the source shows it. */
  datatype PassOutcome =
    | Stopped
      // the pass limit was exceeded or the abort flag was set: nothing evaluated
    | Found(xa: real, xb: real, xc: real, fa: real, fb: real, fc: real)
      // the trial point between xb and xc closed a bracket
    | Continued(xa: real, xb: real, xc: real, fa: real, fb: real, fc: real, w: real, fw: real)
      // a trial was evaluated; the points carried into the rest of the pass
    | Magnified(w: real)
      // default magnification: the point is set to w; the rest is not visible

  /** The loop test `ii++ > MaxIterations || AbortFlag` that ends bracketing. */
  predicate BracketStops(ii: int, maxIterations: int, abortFlag: bool)
  {
    ii > maxIterations || abortFlag
  }

  /** The stop test lets passes 0..MaxIterations run: MaxIterations+1 in all. */
  lemma BracketPassCount(maxIterations: int)
    requires maxIterations >= 0
    ensures forall ii :: 0 <= ii <= maxIterations ==> !BracketStops(ii, maxIterations, false)
    ensures BracketStops(maxIterations + 1, maxIterations, false)
  {
  }

  /**
    One pass of the bracketing loop (entered while fc < fb).  When the pass leaves the
    loop with a bracket, the bracket is valid: the middle point lies strictly between
    the ends and has the lowest cost.
   */
  method BracketPass(m: FunctionMinimizer, p0: seq<real>, vec: seq<real>, point: array<real>,
                     xa: real, xb: real, xc: real, fa: real, fb: real, fc: real, ii: int)
    returns (r: PassOutcome, ii': int)
    requires |p0| == |vec| == point.Length
    requires fc < fb <= fa && Ordered(xa, xb, xc)
    modifies point, m
    ensures ii' == ii + 1
    ensures r.Stopped? <==> BracketStops(ii, old(m.maxIterations), old(m.abortFlag))
    ensures r.Stopped? ==> m.evaluations == old(m.evaluations)
    ensures r.Found? ==> IsBracket(r.xa, r.xb, r.xc, r.fa, r.fb, r.fc)
    ensures r.Found? ==> m.evaluations == old(m.evaluations) + 1
    ensures r.Continued? ==> r.fw == m.f(LinePoint(p0, vec, r.w)) && point[..] == LinePoint(p0, vec, r.w)
    ensures r.Continued? ==> r.xa == xa && r.fa == fa && r.fb <= fb && r.fc <= fc
    ensures r.Continued? ==> old(m.evaluations) + 1 <= m.evaluations <= old(m.evaluations) + 2
    ensures r.Magnified? ==> r.w == xc + Golden * (xc - xb) && point[..] == LinePoint(p0, vec, r.w)
    ensures r.Magnified? ==> m.evaluations == old(m.evaluations)
    ensures m.maxIterations == old(m.maxIterations)
  {
    var t := BracketTrial(xa, xb, xc, fa, fb, fc);
    var w, wlim := t.w, t.wlim;
    ii' := ii + 1;
    if ii > m.maxIterations || m.abortFlag {
      return Stopped, ii';
    }
    var fw: real := 0.0;
    if Times(w - xc, xb - w) > 0.0 {
      SignOfProduct(w - xc, xb - w);
      fw := EvaluateAt(m, point, p0, vec, w);
      if fw < fc {
        return Found(xb, w, xc, fb, fw, fc), ii';
      } else if fw > fb {
        return Found(xa, xb, w, fa, fb, fw), ii';
      }
      w := xc + Golden * (xc - xb);
      fw := EvaluateAt(m, point, p0, vec, w);
      r := Continued(xa, xb, xc, fa, fb, fc, w, fw);
    } else if Times(w - wlim, wlim - xc) >= 0.0 {
      w := wlim;
      fw := EvaluateAt(m, point, p0, vec, w);
      r := Continued(xa, xb, xc, fa, fb, fc, w, fw);
    } else if Times(w - wlim, xc - w) >= 0.0 {
      fw := EvaluateAt(m, point, p0, vec, w);
      if fw < fc {
        var xb1, xc1, fb1, fc1 := xc, w, fc, fw;
        w := xc1 + Golden * (xc1 - xb1);
        fw := EvaluateAt(m, point, p0, vec, w);
        r := Continued(xa, xb1, xc1, fa, fb1, fc1, w, fw);
      } else {
        r := Continued(xa, xb, xc, fa, fb, fc, w, fw);
      }
    } else {
      w := xc + Golden * (xc - xb);
      SetLinePoint(point, p0, vec, w);
      r := Magnified(w);
    }
  }

  /**
    The product of two reals, kept as a function of its own so that the sign tests of
    the bracketing pass reach the solver as single terms.
   */
  function Times(s: real, t: real): real
  {
    s * t
  }

  /** A product is positive exactly when its factors have the same strict sign. */
  lemma SignOfProduct(s: real, t: real)
    ensures Times(s, t) > 0.0 <==> (s > 0.0 && t > 0.0) || (s < 0.0 && t < 0.0)
  {
    if s > 0.0 && t < 0.0 {
      assert s * (0.0 - t) > 0.0;
    }
    if s < 0.0 && t > 0.0 {
      assert (0.0 - s) * t > 0.0;
    }
    if s < 0.0 && t < 0.0 {
      assert (0.0 - s) * (0.0 - t) > 0.0;
    }
  }
}
