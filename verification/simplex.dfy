/**
  The downhill simplex ("amoeba") minimiser of AtamaiWarp/vtkFunctionMinimizer.cxx:
  `amotry`, `amoeba` and the visible part of `minimize`.

  The simplex is the (ndim+1) x ndim matrix `p` of vertices (one vertex per row), `y`
  holds the cost of every vertex, `psum` the running column sums and `ptry` the
  parameter buffer that the cost function reads.  The cost callback is `m.f`.
 */
module Simplex {
  import opened Minimizer
  import opened Sums
  import opened Reals

  /** The smallest element of a non-empty sequence. */
  function MinOf(s: seq<real>): (r: real)
    requires |s| > 0
    ensures forall i :: 0 <= i < |s| ==> r <= s[i]
    ensures r in s
  {
    if |s| == 1 then s[0]
    else
      var r := MinOf(s[..|s| - 1]);
      assert forall i :: 0 <= i < |s| - 1 ==> s[..|s| - 1][i] == s[i];
      if s[|s| - 1] < r then s[|s| - 1] else r
  }

  /** Row i of the vertex matrix: the i-th vertex. */
  ghost function Row(p: array2<real>, i: int): seq<real>
    reads p
    requires 0 <= i < p.Length0
  {
    seq(p.Length1, j requires 0 <= j < p.Length1 reads p => p[i, j])
  }

  /** Column j of the vertex matrix: coordinate j of every vertex. */
  ghost function Column(p: array2<real>, j: int): seq<real>
    reads p
    requires 0 <= j < p.Length1
  {
    seq(p.Length0, i requires 0 <= i < p.Length0 reads p => p[i, j])
  }

  /** The running sum `psum` holds the sum of every column of the simplex. */
  ghost predicate PsumIsColumnSum(p: array2<real>, psum: array<real>)
    reads p, psum
  {
    psum.Length == p.Length1 &&
    forall j :: 0 <= j < p.Length1 ==> psum[j] == Sum(Column(p, j))
  }

  /** Every cost in `y` is the cost of the vertex in the same row. */
  ghost predicate CostsMatch(p: array2<real>, y: array<real>, f: seq<real> -> real)
    reads p, y
  {
    y.Length == p.Length0 &&
    forall i :: 0 <= i < p.Length0 ==> y[i] == f(Row(p, i))
  }

  /** The shapes `amoeba` works with: ndim+1 vertices of ndim coordinates. */
  predicate Shape(p: array2<real>, y: array<real>, ptry: array<real>, psum: array<real>, ndim: int)
  {
    ndim >= 1 && p.Length0 == ndim + 1 && p.Length1 == ndim &&
    y.Length == ndim + 1 && ptry.Length == ndim && psum.Length == ndim &&
    y != ptry && y != psum && ptry != psum
  }

  // ---------------------------------------------------------------------------
  // The trial point of amotry

  /**
    The point amotry evaluates: ptry[j] = psum[j]*fac1 - worst[j]*fac2 with
    fac1 = (1-fac)/ndim and fac2 = fac1 - fac.
   */
  function TrialPoint(psum: seq<real>, worst: seq<real>, fac: real, ndim: int): (t: seq<real>)
    requires ndim >= 1 && |worst| == |psum|
    ensures |t| == |psum|
  {
    var fac1 := (1.0 - fac) / ndim as real;
    var fac2 := fac1 - fac;
    seq(|psum|, j requires 0 <= j < |psum| => psum[j] * fac1 - worst[j] * fac2)
  }

  /**
    The trial point lies on the line through the worst vertex and the centroid of the
    other ndim vertices, at `(1-fac)*centroid + fac*worst`: fac = -1 reflects the worst
    vertex through the centroid, fac = 2 extrapolates beyond it and fac = 0.5
    contracts half-way towards the centroid.
   */
  lemma TrialPointIsOnCentroidLine(col: seq<real>, ihi: int, psum: seq<real>, worst: seq<real>,
                                   fac: real, ndim: int, j: int)
    requires ndim >= 1 && |col| == ndim + 1 && 0 <= ihi <= ndim
    requires |worst| == |psum| && 0 <= j < |psum|
    requires psum[j] == Sum(col) && worst[j] == col[ihi]
    ensures Sum(col[ihi := 0.0]) == psum[j] - worst[j]
    ensures TrialPoint(psum, worst, fac, ndim)[j]
         == (1.0 - fac) * (Sum(col[ihi := 0.0]) / ndim as real) + fac * worst[j]
  {
    SumUpdate(col, ihi, 0.0);
    var n := ndim as real;
    var fac1 := (1.0 - fac) / n;
    var c := (psum[j] - worst[j]) / n;
    assert fac1 * n == 1.0 - fac;
    assert c * n == psum[j] - worst[j];
    calc {
      psum[j] * fac1 - worst[j] * (fac1 - fac);
      (psum[j] - worst[j]) * fac1 + fac * worst[j];
      { assert (psum[j] - worst[j]) * fac1 == c * n * fac1 == c * (1.0 - fac); }
      (1.0 - fac) * c + fac * worst[j];
    }
  }

  // ---------------------------------------------------------------------------
  // Convergence test

  /**
    The relative-tolerance stop of amoeba: rtol = 2|yhi-ylo|, divided by |yhi|+|ylo|
    unless that sum is below ftol; the simplex has converged when rtol < ftol.  When the
    divisor is zero the quotient is NaN and the comparison is false.
   */
  function Converged(yhi: real, ylo: real, ftol: real): (c: bool)
    ensures c ==> ftol > 0.0
    ensures yhi == ylo ==> (c <==> ftol > 0.0)
    ensures Abs(yhi) + Abs(ylo) >= ftol ==>
              (c <==> Abs(yhi) + Abs(ylo) > 0.0 && 2.0 * Abs(yhi - ylo) < ftol * (Abs(yhi) + Abs(ylo)))
  {
    var scale := Abs(yhi) + Abs(ylo);
    if scale < ftol then 2.0 * Abs(yhi - ylo) < ftol
    else if scale == 0.0 then false
    else
      QuotientComparison(2.0 * Abs(yhi - ylo), scale, ftol);
      2.0 * Abs(yhi - ylo) / scale < ftol
  }

  /** Comparing a quotient with a positive divisor is comparing the dividend. */
  lemma QuotientComparison(n: real, d: real, t: real)
    requires d > 0.0 && n >= 0.0
    ensures n / d >= 0.0
    ensures n / d < t <==> n < t * d
  {
    var q := n / d;
    assert q * d == n;
    if q < t {
      assert (t - q) * d > 0.0;
    } else {
      assert (q - t) * d >= 0.0;
    }
  }

  // ---------------------------------------------------------------------------
  // The operations of amoeba

  /**
    The selection at the top of every amoeba iteration: the best vertex `ilo` (ties go
    to the later index), the worst `ihi` and the second-worst `inhi`.
   */
  method SelectVertices(y: array<real>) returns (ilo: int, ihi: int, inhi: int)
    requires y.Length >= 2
    ensures 0 <= ilo < y.Length && 0 <= ihi < y.Length && 0 <= inhi < y.Length
    ensures forall i :: 0 <= i < y.Length ==> y[ilo] <= y[i]
    ensures forall i :: ilo < i < y.Length ==> y[ilo] < y[i]
    ensures forall i :: 0 <= i < y.Length ==> y[i] <= y[ihi]
    ensures inhi != ihi
    ensures forall i :: 0 <= i < y.Length && i != ihi ==> y[i] <= y[inhi]
  {
    ilo := 0;
    if y[0] > y[1] {
      ihi, inhi := 0, 1;
    } else {
      ihi, inhi := 1, 0;
    }
    var i := 0;
    while i < y.Length
      invariant 0 <= i <= y.Length
      invariant 0 <= ilo < y.Length && ilo <= i
      invariant forall k :: 0 <= k < i ==> y[ilo] <= y[k]
      invariant forall k :: ilo < k < i ==> y[ilo] < y[k]
      invariant 0 <= ihi < y.Length && 0 <= inhi < y.Length && ihi != inhi
      invariant ihi < i || ihi < 2
      invariant inhi < i || inhi < 2
      invariant forall k :: (0 <= k < i || k == 0 || k == 1) ==> y[k] <= y[ihi]
      invariant forall k :: (0 <= k < i || k == 0 || k == 1) && k != ihi ==> y[k] <= y[inhi]
    {
      if y[i] <= y[ilo] {
        ilo := i;
      }
      if y[i] > y[ihi] {
        inhi := ihi;
        ihi := i;
      } else if y[i] > y[inhi] && i != ihi {
        inhi := i;
      }
      i := i + 1;
    }
  }

  /** The first loop of amotry: fill the parameter buffer with the trial point. */
  method ComputeTrialPoint(p: array2<real>, ptry: array<real>, psum: array<real>,
                           ndim: int, ihi: int, fac: real)
    requires ndim >= 1 && p.Length0 == ndim + 1 && p.Length1 == ndim
    requires ptry.Length == ndim && psum.Length == ndim && ptry != psum && 0 <= ihi <= ndim
    modifies ptry
    ensures ptry[..] == TrialPoint(psum[..], Row(p, ihi), fac, ndim)
  {
    var fac1 := (1.0 - fac) / ndim as real;
    var fac2 := fac1 - fac;
    var j := 0;
    while j < ndim
      invariant 0 <= j <= ndim
      invariant forall k :: 0 <= k < j ==> ptry[k] == psum[k] * fac1 - p[ihi, k] * fac2
    {
      ptry[j] := psum[j] * fac1 - p[ihi, j] * fac2;
      j := j + 1;
    }
    ghost var t := TrialPoint(psum[..], Row(p, ihi), fac, ndim);
    assert forall k :: 0 <= k < ndim ==> ptry[k] == t[k];
    assert ptry[..] == t;
  }

  /**
    The replacing branch of amotry: vertex `ihi` becomes the trial point, and `psum`
    is corrected by the difference, so it still holds the column sums.
   */
  method ReplaceVertex(p: array2<real>, ptry: array<real>, psum: array<real>, ndim: int, ihi: int)
    requires ndim >= 1 && p.Length0 == ndim + 1 && p.Length1 == ndim
    requires ptry.Length == ndim && psum.Length == ndim && ptry != psum && 0 <= ihi <= ndim
    modifies p, psum
    ensures Row(p, ihi) == ptry[..]
    ensures forall i, j :: 0 <= i <= ndim && i != ihi && 0 <= j < ndim ==> p[i, j] == old(p[i, j])
    ensures old(PsumIsColumnSum(p, psum)) ==> PsumIsColumnSum(p, psum)
  {
    ghost var sums := PsumIsColumnSum(p, psum);
    ghost var cols := seq(ndim, k requires 0 <= k < ndim reads p => Column(p, k));
    var j := 0;
    while j < ndim
      invariant 0 <= j <= ndim
      invariant forall k :: 0 <= k < j ==> p[ihi, k] == ptry[k]
      invariant forall i, k :: 0 <= i <= ndim && 0 <= k < ndim && (i != ihi || k >= j) ==>
                  p[i, k] == old(p[i, k])
      invariant sums ==> forall k :: j <= k < ndim ==> psum[k] == Sum(cols[k])
      invariant sums ==> forall k :: 0 <= k < j ==> psum[k] == Sum(cols[k][ihi := ptry[k]])
    {
      if sums {
        SumUpdate(cols[j], ihi, ptry[j]);
      }
      psum[j] := psum[j] + ptry[j] - p[ihi, j];
      p[ihi, j] := ptry[j];
      j := j + 1;
    }
    if sums {
      forall k | 0 <= k < ndim
        ensures Column(p, k) == cols[k][ihi := ptry[k]]
      {
        assert forall i :: 0 <= i <= ndim ==> Column(p, k)[i] == cols[k][ihi := ptry[k]][i];
      }
    }
    assert forall k :: 0 <= k < ndim ==> Row(p, ihi)[k] == ptry[k];
  }

  /**
    amotry: evaluate the trial point for factor `fac` and, only if its cost is strictly
    below that of the worst vertex `ihi`, replace that vertex and its cost, keeping the
    column sums up to date.  The trial cost is returned in every case.
   */
  method Amotry(p: array2<real>, y: array<real>, ptry: array<real>, psum: array<real>,
                ndim: int, m: FunctionMinimizer, ihi: int, fac: real) returns (ytry: real)
    requires Shape(p, y, ptry, psum, ndim) && 0 <= ihi <= ndim
    modifies p, y, ptry, psum, m
    ensures ptry[..] == TrialPoint(old(psum[..]), old(Row(p, ihi)), fac, ndim)
    ensures ytry == m.f(ptry[..])
    ensures m.evaluations == old(m.evaluations) + 1 && m.maxIterations == old(m.maxIterations)
    ensures ytry < old(y[ihi]) ==> y[..] == old(y[..])[ihi := ytry] && Row(p, ihi) == ptry[..]
    ensures !(ytry < old(y[ihi])) ==> y[..] == old(y[..]) && Row(p, ihi) == old(Row(p, ihi))
    ensures forall i, j :: 0 <= i <= ndim && i != ihi && 0 <= j < ndim ==> p[i, j] == old(p[i, j])
    ensures old(PsumIsColumnSum(p, psum)) ==> PsumIsColumnSum(p, psum)
    ensures old(CostsMatch(p, y, m.f)) ==> CostsMatch(p, y, m.f)
  {
    ComputeTrialPoint(p, ptry, psum, ndim, ihi, fac);
    ytry := m.EvaluateFunction(ptry[..]);
    if ytry < y[ihi] {
      y[ihi] := ytry;
      ReplaceVertex(p, ptry, psum, ndim, ihi);
      forall i | 0 <= i <= ndim && i != ihi
        ensures Row(p, i) == old(Row(p, i))
      {
        assert forall j :: 0 <= j < p.Length1 ==> Row(p, i)[j] == old(Row(p, i))[j];
        assert Row(p, i) == old(Row(p, i));
      }
    } else {
      assert forall j :: 0 <= j < p.Length1 ==> Row(p, ihi)[j] == old(Row(p, ihi))[j];
      assert Row(p, ihi) == old(Row(p, ihi));
      forall i | 0 <= i <= ndim
        ensures Row(p, i) == old(Row(p, i))
      {
        assert forall j :: 0 <= j < p.Length1 ==> Row(p, i)[j] == old(Row(p, i))[j];
        assert Row(p, i) == old(Row(p, i));
      }
    }
  }

  /**
    The shrink step: every vertex except `ilo` moves to its midpoint with `ilo` and is
    evaluated again; vertex `ilo` and its cost are untouched.  `psum` is used as scratch
    space, as in the source, and has to be recomputed afterwards.
   */
  method Shrink(p: array2<real>, y: array<real>, ptry: array<real>, psum: array<real>,
                ndim: int, m: FunctionMinimizer, ilo: int)
    requires Shape(p, y, ptry, psum, ndim) && 0 <= ilo <= ndim
    modifies p, y, ptry, psum, m
    ensures forall j :: 0 <= j < ndim ==> p[ilo, j] == old(p[ilo, j])
    ensures forall i, j :: 0 <= i <= ndim && i != ilo && 0 <= j < ndim ==>
              p[i, j] == (old(p[i, j]) + old(p[ilo, j])) / 2.0
    ensures y[ilo] == old(y[ilo])
    ensures forall i :: 0 <= i <= ndim && i != ilo ==> y[i] == m.f(Row(p, i))
    ensures m.evaluations == old(m.evaluations) + ndim && m.maxIterations == old(m.maxIterations)
    ensures old(CostsMatch(p, y, m.f)) ==> CostsMatch(p, y, m.f)
  {
    var i := 0;
    while i <= ndim
      invariant 0 <= i <= ndim + 1
      invariant forall j :: 0 <= j < ndim ==> p[ilo, j] == old(p[ilo, j])
      invariant forall i', j :: 0 <= i' < i && i' != ilo && 0 <= j < ndim ==>
                  p[i', j] == (old(p[i', j]) + old(p[ilo, j])) / 2.0
      invariant forall i', j :: i <= i' <= ndim && 0 <= j < ndim ==> p[i', j] == old(p[i', j])
      invariant forall i' :: 0 <= i' < i && i' != ilo ==> y[i'] == m.f(Row(p, i'))
      invariant forall i' :: 0 <= i' <= ndim && (i <= i' || i' == ilo) ==> y[i'] == old(y[i'])
      invariant m.evaluations == old(m.evaluations) + (if ilo < i then i - 1 else i)
      invariant m.maxIterations == old(m.maxIterations)
      modifies p, y, ptry, psum, m
    {
      if i != ilo {
        label before:
        var j := 0;
        while j < ndim
          invariant 0 <= j <= ndim
          invariant forall k :: 0 <= k < j ==> p[i, k] == ptry[k] == (old(p[i, k]) + old(p[ilo, k])) / 2.0
          invariant forall i', k :: 0 <= i' <= ndim && 0 <= k < ndim && (i' != i || k >= j) ==>
                      p[i', k] == old@before(p[i', k])
          modifies p, ptry, psum
        {
          var mid := (p[i, j] + p[ilo, j]) / 2.0;
          p[i, j] := mid;
          ptry[j] := mid;
          psum[j] := mid;
          j := j + 1;
        }
        assert forall k :: 0 <= k < ndim ==> ptry[k] == Row(p, i)[k];
        assert ptry[..] == Row(p, i);
        forall i' | 0 <= i' <= ndim && i' != i
          ensures Row(p, i') == old@before(Row(p, i'))
        {
          assert forall j :: 0 <= j < p.Length1 ==> Row(p, i')[j] == old@before(Row(p, i'))[j];
          assert Row(p, i') == old@before(Row(p, i'));
        }
        y[i] := m.EvaluateFunction(ptry[..]);
      }
      i := i + 1;
    }
    if old(CostsMatch(p, y, m.f)) {
      assert forall j :: 0 <= j < p.Length1 ==> Row(p, ilo)[j] == old(Row(p, ilo))[j];
      assert Row(p, ilo) == old(Row(p, ilo));
    }
  }

  /** The column sums of the simplex, as computed on entry to amoeba and after a shrink. */
  method ComputeColumnSums(p: array2<real>, psum: array<real>)
    requires psum.Length == p.Length1
    modifies psum
    ensures PsumIsColumnSum(p, psum)
  {
    var j := 0;
    while j < p.Length1
      invariant 0 <= j <= p.Length1
      invariant forall k :: 0 <= k < j ==> psum[k] == Sum(Column(p, k))
    {
      var sum := 0.0;
      var i := 0;
      ghost var col := Column(p, j);
      while i < p.Length0
        invariant 0 <= i <= p.Length0
        invariant sum == Sum(col[..i])
      {
        assert col[..i + 1][..i] == col[..i];
        sum := sum + p[i, j];
        i := i + 1;
      }
      assert col[..p.Length0] == col;
      psum[j] := sum;
      j := j + 1;
    }
  }

  /**
    On convergence row `ilo` of the vertex matrix is swapped into row 0, while the cost
    array swaps slot 1 (not 0) with slot `ilo`.
   */
  method SwapBestIntoFirst(p: array2<real>, y: array<real>, ndim: int, ilo: int)
    requires ndim >= 1 && p.Length0 == ndim + 1 && p.Length1 == ndim && y.Length == ndim + 1
    requires 0 <= ilo <= ndim
    modifies p, y
    ensures y[..] == old(y[..])[1 := old(y[ilo])][ilo := old(y[1])]
    ensures forall j :: 0 <= j < ndim ==> p[0, j] == old(p[ilo, j]) && p[ilo, j] == old(p[0, j])
    ensures forall i, j :: 0 <= i <= ndim && i != 0 && i != ilo && 0 <= j < ndim ==>
              p[i, j] == old(p[i, j])
  {
    var swap := y[1];
    y[1] := y[ilo];
    y[ilo] := swap;
    var i := 0;
    while i < ndim
      invariant 0 <= i <= ndim
      invariant forall j :: 0 <= j < i ==> p[0, j] == old(p[ilo, j]) && p[ilo, j] == old(p[0, j])
      invariant forall r, j :: 0 <= r <= ndim && 0 <= j < ndim && (j >= i || (r != 0 && r != ilo)) ==>
                  p[r, j] == old(p[r, j])
      modifies p
    {
      var s := p[0, i];
      p[0, i] := p[ilo, i];
      p[ilo, i] := s;
      i := i + 1;
    }
  }

  /**
    One reflect / expand / contract / shrink step of amoeba, with its evaluation
    accounting: `nfunk` grows by exactly the number of evaluations made (at least one,
    at most ndim+2), the simplex keeps its invariants and the best cost never rises.
   */
  method Step(p: array2<real>, y: array<real>, ptry: array<real>, psum: array<real>, ndim: int,
              m: FunctionMinimizer, ilo: int, ihi: int, inhi: int, nfunk0: int) returns (nfunk: int)
    requires Shape(p, y, ptry, psum, ndim)
    requires 0 <= ilo <= ndim && 0 <= ihi <= ndim && 0 <= inhi <= ndim
    requires PsumIsColumnSum(p, psum) && CostsMatch(p, y, m.f)
    modifies p, y, ptry, psum, m
    ensures PsumIsColumnSum(p, psum) && CostsMatch(p, y, m.f)
    ensures y[ilo] <= old(y[ilo])
    ensures nfunk - nfunk0 == m.evaluations - old(m.evaluations)
    ensures nfunk0 + 1 <= nfunk <= nfunk0 + ndim + 2
    ensures m.maxIterations == old(m.maxIterations)
  {
    nfunk := nfunk0 + 2;
    var ytry := Amotry(p, y, ptry, psum, ndim, m, ihi, -1.0);
    if ytry <= y[ilo] {
      ytry := Amotry(p, y, ptry, psum, ndim, m, ihi, 2.0);
    } else if ytry >= y[inhi] {
      var ysave := y[ihi];
      ytry := Amotry(p, y, ptry, psum, ndim, m, ihi, 0.5);
      if ytry >= ysave {
        Shrink(p, y, ptry, psum, ndim, m, ilo);
        nfunk := nfunk + ndim;
        ComputeColumnSums(p, psum);
      }
    } else {
      nfunk := nfunk - 1;
    }
  }

  /**
    The costs of a converged simplex: slot 1 holds the lowest cost and some slot `k`
    holds a highest cost that passes the relative tolerance test against it.
   */
  ghost predicate ConvergedCosts(y: seq<real>, ftol: real)
  {
    |y| >= 2 &&
    exists k :: 0 <= k < |y| && Converged(y[k], y[1], ftol) &&
                forall i :: 0 <= i < |y| ==> y[1] <= y[i] <= y[k]
  }

  /**
    The converged exit of amoeba: after the swap, slot 1 of the cost array holds the
    lowest cost, that cost belongs to vertex 0, and some vertex still witnesses the
    relative tolerance test that stopped the iteration.
   */
  method Converge(p: array2<real>, y: array<real>, ndim: int, ilo: int, ihi: int, ftol: real,
                  ghost f: seq<real> -> real)
    requires ndim >= 1 && p.Length0 == ndim + 1 && p.Length1 == ndim && y.Length == ndim + 1
    requires 0 <= ilo <= ndim && 0 <= ihi <= ndim && CostsMatch(p, y, f)
    requires forall i :: 0 <= i <= ndim ==> y[ilo] <= y[i] <= y[ihi]
    requires Converged(y[ihi], y[ilo], ftol)
    modifies p, y
    ensures y[1] == old(y[ilo]) && y[1] == f(Row(p, 0)) && MinOf(y[..]) == y[1]
    ensures ConvergedCosts(y[..], ftol)
  {
    ghost var yb := y[..];
    ghost var k := if ihi == 1 && ilo != 1 then ilo else if ihi == ilo then 1 else ihi;
    label swap:
    SwapBestIntoFirst(p, y, ndim, ilo);
    assert forall j :: 0 <= j < p.Length1 ==> Row(p, 0)[j] == old@swap(Row(p, ilo))[j];
    assert Row(p, 0) == old@swap(Row(p, ilo));
    assert y[k] == yb[ihi] && y[1] == yb[ilo];
    forall i | 0 <= i <= ndim
      ensures yb[ilo] <= y[i] <= yb[ihi]
    {
      assert y[i] == yb[i] || y[i] == yb[1] || y[i] == yb[ilo];
    }
    assert 0 <= k < |y[..]| && Converged(y[..][k], y[..][1], ftol);
  }

  /** The most evaluations amoeba can spend with budget `maxnfunk`. */
  function EvaluationBound(maxnfunk: int, ndim: int): int
  {
    if maxnfunk > 0 then maxnfunk + ndim + 1 else 0
  }

  /**
    amoeba: iterate reflect / expand / contract / shrink until the relative tolerance
    test succeeds (status 0) or the evaluation budget is spent (status -1).  `nfunk`
    counts exactly the evaluations made, it overshoots the budget by at most ndim+1,
    and the lowest cost in the simplex never rises.
   */
  method Amoeba(p: array2<real>, y: array<real>, ptry: array<real>, ndim: int, ftol: real,
                m: FunctionMinimizer, maxnfunk: int) returns (status: int, nfunk: int)
    requires ndim >= 1 && p.Length0 == ndim + 1 && p.Length1 == ndim
    requires y.Length == ndim + 1 && ptry.Length == ndim && y != ptry
    requires CostsMatch(p, y, m.f)
    modifies p, y, ptry, m
    ensures status == 0 || status == -1
    ensures nfunk == m.evaluations - old(m.evaluations)
    ensures 0 <= nfunk <= EvaluationBound(maxnfunk, ndim)
    ensures MinOf(y[..]) <= MinOf(old(y[..]))
    ensures status == -1 ==> nfunk >= maxnfunk && CostsMatch(p, y, m.f)
    ensures status == 0 ==> y[1] == m.f(Row(p, 0))
    ensures status == 0 ==> ConvergedCosts(y[..], ftol)
    ensures m.maxIterations == old(m.maxIterations)
  {
    var psum := new real[ndim];
    nfunk := 0;
    ComputeColumnSums(p, psum);
    ghost var m0 := MinOf(y[..]);
    ghost var best :| 0 <= best <= ndim && y[..][best] == m0;
    while true
      invariant psum.Length == ndim && psum != y && psum != ptry
      invariant PsumIsColumnSum(p, psum) && CostsMatch(p, y, m.f)
      invariant nfunk == m.evaluations - old(m.evaluations)
      invariant 0 <= nfunk <= EvaluationBound(maxnfunk, ndim)
      invariant 0 <= best <= ndim && y[best] <= m0
      invariant m.maxIterations == old(m.maxIterations)
      decreases if nfunk < maxnfunk then maxnfunk - nfunk else 0
    {
      var ilo, ihi, inhi := SelectVertices(y);
      best := ilo;
      if Converged(y[ihi], y[ilo], ftol) {
        Converge(p, y, ndim, ilo, ihi, ftol, m.f);
        status := 0;
        return;
      }
      if nfunk >= maxnfunk {
        assert MinOf(y[..]) <= y[best];
        status := -1;
        return;
      }
      nfunk := Step(p, y, ptry, psum, ndim, m, ilo, ihi, inhi, nfunk);
    }
  }

  /**
    The visible part of `minimize`: evaluate every vertex (through the parameter buffer)
    and run amoeba on the simplex with the evaluation budget `maxiterations`.
   */
  method Minimize(parameters: array<real>, vertices: array2<real>, ndim: int,
                  m: FunctionMinimizer, tolerance: real, maxiterations: int)
    returns (y: array<real>, status: int, iterations: int)
    requires ndim >= 1 && vertices.Length0 == ndim + 1 && vertices.Length1 == ndim
    requires parameters.Length == ndim
    modifies parameters, vertices, m
    ensures fresh(y) && y.Length == ndim + 1
    ensures m.evaluations == old(m.evaluations) + ndim + 1 + iterations
    ensures 0 <= iterations <= EvaluationBound(maxiterations, ndim)
    ensures status == -1 ==> iterations >= maxiterations && CostsMatch(vertices, y, m.f)
    ensures status == 0 ==> y[1] == m.f(Row(vertices, 0))
    ensures status == 0 ==> forall i :: 0 <= i <= ndim ==> y[1] <= y[i]
  {
    y := new real[ndim + 1];
    var k := 0;
    while k < ndim + 1
      invariant 0 <= k <= ndim + 1
      invariant forall i :: 0 <= i < k ==> y[i] == m.f(Row(vertices, i))
      invariant m.evaluations == old(m.evaluations) + k
      modifies parameters, y, m
    {
      var l := 0;
      while l < ndim
        invariant 0 <= l <= ndim
        invariant forall j :: 0 <= j < l ==> parameters[j] == vertices[k, j]
        modifies parameters
      {
        parameters[l] := vertices[k, l];
        l := l + 1;
      }
      assert parameters[..] == Row(vertices, k);
      y[k] := m.EvaluateFunction(parameters[..]);
      k := k + 1;
    }
    status, iterations := Amoeba(vertices, y, parameters, ndim, tolerance, m, maxiterations);
  }
}
