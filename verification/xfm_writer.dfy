/**
  The linear-transform encoding of ImageRegistration/vtkITKXFMWriter.cxx.

  A 4x4 homogeneous matrix M (row-major, element (i, j) at 4*i + j) is written as the
  twelve parameters of an ITK affine transform about a centre c: the 3x3 block in
  row-major order, then the translation (M.(c, 1))[i] - c[i].  A matrix whose bottom row
  is not (0, 0, 0, 1) is refused.  The stream output, the MINC and ITK text formats and
  the test of the file name are not part of this model; the header of the MATLAB
  level 4 file is, as far as it is visible.  Doubles are modelled as `real`.
 */
module XfmWriter {

  /** The element in row i, column j of a row-major 4x4 matrix. */
  function Element(m: seq<real>, i: int, j: int): real
    requires |m| == 16 && 0 <= i < 4 && 0 <= j < 4
  {
    m[4 * i + j]
  }

  /** A matrix is linear (affine) when its bottom row is (0, 0, 0, 1). */
  predicate Linear(m: seq<real>)
    requires |m| == 16
  {
    Element(m, 3, 0) == 0.0 && Element(m, 3, 1) == 0.0 && Element(m, 3, 2) == 0.0 && Element(m, 3, 3) == 1.0
  }

  /** A product of two coordinates, named so that linear steps stay linear. */
  function Times(a: real, b: real): real
  {
    a * b
  }

  /** Scaling distributes over a difference. */
  lemma TimesDistributes(a: real, x: real, c: real)
    ensures Times(a, x - c) + Times(a, c) == Times(a, x)
  {
  }

  /** Row i of the matrix applied to the homogeneous point (c, 1). */
  function RowTimesPoint(m: seq<real>, i: int, c: seq<real>): real
    requires |m| == 16 && 0 <= i < 4 && |c| == 3
  {
    Times(Element(m, i, 0), c[0]) + Times(Element(m, i, 1), c[1]) + Times(Element(m, i, 2), c[2]) + Element(m, i, 3)
  }

  /**
    The twelve parameters: the 3x3 block of M in row-major order, then the translation
    that, about the centre c, reproduces the matrix's own translation.
   */
  function Parameters(m: seq<real>, c: seq<real>): (p: seq<real>)
    requires |m| == 16 && |c| == 3
    ensures |p| == 12
    ensures forall i, j :: 0 <= i < 3 && 0 <= j < 3 ==> p[3 * i + j] == Element(m, i, j)
    ensures forall i :: 0 <= i < 3 ==> p[9 + i] == RowTimesPoint(m, i, c) - c[i]
  {
    var p := seq(12, k requires 0 <= k < 12 =>
                   if k < 9 then Element(m, k / 3, k % 3) else RowTimesPoint(m, k - 9, c) - c[k - 9]);
    p
  }

  /**
    Row i of the ITK affine transform with parameters p about centre c, applied to x:
    A (x - c) + c + t, where A is the 3x3 block and t the translation.
   */
  function ItkRow(p: seq<real>, c: seq<real>, i: int, x: seq<real>): real
    requires |p| == 12 && |c| == 3 && |x| == 3 && 0 <= i < 3
  {
    Times(p[3 * i], x[0] - c[0]) + Times(p[3 * i + 1], x[1] - c[1]) + Times(p[3 * i + 2], x[2] - c[2]) + c[i] + p[9 + i]
  }

  /**
    The written transform is the matrix's: for every centre and every point x, the ITK
    transform with the written parameters about that centre maps x where M maps (x, 1).
   */
  lemma ParametersPreserveTransform(m: seq<real>, c: seq<real>, x: seq<real>)
    requires |m| == 16 && |c| == 3 && |x| == 3
    ensures forall i :: 0 <= i < 3 ==> ItkRow(Parameters(m, c), c, i, x) == RowTimesPoint(m, i, x)
  {
    var p := Parameters(m, c);
    forall i | 0 <= i < 3
      ensures ItkRow(p, c, i, x) == RowTimesPoint(m, i, x)
    {
      TimesDistributes(Element(m, i, 0), x[0], c[0]);
      TimesDistributes(Element(m, i, 1), x[1], c[1]);
      TimesDistributes(Element(m, i, 2), x[2], c[2]);
    }
  }

  /** A sequence holding the 3x3 block and the translation in their places is the parameters. */
  lemma ParametersLaidOut(m: seq<real>, c: seq<real>, q: seq<real>)
    requires |m| == 16 && |c| == 3 && |q| == 12
    requires forall i, j :: 0 <= i < 3 && 0 <= j < 3 ==> q[3 * i + j] == Element(m, i, j)
    requires forall i :: 0 <= i < 3 ==> q[9 + i] == RowTimesPoint(m, i, c) - c[i]
    ensures q == Parameters(m, c)
  {
    var p := Parameters(m, c);
    forall k | 0 <= k < 12
      ensures q[k] == p[k]
    {
      if k < 9 {
        assert q[3 * (k / 3) + k % 3] == Element(m, k / 3, k % 3);
        assert p[3 * (k / 3) + k % 3] == Element(m, k / 3, k % 3);
      } else {
        assert q[9 + (k - 9)] == RowTimesPoint(m, k - 9, c) - c[k - 9];
      }
    }
  }

  /** With the default centre at the origin, the translation is the matrix's last column. */
  lemma ZeroCentreTranslation(m: seq<real>)
    requires |m| == 16
    ensures forall i :: 0 <= i < 3 ==> Parameters(m, [0.0, 0.0, 0.0])[9 + i] == Element(m, i, 3)
  {
  }

  /** A 32-bit unsigned value as four little-endian bytes. */
  function LittleEndian32(n: nat): (bytes: seq<int>)
    requires n < 0x1_0000_0000
    ensures |bytes| == 4 && forall k :: 0 <= k < 4 ==> 0 <= bytes[k] < 256
  {
    [n % 256, n / 256 % 256, n / 0x10000 % 256, n / 0x1000000]
  }

  /** The value of four little-endian bytes starting at `offset`. */
  function ReadLittleEndian32(bytes: seq<int>, offset: nat): int
    requires offset + 4 <= |bytes|
  {
    bytes[offset] + 256 * bytes[offset + 1] + 0x10000 * bytes[offset + 2] + 0x1000000 * bytes[offset + 3]
  }

  /**
    The visible part of the MATLAB level 4 header: IEEE little-endian doubles, 12 rows,
    1 column, and a zero fourth word.
   */
  function MatHeader(): (head: seq<int>)
    ensures |head| == 16
  {
    LittleEndian32(0) + LittleEndian32(12) + LittleEndian32(1) + LittleEndian32(0)
  }

  /** Each 32-bit word reads back from its bytes. */
  lemma {:induction false} LittleEndianRoundTrip(n: nat)
    requires n < 0x1_0000_0000
    ensures ReadLittleEndian32(LittleEndian32(n), 0) == n
  {
    var b := LittleEndian32(n);
    var q1 := n / 256;
    var q2 := q1 / 256;
    var q3 := q2 / 256;
    assert n == b[0] + 256 * q1;
    assert q1 == b[1] + 256 * q2;
    assert n / 0x10000 == q2;
    assert q2 == b[2] + 256 * q3;
    assert n / 0x1000000 == q3;
  }

  /** The header declares one column of as many rows as there are parameters. */
  lemma HeaderDescribesParameters(m: seq<real>, c: seq<real>)
    requires |m| == 16 && |c| == 3
    ensures ReadLittleEndian32(MatHeader(), 0) == 0
    ensures ReadLittleEndian32(MatHeader(), 4) == |Parameters(m, c)|
    ensures ReadLittleEndian32(MatHeader(), 8) == 1
  {
    var head := MatHeader();
    LittleEndianRoundTrip(0);
    LittleEndianRoundTrip(12);
    LittleEndianRoundTrip(1);
    assert head[4..8] == LittleEndian32(12);
    assert head[8..12] == LittleEndian32(1);
  }

  class XFMWriter {
    var transformCenter: array<real>

    predicate Valid()
      reads this
    {
      transformCenter.Length == 3
    }

    /** The transform centre starts at the origin. */
    constructor ()
      ensures Valid() && fresh(transformCenter) && transformCenter[..] == [0.0, 0.0, 0.0]
    {
      transformCenter := new real[3] [0.0, 0.0, 0.0];
    }

    /**
      Lay out the parameters of a linear transform about the writer's centre; a matrix
      that does perspective is refused (the source's `return 0`) and nothing is laid out.
     */
    method WriteLinearTransform(matrix: seq<real>) returns (linear: bool, p: array<real>)
      requires Valid() && |matrix| == 16
      ensures linear == Linear(matrix)
      ensures linear ==> p[..] == Parameters(matrix, transformCenter[..])
      ensures !linear ==> p.Length == 0
    {
      if matrix[12] != 0.0 || matrix[13] != 0.0 || matrix[14] != 0.0 || matrix[15] != 1.0 {
        return false, new real[0];
      }
      linear := true;
      var c := transformCenter[..];
      var t := seq(3, k requires 0 <= k < 3 => RowTimesPoint(matrix, k, c));
      t := seq(3, k requires 0 <= k < 3 => t[k] - c[k]);
      p := new real[12];
      for i := 0 to 3
        invariant forall a, b :: 0 <= a < i && 0 <= b < 3 ==> p[3 * a + b] == Element(matrix, a, b)
        invariant forall a :: 0 <= a < i ==> p[9 + a] == RowTimesPoint(matrix, a, c) - c[a]
      {
        for j := 0 to 3
          invariant forall a, b :: 0 <= a < i && 0 <= b < 3 ==> p[3 * a + b] == Element(matrix, a, b)
          invariant forall b :: 0 <= b < j ==> p[3 * i + b] == Element(matrix, i, b)
          invariant forall a :: 0 <= a < i ==> p[9 + a] == RowTimesPoint(matrix, a, c) - c[a]
        {
          p[3 * i + j] := matrix[4 * i + j];
        }
        p[9 + i] := t[i];
      }
      ParametersLaidOut(matrix, c, p[..]);
    }
  }
}
