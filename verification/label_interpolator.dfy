/**
  The parameter handling of ImageRegistration/vtkLabelInterpolator.cxx: the radius and
  blur factors, the antialiasing switch, the kernel support size on each axis, and the
  mode word that packs the half-sizes and blur bits for the kernel.

  `Modified()` is modelled as a modification counter.  Doubles are modelled as `real`,
  `static_cast<int>` as truncation toward zero and `sqrt` as a function parameter.
  VTK_INTERPOLATE_FLOOR_TOL is taken to be 2^-17, the value VTK defines; the header that
  defines VTK_LABEL_KERNEL_SIZE_MAX is not part of this model and its value is taken as 32.
  The kernel lookup tables are not modelled.
 */
module LabelInterpolation {
  import FixedPoint
  import opened Reals

  /** The tolerance the interpolators allow before rounding up: 2^-17. */
  const FloorTol: real := 0.00000762939453125
  /** The widest kernel (taken as 32). */
  const KernelSizeMax: int := 32
  /** The widest half-kernel. */
  const MaxHalfSize: int := KernelSizeMax / 2

  /**
    The fields of the interpolation mode word, as the value of the unsigned 32-bit
    pattern: a blur bit per axis and a 7-bit half-size field per axis above the low
    7-bit window field.
   */
  const XBlurBit: int := 0x00008000
  const YBlurBit: int := 0x00800000
  const ZBlurBit: int := 0x80000000
  const XSizeUnit: int := 0x00000100
  const YSizeUnit: int := 0x00010000
  const ZSizeUnit: int := 0x01000000
  const FieldLimit: int := 128

  datatype Option<T> = None | Some(value: T)

  /** `static_cast<int>` of a double: the integer part, truncated toward zero. */
  function Truncate(y: real): (n: int)
    ensures y >= 0.0 ==> n >= 0 && n as real <= y < n as real + 1.0
    ensures y < 0.0 ==> n <= 0 && n as real - 1.0 < y <= n as real
  {
    if y >= 0.0 then y.Floor else -((-y).Floor)
  }

  /**
    The kernel size for a (scaled) radius r: 2*int(r + 1 - tol), the even number of
    samples that covers r on both sides.
   */
  function Extent(r: real): (size: int)
    ensures size % 2 == 0
    ensures r >= 0.0 ==> size >= 0 && (size as real) <= 2.0 * (r + 1.0 - FloorTol) < size as real + 2.0
    ensures r >= FloorTol ==> size >= 2
  {
    2 * Truncate(r + 1.0 - FloorTol)
  }

  /** Extent never shrinks as the radius grows. */
  lemma {:induction false} ExtentMonotone(r: real, s: real)
    requires 0.0 <= r <= s
    ensures Extent(r) <= Extent(s)
  {
    var a := r + 1.0 - FloorTol;
    var b := s + 1.0 - FloorTol;
    assert a.Floor <= b.Floor;
  }

  /**
    A radius scaled by a factor.  Kept as a function of its own so that the solver sees
    the product as one term next to the truncation in Extent.
   */
  function Scaled(scale: real, radius: real): real
  {
    scale * radius
  }

  /** A blur factor widens the kernel when it exceeds 1 by more than the tolerance. */
  predicate Blurs(scale: real)
  {
    scale > 1.0 + FloorTol
  }

  /**
    The size of one axis before the matrix is looked at: KernelSizeMax with
    antialiasing, otherwise the extent of the radius, scaled by the blur factor when it
    blurs.
   */
  function DefaultSize(antialiasing: bool, radius: real, blur: real): (size: int)
    ensures size % 2 == 0
    ensures antialiasing ==> size == KernelSizeMax
    ensures !antialiasing && !Blurs(blur) ==> size == Extent(radius)
    ensures !antialiasing && Blurs(blur) ==> size == Extent(Scaled(blur, radius))
  {
    if antialiasing then KernelSizeMax
    else if Blurs(blur) then Extent(Scaled(blur, radius))
    else Extent(radius)
  }

  /** A matrix whose bottom row is not (0, 0, 0, 1) does perspective. */
  predicate Perspective(m: seq<real>)
    requires |m| == 16
  {
    m[12] != 0.0 || m[13] != 0.0 || m[14] != 0.0 || m[15] != 1.0
  }

  /** The sum of the squares of the first n elements of row i of the matrix. */
  function RowSquare(m: seq<real>, i: int, n: int): (s: real)
    requires |m| == 16 && 0 <= i < 3 && 0 <= n <= 3
    ensures s >= 0.0
  {
    if n == 0 then 0.0 else RowSquare(m, i, n - 1) + m[4 * i + n - 1] * m[4 * i + n - 1]
  }

  /** The squared length of the first three elements of row i, summed one element at a time. */
  method RowLengthSquared(m: seq<real>, i: int) returns (rowscale: real)
    requires |m| == 16 && 0 <= i < 3
    ensures rowscale == RowSquare(m, i, 3)
  {
    rowscale := 0.0;
    var j := 0;
    while j < 3
      invariant 0 <= j <= 3
      invariant rowscale == RowSquare(m, i, j)
    {
      var x := m[4 * i + j];
      rowscale := rowscale + x * x;
      j := j + 1;
    }
  }

  /** What ComputeSupportSize leaves on one axis: the size reported, the blur factor, the kernel size. */
  datatype Axis = Axis(size: int, blur: real, kernel: int)

  /**
    The outcome on axis i.  Without a matrix only the reported size is computed.  With a
    matrix, antialiasing resets the blur factor to 1 and the kernel to the radius's
    extent, while without antialiasing the kernel takes the reported size; a perspective
    matrix stops there.  Otherwise the row's scale (the length of the row with
    antialiasing, the blur factor without) widens the kernel when it blurs.
   */
  function AxisSupport(antialiasing: bool, radius: real, blur: real, kernel: int,
                       matrix: Option<seq<real>>, i: int, sqrt: real -> real): (axis: Axis)
    requires 0 <= i < 3 && (matrix.Some? ==> |matrix.value| == 16)
  {
    var size := DefaultSize(antialiasing, radius, blur);
    match matrix
    case None => Axis(size, blur, kernel)
    case Some(m) =>
      var prepared := Prepared(antialiasing, radius, blur, size);
      if Perspective(m) then prepared
      else Rescaled(antialiasing, radius, prepared, RowSquare(m, i, 3), sqrt)
  }

  /**
    An axis once a matrix is given: antialiasing resets the blur factor to 1 and the
    kernel to the radius's extent; without it the kernel takes the reported size.
   */
  function Prepared(antialiasing: bool, radius: real, blur: real, size: int): (axis: Axis)
    ensures axis.size == size
    ensures antialiasing ==> axis.blur == 1.0 && axis.kernel == Extent(radius)
    ensures !antialiasing ==> axis.blur == blur && axis.kernel == size
  {
    if antialiasing then Axis(size, 1.0, Extent(radius)) else Axis(size, blur, size)
  }

  /**
    An axis after its matrix row is read: the scale (the row's length with antialiasing,
    the blur factor without) becomes the blur factor and widens the kernel when it blurs.
   */
  function Rescaled(antialiasing: bool, radius: real, axis: Axis, rowSquare: real,
                    sqrt: real -> real): (r: Axis)
    ensures var scale := if antialiasing then sqrt(rowSquare) else axis.blur;
            (Blurs(scale) ==> r.blur == scale && r.size == r.kernel == Extent(Scaled(scale, radius))) &&
            (!Blurs(scale) ==> r == axis)
  {
    var scale := if antialiasing then sqrt(rowSquare) else axis.blur;
    if Blurs(scale) then Axis(Extent(Scaled(scale, radius)), scale, Extent(Scaled(scale, radius))) else axis
  }

  /** Every size ComputeSupportSize reports or stores is even. */
  lemma SupportIsEven(antialiasing: bool, radius: real, blur: real, kernel: int,
                      matrix: Option<seq<real>>, i: int, sqrt: real -> real)
    requires 0 <= i < 3 && (matrix.Some? ==> |matrix.value| == 16)
    requires kernel % 2 == 0
    ensures var axis := AxisSupport(antialiasing, radius, blur, kernel, matrix, i, sqrt);
            axis.size % 2 == 0 && axis.kernel % 2 == 0
  {
  }

  /**
    Without antialiasing the matrix changes nothing but the kernel size, which becomes
    the reported size.
   */
  lemma MatrixIgnoredWithoutAntialiasing(radius: real, blur: real, kernel: int,
                                         m: seq<real>, i: int, sqrt: real -> real)
    requires 0 <= i < 3 && |m| == 16
    ensures var size := DefaultSize(false, radius, blur);
            AxisSupport(false, radius, blur, kernel, Some(m), i, sqrt) == Axis(size, blur, size)
  {
  }

  /**
    Blurring never narrows the kernel: for a non-negative radius, without antialiasing
    the reported size is at least the radius's extent, and once a matrix is given the
    kernel size is at least that extent too.
   */
  lemma {:induction false} BlurNeverNarrows(antialiasing: bool, radius: real, blur: real, kernel: int,
                                            matrix: Option<seq<real>>, i: int, sqrt: real -> real)
    requires 0 <= i < 3 && (matrix.Some? ==> |matrix.value| == 16)
    requires radius >= 0.0
    ensures var axis := AxisSupport(antialiasing, radius, blur, kernel, matrix, i, sqrt);
            (!antialiasing ==> axis.size >= Extent(radius)) &&
            (matrix.Some? ==> axis.kernel >= Extent(radius))
  {
    if Blurs(blur) {
      ScaledExtent(radius, blur);
    }
    if matrix.Some? && antialiasing {
      var scale := sqrt(RowSquare(matrix.value, i, 3));
      if Blurs(scale) {
        ScaledExtent(radius, scale);
      }
    }
  }

  /** A radius scaled by a blurring factor has at least the radius's extent. */
  lemma ScaledExtent(radius: real, scale: real)
    requires radius >= 0.0 && Blurs(scale)
    ensures Extent(Scaled(scale, radius)) >= Extent(radius)
  {
    ScaleWidens(scale, radius);
    ExtentMonotone(radius, Scaled(scale, radius));
  }

  lemma ScaleWidens(scale: real, radius: real)
    requires radius >= 0.0 && scale >= 1.0
    ensures Scaled(scale, radius) >= radius
  {
    assert (scale - 1.0) * radius >= 0.0;
  }

  /**
    The half-size of one axis: half the kernel size (truncated), clamped into
    [1, MaxHalfSize].
   */
  function HalfSize(kernel: int): (h: int)
    ensures 1 <= h <= MaxHalfSize
    ensures 1 <= kernel / 2 <= MaxHalfSize && kernel >= 0 ==> h == kernel / 2
    ensures kernel < 4 ==> h == 1
    ensures kernel >= 2 * MaxHalfSize ==> h == MaxHalfSize
  {
    var size := FixedPoint.TruncatedDivision(kernel, 2);
    var size := if size > 1 then size else 1;
    if size < MaxHalfSize then size else MaxHalfSize
  }

  /** The 7-bit field of w that starts at `unit`. */
  function SizeField(w: int, unit: int): int
    requires unit > 0
  {
    (w / unit) % FieldLimit
  }

  /** Whether the bit `bit` of w is set. */
  predicate BitSet(w: int, bit: int)
    requires bit > 0
  {
    (w / bit) % 2 == 1
  }

  /**
    The mode word: the blur bits and the three half-sizes shifted to bits 8, 16 and 24.
    The fields do not overlap, so OR-ing each into the word adds it.
   */
  function ModeWord(hx: int, hy: int, hz: int, blurX: bool, blurY: bool, blurZ: bool): (w: int)
    requires 0 <= hx < FieldLimit && 0 <= hy < FieldLimit && 0 <= hz < FieldLimit
    ensures 0 <= w < 0x1_0000_0000
  {
    (if blurX then XBlurBit else 0) + (if blurY then YBlurBit else 0) + (if blurZ then ZBlurBit else 0) +
    hx * XSizeUnit + hy * YSizeUnit + hz * ZSizeUnit
  }

  /** Every field of the mode word reads back what was packed into it, and the window field stays clear. */
  lemma ModeWordFields(hx: int, hy: int, hz: int, blurX: bool, blurY: bool, blurZ: bool)
    requires 0 <= hx < FieldLimit && 0 <= hy < FieldLimit && 0 <= hz < FieldLimit
    ensures var w := ModeWord(hx, hy, hz, blurX, blurY, blurZ);
            SizeField(w, XSizeUnit) == hx && SizeField(w, YSizeUnit) == hy && SizeField(w, ZSizeUnit) == hz &&
            BitSet(w, XBlurBit) == blurX && BitSet(w, YBlurBit) == blurY && BitSet(w, ZBlurBit) == blurZ &&
            w % FieldLimit == 0
  {
    var w := ModeWord(hx, hy, hz, blurX, blurY, blurZ);
    var xb, yb, zb := Bit(blurX), Bit(blurY), Bit(blurZ);
    // w read from bit 8 upward, one field at a time
    var fromX := hx + 128 * (xb + 2 * (hy + 128 * (yb + 2 * (hz + 128 * zb))));
    assert w == 256 * fromX;
    ReadField(w, 256, fromX, 0);
    ReadField(fromX, 128, xb + 2 * (hy + 128 * (yb + 2 * (hz + 128 * zb))), hx);
    ReadField(w, 0x8000, xb + 2 * (hy + 128 * (yb + 2 * (hz + 128 * zb))), hx * 256);
    var fromY := hy + 128 * (yb + 2 * (hz + 128 * zb));
    ReadField(w, 0x10000, fromY, hx * 256 + xb * 0x8000);
    ReadField(fromY, 128, yb + 2 * (hz + 128 * zb), hy);
    ReadField(w, 0x800000, yb + 2 * (hz + 128 * zb), hx * 256 + xb * 0x8000 + hy * 0x10000);
    var fromZ := hz + 128 * zb;
    ReadField(w, 0x1000000, fromZ, hx * 256 + xb * 0x8000 + hy * 0x10000 + yb * 0x800000);
    ReadField(fromZ, 128, zb, hz);
    ReadField(w, 0x80000000, zb, hx * 256 + xb * 0x8000 + hy * 0x10000 + yb * 0x800000 + hz * 0x1000000);
    ReadField(w, 128, 2 * fromX, 0);
    ReadField(xb + 2 * (hy + 128 * (yb + 2 * (hz + 128 * zb))), 2, hy + 128 * (yb + 2 * (hz + 128 * zb)), xb);
    ReadField(yb + 2 * (hz + 128 * zb), 2, hz + 128 * zb, yb);
    ReadField(zb, 2, 0, zb);
  }

  function Bit(b: bool): (n: int)
    ensures 0 <= n <= 1 && (n == 1 <==> b)
  {
    if b then 1 else 0
  }

  /** Dividing q * unit + low by unit, with the low part below unit, leaves q and low. */
  lemma ReadField(w: int, unit: int, q: int, low: int)
    requires unit > 0 && 0 <= low < unit && w == q * unit + low
    ensures w / unit == q && w % unit == low
  {
    var d, r := w / unit, w % unit;
    var k := d - q;
    assert k * unit == low - r by {
      Distribute(d, q, unit);
    }
    if k >= 1 {
      MulAtLeast(k, unit);
    } else if k <= -1 {
      MulAtLeast(-k, unit);
    }
  }

  lemma Distribute(d: int, q: int, unit: int)
    ensures (d - q) * unit == d * unit - q * unit
  {
  }

  lemma MulAtLeast(k: int, unit: int)
    requires k >= 1 && unit > 0
    ensures k * unit >= unit
  {
  }

  class LabelInterpolator {
    var radiusFactors: array<real>
    var blurFactors: array<real>
    /** the blur factors the kernel tables were last built for */
    var lastBlurFactors: array<real>
    var kernelSize: array<int>
    var antialiasing: int
    var mtime: nat

    predicate Valid()
      reads this
    {
      radiusFactors.Length == 3 && blurFactors.Length == 3 && lastBlurFactors.Length == 3 &&
      kernelSize.Length == 3 &&
      radiusFactors != blurFactors && radiusFactors != lastBlurFactors && blurFactors != lastBlurFactors &&
      (antialiasing == 0 || antialiasing == 1)
    }

    /** Radius factors of 3, kernels of 6, no blur and no antialiasing. */
    constructor ()
      ensures Valid() && fresh(radiusFactors) && fresh(blurFactors) && fresh(lastBlurFactors) && fresh(kernelSize)
      ensures radiusFactors[..] == [3.0, 3.0, 3.0] && kernelSize[..] == [6, 6, 6]
      ensures blurFactors[..] == [1.0, 1.0, 1.0] && lastBlurFactors[..] == [1.0, 1.0, 1.0]
      ensures antialiasing == 0 && mtime == 0
    {
      radiusFactors := new real[3] [3.0, 3.0, 3.0];
      kernelSize := new int[3] [6, 6, 6];
      antialiasing := 0;
      blurFactors := new real[3] [1.0, 1.0, 1.0];
      lastBlurFactors := new real[3] [1.0, 1.0, 1.0];
      mtime := 0;
    }

    /** Set the radius factors; mark the object modified only when some component changes. */
    method SetRadiusFactors(x: real, y: real, z: real)
      requires Valid()
      modifies this, radiusFactors
      ensures Valid() && radiusFactors == old(radiusFactors) && blurFactors == old(blurFactors)
      ensures lastBlurFactors == old(lastBlurFactors) && kernelSize == old(kernelSize)
      ensures antialiasing == old(antialiasing)
      ensures radiusFactors[..] == [x, y, z]
      ensures mtime == if old(radiusFactors[..]) != [x, y, z] then old(mtime) + 1 else old(mtime)
    {
      if radiusFactors[0] != x || radiusFactors[1] != y || radiusFactors[2] != z {
        radiusFactors[0], radiusFactors[1], radiusFactors[2] := x, y, z;
        mtime := mtime + 1;
      } else {
        assert radiusFactors[..] == [x, y, z];
      }
    }

    /** Set the blur factors; mark the object modified only when some component changes. */
    method SetBlurFactors(x: real, y: real, z: real)
      requires Valid()
      modifies this, blurFactors
      ensures Valid() && radiusFactors == old(radiusFactors) && blurFactors == old(blurFactors)
      ensures lastBlurFactors == old(lastBlurFactors) && kernelSize == old(kernelSize)
      ensures antialiasing == old(antialiasing)
      ensures blurFactors[..] == [x, y, z]
      ensures mtime == if old(blurFactors[..]) != [x, y, z] then old(mtime) + 1 else old(mtime)
    {
      if blurFactors[0] != x || blurFactors[1] != y || blurFactors[2] != z {
        blurFactors[0], blurFactors[1], blurFactors[2] := x, y, z;
        mtime := mtime + 1;
      } else {
        assert blurFactors[..] == [x, y, z];
      }
    }

    /** Switch antialiasing on for any nonzero value; mark the object modified only on a change. */
    method SetAntialiasing(val: int)
      requires Valid()
      modifies this
      ensures Valid() && radiusFactors == old(radiusFactors) && blurFactors == old(blurFactors)
      ensures lastBlurFactors == old(lastBlurFactors) && kernelSize == old(kernelSize)
      ensures antialiasing == if val != 0 then 1 else 0
      ensures mtime == if antialiasing != old(antialiasing) then old(mtime) + 1 else old(mtime)
    {
      var v := if val != 0 then 1 else 0;
      if antialiasing != v {
        antialiasing := v;
        mtime := mtime + 1;
      }
    }

    /**
      Compute the support size of each axis into `size`.  Without a matrix only `size` is
      written; with one, the blur factors and kernel sizes are updated as AxisSupport
      describes and the mode word is rebuilt.
     */
    method ComputeSupportSize(matrix: Option<seq<real>>, sqrt: real -> real, size: array<int>)
      requires Valid() && size.Length == 3 && size != kernelSize
      requires matrix.Some? ==> |matrix.value| == 16
      modifies size, blurFactors, kernelSize
      ensures forall i :: 0 <= i < 3 ==>
                AxisOf(size, i) == AxisSupport(antialiasing != 0, radiusFactors[i], old(blurFactors[i]),
                                               old(kernelSize[i]), matrix, i, sqrt)
    {
      ComputeDefaultSize(size);
      if matrix.None? {
        return;
      }
      var m := matrix.value;
      PrepareForMatrix(size);
      if Perspective(m) {
        return;
      }
      RescaleRows(m, sqrt, size);
      var _, _ := InternalUpdate();
    }

    /** The size reported, the blur factor and the kernel size of axis i. */
    function AxisOf(size: array<int>, i: int): (axis: Axis)
      requires Valid() && size.Length == 3 && 0 <= i < 3
      reads this, size, blurFactors, kernelSize
      ensures axis.size == size[i] && axis.blur == blurFactors[i] && axis.kernel == kernelSize[i]
    {
      Axis(size[i], blurFactors[i], kernelSize[i])
    }

    /** The size of each axis before any matrix is looked at. */
    method ComputeDefaultSize(size: array<int>)
      requires Valid() && size.Length == 3 && size != kernelSize
      modifies size
      ensures forall k :: 0 <= k < 3 ==> size[k] == DefaultSize(antialiasing != 0, radiusFactors[k], blurFactors[k])
    {
      if antialiasing != 0 {
        size[0], size[1], size[2] := KernelSizeMax, KernelSizeMax, KernelSizeMax;
      } else {
        var i := 0;
        while i < 3
          invariant 0 <= i <= 3
          invariant forall k :: 0 <= k < i ==> size[k] == DefaultSize(false, radiusFactors[k], blurFactors[k])
        {
          size[i] := Extent(radiusFactors[i]);
          var rowscale := blurFactors[i];
          if Blurs(rowscale) {
            size[i] := Extent(Scaled(rowscale, radiusFactors[i]));
          }
          i := i + 1;
        }
      }
    }

    /** Reset the blur factors and kernel sizes once a matrix is given. */
    method PrepareForMatrix(size: array<int>)
      requires Valid() && size.Length == 3 && size != kernelSize
      modifies blurFactors, kernelSize
      ensures forall k :: 0 <= k < 3 ==>
                AxisOf(size, k) == Prepared(antialiasing != 0, radiusFactors[k], old(blurFactors[k]), size[k])
    {
      if antialiasing != 0 {
        var i := 0;
        while i < 3
          invariant 0 <= i <= 3
          invariant forall k :: 0 <= k < i ==> blurFactors[k] == 1.0 && kernelSize[k] == Extent(radiusFactors[k])
        {
          blurFactors[i] := 1.0;
          kernelSize[i] := Extent(radiusFactors[i]);
          i := i + 1;
        }
      } else {
        kernelSize[0], kernelSize[1], kernelSize[2] := size[0], size[1], size[2];
      }
    }

    /** Widen each axis whose matrix row, or blur factor, scales by more than 1. */
    method RescaleRows(m: seq<real>, sqrt: real -> real, size: array<int>)
      requires Valid() && size.Length == 3 && size != kernelSize && |m| == 16
      modifies size, blurFactors, kernelSize
      ensures forall k :: 0 <= k < 3 ==>
                AxisOf(size, k) == Rescaled(antialiasing != 0, radiusFactors[k],
                                            old(AxisOf(size, k)), RowSquare(m, k, 3), sqrt)
    {
      var i := 0;
      while i < 3
        invariant 0 <= i <= 3
        invariant forall k :: 0 <= k < i ==>
                    AxisOf(size, k) == Rescaled(antialiasing != 0, radiusFactors[k],
                                                old(AxisOf(size, k)), RowSquare(m, k, 3), sqrt)
        invariant forall k :: i <= k < 3 ==> AxisOf(size, k) == old(AxisOf(size, k))
      {
        var rowscale := RowLengthSquared(m, i);
        if antialiasing != 0 {
          rowscale := sqrt(rowscale);
        } else {
          rowscale := blurFactors[i];
        }
        if Blurs(rowscale) {
          blurFactors[i] := rowscale;
          var s := Extent(Scaled(rowscale, radiusFactors[i]));
          size[i] := s;
          kernelSize[i] := s;
        }
        i := i + 1;
      }
    }

    /**
      The mode word InternalUpdate builds, and whether any blur factor has moved by the
      tolerance since the kernel tables were built; the source compares both with the
      stored state before rebuilding the tables, which is not part of this model.
     */
    method InternalUpdate() returns (mode: int, blurChange: bool)
      requires Valid()
      ensures mode == ModeWord(HalfSize(kernelSize[0]), HalfSize(kernelSize[1]), HalfSize(kernelSize[2]),
                               Blurs(blurFactors[0]), Blurs(blurFactors[1]), Blurs(blurFactors[2]))
      ensures blurChange <==> exists i :: 0 <= i < 3 && Abs(blurFactors[i] - lastBlurFactors[i]) >= FloorTol
    {
      var hsize := new int[3];
      blurChange := false;
      var i := 0;
      while i < 3
        invariant 0 <= i <= 3
        invariant forall k :: 0 <= k < i ==> hsize[k] == HalfSize(kernelSize[k])
        invariant blurChange <==> exists k :: 0 <= k < i && Abs(blurFactors[k] - lastBlurFactors[k]) >= FloorTol
      {
        var size := FixedPoint.TruncatedDivision(kernelSize[i], 2);
        size := if size > 1 then size else 1;
        size := if size < MaxHalfSize then size else MaxHalfSize;
        hsize[i] := size;
        blurChange := blurChange || Abs(blurFactors[i] - lastBlurFactors[i]) >= FloorTol;
        i := i + 1;
      }
      mode := 0;
      if Blurs(blurFactors[0]) {
        mode := mode + XBlurBit;
      }
      if Blurs(blurFactors[1]) {
        mode := mode + YBlurBit;
      }
      if Blurs(blurFactors[2]) {
        mode := mode + ZBlurBit;
      }
      mode := mode + hsize[0] * XSizeUnit;
      mode := mode + hsize[1] * YSizeUnit;
      mode := mode + hsize[2] * ZSizeUnit;
    }

    /**
      Copy the settings of another label interpolator (none when `obj` is not one): its
      radius factors and antialiasing through the setters, its blur factors directly when
      antialiasing is on and through the setter otherwise; then reset every kernel size
      to 6.
     */
    method InternalDeepCopy(obj: LabelInterpolator?)
      requires Valid() && (obj != null ==> obj.Valid())
      requires obj != null && obj != this ==>
                 {obj.radiusFactors, obj.blurFactors} !! {radiusFactors, blurFactors}
      modifies this, radiusFactors, blurFactors, kernelSize
      ensures Valid() && radiusFactors == old(radiusFactors) && blurFactors == old(blurFactors)
      ensures lastBlurFactors == old(lastBlurFactors) && kernelSize == old(kernelSize)
      ensures kernelSize[..] == [6, 6, 6]
      ensures obj == null ==>
                radiusFactors[..] == old(radiusFactors[..]) && blurFactors[..] == old(blurFactors[..]) &&
                antialiasing == old(antialiasing) && mtime == old(mtime)
      ensures obj != null ==>
                radiusFactors[..] == old(obj.radiusFactors[..]) && blurFactors[..] == old(obj.blurFactors[..]) &&
                antialiasing == old(obj.antialiasing)
      ensures obj != null ==>
                mtime == old(mtime) + (if old(radiusFactors[..]) != old(obj.radiusFactors[..]) then 1 else 0)
                         + (if old(antialiasing) != old(obj.antialiasing) then 1 else 0)
                         + (if old(obj.antialiasing) == 0 && old(blurFactors[..]) != old(obj.blurFactors[..])
                            then 1 else 0)
    {
      if obj != null {
        ghost var radius0 := obj.radiusFactors[..];
        ghost var blur0 := obj.blurFactors[..];
        ghost var anti0 := obj.antialiasing;
        SetRadiusFactors(obj.radiusFactors[0], obj.radiusFactors[1], obj.radiusFactors[2]);
        assert obj.blurFactors[..] == blur0 && obj.antialiasing == anti0;
        SetAntialiasing(obj.antialiasing);
        assert obj.blurFactors[..] == blur0;
        if antialiasing != 0 {
          blurFactors[0], blurFactors[1], blurFactors[2] :=
            obj.blurFactors[0], obj.blurFactors[1], obj.blurFactors[2];
          assert blurFactors[..] == blur0;
        } else {
          SetBlurFactors(obj.blurFactors[0], obj.blurFactors[1], obj.blurFactors[2]);
        }
      }
      kernelSize[0], kernelSize[1], kernelSize[2] := 6, 6, 6;
    }
  }
}
