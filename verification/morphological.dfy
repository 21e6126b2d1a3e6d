/**
  The parameter handling of ImageRegistration/vtkMorphologicalInterpolator.cxx: the
  operation and radius settings, the clamped radius and its inverse that the kernel
  reads, the support size, and the block sizes and distance table that the dilate or
  erode kernel builds for each sample.

  `Modified()` is modelled as a modification counter.  The header that defines the
  operation codes and VTK_IMI_KERNEL_SIZE_MAX is not part of this model; the values
  below are taken as given.
 */
module Morphological {
  import opened Reals

  /** The operation codes (taken as dilate 0, erode 1). */
  const Dilate: int := 0
  const Erode: int := 1

  /** The largest kernel the interpolator supports (taken as 32). */
  const KernelSizeMax: int := 32
  /** The largest radius: a kernel of KernelSizeMax samples. */
  const MaxRadius: real := (KernelSizeMax as real - 1.0) * 0.5
  /** The smallest radius that is inverted. */
  const MinRadius: real := 0.00000000000000001

  /** The operation's name, "" for anything else. */
  function OperationAsString(operation: int): (r: string)
    ensures r == "Dilate" <==> operation == Dilate
    ensures r == "Erode" <==> operation == Erode
    ensures r == "" <==> operation != Dilate && operation != Erode
  {
    if operation == Dilate then "Dilate"
    else if operation == Erode then "Erode"
    else ""
  }

  /** A radius clamped into [0, MaxRadius]. */
  function ClampRadius(r: real): (c: real)
    ensures 0.0 <= c <= MaxRadius
    ensures 0.0 <= r <= MaxRadius ==> c == r
  {
    var c := if r >= 0.0 then r else 0.0;
    if c <= MaxRadius then c else MaxRadius
  }

  /** The inverse of a clamped radius, with radii below MinRadius inverted as MinRadius. */
  function InverseRadius(c: real): (inv: real)
    ensures inv > 0.0
    ensures c >= MinRadius ==> inv * c == 1.0
    ensures c < MinRadius ==> inv * MinRadius == 1.0
  {
    1.0 / (if c >= MinRadius then c else MinRadius)
  }

  /** The number of samples along an axis of radius r: 1 + 2*int(r). */
  function SupportSize(r: real): (size: int)
    requires r >= 0.0
    ensures size >= 1 && size % 2 == 1
    ensures r <= MaxRadius ==> size <= KernelSizeMax
  {
    1 + 2 * r.Floor
  }

  class MorphologicalInterpolator {
    var operation: int
    var radius: array<real>
    /** the clamped radii (0..2) followed by their inverses (3..5) */
    var internalRadius: array<real>
    /** the operation that the interpolation kernel is told to apply */
    var interpolationMode: int
    var mtime: nat

    predicate Valid()
      reads this
    {
      radius.Length == 3 && internalRadius.Length == 6 && radius != internalRadius &&
      Dilate <= operation <= Erode
    }

    /** Dilation with a radius of half a voxel on every axis. */
    constructor ()
      ensures Valid() && fresh(radius) && fresh(internalRadius)
      ensures operation == Dilate && radius[..] == [0.5, 0.5, 0.5]
      ensures mtime == 0
    {
      operation := Dilate;
      radius := new real[3] [0.5, 0.5, 0.5];
      internalRadius := new real[6] [0.0, 0.0, 0.0, 0.0, 0.0, 0.0];
      interpolationMode := Dilate;
      mtime := 0;
    }

    /** The operation's name. */
    function GetOperationAsString(): (r: string)
      requires Valid()
      reads this
      ensures r == "Dilate" || r == "Erode"
    {
      OperationAsString(operation)
    }

    /** Clamp `mode` into [Dilate, Erode]; mark the object modified only when it changes. */
    method SetOperation(mode: int)
      requires Valid()
      modifies this
      ensures Valid() && radius == old(radius) && internalRadius == old(internalRadius)
      ensures operation == (if mode < Dilate then Dilate else if mode > Erode then Erode else mode)
      ensures mtime == if operation != old(operation) then old(mtime) + 1 else old(mtime)
      ensures interpolationMode == old(interpolationMode)
    {
      var m := if mode > Dilate then mode else Dilate;
      m := if m < Erode then m else Erode;
      if operation != m {
        operation := m;
        mtime := mtime + 1;
      }
    }

    /** Set the radius; mark the object modified only when some component changes. */
    method SetRadius(x: real, y: real, z: real)
      requires Valid()
      modifies this, radius
      ensures Valid() && radius == old(radius) && internalRadius == old(internalRadius)
      ensures radius[..] == [x, y, z]
      ensures mtime == if old(radius[..]) != [x, y, z] then old(mtime) + 1 else old(mtime)
      ensures operation == old(operation) && interpolationMode == old(interpolationMode)
      ensures unchanged(internalRadius)
    {
      if radius[0] != x || radius[1] != y || radius[2] != z {
        radius[0], radius[1], radius[2] := x, y, z;
        mtime := mtime + 1;
      } else {
        assert radius[..] == [x, y, z];
      }
    }

    /**
      Store each radius clamped into [0, MaxRadius] and, three entries on, its inverse.
     */
    method ComputeInternalRadius(r: seq<real>)
      requires Valid() && |r| == 3
      modifies internalRadius
      ensures forall i :: 0 <= i < 3 ==>
                internalRadius[i] == ClampRadius(r[i]) &&
                internalRadius[i + 3] == InverseRadius(ClampRadius(r[i]))
    {
      var i := 0;
      while i < 3
        invariant 0 <= i <= 3
        invariant forall k :: 0 <= k < i ==>
                    internalRadius[k] == ClampRadius(r[k]) &&
                    internalRadius[k + 3] == InverseRadius(ClampRadius(r[k]))
      {
        var c := if r[i] >= 0.0 then r[i] else 0.0;
        c := if c <= MaxRadius then c else MaxRadius;
        internalRadius[i] := c;
        c := if c >= MinRadius then c else MinRadius;
        internalRadius[i + 3] := 1.0 / c;
        i := i + 1;
      }
    }

    /** Refresh the clamped radii and hand the operation to the kernel. */
    method InternalUpdate()
      requires Valid()
      modifies this, internalRadius
      ensures Valid() && radius == old(radius) && internalRadius == old(internalRadius)
      ensures operation == old(operation) && mtime == old(mtime) && unchanged(radius)
      ensures interpolationMode == operation
      ensures forall i :: 0 <= i < 3 ==>
                internalRadius[i] == ClampRadius(radius[i]) &&
                internalRadius[i + 3] == InverseRadius(ClampRadius(radius[i]))
    {
      ComputeInternalRadius(radius[..]);
      interpolationMode := operation;
    }

    /** The support on each axis: an odd number of samples that fits in the kernel. */
    method ComputeSupportSize() returns (size: seq<int>)
      requires Valid()
      modifies this, internalRadius
      ensures Valid() && radius == old(radius) && internalRadius == old(internalRadius)
      ensures |size| == 3
      ensures forall i :: 0 <= i < 3 ==>
                size[i] == SupportSize(ClampRadius(radius[i])) &&
                1 <= size[i] <= KernelSizeMax && size[i] % 2 == 1
    {
      InternalUpdate();
      size := [SupportSize(internalRadius[0]), SupportSize(internalRadius[1]),
               SupportSize(internalRadius[2])];
    }

    /**
      Copy the settings of another interpolator when it is a morphological one: its
      operation, its radius (both through their setters) and all six internal radius
      entries.  Any other interpolator (`obj == null`, the failed down-cast) changes
      nothing.
     */
    method InternalDeepCopy(obj: MorphologicalInterpolator?)
      requires Valid() && (obj != null ==> obj.Valid())
      requires obj != null && obj != this ==>
                 obj.radius != radius && obj.internalRadius != internalRadius &&
                 obj.radius != internalRadius && obj.internalRadius != radius
      modifies this, radius, internalRadius
      ensures Valid() && radius == old(radius) && internalRadius == old(internalRadius)
      ensures interpolationMode == old(interpolationMode)
      ensures obj == null ==>
                operation == old(operation) && radius[..] == old(radius[..]) &&
                internalRadius[..] == old(internalRadius[..]) && mtime == old(mtime)
      ensures obj != null ==> operation == old(obj.operation)
      ensures obj != null ==> radius[..] == old(obj.radius[..])
      ensures obj != null ==> internalRadius[..] == old(obj.internalRadius[..])
      ensures obj != null ==>
                mtime == old(mtime) + (if old(operation) != old(obj.operation) then 1 else 0)
                         + (if old(radius[..]) != old(obj.radius[..]) then 1 else 0)
    {
      if obj == null {
        return;
      }
      SetOperation(obj.operation);
      SetRadius(obj.radius[0], obj.radius[1], obj.radius[2]);
      ghost var source := obj.internalRadius[..];
      assert source == old(obj.internalRadius[..]);
      var i := 0;
      while i < 6
        invariant 0 <= i <= 6
        invariant Valid() && radius == old(radius) && internalRadius == old(internalRadius)
        invariant operation == old(obj.operation)
        invariant radius[..] == old(obj.radius[..])
        invariant obj.internalRadius.Length == 6
        invariant forall k :: 0 <= k < i ==> internalRadius[k] == source[k]
        invariant forall k :: i <= k < 6 ==> obj.internalRadius[k] == source[k]
        modifies internalRadius
      {
        internalRadius[i] := obj.internalRadius[i];
        i := i + 1;
      }
      assert internalRadius[..] == source;
    }
  }

  // ---------------------------------------------------------------------------
  // The kernel's block and distance table

  /**
    The block of samples around the nearest voxel: 2*int(r)+1 on each axis, and the
    largest of the three, which sizes the offset and distance tables.
   */
  function BlockWidths(rx: real, ry: real, rz: real): (w: (int, int, int, int))
    requires rx >= 0.0 && ry >= 0.0 && rz >= 0.0
    ensures w.0 == SupportSize(rx) && w.1 == SupportSize(ry) && w.2 == SupportSize(rz)
    ensures w.3 >= w.0 && w.3 >= w.1 && w.3 >= w.2
    ensures w.3 == w.0 || w.3 == w.1 || w.3 == w.2
    ensures rx <= MaxRadius && ry <= MaxRadius && rz <= MaxRadius ==> w.3 <= KernelSizeMax
  {
    var xm, ym, zm := 2 * rx.Floor + 1, 2 * ry.Floor + 1, 2 * rz.Floor + 1;
    var mm := if xm >= ym then xm else ym;
    (xm, ym, zm, if mm >= zm then mm else zm)
  }

  /**
    The index range of the loop over one axis: the whole block [0, 2r], or only the
    centre r when the image has a single slice along that axis.
   */
  function SliceLimits(r: int, multiple: bool): (limits: (int, int))
    ensures multiple ==> limits == (0, 2 * r)
    ensures !multiple ==> limits == (r, r)
  {
    var m := if multiple then 1 else 0;
    (r - r * m, r + r * m)
  }

  /**
    The weight of a sample at offset x from the point: the squared distance beyond half
    a voxel, scaled by the inverse radius.
   */
  function DistanceWeight(x: real, invRadius: real): (w: real)
    ensures w >= 0.0
    ensures Abs(x) <= 0.5 ==> w == 0.0
  {
    var d := Abs(x) - 0.5;
    var d1 := (if d < 0.0 then 0.0 else d) * invRadius;
    SquarePositive(d1);
    d1 * d1
  }

  lemma SquarePositive(d: real)
    ensures d * d >= 0.0
    ensures d != 0.0 ==> d * d > 0.0
  {
    var a := Abs(d);
    PositiveProduct(a, a);
    assert d != 0.0 ==> a > 0.0;
    assert d * d == a * a;
  }

  lemma PositiveProduct(a: real, b: real)
    requires a >= 0.0 && b >= 0.0
    ensures a * b >= 0.0
    ensures a > 0.0 && b > 0.0 ==> a * b > 0.0
  {
  }

  /**
    Fill the distance table of one axis: entry l is the weight of the sample at offset
    -r - f + l, where f is the point's offset from its nearest voxel.
   */
  method DistanceTable(r: int, f: real, invRadius: real, table: array<real>)
    modifies table
    ensures forall l :: 0 <= l < table.Length ==>
              table[l] == DistanceWeight(-(r as real) - f + l as real, invRadius) && table[l] >= 0.0
  {
    var x := -(r as real) - f;
    var ll := 0;
    while ll < table.Length
      invariant 0 <= ll <= table.Length
      invariant x == -(r as real) - f + ll as real
      invariant forall l :: 0 <= l < ll ==> table[l] == DistanceWeight(-(r as real) - f + l as real, invRadius)
    {
      var d := Abs(x) - 0.5;
      d := if d < 0.0 then 0.0 else d;
      d := d * invRadius;
      table[ll] := d * d;
      ll := ll + 1;
      x := x + 1.0;
    }
  }
}
