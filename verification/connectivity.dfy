/**
  The helper logic of ImageSegmentation/vtkImageConnectivityFilter.cxx: the filter's
  defaults and mode names, the seed and region records, the choice of the smallest
  and largest region, extent intersection, and the clamping of the active component
  and of the lower scalar bound before thresholding.
 */
module Connectivity {

  // ---------------------------------------------------------------------------
  // Mode and type codes

  /** Label modes (the class header is not part of this model; these are the enum's order). */
  const SeedScalar: int := 0
  const ConstantValue: int := 1
  const SizeRank: int := 2

  /** Extraction modes, in the enum's order. */
  const SeededRegions: int := 0
  const AllRegions: int := 1
  const LargestRegion: int := 2

  /** VTK scalar type codes, as vtkType.h numbers them. */
  const UnsignedCharType: int := 3
  const ShortType: int := 4
  const UnsignedShortType: int := 5
  const IntType: int := 6

  /** The largest double and the largest 64-bit id. */
  const DoubleMax: real := 179769313486231570000000000000000000000000000000000000000000000000000000000000000000000000000000000000000000000000000000000000000000000000000000000000000000000000000000000000000000000000000000000000000000000000000000000000000000000000000000000000000000000000000000000000000000000000000000000000000000000000000.0
  const IdMax: int := 9223372036854775807

  /** The name of a label scalar type, "Unknown" for a type labels cannot have. */
  function LabelScalarTypeAsString(t: int): (r: string)
    ensures r == "UnsignedChar" <==> t == UnsignedCharType
    ensures r == "Short" <==> t == ShortType
    ensures r == "UnsignedShort" <==> t == UnsignedShortType
    ensures r == "Int" <==> t == IntType
    ensures r == "Unknown" <==> t !in {UnsignedCharType, ShortType, UnsignedShortType, IntType}
  {
    if t == UnsignedCharType then "UnsignedChar"
    else if t == ShortType then "Short"
    else if t == UnsignedShortType then "UnsignedShort"
    else if t == IntType then "Int"
    else "Unknown"
  }

  /** The name of a label mode, "Unknown" for any other value. */
  function LabelModeAsString(mode: int): (r: string)
    ensures r == "SeedScalar" <==> mode == SeedScalar
    ensures r == "ConstantValue" <==> mode == ConstantValue
    ensures r == "SizeRank" <==> mode == SizeRank
    ensures r == "Unknown" <==> mode !in {SeedScalar, ConstantValue, SizeRank}
  {
    if mode == SeedScalar then "SeedScalar"
    else if mode == ConstantValue then "ConstantValue"
    else if mode == SizeRank then "SizeRank"
    else "Unknown"
  }

  /** The name of an extraction mode, "Unknown" for any other value. */
  function ExtractionModeAsString(mode: int): (r: string)
    ensures r == "SeededRegions" <==> mode == SeededRegions
    ensures r == "AllRegions" <==> mode == AllRegions
    ensures r == "LargestRegion" <==> mode == LargestRegion
    ensures r == "Unknown" <==> mode !in {SeededRegions, AllRegions, LargestRegion}
  {
    if mode == SeededRegions then "SeededRegions"
    else if mode == AllRegions then "AllRegions"
    else if mode == LargestRegion then "LargestRegion"
    else "Unknown"
  }

  // ---------------------------------------------------------------------------
  // The filter's settings

  class ConnectivityFilter {
    var labelMode: int
    var extractionMode: int
    var scalarRange: (real, real)
    var sizeRange: (int, int)
    var labelConstantValue: int
    var activeComponent: int
    var labelScalarType: int
    var generateRegionExtents: bool

    /**
      The defaults: label by seed scalar, extract the seeded regions, threshold from 0.5
      up, keep regions of any size from 1 voxel, constant label 255, unsigned char labels.
     */
    constructor ()
      ensures labelMode == SeedScalar && extractionMode == SeededRegions
      ensures scalarRange == (0.5, DoubleMax) && sizeRange == (1, IdMax)
      ensures labelConstantValue == 255 && activeComponent == 0
      ensures labelScalarType == UnsignedCharType && !generateRegionExtents
      ensures LabelModeAsString(labelMode) == "SeedScalar"
      ensures ExtractionModeAsString(extractionMode) == "SeededRegions"
      ensures LabelScalarTypeAsString(labelScalarType) == "UnsignedChar"
    {
      labelMode := SeedScalar;
      extractionMode := SeededRegions;
      scalarRange := (0.5, DoubleMax);
      sizeRange := (1, IdMax);
      labelConstantValue := 255;
      activeComponent := 0;
      labelScalarType := UnsignedCharType;
      generateRegionExtents := false;
    }
  }

  // ---------------------------------------------------------------------------
  // Seeds and regions

  /** A seed: structured coordinates (i, j, k) and a scalar value. */
  datatype Seed = Seed(i: int, j: int, k: int, value: int)
  {
    /** Coordinate n of the seed, as `seed[n]` reads it. */
    function Coordinate(n: int): int
      requires 0 <= n < 3
    {
      if n == 0 then i else if n == 1 then j else k
    }
  }

  /** The default seed: the origin with value 0. */
  function DefaultSeed(): (s: Seed)
    ensures forall n :: 0 <= n < 3 ==> s.Coordinate(n) == 0
    ensures s.value == 0
  {
    Seed(0, 0, 0, 0)
  }

  /** A seed at (i, j, k) with value 0. */
  function SeedAt(i: int, j: int, k: int): (s: Seed)
    ensures s.Coordinate(0) == i && s.Coordinate(1) == j && s.Coordinate(2) == k
    ensures s.value == 0
  {
    Seed(i, j, k, 0)
  }

  /**
    The copy constructor and assignment: each coordinate is read through `seed[n]` and
    the value through `*seed`, and written into a new seed.  The copy is the same seed.
   */
  function SeedCopy(seed: Seed): (c: Seed)
    ensures c == seed
  {
    Seed(seed.Coordinate(0), seed.Coordinate(1), seed.Coordinate(2), seed.value)
  }

  /** A connected region: its voxel count, its label id and its extent. */
  datatype Region = Region(size: int, id: int, extent: seq<int>)

  /** The default region: empty, id 0, zero extent. */
  function DefaultRegion(): (r: Region)
    ensures r.size == 0 && r.id == 0 && |r.extent| == 6
    ensures forall n :: 0 <= n < 6 ==> r.extent[n] == 0
  {
    Region(0, 0, [0, 0, 0, 0, 0, 0])
  }

  /**
    The smallest region, skipping the background at index 0; ties go to the last one.
    With only the background the result is the end of the vector, index 1.
   */
  method Smallest(regions: seq<Region>) returns (small: nat)
    requires |regions| >= 1
    ensures |regions| == 1 ==> small == 1
    ensures |regions| > 1 ==> 1 <= small < |regions|
    ensures |regions| > 1 ==> forall i :: 1 <= i < |regions| ==> regions[small].size <= regions[i].size
    ensures |regions| > 1 ==> forall i :: small < i < |regions| ==> regions[small].size < regions[i].size
  {
    small := 1;
    if small != |regions| {
      var i := small + 1;
      while i != |regions|
        invariant 1 <= small < i <= |regions|
        invariant forall n :: 1 <= n < i ==> regions[small].size <= regions[n].size
        invariant forall n :: small < n < i ==> regions[small].size < regions[n].size
      {
        if regions[i].size <= regions[small].size {
          small := i;
        }
        i := i + 1;
      }
    }
  }

  /**
    The largest region, skipping the background at index 0; ties go to the first one.
    With only the background the result is the end of the vector, index 1.
   */
  method Largest(regions: seq<Region>) returns (large: nat)
    requires |regions| >= 1
    ensures |regions| == 1 ==> large == 1
    ensures |regions| > 1 ==> 1 <= large < |regions|
    ensures |regions| > 1 ==> forall i :: 1 <= i < |regions| ==> regions[i].size <= regions[large].size
    ensures |regions| > 1 ==> forall i :: 1 <= i < large ==> regions[i].size < regions[large].size
  {
    large := 1;
    if large != |regions| {
      var i := large + 1;
      while i != |regions|
        invariant 1 <= large < i <= |regions|
        invariant forall n :: 1 <= n < i ==> regions[n].size <= regions[large].size
        invariant forall n :: 1 <= n < large ==> regions[n].size < regions[large].size
      {
        if regions[i].size > regions[large].size {
          large := i;
        }
        i := i + 1;
      }
    }
  }

  // ---------------------------------------------------------------------------
  // Extents

  /** An extent (x0, x1, y0, y1, z0, z1) contains a point when every coordinate is in range. */
  predicate InExtent(e: seq<int>, p: seq<int>)
    requires |e| == 6 && |p| == 3
  {
    forall a :: 0 <= a < 3 ==> e[2 * a] <= p[a] <= e[2 * a + 1]
  }

  /**
    Intersect two extents into `output`, axis by axis; the result says whether every
    axis of the intersection is non-empty.
   */
  method IntersectExtents(extent1: seq<int>, extent2: seq<int>, output: array<int>) returns (rval: bool)
    requires |extent1| == 6 && |extent2| == 6 && output.Length == 6
    modifies output
    ensures forall a :: 0 <= a < 3 ==>
              output[2 * a] == (if extent1[2 * a] > extent2[2 * a] then extent1[2 * a] else extent2[2 * a]) &&
              output[2 * a + 1] == (if extent1[2 * a + 1] < extent2[2 * a + 1] then extent1[2 * a + 1] else extent2[2 * a + 1])
    ensures rval <==> forall a :: 0 <= a < 3 ==> output[2 * a] <= output[2 * a + 1]
    ensures forall p :: |p| == 3 ==> (InExtent(output[..], p) <==> InExtent(extent1, p) && InExtent(extent2, p))
    ensures !rval ==> forall p :: |p| == 3 ==> !(InExtent(extent1, p) && InExtent(extent2, p))
  {
    rval := true;
    var i := 0;
    ghost var axes := 0;
    while i < 6
      invariant 0 <= axes <= 3 && i == 2 * axes
      invariant forall a :: 0 <= a < axes ==>
                  output[2 * a] == (if extent1[2 * a] > extent2[2 * a] then extent1[2 * a] else extent2[2 * a]) &&
                  output[2 * a + 1] == (if extent1[2 * a + 1] < extent2[2 * a + 1] then extent1[2 * a + 1] else extent2[2 * a + 1])
      invariant rval <==> forall a :: 0 <= a < axes ==> output[2 * a] <= output[2 * a + 1]
    {
      output[i] := if extent1[i] > extent2[i] then extent1[i] else extent2[i];
      i := i + 1;
      output[i] := if extent1[i] < extent2[i] then extent1[i] else extent2[i];
      rval := rval && output[i - 1] <= output[i];
      i := i + 1;
      axes := axes + 1;
    }
    IntersectionMembership(extent1, extent2, output[..]);
  }

  /** A point lies in the intersection exactly when it lies in both extents. */
  lemma IntersectionMembership(e1: seq<int>, e2: seq<int>, out: seq<int>)
    requires |e1| == 6 && |e2| == 6 && |out| == 6
    requires forall a :: 0 <= a < 3 ==>
               out[2 * a] == (if e1[2 * a] > e2[2 * a] then e1[2 * a] else e2[2 * a]) &&
               out[2 * a + 1] == (if e1[2 * a + 1] < e2[2 * a + 1] then e1[2 * a + 1] else e2[2 * a + 1])
    ensures forall p :: |p| == 3 ==> (InExtent(out, p) <==> InExtent(e1, p) && InExtent(e2, p))
    ensures (exists a :: 0 <= a < 3 && out[2 * a] > out[2 * a + 1]) ==>
              forall p :: |p| == 3 ==> !(InExtent(e1, p) && InExtent(e2, p))
  {
  }

  // ---------------------------------------------------------------------------
  // Thresholding set-up

  /**
    The active component as ExecuteInput clamps it: a negative value or one above the
    number of components becomes 0.  A value equal to the number of components is kept,
    although components are numbered from 0.
   */
  function ActiveComponentAsWritten(activeComponent: int, nComponents: int): (c: int)
    ensures c == activeComponent || c == 0
    ensures 0 <= c <= nComponents || (nComponents < 0 && c == 0)
  {
    if activeComponent < 0 || activeComponent > nComponents then 0 else activeComponent
  }

  /** On a one-component image the clamp as written keeps component 1, which does not exist. */
  lemma ActiveComponentAsWrittenOutOfRange()
    ensures ActiveComponentAsWritten(1, 1) == 1
    ensures ActiveComponentAsWritten(1, 1) >= 1
  {
  }

  /** The two clamps differ exactly on the value equal to a positive component count. */
  lemma ActiveComponentClampsDiffer(activeComponent: int, nComponents: int)
    ensures ActiveComponentAsWritten(activeComponent, nComponents) != ActiveComponent(activeComponent, nComponents)
            <==> activeComponent == nComponents && nComponents > 0
  {
  }

  /** The clamp as intended: any value that is not a valid component index becomes 0. */
  function ActiveComponent(activeComponent: int, nComponents: int): (c: int)
    ensures nComponents >= 1 ==> 0 <= c < nComponents
    ensures 0 <= activeComponent < nComponents ==> c == activeComponent
    ensures !(0 <= activeComponent < nComponents) ==> c == 0
  {
    if activeComponent < 0 || activeComponent >= nComponents then 0 else activeComponent
  }

  /** The conversion of a double to an integer type: truncation toward zero. */
  function Truncate(x: real): (n: int)
    ensures x >= 0.0 ==> n as real <= x < n as real + 1.0
    ensures x < 0.0 ==> n as real - 1.0 < x <= n as real
  {
    if x >= 0.0 then x.Floor else -((-x).Floor)
  }

  /**
    The lower threshold clamped into the range [typeMin, typeMax] of an integer scalar
    type: above the type's maximum it becomes the maximum, above its minimum it is
    converted to the type, and otherwise it stays at the minimum.
   */
  function ClampLowerScalar(lower: real, typeMin: int, typeMax: int): (s: int)
    requires typeMin <= typeMax
    ensures typeMin <= s <= typeMax
    ensures lower <= typeMin as real ==> s == typeMin
    ensures lower > typeMax as real ==> s == typeMax
    ensures typeMin as real < lower <= typeMax as real ==> s == Truncate(lower)
  {
    if lower > typeMax as real then typeMax
    else if lower > typeMin as real then Truncate(lower)
    else typeMin
  }

  /**
    The set-up at the start of ExecuteInput, as written: the component to threshold
    (kept when it lies in [0, nComponents], the count itself included) and the lower
    bound of the scalar range in the input's type.
   */
  function ThresholdSetup(activeComponent: int, nComponents: int, lower: real, typeMin: int, typeMax: int)
    : (r: (int, int))
    requires typeMin <= typeMax
    ensures nComponents >= 0 ==> 0 <= r.0 <= nComponents
    ensures 0 <= activeComponent <= nComponents ==> r.0 == activeComponent
    ensures !(0 <= activeComponent <= nComponents) ==> r.0 == 0
    ensures typeMin <= r.1 <= typeMax
  {
    (ActiveComponentAsWritten(activeComponent, nComponents), ClampLowerScalar(lower, typeMin, typeMax))
  }
}
