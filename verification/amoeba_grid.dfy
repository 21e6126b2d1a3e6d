/**
  The per-thread statistics of AtamaiWarp/vtkImageAmoebaGrid.cxx.

  Each thread accumulates the total length of the vectors it minimised, how many it
  minimised and their total cost in its own slot of three arrays.  The arrays are
  reallocated and zeroed whenever the number of threads changes, and the getters
  combine the slots.  A null array is modelled as an empty one.
 */
module AmoebaGrid {
  import opened Sums

  class AmoebaGridStatistics {
    var lastThreadCount: int
    var vectorLength: array<real>
    var vectorsMinimized: array<int>
    var totalCost: array<real>

    /** Every array has one slot per thread of the last update. */
    predicate Valid()
      reads this
    {
      vectorLength.Length == lastThreadCount &&
      vectorsMinimized.Length == lastThreadCount &&
      totalCost.Length == lastThreadCount
    }

    /** No thread count seen yet and no arrays. */
    constructor ()
      ensures Valid() && lastThreadCount == 0
    {
      lastThreadCount := 0;
      vectorLength := new real[0];
      vectorsMinimized := new int[0];
      totalCost := new real[0];
    }

    /**
      When the number of threads differs from the last one seen, reallocate the three
      arrays with one zeroed slot per thread; otherwise leave them as they are.
     */
    method ComputeInputUpdateExtents(numberOfThreads: nat)
      requires Valid()
      modifies this
      ensures Valid() && lastThreadCount == numberOfThreads
      ensures old(lastThreadCount) == numberOfThreads ==>
                vectorLength == old(vectorLength) && vectorsMinimized == old(vectorsMinimized) &&
                totalCost == old(totalCost)
      ensures old(lastThreadCount) != numberOfThreads ==>
                fresh(vectorLength) && fresh(vectorsMinimized) && fresh(totalCost) &&
                (forall i :: 0 <= i < numberOfThreads ==>
                   vectorLength[i] == 0.0 && vectorsMinimized[i] == 0 && totalCost[i] == 0.0) &&
                Sum(vectorLength[..]) == 0.0 && SumInt(vectorsMinimized[..]) == 0 &&
                Sum(totalCost[..]) == 0.0
    {
      if lastThreadCount != numberOfThreads {
        lastThreadCount := numberOfThreads;
        var lengths := new real[numberOfThreads];
        var counts := new int[numberOfThreads];
        var costs := new real[numberOfThreads];
        var i := 0;
        while i < numberOfThreads
          invariant 0 <= i <= numberOfThreads
          invariant forall k :: 0 <= k < i ==> lengths[k] == 0.0 && counts[k] == 0 && costs[k] == 0.0
          modifies lengths, counts, costs
        {
          lengths[i] := 0.0;
          counts[i] := 0;
          costs[i] := 0.0;
          i := i + 1;
        }
        SumOfZeros(lengths[..]);
        SumIntOfZeros(counts[..]);
        SumOfZeros(costs[..]);
        vectorLength, vectorsMinimized, totalCost := lengths, counts, costs;
      }
    }

    /** The number of vectors minimised in the last run: the sum of the per-thread counts. */
    method GetVectorsMinimized() returns (minimized: int)
      requires Valid()
      ensures minimized == SumInt(vectorsMinimized[..])
    {
      minimized := 0;
      var x := 0;
      while x < lastThreadCount
        invariant 0 <= x <= lastThreadCount
        invariant minimized == SumInt(vectorsMinimized[..x])
      {
        assert vectorsMinimized[..x + 1][..x] == vectorsMinimized[..x];
        minimized := minimized + vectorsMinimized[x];
        x := x + 1;
      }
      assert vectorsMinimized[..x] == vectorsMinimized[..];
    }

    /** The mean vector length: 0 when no vector was minimised, total / count otherwise. */
    method GetMeanVectorLength() returns (mean: real)
      requires Valid()
      ensures SumInt(vectorsMinimized[..]) == 0 ==> mean == 0.0
      ensures SumInt(vectorsMinimized[..]) != 0 ==>
                mean * (SumInt(vectorsMinimized[..]) as real) == Sum(vectorLength[..])
    {
      var totalLength := Total(vectorLength);
      var totalVectors := GetVectorsMinimized();
      mean := Mean(totalLength, totalVectors);
    }

    /** The mean cost: 0 when no vector was minimised, total / count otherwise. */
    method GetMeanCost() returns (mean: real)
      requires Valid()
      ensures SumInt(vectorsMinimized[..]) == 0 ==> mean == 0.0
      ensures SumInt(vectorsMinimized[..]) != 0 ==>
                mean * (SumInt(vectorsMinimized[..]) as real) == Sum(totalCost[..])
    {
      var total := Total(totalCost);
      var totalVectors := GetVectorsMinimized();
      mean := Mean(total, totalVectors);
    }
  }

  /** The sum of the slots of one per-thread array. */
  method Total(a: array<real>) returns (total: real)
    ensures total == Sum(a[..])
  {
    total := 0.0;
    var x := 0;
    while x < a.Length
      invariant 0 <= x <= a.Length
      invariant total == Sum(a[..x])
    {
      assert a[..x + 1][..x] == a[..x];
      total := total + a[x];
      x := x + 1;
    }
    assert a[..x] == a[..];
  }

  /** A total divided by a count, guarded against a zero count. */
  function Mean(total: real, count: int): (mean: real)
    ensures count == 0 ==> mean == 0.0
    ensures count != 0 ==> mean * (count as real) == total
  {
    if count != 0 then total / count as real else 0.0
  }
}
