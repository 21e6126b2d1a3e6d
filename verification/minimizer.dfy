/**
  The state that the two derivative-free minimisers share with their caller
  (AtamaiWarp/vtkFunctionMinimizer and its subclass vtkPowellMinimizer).

  The user's cost callback is the pure function `f` of the parameter vector it is
  evaluated at.  The callback of an observer that may raise the abort flag during an
  evaluation is modelled by `requestAbort`, indexed by the number of the evaluation
  (1 for the first one).  Floating point is modelled by `real`.
 */
module Minimizer {

  class FunctionMinimizer {
    /** the cost function being minimised */
    const f: seq<real> -> real
    /** whether the observer asks to abort during the k-th evaluation */
    const requestAbort: nat -> bool

    var maxIterations: int
    var abortFlag: bool
    /** the value reported by the most recent evaluation */
    var functionValue: real
    /** how many times the cost function has been evaluated */
    var evaluations: nat

    constructor (f: seq<real> -> real, requestAbort: nat -> bool, maxIterations: int)
      ensures this.f == f && this.requestAbort == requestAbort
      ensures this.maxIterations == maxIterations
      ensures !abortFlag && evaluations == 0
    {
      this.f := f;
      this.requestAbort := requestAbort;
      this.maxIterations := maxIterations;
      abortFlag := false;
      functionValue := 0.0;
      evaluations := 0;
    }

    /** Evaluate the cost function at `point`, as EvaluateFunction() does. */
    method EvaluateFunction(point: seq<real>) returns (value: real)
      modifies this
      ensures value == functionValue == f(point)
      ensures evaluations == old(evaluations) + 1
      ensures abortFlag == (old(abortFlag) || requestAbort(evaluations))
      ensures maxIterations == old(maxIterations)
    {
      evaluations := evaluations + 1;
      abortFlag := abortFlag || requestAbort(evaluations);
      functionValue := f(point);
      value := functionValue;
    }
  }
}
