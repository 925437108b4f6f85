/**
 * Client scenarios of the wrapper against a scripted engine: what a caller can
 * conclude from the contracts of LGBMBooster alone.
 */
module Scenarios {
  import opened Wrappers
  import opened Native
  import opened Booster

  /** 0.1 and 0.2 as IEEE-754 doubles. */
  const POINT_ONE: Float64 := 0x3FB9_9999_9999_999A
  const POINT_TWO: Float64 := 0x3FC9_9999_9999_999A

  /**
   * A booster created over a dataset and trained for five rounds has
   * counted five iterations, and reports the feature count the engine gives.
   */
  method TrainFiveRounds() returns (iterations: int, numFeature: Result<int>)
    ensures iterations == 5 && numFeature == Ok(3)
  {
    var heap := new Heap();
    var created := LGBMBooster.Create(heap, 0, "objective=regression", Answer(0, (), ""));
    var booster := created.value;
    var finished := booster.UpdateOneIter(Answer(0, 0, ""));
    finished := booster.UpdateOneIter(Answer(0, 0, ""));
    finished := booster.UpdateOneIter(Answer(0, 0, ""));
    finished := booster.UpdateOneIter(Answer(0, 0, ""));
    finished := booster.UpdateOneIter(Answer(0, 1, ""));
    iterations := booster.iterations;
    numFeature := booster.GetNumFeature(Answer(0, 3, ""));
  }

  /**
   * A 2x3 row-major raw-score prediction returns exactly the two values the
   * engine reports, and leaves native memory as it found it.
   */
  method PredictTwoRows() returns (result: Result<seq<Float64>>, leaked: set<Ptr>)
    ensures result == Ok([POINT_ONE, POINT_TWO]) && leaked == {}
  {
    var heap := new Heap();
    var created := LGBMBooster.Create(heap, 0, "objective=regression", Answer(0, (), ""));
    var booster := created.value;
    var before := heap.mem;
    result := booster.PredictForMatDouble(
      [0, 0, 0, 0, 0, 0], 2, 3, true, PredictRawScore, Answer(0, [POINT_ONE, POINT_TWO], ""));
    leaked := heap.mem.Keys - before.Keys;
  }

  /**
   * A failed boosting round still counts an iteration, throws with the
   * engine's text, and leaves exactly one native cell allocated.
   */
  method FailedRound() returns (iterations: int, result: Result<bool>, leaked: set<Ptr>)
    ensures iterations == 1 && result == Err(LGBMException("boom")) && |leaked| == 1
  {
    var heap := new Heap();
    var created := LGBMBooster.Create(heap, 0, "objective=regression", Answer(0, (), ""));
    var booster := created.value;
    var before := heap.mem;
    result := booster.UpdateOneIter(Answer(-1, 0, "boom"));
    iterations := booster.iterations;
    leaked := heap.mem.Keys - before.Keys;
  }
}
