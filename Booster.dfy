/**
 * LGBMBooster: the Java wrapper around one native LightGBM booster.
 *
 * The wrapper owns a void** cell holding the native booster, keeps the
 * number of boosting rounds in `iterations`, and around every engine call
 * allocates native buffers, copies managed arrays in, copies the engine's
 * results out, and frees what it allocated. The contracts below state which
 * buffers are freed on each branch, including the branches where the wrapper
 * leaves a cell allocated.
 */
module Booster {
  import opened Wrappers
  import opened Native

  /** Capacity of the scratch buffer getEval hands to the engine. */
  const EVAL_RESULTS_BUFFER_SIZE: nat := 1024

  // ---------------------------------------------------------------------------
  // Prediction and importance modes
  // ---------------------------------------------------------------------------

  datatype PredictionType = PredictNormal | PredictRawScore | PredictLeafIndex | PredictContrib

  /** The native code of a prediction mode (PredictionType.getType). */
  function PredictionTypeCode(t: PredictionType): (code: int)
    ensures PredictionTypeOfCode(code) == Some(t)
  {
    match t
    case PredictNormal => C_API_PREDICT_NORMAL
    case PredictRawScore => C_API_PREDICT_RAW_SCORE
    case PredictLeafIndex => C_API_PREDICT_LEAF_INDEX
    case PredictContrib => C_API_PREDICT_CONTRIB
  }

  /** The prediction mode a native code stands for, if any. */
  function PredictionTypeOfCode(code: int): Option<PredictionType> {
    if code == C_API_PREDICT_NORMAL then Some(PredictNormal)
    else if code == C_API_PREDICT_RAW_SCORE then Some(PredictRawScore)
    else if code == C_API_PREDICT_LEAF_INDEX then Some(PredictLeafIndex)
    else if code == C_API_PREDICT_CONTRIB then Some(PredictContrib)
    else None
  }

  lemma PredictionTypeCodeOfDecoded(code: int)
    requires PredictionTypeOfCode(code).Some?
    ensures PredictionTypeCode(PredictionTypeOfCode(code).value) == code
  {
  }

  datatype FeatureImportanceType = Split | Gain

  /** The native code of an importance mode (importanceType). */
  function ImportanceType(t: FeatureImportanceType): (code: int)
    ensures ImportanceTypeOfCode(code) == Some(t)
  {
    match t
    case Gain => C_API_FEATURE_IMPORTANCE_GAIN
    case Split => C_API_FEATURE_IMPORTANCE_SPLIT
  }

  /** The importance mode a native code stands for, if any. */
  function ImportanceTypeOfCode(code: int): Option<FeatureImportanceType> {
    if code == C_API_FEATURE_IMPORTANCE_SPLIT then Some(Split)
    else if code == C_API_FEATURE_IMPORTANCE_GAIN then Some(Gain)
    else None
  }

  lemma ImportanceTypeOfDecoded(code: int)
    requires ImportanceTypeOfCode(code).Some?
    ensures ImportanceType(ImportanceTypeOfCode(code).value) == code
  {
  }

  // ---------------------------------------------------------------------------
  // Output-buffer sizing
  // ---------------------------------------------------------------------------

  /**
   * Capacity of the prediction output buffer: twice the row count, times
   * (cols + 1) for feature contributions and times the iteration count for
   * leaf indices.
   */
  function OutBufferSize(rows: int, cols: int, predictionType: PredictionType, iterations: int): int {
    var defaultSize := 2 * rows;
    if predictionType == PredictContrib then defaultSize * (cols + 1)
    else if predictionType == PredictLeafIndex then defaultSize * iterations
    else defaultSize
  }

  /**
   * The length of out_result that the LightGBM C API documents for a
   * prediction over `nrow` rows of `ncol` features with `numIteration`
   * iterations by a model of `numClass` classes.
   *
   * The C API states the contribution length with the model's feature count
   * in place of `ncol`. The two agree whenever the call succeeds: the wrapper
   * passes an empty parameter string, so LightGBM's default shape check is
   * on and rejects a matrix whose column count differs from the model's.
   */
  function DocumentedResultLength(predictionType: PredictionType, nrow: int, ncol: int,
                                  numIteration: int, numClass: int): int
  {
    match predictionType
    case PredictNormal => numClass * nrow
    case PredictRawScore => numClass * nrow
    case PredictLeafIndex => numClass * nrow * numIteration
    case PredictContrib => numClass * nrow * (ncol + 1)
  }

  /** The buffer is sized exactly for the documented length of a two-class model, in every mode. */
  lemma OutBufferSizeIsTwoClassLength(rows: int, cols: int, predictionType: PredictionType, iterations: int)
    ensures OutBufferSize(rows, cols, predictionType, iterations)
         == DocumentedResultLength(predictionType, rows, cols, iterations, 2)
    ensures predictionType == PredictNormal || predictionType == PredictRawScore ==>
              OutBufferSize(rows, cols, predictionType, iterations) == 2 * rows
    ensures predictionType == PredictContrib ==>
              OutBufferSize(rows, cols, predictionType, iterations) == 2 * rows * (cols + 1)
    ensures predictionType == PredictLeafIndex ==>
              OutBufferSize(rows, cols, predictionType, iterations) == 2 * rows * iterations
  {
  }

  lemma OutBufferSizeNonNegative(rows: int, cols: int, predictionType: PredictionType, iterations: int)
    requires rows >= 0 && cols >= 0 && iterations >= 0
    ensures OutBufferSize(rows, cols, predictionType, iterations) >= 0
  {
    var d := 2 * rows;
    assert d >= 0;
    if predictionType == PredictContrib {
      MulNonNegative(d, cols + 1);
    } else if predictionType == PredictLeafIndex {
      MulNonNegative(d, iterations);
    }
  }

  lemma MulNonNegative(a: int, b: int)
    requires a >= 0 && b >= 0
    ensures a * b >= 0
  {
  }

  /** For k > 0, scaling by k preserves and reflects <=. */
  lemma ScaleLe(a: int, b: int, k: int)
    requires k > 0
    ensures a * k <= b * k <==> a <= b
  {
    assert b * k - a * k == (b - a) * k;
    if a <= b {
      MulNonNegative(b - a, k);
    } else {
      MulNonNegative(a - b - 1, k);
      assert (a - b) * k == (a - b - 1) * k + k;
    }
  }

  /**
   * For a non-empty prediction, the buffer holds the documented result
   * exactly when the model has at most two classes.
   */
  lemma OutBufferFitsIff(rows: int, cols: int, predictionType: PredictionType,
                          iterations: int, numClass: int)
    requires rows > 0 && cols >= 0 && numClass > 0
    requires predictionType == PredictLeafIndex ==> iterations > 0
    ensures DocumentedResultLength(predictionType, rows, cols, iterations, numClass)
              <= OutBufferSize(rows, cols, predictionType, iterations)
            <==> numClass <= 2
  {
    var factor := match predictionType
      case PredictNormal => 1
      case PredictRawScore => 1
      case PredictLeafIndex => iterations
      case PredictContrib => cols + 1;
    assert factor > 0;
    MulNonNegative(rows - 1, factor - 1);
    var k := rows * factor;
    assert k > 0;
    assert DocumentedResultLength(predictionType, rows, cols, iterations, numClass) == numClass * k;
    assert OutBufferSize(rows, cols, predictionType, iterations) == 2 * k;
    ScaleLe(numClass, 2, k);
  }

  // ---------------------------------------------------------------------------
  // Copying between managed arrays and native buffers
  // ---------------------------------------------------------------------------

  /** The floatArray_setitem loop: copy a managed float[] into a native buffer of the same length. */
  method CopyInFloats(heap: Heap, p: Ptr, input: seq<Float32>)
    requires heap.Valid() && p in heap.mem && heap.mem[p].FloatArray?
    requires |heap.mem[p].floats| == |input|
    modifies heap
    ensures heap.Valid()
    ensures heap.mem == old(heap.mem)[p := FloatArray(input)]
    ensures heap.next == old(heap.next) && heap.boosters == old(heap.boosters) && heap.log == old(heap.log)
  {
    var i := 0;
    while i < |input|
      invariant 0 <= i <= |input|
      invariant heap.Valid() && p in heap.mem && heap.mem[p].FloatArray?
      invariant heap.mem == old(heap.mem)[p := heap.mem[p]]
      invariant |heap.mem[p].floats| == |input| && heap.mem[p].floats[..i] == input[..i]
      invariant heap.next == old(heap.next) && heap.boosters == old(heap.boosters) && heap.log == old(heap.log)
    {
      heap.FloatArraySetItem(p, i, input[i]);
      i := i + 1;
    }
    assert heap.mem[p].floats == heap.mem[p].floats[..i] == input[..i] == input;
    assert heap.mem[p] == FloatArray(input);
  }

  /** The doubleArray_setitem loop: copy a managed double[] into a native buffer of the same length. */
  method CopyInDoubles(heap: Heap, p: Ptr, input: seq<Float64>)
    requires heap.Valid() && p in heap.mem && heap.mem[p].DoubleArray?
    requires |heap.mem[p].doubles| == |input|
    modifies heap
    ensures heap.Valid()
    ensures heap.mem == old(heap.mem)[p := DoubleArray(input)]
    ensures heap.next == old(heap.next) && heap.boosters == old(heap.boosters) && heap.log == old(heap.log)
  {
    var i := 0;
    while i < |input|
      invariant 0 <= i <= |input|
      invariant heap.Valid() && p in heap.mem && heap.mem[p].DoubleArray?
      invariant heap.mem == old(heap.mem)[p := heap.mem[p]]
      invariant |heap.mem[p].doubles| == |input| && heap.mem[p].doubles[..i] == input[..i]
      invariant heap.next == old(heap.next) && heap.boosters == old(heap.boosters) && heap.log == old(heap.log)
    {
      heap.DoubleArraySetItem(p, i, input[i]);
      i := i + 1;
    }
    assert heap.mem[p].doubles == heap.mem[p].doubles[..i] == input[..i] == input;
    assert heap.mem[p] == DoubleArray(input);
  }

  /** The doubleArray_getitem loop: a new managed double[n] holding the first n values of a native buffer. */
  method CopyOutDoubles(heap: Heap, p: Ptr, n: int) returns (values: seq<Float64>)
    requires p in heap.mem && heap.mem[p].DoubleArray? && 0 <= n <= |heap.mem[p].doubles|
    ensures values == heap.mem[p].doubles[..n]
  {
    var a := new Float64[n];
    var i := 0;
    while i < n
      invariant 0 <= i <= n
      invariant forall k :: 0 <= k < i ==> a[k] == heap.mem[p].doubles[k]
    {
      a[i] := heap.mem[p].doubles[i];
      i := i + 1;
    }
    values := a[..];
  }

  /**
   * The tail shared by the prediction calls. On a negative status: free the
   * input buffer, the length cell and the output buffer, then throw with the
   * engine's error text. Otherwise: copy out as many values as the length
   * cell reports, then free the same three buffers.
   */
  method FinishPrediction(heap: Heap, dataBuffer: Ptr, outLength: Ptr, outBuffer: Ptr,
                          result: int, lastError: string)
    returns (r: Result<seq<Float64>>)
    requires heap.Valid()
    requires dataBuffer in heap.mem && outLength in heap.mem && outBuffer in heap.mem
    requires dataBuffer != outLength && dataBuffer != outBuffer && outLength != outBuffer
    requires heap.mem[outLength].Int64Cell? && heap.mem[outBuffer].DoubleArray?
    requires result >= 0 ==> 0 <= heap.mem[outLength].int64 <= |heap.mem[outBuffer].doubles|
    modifies heap
    ensures heap.Valid()
    ensures heap.mem == old(heap.mem) - {dataBuffer} - {outLength} - {outBuffer}
    ensures heap.next == old(heap.next) && heap.boosters == old(heap.boosters)
    ensures heap.log == old(heap.log) + ErrorQuery(result)
    ensures r == if result < 0 then Err(LGBMException(lastError))
                 else Ok(old(heap.mem[outBuffer].doubles)[..old(heap.mem[outLength].int64)])
  {
    if result < 0 {
      heap.Delete(dataBuffer);
      heap.Delete(outLength);
      heap.Delete(outBuffer);
      var msg := heap.GetLastErrorCall(lastError);
      r := Err(LGBMException(msg));
    } else {
      var length := heap.mem[outLength].int64;
      var values := CopyOutDoubles(heap, outBuffer, length);
      heap.Delete(dataBuffer);
      heap.Delete(outLength);
      heap.Delete(outBuffer);
      r := Ok(values);
    }
  }

  // ---------------------------------------------------------------------------
  // The booster
  // ---------------------------------------------------------------------------

  /** The engine calls that follow a call answered with `status`: the error query when it failed. */
  function ErrorQuery(status: int): seq<Call> {
    if status < 0 then [Call.GetLastError] else []
  }

  /**
   * What a loader leaves behind. On failure: the exception, and the void**
   * cell and the iteration cell, allocated at the next two addresses, still
   * allocated. On success: a new valid booster at the iteration count the
   * engine reported, whose handle is the first of those addresses and points
   * to a new native booster; the iteration cell is freed.
   */
  twostate predicate Loaded(heap: Heap, answer: Answer<nat>, new r: Result<LGBMBooster>)
    reads heap, if r.Ok? then {r.value} else {}
  {
    (answer.status < 0 ==>
      r == Err(LGBMException(answer.lastError)) &&
      heap.boosters == old(heap.boosters) && heap.next == old(heap.next) + 2 &&
      heap.mem == old(heap.mem)[old(heap.next) := VoidPtrCell(None)][old(heap.next) + 1 := IntCell(0)]) &&
    (answer.status >= 0 ==>
      r.Ok? && fresh(r.value) && r.value.heap == heap && r.value.Valid() &&
      r.value.iterations == answer.out && r.value.handle == old(heap.next) &&
      r.value.NativeBooster() == old(heap.next) + 2 && r.value.NativeBooster() !in old(heap.boosters) &&
      heap.next == old(heap.next) + 3 &&
      heap.boosters == old(heap.boosters) + {r.value.NativeBooster()} &&
      heap.mem == old(heap.mem)[r.value.handle := VoidPtrCell(Some(r.value.NativeBooster()))])
  }

  class LGBMBooster {
    /** Number of boosting rounds; bounds every prediction. */
    var iterations: int
    /** The void** cell holding the native booster. */
    const handle: Ptr
    /** The native memory the booster lives in. */
    const heap: Heap

    ghost predicate Valid()
      reads this, heap
    {
      heap.Valid() && iterations >= 0 &&
      handle in heap.mem && heap.mem[handle].VoidPtrCell? &&
      heap.mem[handle].target.Some? && heap.mem[handle].target.value in heap.boosters
    }

    /** The native booster (voidpp_value(handle)). */
    function NativeBooster(): Ptr
      reads this, heap
      requires Valid()
    {
      heap.mem[handle].target.value
    }

    constructor (heap: Heap, iterations: int, handle: Ptr)
      ensures this.heap == heap && this.iterations == iterations && this.handle == handle
    {
      this.heap := heap;
      this.iterations := iterations;
      this.handle := handle;
    }

    /**
     * The two loaders: a fresh void** cell and int cell, then the engine.
     * On failure both cells stay allocated.
     */
    static method Load(heap: Heap, call: Call, answer: Answer<nat>) returns (r: Result<LGBMBooster>)
      requires call.BoosterCreateFromModelfile? || call.BoosterLoadModelFromString?
      requires heap.Valid()
      modifies heap
      ensures heap.Valid()
      ensures heap.log == old(heap.log) + [call] + ErrorQuery(answer.status)
      ensures Loaded(heap, answer, r)
    {
      var handle := heap.Alloc(VoidPtrCell(None));
      var outIterations := heap.Alloc(IntCell(0));
      var result := heap.BoosterLoad(call, outIterations, handle, answer);
      if result < 0 {
        var msg := heap.GetLastErrorCall(answer.lastError);
        r := Err(LGBMException(msg));
      } else {
        var iterations := heap.mem[outIterations].int32;
        heap.Delete(outIterations);
        var booster := new LGBMBooster(heap, iterations, handle);
        r := Ok(booster);
      }
    }

    /** Load a booster from a model file; its iteration count is the one the engine reports. */
    static method CreateFromModelfile(heap: Heap, file: string, answer: Answer<nat>)
      returns (r: Result<LGBMBooster>)
      requires heap.Valid()
      modifies heap
      ensures heap.Valid()
      ensures heap.log == old(heap.log) + [BoosterCreateFromModelfile(file)] + ErrorQuery(answer.status)
      ensures Loaded(heap, answer, r)
    {
      r := Load(heap, BoosterCreateFromModelfile(file), answer);
    }

    /** Load a booster from a model string; its iteration count is the one the engine reports. */
    static method LoadModelFromString(heap: Heap, model: string, answer: Answer<nat>)
      returns (r: Result<LGBMBooster>)
      requires heap.Valid()
      modifies heap
      ensures heap.Valid()
      ensures heap.log == old(heap.log) + [BoosterLoadModelFromString(model)] + ErrorQuery(answer.status)
      ensures Loaded(heap, answer, r)
    {
      r := Load(heap, BoosterLoadModelFromString(model), answer);
    }

    /**
     * Create an untrained booster over a dataset: it starts at zero
     * iterations. On failure the void** cell stays allocated.
     */
    static method Create(heap: Heap, dataset: Ptr, parameters: string, answer: Answer<()>)
      returns (r: Result<LGBMBooster>)
      requires heap.Valid()
      modifies heap
      ensures heap.Valid()
      ensures heap.log == old(heap.log) + [BoosterCreate(dataset, parameters)] + ErrorQuery(answer.status)
      ensures answer.status < 0 ==>
        r == Err(LGBMException(answer.lastError)) && heap.boosters == old(heap.boosters) &&
        heap.next == old(heap.next) + 1 &&
        heap.mem == old(heap.mem)[old(heap.next) := VoidPtrCell(None)]
      ensures answer.status >= 0 ==>
        r.Ok? && fresh(r.value) && r.value.heap == heap && r.value.Valid() &&
        r.value.iterations == 0 && r.value.handle == old(heap.next) &&
        r.value.NativeBooster() == old(heap.next) + 1 && r.value.NativeBooster() !in old(heap.boosters) &&
        heap.next == old(heap.next) + 2 &&
        heap.boosters == old(heap.boosters) + {r.value.NativeBooster()} &&
        heap.mem == old(heap.mem)[r.value.handle := VoidPtrCell(Some(r.value.NativeBooster()))]
    {
      var handle := heap.Alloc(VoidPtrCell(None));
      var result := heap.NewBooster(BoosterCreate(dataset, parameters), handle, answer.status);
      if result < 0 {
        var msg := heap.GetLastErrorCall(answer.lastError);
        r := Err(LGBMException(msg));
      } else {
        var booster := new LGBMBooster(heap, 0, handle);
        r := Ok(booster);
      }
    }

    /**
     * Free the native booster. The void** cell itself is never freed, so
     * native memory is exactly as before; after success the booster is gone
     * and this object is no longer valid.
     */
    method Close(answer: Answer<()>) returns (r: Result<()>)
      requires Valid()
      modifies heap
      ensures heap.mem == old(heap.mem) && heap.next == old(heap.next)
      ensures heap.log == old(heap.log) + [BoosterFree(old(NativeBooster()))] + ErrorQuery(answer.status)
      ensures answer.status < 0 ==>
        r == Err(LGBMException(answer.lastError)) && heap.boosters == old(heap.boosters) && Valid()
      ensures answer.status >= 0 ==>
        r == Ok(()) && heap.boosters == old(heap.boosters) - {old(NativeBooster())} && !Valid()
    {
      var result := heap.BoosterFreeCall(NativeBooster(), answer);
      if result < 0 {
        var msg := heap.GetLastErrorCall(answer.lastError);
        r := Err(LGBMException(msg));
      } else {
        r := Ok(());
      }
    }

    /**
     * One boosting round. The counter goes up by one whatever the status;
     * on failure the is-finished cell stays allocated. On success the result
     * is whether the engine reported that no more splits are possible.
     */
    method UpdateOneIter(answer: Answer<int>) returns (r: Result<bool>)
      requires Valid()
      modifies this, heap
      ensures Valid()
      ensures iterations == old(iterations) + 1
      ensures heap.boosters == old(heap.boosters) && heap.next == old(heap.next) + 1
      ensures heap.log == old(heap.log) + [BoosterUpdateOneIter(NativeBooster())] + ErrorQuery(answer.status)
      ensures answer.status < 0 ==>
        r == Err(LGBMException(answer.lastError)) && heap.mem == old(heap.mem)[old(heap.next) := IntCell(0)]
      ensures answer.status >= 0 ==>
        r == Ok(answer.out == 1) && heap.mem == old(heap.mem)
    {
      var isFinishedP := heap.Alloc(IntCell(0));
      var result := heap.BoosterUpdateOneIterCall(NativeBooster(), isFinishedP, answer);
      iterations := iterations + 1;
      if result < 0 {
        var msg := heap.GetLastErrorCall(answer.lastError);
        r := Err(LGBMException(msg));
      } else {
        var isFinished := heap.mem[isFinishedP].int32;
        heap.Delete(isFinishedP);
        r := Ok(isFinished == 1);
      }
    }

    /**
     * Batch prediction over a float[] matrix. The engine gets the input as
     * 32-bit floats, the capacity from OutBufferSize, and the iteration range
     * from 0 to `iterations`; the result is exactly what it reports, and every
     * buffer allocated here is freed on both branches.
     */
    method PredictForMatFloat(input: seq<Float32>, rows: int, cols: int, isRowMajor: bool,
                              predictionType: PredictionType, answer: Answer<seq<Float64>>)
      returns (r: Result<seq<Float64>>)
      requires Valid() && rows >= 0 && cols >= 0
      requires answer.status >= 0 ==> |answer.out| <= OutBufferSize(rows, cols, predictionType, iterations)
      modifies heap
      ensures Valid() && iterations == old(iterations)
      ensures heap.mem == old(heap.mem) && heap.boosters == old(heap.boosters) && heap.next == old(heap.next) + 3
      ensures heap.log == old(heap.log) +
        [BoosterPredictForMat(NativeBooster(), Floats(input), C_API_DTYPE_FLOAT32, rows, cols,
                              if isRowMajor then 1 else 0, PredictionTypeCode(predictionType),
                              0, iterations, "", OutBufferSize(rows, cols, predictionType, iterations))] +
        ErrorQuery(answer.status)
      ensures r == if answer.status < 0 then Err(LGBMException(answer.lastError)) else Ok(answer.out)
    {
      var dataBuffer := heap.Alloc(FreshFloatArray(|input|));
      CopyInFloats(heap, dataBuffer, input);
      var outLength := heap.Alloc(Int64Cell(0));
      OutBufferSizeNonNegative(rows, cols, predictionType, iterations);
      var outSize := OutBufferSize(rows, cols, predictionType, iterations);
      var outBuffer := heap.Alloc(FreshDoubleArray(outSize));
      var result := heap.BoosterPredictForMatCall(
        NativeBooster(), dataBuffer, C_API_DTYPE_FLOAT32, rows, cols, if isRowMajor then 1 else 0,
        PredictionTypeCode(predictionType), 0, iterations, "", outLength, outBuffer, answer);
      r := FinishPrediction(heap, dataBuffer, outLength, outBuffer, result, answer.lastError);
    }

    /** Batch prediction over a double[] matrix: as PredictForMatFloat, with the input passed as 64-bit floats. */
    method PredictForMatDouble(input: seq<Float64>, rows: int, cols: int, isRowMajor: bool,
                               predictionType: PredictionType, answer: Answer<seq<Float64>>)
      returns (r: Result<seq<Float64>>)
      requires Valid() && rows >= 0 && cols >= 0
      requires answer.status >= 0 ==> |answer.out| <= OutBufferSize(rows, cols, predictionType, iterations)
      modifies heap
      ensures Valid() && iterations == old(iterations)
      ensures heap.mem == old(heap.mem) && heap.boosters == old(heap.boosters) && heap.next == old(heap.next) + 3
      ensures heap.log == old(heap.log) +
        [BoosterPredictForMat(NativeBooster(), Doubles(input), C_API_DTYPE_FLOAT64, rows, cols,
                              if isRowMajor then 1 else 0, PredictionTypeCode(predictionType),
                              0, iterations, "", OutBufferSize(rows, cols, predictionType, iterations))] +
        ErrorQuery(answer.status)
      ensures r == if answer.status < 0 then Err(LGBMException(answer.lastError)) else Ok(answer.out)
    {
      var dataBuffer := heap.Alloc(FreshDoubleArray(|input|));
      CopyInDoubles(heap, dataBuffer, input);
      var outLength := heap.Alloc(Int64Cell(0));
      OutBufferSizeNonNegative(rows, cols, predictionType, iterations);
      var outSize := OutBufferSize(rows, cols, predictionType, iterations);
      var outBuffer := heap.Alloc(FreshDoubleArray(outSize));
      var result := heap.BoosterPredictForMatCall(
        NativeBooster(), dataBuffer, C_API_DTYPE_FLOAT64, rows, cols, if isRowMajor then 1 else 0,
        PredictionTypeCode(predictionType), 0, iterations, "", outLength, outBuffer, answer);
      r := FinishPrediction(heap, dataBuffer, outLength, outBuffer, result, answer.lastError);
    }

    /**
     * Single-row prediction over a double[] row: the batch capacity at one
     * row of |data| columns, the row passed as 64-bit floats and row-major,
     * and the first value the engine reports. When it reports none, reading
     * element 0 throws after the buffers are freed.
     */
    method PredictForMatSingleRowDouble(data: seq<Float64>, predictionType: PredictionType,
                                        answer: Answer<seq<Float64>>)
      returns (r: Result<Float64>)
      requires Valid()
      requires answer.status >= 0 ==> |answer.out| <= OutBufferSize(1, |data|, predictionType, iterations)
      modifies heap
      ensures Valid() && iterations == old(iterations)
      ensures heap.mem == old(heap.mem) && heap.boosters == old(heap.boosters) && heap.next == old(heap.next) + 3
      ensures heap.log == old(heap.log) +
        [BoosterPredictForMatSingleRow(NativeBooster(), Doubles(data), C_API_DTYPE_FLOAT64, |data|, 1,
                                       PredictionTypeCode(predictionType), 0, iterations, "",
                                       OutBufferSize(1, |data|, predictionType, iterations))] +
        ErrorQuery(answer.status)
      ensures r == if answer.status < 0 then Err(LGBMException(answer.lastError))
                   else if |answer.out| == 0 then Err(ArrayIndexOutOfBounds(0))
                   else Ok(answer.out[0])
    {
      var dataBuffer := heap.Alloc(FreshDoubleArray(|data|));
      CopyInDoubles(heap, dataBuffer, data);
      var outLength := heap.Alloc(Int64Cell(0));
      OutBufferSizeNonNegative(1, |data|, predictionType, iterations);
      var outBufferSize := OutBufferSize(1, |data|, predictionType, iterations);
      var outBuffer := heap.Alloc(FreshDoubleArray(outBufferSize));
      var result := heap.BoosterPredictForMatSingleRowCall(
        NativeBooster(), dataBuffer, C_API_DTYPE_FLOAT64, |data|, 1,
        PredictionTypeCode(predictionType), 0, iterations, "", outLength, outBuffer, answer);
      var values := FinishPrediction(heap, dataBuffer, outLength, outBuffer, result, answer.lastError);
      r := match values
        case Err(e) => Err(e)
        case Ok(v) => if |v| == 0 then Err(ArrayIndexOutOfBounds(0)) else Ok(v[0]);
    }

    /** Single-row prediction over a float[] row: as PredictForMatSingleRowDouble, with 32-bit floats. */
    method PredictForMatSingleRowFloat(data: seq<Float32>, predictionType: PredictionType,
                                       answer: Answer<seq<Float64>>)
      returns (r: Result<Float64>)
      requires Valid()
      requires answer.status >= 0 ==> |answer.out| <= OutBufferSize(1, |data|, predictionType, iterations)
      modifies heap
      ensures Valid() && iterations == old(iterations)
      ensures heap.mem == old(heap.mem) && heap.boosters == old(heap.boosters) && heap.next == old(heap.next) + 3
      ensures heap.log == old(heap.log) +
        [BoosterPredictForMatSingleRow(NativeBooster(), Floats(data), C_API_DTYPE_FLOAT32, |data|, 1,
                                       PredictionTypeCode(predictionType), 0, iterations, "",
                                       OutBufferSize(1, |data|, predictionType, iterations))] +
        ErrorQuery(answer.status)
      ensures r == if answer.status < 0 then Err(LGBMException(answer.lastError))
                   else if |answer.out| == 0 then Err(ArrayIndexOutOfBounds(0))
                   else Ok(answer.out[0])
    {
      var dataBuffer := heap.Alloc(FreshFloatArray(|data|));
      CopyInFloats(heap, dataBuffer, data);
      var outLength := heap.Alloc(Int64Cell(0));
      OutBufferSizeNonNegative(1, |data|, predictionType, iterations);
      var outBufferSize := OutBufferSize(1, |data|, predictionType, iterations);
      var outBuffer := heap.Alloc(FreshDoubleArray(outBufferSize));
      var result := heap.BoosterPredictForMatSingleRowCall(
        NativeBooster(), dataBuffer, C_API_DTYPE_FLOAT32, |data|, 1,
        PredictionTypeCode(predictionType), 0, iterations, "", outLength, outBuffer, answer);
      var values := FinishPrediction(heap, dataBuffer, outLength, outBuffer, result, answer.lastError);
      r := match values
        case Err(e) => Err(e)
        case Ok(v) => if |v| == 0 then Err(ArrayIndexOutOfBounds(0)) else Ok(v[0]);
    }

    /**
     * The evaluation metrics on dataset `dataIndex` (0 for the training data):
     * the prefix of a 1024-slot scratch buffer that the engine reports as valid.
     */
    method GetEval(dataIndex: int, answer: Answer<seq<Float64>>) returns (r: Result<seq<Float64>>)
      requires Valid()
      requires answer.status >= 0 ==> |answer.out| <= EVAL_RESULTS_BUFFER_SIZE
      modifies heap
      ensures Valid() && iterations == old(iterations)
      ensures heap.mem == old(heap.mem) && heap.boosters == old(heap.boosters) && heap.next == old(heap.next) + 2
      ensures heap.log == old(heap.log) + [BoosterGetEval(NativeBooster(), dataIndex, EVAL_RESULTS_BUFFER_SIZE)] +
                          ErrorQuery(answer.status)
      ensures r == if answer.status < 0 then Err(LGBMException(answer.lastError)) else Ok(answer.out)
    {
      var outLength := heap.Alloc(IntCell(0));
      var outBuffer := heap.Alloc(FreshDoubleArray(EVAL_RESULTS_BUFFER_SIZE));
      var result := heap.BoosterGetEvalCall(NativeBooster(), dataIndex, outLength, outBuffer, answer);
      if result < 0 {
        heap.Delete(outLength);
        heap.Delete(outBuffer);
        var msg := heap.GetLastErrorCall(answer.lastError);
        r := Err(LGBMException(msg));
      } else {
        var evals := CopyOutDoubles(heap, outBuffer, heap.mem[outLength].int32);
        heap.Delete(outLength);
        heap.Delete(outBuffer);
        r := Ok(evals);
      }
    }

    /** The number of features the engine reports; its int cell is freed on both branches. */
    method GetNumFeature(answer: Answer<nat>) returns (r: Result<int>)
      requires Valid()
      modifies heap
      ensures Valid() && iterations == old(iterations)
      ensures heap.mem == old(heap.mem) && heap.boosters == old(heap.boosters) && heap.next == old(heap.next) + 1
      ensures heap.log == old(heap.log) + [BoosterGetNumFeature(NativeBooster())] + ErrorQuery(answer.status)
      ensures r == if answer.status < 0 then Err(LGBMException(answer.lastError)) else Ok(answer.out)
    {
      var outNum := heap.Alloc(IntCell(0));
      var result := heap.BoosterGetNumFeatureCall(NativeBooster(), outNum, answer);
      if result < 0 {
        heap.Delete(outNum);
        var msg := heap.GetLastErrorCall(answer.lastError);
        r := Err(LGBMException(msg));
      } else {
        var num := heap.mem[outNum].int32;
        heap.Delete(outNum);
        r := Ok(num);
      }
    }

    /**
     * Feature importance: first the feature count (its failure propagates),
     * then one value per feature. The result has exactly that many entries
     * and begins with the values the engine wrote.
     */
    method FeatureImportance(numIteration: int, importanceType: FeatureImportanceType,
                             numAnswer: Answer<nat>, answer: Answer<seq<Float64>>)
      returns (r: Result<seq<Float64>>)
      requires Valid()
      requires numAnswer.status >= 0 && answer.status >= 0 ==> |answer.out| <= numAnswer.out
      modifies heap
      ensures Valid() && iterations == old(iterations)
      ensures heap.mem == old(heap.mem) && heap.boosters == old(heap.boosters)
      ensures heap.next == old(heap.next) + if numAnswer.status < 0 then 1 else 2
      ensures numAnswer.status < 0 ==>
        r == Err(LGBMException(numAnswer.lastError)) &&
        heap.log == old(heap.log) + [BoosterGetNumFeature(NativeBooster()), Call.GetLastError]
      ensures numAnswer.status >= 0 ==>
        heap.log == old(heap.log) +
          [BoosterGetNumFeature(NativeBooster()),
           BoosterFeatureImportance(NativeBooster(), numIteration, ImportanceType(importanceType), numAnswer.out)] +
          ErrorQuery(answer.status)
      ensures numAnswer.status >= 0 && answer.status < 0 ==> r == Err(LGBMException(answer.lastError))
      ensures numAnswer.status >= 0 && answer.status >= 0 ==>
        r.Ok? && |r.value| == numAnswer.out && r.value[..|answer.out|] == answer.out
    {
      var count := GetNumFeature(numAnswer);
      if count.Err? {
        r := Err(count.error);
        return;
      }
      var numFeatures := count.value;
      var outBuffer := heap.Alloc(FreshDoubleArray(numFeatures));
      var result := heap.BoosterFeatureImportanceCall(
        NativeBooster(), numIteration, ImportanceType(importanceType), outBuffer, answer);
      if result < 0 {
        heap.Delete(outBuffer);
        var msg := heap.GetLastErrorCall(answer.lastError);
        r := Err(LGBMException(msg));
      } else {
        var importance := CopyOutDoubles(heap, outBuffer, numFeatures);
        heap.Delete(outBuffer);
        r := Ok(importance);
      }
    }
  }
}
