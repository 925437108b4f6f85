/**
 * The native side of the wrapper: the LightGBM C API constants, the memory
 * that the SWIG helpers allocate and free, and the engine entry points.
 *
 * The engine itself is not modelled. Each entry point takes the engine's
 * answer (status code, out-parameter values, last-error text) as a parameter
 * and records the arguments it was called with in a ghost log, so that the
 * wrapper's contracts can say what the engine was asked.
 */
module Native {
  import opened Wrappers

  // Constants of LightGBM's c_api.h.
  const C_API_DTYPE_FLOAT32: int := 0
  const C_API_DTYPE_FLOAT64: int := 1
  const C_API_PREDICT_NORMAL: int := 0
  const C_API_PREDICT_RAW_SCORE: int := 1
  const C_API_PREDICT_LEAF_INDEX: int := 2
  const C_API_PREDICT_CONTRIB: int := 3
  const C_API_FEATURE_IMPORTANCE_SPLIT: int := 0
  const C_API_FEATURE_IMPORTANCE_GAIN: int := 1

  /** Address of a native allocation or of a native booster object. */
  type Ptr = nat

  /** IEEE-754 bit patterns. Values are only ever copied, never computed on. */
  type Float32 = bv32
  type Float64 = bv64

  /** One native allocation made through the SWIG helpers. */
  datatype Block =
    | FloatArray(floats: seq<Float32>)        // new_floatArray
    | DoubleArray(doubles: seq<Float64>)      // new_doubleArray
    | IntCell(int32: int)                     // new_intp, new_int32_tp
    | Int64Cell(int64: int)                   // new_int64_tp
    | VoidPtrCell(target: Option<Ptr>)        // new_voidpp

  function FreshFloatArray(n: nat): (b: Block)
    ensures b.FloatArray? && |b.floats| == n
  {
    FloatArray(seq(n, _ => 0))
  }

  function FreshDoubleArray(n: nat): (b: Block)
    ensures b.DoubleArray? && |b.doubles| == n
  {
    DoubleArray(seq(n, _ => 0))
  }

  /** The contents of an input buffer, as the engine reads it. */
  datatype Matrix = Floats(f32: seq<Float32>) | Doubles(f64: seq<Float64>)

  function MatrixOf(b: Block): Matrix
    requires b.FloatArray? || b.DoubleArray?
  {
    if b.FloatArray? then Floats(b.floats) else Doubles(b.doubles)
  }

  /** A call into the engine, with the arguments it received. */
  datatype Call =
    | BoosterCreateFromModelfile(filename: string)
    | BoosterLoadModelFromString(modelStr: string)
    | BoosterCreate(trainData: Ptr, parameters: string)
    | BoosterFree(booster: Ptr)
    | BoosterUpdateOneIter(booster: Ptr)
    | BoosterPredictForMat(booster: Ptr, data: Matrix, dataType: int, nrow: int, ncol: int,
                           isRowMajor: int, predictType: int, startIteration: int,
                           numIteration: int, parameter: string, capacity: nat)
    | BoosterPredictForMatSingleRow(booster: Ptr, data: Matrix, dataType: int, ncol: int,
                                    isRowMajor: int, predictType: int, startIteration: int,
                                    numIteration: int, parameter: string, capacity: nat)
    | BoosterGetEval(booster: Ptr, dataIdx: int, capacity: nat)
    | BoosterGetNumFeature(booster: Ptr)
    | BoosterFeatureImportance(booster: Ptr, numIteration: int, importanceType: int, capacity: nat)
    | GetLastError

  /**
   * What the engine answers to one call: its status code, the value it writes
   * to the call's out-parameters when the status is not negative, and the text
   * LGBM_GetLastError gives right after the call.
   */
  datatype Answer<T> = Answer(status: int, out: T, lastError: string)

  /** Native memory and the native booster objects alive in it. */
  class Heap {
    /** Live allocations and their contents; its keys are the live buffers. */
    var mem: map<Ptr, Block>
    /** Live native booster objects. */
    var boosters: set<Ptr>
    /** Next unused address. */
    var next: Ptr
    /** Every engine call made so far, in order. */
    ghost var log: seq<Call>

    ghost predicate Valid()
      reads this
    {
      (forall p :: p in mem ==> p < next) &&
      (forall b :: b in boosters ==> b < next)
    }

    constructor ()
      ensures Valid() && mem == map[] && boosters == {} && log == []
    {
      mem := map[];
      boosters := {};
      next := 0;
      log := [];
    }

    /** new_floatArray, new_doubleArray, new_intp, new_int64_tp, new_voidpp. */
    method Alloc(b: Block) returns (p: Ptr)
      requires Valid()
      modifies this
      ensures Valid()
      ensures p == old(next) && p !in old(mem) && next == p + 1
      ensures mem == old(mem)[p := b]
      ensures boosters == old(boosters) && log == old(log)
    {
      p := next;
      mem := mem[p := b];
      next := next + 1;
    }

    /** delete_floatArray, delete_doubleArray, delete_intp, delete_int64_tp. */
    method Delete(p: Ptr)
      requires Valid() && p in mem
      modifies this
      ensures Valid()
      ensures mem == old(mem) - {p}
      ensures next == old(next) && boosters == old(boosters) && log == old(log)
    {
      mem := mem - {p};
    }

    /** floatArray_setitem. */
    method FloatArraySetItem(p: Ptr, i: nat, v: Float32)
      requires Valid() && p in mem && mem[p].FloatArray? && i < |mem[p].floats|
      modifies this
      ensures Valid()
      ensures mem == old(mem)[p := FloatArray(old(mem[p].floats)[i := v])]
      ensures next == old(next) && boosters == old(boosters) && log == old(log)
    {
      mem := mem[p := FloatArray(mem[p].floats[i := v])];
    }

    /** doubleArray_setitem. */
    method DoubleArraySetItem(p: Ptr, i: nat, v: Float64)
      requires Valid() && p in mem && mem[p].DoubleArray? && i < |mem[p].doubles|
      modifies this
      ensures Valid()
      ensures mem == old(mem)[p := DoubleArray(old(mem[p].doubles)[i := v])]
      ensures next == old(next) && boosters == old(boosters) && log == old(log)
    {
      mem := mem[p := DoubleArray(mem[p].doubles[i := v])];
    }

    /** LGBM_GetLastError: the text describing the most recent failure. */
    method GetLastErrorCall(text: string) returns (msg: string)
      modifies this
      ensures msg == text
      ensures mem == old(mem) && next == old(next) && boosters == old(boosters)
      ensures log == old(log) + [Call.GetLastError]
    {
      msg := text;
      log := log + [Call.GetLastError];
    }

    /**
     * The shared effect of the three booster constructors: on success a new
     * booster object, whose address is written to the void** cell `out`.
     */
    method NewBooster(call: Call, out: Ptr, status: int) returns (result: int)
      requires Valid() && out in mem && mem[out].VoidPtrCell?
      modifies this
      ensures Valid() && result == status && log == old(log) + [call]
      ensures status < 0 ==> mem == old(mem) && boosters == old(boosters) && next == old(next)
      ensures status >= 0 ==>
        next == old(next) + 1 && old(next) !in old(boosters) &&
        boosters == old(boosters) + {old(next)} &&
        mem == old(mem)[out := VoidPtrCell(Some(old(next)))]
    {
      log := log + [call];
      result := status;
      if status >= 0 {
        boosters := boosters + {next};
        mem := mem[out := VoidPtrCell(Some(next))];
        next := next + 1;
      }
    }

    /** LGBM_BoosterCreateFromModelfile and LGBM_BoosterLoadModelFromString. */
    method BoosterLoad(call: Call, outNumIterations: Ptr, out: Ptr, answer: Answer<nat>)
      returns (result: int)
      requires call.BoosterCreateFromModelfile? || call.BoosterLoadModelFromString?
      requires Valid() && out in mem && mem[out].VoidPtrCell?
      requires outNumIterations in mem && mem[outNumIterations].IntCell?
      modifies this
      ensures Valid() && result == answer.status && log == old(log) + [call]
      ensures result < 0 ==> mem == old(mem) && boosters == old(boosters) && next == old(next)
      ensures result >= 0 ==>
        next == old(next) + 1 && old(next) !in old(boosters) &&
        boosters == old(boosters) + {old(next)} &&
        mem == old(mem)[out := VoidPtrCell(Some(old(next)))]
                       [outNumIterations := IntCell(answer.out)]
    {
      result := NewBooster(call, out, answer.status);
      if result >= 0 {
        mem := mem[outNumIterations := IntCell(answer.out)];
      }
    }

    /** LGBM_BoosterFree. */
    method BoosterFreeCall(booster: Ptr, answer: Answer<()>) returns (result: int)
      requires Valid() && booster in boosters
      modifies this
      ensures Valid() && result == answer.status
      ensures log == old(log) + [BoosterFree(booster)]
      ensures mem == old(mem) && next == old(next)
      ensures boosters == if result < 0 then old(boosters) else old(boosters) - {booster}
    {
      log := log + [BoosterFree(booster)];
      result := answer.status;
      if result >= 0 {
        boosters := boosters - {booster};
      }
    }

    /** LGBM_BoosterUpdateOneIter; the out-parameter is the is-finished flag. */
    method BoosterUpdateOneIterCall(booster: Ptr, outIsFinished: Ptr, answer: Answer<int>)
      returns (result: int)
      requires Valid() && booster in boosters
      requires outIsFinished in mem && mem[outIsFinished].IntCell?
      modifies this
      ensures Valid() && result == answer.status
      ensures log == old(log) + [BoosterUpdateOneIter(booster)]
      ensures next == old(next) && boosters == old(boosters)
      ensures mem == if result < 0 then old(mem) else old(mem)[outIsFinished := IntCell(answer.out)]
    {
      log := log + [BoosterUpdateOneIter(booster)];
      result := answer.status;
      if result >= 0 {
        mem := mem[outIsFinished := IntCell(answer.out)];
      }
    }

    /**
     * The shared effect of the calls that fill a double buffer: on success the
     * engine's values are written at the start of `outResult`.
     */
    method WriteResults(call: Call, outResult: Ptr, answer: Answer<seq<Float64>>)
      returns (result: int)
      requires Valid() && outResult in mem && mem[outResult].DoubleArray?
      requires answer.status >= 0 ==> |answer.out| <= |mem[outResult].doubles|
      modifies this
      ensures Valid() && result == answer.status && log == old(log) + [call]
      ensures next == old(next) && boosters == old(boosters)
      ensures mem == if result < 0 then old(mem) else
        old(mem)[outResult := DoubleArray(answer.out + old(mem[outResult].doubles)[|answer.out|..])]
    {
      log := log + [call];
      result := answer.status;
      if result >= 0 {
        mem := mem[outResult := DoubleArray(answer.out + mem[outResult].doubles[|answer.out|..])];
      }
    }

    /**
     * LGBM_BoosterPredictForMat: the engine reads the input buffer, writes the
     * predictions to `outResult` and their count to the int64 cell `outLen`.
     */
    method BoosterPredictForMatCall(booster: Ptr, data: Ptr, dataType: int, nrow: int, ncol: int,
                                    isRowMajor: int, predictType: int, startIteration: int,
                                    numIteration: int, parameter: string, outLen: Ptr, outResult: Ptr,
                                    answer: Answer<seq<Float64>>)
      returns (result: int)
      requires Valid() && booster in boosters
      requires data in mem && (mem[data].FloatArray? || mem[data].DoubleArray?)
      requires outLen in mem && mem[outLen].Int64Cell?
      requires outResult in mem && mem[outResult].DoubleArray?
      requires answer.status >= 0 ==> |answer.out| <= |mem[outResult].doubles|
      modifies this
      ensures Valid() && result == answer.status
      ensures log == old(log) + [BoosterPredictForMat(booster, MatrixOf(old(mem[data])), dataType, nrow, ncol,
                                                      isRowMajor, predictType, startIteration, numIteration,
                                                      parameter, |old(mem[outResult].doubles)|)]
      ensures next == old(next) && boosters == old(boosters)
      ensures mem == if result < 0 then old(mem) else
        old(mem)[outLen := Int64Cell(|answer.out|)]
                [outResult := DoubleArray(answer.out + old(mem[outResult].doubles)[|answer.out|..])]
    {
      var call := BoosterPredictForMat(booster, MatrixOf(mem[data]), dataType, nrow, ncol, isRowMajor,
                                       predictType, startIteration, numIteration, parameter,
                                       |mem[outResult].doubles|);
      result := WriteResults(call, outResult, answer);
      if result >= 0 {
        mem := mem[outLen := Int64Cell(|answer.out|)];
      }
    }

    /** LGBM_BoosterPredictForMatSingleRow: as BoosterPredictForMatCall, for one row of `ncol` values. */
    method BoosterPredictForMatSingleRowCall(booster: Ptr, data: Ptr, dataType: int, ncol: int,
                                             isRowMajor: int, predictType: int, startIteration: int,
                                             numIteration: int, parameter: string, outLen: Ptr,
                                             outResult: Ptr, answer: Answer<seq<Float64>>)
      returns (result: int)
      requires Valid() && booster in boosters
      requires data in mem && (mem[data].FloatArray? || mem[data].DoubleArray?)
      requires outLen in mem && mem[outLen].Int64Cell?
      requires outResult in mem && mem[outResult].DoubleArray?
      requires answer.status >= 0 ==> |answer.out| <= |mem[outResult].doubles|
      modifies this
      ensures Valid() && result == answer.status
      ensures log == old(log) + [BoosterPredictForMatSingleRow(booster, MatrixOf(old(mem[data])), dataType, ncol,
                                                               isRowMajor, predictType, startIteration,
                                                               numIteration, parameter,
                                                               |old(mem[outResult].doubles)|)]
      ensures next == old(next) && boosters == old(boosters)
      ensures mem == if result < 0 then old(mem) else
        old(mem)[outLen := Int64Cell(|answer.out|)]
                [outResult := DoubleArray(answer.out + old(mem[outResult].doubles)[|answer.out|..])]
    {
      var call := BoosterPredictForMatSingleRow(booster, MatrixOf(mem[data]), dataType, ncol, isRowMajor,
                                                predictType, startIteration, numIteration, parameter,
                                                |mem[outResult].doubles|);
      result := WriteResults(call, outResult, answer);
      if result >= 0 {
        mem := mem[outLen := Int64Cell(|answer.out|)];
      }
    }

    /** LGBM_BoosterGetEval: the metrics go to `outResults`, their count to the int cell `outLen`. */
    method BoosterGetEvalCall(booster: Ptr, dataIdx: int, outLen: Ptr, outResults: Ptr,
                              answer: Answer<seq<Float64>>)
      returns (result: int)
      requires Valid() && booster in boosters
      requires outLen in mem && mem[outLen].IntCell?
      requires outResults in mem && mem[outResults].DoubleArray?
      requires answer.status >= 0 ==> |answer.out| <= |mem[outResults].doubles|
      modifies this
      ensures Valid() && result == answer.status
      ensures log == old(log) + [BoosterGetEval(booster, dataIdx, |old(mem[outResults].doubles)|)]
      ensures next == old(next) && boosters == old(boosters)
      ensures mem == if result < 0 then old(mem) else
        old(mem)[outLen := IntCell(|answer.out|)]
                [outResults := DoubleArray(answer.out + old(mem[outResults].doubles)[|answer.out|..])]
    {
      var call := BoosterGetEval(booster, dataIdx, |mem[outResults].doubles|);
      result := WriteResults(call, outResults, answer);
      if result >= 0 {
        mem := mem[outLen := IntCell(|answer.out|)];
      }
    }

    /** LGBM_BoosterFeatureImportance: one value per feature, written to `outResults`. */
    method BoosterFeatureImportanceCall(booster: Ptr, numIteration: int, importanceType: int,
                                        outResults: Ptr, answer: Answer<seq<Float64>>)
      returns (result: int)
      requires Valid() && booster in boosters
      requires outResults in mem && mem[outResults].DoubleArray?
      requires answer.status >= 0 ==> |answer.out| <= |mem[outResults].doubles|
      modifies this
      ensures Valid() && result == answer.status
      ensures log == old(log) + [BoosterFeatureImportance(booster, numIteration, importanceType,
                                                          |old(mem[outResults].doubles)|)]
      ensures next == old(next) && boosters == old(boosters)
      ensures mem == if result < 0 then old(mem) else
        old(mem)[outResults := DoubleArray(answer.out + old(mem[outResults].doubles)[|answer.out|..])]
    {
      var call := BoosterFeatureImportance(booster, numIteration, importanceType, |mem[outResults].doubles|);
      result := WriteResults(call, outResults, answer);
    }

    /** LGBM_BoosterGetNumFeature. */
    method BoosterGetNumFeatureCall(booster: Ptr, outLen: Ptr, answer: Answer<nat>) returns (result: int)
      requires Valid() && booster in boosters
      requires outLen in mem && mem[outLen].IntCell?
      modifies this
      ensures Valid() && result == answer.status
      ensures log == old(log) + [BoosterGetNumFeature(booster)]
      ensures next == old(next) && boosters == old(boosters)
      ensures mem == if result < 0 then old(mem) else old(mem)[outLen := IntCell(answer.out)]
    {
      log := log + [BoosterGetNumFeature(booster)];
      result := answer.status;
      if result >= 0 {
        mem := mem[outLen := IntCell(answer.out)];
      }
    }
  }
}
