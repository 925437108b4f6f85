# LGBMBooster: native buffer and iteration-counter discipline

This project models the Java class `LGBMBooster` of lightgbm4j. That class is
a JNI wrapper around one native LightGBM booster. The model covers the layer
of the class that can be stated without the engine:

- the output-buffer sizing for predictions (`outBufferSize`) and the mapping
  of importance modes to native codes (`importanceType`);
- the `iterations` counter. `create` sets it to 0, the two loaders take it
  from the engine, `updateOneIter` raises it by one, and every prediction
  passes the range 0 to `iterations`;
- the allocate, copy in, call, copy back and free discipline of both
  `predictForMat` overloads, both `predictForMatSingleRow` overloads,
  `getEval`, `featureImportance`, `getNumFeature`, and of `close` and the
  factories.

Files:

- `Wrappers.dfy`: `Option`, `Result` and the two exceptions a call can end in
  (`LGBMException` with the engine's last-error text, and Java's
  `ArrayIndexOutOfBoundsException`).
- `Native.dfy`: the native side. It holds the constants of LightGBM's
  `c_api.h` and a `Heap` class of live native allocations. Its `mem` map goes
  from address to block, so its keys are the live buffers. It also holds the
  set of live native boosters, a next-address counter, and a ghost `log` of
  engine calls with the arguments each one received. The SWIG helpers
  (`new_*`, `delete_*`, `*_setitem`) are single methods on it. Each engine
  entry point takes the engine's `Answer` as a parameter: a status code, the
  values written to its out-parameters, and the text `LGBM_GetLastError`
  would return. The entry point performs the effect on native memory.
- `Booster.dfy`: the prediction and importance modes with their native codes,
  the sizing function, the copy loops, and the class `LGBMBooster` with its
  factories and methods.
- `Scenarios.dfy`: three client scenarios against a scripted engine. Five rounds of
  training give `iterations == 5`. A 2x3 raw-score prediction returns the
  engine's two values and leaks nothing. A failed round still counts an
  iteration and leaks one cell.

Every method of `LGBMBooster` states the whole new native state: the live
allocations (`heap.mem`), the live native boosters, the next free address and
the engine calls made. When the wrapper frees everything it allocated, the
allocations are `heap.mem == old(heap.mem)`. The methods also state the
result or exception, and what happens to `iterations`. The places where the
code leaves native memory allocated are reproduced as they are written, not
fixed:

- `updateOneIter` does not free the is-finished cell when the status is
  negative (LGBMBooster.java:300-304).
- `createFromModelfile` and `loadModelFromString` do not free the void** cell
  or the iteration cell when the status is negative (:129-133, :149-153).
- `create` does not free the void** cell when the status is negative
  (:284-287).
- The void** cell is never freed, not even by `close` (:166-172).

Two points in the source read differently from what the code does. The
model follows the code in both cases:

- The Javadoc of `close()` promises to deallocate all native memory of the
  model (:161-162). `close()` frees the native booster but not the void**
  cell that holds it (:166-172), so `Close` leaves `heap.mem` unchanged.
- The error branches free their buffers before they call `LGBM_GetLastError`
  (:206-210). The frees are SWIG helpers, not LightGBM calls, so the text is
  still the failing call's. In the model `GetLastError` is the next engine
  call after the one that failed.

The sizing is proved against the output lengths that the LightGBM C API
documents for `LGBM_BoosterPredictForMat`. The documented length is
`num_class * nrow`, times `num_iteration` for leaf indices and times
`num_feature + 1` for contributions, where `num_feature` is the model's
feature count. The model states it with the matrix's column count `ncol`. The
two agree on every successful call: the wrapper passes an empty parameter
string, so LightGBM's default shape check is on and rejects a matrix whose
column count differs from the model's. `OutBufferSize` equals that length
for two classes. `OutBufferFitsIff` shows that, for a non-empty prediction, the buffer
holds the documented result exactly when the model has at most two classes.
The prediction methods require that the engine writes no more than the
capacity. For a model with three or more classes, that requirement is where
the model stops.

## Model

| member | source | states |
|---|---|---|
| `Booster.OutBufferSizeIsTwoClassLength` | src/main/java/io/github/metarank/lightgbm4j/LGBMBooster.java:575-583 | The capacity is 2*rows for NORMAL and RAW_SCORE, 2*rows*(cols+1) for CONTRIB and 2*rows*iterations for LEAF_INDEX. In every mode this is the C API's documented output length for a two-class model. |
| `Booster.OutBufferFitsIff` | src/main/java/io/github/metarank/lightgbm4j/LGBMBooster.java:564-583 | For rows > 0 (and iterations > 0 in LEAF_INDEX mode), the documented output of a numClass-class model fits the capacity if and only if numClass <= 2. |
| `Booster.OutBufferSizeNonNegative` | src/main/java/io/github/metarank/lightgbm4j/LGBMBooster.java:575-583 | The capacity is a valid allocation size for non-negative rows, cols and iterations. |
| `Booster.ImportanceType` | src/main/java/io/github/metarank/lightgbm4j/LGBMBooster.java:551-562 | GAIN maps to C_API_FEATURE_IMPORTANCE_GAIN and SPLIT maps to C_API_FEATURE_IMPORTANCE_SPLIT. Decoding the code gives back the mode, so the mapping is one-to-one. |
| `Booster.ImportanceTypeOfDecoded` | src/main/java/io/github/metarank/lightgbm4j/LGBMBooster.java:551-562 | Every importance code that names a mode is the code of that mode, which is the other direction of the round trip. |
| `Booster.PredictionTypeCode` | src/main/java/io/github/metarank/lightgbm4j/LGBMBooster.java:200 | `getType()` maps the four prediction modes one-to-one onto the C API's predict-type codes. Decoding gives back the mode. |
| `Booster.PredictionTypeCodeOfDecoded` | src/main/java/io/github/metarank/lightgbm4j/LGBMBooster.java:200 | Every predict-type code that names a mode is the code of that mode. |
| `Booster.CopyInFloats` | src/main/java/io/github/metarank/lightgbm4j/LGBMBooster.java:186-189 | After the setitem loop, the native float buffer has the input's length and holds input[i] at every index i. No other allocation changes. |
| `Booster.CopyInDoubles` | src/main/java/io/github/metarank/lightgbm4j/LGBMBooster.java:237-240 | The same for a double buffer. |
| `Booster.CopyOutDoubles` | src/main/java/io/github/metarank/lightgbm4j/LGBMBooster.java:213-216 | The getitem loop returns exactly the first n values of the native buffer, in order. |
| `Booster.FinishPrediction` | src/main/java/io/github/metarank/lightgbm4j/LGBMBooster.java:206-221 | On a negative status it frees the input buffer, the length cell and the output buffer, then throws with the engine's text. Otherwise it returns the prefix of the output buffer whose length the cell reports, and frees the same three buffers. |
| `Booster.LGBMBooster.constructor` | src/main/java/io/github/metarank/lightgbm4j/LGBMBooster.java:116-119 | It stores the iteration count and the handle cell. |
| `Booster.LGBMBooster.Load` | src/main/java/io/github/metarank/lightgbm4j/LGBMBooster.java:128-159 | This is the shared body of the two loaders; `Loaded` states its outcome. On success the counter is the count the engine reports, the iteration cell is freed, and the handle cell points to the new native booster. On failure both cells stay allocated and the call throws. |
| `Booster.LGBMBooster.CreateFromModelfile` | src/main/java/io/github/metarank/lightgbm4j/LGBMBooster.java:128-139 | The engine is asked to load the file. Otherwise it behaves as Load, including the two cells left allocated on failure. |
| `Booster.LGBMBooster.LoadModelFromString` | src/main/java/io/github/metarank/lightgbm4j/LGBMBooster.java:148-159 | The engine is asked to load the string. Otherwise it behaves as Load. |
| `Booster.LGBMBooster.Create` | src/main/java/io/github/metarank/lightgbm4j/LGBMBooster.java:283-291 | On success the booster starts at iterations == 0 over a new native booster. On failure the call throws and the handle cell stays allocated. |
| `Booster.LGBMBooster.Close` | src/main/java/io/github/metarank/lightgbm4j/LGBMBooster.java:166-172 | It calls BoosterFree on the booster the handle cell points to. On success the native booster is gone and the object is no longer valid. The handle cell stays allocated on both branches, and a negative status throws. |
| `Booster.LGBMBooster.UpdateOneIter` | src/main/java/io/github/metarank/lightgbm4j/LGBMBooster.java:299-310 | iterations goes up by exactly 1 whatever the status. On success the result is "finished flag == 1" and every cell is freed. On failure the call throws and the is-finished cell stays allocated. |
| `Booster.LGBMBooster.PredictForMatFloat` | src/main/java/io/github/metarank/lightgbm4j/LGBMBooster.java:185-222 | The engine receives the input unchanged as FLOAT32, rows and cols, the row-major flag, the mode code, iterations 0 to `iterations`, "" and a buffer of OutBufferSize capacity. The result is exactly the values the engine reports, or on a negative status an exception with its text. Native memory ends as it began on both branches, and `iterations` is unchanged. |
| `Booster.LGBMBooster.PredictForMatDouble` | src/main/java/io/github/metarank/lightgbm4j/LGBMBooster.java:236-273 | The same as PredictForMatFloat, with the input tagged FLOAT64. |
| `Booster.LGBMBooster.PredictForMatSingleRowDouble` | src/main/java/io/github/metarank/lightgbm4j/LGBMBooster.java:462-500 | The engine receives the row as FLOAT64, ncol = length of the row, row-major, the iteration range 0 to `iterations`, and the batch capacity at rows = 1. The result is the first reported value. When the engine reports no values, the call throws ArrayIndexOutOfBounds after freeing. Nothing is leaked on either branch. |
| `Booster.LGBMBooster.PredictForMatSingleRowFloat` | src/main/java/io/github/metarank/lightgbm4j/LGBMBooster.java:511-549 | The same as PredictForMatSingleRowDouble, with the row tagged FLOAT32. |
| `Booster.LGBMBooster.GetEval` | src/main/java/io/github/metarank/lightgbm4j/LGBMBooster.java:372-389 | The engine gets a 1024-slot buffer. The result is exactly the prefix it reports. Both buffers are freed on both branches. |
| `Booster.LGBMBooster.GetNumFeature` | src/main/java/io/github/metarank/lightgbm4j/LGBMBooster.java:440-451 | The result is the engine's count, or an exception on a negative status. The cell is freed on both branches. |
| `Booster.LGBMBooster.FeatureImportance` | src/main/java/io/github/metarank/lightgbm4j/LGBMBooster.java:412-432 | A failure of getNumFeature propagates before anything else is allocated. Otherwise the engine gets the importance code and a buffer of one slot per feature. The result has exactly getNumFeature() entries and begins with the engine's values. The buffer is freed on both branches. |
| `Scenarios.TrainFiveRounds` | src/main/java/io/github/metarank/lightgbm4j/LGBMBooster.java:283-310 | Create followed by five rounds gives iterations == 5. getNumFeature returns the engine's 3. |
| `Scenarios.PredictTwoRows` | src/main/java/io/github/metarank/lightgbm4j/LGBMBooster.java:236-273 | A 2x3 raw-score prediction whose engine answers [0.1, 0.2] returns exactly [0.1, 0.2] and leaves no new native allocation. |
| `Scenarios.FailedRound` | src/main/java/io/github/metarank/lightgbm4j/LGBMBooster.java:299-310 | A failing round counts one iteration, throws with the engine's text, and leaves exactly one native allocation behind. |

## Left out

- Library loading is not modelled: `loadNative`, `extractResource`, `copyStream`, the static initialiser and the `nativeLoaded` flag (LGBMBooster.java:18-108). They are file-system I/O, `System.load`, console output and a lock around one-time initialisation. The model assumes the native entry points are loaded.
- `saveModelToString`, `getFeatureNames`, `addValidData` and `getEvalNames` (:326-363, :397-402) are not modelled. The model string and the name arrays come from the engine through `StringArrayHandle`, and are only handed on.
- The engine itself (training, prediction values, the model format) is not modelled. Its status codes, out-parameter values and error texts are parameters of each method (`Answer`). Training changes no modelled state beyond `iterations`.
- Each prediction method requires that, on success, the engine writes no more values than the buffer's capacity. `GetEval` requires at most 1024, and `FeatureImportance` requires at most one per feature. A write past the buffer is memory corruption and cannot be expressed here. `OutBufferFitsIff` says when the requirement holds for LightGBM's documented output lengths.
- On a negative status the engine is taken to write nothing to the call's out-parameters or buffers. The wrapper reads none of them on that branch.
- Floating-point values are IEEE-754 bit patterns (`bv32`, `bv64`). They are only copied, never computed on.
- Java's 32-bit `int` and 64-bit `long` are unbounded in the model. This covers wrap-around of `iterations++` (:302) and of `cols + 1` (:578), and the `(int) length` casts (:213, :264, :491, :540). The prediction methods require `rows >= 0` and `cols >= 0` so that the capacity is a valid allocation size.
- The engine reports lengths and counts as non-negative numbers. The negative-array-size exceptions that a negative count would raise in `new double[...]` are not modelled.
- Native memory from `new_doubleArray` is uninitialised in C++. The model fills it with zeros.
- Booster.LGBMBooster.FeatureImportance: the contract states the result's length and its prefix written by the engine, not its remaining entries. When the engine writes fewer values than there are features, those entries are uninitialised native memory.
- The order of `delete_*` calls within one branch is not recorded, because the frees are not engine calls. The four prediction methods share one tail (`FinishPrediction`). The single-row methods free the output buffer before the length cell on the error branch (:485-487, :534-536), which the shared tail does not distinguish.
- The single-row predictor cache, which the engine reuses between calls, and all thread-safety questions (:453-455) are not modelled. They concern concurrency and the engine's internal state.
- A `null` enum or array argument, which would throw `NullPointerException`, is not modelled.
