# Tiny-YOLO post-processing, modelled in Dafny

This project models the detection core of the autopol Android app:

- `YoloPostProcessor` turns the flat output of a Tiny-YOLO network into a
  ranked, de-duplicated list of detections. It works in four steps:
  - It derives the class count from the buffer length.
  - It walks the 13 x 13 grid and the five anchors of each cell with a
    running offset, decoding one box per record.
  - It queues a detection for every box whose best class probability times
    its confidence clears 0.3.
  - It drains the priority queue greedily. A candidate is kept unless some
    kept detection is covered by more than half by it.
- `DetectionResult` is the record the queue orders, by descending
  confidence.
- `YoloObjectDetector.preprocess` unpacks 416 x 416 packed ARGB pixels into
  normalised red, green and blue values.

Modules, one per concern:

| file | module | what it holds |
|---|---|---|
| `results.dfy` | `Results` | the two unchecked exceptions the decoder can throw, and `Result`/`Option` |
| `kernels.dfy` | `Kernels` | `Sigmoid.value`, `Math.exp`, `SoftMax` and `ArgMax` as function values, and the facts about them the decoder relies on (`Sound`) |
| `detection_result.dfy` | `Detections` | `BoxPosition`, the `DetectionResult` class and its `compareTo` |
| `overlap.dfy` | `Overlap` | `overlaps` and `getIntersectionProportion` |
| `priority_queue.dfy` | `Queues` | the `PriorityQueue` as a class over a sequence, and the order in which `poll` drains it |
| `suppression.dfy` | `Suppression` | the suppression pass of `getObjectsAndBoundingBoxes` as a function of the queue's contents |
| `decoding.dfy` | `Decoding` | `getModel`, `calculateTopPredictions` and the whole decoder as functions of the output buffer |
| `post_processor.dfy` | `PostProcessor` | the imperative methods, each proved to compute the corresponding function |
| `preprocess.dfy` | `Preprocessing` | `preprocess` as an array-filling loop, with its channel arithmetic |

The Java methods that change state are Dafny methods:

- `getModel` fills an array in a loop.
- `calculateTopPredictions` adds to the queue.
- `getObjectsAndBoundingBoxes` polls the queue and appends to a list.
- `detectObjectsAndBoundingBox` runs three nested loops over a running
  offset and fills a 3-D array.
- `preprocess` fills a float array.

Each method's postcondition ties its result, or the new queue contents, to a
function of its inputs. The properties the source promises are proved about
those functions. The loop bodies of `detectObjectsAndBoundingBox` and
`getObjectsAndBoundingBoxes` are split into one method per nesting level:
`ProcessRow`, `ProcessCell`, `ProcessRecord`, `SuppressRemaining` and
`ExamineNext`. Each runs its part of the Java loop unchanged.

An exception (`ArrayIndexOutOfBoundsException` or
`NegativeArraySizeException`) ends the run and is the `Err` outcome. It is
thrown when:

- a record does not fit in the buffer;
- the class count is negative;
- a class index has no label.

`THRESHOLD` is the double value of the float `0.3f`, exactly
5033165 / 2^24, since the confidence is compared in double precision.
Confidences and rectangles are real numbers.

## Model

| member | source | states |
|---|---|---|
| Detections.DetectionResult.constructor | app/src/main/java/com/autopol/deepmodel/DetectionResult.java:9-15 | id, title, confidence and location are stored unchanged |
| Detections.DetectionResult.SetLocation | app/src/main/java/com/autopol/deepmodel/DetectionResult.java:33-35 | the location becomes the argument and id, title and confidence are unchanged |
| Detections.DetectionResult.CompareTo | app/src/main/java/com/autopol/deepmodel/DetectionResult.java:37-40 | negative exactly when this record is more confident, zero exactly when equally confident, positive exactly when less: a descending order by confidence |
| Detections.CompareToIsConsistent | app/src/main/java/com/autopol/deepmodel/DetectionResult.java:38-40 | a record compares equal to itself, swapping the arguments flips the sign, and the order is transitive |
| Overlap.OverlapsIsSymmetric | app/src/main/java/com/autopol/deepmodel/YoloPostProcessor.java:124-127 | `overlaps(a, b)` holds exactly when `overlaps(b, a)` does |
| Overlap.TouchingBoxesDoNotOverlap | app/src/main/java/com/autopol/deepmodel/YoloPostProcessor.java:112-127 | rectangles that only share an edge do not overlap, and their proportion is 0 |
| Overlap.DisjointProportionIsZero | app/src/main/java/com/autopol/deepmodel/YoloPostProcessor.java:112-120 | the proportion is 0 whenever the rectangles do not overlap |
| Overlap.ZeroAreaPrimaryHasEmptyIntersection | app/src/main/java/com/autopol/deepmodel/YoloPostProcessor.java:114-117 | a primary rectangle of zero area has zero intersection with every rectangle |
| Overlap.ProportionIsBetweenZeroAndOne | app/src/main/java/com/autopol/deepmodel/YoloPostProcessor.java:112-122 | the intersection-over-primary-area proportion lies in [0, 1] for all rectangles |
| Overlap.SelfProportionIsOne | app/src/main/java/com/autopol/deepmodel/YoloPostProcessor.java:112-122 | a rectangle of positive extent covers itself entirely (proportion 1) |
| Overlap.NestedBoxProportions | app/src/main/java/com/autopol/deepmodel/YoloPostProcessor.java:112-122 | the proportion is not symmetric: an inner rectangle is covered entirely by an outer one, while the outer one is covered by the ratio of the areas, below 1 when the outer one is larger |
| Queues.BestIndexIsBest | app/src/main/java/com/autopol/deepmodel/YoloPostProcessor.java:93 | `poll` takes a most confident entry, the earliest such |
| Queues.PollOrderIsPermutation | app/src/main/java/com/autopol/deepmodel/YoloPostProcessor.java:93-97 | draining the queue hands out each entry exactly once (same multiset) |
| Queues.PollOrderIsSorted | app/src/main/java/com/autopol/deepmodel/YoloPostProcessor.java:93-97 | entries come out in non-increasing confidence, the first being at least as confident as every entry |
| Queues.DetectionQueue.constructor | app/src/main/java/com/autopol/deepmodel/YoloPostProcessor.java:38 | a new queue is empty, whatever its initial capacity |
| Queues.DetectionQueue.Add | app/src/main/java/com/autopol/deepmodel/YoloPostProcessor.java:79 | the record is added and nothing else changes |
| Queues.DetectionQueue.Poll | app/src/main/java/com/autopol/deepmodel/YoloPostProcessor.java:93 | null for an empty queue; otherwise removes and returns a most confident record, which compares at most 0 against every queued record, and the remaining poll order is the rest of the old one |
| Suppression.SuppressFromIsSubsequence | app/src/main/java/com/autopol/deepmodel/YoloPostProcessor.java:96-107 | the pass only appends, and what it appends is a subsequence of the candidates in their order, given by increasing indices |
| Suppression.DiscardedOverlapsAccepted | app/src/main/java/com/autopol/deepmodel/YoloPostProcessor.java:98-106 | every candidate left out is covered by more than half by a detection that is kept |
| Suppression.SuppressFromKeepsApart | app/src/main/java/com/autopol/deepmodel/YoloPostProcessor.java:98-106 | no kept detection is covered by more than half by a later kept one |
| Suppression.SuppressFromKeepsSorted | app/src/main/java/com/autopol/deepmodel/YoloPostProcessor.java:96-107 | candidates offered in non-increasing confidence give a result in non-increasing confidence |
| Suppression.ApartCandidatesAreAllKept | app/src/main/java/com/autopol/deepmodel/YoloPostProcessor.java:98-106 | candidates of which no two overlap by more than half are all kept |
| Suppression.ExaminedCountIsRoundCount | app/src/main/java/com/autopol/deepmodel/YoloPostProcessor.java:96 | with the queue holding n - 1 - i entries before round i, round i runs exactly when i is below min(15, n / 2) |
| Suppression.ExaminedCountBounds | app/src/main/java/com/autopol/deepmodel/YoloPostProcessor.java:96 | at most MAX_RESULTS candidates are examined, and never more than remain after the first poll |
| Suppression.TopDetectionsProperties | app/src/main/java/com/autopol/deepmodel/YoloPostProcessor.java:88-110 | the result is empty exactly when the queue is. Otherwise it opens with a most confident entry, kept without an overlap test, and continues with a subsequence of the examined candidates. It has at most 1 + MAX_RESULTS entries, confidence never increases, no entry is covered by more than half by a later one, and every examined candidate left out is covered by a kept one |
| Suppression.SuppressedRun | app/src/main/java/com/autopol/deepmodel/YoloPostProcessor.java:93-107 | the same facts for the pass over any confidence-ordered list and any number of examined candidates |
| Suppression.TopDetectionsDrawnFromQueue | app/src/main/java/com/autopol/deepmodel/YoloPostProcessor.java:88-110 | every returned detection is one of the queued ones |
| Suppression.SameBoxKeepsBest | app/src/main/java/com/autopol/deepmodel/YoloPostProcessor.java:91-107 | two detections on the same rectangle, in either queue order: only the more confident one is returned |
| Suppression.DisjointBoxesAreBothKept | app/src/main/java/com/autopol/deepmodel/YoloPostProcessor.java:91-107 | two detections on rectangles that do not overlap are both returned, the more confident first |
| Suppression.DuplicatesCollapse | app/src/main/java/com/autopol/deepmodel/YoloPostProcessor.java:72-107 | a detection queued k times, as `calculateTopPredictions` queues it, comes out once |
| Suppression.HalvedExamination | app/src/main/java/com/autopol/deepmodel/YoloPostProcessor.java:96 | when no two queued detections overlap by more than half, the result is the first 1 + min(15, n / 2) entries of the poll order, so 3 to 29 such detections yield fewer than min(n, 16) results |
| Suppression.IntendedExaminedCount | app/src/main/java/com/autopol/deepmodel/YoloPostProcessor.java:96 | with the bound read once before the loop, every remaining entry is examined, up to MAX_RESULTS |
| Suppression.IntendedTopDetectionsKeepsApart | app/src/main/java/com/autopol/deepmodel/YoloPostProcessor.java:96-107 | with the bound read once, detections of which no two overlap by more than half are all returned, up to 1 + MAX_RESULTS of them, in poll order |
| Suppression.IntendedTopDetectionsProperties | app/src/main/java/com/autopol/deepmodel/YoloPostProcessor.java:88-110 | the corrected pass keeps all the other promises: a most confident entry first, at most 1 + MAX_RESULTS entries, sorted, pairwise apart, and discarded candidates covered by kept ones |
| Decoding.NumClassOfLayout | app/src/main/java/com/autopol/deepmodel/YoloPostProcessor.java:36 | a buffer of 845 (k + 5) values, plus fewer than 845 left over, gives k classes |
| Decoding.NumClassOfShortOutput | app/src/main/java/com/autopol/deepmodel/YoloPostProcessor.java:36 | a buffer shorter than 845 records of five values gives no class, and 0 classes exactly when it is longer than 4 x 845 values |
| Decoding.RecordLayout | app/src/main/java/com/autopol/deepmodel/YoloPostProcessor.java:40-49 | the record of cell (cy, cx) and anchor b is number (cy * 13 + cx) * 5 + b, and it ends inside a buffer of 845 (k + 5) values |
| Decoding.RecordOffsetIsProduct | app/src/main/java/com/autopol/deepmodel/YoloPostProcessor.java:40-49 | the running offset before record i is i (k + 5), so the final offset is the buffer length for a buffer of 845 (k + 5) values |
| Decoding.DecodedBoxFacts | app/src/main/java/com/autopol/deepmodel/YoloPostProcessor.java:54-70 | decoding fails exactly when the record does not fit or k is negative. A decoded box has its centre strictly inside its cell, a positive extent, a confidence in (0, 1), and the k class values copied verbatim |
| Decoding.DuplicationQuirk | app/src/main/java/com/autopol/deepmodel/YoloPostProcessor.java:74-85 | every round computes the same argmax, so a box that clears the threshold is queued once per class as identical entries, and a box that does not is queued zero times |
| Decoding.PredictionStepFacts | app/src/main/java/com/autopol/deepmodel/YoloPostProcessor.java:75-83 | a queued detection has a confidence in (THRESHOLD, 1), its id is the argmax of the softmaxed classes with the label at that id, and its rectangle is the box centred on the decoded centre. A box below the threshold queues nothing, and the lookup throws only for an id without a label |
| Decoding.ScoredBoxFacts | app/src/main/java/com/autopol/deepmodel/YoloPostProcessor.java:72-86 | a box queues at most k entries, each admissible, and with a label for each class it never throws |
| Decoding.RecordEntriesSucceed | app/src/main/java/com/autopol/deepmodel/YoloPostProcessor.java:44-46 | with 845 records of five values and a label per class, every record decodes and scores without an exception |
| Decoding.RecordEntriesFacts | app/src/main/java/com/autopol/deepmodel/YoloPostProcessor.java:44-46 | each record adds at most k admissible entries |
| Decoding.CollectFacts | app/src/main/java/com/autopol/deepmodel/YoloPostProcessor.java:40-49 | after n records the queue holds at most n k entries, all admissible |
| Decoding.NoClassesNoDetections | app/src/main/java/com/autopol/deepmodel/YoloPostProcessor.java:35-51 | with no classes nothing is ever queued, so a successful run returns nothing |
| Decoding.ShortOutputThrows | app/src/main/java/com/autopol/deepmodel/YoloPostProcessor.java:35-51 | a buffer shorter than 845 records of five values always throws |
| Decoding.WellSizedOutputSucceeds | app/src/main/java/com/autopol/deepmodel/YoloPostProcessor.java:35-51 | a buffer of at least 845 records of five values, with a label for each class, never throws |
| Decoding.DecodeProperties | app/src/main/java/com/autopol/deepmodel/YoloPostProcessor.java:35-51 | a successful run returns at most 16 detections, in non-increasing confidence, pairwise apart, each with a confidence in (THRESHOLD, 1), a class id with its own label, and a rectangle of positive extent |
| PostProcessor.GetModel | app/src/main/java/com/autopol/deepmodel/YoloPostProcessor.java:54-70 | the returned box, or the exception, is the decoding of the record at `offset` |
| PostProcessor.CalculateTopPredictions | app/src/main/java/com/autopol/deepmodel/YoloPostProcessor.java:72-86 | the queue grows by exactly the box's scored entries, as fresh records. On an exception the queue is unchanged and the exception is returned |
| PostProcessor.OverlapsKept | app/src/main/java/com/autopol/deepmodel/YoloPostProcessor.java:98-102 | the accumulated flag is true exactly when some kept detection is covered by more than half by the candidate |
| PostProcessor.ExamineNext | app/src/main/java/com/autopol/deepmodel/YoloPostProcessor.java:97-106 | one round: the queue loses its next entry in poll order, and the kept list becomes the pass over one more candidate |
| PostProcessor.SuppressRemaining | app/src/main/java/com/autopol/deepmodel/YoloPostProcessor.java:96-107 | the loop runs exactly min(15, n / 2) rounds, its kept list is the pass over that many candidates, and the queue still holds exactly the candidates after them, in the same poll order |
| PostProcessor.GetObjectsAndBoundingBoxes | app/src/main/java/com/autopol/deepmodel/YoloPostProcessor.java:88-110 | the returned records hold exactly the suppression result of the queue's old contents, and the queue keeps exactly the entries never examined: its poll order is the old one with the first 1 + min(15, n / 2) entries removed |
| PostProcessor.ProcessRecord | app/src/main/java/com/autopol/deepmodel/YoloPostProcessor.java:44-46 | after record n the queue holds the outcome of the first n + 1 records and the offset moves by k + 5; an exception is the outcome of the whole run |
| PostProcessor.ProcessCell | app/src/main/java/com/autopol/deepmodel/YoloPostProcessor.java:43-47 | the same for the five anchors of a cell |
| PostProcessor.ProcessRow | app/src/main/java/com/autopol/deepmodel/YoloPostProcessor.java:42-48 | the same for the 13 cells of a row |
| PostProcessor.DetectObjectsAndBoundingBox | app/src/main/java/com/autopol/deepmodel/YoloPostProcessor.java:35-52 | throws exactly the exception the decoder function throws; otherwise returns records whose values are the decoder function's result |
| Preprocessing.Normalized | app/src/main/java/com/autopol/deepmodel/YoloObjectDetector.java:73-78 | three values per pixel, slot 3i + c holding channel c of pixel i |
| Preprocessing.Preprocess | app/src/main/java/com/autopol/deepmodel/YoloObjectDetector.java:68-80 | a fresh buffer of 3 x 416 x 416 values whose slot 3i + c is the normalised channel c of pixel i: red from bits 16-23, green from bits 8-15, blue from bits 0-7 |
| Preprocessing.ChannelByte | app/src/main/java/com/autopol/deepmodel/YoloObjectDetector.java:75-77 | the masked shift yields a byte in [0, 255], negative pixels included |
| Preprocessing.ChannelValueRange | app/src/main/java/com/autopol/deepmodel/YoloObjectDetector.java:75-77 | each value is (byte - 128) / 128, in [-1, 127/128], and gives back its byte exactly |
| Preprocessing.NormalizeIsInjective | app/src/main/java/com/autopol/deepmodel/YoloObjectDetector.java:75-77 | distinct bytes give distinct values |
| Preprocessing.ChannelOfLowBits | app/src/main/java/com/autopol/deepmodel/YoloObjectDetector.java:75-77 | each channel byte depends only on the low 24 bits of the pixel |
| Preprocessing.AlphaIsIgnored | app/src/main/java/com/autopol/deepmodel/YoloObjectDetector.java:75-77 | pixels that agree in their colour bits give the same three values, whatever their alpha bits |
| Preprocessing.ChannelsRebuildColour | app/src/main/java/com/autopol/deepmodel/YoloObjectDetector.java:75-77 | the three channel bytes put back together are the low 24 bits of the pixel, so no colour information is lost |

## Left out

- TensorFlow inference is not part of this model: `runTensorFlowWithYoloModel`, the model loading in `init`, and `getOutputSizeByShape`. These are calls into an unseen library. The decoder takes the output buffer as a parameter.
- Reading the label file and `Bitmap.getPixels` are I/O. The labels are a parameter, and `Preprocess` takes the pixel array `getPixels` has filled.
- The lazy singleton `getInstance` is left out. The decoder is a module of methods with no global state.
- `Sigmoid.value`, `Math.exp`, `SoftMax` and `ArgMax` are left unspecified. They are function values, and only the facts in `Kernels.Sound` are assumed of them: the logistic function lies in (0, 1), the exponential is positive, softmax keeps the length and yields values in (0, 1], and argmax names a largest entry.
- Floating point is left out. Boxes, confidences and proportions are real numbers, so these are not modelled:
  - the `(float)` narrowing of the confidence and the rectangle;
  - rounding in `getModel` and in the proportion.
- A zero-area primary rectangle makes the source divide 0 by 0, giving NaN. The model uses 0 instead. Both compare false against `OVERLAP_THRESHOLD`, so the suppression outcome is the same.
- `Float.compare`'s ordering of NaN and -0.0 is left out.
- `PriorityQueue`'s order among equally confident entries is unspecified. The model polls the earliest-added most confident entry, so a different tie order is not captured.
- `BoxPosition` is not part of this model. A rectangle is a value with right = left + width and bottom = top + height. The copy `getLocation` makes is the value itself.
- `DetectionResult`'s getters are its fields, and `toString` is left out.
- PostProcessor.GetObjectsAndBoundingBoxes: does not state that the returned records are the queued objects themselves. It states only that their values are the suppression result.
- PostProcessor.DetectObjectsAndBoundingBox: does not state what `boundingBoxPerCell` holds. The source never reads it.
- PostProcessor.ProcessRecord: does not state what it stores in `boundingBoxPerCell`. It stores each decoded box there.
- PostProcessor.ProcessCell: does not state what `boundingBoxPerCell` holds. It only passes the array down to `ProcessRecord`.
- PostProcessor.ProcessRow: does not state what `boundingBoxPerCell` holds. It only passes the array down to `ProcessCell`.
- Decoding.DuplicationQuirk: assumes `SoftMax` does not modify the array it is given. The code of `SoftMax` is not part of this model. Line 66 shows that `getClasses()` returns the box's own array, and line 75 hands that array to `new SoftMax(...)` in every round. If `SoftMax` normalised the array in place, each round would softmax the previous round's output. The argmax index would be the same, but the queued confidence would change from round to round. The copies of one box would then not be identical, and `Suppression.DuplicatesCollapse` would not apply to them. The model's `softMax` is a function of a value, so the model cannot express that case.
- The camera activity (`ObstacleDetectorActivity`) and the overlay view (`OverlayView`) are Android UI, threading and audio, and are not modelled.

## Findings

| source | as written | input that shows it | evidently intended | confidence | as-written member | corrected member |
|---|---|---|---|---|---|---|
| app/src/main/java/com/autopol/deepmodel/YoloPostProcessor.java:96 | the loop bound `Math.min(priorityQueue.size(), MAX_RESULTS)` is re-read after every `poll`, while the queue shrinks by one per round, so only min(15, n / 2) of the n - 1 remaining candidates are examined | three queued detections on pairwise disjoint rectangles: the third overlaps nothing yet is never examined, and two detections are returned | examine min(n - 1, 15) candidates, reading the bound once before the loop | medium; not executed | Suppression.HalvedExamination | Suppression.IntendedTopDetectionsKeepsApart |

The decoder methods keep the bound as written, since they model the source.
`Suppression.IntendedTopDetections` is the corrected pass, and
`Suppression.IntendedTopDetectionsProperties` shows that it keeps every other
promise of the original.
