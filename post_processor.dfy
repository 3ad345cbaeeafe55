/** `YoloPostProcessor`: the imperative decoder.  Each method works as the
    Java method does (loops, a mutable priority queue, early exit on an
    exception) and is proved to compute the corresponding function of the
    `Decoding` and `Suppression` modules. */
module PostProcessor {
  import opened Results
  import opened Kernels
  import opened Detections
  import opened Overlap
  import opened Queues
  import opened Suppression
  import opened Decoding

  /** `getModel`: reads the five box values of the record at `offset`,
      allocates the class array and copies the class values into it. */
  method GetModel(output: array<real>, cx: int, cy: int, b: nat, numClass: int, offset: nat, m: KernelSet)
    returns (r: Result<BoundingBox>)
    requires b < NUMBER_OF_BOUNDING_BOX
    ensures r == DecodeBox(output[..], cx, cy, b, numClass, offset, m)
  {
    if offset + 5 > output.Length {
      return Err(ArrayIndexOutOfBounds);
    }
    var x := (cx as real + m.sigmoid(output[offset])) * CELL_SIZE;
    var y := (cy as real + m.sigmoid(output[offset + 1])) * CELL_SIZE;
    var width := m.exp(output[offset + 2]) * ANCHORS[2 * b] * CELL_SIZE;
    var height := m.exp(output[offset + 3]) * ANCHORS[2 * b + 1] * CELL_SIZE;
    var confidence := m.sigmoid(output[offset + 4]);
    if numClass < 0 {
      return Err(NegativeArraySize);
    }
    var classes := new real[numClass];
    for probIndex := 0 to numClass
      invariant offset + 5 + probIndex <= output.Length
      invariant forall c :: 0 <= c < probIndex ==> classes[c] == output[offset + 5 + c]
    {
      if probIndex + offset + 5 >= output.Length {
        return Err(ArrayIndexOutOfBounds);
      }
      classes[probIndex] := output[probIndex + offset + 5];
    }
    assert classes[..] == output[..][offset + 5..offset + 5 + numClass];
    r := Ok(BoundingBox(x, y, width, height, confidence, classes[..]));
  }

  /** `calculateTopPredictions`: one round per class; each round queues a
      fresh detection when the best class probability times the box
      confidence exceeds THRESHOLD.  An exception leaves the queue as it was. */
  method CalculateTopPredictions(box: BoundingBox, queue: DetectionQueue, labels: seq<string>, m: KernelSet)
    returns (r: Result<()>)
    modifies queue
    ensures TopPredictions(box, labels, m).Ok? ==>
              && r.Ok?
              && Values(queue.elems) == old(Values(queue.elems)) + TopPredictions(box, labels, m).value
    ensures TopPredictions(box, labels, m).Err? ==>
              r == Err(TopPredictions(box, labels, m).error) && queue.elems == old(queue.elems)
    ensures old(queue.elems) <= queue.elems
    ensures forall j :: old(|queue.elems|) <= j < |queue.elems| ==> fresh(queue.elems[j])
  {
    DuplicationQuirk(box, labels, m, |box.classes|);
    var i := 0;
    while i < |box.classes|
      invariant 0 <= i <= |box.classes|
      invariant Predictions(box, labels, m, i).Ok?
      invariant Values(queue.elems) == old(Values(queue.elems)) + Predictions(box, labels, m, i).value
      invariant old(queue.elems) <= queue.elems
      invariant forall j :: old(|queue.elems|) <= j < |queue.elems| ==> fresh(queue.elems[j])
    {
      var best := m.argMax(m.softMax(box.classes));
      var confidenceInClass := best.maxValue * box.confidence;
      if confidenceInClass > THRESHOLD {
        if !(0 <= best.index < |labels|) {
          // every round throws alike, so this is the first round
          DuplicationQuirk(box, labels, m, i);
          return Err(ArrayIndexOutOfBounds);
        }
        ghost var e := Detection(best.index, labels[best.index], confidenceInClass, Location(box));
        ghost var step := PredictionStep(box, labels, m);
        assert step.Ok? && step.value.Some?;
        assert step.value.value.title == e.title && step.value.value.location == e.location;
        assert step.value.value == e;
        assert step.value == Some(e);
        assert step == Ok(Some(e));
        assert Predictions(box, labels, m, i + 1) == Ok(Predictions(box, labels, m, i).value + [e]);
        var d := new DetectionResult(best.index, labels[best.index], confidenceInClass, Location(box));
        ValuesAppend(queue.elems, d);
        queue.Add(d);
      } else {
        assert Predictions(box, labels, m, i + 1) == Predictions(box, labels, m, i);
      }
      i := i + 1;
    }
    r := Ok(());
  }

  /** The inner loop of `getObjectsAndBoundingBoxes`: whether some kept
      detection is covered by more than OVERLAP_THRESHOLD by `detection`. */
  method OverlapsKept(kept: seq<DetectionResult>, detection: DetectionResult) returns (overlaps: bool)
    ensures overlaps == OverlapsAny(Values(kept), detection.Value())
  {
    overlaps := false;
    for j := 0 to |kept|
      invariant overlaps <==> exists t :: 0 <= t < j && IntersectionProportion(kept[t].GetLocation(), detection.GetLocation()) > OVERLAP_THRESHOLD
    {
      overlaps := overlaps ||
        IntersectionProportion(kept[j].GetLocation(), detection.GetLocation()) > OVERLAP_THRESHOLD;
    }
  }

  lemma SuppressStep(accepted: seq<Detection>, order: seq<Detection>, i: nat, prev: seq<Detection>, overlaps: bool)
    requires 2 + i <= |order|
    requires prev == SuppressFrom(accepted, order[1..1 + i])
    requires overlaps == OverlapsAny(prev, order[1 + i])
    ensures overlaps ==> SuppressFrom(accepted, order[1..2 + i]) == prev
    ensures !overlaps ==> SuppressFrom(accepted, order[1..2 + i]) == prev + [order[1 + i]]
  {
    assert order[1..2 + i][..i] == order[1..1 + i];
  }

  /** One round of the loop of `getObjectsAndBoundingBoxes`: polls the next
      detection and keeps it unless a kept one overlaps it. */
  method ExamineNext(queue: DetectionQueue, results: seq<DetectionResult>, ghost order: seq<Detection>, ghost i: nat)
    returns (results': seq<DetectionResult>)
    modifies queue
    requires 2 + i <= |order|
    requires PollOrder(Values(queue.elems)) == order[1 + i..]
    requires Values(results) == SuppressFrom([order[0]], order[1..1 + i])
    ensures |queue.elems| == |old(queue.elems)| - 1
    ensures PollOrder(Values(queue.elems)) == order[2 + i..]
    ensures Values(results') == SuppressFrom([order[0]], order[1..2 + i])
  {
    var detectionResult := queue.Poll();
    ghost var rest := PollOrder(Values(queue.elems));
    assert [detectionResult.Value()] + rest == order[1 + i..];
    assert order[1 + i..][1..] == order[2 + i..];
    var overlaps := OverlapsKept(results, detectionResult);
    SuppressStep([order[0]], order, i, Values(results), overlaps);
    results' := results;
    if !overlaps {
      ValuesAppend(results, detectionResult);
      results' := results + [detectionResult];
    }
  }

  /** The loop of `getObjectsAndBoundingBoxes`, entered with the best
      detection kept and the rest of the `n` entries still queued. */
  method SuppressRemaining(queue: DetectionQueue, first: DetectionResult, ghost order: seq<Detection>, ghost n: nat)
    returns (results: seq<DetectionResult>)
    modifies queue
    requires 0 < n && |order| == n && |queue.elems| == n - 1
    requires first.Value() == order[0]
    requires PollOrder(Values(queue.elems)) == order[1..]
    ensures Values(results) == SuppressFrom([order[0]], order[1..1 + ExaminedCount(n)])
    ensures |queue.elems| == n - 1 - ExaminedCount(n)
    ensures PollOrder(Values(queue.elems)) == order[1 + ExaminedCount(n)..]
  {
    results := [first];
    assert Values(results) == [order[0]];
    assert order[1..1] == [];
    var i := 0;
    while i < MinNat(queue.Size(), MAX_RESULTS)
      invariant i <= ExaminedCount(n) && |queue.elems| == n - 1 - i
      invariant Examined(queue, results, order, i)
      decreases |queue.elems|
    {
      results := ExamineNext(queue, results, order, i);
      ExaminedCountIsRoundCount(n, i);
      i := i + 1;
    }
    RoundsDone(n, i);
    assert Examined(queue, results, order, ExaminedCount(n));
  }

  /** The loop's state after `k` rounds: the queue holds the poll order past
      the first `1 + k` entries, and `results` is the pass over the `k`
      candidates polled so far. */
  ghost predicate Examined(queue: DetectionQueue, results: seq<DetectionResult>, order: seq<Detection>, k: nat)
    reads queue, queue.elems, results
  {
    && 1 + k <= |order|
    && PollOrder(Values(queue.elems)) == order[1 + k..]
    && Values(results) == SuppressFrom([order[0]], order[1..1 + k])
  }

  /** `getObjectsAndBoundingBoxes`: polls the best detection, then keeps
      polling while the round counter is below the smaller of the current
      queue size and MAX_RESULTS, keeping each polled detection that no kept
      one overlaps by more than OVERLAP_THRESHOLD. */
  method GetObjectsAndBoundingBoxes(queue: DetectionQueue) returns (results: seq<DetectionResult>)
    modifies queue
    ensures Values(results) == TopDetections(old(Values(queue.elems)))
    ensures |queue.elems| ==
              if old(queue.elems) == [] then 0
              else |old(queue.elems)| - 1 - ExaminedCount(|old(queue.elems)|)
    ensures old(queue.elems) != [] ==>
              PollOrder(Values(queue.elems)) ==
              PollOrder(old(Values(queue.elems)))[1 + ExaminedCount(|old(queue.elems)|)..]
  {
    results := [];
    if queue.Size() > 0 {
      ghost var q := Values(queue.elems);
      ghost var order := PollOrder(q);
      var bestRecognition := queue.Poll();
      assert bestRecognition.Value() == order[0];
      results := SuppressRemaining(queue, bestRecognition, order, |q|);
    }
  }

  /** Record (cy, cx, b) of a run that has succeeded so far: its outcome is
      that of decoding the box at the running offset and scoring it, and the
      next record starts numClass + 5 values further on. */
  lemma RecordStep(out: seq<real>, labels: seq<string>, m: KernelSet, rs: seq<Result<seq<Detection>>>, cy: nat, cx: nat, b: nat)
    requires cy < SIZE && cx < SIZE && b < NUMBER_OF_BOUNDING_BOX
    requires RecordsOf(out, labels, m, rs)
    ensures var n := cy * 65 + cx * 5 + b;
            var k := NumClass(|out|);
            var box := DecodeBox(out, cx, cy, b, k, RecordOffset(n, k), m);
            && n < RECORDS
            && RecordOffset(n + 1, k) == RecordOffset(n, k) + k + 5
            && (box.Err? ==> rs[n] == Err(box.error))
            && (box.Ok? ==> rs[n] == TopPredictions(box.value, labels, m))
  {
    var n := cy * 65 + cx * 5 + b;
    RecordLayout(cy, cx, b, 0);
    assert CellOf(n) == (cy, cx, b);
    assert rs[n] == RecordEntries(out, labels, m, n);
  }

  /** The body of the innermost loop of `detectObjectsAndBoundingBox`: decodes
      record (cy, cx, b) at `offset`, stores its box and scores it into the
      queue. */
  method ProcessRecord(output: array<real>, ghost out: seq<real>, labels: seq<string>, m: KernelSet,
                       ghost rs: seq<Result<seq<Detection>>>, cy: nat, cx: nat, b: nat, ghost n: nat,
                       offset: nat, boxes: array3<Option<BoundingBox>>, queue: DetectionQueue)
    returns (r: Result<()>)
    modifies boxes, queue
    requires out == output[..] && RecordsOf(out, labels, m, rs)
    requires cy < SIZE && cx < SIZE && b < NUMBER_OF_BOUNDING_BOX && n == cy * 65 + cx * 5 + b
    requires boxes.Length0 == SIZE && boxes.Length1 == SIZE && boxes.Length2 == NUMBER_OF_BOUNDING_BOX
    requires Fold(rs, n) == Ok(Values(queue.elems))
    requires offset == RecordOffset(n, NumClass(output.Length))
    ensures n < RECORDS
    ensures r.Err? ==> Fold(rs, RECORDS) == Err(r.error)
    ensures r.Ok? ==> Fold(rs, n + 1) == Ok(Values(queue.elems))
    ensures r.Ok? ==> offset + NumClass(output.Length) + 5 == RecordOffset(n + 1, NumClass(output.Length))
  {
    var numClass := NumClass(output.Length);
    RecordStep(out, labels, m, rs, cy, cx, b);
    var box := GetModel(output, cx, cy, b, numClass, offset, m);
    if box.Err? {
      FoldErrSticks(rs, n + 1, RECORDS);
      return Err(box.error);
    }
    boxes[cx, cy, b] := Some(box.value);
    r := CalculateTopPredictions(box.value, queue, labels, m);
    if r.Err? {
      FoldErrSticks(rs, n + 1, RECORDS);
    }
  }

  /** The loop over the five anchors of cell (cy, cx) in
      `detectObjectsAndBoundingBox`, record `n` being the cell's first. */
  method ProcessCell(output: array<real>, ghost out: seq<real>, labels: seq<string>, m: KernelSet,
                     ghost rs: seq<Result<seq<Detection>>>, cy: nat, cx: nat, ghost n: nat,
                     offset: nat, boxes: array3<Option<BoundingBox>>, queue: DetectionQueue)
    returns (r: Result<()>, offset': nat)
    modifies boxes, queue
    requires out == output[..] && RecordsOf(out, labels, m, rs)
    requires cy < SIZE && cx < SIZE && n == cy * 65 + cx * 5
    requires boxes.Length0 == SIZE && boxes.Length1 == SIZE && boxes.Length2 == NUMBER_OF_BOUNDING_BOX
    requires Fold(rs, n) == Ok(Values(queue.elems))
    requires offset == RecordOffset(n, NumClass(output.Length))
    ensures n + 5 <= RECORDS
    ensures r.Err? ==> Fold(rs, RECORDS) == Err(r.error)
    ensures r.Ok? ==> Fold(rs, n + 5) == Ok(Values(queue.elems))
    ensures r.Ok? ==> offset' == RecordOffset(n + 5, NumClass(output.Length))
  {
    var numClass := NumClass(output.Length);
    offset' := offset;
    for b := 0 to NUMBER_OF_BOUNDING_BOX
      invariant n + b <= RECORDS
      invariant Fold(rs, n + b) == Ok(Values(queue.elems))
      invariant offset' == RecordOffset(n + b, numClass)
    {
      r := ProcessRecord(output, out, labels, m, rs, cy, cx, b, n + b, offset', boxes, queue);
      if r.Err? {
        return;
      }
      offset' := offset' + numClass + 5;
    }
    r := Ok(());
  }

  /** The loop over the 13 cells of row cy in `detectObjectsAndBoundingBox`,
      record `n` being the row's first. */
  method ProcessRow(output: array<real>, ghost out: seq<real>, labels: seq<string>, m: KernelSet,
                    ghost rs: seq<Result<seq<Detection>>>, cy: nat, ghost n: nat,
                    offset: nat, boxes: array3<Option<BoundingBox>>, queue: DetectionQueue)
    returns (r: Result<()>, offset': nat)
    modifies boxes, queue
    requires out == output[..] && RecordsOf(out, labels, m, rs)
    requires cy < SIZE && n == cy * 65
    requires boxes.Length0 == SIZE && boxes.Length1 == SIZE && boxes.Length2 == NUMBER_OF_BOUNDING_BOX
    requires Fold(rs, n) == Ok(Values(queue.elems))
    requires offset == RecordOffset(n, NumClass(output.Length))
    ensures r.Err? ==> Fold(rs, RECORDS) == Err(r.error)
    ensures r.Ok? ==> Fold(rs, n + 65) == Ok(Values(queue.elems))
    ensures r.Ok? ==> offset' == RecordOffset(n + 65, NumClass(output.Length))
  {
    offset' := offset;
    for cx := 0 to SIZE
      invariant Fold(rs, n + cx * 5) == Ok(Values(queue.elems))
      invariant offset' == RecordOffset(n + cx * 5, NumClass(output.Length))
    {
      r, offset' := ProcessCell(output, out, labels, m, rs, cy, cx, n + cx * 5, offset', boxes, queue);
      if r.Err? {
        return;
      }
    }
    r := Ok(());
  }

  /** `detectObjectsAndBoundingBox`: walks the 13 x 13 cells and their five
      anchors with a running offset, decoding and scoring each record into
      the priority queue, then suppresses; the first exception ends the run. */
  method DetectObjectsAndBoundingBox(output: array<real>, labels: seq<string>, m: KernelSet)
    returns (r: Result<seq<DetectionResult>>)
    ensures Decode(output[..], labels, m).Err? ==> r == Err(Decode(output[..], labels, m).error)
    ensures Decode(output[..], labels, m).Ok? ==>
              r.Ok? && Values(r.value) == Decode(output[..], labels, m).value
  {
    var boundingBoxPerCell := new Option<BoundingBox>[SIZE, SIZE, NUMBER_OF_BOUNDING_BOX];
    var priorityQueue := new DetectionQueue(MAX_RECOGNIZED_CLASSES);
    var offset := 0;
    ghost var out := output[..];
    ghost var rs := OutcomesOf(out, labels, m);
    FoldIsCollect(out, labels, m, rs, RECORDS);
    for cy := 0 to SIZE
      invariant Fold(rs, cy * 65) == Ok(Values(priorityQueue.elems))
      invariant offset == RecordOffset(cy * 65, NumClass(output.Length))
    {
      var res;
      res, offset := ProcessRow(output, out, labels, m, rs, cy, cy * 65, offset, boundingBoxPerCell, priorityQueue);
      if res.Err? {
        return Err(res.error);
      }
    }
    var results := GetObjectsAndBoundingBoxes(priorityQueue);
    return Ok(results);
  }
}
