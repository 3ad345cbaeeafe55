/** The decoding passes of `detectObjectsAndBoundingBox` as functions of the
    flat network output: the class count, the per-anchor box decoding, the
    per-class scoring that fills the queue, and the whole decoder. */
module Decoding {
  import opened Results
  import opened Kernels
  import opened Detections
  import opened Queues
  import opened Suppression

  /** The grid is SIZE x SIZE cells. */
  const SIZE: nat := 13
  const NUMBER_OF_BOUNDING_BOX: nat := 5
  /** Initial capacity of the priority queue; it bounds nothing. */
  const MAX_RECOGNIZED_CLASSES: nat := 13
  /** Width and height of each anchor, in grid cells. */
  const ANCHORS: seq<real> := [1.08, 1.19, 3.42, 4.41, 6.63, 11.38, 9.42, 5.11, 16.62, 10.52]
  /** `THRESHOLD = 0.3f`.  The confidence (a double) is compared with the
      float constant widened to double, whose exact value is 5033165 / 2^24. */
  const THRESHOLD: real := 5033165.0 / 16777216.0
  /** Pixels per grid cell: the literal 32 of `getModel` (416 / 13). */
  const CELL_SIZE: real := 32.0
  /** Cells times anchors: the number of records in the output, 13 * 13 * 5. */
  const RECORDS: nat := 845

  /** The unseen `BoundingBox` record `getModel` fills through its setters. */
  datatype BoundingBox = BoundingBox(
    x: real, y: real, width: real, height: real, confidence: real, classes: seq<real>)

  /** `(int) (length / (Math.pow(SIZE, 2) * NUMBER_OF_BOUNDING_BOX) - 5)`: the
      quotient is a double and the cast truncates toward zero.  The quotient
      is never close enough to an integer for rounding to matter. */
  function NumClass(length: nat): (k: int)
    ensures -5 <= k
  {
    if length >= 5 * RECORDS then length / RECORDS - 5
    else -((5 * RECORDS - length) / RECORDS)
  }

  /** A buffer of 845 records of k + 5 values yields k classes; values left
      over after the last whole record are ignored. */
  lemma NumClassOfLayout(length: nat, k: nat)
    requires RECORDS * (k + 5) <= length < RECORDS * (k + 6)
    ensures NumClass(length) == k
  {
  }

  /** A buffer shorter than 845 records of five values yields no class at all. */
  lemma NumClassOfShortOutput(length: nat)
    requires length < 5 * RECORDS
    ensures NumClass(length) <= 0
    ensures NumClass(length) == 0 <==> 4 * RECORDS < length
  {
  }

  /** Cell row, cell column and anchor of the n-th record: the records are
      laid out row by row, cell by cell, anchor by anchor. */
  function CellOf(n: nat): (nat, nat, nat) {
    (n / (SIZE * NUMBER_OF_BOUNDING_BOX), (n / NUMBER_OF_BOUNDING_BOX) % SIZE, n % NUMBER_OF_BOUNDING_BOX)
  }

  /** The record of cell (cy, cx) and anchor b is the
      ((cy * 13 + cx) * 5 + b)-th; it starts at that index times k + 5 and, for
      a buffer of 845 (k + 5) values, ends inside the buffer; the 845 records
      together span the buffer exactly. */
  lemma {:induction false} RecordLayout(cy: nat, cx: nat, b: nat, k: nat)
    requires cy < SIZE && cx < SIZE && b < NUMBER_OF_BOUNDING_BOX
    ensures var n := (cy * SIZE + cx) * NUMBER_OF_BOUNDING_BOX + b;
            && n < RECORDS
            && CellOf(n) == (cy, cx, b)
            && n * (k + 5) + (k + 5) <= RECORDS * (k + 5)
  {
    var n := (cy * SIZE + cx) * NUMBER_OF_BOUNDING_BOX + b;
    assert n == cy * 65 + cx * 5 + b;
    assert n / 65 == cy;
    assert n / 5 == cy * 13 + cx;
    assert (n / 5) % 13 == cx;
    RecordsFit(n, k);
  }

  lemma RecordsFit(n: nat, k: nat)
    requires n < RECORDS
    ensures n * (k + 5) + (k + 5) <= RECORDS * (k + 5)
  {
    assert (n + 1) * (k + 5) <= RECORDS * (k + 5);
  }

  /** `getModel`: the box decoded from the record at `offset`, or the
      exception reading it throws.  The five box values are read first,
      then the class array is allocated, then the class values are copied. */
  function DecodeBox(output: seq<real>, cx: int, cy: int, b: nat, numClass: int, offset: nat, m: KernelSet): (r: Result<BoundingBox>)
    requires b < NUMBER_OF_BOUNDING_BOX
  {
    if offset + 5 > |output| then Err(ArrayIndexOutOfBounds)
    else if numClass < 0 then Err(NegativeArraySize)
    else if offset + 5 + numClass > |output| then Err(ArrayIndexOutOfBounds)
    else
      Ok(BoundingBox(
        (cx as real + m.sigmoid(output[offset])) * CELL_SIZE,
        (cy as real + m.sigmoid(output[offset + 1])) * CELL_SIZE,
        m.exp(output[offset + 2]) * ANCHORS[2 * b] * CELL_SIZE,
        m.exp(output[offset + 3]) * ANCHORS[2 * b + 1] * CELL_SIZE,
        m.sigmoid(output[offset + 4]),
        output[offset + 5..offset + 5 + numClass]))
  }

  /** Decoding fails exactly when the record does not fit in the buffer or the
      class count is negative.  A decoded box has its centre strictly inside
      its own grid cell, a positive extent, a confidence strictly between 0
      and 1, and as classes the verbatim k values after the five box values. */
  lemma DecodedBoxFacts(output: seq<real>, cx: int, cy: int, b: nat, numClass: int, offset: nat, m: KernelSet)
    requires b < NUMBER_OF_BOUNDING_BOX
    requires Sound(m)
    ensures DecodeBox(output, cx, cy, b, numClass, offset, m).Ok? <==>
              0 <= numClass && offset + 5 + numClass <= |output|
    ensures DecodeBox(output, cx, cy, b, numClass, offset, m).Ok? ==>
              var box := DecodeBox(output, cx, cy, b, numClass, offset, m).value;
              && cx as real * CELL_SIZE < box.x < (cx + 1) as real * CELL_SIZE
              && cy as real * CELL_SIZE < box.y < (cy + 1) as real * CELL_SIZE
              && box.width > 0.0 && box.height > 0.0
              && 0.0 < box.confidence < 1.0
              && |box.classes| == numClass
              && forall c :: 0 <= c < numClass ==> box.classes[c] == output[offset + 5 + c]
  {
    if DecodeBox(output, cx, cy, b, numClass, offset, m).Ok? {
      var v0, v1, v2, v3, v4 := output[offset], output[offset + 1], output[offset + 2], output[offset + 3], output[offset + 4];
      assert 0.0 < m.sigmoid(v0) < 1.0 && 0.0 < m.sigmoid(v1) < 1.0 && 0.0 < m.sigmoid(v4) < 1.0;
      var e2, e3 := m.exp(v2), m.exp(v3);
      assert e2 > 0.0 && e3 > 0.0;
      assert ANCHORS[2 * b] > 0.0 && ANCHORS[2 * b + 1] > 0.0;
      PositiveProduct(e2, ANCHORS[2 * b]);
      PositiveProduct(e3, ANCHORS[2 * b + 1]);
    }
  }

  lemma PositiveProduct(a: real, b: real)
    requires a > 0.0 && b > 0.0
    ensures a * b * CELL_SIZE > 0.0
  {
  }

  /** The rectangle queued for a box: its top-left corner and its extent. */
  function Location(box: BoundingBox): (pos: BoxPosition) {
    BoxPosition(box.x - box.width / 2.0, box.y - box.height / 2.0, box.width, box.height)
  }

  /** What holds of every detection the decoder queues, for a buffer of
      `numClass` classes: its confidence lies in (THRESHOLD, 1), its id is a
      class with a label and its title is that label, and its rectangle has a
      positive extent. */
  ghost predicate Admissible(d: Detection, numClass: int, labels: seq<string>) {
    && THRESHOLD < d.confidence < 1.0
    && 0 <= d.id < numClass && d.id < |labels| && d.title == labels[d.id]
    && d.location.width > 0.0 && d.location.height > 0.0
  }

  /** One round of the loop in `calculateTopPredictions`: the detection it
      adds, none when the box's best class probability times its confidence
      does not exceed THRESHOLD, or the exception `labels.get` throws. */
  function PredictionStep(box: BoundingBox, labels: seq<string>, m: KernelSet): (r: Result<Option<Detection>>) {
    var best := m.argMax(m.softMax(box.classes));
    var confidenceInClass := best.maxValue * box.confidence;
    if confidenceInClass > THRESHOLD then
      if 0 <= best.index < |labels| then
        Ok(Some(Detection(best.index, labels[best.index], confidenceInClass, Location(box))))
      else Err(ArrayIndexOutOfBounds)
    else Ok(None)
  }

  /** The detections the first `rounds` rounds of that loop add, in order. */
  function Predictions(box: BoundingBox, labels: seq<string>, m: KernelSet, rounds: nat): (r: Result<seq<Detection>>) {
    if rounds == 0 then Ok([])
    else match Predictions(box, labels, m, rounds - 1)
      case Err(e) => Err(e)
      case Ok(es) =>
        match PredictionStep(box, labels, m)
        case Err(e) => Err(e)
        case Ok(None) => Ok(es)
        case Ok(Some(d)) => Ok(es + [d])
  }

  /** `calculateTopPredictions`: the loop runs once per class. */
  function TopPredictions(box: BoundingBox, labels: seq<string>, m: KernelSet): (r: Result<seq<Detection>>) {
    Predictions(box, labels, m, |box.classes|)
  }

  /** Every round of the loop computes the same argmax, so a box whose
      detection clears the threshold is queued once per class, as identical
      entries, and a box that does not is queued zero times. */
  lemma {:induction false} DuplicationQuirk(box: BoundingBox, labels: seq<string>, m: KernelSet, rounds: nat)
    ensures Predictions(box, labels, m, rounds) ==
              if rounds == 0 then Ok([])
              else match PredictionStep(box, labels, m)
                case Err(e) => Err(e)
                case Ok(None) => Ok([])
                case Ok(Some(d)) => Ok(seq(rounds, _ => d))
  {
    if rounds > 0 {
      DuplicationQuirk(box, labels, m, rounds - 1);
      match PredictionStep(box, labels, m)
      case Err(e) =>
      case Ok(None) =>
      case Ok(Some(d)) =>
        if rounds > 1 {
          assert seq(rounds - 1, _ => d) + [d] == seq(rounds, _ => d);
        } else {
          assert [] + [d] == seq(rounds, _ => d);
        }
    }
  }

  /** The entries `calculateTopPredictions` queues for a decoded box: at most
      one per class, each a detection as `PredictionStepFacts` describes; with
      a label for every class it never throws. */
  lemma ScoredBoxFacts(box: BoundingBox, labels: seq<string>, m: KernelSet)
    requires Sound(m)
    requires 0.0 < box.confidence < 1.0 && box.width > 0.0 && box.height > 0.0
    ensures |labels| >= |box.classes| ==> TopPredictions(box, labels, m).Ok?
    ensures TopPredictions(box, labels, m).Ok? ==>
              var es := TopPredictions(box, labels, m).value;
              && |es| <= |box.classes|
              && forall d :: d in es ==> Admissible(d, |box.classes|, labels)
  {
    DuplicationQuirk(box, labels, m, |box.classes|);
    if |box.classes| > 0 {
      PredictionStepFacts(box, labels, m);
    }
  }

  /** A queued detection: its confidence exceeds THRESHOLD and stays below 1,
      its id is the argmax of the softmaxed classes, its title the label at
      that id, and its rectangle the box centred on the decoded centre. */
  lemma PredictionStepFacts(box: BoundingBox, labels: seq<string>, m: KernelSet)
    requires Sound(m)
    requires |box.classes| > 0 && 0.0 < box.confidence < 1.0
    ensures PredictionStep(box, labels, m).Err? ==> |labels| < |box.classes|
    ensures PredictionStep(box, labels, m) == Ok(None) ==>
              m.argMax(m.softMax(box.classes)).maxValue * box.confidence <= THRESHOLD
    ensures PredictionStep(box, labels, m).Ok? && PredictionStep(box, labels, m).value.Some? ==>
              var d := PredictionStep(box, labels, m).value.value;
              && THRESHOLD < d.confidence < 1.0
              && d.id == m.argMax(m.softMax(box.classes)).index
              && 0 <= d.id < |box.classes| && d.id < |labels| && d.title == labels[d.id]
              && d.location == Location(box)
  {
    var probs := m.softMax(box.classes);
    var best := m.argMax(probs);
    assert |probs| == |box.classes|;
    assert IsArgMax(probs, best);
    assert 0.0 < probs[best.index] <= 1.0;
    BelowOne(best.maxValue, box.confidence);
  }

  lemma BelowOne(p: real, c: real)
    requires 0.0 < p <= 1.0 && 0.0 < c < 1.0
    ensures p * c < 1.0
  {
    assert p * c <= 1.0 * c;
  }

  /** Where the i-th record starts: the running offset after i records of
      numClass + 5 values. */
  function RecordOffset(i: nat, numClass: int): (offset: int)
    requires numClass >= -5
    ensures offset >= 0
  {
    if i == 0 then 0 else RecordOffset(i - 1, numClass) + numClass + 5
  }

  /** The running offset is the record index times the record length. */
  lemma {:induction false} RecordOffsetIsProduct(i: nat, numClass: int)
    requires numClass >= -5
    ensures RecordOffset(i, numClass) == i * (numClass + 5)
  {
    if i > 0 {
      RecordOffsetIsProduct(i - 1, numClass);
      assert (i - 1) * (numClass + 5) + numClass + 5 == i * (numClass + 5);
    }
  }

  /** The detections the i-th record adds to the queue, or the exception
      decoding or scoring it throws. */
  function RecordEntries(output: seq<real>, labels: seq<string>, m: KernelSet, i: nat): (r: Result<seq<Detection>>)
    requires i < RECORDS
  {
    var k := NumClass(|output|);
    var (cy, cx, b) := CellOf(i);
    match DecodeBox(output, cx, cy, b, k, RecordOffset(i, k), m)
    case Err(e) => Err(e)
    case Ok(box) => TopPredictions(box, labels, m)
  }

  /** The queue after the first `n` records have been decoded and scored, or
      the first exception. */
  function Collect(output: seq<real>, labels: seq<string>, m: KernelSet, n: nat): (r: Result<seq<Detection>>)
    requires n <= RECORDS
  {
    if n == 0 then Ok([])
    else match Collect(output, labels, m, n - 1)
      case Err(e) => Err(e)
      case Ok(q) =>
        match RecordEntries(output, labels, m, n - 1)
        case Err(e) => Err(e)
        case Ok(es) => Ok(q + es)
  }

  /** `detectObjectsAndBoundingBox`: decode all 845 records, then suppress. */
  function Decode(output: seq<real>, labels: seq<string>, m: KernelSet): (r: Result<seq<Detection>>) {
    match Collect(output, labels, m, RECORDS)
    case Err(e) => Err(e)
    case Ok(q) => Ok(TopDetections(q))
  }

  /** `rs` lists the outcome of each of the 845 records of `out`, in record order. */
  ghost predicate RecordsOf(out: seq<real>, labels: seq<string>, m: KernelSet, rs: seq<Result<seq<Detection>>>) {
    && |rs| == RECORDS
    && forall i {:trigger RecordEntries(out, labels, m, i)} :: 0 <= i < RECORDS ==> rs[i] == RecordEntries(out, labels, m, i)
  }

  lemma OutcomesOf(out: seq<real>, labels: seq<string>, m: KernelSet) returns (rs: seq<Result<seq<Detection>>>)
    ensures RecordsOf(out, labels, m, rs)
  {
    rs := seq(RECORDS, i requires 0 <= i < RECORDS => RecordEntries(out, labels, m, i));
  }

  /** `Collect` over outcomes computed beforehand: the queue after the first
      `n` records, or the first exception. */
  ghost function Fold(rs: seq<Result<seq<Detection>>>, n: nat): (r: Result<seq<Detection>>)
    requires n <= |rs|
  {
    if n == 0 then Ok([])
    else match Fold(rs, n - 1)
      case Err(e) => Err(e)
      case Ok(q) =>
        match rs[n - 1]
        case Err(e) => Err(e)
        case Ok(es) => Ok(q + es)
  }

  /** Folding the outcomes of the records of `out` is collecting them. */
  lemma {:induction false} FoldIsCollect(out: seq<real>, labels: seq<string>, m: KernelSet, rs: seq<Result<seq<Detection>>>, n: nat)
    requires RecordsOf(out, labels, m, rs) && n <= RECORDS
    ensures Fold(rs, n) == Collect(out, labels, m, n)
  {
    if n > 0 {
      FoldIsCollect(out, labels, m, rs, n - 1);
      assert rs[n - 1] == RecordEntries(out, labels, m, n - 1);
    }
  }

  /** An exception ends the fold: later records do not change it. */
  lemma {:induction false} FoldErrSticks(rs: seq<Result<seq<Detection>>>, n: nat, n': nat)
    requires n <= n' <= |rs|
    requires Fold(rs, n).Err?
    ensures Fold(rs, n') == Fold(rs, n)
    decreases n' - n
  {
    if n < n' {
      FoldErrSticks(rs, n, n' - 1);
    }
  }

  /** A buffer holding all 845 records, with a label for each class, lets
      every record be decoded and scored without an exception. */
  lemma RecordEntriesSucceed(output: seq<real>, labels: seq<string>, m: KernelSet, i: nat)
    requires i < RECORDS
    requires Sound(m)
    requires |output| >= 5 * RECORDS && |labels| >= NumClass(|output|)
    ensures RecordEntries(output, labels, m, i).Ok?
  {
    var k := NumClass(|output|);
    var (cy, cx, b) := CellOf(i);
    var offset := RecordOffset(i, k);
    RecordOffsetIsProduct(i, k);
    RecordsFit(i, k);
    assert offset + 5 + k <= |output|;
    DecodedBoxFacts(output, cx, cy, b, k, offset, m);
    ScoredBoxFacts(DecodeBox(output, cx, cy, b, k, offset, m).value, labels, m);
  }

  /** The entries of one record: at most k of them, each with a confidence in
      (THRESHOLD, 1), an id below k with its own label, and a rectangle of
      positive extent. */
  lemma RecordEntriesFacts(output: seq<real>, labels: seq<string>, m: KernelSet, i: nat)
    requires i < RECORDS
    requires Sound(m)
    requires RecordEntries(output, labels, m, i).Ok?
    ensures var es := RecordEntries(output, labels, m, i).value;
            var k := NumClass(|output|);
            && |es| <= k
            && forall d :: d in es ==> Admissible(d, k, labels)
  {
    var k := NumClass(|output|);
    var (cy, cx, b) := CellOf(i);
    var offset := RecordOffset(i, k);
    DecodedBoxFacts(output, cx, cy, b, k, offset, m);
    ScoredBoxFacts(DecodeBox(output, cx, cy, b, k, offset, m).value, labels, m);
  }

  /** Every queued detection of a successful run: confidence in
      (THRESHOLD, 1), an id below the class count with its own label, and a
      rectangle of positive extent; each record adds at most k entries. */
  lemma CollectFacts(output: seq<real>, labels: seq<string>, m: KernelSet, n: nat)
    requires n <= RECORDS
    requires Sound(m)
    ensures Collect(output, labels, m, n).Ok? ==>
              var q := Collect(output, labels, m, n).value;
              var k := NumClass(|output|);
              && |q| <= n * k
              && forall d :: d in q ==> Admissible(d, k, labels)
  {
    var rs := OutcomesOf(output, labels, m);
    FoldIsCollect(output, labels, m, rs, n);
    var k := NumClass(|output|);
    forall i | 0 <= i < n && rs[i].Ok?
      ensures |rs[i].value| <= k && forall d :: d in rs[i].value ==> Admissible(d, k, labels)
    {
      assert rs[i] == RecordEntries(output, labels, m, i);
      RecordEntriesFacts(output, labels, m, i);
    }
    FoldFacts(rs, n, k, labels);
  }

  lemma {:induction false} FoldFacts(rs: seq<Result<seq<Detection>>>, n: nat, k: int, labels: seq<string>)
    requires n <= |rs|
    requires forall i :: 0 <= i < n && rs[i].Ok? ==>
               |rs[i].value| <= k && forall d :: d in rs[i].value ==> Admissible(d, k, labels)
    ensures Fold(rs, n).Ok? ==>
              |Fold(rs, n).value| <= n * k && forall d :: d in Fold(rs, n).value ==> Admissible(d, k, labels)
  {
    if n > 0 && Fold(rs, n).Ok? {
      FoldFacts(rs, n - 1, k, labels);
      AdmissibleAppend(Fold(rs, n - 1).value, rs[n - 1].value, n, k, labels);
    }
  }

  lemma AdmissibleAppend(q: seq<Detection>, es: seq<Detection>, n: nat, k: int, labels: seq<string>)
    requires n > 0
    requires |q| <= (n - 1) * k && forall d :: d in q ==> Admissible(d, k, labels)
    requires |es| <= k && forall d :: d in es ==> Admissible(d, k, labels)
    ensures |q + es| <= n * k && forall d :: d in q + es ==> Admissible(d, k, labels)
  {
    assert (n - 1) * k + k == n * k;
  }

  /** With no classes (an output of 4225 to 5069 values) nothing is ever
      queued, so a successful run returns no detection. */
  lemma NoClassesNoDetections(output: seq<real>, labels: seq<string>, m: KernelSet)
    requires Sound(m)
    requires NumClass(|output|) == 0
    ensures Decode(output, labels, m).Ok? ==> Decode(output, labels, m).value == []
  {
    CollectFacts(output, labels, m, RECORDS);
  }

  /** An output shorter than 845 records of five values always throws:
      with a negative class count the first record does, and with none the
      records before the one the buffer cannot hold add nothing. */
  lemma ShortOutputThrows(output: seq<real>, labels: seq<string>, m: KernelSet)
    requires |output| < 5 * RECORDS
    ensures Decode(output, labels, m).Err?
  {
    var rs := OutcomesOf(output, labels, m);
    FoldIsCollect(output, labels, m, rs, RECORDS);
    var n := FirstFailingRecord(output, labels, m, rs);
    FoldEmpty(rs, n);
    FoldErrSticks(rs, n + 1, RECORDS);
  }

  /** The record that does not fit: every record before it is empty. */
  lemma FirstFailingRecord(output: seq<real>, labels: seq<string>, m: KernelSet, rs: seq<Result<seq<Detection>>>)
    returns (n: nat)
    requires |output| < 5 * RECORDS && RecordsOf(output, labels, m, rs)
    ensures n < RECORDS
    ensures forall i :: 0 <= i < n ==> rs[i] == Ok([])
    ensures rs[n].Err?
  {
    var k := NumClass(|output|);
    n := 0;
    if k >= 0 {
      n := |output| / 5;
      forall i | 0 <= i < n
        ensures rs[i] == Ok([])
      {
        assert rs[i] == RecordEntries(output, labels, m, i);
        ZeroClassRecordIsEmpty(output, labels, m, i);
      }
    }
    RecordOffsetIsProduct(n, k);
    assert rs[n] == RecordEntries(output, labels, m, n);
  }

  lemma {:induction false} FoldEmpty(rs: seq<Result<seq<Detection>>>, n: nat)
    requires n <= |rs|
    requires forall i :: 0 <= i < n ==> rs[i] == Ok([])
    ensures Fold(rs, n) == Ok([])
  {
    if n > 0 {
      FoldEmpty(rs, n - 1);
      assert Fold(rs, n).value == [] + [];
    }
  }

  lemma ZeroClassRecordIsEmpty(output: seq<real>, labels: seq<string>, m: KernelSet, i: nat)
    requires NumClass(|output|) == 0 && i < RECORDS && 5 * (i + 1) <= |output|
    ensures RecordEntries(output, labels, m, i) == Ok([])
  {
    RecordOffsetIsProduct(i, 0);
    var (cy, cx, b) := CellOf(i);
    var r := DecodeBox(output, cx, cy, b, 0, RecordOffset(i, 0), m);
    assert r.Ok? && r.value.classes == [];
  }

  /** A buffer of at least 845 records of five values, with a label for each
      class, never throws. */
  lemma WellSizedOutputSucceeds(output: seq<real>, labels: seq<string>, m: KernelSet)
    requires Sound(m)
    requires |output| >= 5 * RECORDS && |labels| >= NumClass(|output|)
    ensures Decode(output, labels, m).Ok?
  {
    var rs := OutcomesOf(output, labels, m);
    FoldIsCollect(output, labels, m, rs, RECORDS);
    forall i | 0 <= i < RECORDS
      ensures rs[i].Ok?
    {
      assert rs[i] == RecordEntries(output, labels, m, i);
      RecordEntriesSucceed(output, labels, m, i);
    }
    FoldSucceeds(rs, RECORDS);
  }

  lemma {:induction false} FoldSucceeds(rs: seq<Result<seq<Detection>>>, n: nat)
    requires n <= |rs|
    requires forall i :: 0 <= i < n ==> rs[i].Ok?
    ensures Fold(rs, n).Ok?
  {
    if n > 0 {
      FoldSucceeds(rs, n - 1);
    }
  }

  /** What the decoder promises of a successful run: every detection clears
      THRESHOLD, names a class and its label, confidence never increases, at
      most 1 + MAX_RESULTS detections, and none is covered by more than half
      by a later one. */
  lemma DecodeProperties(output: seq<real>, labels: seq<string>, m: KernelSet)
    requires Sound(m)
    ensures Decode(output, labels, m).Ok? ==>
              var r := Decode(output, labels, m).value;
              && |r| <= 1 + MAX_RESULTS
              && Sorted(r)
              && Apart(r)
              && forall d :: d in r ==> Admissible(d, NumClass(|output|), labels)
  {
    if Decode(output, labels, m).Ok? {
      var q := Collect(output, labels, m, RECORDS).value;
      var r := TopDetections(q);
      assert Decode(output, labels, m).value == r;
      CollectFacts(output, labels, m, RECORDS);
      TopDetectionsProperties(q);
      TopDetectionsDrawnFromQueue(q);
      forall d | d in r
        ensures Admissible(d, NumClass(|output|), labels)
      {
        assert d in q;
      }
    }
  }
}
