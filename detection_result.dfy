/** `DetectionResult`: one recognised object, and the rectangle it occupies. */
module Detections {

  /** An axis-aligned rectangle in the 416x416 pixel space of the network
      input, given by its top-left corner and its extent; the right and
      bottom edges are derived. */
  datatype BoxPosition = BoxPosition(left: real, top: real, width: real, height: real) {
    function Right(): real { left + width }
    function Bottom(): real { top + height }
  }

  /** The value a `DetectionResult` holds at a given moment. */
  datatype Detection = Detection(id: int, title: string, confidence: real, location: BoxPosition)

  /** A detection record.  The class id, label and confidence are fixed at
      construction; only the location can be replaced afterwards. */
  class DetectionResult {
    const id: int
    const title: string
    const confidence: real
    var location: BoxPosition

    constructor (id: int, title: string, confidence: real, location: BoxPosition)
      ensures this.id == id && this.title == title
      ensures this.confidence == confidence && this.location == location
    {
      this.id := id;
      this.title := title;
      this.confidence := confidence;
      this.location := location;
    }

    /** A copy of the stored rectangle.  A `BoxPosition` is a value, so no
        change made to the copy can reach the record. */
    function GetLocation(): BoxPosition
      reads this
    {
      location
    }

    /** Replaces the rectangle; nothing else of the record changes. */
    method SetLocation(location: BoxPosition)
      modifies this
      ensures this.location == location
      ensures Value() == old(Value()).(location := location)
    {
      this.location := location;
    }

    function Value(): Detection
      reads this
    {
      Detection(id, title, confidence, location)
    }

    /** `Float.compare(other.confidence, this.confidence)`: the ordering is by
        descending confidence, so the smallest record under it, which a
        priority queue hands out first, is a most confident one. */
    function CompareTo(other: DetectionResult): (r: int)
      ensures r < 0 <==> confidence > other.confidence
      ensures r == 0 <==> confidence == other.confidence
      ensures r > 0 <==> confidence < other.confidence
      ensures -1 <= r <= 1
    {
      if other.confidence < confidence then -1
      else if other.confidence > confidence then 1
      else 0
    }
  }

  /** `CompareTo` is a total preorder whose sign flips with its arguments. */
  lemma CompareToIsConsistent(a: DetectionResult, b: DetectionResult, c: DetectionResult)
    ensures a.CompareTo(a) == 0
    ensures a.CompareTo(b) == -b.CompareTo(a)
    ensures a.CompareTo(b) <= 0 && b.CompareTo(c) <= 0 ==> a.CompareTo(c) <= 0
  {
  }

  /** The values of a sequence of records, position by position. */
  function Values(s: seq<DetectionResult>): (vs: seq<Detection>)
    reads s
    ensures |vs| == |s|
    ensures forall i :: 0 <= i < |s| ==> vs[i] == s[i].Value()
  {
    seq(|s|, i requires 0 <= i < |s| reads s => s[i].Value())
  }

  lemma ValuesAppend(s: seq<DetectionResult>, d: DetectionResult)
    ensures Values(s + [d]) == Values(s) + [d.Value()]
  {
    assert forall i :: 0 <= i < |s| ==> (s + [d])[i] == s[i];
  }
}
