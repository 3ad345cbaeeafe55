/** The `java.util.PriorityQueue<DetectionResult>` the decoder fills and
    drains, ordered by `DetectionResult.compareTo`. */
module Queues {
  import opened Detections

  /** Confidence never increases along `s`. */
  ghost predicate Sorted(s: seq<Detection>) {
    forall i, j :: 0 <= i < j < |s| ==> s[i].confidence >= s[j].confidence
  }

  /** The position `poll` takes an entry from: a most confident entry.  The
      order among equally confident entries is not specified by
      `PriorityQueue`; the model takes the earliest added one. */
  function BestIndex(q: seq<Detection>): (i: nat)
    requires q != []
    ensures i < |q|
    decreases |q|
  {
    if |q| == 1 then 0
    else
      var i := BestIndex(q[..|q| - 1]);
      if q[|q| - 1].confidence > q[i].confidence then |q| - 1 else i
  }

  /** `BestIndex` names a most confident entry, and the earliest one. */
  lemma {:induction false} BestIndexIsBest(q: seq<Detection>)
    requires q != []
    ensures forall j :: 0 <= j < |q| ==> q[j].confidence <= q[BestIndex(q)].confidence
    ensures forall j :: 0 <= j < BestIndex(q) ==> q[j].confidence < q[BestIndex(q)].confidence
    decreases |q|
  {
    if |q| > 1 {
      var p := q[..|q| - 1];
      BestIndexIsBest(p);
      assert forall j :: 0 <= j < |p| ==> p[j] == q[j];
    }
  }

  function RemoveAt(q: seq<Detection>, i: nat): (r: seq<Detection>)
    requires i < |q|
  {
    q[..i] + q[i + 1..]
  }

  /** The order in which repeated `poll` calls hand out the entries of `q`. */
  function PollOrder(q: seq<Detection>): (order: seq<Detection>)
    ensures |order| == |q|
    decreases |q|
  {
    if q == [] then [] else
      var i := BestIndex(q);
      [q[i]] + PollOrder(RemoveAt(q, i))
  }

  /** Draining the queue hands out every entry exactly once. */
  lemma {:induction false} PollOrderIsPermutation(q: seq<Detection>)
    ensures multiset(PollOrder(q)) == multiset(q)
    decreases |q|
  {
    if q != [] {
      var i := BestIndex(q);
      var rest := RemoveAt(q, i);
      PollOrderIsPermutation(rest);
      RemoveAtMultiset(q, i);
      assert PollOrder(q) == [q[i]] + PollOrder(rest);
    }
  }

  lemma RemoveAtMultiset(q: seq<Detection>, i: nat)
    requires i < |q|
    ensures multiset(RemoveAt(q, i)) + multiset{q[i]} == multiset(q)
  {
    assert q == q[..i] + [q[i]] + q[i + 1..];
  }

  /** Entries come out in order of non-increasing confidence, the first one
      being a most confident entry of the queue. */
  lemma {:induction false} PollOrderIsSorted(q: seq<Detection>)
    ensures Sorted(PollOrder(q))
    ensures q != [] ==> forall e :: e in q ==> e.confidence <= PollOrder(q)[0].confidence
    decreases |q|
  {
    if q != [] {
      var i := BestIndex(q);
      var rest := RemoveAt(q, i);
      BestIndexIsBest(q);
      PollOrderIsSorted(rest);
      PollOrderIsPermutation(rest);
      var p := PollOrder(q);
      forall a, b | 0 <= a < b < |p| ensures p[a].confidence >= p[b].confidence {
        if a == 0 {
          assert p[b] in multiset(PollOrder(rest));
          assert p[b] in rest;
        }
      }
    }
  }

  /** `java.util.PriorityQueue<DetectionResult>`: the entries in the order
      they were added. */
  class DetectionQueue {
    var elems: seq<DetectionResult>

    /** `new PriorityQueue<>(initialCapacity)`: the capacity only sizes the
        initial storage; the queue grows as needed. */
    constructor (initialCapacity: nat)
      ensures elems == []
    {
      elems := [];
    }

    function Size(): nat
      reads this
    {
      |elems|
    }

    method Add(d: DetectionResult)
      modifies this
      ensures elems == old(elems) + [d]
    {
      elems := elems + [d];
    }

    /** Removes and returns a most confident entry, or returns null when the
        queue is empty. */
    method Poll() returns (d: DetectionResult?)
      modifies this
      ensures old(elems) == [] ==> d == null && elems == []
      ensures old(elems) != [] ==> d != null && |elems| == |old(elems)| - 1
      ensures forall e :: e in elems ==> e in old(elems)
      ensures old(elems) != [] ==>
                var i := BestIndex(old(Values(elems)));
                && d == old(elems)[i]
                && elems == old(elems)[..i] + old(elems)[i + 1..]
                && Values(elems) == RemoveAt(old(Values(elems)), i)
                && (forall e :: e in old(elems) ==> d.CompareTo(e) <= 0)
                && PollOrder(old(Values(elems))) == [d.Value()] + PollOrder(Values(elems))
    {
      if elems == [] {
        return null;
      }
      var i := BestIndex(Values(elems));
      d := elems[i];
      elems := elems[..i] + elems[i + 1..];
      assert Values(elems) == RemoveAt(old(Values(elems)), i);
      assert PollOrder(old(Values(elems))) == [d.Value()] + PollOrder(Values(elems));
      BestIndexIsBest(old(Values(elems)));
      forall e | e in old(elems) ensures d.CompareTo(e) <= 0 {
        var j :| 0 <= j < |old(elems)| && old(elems)[j] == e;
        assert old(Values(elems))[j].confidence == e.confidence;
      }
    }
  }
}
