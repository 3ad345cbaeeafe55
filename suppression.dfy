/** The greedy suppression pass of `getObjectsAndBoundingBoxes`, as a
    function of the queue's contents. */
module Suppression {
  import opened Detections
  import opened Overlap
  import opened Queues

  /** `OVERLAP_THRESHOLD = 0.5f`, exactly one half. */
  const OVERLAP_THRESHOLD: real := 0.5
  const MAX_RESULTS: nat := 15

  function MinNat(a: nat, b: nat): nat { if a <= b then a else b }

  /** Some already accepted detection is covered by more than half by `c`. */
  predicate OverlapsAny(accepted: seq<Detection>, c: Detection) {
    exists t :: 0 <= t < |accepted| &&
      IntersectionProportion(accepted[t].location, c.location) > OVERLAP_THRESHOLD
  }

  /** One candidate of the pass: appended unless it overlaps an accepted one. */
  function Step(accepted: seq<Detection>, c: Detection): (r: seq<Detection>) {
    if OverlapsAny(accepted, c) then accepted else accepted + [c]
  }

  /** The accepted list after offering the candidates `cands`, in order, to a
      list that starts as `accepted`. */
  function SuppressFrom(accepted: seq<Detection>, cands: seq<Detection>): (r: seq<Detection>)
    decreases |cands|
  {
    if cands == [] then accepted
    else Step(SuppressFrom(accepted, cands[..|cands| - 1]), cands[|cands| - 1])
  }

  /** How many candidates after the first the loop examines for a queue of
      `n` entries.  The bound `min(priorityQueue.size(), MAX_RESULTS)` is
      evaluated afresh on every round while the queue shrinks by one per
      round, so round `i` runs only while `i < n - 1 - i`: that is
      min(15, ceil((n - 1) / 2)) rounds, which equals min(15, n / 2). */
  function ExaminedCount(n: nat): (e: nat) {
    if n == 0 then 0 else MinNat(MAX_RESULTS, n / 2)
  }

  /** The result of `getObjectsAndBoundingBoxes` for a queue holding `q`. */
  function TopDetections(q: seq<Detection>): (r: seq<Detection>) {
    if q == [] then []
    else
      var order := PollOrder(q);
      SuppressFrom([order[0]], order[1..1 + ExaminedCount(|q|)])
  }

  /** No detection of `s` is covered by more than half by a later one. */
  ghost predicate Apart(s: seq<Detection>) {
    forall i, j {:trigger Separate(s[i], s[j])} :: 0 <= i < j < |s| ==> Separate(s[i], s[j])
  }

  /** `b` covers at most half of `a`. */
  predicate Separate(a: Detection, b: Detection) {
    IntersectionProportion(a.location, b.location) <= OVERLAP_THRESHOLD
  }

  /** `ks` lists increasing positions of `c` whose entries, in order, make up `r`. */
  ghost predicate Picks(r: seq<Detection>, c: seq<Detection>, ks: seq<nat>) {
    && |r| == |ks|
    && (forall j :: 0 <= j < |ks| ==> ks[j] < |c| && r[j] == c[ks[j]])
    && (forall i, j :: 0 <= i < j < |ks| ==> ks[i] < ks[j])
  }

  /** The positions of the candidates that `SuppressFrom` appends. */
  function KeptIndices(accepted: seq<Detection>, cands: seq<Detection>): (idx: seq<nat>)
    decreases |cands|
  {
    if cands == [] then []
    else
      var n := |cands| - 1;
      var ks := KeptIndices(accepted, cands[..n]);
      if OverlapsAny(SuppressFrom(accepted, cands[..n]), cands[n]) then ks else ks + [n]
  }

  /** The pass only appends, and what it appends is a subsequence of the
      candidates, in their order. */
  lemma {:induction false} SuppressFromIsSubsequence(accepted: seq<Detection>, cands: seq<Detection>)
    ensures var r := SuppressFrom(accepted, cands);
            && |accepted| <= |r| <= |accepted| + |cands|
            && r[..|accepted|] == accepted
            && Picks(r[|accepted|..], cands, KeptIndices(accepted, cands))
    decreases |cands|
  {
    if cands != [] {
      var n := |cands| - 1;
      SuppressFromIsSubsequence(accepted, cands[..n]);
      var prev := SuppressFrom(accepted, cands[..n]);
      var ks := KeptIndices(accepted, cands[..n]);
      PicksWiden(prev[|accepted|..], cands, n, ks);
      if !OverlapsAny(prev, cands[n]) {
        PicksAppend(prev[|accepted|..], cands, ks, n);
        assert (prev + [cands[n]])[|accepted|..] == prev[|accepted|..] + [cands[n]];
        assert (prev + [cands[n]])[..|accepted|] == prev[..|accepted|];
      }
    }
  }

  /** Picks from the first `n` candidates are picks from all of them, below `n`. */
  lemma PicksWiden(r: seq<Detection>, c: seq<Detection>, n: nat, ks: seq<nat>)
    requires n <= |c| && Picks(r, c[..n], ks)
    ensures Picks(r, c, ks)
    ensures forall j :: 0 <= j < |ks| ==> ks[j] < n
  {
    forall j | 0 <= j < |ks| ensures r[j] == c[ks[j]] {
      assert c[..n][ks[j]] == c[ks[j]];
    }
  }

  /** A pick past all earlier ones extends the picks. */
  lemma PicksAppend(r: seq<Detection>, c: seq<Detection>, ks: seq<nat>, n: nat)
    requires n < |c| && Picks(r, c, ks)
    requires forall j :: 0 <= j < |ks| ==> ks[j] < n
    ensures Picks(r + [c[n]], c, ks + [n])
  {
  }

  /** Every candidate that is not in the result is covered by more than half
      by a detection that is. */
  lemma {:induction false} DiscardedOverlapsAccepted(accepted: seq<Detection>, cands: seq<Detection>)
    ensures var r := SuppressFrom(accepted, cands);
            forall i :: 0 <= i < |cands| && cands[i] !in r ==> OverlapsAny(r, cands[i])
    decreases |cands|
  {
    if cands != [] {
      var n := |cands| - 1;
      DiscardedOverlapsAccepted(accepted, cands[..n]);
      var prev := SuppressFrom(accepted, cands[..n]);
      var r := SuppressFrom(accepted, cands);
      assert r == prev || r == prev + [cands[n]];
      forall i | 0 <= i < |cands| && cands[i] !in r ensures OverlapsAny(r, cands[i]) {
        if i < n {
          assert cands[..n][i] == cands[i];
          assert cands[i] !in prev;
          var t :| 0 <= t < |prev| &&
            IntersectionProportion(prev[t].location, cands[i].location) > OVERLAP_THRESHOLD;
          assert r[t] == prev[t];
        }
      }
    }
  }

  /** Each appended candidate is covered by at most half by every detection
      accepted before it. */
  lemma {:induction false} SuppressFromKeepsApart(accepted: seq<Detection>, cands: seq<Detection>)
    requires Apart(accepted)
    ensures Apart(SuppressFrom(accepted, cands))
    decreases |cands|
  {
    if cands != [] {
      var n := |cands| - 1;
      SuppressFromKeepsApart(accepted, cands[..n]);
      var prev := SuppressFrom(accepted, cands[..n]);
      if !OverlapsAny(prev, cands[n]) {
        var r := prev + [cands[n]];
        forall i, j | 0 <= i < j < |r|
          ensures Separate(r[i], r[j])
        {
          if j == |prev| {
            assert r[i] == prev[i];
          } else {
            assert r[i] == prev[i] && r[j] == prev[j];
          }
        }
      }
    }
  }

  /** Offered candidates in order of non-increasing confidence, the pass
      returns a list in that order too. */
  lemma {:induction false} SuppressFromKeepsSorted(accepted: seq<Detection>, cands: seq<Detection>)
    requires Sorted(accepted + cands)
    ensures Sorted(SuppressFrom(accepted, cands))
    decreases |cands|
  {
    if cands == [] {
      assert accepted + cands == accepted;
    } else {
      var n := |cands| - 1;
      var all := accepted + cands;
      assert accepted + cands[..n] == all[..|all| - 1];
      SortedPrefix(all, |all| - 1);
      SuppressFromKeepsSorted(accepted, cands[..n]);
      var prev := SuppressFrom(accepted, cands[..n]);
      if !OverlapsAny(prev, cands[n]) {
        KeptBeforeLast(accepted, cands, n);
        SortedAppend(prev, cands[n]);
      }
    }
  }

  lemma SortedPrefix(s: seq<Detection>, k: nat)
    requires Sorted(s) && k <= |s|
    ensures Sorted(s[..k])
  {
    forall i, j | 0 <= i < j < k ensures s[..k][i].confidence >= s[..k][j].confidence {
      assert s[..k][i] == s[i] && s[..k][j] == s[j];
    }
  }

  lemma SortedAppend(s: seq<Detection>, c: Detection)
    requires Sorted(s)
    requires forall i :: 0 <= i < |s| ==> s[i].confidence >= c.confidence
    ensures Sorted(s + [c])
  {
    var r := s + [c];
    forall i, j | 0 <= i < j < |r| ensures r[i].confidence >= r[j].confidence {
      if j < |s| {
        assert r[i] == s[i] && r[j] == s[j];
      } else {
        assert r[i] == s[i] && r[j] == c;
      }
    }
  }

  /** Everything accepted before the last candidate is at least as confident
      as it, when the candidates follow the accepted list in order. */
  lemma KeptBeforeLast(accepted: seq<Detection>, cands: seq<Detection>, n: nat)
    requires n + 1 == |cands| && Sorted(accepted + cands)
    ensures forall i :: 0 <= i < |SuppressFrom(accepted, cands[..n])| ==>
              SuppressFrom(accepted, cands[..n])[i].confidence >= cands[n].confidence
  {
    var all := accepted + cands;
    SuppressFromIsSubsequence(accepted, cands[..n]);
    var prev := SuppressFrom(accepted, cands[..n]);
    var ks := KeptIndices(accepted, cands[..n]);
    forall i | 0 <= i < |prev| ensures prev[i].confidence >= cands[n].confidence {
      if i < |accepted| {
        assert prev[i] == accepted[i] == all[i];
      } else {
        assert prev[i] == prev[|accepted|..][i - |accepted|];
        var k := ks[i - |accepted|];
        assert prev[i] == cands[..n][k] == all[|accepted| + k];
      }
      assert cands[n] == all[|all| - 1];
    }
  }

  /** Candidates that overlap nothing before them are all appended. */
  lemma {:induction false} ApartCandidatesAreAllKept(accepted: seq<Detection>, cands: seq<Detection>)
    requires Apart(accepted + cands)
    ensures SuppressFrom(accepted, cands) == accepted + cands
    decreases |cands|
  {
    if cands != [] {
      var n := |cands| - 1;
      var all := accepted + cands;
      assert accepted + cands[..n] == all[..|all| - 1];
      var pre := all[..|all| - 1];
      assert Apart(pre) by {
        forall i, j | 0 <= i < j < |pre|
          ensures Separate(pre[i], pre[j])
        {
          assert pre[i] == all[i] && pre[j] == all[j];
        }
      }
      ApartCandidatesAreAllKept(accepted, cands[..n]);
      var prev := accepted + cands[..n];
      assert !OverlapsAny(prev, cands[n]) by {
        forall t | 0 <= t < |prev|
          ensures IntersectionProportion(prev[t].location, cands[n].location) <= OVERLAP_THRESHOLD
        {
          assert prev[t] == all[t] && cands[n] == all[|all| - 1];
          assert Separate(all[t], all[|all| - 1]);
        }
      }
      assert prev + [cands[n]] == all;
    }
  }

  /** ExaminedCount(n) is the number of rounds of the loop: with the queue
      holding n - 1 - i entries before round i, round i runs exactly when
      i < min(n - 1 - i, MAX_RESULTS), and this holds for every i below
      ExaminedCount(n) and fails at ExaminedCount(n). */
  lemma ExaminedCountIsRoundCount(n: nat, i: nat)
    requires 0 < n && i <= ExaminedCount(n)
    ensures i < MinNat(n - 1 - i, MAX_RESULTS) <==> i < ExaminedCount(n)
  {
  }

  lemma RoundsDone(n: nat, i: nat)
    requires 0 < n && i <= ExaminedCount(n) && !(i < MinNat(n - 1 - i, MAX_RESULTS))
    ensures i == ExaminedCount(n)
  {
    ExaminedCountIsRoundCount(n, i);
  }

  lemma ExaminedCountBounds(n: nat)
    ensures ExaminedCount(n) <= MAX_RESULTS
    ensures n > 0 ==> 1 + ExaminedCount(n) <= n
  {
  }

  /** What `getObjectsAndBoundingBoxes` promises of its result `r` for a queue
      holding `q`: empty exactly when the queue is; otherwise it opens with a
      most confident entry, taken without any overlap test, and continues with
      a subsequence of the examined candidates of the poll order; at most
      1 + MAX_RESULTS detections, confidence never increasing, no detection
      covered by more than half by a later one, and every examined candidate
      left out is covered by more than half by one that is kept. */
  lemma TopDetectionsProperties(q: seq<Detection>)
    ensures var r := TopDetections(q);
            && (r == [] <==> q == [])
            && (q != [] ==>
                  && r[0] == PollOrder(q)[0]
                  && (forall e :: e in q ==> e.confidence <= r[0].confidence)
                  && Picks(r[1..], PollOrder(q)[1..1 + ExaminedCount(|q|)],
                           KeptIndices([PollOrder(q)[0]], PollOrder(q)[1..1 + ExaminedCount(|q|)]))
                  && (forall i :: 1 <= i <= ExaminedCount(|q|) && PollOrder(q)[i] !in r ==>
                                   OverlapsAny(r, PollOrder(q)[i])))
            && |r| <= 1 + ExaminedCount(|q|) <= 1 + MAX_RESULTS
            && Sorted(r)
            && Apart(r)
  {
    ExaminedCountBounds(|q|);
    if q != [] {
      var order := PollOrder(q);
      var e := ExaminedCount(|q|);
      PollOrderIsSorted(q);
      SuppressedRun(order, e);
      assert TopDetections(q) == SuppressFrom([order[0]], order[1..1 + e]);
    }
  }

  /** The pass that keeps the first entry of a confidence-ordered `order` and
      offers it the next `e`: it opens with that entry, appends a subsequence
      of the candidates, keeps the order and the spacing, and every candidate
      it leaves out is covered by more than half by a kept one. */
  lemma SuppressedRun(order: seq<Detection>, e: nat)
    requires 1 + e <= |order| && Sorted(order)
    ensures var cands := order[1..1 + e];
            var r := SuppressFrom([order[0]], cands);
            && r != [] && r[0] == order[0]
            && Picks(r[1..], cands, KeptIndices([order[0]], cands))
            && (forall i :: 1 <= i <= e && order[i] !in r ==> OverlapsAny(r, order[i]))
            && |r| <= 1 + e
            && Sorted(r)
            && Apart(r)
  {
    var cands := order[1..1 + e];
    SuppressFromIsSubsequence([order[0]], cands);
    DiscardedOverlapsAccepted([order[0]], cands);
    SuppressFromKeepsApart([order[0]], cands);
    assert [order[0]] + cands == order[..1 + e];
    SuppressFromKeepsSorted([order[0]], cands);
    var r := SuppressFrom([order[0]], cands);
    forall i | 1 <= i <= e && order[i] !in r ensures OverlapsAny(r, order[i]) {
      assert cands[i - 1] == order[i];
    }
  }

  /** Every returned detection is one of the queue's entries. */
  lemma TopDetectionsDrawnFromQueue(q: seq<Detection>)
    ensures forall d :: d in TopDetections(q) ==> d in q
  {
    if q != [] {
      var order := PollOrder(q);
      var cands := order[1..1 + ExaminedCount(|q|)];
      ExaminedCountBounds(|q|);
      PollOrderIsPermutation(q);
      SuppressFromIsSubsequence([order[0]], cands);
      var r := TopDetections(q);
      var ks := KeptIndices([order[0]], cands);
      forall d | d in r ensures d in q {
        var i :| 0 <= i < |r| && r[i] == d;
        if i == 0 {
          assert d == order[0];
        } else {
          assert r[1..][i - 1] == cands[ks[i - 1]];
          assert d == order[1 + ks[i - 1]];
        }
        assert d in multiset(order);
      }
    }
  }

  /** A prefix of a list whose detections are pairwise apart is apart too. */
  lemma ApartPrefix(s: seq<Detection>, k: nat)
    requires Apart(s) && k <= |s|
    ensures Apart(s[..k])
  {
    forall i, j | 0 <= i < j < k
      ensures Separate(s[..k][i], s[..k][j])
    {
      assert s[..k][i] == s[i] && s[..k][j] == s[j];
    }
  }

  /** The loop bound as written drops candidates that overlap nothing: when
      no two queued detections overlap by more than half, the result is the
      first 1 + ExaminedCount(n) entries of the poll order, so a queue of
      3 to 29 entries returns fewer than min(n, 1 + MAX_RESULTS) of them. */
  lemma HalvedExamination(q: seq<Detection>, order: seq<Detection>)
    requires q != [] && order == PollOrder(q) && Apart(order)
    ensures TopDetections(q) == order[..1 + ExaminedCount(|q|)]
    ensures 3 <= |q| < 30 ==> |TopDetections(q)| < MinNat(|q|, 1 + MAX_RESULTS)
  {
    ExaminedCountBounds(|q|);
    ApartRunKeepsAll(order, ExaminedCount(|q|));
  }

  /** The pass over the first 1 + e entries of a list whose detections are
      pairwise apart keeps them all. */
  lemma ApartRunKeepsAll(order: seq<Detection>, e: nat)
    requires 1 + e <= |order| && Apart(order)
    ensures SuppressFrom([order[0]], order[1..1 + e]) == order[..1 + e]
  {
    ApartPrefix(order, 1 + e);
    assert [order[0]] + order[1..1 + e] == order[..1 + e];
    ApartCandidatesAreAllKept([order[0]], order[1..1 + e]);
  }

  /** The bound `min(size, MAX_RESULTS)` read once, before the first poll of
      the loop: every remaining entry is examined, up to MAX_RESULTS. */
  function IntendedExaminedCount(n: nat): (e: nat)
    ensures e <= MAX_RESULTS
    ensures n > 0 ==> e < n
  {
    if n == 0 then 0 else MinNat(MAX_RESULTS, n - 1)
  }

  /** `getObjectsAndBoundingBoxes` with the loop bound taken before the loop. */
  function IntendedTopDetections(q: seq<Detection>): (r: seq<Detection>) {
    if q == [] then []
    else
      var order := PollOrder(q);
      SuppressFrom([order[0]], order[1..1 + IntendedExaminedCount(|q|)])
  }

  /** With the bound taken once, detections that overlap nothing are all
      returned, up to 1 + MAX_RESULTS of them, in poll order. */
  lemma IntendedTopDetectionsKeepsApart(q: seq<Detection>, order: seq<Detection>)
    requires order == PollOrder(q) && Apart(order)
    ensures IntendedTopDetections(q) == order[..MinNat(|q|, 1 + MAX_RESULTS)]
  {
    if q != [] {
      var e := IntendedExaminedCount(|q|);
      assert 1 + e == MinNat(|q|, 1 + MAX_RESULTS);
      ApartRunKeepsAll(order, e);
    }
  }

  /** The corrected pass keeps the promises of the original: a most
      confident entry first, at most 1 + MAX_RESULTS detections, confidence
      never increasing, none covered by more than half by a later one, and
      every examined candidate left out covered by one that is kept. */
  lemma IntendedTopDetectionsProperties(q: seq<Detection>)
    ensures var r := IntendedTopDetections(q);
            && (r == [] <==> q == [])
            && (q != [] ==>
                  && r[0] == PollOrder(q)[0]
                  && (forall e :: e in q ==> e.confidence <= r[0].confidence)
                  && (forall i :: 1 <= i <= IntendedExaminedCount(|q|) && PollOrder(q)[i] !in r ==>
                                   OverlapsAny(r, PollOrder(q)[i])))
            && |r| <= 1 + MAX_RESULTS
            && Sorted(r)
            && Apart(r)
  {
    if q != [] {
      var order := PollOrder(q);
      var e := IntendedExaminedCount(|q|);
      PollOrderIsSorted(q);
      SuppressedRun(order, e);
      assert IntendedTopDetections(q) == SuppressFrom([order[0]], order[1..1 + e]);
    }
  }

  /** Two detections on the same rectangle of positive extent: only the
      more confident one is returned. */
  lemma SameBoxKeepsBest(a: Detection, b: Detection)
    requires a.location == b.location && a.location.width > 0.0 && a.location.height > 0.0
    requires a.confidence > b.confidence
    ensures TopDetections([a, b]) == [a]
    ensures TopDetections([b, a]) == [a]
  {
    SelfProportionIsOne(a.location);
    assert PollOrder([a, b]) == [a, b] by {
      assert RemoveAt([a, b], 0) == [b];
    }
    assert PollOrder([b, a]) == [a, b] by {
      assert RemoveAt([b, a], 1) == [b];
    }
    assert OverlapsAny([a], b);
    assert SuppressFrom([a], [b]) == [a] by {
      assert [b][..0] == [];
    }
  }

  /** Two detections whose rectangles do not overlap are both returned,
      the more confident first. */
  lemma DisjointBoxesAreBothKept(a: Detection, b: Detection)
    requires !Overlaps(a.location, b.location)
    requires a.confidence > b.confidence
    ensures TopDetections([a, b]) == [a, b]
  {
    assert PollOrder([a, b]) == [a, b] by {
      assert RemoveAt([a, b], 0) == [b];
    }
    assert !OverlapsAny([a], b);
    assert SuppressFrom([a], [b]) == [a, b] by {
      assert [b][..0] == [];
    }
  }

  /** A detection queued k times, as `calculateTopPredictions` queues a box
      that clears the threshold: a single copy is returned, the others are
      discarded as covering it entirely. */
  lemma DuplicatesCollapse(d: Detection, k: nat)
    requires k > 0 && d.location.width > 0.0 && d.location.height > 0.0
    ensures TopDetections(seq(k, _ => d)) == [d]
  {
    var q := seq(k, _ => d);
    CopiesPollInAnyOrder(d, k);
    ExaminedCountBounds(k);
    var e := ExaminedCount(k);
    assert q[1..1 + e] == seq(e, _ => d);
    CopiesAreDiscarded(d, e);
  }

  lemma {:induction false} CopiesPollInAnyOrder(d: Detection, k: nat)
    ensures PollOrder(seq(k, _ => d)) == seq(k, _ => d)
  {
    if k > 0 {
      var q := seq(k, _ => d);
      RemoveCopy(d, k, BestIndex(q));
      CopiesPollInAnyOrder(d, k - 1);
      assert [d] + seq(k - 1, _ => d) == q;
    }
  }

  lemma RemoveCopy(d: Detection, k: nat, i: nat)
    requires i < k
    ensures RemoveAt(seq(k, _ => d), i) == seq(k - 1, _ => d)
  {
  }

  lemma {:induction false} CopiesAreDiscarded(d: Detection, e: nat)
    requires d.location.width > 0.0 && d.location.height > 0.0
    ensures SuppressFrom([d], seq(e, _ => d)) == [d]
  {
    if e > 0 {
      var cands := seq(e, _ => d);
      assert cands[..e - 1] == seq(e - 1, _ => d);
      CopiesAreDiscarded(d, e - 1);
      SelfProportionIsOne(d.location);
      assert [d][0] == d;
      assert OverlapsAny([d], d);
    }
  }
}
