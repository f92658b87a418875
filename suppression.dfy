/** Class-agnostic non-max suppression (`nms_detections`,
    cv/video_processing/door_detection.py:188-202, people_counter.py:535-549). */
module Suppression {
  import opened Boxes
  import opened Sorting

  /** Sort key for "confidence, highest first". */
  function NegConf(d: Detection): real { -d.conf }

  /** `sorted(detections, key=conf, reverse=True)`. */
  function ByConfidence(dets: seq<Detection>): (r: seq<Detection>)
    ensures multiset(r) == multiset(dets) && |r| == |dets|
    ensures forall i, j :: 0 <= i < j < |r| ==> r[i].conf >= r[j].conf
  {
    var r := SortBy(dets, NegConf);
    assert forall i, j :: 0 <= i < j < |r| ==> NegConf(r[i]) <= NegConf(r[j]);
    r
  }

  /** `any(box_iou_xyxy(box, kept_box) >= iou_threshold for kept_box in kept)`. */
  predicate Overlaps(box: Box, kept: seq<Detection>, thr: real) {
    exists j :: 0 <= j < |kept| && Iou(box, kept[j].box) >= thr
  }

  /** `a` is `b` with some elements removed, order kept. */
  predicate IsSubsequence(a: seq<Detection>, b: seq<Detection>)
  {
    |a| == 0 ||
    (|b| > 0 &&
     ((a[|a| - 1] == b[|b| - 1] && IsSubsequence(a[..|a| - 1], b[..|b| - 1])) ||
      IsSubsequence(a, b[..|b| - 1])))
  }

  /** No kept box overlaps an earlier kept box at or above the threshold. */
  predicate Apart(kept: seq<Detection>, thr: real) {
    forall i, j :: 0 <= i < j < |kept| ==> Iou(kept[j].box, kept[i].box) < thr
  }

  predicate ConfDescending(s: seq<Detection>) {
    forall i, j :: 0 <= i < j < |s| ==> s[i].conf >= s[j].conf
  }

  /** The keep loop over `items` in order. */
  function Greedy(items: seq<Detection>, thr: real): (kept: seq<Detection>)
    ensures |kept| <= |items|
    ensures |items| > 0 ==> |kept| > 0 && kept[0] == items[0]
  {
    if |items| == 0 then []
    else
      var n := |items| - 1;
      var prev := Greedy(items[..n], thr);
      var cand := items[n];
      if Overlaps(cand.box, prev, thr) then prev else prev + [cand]
  }

  /** The kept list is the input with some elements dropped, order kept. */
  lemma {:induction false} GreedySubsequence(items: seq<Detection>, thr: real)
    ensures IsSubsequence(Greedy(items, thr), items)
    ensures forall d :: d in Greedy(items, thr) ==> d in items
  {
    if |items| > 0 {
      var n := |items| - 1;
      GreedySubsequence(items[..n], thr);
      var prev := Greedy(items[..n], thr);
      if !Overlaps(items[n].box, prev, thr) {
        assert (prev + [items[n]])[..|prev|] == prev;
      }
    }
  }

  /** Every two kept boxes overlap less than the threshold. */
  lemma {:induction false} GreedyApart(items: seq<Detection>, thr: real)
    ensures Apart(Greedy(items, thr), thr)
  {
    if |items| > 0 {
      var n := |items| - 1;
      GreedyApart(items[..n], thr);
      var prev := Greedy(items[..n], thr);
      if !Overlaps(items[n].box, prev, thr) {
        var kept := prev + [items[n]];
        forall i, j | 0 <= i < j < |kept| ensures Iou(kept[j].box, kept[i].box) < thr {
          if j < |prev| {
            assert kept[i] == prev[i] && kept[j] == prev[j];
          } else {
            assert kept[i] == prev[i];
          }
        }
      }
    }
  }

  /** Every input element is kept or overlaps a kept box at or above the threshold. */
  lemma {:induction false} GreedyCovers(items: seq<Detection>, thr: real)
    ensures forall i :: 0 <= i < |items| ==>
      items[i] in Greedy(items, thr) || Overlaps(items[i].box, Greedy(items, thr), thr)
  {
    if |items| > 0 {
      var n := |items| - 1;
      GreedyCovers(items[..n], thr);
      var prev := Greedy(items[..n], thr);
      var kept := Greedy(items, thr);
      forall i | 0 <= i < |items| ensures items[i] in kept || Overlaps(items[i].box, kept, thr) {
        if i < n {
          assert items[i] == items[..n][i];
          if Overlaps(items[i].box, prev, thr) {
            var j :| 0 <= j < |prev| && Iou(items[i].box, prev[j].box) >= thr;
            assert prev <= kept;
            assert kept[j] == prev[j];
          } else {
            assert prev <= kept;
          }
        }
      }
    }
  }

  /** A confidence-ordered input gives a confidence-ordered output. */
  lemma {:induction false} GreedyOrdered(items: seq<Detection>, thr: real)
    requires ConfDescending(items)
    ensures ConfDescending(Greedy(items, thr))
  {
    if |items| > 0 {
      var n := |items| - 1;
      assert ConfDescending(items[..n]);
      GreedyOrdered(items[..n], thr);
      GreedySubsequence(items[..n], thr);
      var prev := Greedy(items[..n], thr);
      if !Overlaps(items[n].box, prev, thr) {
        var kept := prev + [items[n]];
        forall i, j | 0 <= i < j < |kept| ensures kept[i].conf >= kept[j].conf {
          assert kept[i] == prev[i];
          if j == |prev| {
            assert prev[i] in items[..n];
          }
        }
      }
    }
  }

  /** `nms_detections(detections, iou_threshold)`. */
  function NmsSpec(dets: seq<Detection>, thr: real): seq<Detection>
  {
    if |dets| == 0 then [] else Greedy(ByConfidence(dets), thr)
  }

  /** What non-max suppression keeps. */
  lemma NmsProperties(dets: seq<Detection>, thr: real)
    ensures var r := NmsSpec(dets, thr);
      |r| <= |dets| &&
      (|r| == 0 <==> |dets| == 0) &&
      IsSubsequence(r, ByConfidence(dets)) &&
      Apart(r, thr) &&
      ConfDescending(r) &&
      (forall d :: d in dets ==> d in r || Overlaps(d.box, r, thr)) &&
      (|dets| > 0 ==> forall d :: d in dets ==> r[0].conf >= d.conf)
  {
    if |dets| > 0 {
      var items := ByConfidence(dets);
      var r := Greedy(items, thr);
      GreedySubsequence(items, thr);
      GreedyApart(items, thr);
      GreedyCovers(items, thr);
      GreedyOrdered(items, thr);
      forall d | d in dets
        ensures d in r || Overlaps(d.box, r, thr)
        ensures r[0].conf >= d.conf
      {
        assert d in multiset(items);
        var i :| 0 <= i < |items| && items[i] == d;
      }
    }
  }

  /** Greedy keeps everything when nothing overlaps. */
  lemma {:induction false} GreedyOfApart(items: seq<Detection>, thr: real)
    requires Apart(items, thr)
    ensures Greedy(items, thr) == items
  {
    if |items| > 0 {
      var n := |items| - 1;
      assert Apart(items[..n], thr);
      GreedyOfApart(items[..n], thr);
      assert !Overlaps(items[n].box, items[..n], thr);
      assert items[..n] + [items[n]] == items;
    }
  }

  /** Running the suppression again on its own output changes nothing. */
  lemma NmsIdempotent(dets: seq<Detection>, thr: real)
    ensures NmsSpec(NmsSpec(dets, thr), thr) == NmsSpec(dets, thr)
  {
    var r := NmsSpec(dets, thr);
    NmsProperties(dets, thr);
    if |r| > 0 {
      assert SortedBy(r, NegConf);
      SortByOfSorted(r, NegConf);
      GreedyOfApart(r, thr);
    }
  }

  /** The `any(...)` test as a loop over the kept boxes. */
  method AnyOverlap(box: Box, kept: seq<Detection>, thr: real) returns (found: bool)
    ensures found == Overlaps(box, kept, thr)
  {
    var j := 0;
    while j < |kept|
      invariant 0 <= j <= |kept|
      invariant forall k :: 0 <= k < j ==> Iou(box, kept[k].box) < thr
    {
      if Iou(box, kept[j].box) >= thr {
        return true;
      }
      j := j + 1;
    }
    return false;
  }

  /** Lines 193-202: sort by confidence, then keep each candidate that no kept box
      overlaps at or above the threshold. */
  method Nms(dets: seq<Detection>, thr: real) returns (kept: seq<Detection>)
    ensures kept == NmsSpec(dets, thr)
  {
    if |dets| == 0 {
      return [];
    }
    var items := ByConfidence(dets);
    kept := [];
    for i := 0 to |items|
      invariant kept == Greedy(items[..i], thr)
    {
      assert items[..i + 1][..i] == items[..i];
      var overlapping := AnyOverlap(items[i].box, kept, thr);
      if !overlapping {
        kept := kept + [items[i]];
      }
    }
    assert items[..|items|] == items;
  }
}
