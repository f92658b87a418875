/** The threshold line fitted inside a detected door box (`fit_gate_line_from_box`,
    cv/video_processing/door_detection.py:13-103, people_counter.py:357-450). Canny and
    Hough are not modelled: the segments Hough reports for the clamped region arrive as
    a list, each with its length and absolute angle in degrees already computed. */
module GateFit {
  import opened Wrappers
  import opened PyNum
  import opened Models

  /** One Hough segment in region coordinates, with `hypot(dx, dy)` and
      `|degrees(arctan2(dy, dx))|` given. */
  datatype HoughSegment = HoughSegment(lx1: int, ly1: int, lx2: int, ly2: int, length: real, angle: real)

  /** A fitted gate `(gx1, gy1, gx2, gy2, source)`. */
  datatype Gate = Gate(x1: int, y1: int, x2: int, y2: int, source: GateSource)

  function YMid(seg: HoughSegment): real { (seg.ly1 + seg.ly2) as real / 2.0 }

  /** `score = y_mid * 2.0 + length`: prefer low, long segments. */
  function Score(seg: HoughSegment): real { YMid(seg) * 2.0 + seg.length }

  /** The three `continue` tests of lines 66-73, negated. */
  predicate Eligible(seg: HoughSegment, roiW: int, roiH: int, maxAngle: real, minBottom: real) {
    !(seg.length < MaxR(20.0, roiW as real * 0.35)) &&
    !(seg.angle > maxAngle) &&
    !(YMid(seg) < roiH as real * minBottom)
  }

  /** The score to beat after the segments before the chosen one: `best_score`. */
  function BestScore(lines: seq<HoughSegment>, best: Option<nat>): real
  {
    if best.Some? && best.value < |lines| then Score(lines[best.value]) else -1.0
  }

  /** The selection loop of lines 59-77, as the index of the chosen segment: the first
      eligible segment of strictly greatest score above -1. */
  function BestIndex(lines: seq<HoughSegment>, roiW: int, roiH: int, maxAngle: real, minBottom: real)
    : (r: Option<nat>)
    ensures r.Some? ==> r.value < |lines| && Eligible(lines[r.value], roiW, roiH, maxAngle, minBottom)
    ensures r.Some? ==> Score(lines[r.value]) > -1.0
    ensures forall i :: 0 <= i < |lines| && Eligible(lines[i], roiW, roiH, maxAngle, minBottom) ==>
      Score(lines[i]) <= BestScore(lines, r)
    ensures r.Some? ==> forall i :: 0 <= i < r.value && Eligible(lines[i], roiW, roiH, maxAngle, minBottom) ==>
      Score(lines[i]) < Score(lines[r.value])
  {
    if |lines| == 0 then None
    else
      var n := |lines| - 1;
      var prev := BestIndex(lines[..n], roiW, roiH, maxAngle, minBottom);
      assert forall i :: 0 <= i < n ==> lines[..n][i] == lines[i];
      assert BestScore(lines[..n], prev) == BestScore(lines, prev);
      if Eligible(lines[n], roiW, roiH, maxAngle, minBottom) && Score(lines[n]) > BestScore(lines, prev)
      then Some(n)
      else prev
  }

  /** Past the clamps (a region of positive height, bottom ratio at least 0.2) every
      eligible segment scores above -1, so a segment is chosen exactly when one is
      eligible. */
  lemma ChosenIffEligible(lines: seq<HoughSegment>, roiW: int, roiH: int, maxAngle: real, minBottom: real)
    requires roiH > 0 && minBottom >= 0.2
    ensures BestIndex(lines, roiW, roiH, maxAngle, minBottom).Some? <==>
      exists i :: 0 <= i < |lines| && Eligible(lines[i], roiW, roiH, maxAngle, minBottom)
  {
    var r := BestIndex(lines, roiW, roiH, maxAngle, minBottom);
    if exists i :: 0 <= i < |lines| && Eligible(lines[i], roiW, roiH, maxAngle, minBottom) {
      var i :| 0 <= i < |lines| && Eligible(lines[i], roiW, roiH, maxAngle, minBottom);
      EligibleScoresAboveMinusOne(lines[i], roiW, roiH, maxAngle, minBottom);
      assert BestScore(lines, r) > -1.0;
    }
  }

  lemma EligibleScoresAboveMinusOne(seg: HoughSegment, roiW: int, roiH: int, maxAngle: real, minBottom: real)
    requires roiH > 0 && minBottom >= 0.2
    requires Eligible(seg, roiW, roiH, maxAngle, minBottom)
    ensures Score(seg) > -1.0
  {
    assert roiH as real * minBottom >= 0.0;
  }

  /** The horizontal fallback line at `clamp(y2 - line_offset)`. */
  function Fallback(h: int, cx1: int, cx2: int, cy2: int, lineOffset: int): Gate
  {
    var ly := Clamp(cy2 - lineOffset, 0, h - 1);
    Gate(cx1, ly, cx2, ly, GateSource.Fallback)
  }

  /** The end of the function (lines 79-103) once `best` is known. */
  function FromBest(h: int, cx1: int, cy1: int, cx2: int, cy2: int, lineOffset: int, minBottom: real,
                    best: Option<HoughSegment>): Gate
  {
    match best
    case None => Fallback(h, cx1, cx2, cy2, lineOffset)
    case Some(seg) =>
      var roiW := cx2 - cx1;
      var roiH := cy2 - cy1;
      var dx := seg.lx2 - seg.lx1;
      if dx == 0 then Fallback(h, cx1, cx2, cy2, lineOffset)
      else
        var m := (seg.ly2 - seg.ly1) as real / dx as real;
        var lyLeft := seg.ly1 as real + (0 - seg.lx1) as real * m;
        var lyRight := seg.ly1 as real + ((roiW - 1) - seg.lx1) as real * m;
        if MinR(lyLeft, lyRight) < roiH as real * minBottom then Fallback(h, cx1, cx2, cy2, lineOffset)
        else
          Gate(cx1, Clamp(cy1 + Round(lyLeft) - lineOffset, 0, h - 1),
               cx2, Clamp(cy1 + Round(lyRight) - lineOffset, 0, h - 1), Edge)
  }

  function ChosenSegment(lines: seq<HoughSegment>, best: Option<nat>): Option<HoughSegment>
  {
    if best.Some? && best.value < |lines| then Some(lines[best.value]) else None
  }

  /** `fit_gate_line_from_box` for a frame `w` wide and `h` high. */
  function FitGate(w: int, h: int, x1: int, y1: int, x2: int, y2: int, lineOffset: int,
                   maxAngleDeg: real, minBottomRatio: real, lines: seq<HoughSegment>): (g: Gate)
    // the gate spans the clamped box horizontally on every path
    ensures g.x1 == Clamp(x1, 0, w - 1) && g.x2 == Clamp(x2, 0, w - 1)
    // and lies inside the frame vertically
    ensures 0 <= g.y1 && 0 <= g.y2 && (h >= 1 ==> g.y1 <= h - 1 && g.y2 <= h - 1)
    // a fallback is the horizontal line line_offset above the clamped bottom
    ensures g.source == GateSource.Fallback ==>
      g.y1 == g.y2 == Clamp(Clamp(y2, 0, h - 1) - lineOffset, 0, h - 1)
    // a degenerate clamped box always falls back
    ensures Clamp(x2, 0, w - 1) <= Clamp(x1, 0, w - 1) || Clamp(y2, 0, h - 1) <= Clamp(y1, 0, h - 1) ==>
      g.source == GateSource.Fallback
  {
    var cx1 := Clamp(x1, 0, w - 1);
    var cx2 := Clamp(x2, 0, w - 1);
    var cy1 := Clamp(y1, 0, h - 1);
    var cy2 := Clamp(y2, 0, h - 1);
    if cx2 <= cx1 || cy2 <= cy1 then Fallback(h, cx1, cx2, cy2, lineOffset)
    else
      var maxAngle := ClampR(maxAngleDeg, 5.0, 80.0);
      var minBottom := ClampR(minBottomRatio, 0.2, 0.95);
      var best := BestIndex(lines, cx2 - cx1, cy2 - cy1, maxAngle, minBottom);
      FromBest(h, cx1, cy1, cx2, cy2, lineOffset, minBottom, ChosenSegment(lines, best))
  }

  /** An edge gate always comes from an eligible segment; with none, the fit falls back. */
  lemma EdgeNeedsEligibleSegment(w: int, h: int, x1: int, y1: int, x2: int, y2: int, lineOffset: int,
                                 maxAngleDeg: real, minBottomRatio: real, lines: seq<HoughSegment>)
    ensures FitGate(w, h, x1, y1, x2, y2, lineOffset, maxAngleDeg, minBottomRatio, lines).source == Edge ==>
      exists i :: 0 <= i < |lines| &&
        Eligible(lines[i], Clamp(x2, 0, w - 1) - Clamp(x1, 0, w - 1), Clamp(y2, 0, h - 1) - Clamp(y1, 0, h - 1),
                 ClampR(maxAngleDeg, 5.0, 80.0), ClampR(minBottomRatio, 0.2, 0.95))
  {
  }

  /** Lines 55-77 as a loop: keep the first segment of strictly highest score. */
  method SelectSegment(lines: seq<HoughSegment>, roiW: int, roiH: int, maxAngle: real, minBottom: real)
    returns (best: Option<HoughSegment>)
    ensures best == ChosenSegment(lines, BestIndex(lines, roiW, roiH, maxAngle, minBottom))
  {
    best := None;
    var bestScore := -1.0;
    ghost var bestIndex: Option<nat> := None;
    for i := 0 to |lines|
      invariant bestIndex == BestIndex(lines[..i], roiW, roiH, maxAngle, minBottom)
      invariant bestIndex.Some? ==> bestIndex.value < i
      invariant best == ChosenSegment(lines, bestIndex)
      invariant bestScore == BestScore(lines, bestIndex)
    {
      assert lines[..i + 1][..i] == lines[..i];
      assert BestScore(lines[..i], bestIndex) == BestScore(lines, bestIndex);
      var seg := lines[i];
      if seg.length < MaxR(20.0, roiW as real * 0.35) {
        continue;
      }
      if seg.angle > maxAngle {
        continue;
      }
      var yMid := (seg.ly1 + seg.ly2) as real / 2.0;
      if yMid < roiH as real * minBottom {
        continue;
      }
      var score := yMid * 2.0 + seg.length;
      if score > bestScore {
        bestScore := score;
        best := Some(seg);
        bestIndex := Some(i);
      }
    }
    assert lines[..|lines|] == lines;
  }

  /** The whole fit, with the selection done by the loop. */
  method FitGateLine(w: int, h: int, x1: int, y1: int, x2: int, y2: int, lineOffset: int,
                     maxAngleDeg: real, minBottomRatio: real, lines: seq<HoughSegment>) returns (g: Gate)
    ensures g == FitGate(w, h, x1, y1, x2, y2, lineOffset, maxAngleDeg, minBottomRatio, lines)
  {
    var cx1 := Clamp(x1, 0, w - 1);
    var cx2 := Clamp(x2, 0, w - 1);
    var cy1 := Clamp(y1, 0, h - 1);
    var cy2 := Clamp(y2, 0, h - 1);
    if cx2 <= cx1 || cy2 <= cy1 {
      return Fallback(h, cx1, cx2, cy2, lineOffset);
    }
    var maxAngle := ClampR(maxAngleDeg, 5.0, 80.0);
    var minBottom := ClampR(minBottomRatio, 0.2, 0.95);
    var best := SelectSegment(lines, cx2 - cx1, cy2 - cy1, maxAngle, minBottom);
    g := FromBest(h, cx1, cy1, cx2, cy2, lineOffset, minBottom, best);
  }
}
