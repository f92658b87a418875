/** Side tests of a point against a counting line or gate segment, the
    transition-to-direction rule and the clamping of segment endpoints
    (cv/video_processing/geometry.py; the same helpers in people_counter.py). */
module Geometry {
  import opened Wrappers
  import opened PyNum

  /** A side reading: -1 clearly above, +1 clearly below, 0 for "do not update"
      (inside the dead zone, or outside the gate's span). */
  predicate IsSide(s: int) { -1 <= s <= 1 }

  /** A side that may be remembered: never the dead zone. */
  predicate IsStableSide(s: int) { s == -1 || s == 1 }

  /** The two crossing directions ("down" is from side -1 to side +1). */
  datatype Direction = Down | Up

  /** `side_of_line`: the side of a horizontal line at `lineY`, with a dead zone of
      `margin` pixels on either side. */
  function SideOfLine(y: real, lineY: int, margin: int): (s: int)
    ensures IsSide(s)
    ensures s == -1 <==> y < (lineY - margin) as real
    ensures s == 1 <==> !(y < (lineY - margin) as real) && y > (lineY + margin) as real
  {
    if y < (lineY - margin) as real then -1
    else if y > (lineY + margin) as real then 1
    else 0
  }

  /** Moving a point downwards never moves it to a smaller side. */
  lemma SideOfLineMonotone(y1: real, y2: real, lineY: int, margin: int)
    requires y1 <= y2
    ensures SideOfLine(y1, lineY, margin) <= SideOfLine(y2, lineY, margin)
  {
  }

  /** The y-value of the (non-vertical) gate line at abscissa `x`, by linear interpolation. */
  function GateY(x: real, x1: int, y1: int, x2: int, y2: int): real
    requires x1 != x2
  {
    y1 as real + (x - x1 as real) / (x2 - x1) as real * (y2 - y1) as real
  }

  /** True when `x` lies outside the gate's x-span widened by `margin` on both ends. */
  predicate OutsideSpan(x: real, x1: int, x2: int, margin: int) {
    x < (Min(x1, x2) - margin) as real || x > (Max(x1, x2) + margin) as real
  }

  /** `side_of_gate`: 0 outside the gate's x-span; otherwise the point's y against the
      interpolated gate y with the dead zone. The vertical-gate branch is kept as written. */
  function SideOfGate(x: real, y: real, x1: int, y1: int, x2: int, y2: int, margin: int): (s: int)
    ensures IsSide(s)
    ensures OutsideSpan(x, x1, x2, margin) ==> s == 0
    ensures !OutsideSpan(x, x1, x2, margin) && x1 != x2 ==>
      (s == -1 <==> y < GateY(x, x1, y1, x2, y2) - margin as real) &&
      (s == 1 <==> !(y < GateY(x, x1, y1, x2, y2) - margin as real) && y > GateY(x, x1, y1, x2, y2) + margin as real)
  {
    if OutsideSpan(x, x1, x2, margin) then 0
    else if x2 - x1 == 0 then
      if x < (x1 - margin) as real then -1
      else if x > (x1 + margin) as real then 1
      else 0
    else
      var yOnGate := GateY(x, x1, y1, x2, y2);
      if y < yOnGate - margin as real then -1
      else if y > yOnGate + margin as real then 1
      else 0
  }

  /** A vertical gate never classifies any point: every point that the vertical branch
      could call -1 or +1 has already been turned away by the span test, for every margin. */
  lemma VerticalGateNeverClassifies(x: real, y: real, gx: int, y1: int, y2: int, margin: int)
    ensures SideOfGate(x, y, gx, y1, gx, y2, margin) == 0
  {
  }

  /** On a horizontal, non-degenerate gate and within its span, the gate test is the line test. */
  lemma HorizontalGateIsLine(x: real, y: real, x1: int, x2: int, lineY: int, margin: int)
    requires x1 != x2
    requires !OutsideSpan(x, x1, x2, margin)
    ensures SideOfGate(x, y, x1, lineY, x2, lineY, margin) == SideOfLine(y, lineY, margin)
  {
    assert GateY(x, x1, lineY, x2, lineY) == lineY as real;
  }

  lemma DivOfProduct(k: real, d: real)
    requires d != 0.0
    ensures (k * d) / d == k
  {
  }

  lemma GateYSymmetric(x: real, x1: int, y1: int, x2: int, y2: int)
    requires x1 != x2
    ensures GateY(x, x1, y1, x2, y2) == GateY(x, x2, y2, x1, y1)
  {
    var d := (x2 - x1) as real;
    var nd := (x1 - x2) as real;
    var t := (x - x1 as real) / d;
    var u := (x - x2 as real) / nd;
    var k := 1.0 - t;
    assert t * d == x - x1 as real;
    assert x - x2 as real == k * nd;
    DivOfProduct(k, nd);
    assert u == k;
  }

  /** Swapping the gate's endpoints does not change any side reading. */
  lemma GateEndpointSwap(x: real, y: real, x1: int, y1: int, x2: int, y2: int, margin: int)
    ensures SideOfGate(x, y, x1, y1, x2, y2, margin) == SideOfGate(x, y, x2, y2, x1, y1, margin)
  {
    if x1 != x2 {
      GateYSymmetric(x, x1, y1, x2, y2);
    }
  }

  /** `crossing_direction`: "down" exactly for -1 -> +1, "up" exactly for +1 -> -1. */
  function CrossingDirection(prev: int, curr: int): (d: Option<Direction>)
    ensures d == Some(Down) <==> prev == -1 && curr == 1
    ensures d == Some(Up) <==> prev == 1 && curr == -1
    ensures d == None <==> !(prev == -1 && curr == 1) && !(prev == 1 && curr == -1)
  {
    if prev == -1 && curr == 1 then Some(Down)
    else if prev == 1 && curr == -1 then Some(Up)
    else None
  }

  /** Between remembered sides, a direction exists exactly when the side changed,
      and reversing the transition reverses the direction. */
  lemma StableTransitionHasDirection(prev: int, curr: int)
    requires IsStableSide(prev) && IsStableSide(curr)
    ensures CrossingDirection(prev, curr).Some? <==> prev != curr
    ensures CrossingDirection(prev, curr) == Some(Down) <==> CrossingDirection(curr, prev) == Some(Up)
  {
  }

  /** `clamp_segment`: both endpoints clamped into [0, width], then ordered. */
  function ClampSegment(x1: int, x2: int, width: int): (r: (int, int))
    ensures 0 <= r.0 <= r.1 <= Max(0, width)
    ensures multiset{r.0, r.1} == multiset{Clamp(x1, 0, width), Clamp(x2, 0, width)}
  {
    var cx1 := Clamp(x1, 0, width);
    var cx2 := Clamp(x2, 0, width);
    if cx1 > cx2 then (cx2, cx1) else (cx1, cx2)
  }

  /** The order of the two endpoints does not matter. */
  lemma ClampSegmentSymmetric(x1: int, x2: int, width: int)
    ensures ClampSegment(x1, x2, width) == ClampSegment(x2, x1, width)
  {
  }

  /** An ordered segment already inside [0, width] is returned unchanged; in particular
      clamping is idempotent. */
  lemma ClampSegmentFixesInRange(x1: int, x2: int, width: int)
    requires 0 <= x1 <= x2 <= width
    ensures ClampSegment(x1, x2, width) == (x1, x2)
  {
  }

  lemma ClampSegmentIdempotent(x1: int, x2: int, width: int)
    ensures var r := ClampSegment(x1, x2, width); ClampSegment(r.0, r.1, width) == r
  {
  }
}
