/** Boxes, detections and intersection-over-union (`box_iou_xyxy`,
    cv/video_processing/door_detection.py:167-185, people_counter.py:514-532). */
module Boxes {
  import opened PyNum

  /** An axis-aligned box `[x1, y1, x2, y2]` in pixel coordinates. */
  datatype Box = Box(x1: real, y1: real, x2: real, y2: real)

  /** One prompt-conditioned detection `(conf, box, prompt)`. */
  datatype Detection = Detection(conf: real, box: Box, prompt: string)

  /** Width and height of the overlap of two boxes, zero when they do not overlap. */
  function OverlapWidth(a: Box, b: Box): real { MaxR(0.0, MinR(a.x2, b.x2) - MaxR(a.x1, b.x1)) }

  function OverlapHeight(a: Box, b: Box): real { MaxR(0.0, MinR(a.y2, b.y2) - MaxR(a.y1, b.y1)) }

  /** Area of a box, with inverted sides counted as zero. */
  function Area(a: Box): (r: real)
    ensures r >= 0.0
  {
    NonNegProduct(MaxR(0.0, a.x2 - a.x1), MaxR(0.0, a.y2 - a.y1));
    MaxR(0.0, a.x2 - a.x1) * MaxR(0.0, a.y2 - a.y1)
  }

  lemma NonNegProduct(p: real, q: real)
    requires p >= 0.0 && q >= 0.0
    ensures p * q >= 0.0
  {
  }

  lemma ProductMonotone(p: real, q: real, r: real, s: real)
    requires 0.0 <= p <= q && 0.0 <= r <= s
    ensures p * r <= q * s
  {
    assert p * r <= q * r;
    assert q * r <= q * s;
  }

  lemma QuotientAtMostOne(p: real, q: real)
    requires 0.0 < p <= q
    ensures 0.0 < p / q <= 1.0
  {
    var t := p / q;
    assert t * q == p;
  }

  /** The overlap is no larger than either box. */
  lemma OverlapWithinArea(a: Box, b: Box)
    ensures OverlapWidth(a, b) * OverlapHeight(a, b) <= Area(a)
    ensures OverlapWidth(a, b) * OverlapHeight(a, b) <= Area(b)
  {
    ProductMonotone(OverlapWidth(a, b), MaxR(0.0, a.x2 - a.x1), OverlapHeight(a, b), MaxR(0.0, a.y2 - a.y1));
    ProductMonotone(OverlapWidth(a, b), MaxR(0.0, b.x2 - b.x1), OverlapHeight(a, b), MaxR(0.0, b.y2 - b.y1));
  }

  /** Area of the overlap. */
  function Intersection(a: Box, b: Box): real
  {
    OverlapWidth(a, b) * OverlapHeight(a, b)
  }

  /** The last two returns of `box_iou_xyxy`: zero unless both overlap and union
      are positive. */
  function Ratio(inter: real, union: real): real
  {
    if inter <= 0.0 then 0.0
    else if union <= 0.0 then 0.0
    else inter / union
  }

  /** `box_iou_xyxy(a, b)`: a value in [0, 1], positive exactly when the boxes overlap
      with positive width and height. */
  function Iou(a: Box, b: Box): (r: real)
    ensures 0.0 <= r <= 1.0
    ensures r > 0.0 <==> OverlapWidth(a, b) > 0.0 && OverlapHeight(a, b) > 0.0
  {
    var inter := Intersection(a, b);
    var union := Area(a) + Area(b) - inter;
    OverlapWithinArea(a, b);
    assert inter > 0.0 ==> 0.0 < inter / union <= 1.0 by {
      if inter > 0.0 {
        QuotientAtMostOne(inter, union);
      }
    }
    Ratio(inter, union)
  }

  /** IoU does not depend on the order of its arguments. */
  lemma IouSymmetric(a: Box, b: Box)
    ensures Iou(a, b) == Iou(b, a)
  {
    assert OverlapWidth(b, a) == OverlapWidth(a, b) && OverlapHeight(b, a) == OverlapHeight(a, b);
    assert Intersection(b, a) == Intersection(a, b);
  }

  /** A box of positive area overlaps itself completely. */
  lemma IouSelf(a: Box)
    requires a.x1 < a.x2 && a.y1 < a.y2
    ensures Iou(a, a) == 1.0
  {
    var iw := OverlapWidth(a, a);
    var ih := OverlapHeight(a, a);
    assert iw == a.x2 - a.x1 && ih == a.y2 - a.y1;
    assert iw * ih > 0.0;
    assert Area(a) == Intersection(a, a);
  }
}
