/** Door detection on one frame (`split_wide_detection_box` and
    `detect_doors_from_frame`, cv/video_processing/door_detection.py:205-481;
    people_counter.py:552-827): suppression, optional splitting of merged boxes, the
    ordered acceptance filter with one diagnostic per detection, and left-to-right
    naming. The detector's outputs, the Hough segments of each region and the column
    energy peak of each wide box are inputs. */
module Doors {
  import opened Wrappers
  import opened PyNum
  import opened PyText
  import opened Geometry
  import opened Models
  import opened Boxes
  import opened Sorting
  import opened Suppression
  import opened Prompts
  import opened GateFit

  /** The `--door-*` options and room defaults the detector reads. */
  datatype DoorOptions = DoorOptions(
    maxDoors: int,
    minWidth: int,
    maxHeightRatio: real,
    negativeIou: real,
    negativeConf: real,
    nmsIou: real,
    requireEdge: bool,
    splitWide: bool,
    splitRatio: real,
    lineOffset: int,
    gateMaxAngle: real,
    gateMinBottomRatio: real,
    direction: Direction,
    lineMargin: int,
    initialOccupancy: int,
    lineThickness: int)

  /** What the column-energy analysis of a wide box yields: the argmax inside the
      central band, and whether that peak clears `mean + 0.6 * std`. */
  datatype Peak = Peak(localIndex: nat, strong: bool)

  /** The clamped integer box `max(0, min(w - 1, int(v)))` used by the split. */
  function ClampX(v: real, w: int): int { Clamp(Trunc(v), 0, w - 1) }

  /** `split_wide_detection_box`: the box itself, or two parts meeting at the
      divider. */
  function SplitWideBox(w: int, h: int, box: Box, minWidth: int, splitRatio: real, peak: Peak)
    : (parts: seq<Box>)
    ensures |parts| == 1 || |parts| == 2
    ensures |parts| == 1 ==> parts == [box]
    ensures |parts| == 2 ==>
      parts[0].x2 == parts[1].x1 &&
      parts[0].x1 == ClampX(box.x1, w) as real && parts[1].x2 == ClampX(box.x2, w) as real &&
      parts[0].x2 - parts[0].x1 >= Max(12, minWidth) as real &&
      parts[1].x2 - parts[1].x1 >= Max(12, minWidth) as real &&
      parts[0].y1 == parts[1].y1 == ClampX(box.y1, h) as real &&
      parts[0].y2 == parts[1].y2 == ClampX(box.y2, h) as real
  {
    var x1 := ClampX(box.x1, w);
    var x2 := ClampX(box.x2, w);
    var y1 := ClampX(box.y1, h);
    var y2 := ClampX(box.y2, h);
    var bw := x2 - x1;
    var bh := y2 - y1;
    if bw <= 0 || bh <= 0 then [box]
    else if bw as real / bh as real < MaxR(1.0, splitRatio) then [box]
    else if bw < 8 then [box]
    else
      var left := Trunc(bw as real * 0.25);
      var right := Trunc(bw as real * 0.75);
      if right <= left + 2 then [box]
      else if !peak.strong then [box]
      else
        var splitX := x1 + left + peak.localIndex;
        var minPart := Max(12, minWidth);
        if splitX - x1 < minPart || x2 - splitX < minPart then [box]
        else [Box(x1 as real, y1 as real, splitX as real, y2 as real),
              Box(splitX as real, y1 as real, x2 as real, y2 as real)]
  }

  /** Lines 305-314: every detection replaced by its parts, confidence and prompt kept. */
  function SplitAll(w: int, h: int, dets: seq<Detection>, opts: DoorOptions, peakFor: Box -> Peak)
    : (r: seq<Detection>)
    ensures |dets| <= |r| <= 2 * |dets|
  {
    if |dets| == 0 then []
    else
      var n := |dets| - 1;
      var d := dets[n];
      var parts := SplitWideBox(w, h, d.box, opts.minWidth, opts.splitRatio, peakFor(d.box));
      SplitAll(w, h, dets[..n], opts, peakFor) + SplitParts(d, parts)
  }

  function SplitParts(d: Detection, parts: seq<Box>): (r: seq<Detection>)
    ensures |r| == |parts|
    ensures forall i :: 0 <= i < |r| ==> r[i] == Detection(d.conf, parts[i], d.prompt)
  {
    if |parts| == 0 then [] else [Detection(d.conf, parts[0], d.prompt)] + SplitParts(d, parts[1..])
  }

  lemma SplitPartsSnoc(d: Detection, parts: seq<Box>, j: nat)
    requires j < |parts|
    ensures SplitParts(d, parts[..j + 1]) == SplitParts(d, parts[..j]) + [Detection(d.conf, parts[j], d.prompt)]
  {
    var a := SplitParts(d, parts[..j + 1]);
    var b := SplitParts(d, parts[..j]) + [Detection(d.conf, parts[j], d.prompt)];
    assert |a| == |b|;
    forall i | 0 <= i < |a| ensures a[i] == b[i] {
      assert parts[..j + 1][i] == parts[i];
      if i < j {
        assert parts[..j][i] == parts[i];
      }
    }
  }

  /** The inner loop of lines 313-314: one detection's parts appended to `out`. */
  method AppendParts(out: seq<Detection>, d: Detection, parts: seq<Box>) returns (out': seq<Detection>)
    ensures out' == out + SplitParts(d, parts)
  {
    out' := out;
    for j := 0 to |parts|
      invariant out' == out + SplitParts(d, parts[..j])
    {
      SplitPartsSnoc(d, parts, j);
      out' := out' + [Detection(d.conf, parts[j], d.prompt)];
    }
    assert parts[..|parts|] == parts;
  }

  method SplitDetections(w: int, h: int, dets: seq<Detection>, opts: DoorOptions, peakFor: Box -> Peak)
    returns (out: seq<Detection>)
    ensures out == SplitAll(w, h, dets, opts, peakFor)
  {
    out := [];
    for i := 0 to |dets|
      invariant out == SplitAll(w, h, dets[..i], opts, peakFor)
    {
      assert dets[..i + 1][..i] == dets[..i];
      var d := dets[i];
      var parts := SplitWideBox(w, h, d.box, opts.minWidth, opts.splitRatio, peakFor(d.box));
      out := AppendParts(out, d, parts);
    }
    assert dets[..|dets|] == dets;
  }

  /** The acceptance checks of lines 323-411, each given the earlier ones passed. */
  predicate AtCapacity(accepted: nat, opts: DoorOptions) {
    accepted >= Max(1, opts.maxDoors)
  }

  predicate TooNarrowBox(d: Detection, width: int, opts: DoorOptions) {
    var xs := ClampSegment(Trunc(d.box.x1), Trunc(d.box.x2), width);
    xs.1 - xs.0 < opts.minWidth
  }

  predicate TooTallBox(d: Detection, height: int, opts: DoorOptions)
    requires height > 0
  {
    MaxR(1.0, d.box.y2 - d.box.y1) / height as real > ClampR(opts.maxHeightRatio, 0.0, 1.0)
  }

  predicate OverlapsNegative(d: Detection, negatives: seq<Box>, opts: DoorOptions) {
    exists k :: 0 <= k < |negatives| && Iou(d.box, negatives[k]) >= ClampR(opts.negativeIou, 0.0, 1.0)
  }

  /** The gate `fit_gate_line_from_box` gives for a detection, from the Hough segments of
      its region. */
  function GateFor(d: Detection, width: int, height: int, opts: DoorOptions,
                   houghFor: (int, int, int, int) -> seq<HoughSegment>): Gate
  {
    var x1, y1, x2, y2 := Trunc(d.box.x1), Trunc(d.box.y1), Trunc(d.box.x2), Trunc(d.box.y2);
    FitGate(width, height, x1, y1, x2, y2, opts.lineOffset, opts.gateMaxAngle, opts.gateMinBottomRatio,
            houghFor(x1, y1, x2, y2))
  }

  /** The gate fitted for each detection, in order. The fit has no side effect, so fitting
      every detection up front and reading only the gates of those that pass the first
      four checks gives the loop's outcome. */
  function GatesFor(dets: seq<Detection>, width: int, height: int, opts: DoorOptions,
                    houghFor: (int, int, int, int) -> seq<HoughSegment>): (gs: seq<Gate>)
    ensures |gs| == |dets|
  {
    seq(|dets|, i requires 0 <= i < |dets| => GateFor(dets[i], width, height, opts, houghFor))
  }

  /** The reason recorded for one detection: the first check that fails, in the order
      capacity, width, height, negative overlap, threshold edge. */
  function Verdict(accepted: nat, d: Detection, negatives: seq<Box>, width: int, height: int,
                   opts: DoorOptions, gate: Gate): (r: Reason)
    requires height > 0
    ensures r.Accepted? ==> !AtCapacity(accepted, opts)
    ensures r.Accepted? ==> r.source == gate.source && (opts.requireEdge ==> r.source == Edge)
  {
    if AtCapacity(accepted, opts) then MaxDoorsReached
    else if TooNarrowBox(d, width, opts) then TooNarrow
    else if TooTallBox(d, height, opts) then TooTallForDoor
    else if OverlapsNegative(d, negatives, opts) then OverlapsNegativePrompt
    else if opts.requireEdge && gate.source != Edge then MissingThresholdEdge
    else Accepted(gate.source)
  }

  /** Each reason holds exactly when every earlier check passed and its own failed. */
  lemma VerdictOrder(accepted: nat, d: Detection, negatives: seq<Box>, width: int, height: int,
                     opts: DoorOptions, gate: Gate)
    requires height > 0
    ensures var r := Verdict(accepted, d, negatives, width, height, opts, gate);
      (r == MaxDoorsReached <==> AtCapacity(accepted, opts)) &&
      (r == TooNarrow <==> !AtCapacity(accepted, opts) && TooNarrowBox(d, width, opts)) &&
      (r == TooTallForDoor <==>
        !AtCapacity(accepted, opts) && !TooNarrowBox(d, width, opts) && TooTallBox(d, height, opts)) &&
      (r == OverlapsNegativePrompt <==>
        !AtCapacity(accepted, opts) && !TooNarrowBox(d, width, opts) && !TooTallBox(d, height, opts) &&
        OverlapsNegative(d, negatives, opts)) &&
      (r == MissingThresholdEdge <==>
        !AtCapacity(accepted, opts) && !TooNarrowBox(d, width, opts) && !TooTallBox(d, height, opts) &&
        !OverlapsNegative(d, negatives, opts) && opts.requireEdge && gate.source != Edge) &&
      (r.Accepted? <==>
        !AtCapacity(accepted, opts) && !TooNarrowBox(d, width, opts) && !TooTallBox(d, height, opts) &&
        !OverlapsNegative(d, negatives, opts) && !(opts.requireEdge && gate.source != Edge))
  {
  }

  /** The diagnostic record of one detection. */
  function CandidateOf(d: Detection, reason: Reason): DoorCandidate
  {
    DoorCandidate(Trunc(d.box.x1), Trunc(d.box.y1), Trunc(d.box.x2), Trunc(d.box.y2),
                  d.conf, d.prompt, reason.Accepted?, reason)
  }

  /** The room an accepted detection becomes, still unnamed. */
  function RoomOf(gate: Gate, opts: DoorOptions): RoomConfig
  {
    RoomConfig("", gate.x1, gate.y1, gate.x2, gate.y2, opts.direction, opts.lineMargin,
               opts.initialOccupancy, Max(1, opts.lineThickness))
  }

  function CountAccepted(cands: seq<DoorCandidate>): nat
  {
    if |cands| == 0 then 0
    else CountAccepted(cands[..|cands| - 1]) + (if cands[|cands| - 1].accepted then 1 else 0)
  }

  /** The acceptance loop (lines 318-437): one candidate per detection, one room per
      accepted candidate; `gates[i]` is the gate fitted for `dets[i]`. */
  function AcceptAll(dets: seq<Detection>, gates: seq<Gate>, negatives: seq<Box>, width: int, height: int,
                     opts: DoorOptions)
    : (r: (seq<RoomConfig>, seq<DoorCandidate>))
    requires height > 0 && |gates| == |dets|
    ensures |r.1| == |dets|
  {
    if |dets| == 0 then ([], [])
    else
      var n := |dets| - 1;
      var prev := AcceptAll(dets[..n], gates[..n], negatives, width, height, opts);
      var reason := Verdict(|prev.0|, dets[n], negatives, width, height, opts, gates[n]);
      var cands := prev.1 + [CandidateOf(dets[n], reason)];
      if reason.Accepted? then (prev.0 + [RoomOf(gates[n], opts)], cands)
      else (prev.0, cands)
  }

  /** One more detection through the loop. */
  lemma AcceptStep(dets: seq<Detection>, gates: seq<Gate>, i: nat, negatives: seq<Box>, width: int, height: int,
                   opts: DoorOptions)
    requires height > 0 && |gates| == |dets| && i < |dets|
    ensures var prev := AcceptAll(dets[..i], gates[..i], negatives, width, height, opts);
      var reason := Verdict(|prev.0|, dets[i], negatives, width, height, opts, gates[i]);
      AcceptAll(dets[..i + 1], gates[..i + 1], negatives, width, height, opts) ==
        (if reason.Accepted? then prev.0 + [RoomOf(gates[i], opts)] else prev.0,
         prev.1 + [CandidateOf(dets[i], reason)])
  {
    assert dets[..i + 1][..i] == dets[..i];
    assert gates[..i + 1][..i] == gates[..i];
  }

  /** There is one room per accepted candidate, and never more than `max(1, max_doors)`. */
  lemma {:induction false} AcceptCount(dets: seq<Detection>, gates: seq<Gate>, negatives: seq<Box>, width: int,
                                       height: int, opts: DoorOptions)
    requires height > 0 && |gates| == |dets|
    ensures var r := AcceptAll(dets, gates, negatives, width, height, opts);
      |r.0| == CountAccepted(r.1) && |r.0| <= Max(1, opts.maxDoors)
  {
    if |dets| > 0 {
      var n := |dets| - 1;
      AcceptCount(dets[..n], gates[..n], negatives, width, height, opts);
      var prev := AcceptAll(dets[..n], gates[..n], negatives, width, height, opts);
      var r := AcceptAll(dets, gates, negatives, width, height, opts);
      assert r.1[..n] == prev.1;
    }
  }

  /** The i-th candidate records the i-th detection's truncated box, confidence and prompt,
      with the verdict of the checks given the number of detections accepted before it. */
  lemma {:induction false} AcceptCandidates(dets: seq<Detection>, gates: seq<Gate>, negatives: seq<Box>, width: int,
                                            height: int, opts: DoorOptions)
    requires height > 0 && |gates| == |dets|
    ensures var r := AcceptAll(dets, gates, negatives, width, height, opts);
      forall i :: 0 <= i < |dets| ==>
        r.1[i] == CandidateOf(dets[i], Verdict(CountAccepted(r.1[..i]), dets[i], negatives, width, height, opts, gates[i]))
  {
    if |dets| > 0 {
      var n := |dets| - 1;
      AcceptCandidates(dets[..n], gates[..n], negatives, width, height, opts);
      AcceptCount(dets[..n], gates[..n], negatives, width, height, opts);
      var prev := AcceptAll(dets[..n], gates[..n], negatives, width, height, opts);
      var r := AcceptAll(dets, gates, negatives, width, height, opts);
      assert r.1[..n] == prev.1;
      forall i | 0 <= i < |dets|
        ensures r.1[i] == CandidateOf(dets[i], Verdict(CountAccepted(r.1[..i]), dets[i], negatives, width, height, opts, gates[i]))
      {
        if i < n {
          assert dets[..n][i] == dets[i] && gates[..n][i] == gates[i];
          assert r.1[i] == prev.1[i];
          assert r.1[..i] == prev.1[..i];
        } else {
          assert r.1[..i] == prev.1;
        }
      }
    }
  }

  /** The room is the one some fitted gate makes. */
  predicate FromGates(room: RoomConfig, gates: seq<Gate>, opts: DoorOptions) {
    exists i :: 0 <= i < |gates| && room == RoomOf(gates[i], opts)
  }

  /** Every room is unnamed, with the configured direction and a thickness of at least 1,
      and made from one of the gates. */
  predicate RoomsFromGates(rooms: seq<RoomConfig>, gates: seq<Gate>, opts: DoorOptions) {
    forall k :: 0 <= k < |rooms| ==>
      rooms[k].roomId == "" && rooms[k].direction == opts.direction && rooms[k].lineThickness >= 1 &&
      FromGates(rooms[k], gates, opts)
  }

  /** Every room is unnamed, with the configured direction and a thickness of at least 1,
      and its gate is the gate of some detection. */
  lemma {:induction false} AcceptRooms(dets: seq<Detection>, gates: seq<Gate>, negatives: seq<Box>, width: int,
                                       height: int, opts: DoorOptions)
    requires height > 0 && |gates| == |dets|
    ensures RoomsFromGates(AcceptAll(dets, gates, negatives, width, height, opts).0, gates, opts)
  {
    if |dets| > 0 {
      var n := |dets| - 1;
      AcceptRooms(dets[..n], gates[..n], negatives, width, height, opts);
      var prev := AcceptAll(dets[..n], gates[..n], negatives, width, height, opts);
      var r := AcceptAll(dets, gates, negatives, width, height, opts);
      assert RoomsFromGates(prev.0, gates[..n], opts);
      forall k | 0 <= k < |r.0|
        ensures FromGates(r.0[k], gates, opts)
      {
        if k < |prev.0| {
          assert FromGates(prev.0[k], gates[..n], opts);
          var i :| 0 <= i < n && prev.0[k] == RoomOf(gates[..n][i], opts);
          assert r.0[k] == RoomOf(gates[i], opts);
        } else {
          assert r.0[k] == RoomOf(gates[n], opts);
        }
      }
    }
  }

  /** An accepted candidate carries the source of its detection's gate; with the edge
      requirement on, that source is always the edge fit. */
  lemma AcceptedReasons(dets: seq<Detection>, gates: seq<Gate>, negatives: seq<Box>, width: int, height: int,
                        opts: DoorOptions, i: nat)
    requires height > 0 && |gates| == |dets| && i < |dets|
    requires AcceptAll(dets, gates, negatives, width, height, opts).1[i].accepted
    ensures AcceptAll(dets, gates, negatives, width, height, opts).1[i].reason == Accepted(gates[i].source)
    ensures opts.requireEdge ==> gates[i].source == Edge
  {
    AcceptCandidates(dets, gates, negatives, width, height, opts);
  }

  /** Lines 368-378: whether the box overlaps a negative box by at least the clamped
      `door_negative_iou`. */
  method OverlapsAnyNegative(d: Detection, negatives: seq<Box>, opts: DoorOptions) returns (overlaps: bool)
    ensures overlaps <==> OverlapsNegative(d, negatives, opts)
  {
    var negIou := ClampR(opts.negativeIou, 0.0, 1.0);
    overlaps := false;
    var k := 0;
    while k < |negatives|
      invariant 0 <= k <= |negatives|
      invariant overlaps <==> exists j :: 0 <= j < k && Iou(d.box, negatives[j]) >= negIou
    {
      if Iou(d.box, negatives[k]) >= negIou {
        overlaps := true;
      }
      k := k + 1;
    }
  }

  /** The body of the acceptance loop for one detection, `accepted` rooms already taken:
      its reason, and for an accepted detection the gate fitted for it. The gate is
      fitted only once the first four checks have passed. */
  method JudgeDetection(accepted: nat, d: Detection, negatives: seq<Box>, width: int, height: int,
                        opts: DoorOptions, houghFor: (int, int, int, int) -> seq<HoughSegment>)
    returns (reason: Reason, gate: Option<Gate>)
    requires height > 0
    ensures reason == Verdict(accepted, d, negatives, width, height, opts, GateFor(d, width, height, opts, houghFor))
    ensures reason.Accepted? ==> gate == Some(GateFor(d, width, height, opts, houghFor))
  {
    if accepted >= Max(1, opts.maxDoors) {
      return MaxDoorsReached, None;
    }
    var xs := ClampSegment(Trunc(d.box.x1), Trunc(d.box.x2), width);
    if xs.1 - xs.0 < opts.minWidth {
      return TooNarrow, None;
    }
    var maxHeightRatio := ClampR(opts.maxHeightRatio, 0.0, 1.0);
    var candH := MaxR(1.0, d.box.y2 - d.box.y1);
    if candH / height as real > maxHeightRatio {
      return TooTallForDoor, None;
    }
    var overlaps := OverlapsAnyNegative(d, negatives, opts);
    if overlaps {
      return OverlapsNegativePrompt, None;
    }
    var x1, y1, x2, y2 := Trunc(d.box.x1), Trunc(d.box.y1), Trunc(d.box.x2), Trunc(d.box.y2);
    var g := FitGateLine(width, height, x1, y1, x2, y2, opts.lineOffset, opts.gateMaxAngle,
                         opts.gateMinBottomRatio, houghFor(x1, y1, x2, y2));
    if opts.requireEdge && g.source != Edge {
      return MissingThresholdEdge, None;
    }
    return Accepted(g.source), Some(g);
  }

  /** Lines 318-437: every detection judged in order, its candidate recorded, and a room
      added for each accepted one. */
  method AcceptDetections(dets: seq<Detection>, negatives: seq<Box>, width: int, height: int, opts: DoorOptions,
                          houghFor: (int, int, int, int) -> seq<HoughSegment>)
    returns (rooms: seq<RoomConfig>, cands: seq<DoorCandidate>)
    requires height > 0
    ensures (rooms, cands) == AcceptAll(dets, GatesFor(dets, width, height, opts, houghFor), negatives, width, height, opts)
  {
    ghost var gates := GatesFor(dets, width, height, opts, houghFor);
    rooms, cands := [], [];
    for i := 0 to |dets|
      invariant (rooms, cands) == AcceptAll(dets[..i], gates[..i], negatives, width, height, opts)
    {
      AcceptStep(dets, gates, i, negatives, width, height, opts);
      var d := dets[i];
      var reason, gate := JudgeDetection(|rooms|, d, negatives, width, height, opts, houghFor);
      assert gates[i] == GateFor(d, width, height, opts, houghFor);
      if reason.Accepted? {
        rooms := rooms + [RoomOf(gate.value, opts)];
      }
      cands := cands + [CandidateOf(d, reason)];
    }
    assert dets[..|dets|] == dets;
    assert gates[..|dets|] == gates;
  }

  /** Sort key of line 458: the gate's horizontal midpoint. */
  function Midpoint(room: RoomConfig): real { (room.gateX1 + room.gateX2) as real / 2.0 }

  /** `room_{n}`. */
  function RoomName(n: nat): string { "room_" + NatToString(n) }

  /** Distinct positions get distinct names. */
  lemma RoomNamesDistinct(m: nat, n: nat)
    ensures RoomName(m) == RoomName(n) <==> m == n
  {
    NatToStringInjective(m, n);
    if RoomName(m) == RoomName(n) {
      assert NatToString(m) == RoomName(m)[5..];
      assert NatToString(n) == RoomName(n)[5..];
    }
  }

  /** Lines 459-460: the i-th room (from 0) becomes `room_{i + 1}`, nothing else changes. */
  method NameRooms(rooms: seq<RoomConfig>) returns (named: seq<RoomConfig>)
    ensures |named| == |rooms|
    ensures forall i :: 0 <= i < |rooms| ==> named[i] == rooms[i].(roomId := RoomName(i + 1))
  {
    named := rooms;
    for idx := 0 to |rooms|
      invariant |named| == |rooms|
      invariant forall i :: 0 <= i < idx ==> named[i] == rooms[i].(roomId := RoomName(i + 1))
      invariant forall i :: idx <= i < |rooms| ==> named[i] == rooms[i]
    {
      named := named[idx := named[idx].(roomId := RoomName(idx + 1))];
    }
  }

  /** The named rooms as a value. */
  function Named(rooms: seq<RoomConfig>): (r: seq<RoomConfig>)
    ensures |r| == |rooms|
    ensures forall i :: 0 <= i < |rooms| ==> r[i] == rooms[i].(roomId := RoomName(i + 1))
  {
    seq(|rooms|, i requires 0 <= i < |rooms| => rooms[i].(roomId := RoomName(i + 1)))
  }

  /** The suppression threshold `max(0.0, min(0.95, door_nms_iou))`. */
  function NmsThreshold(opts: DoorOptions): real { ClampR(opts.nmsIou, 0.0, 0.95) }

  /** The negative boxes: suppressed negative-prompt detections, collected only when
      there are negative prompts and a positive negative confidence. */
  function NegativeBoxes(negativePrompts: string, negativeRaw: seq<Detection>, opts: DoorOptions)
    : (r: seq<Box>)
    ensures Blank(negativePrompts) ==> r == []
    ensures opts.negativeConf <= 0.0 ==> r == []
  {
    NegativePromptsEmpty(negativePrompts);
    var negatives :=
      if |ParseNegativePrompts(negativePrompts)| > 0 && opts.negativeConf > 0.0
      then NmsSpec(negativeRaw, NmsThreshold(opts)) else [];
    seq(|negatives|, k requires 0 <= k < |negatives| => negatives[k].box)
  }

  /** The detections that reach the acceptance loop (lines 303-316). */
  function Candidates(w: int, h: int, detections: seq<Detection>, opts: DoorOptions, peakFor: Box -> Peak)
    : seq<Detection>
  {
    var kept := NmsSpec(detections, NmsThreshold(opts));
    var dets := if opts.splitWide then NmsSpec(SplitAll(w, h, kept, opts, peakFor), NmsThreshold(opts)) else kept;
    ByConfidence(dets)
  }

  /** `detect_doors_from_frame` on a frame `width` by `height`. */
  function DetectSpec(width: int, height: int, detections: seq<Detection>, negativePrompts: string,
                      negativeRaw: seq<Detection>, opts: DoorOptions,
                      houghFor: (int, int, int, int) -> seq<HoughSegment>, peakFor: Box -> Peak)
    : (seq<RoomConfig>, seq<DoorCandidate>)
    requires height > 0
  {
    var negatives := NegativeBoxes(negativePrompts, negativeRaw, opts);
    if |detections| == 0 then ([], [])
    else
      var dets := Candidates(width, height, detections, opts, peakFor);
      var accepted := AcceptAll(dets, GatesFor(dets, width, height, opts, houghFor), negatives, width, height, opts);
      if |accepted.0| == 0 then ([], accepted.1)
      else (Arranged(accepted.0), accepted.1)
  }

  /** Lines 458-460: the accepted rooms sorted by gate midpoint, then named in order. */
  function Arranged(rooms: seq<RoomConfig>): (r: seq<RoomConfig>)
    ensures |r| == |rooms|
  {
    Named(SortBy(rooms, Midpoint))
  }

  /** The arranged rooms run left to right, are named `room_1`, `room_2`, ... and each is
      one of the given rooms, renamed. */
  lemma ArrangedSorted(rooms: seq<RoomConfig>)
    ensures var r := Arranged(rooms);
      (forall i, j :: 0 <= i < j < |r| ==> Midpoint(r[i]) <= Midpoint(r[j])) &&
      (forall k :: 0 <= k < |r| ==> r[k].roomId == RoomName(k + 1)) &&
      (forall k :: 0 <= k < |r| ==> exists j :: 0 <= j < |rooms| && r[k] == rooms[j].(roomId := RoomName(k + 1)))
  {
    var sorted := SortBy(rooms, Midpoint);
    var r := Named(sorted);
    assert forall k :: 0 <= k < |r| ==> Midpoint(r[k]) == Midpoint(sorted[k]);
    forall k | 0 <= k < |r|
      ensures exists j :: 0 <= j < |rooms| && r[k] == rooms[j].(roomId := RoomName(k + 1))
    {
      assert sorted[k] in multiset(rooms);
      assert sorted[k] in rooms;
      var j :| 0 <= j < |rooms| && rooms[j] == sorted[k];
      assert r[k] == rooms[j].(roomId := RoomName(k + 1));
    }
  }

  /** Besides, the arranged rooms are a permutation of the given rooms, each renamed
      after its position. */
  lemma ArrangedProperties(rooms: seq<RoomConfig>)
    ensures var r := Arranged(rooms);
      (forall i, j :: 0 <= i < j < |r| ==> Midpoint(r[i]) <= Midpoint(r[j])) &&
      (forall k :: 0 <= k < |r| ==> r[k].roomId == RoomName(k + 1)) &&
      (forall k :: 0 <= k < |r| ==> exists j :: 0 <= j < |rooms| && r[k] == rooms[j].(roomId := RoomName(k + 1))) &&
      (exists s: seq<RoomConfig> :: multiset(s) == multiset(rooms) && |s| == |rooms| &&
         forall k :: 0 <= k < |r| ==> r[k] == s[k].(roomId := RoomName(k + 1)))
  {
    ArrangedSorted(rooms);
    var sorted := SortBy(rooms, Midpoint);
    var r := Named(sorted);
    assert forall k :: 0 <= k < |r| ==> r[k] == sorted[k].(roomId := RoomName(k + 1));
  }

  /** The re-sort of line 316 never reorders: suppression output is already ordered. */
  lemma ResortIsIdentity(dets: seq<Detection>, thr: real)
    ensures ByConfidence(NmsSpec(dets, thr)) == NmsSpec(dets, thr)
  {
    var r := NmsSpec(dets, thr);
    NmsProperties(dets, thr);
    assert SortedBy(r, NegConf);
    SortByOfSorted(r, NegConf);
  }

  /** A pass over no detections returns nothing; otherwise there is one candidate per
      detection left after suppression (and splitting), and at least one. */
  lemma DetectCandidates(width: int, height: int, detections: seq<Detection>, negativePrompts: string,
                         negativeRaw: seq<Detection>, opts: DoorOptions,
                         houghFor: (int, int, int, int) -> seq<HoughSegment>, peakFor: Box -> Peak)
    requires height > 0
    ensures var r := DetectSpec(width, height, detections, negativePrompts, negativeRaw, opts, houghFor, peakFor);
      (|detections| == 0 ==> r == ([], [])) &&
      (|detections| > 0 ==> |r.1| == |Candidates(width, height, detections, opts, peakFor)| && |r.1| > 0)
  {
    if |detections| > 0 {
      CandidatesNonEmpty(width, height, detections, opts, peakFor);
      var negatives := NegativeBoxes(negativePrompts, negativeRaw, opts);
      var dets := Candidates(width, height, detections, opts, peakFor);
      var accepted := AcceptAll(dets, GatesFor(dets, width, height, opts, houghFor), negatives, width, height, opts);
      assert |accepted.1| == |dets|;
      assert DetectSpec(width, height, detections, negativePrompts, negativeRaw, opts, houghFor, peakFor).1 == accepted.1;
    }
  }

  /** Suppression and splitting never lose every detection. */
  lemma CandidatesNonEmpty(w: int, h: int, detections: seq<Detection>, opts: DoorOptions, peakFor: Box -> Peak)
    requires |detections| > 0
    ensures |Candidates(w, h, detections, opts, peakFor)| > 0
  {
    var kept := NmsSpec(detections, NmsThreshold(opts));
    NmsProperties(detections, NmsThreshold(opts));
    if opts.splitWide {
      NmsProperties(SplitAll(w, h, kept, opts, peakFor), NmsThreshold(opts));
    }
  }

  /** No room comes back exactly when every candidate was rejected. */
  lemma DetectNoRooms(width: int, height: int, detections: seq<Detection>, negativePrompts: string,
                      negativeRaw: seq<Detection>, opts: DoorOptions,
                      houghFor: (int, int, int, int) -> seq<HoughSegment>, peakFor: Box -> Peak)
    requires height > 0
    ensures var r := DetectSpec(width, height, detections, negativePrompts, negativeRaw, opts, houghFor, peakFor);
      |r.0| == 0 <==> forall i :: 0 <= i < |r.1| ==> !r.1[i].accepted
  {
    if |detections| > 0 {
      var dets := Candidates(width, height, detections, opts, peakFor);
      var gates := GatesFor(dets, width, height, opts, houghFor);
      var negatives := NegativeBoxes(negativePrompts, negativeRaw, opts);
      var accepted := AcceptAll(dets, gates, negatives, width, height, opts);
      AcceptCount(dets, gates, negatives, width, height, opts);
      if |accepted.0| == 0 {
        forall i | 0 <= i < |accepted.1| ensures !accepted.1[i].accepted {
          NoneAccepted(accepted.1, i);
        }
      } else if forall i :: 0 <= i < |accepted.1| ==> !accepted.1[i].accepted {
        CountNoneAccepted(accepted.1);
      }
    }
  }

  /** With no candidate accepted, none is counted. */
  lemma {:induction false} CountNoneAccepted(cands: seq<DoorCandidate>)
    requires forall i :: 0 <= i < |cands| ==> !cands[i].accepted
    ensures CountAccepted(cands) == 0
  {
    if |cands| > 0 {
      var n := |cands| - 1;
      assert forall i :: 0 <= i < n ==> cands[..n][i] == cands[i];
      CountNoneAccepted(cands[..n]);
    }
  }

  /** The rooms returned are at most `max(1, max_doors)`, ordered left to right by gate
      midpoint, named `room_1`, `room_2`, ... in that order, each with the configured
      direction. */
  lemma DetectRooms(width: int, height: int, detections: seq<Detection>, negativePrompts: string,
                    negativeRaw: seq<Detection>, opts: DoorOptions,
                    houghFor: (int, int, int, int) -> seq<HoughSegment>, peakFor: Box -> Peak)
    requires height > 0
    ensures var r := DetectSpec(width, height, detections, negativePrompts, negativeRaw, opts, houghFor, peakFor);
      |r.0| <= Max(1, opts.maxDoors) &&
      (forall i, j :: 0 <= i < j < |r.0| ==> Midpoint(r.0[i]) <= Midpoint(r.0[j])) &&
      (forall k :: 0 <= k < |r.0| ==> r.0[k].roomId == RoomName(k + 1) && r.0[k].direction == opts.direction)
  {
    if |detections| > 0 {
      var dets := Candidates(width, height, detections, opts, peakFor);
      var gates := GatesFor(dets, width, height, opts, houghFor);
      var negatives := NegativeBoxes(negativePrompts, negativeRaw, opts);
      var accepted := AcceptAll(dets, gates, negatives, width, height, opts);
      AcceptCount(dets, gates, negatives, width, height, opts);
      AcceptRooms(dets, gates, negatives, width, height, opts);
      ArrangedSorted(accepted.0);
    }
  }

  /** With no accepted candidate counted, none is accepted. */
  lemma {:induction false} NoneAccepted(cands: seq<DoorCandidate>, i: nat)
    requires CountAccepted(cands) == 0 && i < |cands|
    ensures !cands[i].accepted
  {
    var n := |cands| - 1;
    if i < n {
      assert cands[..n][i] == cands[i];
      NoneAccepted(cands[..n], i);
    }
  }

  /** Lines 264-481 with the model calls replaced by their outputs. */
  method DetectDoors(width: int, height: int, detections: seq<Detection>, negativePrompts: string,
                     negativeRaw: seq<Detection>, opts: DoorOptions,
                     houghFor: (int, int, int, int) -> seq<HoughSegment>, peakFor: Box -> Peak)
    returns (rooms: seq<RoomConfig>, cands: seq<DoorCandidate>)
    requires height > 0
    ensures (rooms, cands) == DetectSpec(width, height, detections, negativePrompts, negativeRaw, opts, houghFor, peakFor)
  {
    var negatives := NegativeBoxes(negativePrompts, negativeRaw, opts);
    if |detections| == 0 {
      return [], [];
    }
    var dets := Nms(detections, NmsThreshold(opts));
    if opts.splitWide {
      var parts := SplitDetections(width, height, dets, opts, peakFor);
      dets := Nms(parts, NmsThreshold(opts));
    }
    dets := ByConfidence(dets);
    assert dets == Candidates(width, height, detections, opts, peakFor);
    rooms, cands := AcceptDetections(dets, negatives, width, height, opts, houghFor);
    if |rooms| == 0 {
      return [], cands;
    }
    var sorted := SortBy(rooms, Midpoint);
    rooms := NameRooms(sorted);
    assert rooms == Named(sorted);
  }
}
