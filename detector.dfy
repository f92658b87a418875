/** The per-frame person detector of cv/detector.py: an entry is reported on the frame
    where the person count rises from zero, and a camera source given on the command
    line is a device index when it is all digits. The model's boxes arrive as a count;
    the timestamp arrives as a value. */
module PersonDetector {
  import opened Wrappers
  import opened PyText

  /** What one frame yields (the pixels are not kept). */
  datatype DetectionResult = DetectionResult(roomId: string, timestamp: int, personCount: nat, entryEvent: bool)

  /** `person_count`: the number of person boxes, 0 when the model returned no result
      or no boxes. */
  function PersonCount(boxes: Option<nat>): (n: nat)
    ensures boxes.None? ==> n == 0
    ensures boxes.Some? ==> n == boxes.value
  {
    if boxes.Some? then boxes.value else 0
  }

  /** The entry rule: the previous count was zero and this one is not. */
  predicate IsEntry(previous: nat, current: nat) {
    previous == 0 && current > 0
  }

  /** The events reported for a run of frame counts, starting from a previous count of
      `start`. */
  function EntryEvents(start: nat, counts: seq<nat>): (events: seq<bool>)
    ensures |events| == |counts|
  {
    if |counts| == 0 then []
    else
      var n := |counts| - 1;
      EntryEvents(start, counts[..n]) + [IsEntry(if n == 0 then start else counts[n - 1], counts[n])]
  }

  /** The count a frame is compared with: `start` for the first, the frame before
      otherwise. */
  function PreviousAt(start: nat, counts: seq<nat>, i: nat): nat
    requires i < |counts|
  {
    if i == 0 then start else counts[i - 1]
  }

  /** Frame i reports an entry exactly when the count before it was 0 and its own is
      positive. */
  lemma {:induction false} EntryEventAt(start: nat, counts: seq<nat>, i: nat)
    requires i < |counts|
    ensures EntryEvents(start, counts)[i] <==> IsEntry(PreviousAt(start, counts, i), counts[i])
  {
    var n := |counts| - 1;
    if i < n {
      EntryEventAt(start, counts[..n], i);
      assert counts[..n][i] == counts[i];
      assert i > 0 ==> counts[..n][i - 1] == counts[i - 1];
    }
  }

  /** From a fresh detector, the first frame with anyone in it is an entry. */
  lemma FirstPersonIsEntry(counts: seq<nat>, i: nat)
    requires i < |counts| && counts[i] > 0
    requires forall j :: 0 <= j < i ==> counts[j] == 0
    ensures EntryEvents(0, counts)[i]
  {
    EntryEventAt(0, counts, i);
  }

  /** Between two entries there is a frame with nobody in it. */
  lemma ZeroBetweenEntries(start: nat, counts: seq<nat>, i: nat, j: nat)
    requires i < j < |counts|
    requires EntryEvents(start, counts)[i] && EntryEvents(start, counts)[j]
    ensures exists k :: i < k < j && counts[k] == 0
  {
    EntryEventAt(start, counts, i);
    EntryEventAt(start, counts, j);
    assert counts[j - 1] == 0;
  }

  /** The detector; the model itself is not part of this model. */
  class Detector {
    const roomId: string
    const confidence: real
    var previousPersonCount: nat

    constructor(roomId: string, confidence: real)
      ensures this.roomId == roomId && this.confidence == confidence
      ensures previousPersonCount == 0
    {
      this.roomId := roomId;
      this.confidence := confidence;
      previousPersonCount := 0;
    }

    /** `process_frame`, given the boxes the model found and the current time. */
    method ProcessFrame(boxes: Option<nat>, timestamp: int) returns (result: DetectionResult)
      modifies this
      ensures result.roomId == roomId && result.timestamp == timestamp
      ensures result.personCount == PersonCount(boxes)
      ensures result.entryEvent <==> IsEntry(old(previousPersonCount), result.personCount)
      ensures previousPersonCount == result.personCount
    {
      var personCount := if boxes.Some? then boxes.value else 0;
      var entryEvent := previousPersonCount == 0 && personCount > 0;
      previousPersonCount := personCount;
      result := DetectionResult(roomId, timestamp, personCount, entryEvent);
    }
  }

  /** A camera source: a device index or a path / URL. */
  datatype CameraSource = Device(index: nat) | Location(text: string)

  /** `str.isdigit()`: non-empty and every character a decimal digit. */
  predicate IsDigitString(s: string) {
    |s| > 0 && AllDigits(s)
  }

  /** `parse_camera_source`: an all-digit string is a device index, anything else
      (the empty string included) is kept as it is. */
  function ParseCameraSource(raw: string): (r: CameraSource)
    ensures r.Device? <==> IsDigitString(raw)
    ensures r.Device? ==> r.index == DecimalValue(raw)
    ensures r.Location? ==> r.text == raw
  {
    if IsDigitString(raw) then Device(DecimalValue(raw)) else Location(raw)
  }

  /** A device index written out in decimal parses back to itself. */
  lemma DeviceRoundTrip(n: nat)
    ensures ParseCameraSource(NatToString(n)) == Device(n)
  {
    DecimalOfNatToString(n);
  }
}
