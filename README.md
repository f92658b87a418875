# People counter: a verified Dafny model

This project models the counting core of a video people counter. A person tracker
reports boxes frame by frame. For each room (a door with a counting gate) the counter
remembers which side of the gate each track was last seen on. A move from one stable
side to the other counts one entry or one exit, depending on the room's direction.

The rooms come from one of three places, in this order of precedence:

- a JSON configuration;
- automatic door detection on the first frame;
- a single counting line given on the command line.

Door detection is modelled without its models:

- The detector's boxes, the Hough segments found in each door box and the
  column-energy peak of a wide box are all inputs.
- The model covers the logic around them: non-max suppression, splitting of merged
  boxes, the ordered acceptance filter with one diagnostic record per detection,
  threshold-line fitting and its fallbacks, and naming rooms from left to right.
- Periodic re-detection can replace the room set. The model covers that rule too: it
  clears track memory only when the room signature changed, and it never lowers a
  counter.

Modules (one file each):

- `Wrappers`: Option and Result.
- `PyNum`, `PyText`: the Python built-ins the core uses (`max`/`min` clamps, `int()`
  truncation, `round()`, `str.strip`, `str.split`, decimal text).
- `Geometry`: side tests, crossing direction and segment clamping.
- `Models`: the record types.
- `Crossing`: the per-track, per-room crossing rule as a state machine, and what it
  guarantees over a whole run of readings.
- `Pipeline`: the counting session, as a class whose fields are reassigned frame by
  frame, and the door-refresh rule.
- `Boxes`: IoU.
- `Sorting`: stable sort with a key.
- `Suppression`: non-max suppression.
- `Prompts`: the prompt-list parser.
- `GateFit`: `fit_gate_line_from_box`.
- `Doors`: `detect_doors_from_frame` and the wide-box split.
- `RoomRegistry`: `load_rooms`.
- `PersonDetector`: `cv/detector.py`.

`people_counter.py` is an earlier single-file copy of `cv/video_processing`. Its
helpers, door detection, `load_rooms` and counting loop behave the same, so each is
modelled once. Where a row cites one location, the other copy says the same:

| `cv/video_processing` | `people_counter.py` |
|---|---|
| `geometry.py` | 291-354 |
| `door_detection.py` 13-103 | 357-450 |
| `door_detection.py` 125-138 | 472-486 |
| `door_detection.py` 167-481 | 514-827 |
| `room_config.py` | 830-916 |
| `pipeline.py` | 984-1099 and 1141-1142 |

The one difference is the signature of `side_of_gate`: in `people_counter.py` it takes a
`RoomConfig`. The room-signature comparison there is written inline
(people_counter.py:986-996, 1034-1046).

## Model

| member | source | states |
|---|---|---|
| PyNum.Clamp | cv/video_processing/door_detection.py:30-33 | `max(lo, min(hi, v))` is at least `lo`, at most `hi` when `lo <= hi`, and `v` itself when `v` is already in range |
| PyNum.ClampR | cv/video_processing/door_detection.py:320-321 | the float clamp of the thresholds: in `[lo, hi]`, identity inside the range |
| PyNum.Trunc | cv/video_processing/door_detection.py:326-329 | `int(x)` of a float truncates toward zero: `r <= x < r + 1` for `x >= 0`, `r - 1 < x <= r` below |
| PyNum.Round | cv/video_processing/door_detection.py:99-100 | `round(x)` is within 0.5 of `x`, and a tie goes to the even neighbour |
| PyText.Strip | cv/video_processing/door_detection.py:128 | `p.strip()` has no leading or trailing white space (Python's `str.isspace` set, Unicode separators included), and is empty exactly when `p` is all white space |
| PyText.StripMiddle | cv/video_processing/door_detection.py:128 | `p.strip()` is a contiguous middle part of `p` with only white space before and after it |
| PyText.Split | cv/video_processing/door_detection.py:128 | `s.split(",")` is never empty, no piece holds the separator, and joining the pieces gives `s` back |
| PyText.SplitJoin | cv/video_processing/door_detection.py:128 | splitting separator-free pieces joined by the separator gives the pieces back |
| PyText.NatToString | cv/video_processing/door_detection.py:460 | `str(n)` is a non-empty string of digits with no leading zero unless `n == 0` |
| PyText.DecimalOfNatToString | cv/detector.py:83 | `int(str(n)) == n` |
| PyText.NatToStringInjective | cv/video_processing/door_detection.py:459-460 | distinct numbers have distinct decimal texts |
| PyText.ParseInt | cv/video_processing/room_config.py:38-41 | `int(s)` succeeds exactly when `s.strip()` is an optional sign followed by at least one digit, and then yields the signed decimal value of `s.strip()` |
| PyText.ParseIntOfIntToString | cv/video_processing/room_config.py:38-41 | `int()` of the decimal text of any integer, padded with white space on both sides, gives that integer back |
| PyText.StripPadded | cv/video_processing/room_config.py:38-41 | stripping a stripped text padded with white space on both sides gives the text back |
| Geometry.SideOfLine | cv/video_processing/geometry.py:4-16 | -1 exactly when `y < line_y - margin`, +1 exactly when `y > line_y + margin` and not -1, otherwise 0 |
| Geometry.SideOfLineMonotone | cv/video_processing/geometry.py:12-16 | a lower point never gets a smaller side |
| Geometry.SideOfGate | cv/video_processing/geometry.py:19-44 | always in {-1, 0, 1}; 0 outside the gate's x-span widened by the margin; inside it, the y test against the interpolated gate y |
| Geometry.VerticalGateNeverClassifies | cv/video_processing/geometry.py:26-36 | for a vertical gate every point gets 0: the vertical branch can never return -1 or +1 |
| Geometry.HorizontalGateIsLine | cv/video_processing/geometry.py:38-44 | on a horizontal gate, within its span, `side_of_gate` equals `side_of_line` |
| Geometry.GateYSymmetric | cv/video_processing/geometry.py:38-40 | the interpolated gate y does not depend on the order of the end points |
| Geometry.GateEndpointSwap | cv/video_processing/geometry.py:19-44 | swapping the gate's end points never changes a side reading |
| Geometry.CrossingDirection | cv/video_processing/geometry.py:47-53 | "down" exactly for -1 to +1, "up" exactly for +1 to -1, None for every other pair |
| Geometry.StableTransitionHasDirection | cv/video_processing/geometry.py:47-53 | between two stable sides a direction exists exactly when the side changed, and reversing the move reverses the direction |
| Geometry.ClampSegment | cv/video_processing/geometry.py:56-62 | ordered end points in `[0, max(0, width)]`, which are the two clamped inputs |
| Geometry.ClampSegmentSymmetric | cv/video_processing/geometry.py:56-62 | the order of the two inputs does not matter |
| Geometry.ClampSegmentFixesInRange | cv/video_processing/geometry.py:56-62 | an ordered segment already inside the frame comes back unchanged |
| Geometry.ClampSegmentIdempotent | cv/video_processing/geometry.py:56-62 | clamping twice is clamping once |
| Models.NewRoomStats | cv/video_processing/models.py:26-29 | fresh counters are both 0 |
| Models.NewTrackState | cv/video_processing/models.py:6-10 | a fresh track remembers no side for any room |
| Models.ReasonTextInjective | cv/video_processing/door_detection.py:322-437 | distinct verdicts are written as distinct reason strings |
| Models.Occupancy | cv/video_processing/pipeline.py:197 | `max(0, initial + entered - left)`: never negative, at least the raw difference, and equal to it when it is not negative |
| Models.OccupancyMonotone | cv/video_processing/pipeline.py:197 | with the exits fixed, more entries never lower the displayed occupancy |
| Crossing.Step | cv/video_processing/pipeline.py:143-157 | a dead-zone reading changes nothing; the first stable reading becomes the baseline without counting; re-reading the same side counts nothing; an opposite stable reading counts exactly one entry or exit; only -1 or +1 is ever remembered |
| Crossing.RunRemembers | cv/video_processing/pipeline.py:143-157 | over any run of readings the remembered side stays unknown, -1 or +1 |
| Crossing.NetFromKnownSide | cv/video_processing/pipeline.py:143-157 | from a known side, entries minus exits is fixed by the start and end sides |
| Crossing.NetFromUnknown | cv/video_processing/pipeline.py:143-157 | from an unknown side nothing is counted until a baseline exists, and then the same relation holds against that baseline |
| Crossing.NetBounded | cv/video_processing/pipeline.py:143-157 | one track's entries minus exits at one room is -1, 0 or +1 between memory clears |
| Crossing.WindowNetBounded | cv/video_processing/pipeline.py:143-157 | the same bound holds over every window of consecutive readings |
| Crossing.CountsAlternate | cv/video_processing/pipeline.py:149-155 | between two entries of one track at one room there is an exit, and between two exits an entry |
| Crossing.DeadZoneIrrelevant | cv/video_processing/pipeline.py:145-157 | interleaving dead-zone readings changes neither the final memory nor the net count |
| Pipeline.RoomSignature | cv/video_processing/pipeline.py:14-26 | one signature entry per room |
| Pipeline.SignatureAt | cv/video_processing/pipeline.py:14-26 | entry k is room k's id, gate end points, direction and margin |
| Pipeline.SignatureEqualIff | cv/video_processing/pipeline.py:14-26 | two room lists have equal signatures exactly when they agree room by room on those fields; thickness and initial occupancy play no part |
| Pipeline.ApplyRoom | cv/video_processing/pipeline.py:133-157 | one room of the inner loop: that room's counters and memory follow the crossing rule, and every other room's counters and memory are unchanged |
| Pipeline.ObserveRooms | cv/video_processing/pipeline.py:133-157 | the loop over all rooms never lowers a counter, keeps the counter keys, and keeps every remembered side at -1 or +1 |
| Pipeline.ObserveTrackPreserves | cv/video_processing/pipeline.py:128-157 | observing one track creates its memory if new, keeps every other track's memory, and preserves the counter and side invariants |
| Pipeline.ObserveTracks | cv/video_processing/pipeline.py:124-157 | a whole frame of tracked boxes keeps the invariants and never lowers a counter |
| Pipeline.WithDefaults | cv/video_processing/pipeline.py:99-100 | `setdefault` for every room: existing counters kept, new room ids get zeroed counters, nothing else added |
| Pipeline.SetDefaults | cv/video_processing/pipeline.py:99-100 | the `setdefault` loop computes exactly `WithDefaults` |
| Pipeline.RefreshedValid | cv/video_processing/pipeline.py:97-107 | a refresh keeps the session invariant (counters for every room, sides -1 or +1, signature up to date) |
| Pipeline.RefreshProperties | cv/video_processing/pipeline.py:97-107 | an empty detection changes nothing; otherwise the larger-or-equal set is adopted, existing counters are kept, new ones start at zero, track memory is cleared exactly when the signature changed, and the lock is set on request |
| Pipeline.SmallerDetectionKeepsState | cv/video_processing/pipeline.py:98 | a detection with fewer doors than are in use leaves rooms, memory and counters alone |
| Pipeline.DisplayedOccupancy | cv/video_processing/pipeline.py:197 | the displayed occupancy is never negative and is the raw count when that is not negative |
| Pipeline.EffectiveFps | cv/video_processing/pipeline.py:39 | a reported frame rate of 0 falls back to 30 |
| Pipeline.RefreshEvery | cv/video_processing/pipeline.py:84-87 | the refresh period is at least 1; from frames it is `max(1, frames)`; from seconds it is within 0.5 of `max(0.05, seconds) * fps` (or 1) |
| Pipeline.CountRoom | cv/video_processing/pipeline.py:134-157 | the source's branch-by-branch update equals `ApplyRoom` |
| Pipeline.CountRooms | cv/video_processing/pipeline.py:133-157 | the loop over the rooms for one track computes exactly `ObserveRooms` |
| Pipeline.RefreshSession | cv/video_processing/pipeline.py:97-107 | the refresh steps (choose the set, `setdefault`, compare signatures, lock) compute exactly `Refreshed` |
| Pipeline.PeopleCounter.constructor | cv/video_processing/pipeline.py:52-66 | zeroed counters for the starting rooms, no track memory, and doors locked at start only for auto-detection with locking and at least one door |
| Pipeline.PeopleCounter.Observe | cv/video_processing/pipeline.py:131-157 | one track's update in place: memory and counters become `ObserveTrack` of the old state; rooms, signature and lock are untouched; the invariant holds |
| Pipeline.PeopleCounter.ObserveFrame | cv/video_processing/pipeline.py:124-157 | a frame's boxes processed in order give `ObserveTracks` of the old state |
| Pipeline.PeopleCounter.Refresh | cv/video_processing/pipeline.py:97-110 | the new state is `Refreshed` of the old one, whose properties are proved above |
| Pipeline.PeopleCounter.Tick | cv/video_processing/pipeline.py:78-110 | only an auto-detecting, unlocked session refreshes, and only on frames that are a multiple of the refresh period |
| Pipeline.PeopleCounter.DisplayedOccupancy | cv/video_processing/pipeline.py:195-197 | the shown occupancy of room k is at least its raw count |
| Boxes.Area | cv/video_processing/door_detection.py:180-181 | a box area, with inverted sides counted as zero, is never negative |
| Boxes.OverlapWithinArea | cv/video_processing/door_detection.py:171-181 | the intersection is no larger than either box |
| Boxes.Iou | cv/video_processing/door_detection.py:167-185 | IoU lies in [0, 1] and is positive exactly when the boxes overlap in both axes |
| Boxes.IouSymmetric | cv/video_processing/door_detection.py:167-185 | IoU does not depend on argument order |
| Boxes.IouSelf | cv/video_processing/door_detection.py:167-185 | a box of positive area has IoU 1 with itself |
| Sorting.Insert | cv/video_processing/door_detection.py:458 | inserting adds exactly the one element and puts it first or after the old head |
| Sorting.InsertSorted | cv/video_processing/door_detection.py:458 | inserting into a key-ordered list keeps it key-ordered |
| Sorting.SortBy | cv/video_processing/door_detection.py:458 | `sort(key=...)` returns a key-ordered permutation of its input |
| Sorting.SortByOfSorted | cv/video_processing/door_detection.py:316 | sorting a key-ordered list changes nothing |
| Sorting.SortByStable | cv/video_processing/door_detection.py:458 | the sort is stable: elements with equal keys keep their input order |
| Suppression.ByConfidence | cv/video_processing/door_detection.py:195 | `sorted(..., reverse=True)` by confidence is a permutation with confidences non-increasing |
| Suppression.Greedy | cv/video_processing/door_detection.py:196-202 | the keep loop keeps no more than it is given and always keeps the first candidate |
| Suppression.GreedySubsequence | cv/video_processing/door_detection.py:196-202 | the kept list is the candidates with some dropped, in order |
| Suppression.GreedyApart | cv/video_processing/door_detection.py:196-202 | every two kept boxes overlap below the threshold |
| Suppression.GreedyCovers | cv/video_processing/door_detection.py:196-202 | every candidate is kept or overlaps a kept box at or above the threshold |
| Suppression.GreedyOrdered | cv/video_processing/door_detection.py:196-202 | confidence order is preserved |
| Suppression.NmsProperties | cv/video_processing/door_detection.py:188-202 | NMS output is pairwise below the threshold, ordered by confidence, drawn from the input, covers every input box, and is empty only for empty input |
| Suppression.GreedyOfApart | cv/video_processing/door_detection.py:196-202 | with no overlaps the keep loop keeps everything |
| Suppression.NmsIdempotent | cv/video_processing/door_detection.py:188-202 | suppressing the output again changes nothing |
| Suppression.AnyOverlap | cv/video_processing/door_detection.py:199 | the `any(...)` loop finds an overlap exactly when one exists |
| Suppression.Nms | cv/video_processing/door_detection.py:188-202 | the loop computes exactly `NmsSpec` |
| Prompts.Stripped | cv/video_processing/door_detection.py:128 | `[p.strip() for p in parts]` keeps the length, holds `parts[i].strip()` at index `i`, and every element is stripped |
| Prompts.StripBlank | cv/video_processing/door_detection.py:128 | `p.strip()` is empty exactly when `p` is all white space |
| Prompts.StrippedBlank | cv/video_processing/door_detection.py:128 | every stripped part is empty exactly when every part is all white space |
| Prompts.NonEmpty | cv/video_processing/door_detection.py:128 | the `if p.strip()` filter keeps exactly the non-empty texts, and is empty exactly when every text is empty |
| Prompts.NonEmptyAppend | cv/video_processing/door_detection.py:128 | filtering two runs of texts is filtering each, in order |
| Prompts.Pieces | cv/video_processing/door_detection.py:128 | the stripped non-blank pieces, none blank, empty exactly when every piece is blank |
| Prompts.PiecesMembers | cv/video_processing/door_detection.py:128 | every piece is some part stripped, and every part that strips to a non-empty text appears |
| Prompts.PiecesAppend | cv/video_processing/door_detection.py:128 | the pieces of two runs of parts are the pieces of the first run followed by those of the second, so the parts' order is kept |
| Prompts.PiecesSingle | cv/video_processing/door_detection.py:128 | one part gives `[p.strip()]`, or nothing when that is empty |
| Prompts.StrippedOfStripped | cv/video_processing/door_detection.py:128 | stripping already stripped texts changes nothing |
| Prompts.NonEmptyOfFilled | cv/video_processing/door_detection.py:128 | the filter keeps a list with no empty text as it is |
| Prompts.BlankSplit | cv/video_processing/door_detection.py:127-129 | all comma pieces are blank exactly when the whole text is only commas and space |
| Prompts.ParsePrompts | cv/video_processing/door_detection.py:125-131 | never empty: either the single default prompt or only non-blank stripped prompts |
| Prompts.PromptsFallback | cv/video_processing/door_detection.py:125-131 | the default prompt is used exactly when `--door-prompts` is blank |
| Prompts.ParseNegativePrompts | cv/video_processing/door_detection.py:134-138 | every negative prompt is non-blank and stripped |
| Prompts.NegativePromptsEmpty | cv/video_processing/door_detection.py:134-138 | there are no negative prompts exactly when the option is blank |
| Prompts.PiecesOfPrompts | cv/video_processing/door_detection.py:128 | a list of clean prompts passes through unchanged |
| Prompts.PromptsRoundTrip | cv/video_processing/door_detection.py:125-131 | clean prompts joined by commas parse back to the same list |
| GateFit.BestIndex | cv/video_processing/door_detection.py:55-77 | the chosen segment is eligible, scores strictly above every eligible segment before it and at least as high as every eligible segment |
| GateFit.ChosenIffEligible | cv/video_processing/door_detection.py:55-77 | a segment is chosen exactly when some segment passes the length, angle and bottom tests |
| GateFit.EligibleScoresAboveMinusOne | cv/video_processing/door_detection.py:56 | an eligible segment always beats the initial best score of -1 |
| GateFit.FitGate | cv/video_processing/door_detection.py:13-103 | x ends are the clamped box x's; y ends lie in the frame; a fallback gate is horizontal at `clamp(clamp(y2) - line_offset)`; a degenerate box always falls back |
| GateFit.EdgeNeedsEligibleSegment | cv/video_processing/door_detection.py:79-103 | an edge gate always comes from an eligible segment |
| GateFit.SelectSegment | cv/video_processing/door_detection.py:55-77 | the selection loop picks exactly the segment `BestIndex` names |
| GateFit.FitGateLine | cv/video_processing/door_detection.py:13-103 | the fit as the source runs it equals `FitGate` |
| Doors.SplitWideBox | cv/video_processing/door_detection.py:205-261 | one part (the box itself) or two parts that meet at the divider, span the clamped box, and are each at least `max(12, min_width)` wide |
| Doors.SplitAll | cv/video_processing/door_detection.py:303-315 | splitting gives between n and 2n detections |
| Doors.SplitParts | cv/video_processing/door_detection.py:313-314 | each part keeps its detection's confidence and prompt |
| Doors.AppendParts | cv/video_processing/door_detection.py:313-314 | the inner loop appends exactly one detection per part, with the source detection's confidence and prompt |
| Doors.SplitDetections | cv/video_processing/door_detection.py:304-315 | the split loop computes exactly `SplitAll` |
| Doors.GatesFor | cv/video_processing/door_detection.py:388-397 | one fitted gate per detection |
| Doors.Verdict | cv/video_processing/door_detection.py:322-437 | an accepted detection is under capacity and carries its gate's source, always "edge" when the edge is required |
| Doors.VerdictOrder | cv/video_processing/door_detection.py:322-411 | each rejection reason holds exactly when every earlier check passed and its own failed, and acceptance exactly when all passed |
| Doors.AcceptAll | cv/video_processing/door_detection.py:318-437 | one candidate per detection |
| Doors.AcceptStep | cv/video_processing/door_detection.py:322-437 | one more detection appends its candidate, and a room only when accepted |
| Doors.AcceptCount | cv/video_processing/door_detection.py:323-425 | one room per accepted candidate, never more than `max(1, max_doors)` |
| Doors.AcceptCandidates | cv/video_processing/door_detection.py:322-437 | candidate i carries detection i's truncated box, confidence and prompt, with the verdict given the number accepted before it |
| Doors.AcceptRooms | cv/video_processing/door_detection.py:413-425 | every room is unnamed, has the configured direction and a thickness of at least 1, and is made from a fitted gate |
| Doors.AcceptedReasons | cv/video_processing/door_detection.py:398-437 | an accepted candidate's reason is its gate's source, and with the edge requirement that source is "edge" |
| Doors.OverlapsAnyNegative | cv/video_processing/door_detection.py:370-372 | the negative-overlap loop finds an overlap exactly when one exists at the clamped IoU threshold |
| Doors.JudgeDetection | cv/video_processing/door_detection.py:322-411 | the source's early-continue checks give exactly `Verdict`, and the fitted gate when accepted |
| Doors.AcceptDetections | cv/video_processing/door_detection.py:318-437 | the acceptance loop computes exactly `AcceptAll` |
| Doors.RoomNamesDistinct | cv/video_processing/door_detection.py:459-460 | `room_{m}` and `room_{n}` are equal exactly when `m == n` |
| Doors.NameRooms | cv/video_processing/door_detection.py:459-460 | room i (from 0) is renamed `room_{i+1}` and nothing else changes |
| Doors.Named | cv/video_processing/door_detection.py:459-460 | the naming as a value, with the same statement |
| Doors.NegativeBoxes | cv/video_processing/door_detection.py:275-288 | with blank negative prompts, or a negative confidence that is not positive, there are no negative boxes |
| Doors.Arranged | cv/video_processing/door_detection.py:458-460 | sorting and naming keep the number of rooms |
| Doors.ArrangedSorted | cv/video_processing/door_detection.py:458-460 | the rooms run left to right by gate midpoint, are named `room_1`, `room_2`, ... in that order, and each is one of the accepted rooms renamed |
| Doors.ArrangedProperties | cv/video_processing/door_detection.py:458-460 | the rooms run left to right by gate midpoint, are named `room_1`, `room_2`, ... in that order, and are a permutation of the accepted rooms in which each room takes the name of its position |
| Doors.ResortIsIdentity | cv/video_processing/door_detection.py:303-316 | the re-sort after suppression never reorders |
| Doors.DetectCandidates | cv/video_processing/door_detection.py:290-316 | no detections give `([], [])`; otherwise there is one candidate per surviving detection, and at least one |
| Doors.DetectNoRooms | cv/video_processing/door_detection.py:439-456 | no room comes back exactly when every candidate was rejected |
| Doors.DetectRooms | cv/video_processing/door_detection.py:458-460 | at most `max(1, max_doors)` rooms, ordered by gate midpoint, named `room_1..room_n`, each with the configured direction |
| Doors.DetectDoors | cv/video_processing/door_detection.py:264-481 | the whole pass as the source runs it equals `DetectSpec` |
| RoomRegistry.ParseDirection | cv/video_processing/room_config.py:52-54 | a direction is accepted exactly when it is "down" or "up" |
| RoomRegistry.DirectionNameRoundTrip | cv/video_processing/room_config.py:52-54 | a command-line direction, used as the default, is always accepted as itself |
| RoomRegistry.PyInt | cv/video_processing/room_config.py:38-41 | `int()` keeps an integer, turns a boolean into 1 or 0, truncates a float toward zero, parses a string as `int(s)` does, and fails on null, a list or an object |
| RoomRegistry.IntField | cv/video_processing/room_config.py:55-57 | a failed conversion names the item and the key |
| RoomRegistry.CollectChars | cv/video_processing/room_config.py:28-72 | collecting results succeeds exactly when all succeed, keeping their order, and otherwise fails with the first failure |
| RoomRegistry.ParseRoomsChars | cv/video_processing/room_config.py:28-72 | the load succeeds exactly when every item parses, room i being item i+1 parsed; otherwise its error is the first failing item's |
| RoomRegistry.ParseRoomErrors | cv/video_processing/room_config.py:30-46 | a non-object item fails with its 1-based index; an item with neither all four gate keys nor "line" fails with `NoGate` |
| RoomRegistry.ParseRoomBadDirection | cv/video_processing/room_config.py:33-54 | a direction string other than "down"/"up" always fails the item; with a printable id and a valid gate the error is exactly `BadDirection` naming the room, and otherwise it is the id's or the gate's error |
| RoomRegistry.GateOfProperties | cv/video_processing/room_config.py:34-51 | the four gate keys are used verbatim; otherwise the gate is horizontal at "line", its ends clamped and ordered in `[0, max(0, width)]`, and 0..width by default |
| RoomRegistry.FinishProperties | cv/video_processing/room_config.py:52-71 | the direction comes from the item or the command line, `initial_occupancy` defaults to 0 (not the command-line value), the margin to the command line, and the thickness is at least 1 |
| RoomRegistry.ParseRoomProperties | cv/video_processing/room_config.py:29-71 | a parsed room comes from an object item, its id defaults to `room_{idx}`, and its gate and other fields are those of the two lemmas above |
| RoomRegistry.LoadPrecedence | cv/video_processing/room_config.py:21-103 | a configuration wins over auto-detection, which wins over the single line; auto-detection without a door model fails |
| RoomRegistry.EmptyConfigRefused | cv/video_processing/room_config.py:24-26 | a payload that is not a non-empty list of rooms is refused |
| RoomRegistry.SingleLineProperties | cv/video_processing/room_config.py:79-103 | the single-line mode fails exactly when `--line` is missing or only one of the x bounds is set; otherwise it gives one horizontal gate "room_1" at y = line, spanning the full width or the clamped, ordered bounds |
| RoomRegistry.LoadConfigRooms | cv/video_processing/room_config.py:28-72 | the item loop with its early raise computes exactly `ParseRooms` |
| RoomRegistry.LoadRooms | cv/video_processing/room_config.py:13-103 | `load_rooms` as the source runs it equals `LoadSpec` |
| PersonDetector.PersonCount | cv/detector.py:69-70 | the person count is the number of boxes, 0 with no result or no boxes |
| PersonDetector.EntryEventAt | cv/detector.py:71-72 | a frame reports an entry exactly when the count before it was 0 and its own is positive |
| PersonDetector.FirstPersonIsEntry | cv/detector.py:52 | from a fresh detector the first frame with anyone in it is an entry |
| PersonDetector.ZeroBetweenEntries | cv/detector.py:71-72 | between two entry events there is a frame with nobody in it |
| PersonDetector.Detector.constructor | cv/detector.py:48-52 | a new detector's previous count is 0 |
| PersonDetector.Detector.ProcessFrame | cv/detector.py:54-80 | the entry flag is set exactly on a 0 to positive edge, and the stored count becomes this frame's count |
| PersonDetector.ParseCameraSource | cv/detector.py:82-83 | an all-digit non-empty string is the device index it spells in decimal; anything else, the empty string included, is kept unchanged |
| PersonDetector.DeviceRoundTrip | cv/detector.py:82-83 | a device index written in decimal parses back to itself |

## Left out

- Video capture, YOLO detection and tracking, door-model prompting, drawing,
  printing and the debug reason tallies are not modelled. They are I/O or foreign
  calls. Tracked boxes, detections and person counts are inputs instead.
- Canny, HoughLinesP, Sobel, CLAHE and the gamma table are pixel numerics. The Hough
  output is an input list of segments with their length and angle given. The
  column-energy analysis of a wide box is an input `Peak`: the arg-max's offset
  inside the central band, and whether it clears `mean + 0.6 * std`.
- Doors.SplitWideBox: the peak's offset is any natural number. The model does not
  require it to be below the band width `right - left`, although the source's arg-max
  always is. The split's contract does not depend on that bound.
- The column count of that analysis is taken to be the clamped box width.
- The frame of the door model is taken to have the capture's width and height.
- The `roi.size == 0` fallbacks (door_detection.py:38-41 and 229-231) are not modelled
  as separate branches. Both follow a test that already rules out an empty region.
- Floats are exact reals. NaN and infinities are not modelled. `int()` is truncation
  and `round()` is ties-to-even.
- Doors.DetectDoors: requires a positive frame height. The source divides by the
  height and raises at 0; a capture that delivered a first frame has a positive
  height. The same applies to `Doors.AcceptDetections`, `Doors.JudgeDetection`,
  `Doors.Verdict` and `Doors.AcceptAll`.
- RoomRegistry.ParseRoom: a room id given as a JSON list or object is refused with
  `UnprintableId`. The source would use the text `str()` gives it. A float id uses a
  given text for `str()`.
- PyText.ParseInt: refuses strings with underscores between digits or with non-ASCII
  decimal digits. Python's `int()` accepts both, as in `int("1_000") == 1000`.
- RoomRegistry.PyInt: does not model `int()` of strings with underscores or non-ASCII
  digits, because it parses strings with `PyText.ParseInt`.
- RoomRegistry.IntField: the error values `NotAnInteger`, `UnprintableId`, `NotAnObject`
  and the other `LoadError` cases are this model's names. The source raises a
  `ValueError` or `TypeError` whose message it formats itself; only which check fails is
  modelled, not the message text.
- Reading and decoding the configuration file is not modelled; it arrives decoded.
  `--rooms-config` set to the empty string counts as unset.
- PersonDetector.ParseCameraSource: `str.isdigit` is ASCII digits only. Python also
  accepts other Unicode digits, and `int()` then raises for some of them.
- PersonDetector.Detector.ProcessFrame: the timestamp is a parameter, not the clock.
  The confidence threshold and model path are kept but not used.
- `check_room_high_risk`, `cv/uploader.py`, `cv/ingestor.py`, `cv/main.py`,
  `cv/config.py` and `cv/reset_cv_data.py` are not part of this model. They hold HTTP,
  retries, environment reads and stubs.
- `cv/video_processing/cli.py` is not part of this model beyond the facts used:
  `--direction` is "down" or "up", and the defaults.
