/** The counting session of `run_people_counter` (cv/video_processing/pipeline.py:14-26,
    63-157, 197; people_counter.py:984-1099, 1141-1142): per-track side memory, per-room
    counters, and the door-refresh rule that replaces the room set. Camera reads,
    tracking calls and drawing are outside the model: each frame arrives as the list
    of tracked boxes, each refresh as the room list the door detector returned. */
module Pipeline {
  import opened Wrappers
  import opened PyNum
  import opened Geometry
  import opened Models
  import opened Crossing

  /** One entry of `_room_signature`: the fields whose change makes side memory stale. */
  datatype RoomKey = RoomKey(roomId: string, x1: int, y1: int, x2: int, y2: int,
                             direction: Direction, margin: int)

  function KeyOf(room: RoomConfig): RoomKey
  {
    RoomKey(room.roomId, room.gateX1, room.gateY1, room.gateX2, room.gateY2,
            room.direction, room.lineMargin)
  }

  /** `_room_signature(rooms)`. */
  function RoomSignature(rooms: seq<RoomConfig>): (sig: seq<RoomKey>)
    ensures |sig| == |rooms|
  {
    if |rooms| == 0 then [] else RoomSignature(rooms[..|rooms| - 1]) + [KeyOf(rooms[|rooms| - 1])]
  }

  /** The signature lists each room's key, in room order. */
  lemma {:induction false} SignatureAt(rooms: seq<RoomConfig>, k: nat)
    requires k < |rooms|
    ensures RoomSignature(rooms)[k] == KeyOf(rooms[k])
  {
    var n := |rooms| - 1;
    if k < n {
      SignatureAt(rooms[..n], k);
    }
  }

  /** Two room lists have the same signature exactly when they agree, room by room and in
      order, on the key fields (id, gate end points, direction, margin); line thickness and
      initial occupancy play no part. */
  lemma SignatureEqualIff(a: seq<RoomConfig>, b: seq<RoomConfig>)
    ensures RoomSignature(a) == RoomSignature(b) <==>
      |a| == |b| && forall k :: 0 <= k < |a| ==> KeyOf(a[k]) == KeyOf(b[k])
  {
    if RoomSignature(a) == RoomSignature(b) {
      forall k | 0 <= k < |a| ensures KeyOf(a[k]) == KeyOf(b[k]) {
        SignatureAt(a, k);
        SignatureAt(b, k);
      }
    }
    if |a| == |b| && forall k :: 0 <= k < |a| ==> KeyOf(a[k]) == KeyOf(b[k]) {
      forall k | 0 <= k < |a| ensures RoomSignature(a)[k] == RoomSignature(b)[k] {
        SignatureAt(a, k);
        SignatureAt(b, k);
      }
    }
  }

  function RoomIds(rooms: seq<RoomConfig>): set<string>
  {
    set r | r in rooms :: r.roomId
  }

  /** Every room has a counter entry. */
  predicate StatsCover(stats: map<string, RoomStats>, rooms: seq<RoomConfig>) {
    forall r :: r in rooms ==> r.roomId in stats
  }

  predicate TrackRemembers(t: TrackState) {
    forall id :: id in t.lastSideByRoom ==> IsStableSide(t.lastSideByRoom[id])
  }

  /** Every remembered side of every track is -1 or +1. */
  predicate AllRemembered(ts: map<int, TrackState>) {
    forall tid :: tid in ts ==> TrackRemembers(ts[tid])
  }

  /** `state.last_side_by_room.get(room_id)`. */
  function ReadSide(t: TrackState, id: string): Option<int>
  {
    if id in t.lastSideByRoom then Some(t.lastSideByRoom[id]) else None
  }

  function Bump(s: RoomStats, c: Count): RoomStats
  {
    match c
    case Entry => s.(entered := s.entered + 1)
    case Exit => s.(left := s.left + 1)
    case NoCount => s
  }

  /** The side reading of a foot point for one room (`side_of_gate` with the room's gate
      and margin). */
  function RoomSide(room: RoomConfig, fx: real, fy: real): int
  {
    SideOfGate(fx, fy, room.gateX1, room.gateY1, room.gateX2, room.gateY2, room.lineMargin)
  }

  /** One room of the inner loop for one track: the crossing rule applied to the room's
      remembered side, and its count added to that room's counters. */
  function ApplyRoom(t: TrackState, stats: map<string, RoomStats>, room: RoomConfig, fx: real, fy: real)
    : (r: (TrackState, map<string, RoomStats>))
    requires room.roomId in stats
    ensures r.1.Keys == stats.Keys
    ensures forall id :: id in stats && id != room.roomId ==> r.1[id] == stats[id]
    ensures var step := Step(ReadSide(t, room.roomId), RoomSide(room, fx, fy), room.direction);
      r.1[room.roomId] == Bump(stats[room.roomId], step.1) && ReadSide(r.0, room.roomId) == step.0
    ensures forall id :: id != room.roomId ==> ReadSide(r.0, id) == ReadSide(t, id)
  {
    var id := room.roomId;
    var step := Step(ReadSide(t, id), RoomSide(room, fx, fy), room.direction);
    var t' := match step.0
      case None => t
      case Some(v) => t.(lastSideByRoom := t.lastSideByRoom[id := v]);
    (t', stats[id := Bump(stats[id], step.1)])
  }

  /** The counters of every room never decrease. */
  predicate CountersGrow(before: map<string, RoomStats>, after: map<string, RoomStats>) {
    before.Keys == after.Keys &&
    forall id :: id in before ==> before[id].entered <= after[id].entered && before[id].left <= after[id].left
  }

  /** The inner loop over all rooms for one track, in room order. */
  function ObserveRooms(t: TrackState, stats: map<string, RoomStats>, rooms: seq<RoomConfig>, fx: real, fy: real)
    : (r: (TrackState, map<string, RoomStats>))
    requires StatsCover(stats, rooms)
    ensures CountersGrow(stats, r.1)
    ensures TrackRemembers(t) ==> TrackRemembers(r.0)
  {
    if |rooms| == 0 then (t, stats)
    else
      var before := ObserveRooms(t, stats, rooms[..|rooms| - 1], fx, fy);
      var room := rooms[|rooms| - 1];
      var after := ApplyRoom(before.0, before.1, room, fx, fy);
      assert TrackRemembers(before.0) ==> TrackRemembers(after.0) by {
        if TrackRemembers(before.0) {
          forall id | id in after.0.lastSideByRoom
            ensures IsStableSide(after.0.lastSideByRoom[id])
          {
            assert ReadSide(after.0, id).Some?;
            if id != room.roomId {
              assert ReadSide(before.0, id) == ReadSide(after.0, id);
            } else {
              assert Remembered(ReadSide(before.0, id));
            }
          }
        }
      }
      after
  }

  /** One tracked person's update: create its memory on first sight, then run every room. */
  function ObserveTrack(ts: map<int, TrackState>, stats: map<string, RoomStats>, rooms: seq<RoomConfig>,
                        tid: int, fx: real, fy: real): (r: (map<int, TrackState>, map<string, RoomStats>))
    requires StatsCover(stats, rooms)
  {
    var t := if tid in ts then ts[tid] else NewTrackState();
    var after := ObserveRooms(t, stats, rooms, fx, fy);
    (ts[tid := after.0], after.1)
  }

  /** Observing a track keeps every remembered side at -1 or +1, never lowers a counter,
      keeps the counter keys, and leaves every other track's memory alone. */
  lemma ObserveTrackPreserves(ts: map<int, TrackState>, stats: map<string, RoomStats>, rooms: seq<RoomConfig>,
                              tid: int, fx: real, fy: real)
    requires StatsCover(stats, rooms) && AllRemembered(ts)
    ensures var r := ObserveTrack(ts, stats, rooms, tid, fx, fy);
      AllRemembered(r.0) && CountersGrow(stats, r.1) && StatsCover(r.1, rooms) &&
      r.0.Keys == ts.Keys + {tid} &&
      forall other :: other in ts && other != tid ==> r.0[other] == ts[other]
  {
    var t := if tid in ts then ts[tid] else NewTrackState();
    assert TrackRemembers(t);
  }

  /** A tracked box of one frame: track id and the corners (x1, y1, x2, y2). */
  datatype TrackBox = TrackBox(tid: int, x1: real, y1: real, x2: real, y2: real)

  /** The foot point: horizontal middle of the box, its bottom edge. */
  function FootX(b: TrackBox): real { (b.x1 + b.x2) / 2.0 }

  function FootY(b: TrackBox): real { b.y2 }

  /** All tracked boxes of one frame, in the tracker's order. */
  function ObserveTracks(ts: map<int, TrackState>, stats: map<string, RoomStats>, rooms: seq<RoomConfig>,
                         boxes: seq<TrackBox>): (r: (map<int, TrackState>, map<string, RoomStats>))
    requires StatsCover(stats, rooms) && AllRemembered(ts)
    ensures AllRemembered(r.0) && CountersGrow(stats, r.1) && StatsCover(r.1, rooms)
  {
    if |boxes| == 0 then (ts, stats)
    else
      var before := ObserveTracks(ts, stats, rooms, boxes[..|boxes| - 1]);
      var b := boxes[|boxes| - 1];
      ObserveTrackPreserves(before.0, before.1, rooms, b.tid, FootX(b), FootY(b));
      ObserveTrack(before.0, before.1, rooms, b.tid, FootX(b), FootY(b))
  }

  /** One more box of the frame is one more `ObserveTrack`. */
  lemma ObserveTracksStep(ts: map<int, TrackState>, stats: map<string, RoomStats>, rooms: seq<RoomConfig>,
                          boxes: seq<TrackBox>, i: nat)
    requires StatsCover(stats, rooms) && AllRemembered(ts) && i < |boxes|
    ensures var before := ObserveTracks(ts, stats, rooms, boxes[..i]);
      ObserveTracks(ts, stats, rooms, boxes[..i + 1]) ==
      ObserveTrack(before.0, before.1, rooms, boxes[i].tid, FootX(boxes[i]), FootY(boxes[i]))
  {
    assert boxes[..i + 1][..i] == boxes[..i];
  }

  /** `room_stats.setdefault(room_id, RoomStats())` for every room, in order. */
  function WithDefaults(stats: map<string, RoomStats>, rooms: seq<RoomConfig>): (r: map<string, RoomStats>)
    ensures r.Keys == stats.Keys + RoomIds(rooms)
    ensures forall id :: id in stats ==> r[id] == stats[id]
    ensures forall id :: id in r && id !in stats ==> r[id] == NewRoomStats()
  {
    if |rooms| == 0 then stats
    else
      var m := WithDefaults(stats, rooms[..|rooms| - 1]);
      var id := rooms[|rooms| - 1].roomId;
      assert RoomIds(rooms) == RoomIds(rooms[..|rooms| - 1]) + {id} by {
        assert rooms == rooms[..|rooms| - 1] + [rooms[|rooms| - 1]];
      }
      if id in m then m else m[id := NewRoomStats()]
  }

  /** One more room of `WithDefaults`. */
  lemma WithDefaultsStep(stats: map<string, RoomStats>, rooms: seq<RoomConfig>, i: nat)
    requires i < |rooms|
    ensures var m := WithDefaults(stats, rooms[..i]);
      WithDefaults(stats, rooms[..i + 1]) ==
        if rooms[i].roomId in m then m else m[rooms[i].roomId := NewRoomStats()]
  {
    assert rooms[..i + 1][..i] == rooms[..i];
  }

  /** The `setdefault` loop of lines 99-100. */
  method SetDefaults(stats: map<string, RoomStats>, rooms: seq<RoomConfig>) returns (r: map<string, RoomStats>)
    ensures r == WithDefaults(stats, rooms)
  {
    r := stats;
    var i := 0;
    while i < |rooms|
      invariant 0 <= i <= |rooms|
      invariant r == WithDefaults(stats, rooms[..i])
    {
      WithDefaultsStep(stats, rooms, i);
      if rooms[i].roomId !in r {
        r := r[rooms[i].roomId := NewRoomStats()];
      }
      i := i + 1;
    }
    assert rooms[..i] == rooms;
  }

  /** The whole counting state of one run. */
  datatype Session = Session(
    rooms: seq<RoomConfig>,
    trackStates: map<int, TrackState>,
    roomStats: map<string, RoomStats>,
    prevSignature: seq<RoomKey>,
    doorsLocked: bool)

  /** The state invariant: every room has counters, every remembered side is -1 or +1,
      and the stored signature is that of the current rooms. */
  predicate SessionValid(s: Session) {
    StatsCover(s.roomStats, s.rooms) && AllRemembered(s.trackStates) &&
    s.prevSignature == RoomSignature(s.rooms)
  }

  /** The refresh rule (pipeline.py:97-107): an empty detection changes nothing; otherwise
      the new set is adopted only if it has at least as many doors, new ids get zeroed
      counters, and all track memory is dropped when the signature changed. */
  function Refreshed(s: Session, newRooms: seq<RoomConfig>, lockOnDetect: bool): Session
  {
    if |newRooms| == 0 then s
    else
      var chosen := if |newRooms| >= |s.rooms| then newRooms else s.rooms;
      var sig := RoomSignature(chosen);
      var changed := sig != s.prevSignature;
      Session(chosen,
              if changed then map[] else s.trackStates,
              WithDefaults(s.roomStats, chosen),
              if changed then sig else s.prevSignature,
              s.doorsLocked || lockOnDetect)
  }

  lemma RefreshedValid(s: Session, newRooms: seq<RoomConfig>, lockOnDetect: bool)
    requires SessionValid(s)
    ensures SessionValid(Refreshed(s, newRooms, lockOnDetect))
  {
  }

  /** What a refresh guarantees. */
  lemma RefreshProperties(s: Session, newRooms: seq<RoomConfig>, lockOnDetect: bool)
    requires SessionValid(s)
    ensures var r := Refreshed(s, newRooms, lockOnDetect);
      SessionValid(r) &&
      (|newRooms| == 0 ==> r == s) &&
      (|newRooms| > 0 ==>
        r.rooms == (if |newRooms| >= |s.rooms| then newRooms else s.rooms) &&
        r.doorsLocked == (s.doorsLocked || lockOnDetect)) &&
      (forall id :: id in s.roomStats ==> id in r.roomStats && r.roomStats[id] == s.roomStats[id]) &&
      (forall id :: id in r.roomStats && id !in s.roomStats ==> r.roomStats[id] == NewRoomStats()) &&
      (RoomSignature(r.rooms) == RoomSignature(s.rooms) ==> r.trackStates == s.trackStates) &&
      (RoomSignature(r.rooms) != RoomSignature(s.rooms) ==> r.trackStates == map[])
  {
  }

  /** A detection pass with fewer doors than are in use never disturbs the counting
      state beyond the lock flag. */
  lemma SmallerDetectionKeepsState(s: Session, newRooms: seq<RoomConfig>, lockOnDetect: bool)
    requires SessionValid(s)
    requires 0 < |newRooms| < |s.rooms|
    ensures var r := Refreshed(s, newRooms, lockOnDetect);
      r.rooms == s.rooms && r.trackStates == s.trackStates && r.roomStats == s.roomStats
  {
    var r := Refreshed(s, newRooms, lockOnDetect);
    assert RoomIds(s.rooms) <= s.roomStats.Keys;
    assert r.roomStats.Keys == s.roomStats.Keys;
  }

  /** Displayed occupancy is never negative and is `initial + entered - left` whenever
      that is not negative. */
  lemma DisplayedOccupancy(room: RoomConfig, stats: RoomStats)
    ensures Occupancy(room, stats) >= 0
    ensures room.initialOccupancy + stats.entered - stats.left >= 0 ==>
      Occupancy(room, stats) == room.initialOccupancy + stats.entered - stats.left
  {
  }

  /** `cap.get(CAP_PROP_FPS) or 30.0`: a zero frame rate falls back to 30. */
  function EffectiveFps(reported: real): (fps: real)
    ensures reported != 0.0 ==> fps == reported
    ensures reported == 0.0 ==> fps == 30.0
  {
    if reported != 0.0 then reported else 30.0
  }

  /** `refresh_n` (lines 84-87): from a seconds setting when one is given, as
      `max(1, round(max(0.05, seconds) * fps))`, else `max(1, door_refresh_frames)`. */
  function RefreshEvery(seconds: Option<real>, frames: int, fps: real): (n: int)
    ensures n >= 1
    ensures seconds.None? && frames >= 1 ==> n == frames
    ensures seconds.None? && frames < 1 ==> n == 1
    ensures seconds.Some? ==>
      var x := MaxR(0.05, seconds.value) * fps;
      (x <= 0.5 ==> n == 1) && (x > 0.5 ==> x - 0.5 <= n as real <= x + 0.5)
  {
    match seconds
    case Some(secs) => Max(1, Round(MaxR(0.05, secs) * fps))
    case None => Max(1, frames)
  }

  /** The body of the inner loop (lines 134-157) for one room: read the side, compare it with
      the remembered one, count an opposite stable transition, update the memory. */
  method CountRoom(state: TrackState, stats: map<string, RoomStats>, room: RoomConfig, footX: real, footY: real)
    returns (state': TrackState, stats': map<string, RoomStats>)
    requires room.roomId in stats
    ensures (state', stats') == ApplyRoom(state, stats, room, footX, footY)
  {
    var id := room.roomId;
    var currSide := SideOfGate(footX, footY, room.gateX1, room.gateY1, room.gateX2, room.gateY2, room.lineMargin);
    var prevSide := ReadSide(state, id);
    state', stats' := state, stats;
    assert stats[id := Bump(stats[id], NoCount)] == stats;
    if prevSide.None? {
      if currSide != 0 {
        state' := state.(lastSideByRoom := state.lastSideByRoom[id := currSide]);
      }
      return;
    }
    if currSide != 0 && currSide != prevSide.value {
      var direction := CrossingDirection(prevSide.value, currSide);
      if direction == Some(room.direction) {
        stats' := stats[id := stats[id].(entered := stats[id].entered + 1)];
      } else if direction.Some? {
        stats' := stats[id := stats[id].(left := stats[id].left + 1)];
      }
      state' := state.(lastSideByRoom := state.lastSideByRoom[id := currSide]);
    } else if currSide != 0 {
      state' := state.(lastSideByRoom := state.lastSideByRoom[id := currSide]);
    } else {
      assert state.lastSideByRoom[id := prevSide.value] == state.lastSideByRoom;
    }
  }

  /** The inner loop over the rooms (lines 133-157) for one track. */
  method CountRooms(state: TrackState, stats: map<string, RoomStats>, rooms: seq<RoomConfig>, footX: real, footY: real)
    returns (state': TrackState, stats': map<string, RoomStats>)
    requires StatsCover(stats, rooms)
    ensures (state', stats') == ObserveRooms(state, stats, rooms, footX, footY)
  {
    state', stats' := state, stats;
    for i := 0 to |rooms|
      invariant StatsCover(stats, rooms[..i])
      invariant (state', stats') == ObserveRooms(state, stats, rooms[..i], footX, footY)
    {
      assert rooms[..i + 1][..i] == rooms[..i];
      state', stats' := CountRoom(state', stats', rooms[i], footX, footY);
    }
    assert rooms[..|rooms|] == rooms;
  }

  /** The steps of lines 97-107 on the session's values. */
  method RefreshSession(s: Session, newRooms: seq<RoomConfig>, lockOnDetect: bool) returns (r: Session)
    ensures r == Refreshed(s, newRooms, lockOnDetect)
  {
    if |newRooms| == 0 {
      return s;
    }
    var chosen := if |newRooms| >= |s.rooms| then newRooms else s.rooms;
    var stats := SetDefaults(s.roomStats, chosen);
    var tracks, signature := s.trackStates, s.prevSignature;
    var newSignature := RoomSignature(chosen);
    if newSignature != signature {
      tracks := map[];
      signature := newSignature;
    }
    var locked := s.doorsLocked;
    if lockOnDetect {
      locked := true;
    }
    r := Session(chosen, tracks, stats, signature, locked);
  }

  /** The counting session as a mutable object, the shape the source gives it: the
      rooms, the track memory and the counters are reassigned frame by frame. */
  class PeopleCounter {
    var rooms: seq<RoomConfig>
    var trackStates: map<int, TrackState>
    var roomStats: map<string, RoomStats>
    var prevSignature: seq<RoomKey>
    var doorsLocked: bool
    /** `args.auto_detect_doors and not args.rooms_config`: periodic door refresh is on. */
    const autoDetect: bool
    /** `args.lock_doors_on_detect`. */
    const lockOnDetect: bool

    ghost function State(): Session
      reads this
    {
      Session(rooms, trackStates, roomStats, prevSignature, doorsLocked)
    }

    ghost predicate Valid()
      reads this
    {
      SessionValid(State())
    }

    /** Lines 63-66: counters for every starting room, no track memory, and doors locked at
        start when auto-detection found doors and locking was requested (lines 52-54). */
    constructor (initialRooms: seq<RoomConfig>, autoDetect: bool, lockOnDetect: bool)
      ensures Valid()
      ensures rooms == initialRooms && trackStates == map[]
      ensures roomStats == WithDefaults(map[], initialRooms)
      ensures doorsLocked == (autoDetect && lockOnDetect && |initialRooms| > 0)
      ensures this.autoDetect == autoDetect && this.lockOnDetect == lockOnDetect
    {
      rooms := initialRooms;
      trackStates := map[];
      roomStats := WithDefaults(map[], initialRooms);
      prevSignature := RoomSignature(initialRooms);
      doorsLocked := autoDetect && lockOnDetect && |initialRooms| > 0;
      this.autoDetect := autoDetect;
      this.lockOnDetect := lockOnDetect;
      new;
      assert AllRemembered(trackStates);
    }

    /** Lines 131-157 for one tracked person whose foot point is (footX, footY). */
    method Observe(tid: int, footX: real, footY: real)
      requires Valid()
      modifies this
      ensures Valid()
      ensures rooms == old(rooms) && prevSignature == old(prevSignature) && doorsLocked == old(doorsLocked)
      ensures (trackStates, roomStats) == ObserveTrack(old(trackStates), old(roomStats), rooms, tid, footX, footY)
    {
      var state := if tid in trackStates then trackStates[tid] else NewTrackState();
      var stats;
      state, stats := CountRooms(state, roomStats, rooms, footX, footY);
      ObserveTrackPreserves(trackStates, roomStats, rooms, tid, footX, footY);
      trackStates := trackStates[tid := state];
      roomStats := stats;
    }

    /** Lines 124-157: every tracked box of one frame, foot point = bottom centre. */
    method ObserveFrame(boxes: seq<TrackBox>)
      requires Valid()
      modifies this
      ensures Valid()
      ensures rooms == old(rooms) && prevSignature == old(prevSignature) && doorsLocked == old(doorsLocked)
      ensures (trackStates, roomStats) == ObserveTracks(old(trackStates), old(roomStats), rooms, boxes)
    {
      ghost var ts0, stats0 := trackStates, roomStats;
      var i := 0;
      while i < |boxes|
        invariant 0 <= i <= |boxes|
        invariant Valid()
        invariant rooms == old(rooms) && prevSignature == old(prevSignature) && doorsLocked == old(doorsLocked)
        invariant (trackStates, roomStats) == ObserveTracks(ts0, stats0, rooms, boxes[..i])
      {
        var b := boxes[i];
        ObserveTracksStep(ts0, stats0, rooms, boxes, i);
        Observe(b.tid, FootX(b), FootY(b));
        i := i + 1;
      }
      assert boxes[..i] == boxes;
    }

    /** Lines 97-110: adopt a detected door set. */
    method Refresh(newRooms: seq<RoomConfig>)
      requires Valid()
      modifies this
      ensures Valid()
      ensures State() == Refreshed(old(State()), newRooms, lockOnDetect)
    {
      RefreshedValid(State(), newRooms, lockOnDetect);
      var next := RefreshSession(Session(rooms, trackStates, roomStats, prevSignature, doorsLocked), newRooms, lockOnDetect);
      rooms, trackStates, roomStats, prevSignature, doorsLocked :=
        next.rooms, next.trackStates, next.roomStats, next.prevSignature, next.doorsLocked;
    }

    /** Lines 78-110: on a refresh frame of an auto-detecting, unlocked session, adopt
        what the door detector returned for this frame; otherwise change nothing. */
    method Tick(frameIndex: nat, refreshSeconds: Option<real>, refreshFrames: int, fps: real,
                detected: seq<RoomConfig>)
      requires Valid()
      modifies this
      ensures Valid()
      ensures State() ==
        if autoDetect && !old(doorsLocked) && frameIndex % RefreshEvery(refreshSeconds, refreshFrames, fps) == 0
        then Refreshed(old(State()), detected, lockOnDetect)
        else old(State())
    {
      if autoDetect && !doorsLocked {
        var refreshN := RefreshEvery(refreshSeconds, refreshFrames, fps);
        var shouldRefresh := frameIndex % refreshN == 0;
        if shouldRefresh {
          Refresh(detected);
        }
      }
    }

    /** Line 197: the displayed occupancy of the k-th room. */
    function DisplayedOccupancy(k: nat): (n: nat)
      reads this
      requires Valid() && k < |rooms|
      ensures n as int >= rooms[k].initialOccupancy + roomStats[rooms[k].roomId].entered - roomStats[rooms[k].roomId].left
    {
      Occupancy(rooms[k], roomStats[rooms[k].roomId])
    }
  }
}
