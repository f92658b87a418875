/** The record types of cv/video_processing/models.py (duplicated at the top of
    people_counter.py). */
module Models {
  import opened Geometry
  import opened PyNum

  /** One counting boundary: a gate segment in integer pixels, its entry direction,
      dead-zone margin, initial occupancy offset and drawing thickness. */
  datatype RoomConfig = RoomConfig(
    roomId: string,
    gateX1: int, gateY1: int, gateX2: int, gateY2: int,
    direction: Direction,
    lineMargin: int,
    initialOccupancy: int,
    lineThickness: int)

  /** Entered and left counters of one room. */
  datatype RoomStats = RoomStats(entered: nat, left: nat)

  /** `RoomStats()`: both counters start at zero. */
  function NewRoomStats(): (r: RoomStats)
    ensures r.entered == 0 && r.left == 0
  {
    RoomStats(0, 0)
  }

  /** Per-track memory: the last stable side per room id; an absent id is "unknown". */
  datatype TrackState = TrackState(lastSideByRoom: map<string, int>)

  /** `TrackState()`: no room has a remembered side yet. */
  function NewTrackState(): (t: TrackState)
    ensures forall id :: id !in t.lastSideByRoom
  {
    TrackState(map[])
  }

  /** Where a fitted gate line came from. */
  datatype GateSource = Edge | Fallback

  /** Why a door candidate was accepted or rejected. */
  datatype Reason =
    | MaxDoorsReached
    | TooNarrow
    | TooTallForDoor
    | OverlapsNegativePrompt
    | MissingThresholdEdge
    | Accepted(source: GateSource)

  /** The reason strings written into `DoorCandidate.reason`. */
  function ReasonText(r: Reason): string
  {
    match r
    case MaxDoorsReached => "max_doors_reached"
    case TooNarrow => "too_narrow"
    case TooTallForDoor => "too_tall_for_door"
    case OverlapsNegativePrompt => "overlaps_negative_prompt"
    case MissingThresholdEdge => "missing_threshold_edge"
    case Accepted(Edge) => "accepted_edge"
    case Accepted(Fallback) => "accepted_fallback"
  }

  /** Distinct reasons are written as distinct strings, so the diagnostic text
      identifies the reason. */
  lemma ReasonTextInjective(a: Reason, b: Reason)
    ensures ReasonText(a) == ReasonText(b) <==> a == b
  {
  }

  /** One diagnostic record per examined door detection. */
  datatype DoorCandidate = DoorCandidate(
    x1: int, y1: int, x2: int, y2: int,
    conf: real,
    prompt: string,
    accepted: bool,
    reason: Reason)

  /** The displayed occupancy `max(0, initial + entered - left)`. */
  function Occupancy(room: RoomConfig, stats: RoomStats): (n: nat)
    ensures n as int >= room.initialOccupancy + stats.entered - stats.left
    ensures n == 0 || n as int == room.initialOccupancy + stats.entered - stats.left
  {
    Max(0, room.initialOccupancy + stats.entered - stats.left)
  }

  /** More entries (or fewer exits) never lower the displayed occupancy. */
  lemma OccupancyMonotone(room: RoomConfig, s: RoomStats, t: RoomStats)
    requires s.entered <= t.entered && s.left == t.left
    ensures Occupancy(room, s) <= Occupancy(room, t)
  {
  }
}
