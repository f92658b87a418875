/** Room registry (`load_rooms`, cv/video_processing/room_config.py:13-103 and
    people_counter.py:830-916): the rooms of a run come from a JSON configuration,
    else from door auto-detection, else from the single `--line` of the command line.
    The configuration file arrives already decoded; the door detection arrives as its
    result. */
module RoomRegistry {
  import opened Wrappers
  import opened PyNum
  import opened PyText
  import opened Geometry
  import opened Models
  import opened Doors

  /** A decoded JSON value. A float keeps the text `str()` gives for it. */
  datatype Json =
    | JNull
    | JBool(b: bool)
    | JInt(i: int)
    | JFloat(x: real, text: string)
    | JStr(s: string)
    | JArr(items: seq<Json>)
    | JObj(fields: map<string, Json>)

  /** Why loading stops; the index is the 1-based position of the room item. */
  datatype LoadError =
    | NotARoomList
    | NotAnObject(index: nat)
    | NoGate(index: nat)
    | NotAnInteger(index: nat, key: string)
    | UnprintableId(index: nat)
    | BadDirection(roomId: string)
    | DoorModelMissing
    | MissingLine
    | LineBoundsMismatch

  /** The command-line values `load_rooms` reads. `roomsConfig` is the decoded file
      named by `--rooms-config`, None when that option is unset or empty. */
  datatype LoadArgs = LoadArgs(
    roomsConfig: Option<Json>,
    autoDetectDoors: bool,
    line: Option<int>,
    lineX1: Option<int>,
    lineX2: Option<int>,
    direction: Direction,
    lineMargin: int,
    initialOccupancy: int,
    lineThickness: int)

  /** The option's text, "down" or "up". */
  function DirectionName(d: Direction): string
  {
    match d
    case Down => "down"
    case Up => "up"
  }

  /** The membership test `direction in {"down", "up"}`. */
  function ParseDirection(s: string): (d: Option<Direction>)
    ensures d.Some? <==> s == "down" || s == "up"
    ensures d.Some? ==> DirectionName(d.value) == s
  {
    if s == "down" then Some(Down) else if s == "up" then Some(Up) else None
  }

  lemma DirectionNameRoundTrip(d: Direction)
    ensures ParseDirection(DirectionName(d)) == Some(d)
  {
  }

  /** `str(v)` for a scalar; a list or object has no text in this model. */
  function PyStr(v: Json): Option<string>
  {
    match v
    case JNull => Some("None")
    case JBool(b) => Some(if b then "True" else "False")
    case JInt(i) => Some(IntToString(i))
    case JFloat(_, text) => Some(text)
    case JStr(s) => Some(s)
    case _ => None
  }

  /** `int(v)`: a bool counts as 0 or 1, a float is truncated, a string is parsed;
      None, a list or an object raises. */
  function PyInt(v: Json): (r: Option<int>)
    ensures v.JInt? ==> r == Some(v.i)
    ensures v.JBool? ==> r == Some(if v.b then 1 else 0)
    ensures v.JFloat? ==> r == Some(Trunc(v.x))
    ensures v.JStr? ==> r == ParseInt(v.s)
    ensures v.JNull? || v.JArr? || v.JObj? ==> r.None?
  {
    match v
    case JBool(b) => Some(if b then 1 else 0)
    case JInt(i) => Some(i)
    case JFloat(x, _) => Some(Trunc(x))
    case JStr(s) => ParseInt(s)
    case _ => None
  }

  /** `item.get(key, default)`. */
  function Get(fields: map<string, Json>, key: string, default: Json): Json
  {
    if key in fields then fields[key] else default
  }

  /** `int(item.get(key, default))`, with the failure tagged by item and key. */
  function IntField(idx: nat, fields: map<string, Json>, key: string, default: Json): (r: Result<int, LoadError>)
    ensures r.Failure? ==> r.error == NotAnInteger(idx, key)
  {
    match PyInt(Get(fields, key, default))
    case Some(n) => Success(n)
    case None => Failure(NotAnInteger(idx, key))
  }

  predicate HasGatePoints(fields: map<string, Json>) {
    "gate_x1" in fields && "gate_y1" in fields && "gate_x2" in fields && "gate_y2" in fields
  }

  /** Lines 34-51: the gate `(gx1, gy1, gx2, gy2)` of item `idx`. */
  function GateOf(idx: nat, fields: map<string, Json>, width: int): Result<(int, int, int, int), LoadError>
  {
    if HasGatePoints(fields) then
      match IntField(idx, fields, "gate_x1", JNull)
      case Failure(e) => Failure(e)
      case Success(gx1) =>
        match IntField(idx, fields, "gate_y1", JNull)
        case Failure(e) => Failure(e)
        case Success(gy1) =>
          match IntField(idx, fields, "gate_x2", JNull)
          case Failure(e) => Failure(e)
          case Success(gx2) =>
            match IntField(idx, fields, "gate_y2", JNull)
            case Failure(e) => Failure(e)
            case Success(gy2) => Success((gx1, gy1, gx2, gy2))
    else if "line" !in fields then Failure(NoGate(idx))
    else
      match IntField(idx, fields, "line", JNull)
      case Failure(e) => Failure(e)
      case Success(lineY) =>
        match IntField(idx, fields, "x1", JInt(0))
        case Failure(e) => Failure(e)
        case Success(x1) =>
          match IntField(idx, fields, "x2", JInt(width))
          case Failure(e) => Failure(e)
          case Success(x2) =>
            var xs := ClampSegment(x1, x2, width);
            Success((xs.0, lineY, xs.1, lineY))
  }

  /** Lines 52-57 and 59-71: the rest of item `idx` once its id and gate are known. */
  function Finish(idx: nat, fields: map<string, Json>, roomId: string, gate: (int, int, int, int), args: LoadArgs)
    : Result<RoomConfig, LoadError>
  {
    var dirText := PyStr(Get(fields, "direction", JStr(DirectionName(args.direction))));
    var dir := if dirText.Some? then ParseDirection(dirText.value) else None;
    if dir.None? then Failure(BadDirection(roomId))
    else
      match IntField(idx, fields, "line_margin", JInt(args.lineMargin))
      case Failure(e) => Failure(e)
      case Success(margin) =>
        match IntField(idx, fields, "initial_occupancy", JInt(0))
        case Failure(e) => Failure(e)
        case Success(occupancy) =>
          match IntField(idx, fields, "line_thickness", JInt(args.lineThickness))
          case Failure(e) => Failure(e)
          case Success(thickness) =>
            Success(RoomConfig(roomId, gate.0, gate.1, gate.2, gate.3, dir.value, margin, occupancy,
                               Max(1, thickness)))
  }

  /** Lines 30-71: one room item, at 1-based position `idx`. */
  function ParseRoom(idx: nat, item: Json, width: int, args: LoadArgs): Result<RoomConfig, LoadError>
  {
    if !item.JObj? then Failure(NotAnObject(idx))
    else
      var fields := item.fields;
      match PyStr(Get(fields, "room_id", Get(fields, "id", JStr(RoomName(idx)))))
      case None => Failure(UnprintableId(idx))
      case Some(roomId) =>
        match GateOf(idx, fields, width)
        case Failure(e) => Failure(e)
        case Success(gate) => Finish(idx, fields, roomId, gate, args)
  }

  /** Every item parsed on its own, item i (from 0) at position i + 1. Parsing has no
      side effect, so parsing the items after a failing one changes nothing. */
  function Parsed(items: seq<Json>, width: int, args: LoadArgs): (r: seq<Result<RoomConfig, LoadError>>)
    ensures |r| == |items|
  {
    if |items| == 0 then []
    else
      var n := |items| - 1;
      Parsed(items[..n], width, args) + [ParseRoom(n + 1, items[n], width, args)]
  }

  /** The values of a run of results, or the error of the first failure. */
  function Collect<T, E>(rs: seq<Result<T, E>>): Result<seq<T>, E>
  {
    if |rs| == 0 then Success([])
    else
      var n := |rs| - 1;
      match Collect(rs[..n])
      case Failure(e) => Failure(e)
      case Success(vs) =>
        match rs[n]
        case Failure(e) => Failure(e)
        case Success(v) => Success(vs + [v])
  }

  /** Lines 28-72: the items parsed in order; the first failing item stops the load. */
  function ParseRooms(items: seq<Json>, width: int, args: LoadArgs): Result<seq<RoomConfig>, LoadError>
  {
    Collect(Parsed(items, width, args))
  }

  /** Line 24: the room list is the payload itself, or its "rooms" entry when the
      payload is an object (the object itself when that entry is missing). */
  function RoomItems(payload: Json): Json
  {
    if payload.JObj? then Get(payload.fields, "rooms", payload) else payload
  }

  /** Lines 79-102: the single-line mode. */
  function SingleLineRoom(args: LoadArgs, width: int): (r: Result<seq<RoomConfig>, LoadError>)
  {
    if args.line.None? then Failure(MissingLine)
    else if args.lineX1.None? != args.lineX2.None? then Failure(LineBoundsMismatch)
    else
      var xs := if args.lineX1.None? then (0, width) else ClampSegment(args.lineX1.value, args.lineX2.value, width);
      Success([RoomConfig("room_1", xs.0, args.line.value, xs.1, args.line.value, args.direction,
                          args.lineMargin, args.initialOccupancy, Max(1, args.lineThickness))])
  }

  /** `load_rooms`: `doorModelReady` says whether the door model was loaded and
      `detected` is what door detection on the first frame returns. */
  function LoadSpec(args: LoadArgs, width: int, doorModelReady: bool,
                    detected: (seq<RoomConfig>, seq<DoorCandidate>))
    : Result<(seq<RoomConfig>, seq<DoorCandidate>), LoadError>
  {
    if args.roomsConfig.Some? then
      var items := RoomItems(args.roomsConfig.value);
      if !items.JArr? || |items.items| == 0 then Failure(NotARoomList)
      else
        match ParseRooms(items.items, width, args)
        case Failure(e) => Failure(e)
        case Success(rooms) => Success((rooms, []))
    else if args.autoDetectDoors then
      if !doorModelReady then Failure(DoorModelMissing) else Success(detected)
    else
      match SingleLineRoom(args, width)
      case Failure(e) => Failure(e)
      case Success(rooms) => Success((rooms, []))
  }

  /** A run collects exactly when every result is a success, and then gives their
      values in order; otherwise it gives the error of the first failure. */
  lemma {:induction false} CollectChars<T, E>(rs: seq<Result<T, E>>)
    ensures var r := Collect(rs);
      (r.Success? <==> forall i :: 0 <= i < |rs| ==> rs[i].Success?) &&
      (r.Success? ==> |r.value| == |rs| && forall i :: 0 <= i < |rs| ==> r.value[i] == rs[i].value) &&
      (r.Failure? ==>
        exists i :: 0 <= i < |rs| && rs[i] == Failure(r.error) && (forall j :: 0 <= j < i ==> rs[j].Success?))
  {
    if |rs| > 0 {
      var n := |rs| - 1;
      var prefix := rs[..n];
      CollectChars(prefix);
      assert forall i :: 0 <= i < n ==> prefix[i] == rs[i];
      var r := Collect(rs);
      var p := Collect(prefix);
      if p.Failure? {
        var i :| 0 <= i < n && prefix[i] == Failure(p.error) && (forall j :: 0 <= j < i ==> prefix[j].Success?);
        assert rs[i] == Failure(r.error);
      } else if r.Failure? {
        assert rs[n] == Failure(r.error);
      }
    }
  }

  /** A load succeeds exactly when every item parses; then room i is item i + 1 parsed,
      and otherwise the error is that of the first item that does not parse. */
  lemma ParseRoomsChars(items: seq<Json>, width: int, args: LoadArgs)
    ensures var r := ParseRooms(items, width, args);
      (r.Success? <==> forall i :: 0 <= i < |items| ==> ParseRoom(i + 1, items[i], width, args).Success?) &&
      (r.Success? ==>
        |r.value| == |items| &&
        (forall i :: 0 <= i < |items| ==> r.value[i] == ParseRoom(i + 1, items[i], width, args).value)) &&
      (r.Failure? ==>
        exists i :: (0 <= i < |items| && ParseRoom(i + 1, items[i], width, args) == Failure(r.error) &&
                     forall j :: 0 <= j < i ==> ParseRoom(j + 1, items[j], width, args).Success?))
  {
    var rs := Parsed(items, width, args);
    CollectChars(rs);
    forall i | 0 <= i < |items|
      ensures rs[i] == ParseRoom(i + 1, items[i], width, args)
    {
      ParsedAt(items, width, args, i);
    }
  }

  /** A non-object item fails with its own index; one without the four gate keys and
      without "line" fails with `NoGate`. */
  lemma ParseRoomErrors(idx: nat, item: Json, width: int, args: LoadArgs)
    ensures !item.JObj? ==> ParseRoom(idx, item, width, args) == Failure(NotAnObject(idx))
    ensures item.JObj? && !HasGatePoints(item.fields) && "line" !in item.fields &&
            PyStr(Get(item.fields, "room_id", Get(item.fields, "id", JStr(RoomName(idx))))).Some? ==>
            ParseRoom(idx, item, width, args) == Failure(NoGate(idx))
  {
  }

  /** A direction other than "down" or "up" always fails the item: with an error of the
      id or the gate that the source raises first, and otherwise with `BadDirection` naming
      the room. */
  lemma ParseRoomBadDirection(idx: nat, item: Json, width: int, args: LoadArgs)
    ensures item.JObj? && "direction" in item.fields && item.fields["direction"].JStr? &&
            item.fields["direction"].s != "down" && item.fields["direction"].s != "up" &&
            ParseRoom(idx, item, width, args).Failure? ==>
            ParseRoom(idx, item, width, args).error.BadDirection? ||
            ParseRoom(idx, item, width, args).error.NotAnInteger? ||
            ParseRoom(idx, item, width, args).error == NoGate(idx) ||
            ParseRoom(idx, item, width, args).error == UnprintableId(idx)
    ensures item.JObj? && "direction" in item.fields && item.fields["direction"].JStr? &&
            item.fields["direction"].s != "down" && item.fields["direction"].s != "up" ==>
            ParseRoom(idx, item, width, args).Failure?
    ensures item.JObj? && "direction" in item.fields && item.fields["direction"].JStr? &&
            item.fields["direction"].s != "down" && item.fields["direction"].s != "up" &&
            PyStr(Get(item.fields, "room_id", Get(item.fields, "id", JStr(RoomName(idx))))).Some? &&
            GateOf(idx, item.fields, width).Success? ==>
            ParseRoom(idx, item, width, args) ==
              Failure(BadDirection(PyStr(Get(item.fields, "room_id", Get(item.fields, "id", JStr(RoomName(idx))))).value))
  {
  }

  /** The gate of an item: the four gate keys verbatim, or the horizontal gate of the
      "line" shorthand with its ends clamped and ordered inside the frame (the full
      width when "x1" and "x2" are absent). */
  lemma GateOfProperties(idx: nat, fields: map<string, Json>, width: int)
    requires GateOf(idx, fields, width).Success?
    ensures var g := GateOf(idx, fields, width).value;
      (HasGatePoints(fields) ==>
        g.0 == PyInt(fields["gate_x1"]).value && g.1 == PyInt(fields["gate_y1"]).value &&
        g.2 == PyInt(fields["gate_x2"]).value && g.3 == PyInt(fields["gate_y2"]).value) &&
      (!HasGatePoints(fields) ==>
        "line" in fields && g.1 == g.3 == PyInt(fields["line"]).value &&
        0 <= g.0 <= g.2 <= Max(0, width) &&
        ("x1" !in fields && "x2" !in fields && width >= 0 ==> g.0 == 0 && g.2 == width))
  {
    if !HasGatePoints(fields) && "x1" !in fields && "x2" !in fields && width >= 0 {
      ClampSegmentFixesInRange(0, width, width);
    }
  }

  /** The rest of a room: the id and gate as given, the direction from the item or the
      command line, occupancy 0 unless given, and a thickness of at least 1. */
  lemma FinishProperties(idx: nat, fields: map<string, Json>, roomId: string, gate: (int, int, int, int),
                         args: LoadArgs)
    requires Finish(idx, fields, roomId, gate, args).Success?
    ensures var room := Finish(idx, fields, roomId, gate, args).value;
      room.roomId == roomId && (room.gateX1, room.gateY1, room.gateX2, room.gateY2) == gate &&
      room.lineThickness >= 1 &&
      ("direction" !in fields ==> room.direction == args.direction) &&
      ("direction" in fields ==> PyStr(fields["direction"]) == Some(DirectionName(room.direction))) &&
      ("initial_occupancy" !in fields ==> room.initialOccupancy == 0) &&
      ("line_margin" !in fields ==> room.lineMargin == args.lineMargin)
  {
  }

  /** A parsed room is an object item whose id defaults to `room_{idx}` and whose gate
      and remaining fields are as the two lemmas above state. */
  lemma ParseRoomProperties(idx: nat, item: Json, width: int, args: LoadArgs)
    requires ParseRoom(idx, item, width, args).Success?
    ensures item.JObj?
    ensures var room := ParseRoom(idx, item, width, args).value;
      GateOf(idx, item.fields, width).Success? &&
      (room.gateX1, room.gateY1, room.gateX2, room.gateY2) == GateOf(idx, item.fields, width).value &&
      ("room_id" !in item.fields && "id" !in item.fields ==> room.roomId == RoomName(idx)) &&
      Finish(idx, item.fields, room.roomId, GateOf(idx, item.fields, width).value, args) == Success(room)
  {
    var fields := item.fields;
    var roomId := PyStr(Get(fields, "room_id", Get(fields, "id", JStr(RoomName(idx))))).value;
    var gate := GateOf(idx, fields, width).value;
    assert ParseRoom(idx, item, width, args) == Finish(idx, fields, roomId, gate, args);
    FinishProperties(idx, fields, roomId, gate, args);
  }

  /** An explicit configuration wins over auto-detection, which wins over the single
      line; the single-line mode is reached only with neither. */
  lemma LoadPrecedence(args: LoadArgs, width: int, doorModelReady: bool,
                       detected: (seq<RoomConfig>, seq<DoorCandidate>))
    ensures var r := LoadSpec(args, width, doorModelReady, detected);
      (args.roomsConfig.Some? && r.Success? ==>
        r.value.1 == [] && r.value.0 == ParseRooms(RoomItems(args.roomsConfig.value).items, width, args).value) &&
      (args.roomsConfig.None? && args.autoDetectDoors ==>
        r == (if doorModelReady then Success(detected) else Failure(DoorModelMissing))) &&
      (args.roomsConfig.None? && !args.autoDetectDoors ==>
        r.Success? == SingleLineRoom(args, width).Success? &&
        (r.Success? ==> r.value == (SingleLineRoom(args, width).value, [])))
  {
  }

  /** A configuration that is not a non-empty list of rooms is refused before any item
      is read. */
  lemma EmptyConfigRefused(args: LoadArgs, width: int, doorModelReady: bool,
                           detected: (seq<RoomConfig>, seq<DoorCandidate>))
    requires args.roomsConfig.Some?
    requires var items := RoomItems(args.roomsConfig.value); !items.JArr? || |items.items| == 0
    ensures LoadSpec(args, width, doorModelReady, detected) == Failure(NotARoomList)
  {
  }

  /** The single-line mode needs `--line` and both or neither of `--line-x1` and
      `--line-x2`; it then gives one horizontal gate "room_1" at y = line, spanning the
      whole width or the clamped and ordered bounds. */
  lemma SingleLineProperties(args: LoadArgs, width: int)
    ensures var r := SingleLineRoom(args, width);
      (r.Failure? <==> args.line.None? || args.lineX1.None? != args.lineX2.None?) &&
      (args.line.None? ==> r == Failure(MissingLine)) &&
      (args.line.Some? && args.lineX1.None? != args.lineX2.None? ==> r == Failure(LineBoundsMismatch)) &&
      (r.Success? ==>
        |r.value| == 1 &&
        r.value[0].roomId == "room_1" && r.value[0].gateY1 == r.value[0].gateY2 == args.line.value &&
        r.value[0].direction == args.direction && r.value[0].initialOccupancy == args.initialOccupancy &&
        r.value[0].lineThickness >= 1 &&
        (args.lineX1.None? ==> r.value[0].gateX1 == 0 && r.value[0].gateX2 == width) &&
        (args.lineX1.Some? ==> 0 <= r.value[0].gateX1 <= r.value[0].gateX2 <= Max(0, width)))
  {
  }

  /** Lines 28-72 as the source runs them: items in order, stopping at the first one
      that does not parse. */
  method LoadConfigRooms(items: seq<Json>, width: int, args: LoadArgs) returns (r: Result<seq<RoomConfig>, LoadError>)
    ensures r == ParseRooms(items, width, args)
  {
    ghost var rs := Parsed(items, width, args);
    var rooms: seq<RoomConfig> := [];
    for idx := 1 to |items| + 1
      invariant Collect(rs[..idx - 1]) == Success(rooms)
    {
      var room := ParseRoom(idx, items[idx - 1], width, args);
      ParsedAt(items, width, args, idx - 1);
      if room.Failure? {
        CollectFailurePersists(rs, idx);
        return Failure(room.error);
      }
      CollectStep(rs, idx - 1, rooms);
      rooms := rooms + [room.value];
    }
    assert rs[..|items|] == rs;
    return Success(rooms);
  }

  /** Result i of `Parsed` is item i parsed at position i + 1. */
  lemma {:induction false} ParsedAt(items: seq<Json>, width: int, args: LoadArgs, i: nat)
    requires i < |items|
    ensures Parsed(items, width, args)[i] == ParseRoom(i + 1, items[i], width, args)
  {
    var n := |items| - 1;
    var front := Parsed(items[..n], width, args);
    var last := ParseRoom(n + 1, items[n], width, args);
    assert Parsed(items, width, args) == front + [last];
    if i < n {
      ParsedAt(items[..n], width, args, i);
      assert items[..n][i] == items[i];
      assert (front + [last])[i] == front[i];
    }
  }

  /** One more successful result extends the collected values. */
  lemma CollectStep<T, E>(rs: seq<Result<T, E>>, k: nat, vs: seq<T>)
    requires k < |rs| && Collect(rs[..k]) == Success(vs) && rs[k].Success?
    ensures Collect(rs[..k + 1]) == Success(vs + [rs[k].value])
  {
    assert rs[..k + 1][..k] == rs[..k];
  }

  /** Once a prefix fails, the whole run fails with the same error. */
  lemma {:induction false} CollectFailurePersists<T, E>(rs: seq<Result<T, E>>, k: nat)
    requires 0 < k <= |rs|
    requires Collect(rs[..k - 1]).Success?
    requires rs[k - 1].Failure?
    ensures Collect(rs) == Failure(rs[k - 1].error)
  {
    if k == |rs| {
      assert rs[..k - 1] == rs[..|rs| - 1];
    } else {
      var n := |rs| - 1;
      assert rs[..n][..k - 1] == rs[..k - 1];
      assert rs[..n][k - 1] == rs[k - 1];
      CollectFailurePersists(rs[..n], k);
    }
  }

  /** `load_rooms` with the configuration loop run as a loop. */
  method LoadRooms(args: LoadArgs, width: int, doorModelReady: bool,
                   detected: (seq<RoomConfig>, seq<DoorCandidate>))
    returns (r: Result<(seq<RoomConfig>, seq<DoorCandidate>), LoadError>)
    ensures r == LoadSpec(args, width, doorModelReady, detected)
  {
    if args.roomsConfig.Some? {
      var items := RoomItems(args.roomsConfig.value);
      if !items.JArr? || |items.items| == 0 {
        return Failure(NotARoomList);
      }
      var rooms := LoadConfigRooms(items.items, width, args);
      if rooms.Failure? {
        return Failure(rooms.error);
      }
      return Success((rooms.value, []));
    }
    if args.autoDetectDoors {
      if !doorModelReady {
        return Failure(DoorModelMissing);
      }
      return Success(detected);
    }
    var single := SingleLineRoom(args, width);
    if single.Failure? {
      return Failure(single.error);
    }
    return Success((single.value, []));
  }
}
