/** The per-(track, room) crossing rule of the counting loop
    (cv/video_processing/pipeline.py:143-157, people_counter.py:1082-1099), as a
    pure state machine over the remembered side, and what it guarantees over a
    whole sequence of readings. */
module Crossing {
  import opened Wrappers
  import opened Geometry

  /** What one reading adds to the room's counters. */
  datatype Count = NoCount | Entry | Exit

  /** The side a person is on right after an entry: +1 for a "down" room, -1 for "up". */
  function EntrySide(dir: Direction): int
  {
    if dir == Down then 1 else -1
  }

  /** A remembered side is either unknown or one of the two stable sides. */
  predicate Remembered(m: Option<int>) {
    m.None? || IsStableSide(m.value)
  }

  /** One reading `curr` against the remembered side `prev` for a room whose entry
      direction is `dir`: the new remembered side and the count it emits. */
  function Step(prev: Option<int>, curr: int, dir: Direction): (r: (Option<int>, Count))
    // a dead-zone reading changes nothing
    ensures curr == 0 ==> r == (prev, NoCount)
    // the first stable reading becomes the baseline without counting
    ensures prev.None? && curr != 0 ==> r == (Some(curr), NoCount)
    // re-reading the remembered side emits nothing
    ensures prev == Some(curr) ==> r == (prev, NoCount)
    // an opposite stable reading counts exactly one entry or exit, by direction
    ensures prev.Some? && IsStableSide(prev.value) && IsStableSide(curr) && curr != prev.value ==>
      r == (Some(curr), if curr == EntrySide(dir) then Entry else Exit)
    // only stable sides are ever remembered
    ensures Remembered(prev) && IsSide(curr) ==> Remembered(r.0)
  {
    match prev
    case None => (if curr != 0 then Some(curr) else None, NoCount)
    case Some(p) =>
      if curr != 0 && curr != p then
        var d := CrossingDirection(p, curr);
        (Some(curr), if d == Some(dir) then Entry else if d.Some? then Exit else NoCount)
      else if curr != 0 then (Some(curr), NoCount)
      else (prev, NoCount)
  }

  predicate AllSides(sides: seq<int>) {
    forall k :: 0 <= k < |sides| ==> IsSide(sides[k])
  }

  /** Feeding the readings `sides` in order: the final remembered side and the
      count emitted by each reading. */
  function Run(prev: Option<int>, sides: seq<int>, dir: Direction): (r: (Option<int>, seq<Count>))
    ensures |r.1| == |sides|
  {
    if |sides| == 0 then (prev, [])
    else
      var before := Run(prev, sides[..|sides| - 1], dir);
      var step := Step(before.0, sides[|sides| - 1], dir);
      (step.0, before.1 + [step.1])
  }

  /** Entries minus exits. */
  function Net(counts: seq<Count>): int
  {
    if |counts| == 0 then 0
    else Net(counts[..|counts| - 1]) + Weight(counts[|counts| - 1])
  }

  /** The value one count adds to the net. */
  function Weight(c: Count): int
  {
    match c
    case Entry => 1
    case Exit => -1
    case NoCount => 0
  }

  lemma {:induction false} NetAppend(a: seq<Count>, b: seq<Count>)
    ensures Net(a + b) == Net(a) + Net(b)
  {
    if |b| > 0 {
      assert (a + b)[..|a + b| - 1] == a + b[..|b| - 1];
      assert (a + b)[|a + b| - 1] == b[|b| - 1];
      NetAppend(a, b[..|b| - 1]);
    } else {
      assert a + b == a;
    }
  }

  lemma NetSingle(c: Count)
    ensures Net([c]) == Weight(c)
  {
    assert [c][..0] == [];
  }

  /** Only stable sides are ever remembered, whatever the readings. */
  lemma {:induction false} RunRemembers(prev: Option<int>, sides: seq<int>, dir: Direction)
    requires Remembered(prev) && AllSides(sides)
    ensures Remembered(Run(prev, sides, dir).0)
  {
    if |sides| > 0 {
      RunRemembers(prev, sides[..|sides| - 1], dir);
    }
  }

  /** From a known side `s`, entries minus exits is fixed by where the track ends up:
      +1 if it ended on the entry side having started on the other, -1 for the
      reverse, 0 if it ended where it started. */
  lemma {:induction false} NetFromKnownSide(s: int, sides: seq<int>, dir: Direction)
    requires IsStableSide(s) && AllSides(sides)
    ensures var r := Run(Some(s), sides, dir);
      r.0.Some? && IsStableSide(r.0.value) && 2 * Net(r.1) == EntrySide(dir) * (r.0.value - s)
  {
    if |sides| > 0 {
      var init := sides[..|sides| - 1];
      NetFromKnownSide(s, init, dir);
      var before := Run(Some(s), init, dir);
      var step := Step(before.0, sides[|sides| - 1], dir);
      NetAppend(before.1, [step.1]);
      NetSingle(step.1);
    }
  }

  /** From an unknown side, no count is emitted until a baseline exists, and the
      net count never leaves {-1, 0, 1}. */
  lemma {:induction false} NetFromUnknown(sides: seq<int>, dir: Direction)
    requires AllSides(sides)
    ensures var r := Run(None, sides, dir);
      (r.0.None? ==> Net(r.1) == 0 && forall k :: 0 <= k < |r.1| ==> r.1[k] == NoCount) &&
      (r.0.Some? ==> exists b :: IsStableSide(b) && 2 * Net(r.1) == EntrySide(dir) * (r.0.value - b))
  {
    if |sides| > 0 {
      var init := sides[..|sides| - 1];
      var curr := sides[|sides| - 1];
      NetFromUnknown(init, dir);
      var before := Run(None, init, dir);
      var step := Step(before.0, curr, dir);
      NetAppend(before.1, [step.1]);
      NetSingle(step.1);
      assert Run(None, sides, dir) == (step.0, before.1 + [step.1]);
      RunRemembers(None, init, dir);
      if before.0.Some? {
        var b :| IsStableSide(b) && 2 * Net(before.1) == EntrySide(dir) * (before.0.value - b);
        assert 2 * Net(Run(None, sides, dir).1) == EntrySide(dir) * (step.0.value - b);
      } else if step.0.Some? {
        assert 2 * Net(Run(None, sides, dir).1) == EntrySide(dir) * (step.0.value - curr);
      }
    }
  }

  /** Whatever the readings and whatever the starting memory, a track's net count for
      one room between memory clears is -1, 0 or +1. */
  lemma NetBounded(prev: Option<int>, sides: seq<int>, dir: Direction)
    requires Remembered(prev) && AllSides(sides)
    ensures -1 <= Net(Run(prev, sides, dir).1) <= 1
  {
    if prev.None? {
      NetFromUnknown(sides, dir);
    } else {
      NetFromKnownSide(prev.value, sides, dir);
    }
  }

  /** Running over a split sequence is running over the first part, then the second. */
  lemma {:induction false} RunSplit(prev: Option<int>, sides: seq<int>, i: nat, dir: Direction)
    requires i <= |sides|
    ensures var first := Run(prev, sides[..i], dir);
      var second := Run(first.0, sides[i..], dir);
      Run(prev, sides, dir) == (second.0, first.1 + second.1)
  {
    if i < |sides| {
      var n := |sides|;
      RunSplit(prev, sides[..n - 1], i, dir);
      assert sides[..n - 1][..i] == sides[..i];
      var rest := sides[i..];
      assert sides[..n - 1][i..] == rest[..|rest| - 1];
      assert rest[|rest| - 1] == sides[n - 1];
      var first := Run(prev, sides[..i], dir);
      var mid := Run(first.0, rest[..|rest| - 1], dir);
      var step := Step(mid.0, sides[n - 1], dir);
      assert Run(first.0, rest, dir) == (step.0, mid.1 + [step.1]);
      assert Run(prev, sides, dir) == (step.0, (first.1 + mid.1) + [step.1]);
      assert (first.1 + mid.1) + [step.1] == first.1 + (mid.1 + [step.1]);
    } else {
      assert sides[..i] == sides;
      assert sides[i..] == [];
      var first := Run(prev, sides[..i], dir);
      assert first.1 + [] == first.1;
    }
  }

  /** Over any window of consecutive readings the net count is -1, 0 or +1. */
  lemma WindowNetBounded(prev: Option<int>, sides: seq<int>, dir: Direction, i: nat, j: nat)
    requires Remembered(prev) && AllSides(sides)
    requires i <= j <= |sides|
    ensures -1 <= Net(Run(prev, sides, dir).1[i..j]) <= 1
  {
    var ev := Run(prev, sides, dir).1;
    RunSplit(prev, sides[..j], i, dir);
    RunSplit(prev, sides, j, dir);
    var first := Run(prev, sides[..i], dir);
    assert sides[..j][..i] == sides[..i];
    RunRemembers(prev, sides[..i], dir);
    var window := sides[..j][i..];
    var second := Run(first.0, window, dir);
    assert ev[..j] == first.1 + second.1;
    assert ev[i..j] == second.1;
    NetBounded(first.0, window, dir);
  }

  lemma {:induction false} NetNoExit(counts: seq<Count>)
    requires forall k :: 0 <= k < |counts| ==> counts[k] != Exit
    ensures Net(counts) >= 0
  {
    if |counts| > 0 {
      NetNoExit(counts[..|counts| - 1]);
    }
  }

  lemma {:induction false} NetNoEntry(counts: seq<Count>)
    requires forall k :: 0 <= k < |counts| ==> counts[k] != Entry
    ensures Net(counts) <= 0
  {
    if |counts| > 0 {
      NetNoEntry(counts[..|counts| - 1]);
    }
  }

  /** Counted events alternate: between two entries of one track at one room there is
      an exit, and between two exits an entry. */
  lemma CountsAlternate(prev: Option<int>, sides: seq<int>, dir: Direction, i: nat, j: nat)
    requires Remembered(prev) && AllSides(sides)
    requires i < j < |sides|
    requires var ev := Run(prev, sides, dir).1; ev[i] != NoCount && ev[j] == ev[i]
    ensures var ev := Run(prev, sides, dir).1;
      exists k :: i < k < j && ev[k] != NoCount && ev[k] != ev[i]
  {
    var ev := Run(prev, sides, dir).1;
    if forall k :: i < k < j ==> ev[k] == NoCount || ev[k] == ev[i] {
      var mid := ev[i + 1..j];
      assert ev[i..j + 1] == [ev[i]] + mid + [ev[j]];
      NetAppend([ev[i]] + mid, [ev[j]]);
      NetAppend([ev[i]], mid);
      assert [ev[i]][..0] == [];
      assert [ev[j]][..0] == [];
      if ev[i] == Entry {
        NetNoExit(mid);
      } else {
        NetNoEntry(mid);
      }
      WindowNetBounded(prev, sides, dir, i, j + 1);
      assert false;
    }
  }

  /** The readings without the dead-zone ones. */
  function Stable(sides: seq<int>): seq<int>
  {
    if |sides| == 0 then []
    else Stable(sides[..|sides| - 1]) + (if sides[|sides| - 1] == 0 then [] else [sides[|sides| - 1]])
  }

  /** Dead-zone readings are invisible: interleaving any number of them changes
      neither the final memory nor the net count. */
  lemma {:induction false} DeadZoneIrrelevant(prev: Option<int>, sides: seq<int>, dir: Direction)
    ensures Run(prev, sides, dir).0 == Run(prev, Stable(sides), dir).0
    ensures Net(Run(prev, sides, dir).1) == Net(Run(prev, Stable(sides), dir).1)
  {
    if |sides| > 0 {
      var init := sides[..|sides| - 1];
      var curr := sides[|sides| - 1];
      DeadZoneIrrelevant(prev, init, dir);
      var a := Run(prev, init, dir);
      var b := Run(prev, Stable(init), dir);
      NetAppend(a.1, [Step(a.0, curr, dir).1]);
      if curr != 0 {
        var st := Stable(init) + [curr];
        assert Stable(sides) == st;
        assert st[..|st| - 1] == Stable(init);
        NetAppend(b.1, [Step(b.0, curr, dir).1]);
      } else {
        assert Stable(sides) == Stable(init);
      }
    }
  }
}
