/** The session state of drum.py: the module globals of drum.py:22-31 and
    the pointer callback, `next_drum` and `detect_hit` that update them. */
module Drum {
  import opened Wrappers
  import opened Sequences
  import opened Geometry
  import opened StickColour
  import opened Hysteresis
  import opened Voices

  /** The keys of `drum_sounds` (drum.py:12-20) in insertion order: the order
      in which zones are calibrated. */
  const DrumNames: seq<string> :=
    ["snare", "floor_tom", "high_tom", "Low_tom", "hi_hat", "ride_cymbal", "crash_cymbal"]

  lemma DrumNamesDistinct()
    ensures Distinct(DrumNames)
  {
  }

  /** The geometric part `(center, radius)` of a `drum_zones` entry. */
  datatype Zone = Zone(center: Point, radius: nat)

  /** Zone-calibration progress: after k commits the zones (and their
      `prev_hits` entries) are exactly the first k names, inserted in that
      order; while k < |names| the current name is name k, and setup ends with
      the last commit, the current name staying on the last one. */
  ghost predicate Progress(names: seq<string>, order: seq<string>, zones: map<string, Zone>,
                           prevHits: map<string, bool>, current: string, settingAreas: bool)
  {
    && NoRepeats(names) && 0 < |names|
    && |order| <= |names|
    && order == names[..|order|]
    && (forall d :: d in zones <==> d in order)
    && (forall d :: d in prevHits <==> d in zones)
    && (settingAreas <==> |order| < |names|)
    && current == names[if settingAreas then |order| else |names| - 1]
  }

  /** A commit for the current name during setup keeps `Progress`. */
  lemma CommitProgress(names: seq<string>, order: seq<string>, zones: map<string, Zone>,
                       prevHits: map<string, bool>, current: string, z: Zone)
    requires Progress(names, order, zones, prevHits, current, true)
    ensures current !in zones
    ensures var k := |order| + 1;
            Progress(names, order + [current], zones[current := z], prevHits[current := false],
                     if k < |names| then names[k] else current, k < |names|)
  {
    NoRepeatsDistinct(names);
    assert current !in order by {
      forall i | 0 <= i < |order| ensures order[i] != current {
        assert order[i] == names[i];
      }
    }
  }

  /** The zones in calibration order name no drum twice and all have a `prev_hits` entry. */
  lemma OrderIsDistinct(names: seq<string>, order: seq<string>, zones: map<string, Zone>,
                        prevHits: map<string, bool>, current: string, settingAreas: bool)
    requires Progress(names, order, zones, prevHits, current, settingAreas)
    ensures Distinct(order) && forall d :: d in order ==> d in prevHits
  {
    NoRepeatsDistinct(names);
  }

  /** There are as many zones as commits: `|order|` is `len(drum_zones)`. */
  lemma ZoneCount(names: seq<string>, order: seq<string>, zones: map<string, Zone>,
                  prevHits: map<string, bool>, current: string, settingAreas: bool)
    requires Progress(names, order, zones, prevHits, current, settingAreas)
    ensures |zones| == |order|
  {
    OrderIsDistinct(names, order, zones, prevHits, current, settingAreas);
    DistinctCard(order);
    assert zones.Keys == set d | d in order;
  }

  /** Phase facts of the pointer callback: a drag only happens during zone
      setup and always has a centre, and stick colours are taken after zone
      setup, the left one first. */
  predicate Phases(settingAreas: bool, selecting: bool, selected: Option<Point>,
                   left: Option<ColorRange>, right: Option<ColorRange>)
  {
    && (!settingAreas ==> !selecting)
    && (selecting ==> selected.Some?)
    && (settingAreas ==> left.None?)
    && (right.Some? ==> left.Some?)
  }

  class Session {
    /** The keys of `drum_sounds` in insertion order (`drum_list` in `next_drum`). */
    const names: seq<string>
    /** `drum_zones`, and the insertion order in which a Python dict iterates it. */
    var zones: map<string, Zone>
    var order: seq<string>
    /** `prev_hits`: whether a stick is considered inside each zone. */
    var prevHits: map<string, bool>
    /** `current_drum`: the name whose zone the next pointer-up commits. */
    var current: string
    var selecting: bool
    /** `selected_zone`: the last clicked centre; never cleared. */
    var selected: Option<Point>
    var radius: nat
    var settingAreas: bool
    /** `stick_colors["left"]` and `stick_colors["right"]`. */
    var left: Option<ColorRange>
    var right: Option<ColorRange>
    /** Busy flags of `CHANNELS`; the audio layer clears them. */
    const busy: array<bool>

    /** The calibration invariant: after k commits the zones are exactly the
        first k drum names, `current` is name k while names remain, and zone
        setup ends with the last commit; colours are taken left first. */
    ghost predicate Valid()
      reads this
    {
      && busy.Length == ChannelCount
      && Progress(names, order, zones, prevHits, current, settingAreas)
      && Phases(settingAreas, selecting, selected, left, right)
    }

    /** Hit detection is skipped (drum.py:74-75). */
    predicate Gated()
      reads this
    {
      settingAreas || left.None? || right.None?
    }

    /** The globals as initialised at drum.py:22-31 for the sound names
        `drumNames`, with `current_drum` set to the first name (drum.py:112-113)
        and every channel idle. An empty name list would make `drum_list[0]`
        raise, and the keys of a dictionary are distinct. */
    constructor (drumNames: seq<string>)
      requires NoRepeats(drumNames) && drumNames != []
      ensures Valid() && fresh(busy) && names == drumNames
      ensures zones == map[] && order == [] && prevHits == map[] && current == names[0]
      ensures !selecting && selected.None? && radius == 0 && settingAreas
      ensures left.None? && right.None?
      ensures forall j :: 0 <= j < busy.Length ==> !busy[j]
    {
      names := drumNames;
      zones, order, prevHits := map[], [], map[];
      current := drumNames[0];
      selecting, selected, radius := false, None, 0;
      settingAreas := true;
      left, right := None, None;
      busy := new bool[ChannelCount](_ => false);
    }

    /** `next_drum` (drum.py:66-71): move to the name after the current one,
        staying on the last name. */
    method NextDrum()
      modifies this`current
      requires current in names
      ensures var i := FirstIndex(names, old(current));
              current == if i < |names| - 1 then names[i + 1] else old(current)
    {
      var drumList := names;
      var index := IndexOf(drumList, current);
      if index < |drumList| - 1 {
        current := drumList[index + 1];
      }
    }

    /** Left button down at `(x, y)` (drum.py:38-40, 56-64). During zone setup
        it records the centre, unless `current_drum` is the falsy empty string;
        afterwards it samples a stick colour. `pixel` is the HSV value under the
        pointer in the latest frame, `None` before the first frame has been read. */
    method Down(x: int, y: int, pixel: Option<Hsv>)
      requires Valid()
      modifies this`selected, this`selecting, this`left, this`right
      ensures Valid()
      ensures (left == old(left) && right == old(right)) || (!old(settingAreas) && pixel.Some?)
      ensures old(settingAreas) && current != "" ==> selected == Some(Point(x, y)) && selecting
      ensures !(old(settingAreas) && current != "") ==>
                selected == old(selected) && selecting == old(selecting)
      ensures !old(settingAreas) && pixel.Some? ==>
                && left == (if old(left).None? then Some(RangeOf(pixel.value)) else old(left))
                && right == (if old(left).Some? && old(right).None? then Some(RangeOf(pixel.value)) else old(right))
    {
      if settingAreas {
        if current != "" {
          selected := Some(Point(x, y));
          selecting := true;
        }
      } else if pixel.Some? {
        ColorClick(pixel.value);
      }
    }

    /** Stick-colour calibration (drum.py:56-64): the first click fills the left
        slot, the second the right one, later clicks change nothing. */
    method ColorClick(pixel: Hsv)
      requires Valid() && !settingAreas
      modifies this`left, this`right
      ensures Valid()
      ensures left == if old(left).None? then Some(RangeOf(pixel)) else old(left)
      ensures right == if old(left).Some? && old(right).None? then Some(RangeOf(pixel)) else old(right)
    {
      var range := RangeOf(pixel);
      if left.None? {
        left := Some(range);
      } else if right.None? {
        right := Some(range);
      }
    }

    /** Pointer move to `(x, y)`: while a zone is being dragged, the radius
        follows the pointer (drum.py:41-42); otherwise nothing happens. */
    method Move(x: int, y: int)
      requires Valid()
      modifies this`radius
      ensures Valid()
      ensures settingAreas && selecting ==> radius == DragRadius(selected.value, Point(x, y))
      ensures !(settingAreas && selecting) ==> radius == old(radius)
    {
      if settingAreas && selecting {
        radius := DragRadius(selected.value, Point(x, y));
      }
    }

    /** After a commit from a valid setup state, the fields are valid again. */
    lemma CommitKeepsValid(order0: seq<string>, zones0: map<string, Zone>,
                           prevHits0: map<string, bool>, current0: string, z: Zone)
      requires busy.Length == ChannelCount && left.None? && right.None? && !selecting
      requires Progress(names, order0, zones0, prevHits0, current0, true)
      requires order == order0 + [current0] && zones == zones0[current0 := z]
      requires prevHits == prevHits0[current0 := false]
      requires settingAreas == (|order| < |names|)
      requires current == if settingAreas then names[|order|] else current0
      ensures Valid()
    {
      CommitProgress(names, order0, zones0, prevHits0, current0, z);
    }

    /** Left button up (drum.py:43-54): commit the zone for the current name
        with the last centre and radius, mark it idle, and move on to the next
        name or end zone setup. Nothing happens after setup or when
        `current_drum` is the empty string. `ok` is false when no centre was
        ever clicked: there `cv2.circle` raises before anything is changed. */
    method Up() returns (ok: bool)
      requires Valid()
      modifies this`zones, this`order, this`prevHits, this`selecting, this`radius,
               this`settingAreas, this`current
      ensures Valid()
      ensures ok <==> !(old(settingAreas) && old(current) != "" && old(selected).None?)
      ensures !(old(settingAreas) && old(current) != "") || !ok ==>
                && zones == old(zones) && order == old(order) && prevHits == old(prevHits)
                && selecting == old(selecting) && radius == old(radius)
                && settingAreas == old(settingAreas) && current == old(current)
      ensures old(settingAreas) && old(current) != "" && ok ==>
                && zones == old(zones)[old(current) := Zone(old(selected).value, old(radius))]
                && prevHits == old(prevHits)[old(current) := false]
                && order == old(order) + [old(current)]
                && !selecting && radius == 0
                && settingAreas == (|order| < |names|)
                && current == (if settingAreas then names[|order|] else old(current))
    {
      ok := true;
      if settingAreas && current != "" {
        if selected.None? {
          ok := false;
          return;
        }
        var z := Zone(selected.value, radius);
        ghost var order0, zones0, prevHits0, current0 := order, zones, prevHits, current;
        // `current` is not a key yet, so the dict appends it to its order.
        order := order + [current];
        zones := zones[current := z];
        prevHits := prevHits[current := false];
        selecting := false;
        radius := 0;
        // `len(drum_zones) == len(drum_sounds)`; the dict's length is that of its key order.
        if |order| == |names| {
          settingAreas := false;
        } else {
          assert current == names[|order| - 1];
          IndexOfNoRepeats(names, |order| - 1);
          NextDrum();
        }
        CommitKeepsValid(order0, zones0, prevHits0, current0, z);
      }
    }

    /** The overlay loop of drum.py:123 binds the global `radius` to each
        zone's radius in turn, so after a frame it holds the last zone's radius. */
    method RenderFrame()
      requires Valid()
      modifies this`radius
      ensures Valid()
      ensures radius == if order == [] then old(radius) else zones[order[|order| - 1]].radius
    {
      var i := 0;
      while i < |order|
        invariant 0 <= i <= |order|
        invariant radius == if i == 0 then old(radius) else zones[order[i - 1]].radius
      {
        radius := zones[order[i]].radius;
        i := i + 1;
      }
    }

    /** Replacing the `prev_hits` flags without changing their keys keeps the fields valid. */
    lemma FlagsKeepValid(prevHits0: map<string, bool>)
      requires busy.Length == ChannelCount && Phases(settingAreas, selecting, selected, left, right)
      requires Progress(names, order, zones, prevHits0, current, settingAreas)
      requires prevHits.Keys == prevHits0.Keys
      ensures Valid()
    {
    }

    /** `detect_hit` (drum.py:73-106) on the stick pixel counts and hit
        thresholds of this frame, one entry per zone. Returns the hits in
        zone order and the channel each was played on. */
    method DetectStep(counts: map<string, Counts>, thresholds: map<string, real>)
      returns (hits: seq<string>, channels: seq<Option<nat>>)
      requires Valid()
      requires Covers(order, counts) && Covers(order, thresholds)
      modifies this`prevHits, busy
      ensures Valid()
      ensures old(Gated()) ==>
                prevHits == old(prevHits) && busy[..] == old(busy[..]) && hits == [] && channels == []
      ensures !old(Gated()) ==>
                && prevHits.Keys == old(prevHits).Keys
                && (forall d :: d in order ==>
                      prevHits[d] == Next(old(prevHits)[d], counts[d], thresholds[d]).active)
                && hits == HitsOf(order, old(prevHits), counts, thresholds)
                && channels == Dispatch(hits, old(busy[..])).0
                && busy[..] == Dispatch(hits, old(busy[..])).1
    {
      if Gated() {
        return [], [];
      }
      OrderIsDistinct(names, order, zones, prevHits, current, settingAreas);
      ghost var prevHits0 := prevHits;
      var next;
      next, hits := EvaluateZones(order, prevHits, counts, thresholds);
      prevHits := next;
      FlagsKeepValid(prevHits0);
      channels := PlayHits(busy, hits);
    }
  }

  /** A pointer-up with no pointer-down before it is not ignored: with no
      frame rendered in between, the next drum is committed with the previous
      centre and radius 0, and calibration moves on to the third name. */
  method UpWithoutDown() returns (first: Zone, second: Zone, next: string)
    ensures first == Zone(Point(10, 10), 5) && second == Zone(Point(10, 10), 0)
    ensures next == "high_tom"
  {
    DrumNamesDistinct();
    NoRepeatsDistinct(DrumNames);
    var s := new Session(DrumNames);
    s.Down(10, 10, None);
    s.Move(13, 14);
    DragRadiusExample();
    var ok := s.Up();
    first := s.zones["snare"];
    ok := s.Up();
    second := s.zones["floor_tom"];
    next := s.current;
  }

  /** The same pointer-up after a frame has been rendered: the overlay loop
      has rebound `radius` to the first zone's, so the second zone is a copy
      of the first. */
  method UpAfterFrame() returns (first: Zone, second: Zone)
    ensures first == Zone(Point(10, 10), 5) && second == first
  {
    DrumNamesDistinct();
    NoRepeatsDistinct(DrumNames);
    var s := new Session(DrumNames);
    s.Down(10, 10, None);
    s.Move(13, 14);
    DragRadiusExample();
    var ok := s.Up();
    first := s.zones["snare"];
    s.RenderFrame();
    ok := s.Up();
    second := s.zones["floor_tom"];
  }
}
