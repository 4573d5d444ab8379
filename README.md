# Virtual drum: calibration and hit-detection state machine

`drum.py` turns a webcam picture into a drum kit, and this project models its
core. The operator first draws one circular zone per drum sound with the
mouse. Next, two clicks pick up the HSV colour of the left and right stick.
From then on, each camera frame counts the stick pixels inside every zone.
A zone fires a hit when a stick enters it and can fire again only after the
stick has clearly left (a two-level hysteresis). Hits are played on the first
idle mixer channel out of eight and are dropped when none is idle.

The model consists of these modules:

- `Geometry` (geometry.dfy): the drag radius `int(sqrt(dx**2 + dy**2))`, as an integer floor square root.
- `StickColour` (colour.dfy): the clamped HSV window derived from a clicked pixel.
- `Hysteresis` (hysteresis.dfy): the per-zone `if`/`elif` of `detect_hit`.
  - Over a trace of frames for one zone.
  - As the in-place loop over all zones in calibration order.
- `Voices` (voices.dfy): first-free channel dispatch.
  - A specification function on the busy flags.
  - The nested loop with `break` on an `array<bool>`.
- `Sequences` (sequences.dfy): distinctness and Python's `list.index`.
- `Drum` (drum.dfy): the `Session` class.
  - Its fields are the script's module globals: `drum_zones`, `prev_hits`, `current_drum`, `selecting`, `selected_zone`, `radius`, `setting_drum_areas`, `stick_colors`, and the busy flags of `CHANNELS`.
  - Its methods are the pointer callback (`Down`, `Move`, `Up`, `ColorClick`), `next_drum` (`NextDrum`), the radius rebinding done by the overlay loop (`RenderFrame`) and `detect_hit` (`DetectStep`).
  - The class invariant `Valid` states calibration progress: after k commits the zones are exactly the first k drum names, inserted in that order. While names remain, `current_drum` is name k, and the commit of the last name ends zone setup.

A Python dict is modelled as a `map` together with `order`, the sequence of
its keys in insertion order, because `detect_hit` iterates `drum_zones` in
that order. The script's `len(drum_zones)` is `|order|`, and lemma
`ZoneCount` proves that this equals the number of keys.

Two behaviours of the code are easy to miss:

- **Pointer-up without pointer-down is not ignored.** The code commits the current drum with the last clicked centre, because `selected_zone` is never cleared. The radius is then 0, or the previous zone's radius if a frame was drawn in between. See `Drum.UpWithoutDown` and `Drum.UpAfterFrame`.
- **Zero-area zone.** A zone of zero area has threshold 0 and never releases, so it fires at most once.

## Model

| member | source | states |
|---|---|---|
| Geometry.ISqrt | drum.py:42 | the result is the largest `r` with `r * r` at most its argument |
| Geometry.DragRadius | drum.py:42 | the radius is the truncated Euclidean distance from the centre to the pointer: its square is at most the squared distance and the next integer's square exceeds it; it is 0 exactly when the pointer is on the centre |
| Geometry.DragRadiusExample | drum.py:42 | a drag from (10, 10) to (13, 14) gives radius 5 |
| StickColour.RangeOf | drum.py:58-60 | lower bound ≤ sampled pixel ≤ upper bound on every component; the upper saturation and value are always 255; a pixel lies in the window exactly when its hue is within 20 of the sample and its saturation and value are at most 100 below |
| StickColour.RangeOfExample | drum.py:58-60 | the pixel (100, 150, 200) gives the window (80, 50, 100) .. (120, 255, 255) |
| StickColour.RangeOfClamps | drum.py:59-60 | bounds are clamped to 0 and 255 rather than wrapped |
| Sequences.FirstIndex | drum.py:69 | the position of the first occurrence of an element: it holds the element and no earlier position does |
| Sequences.IndexOf | drum.py:69 | the scan of `list.index` returns the first occurrence |
| Sequences.IndexOfNoRepeats | drum.py:68-69 | in the list of drum names, which has no repeats, `index` of the name at position k is k |
| Hysteresis.Next | drum.py:95-99 | a hit is emitted exactly when the zone was idle and either count is strictly above the threshold, and it leaves the zone active; without a hit the zone is active afterwards exactly when it was active and not both counts are strictly below half the threshold, so an active zone is released only below half the threshold, is otherwise held, and an idle zone stays idle |
| Hysteresis.ReplayStep | drum.py:95-99 | each frame of a trace is one `Next` step from the state the previous frame left |
| Hysteresis.ReplayAppend | drum.py:95-99 | replaying two traces in turn equals replaying their concatenation |
| Hysteresis.StaysActive | drum.py:95-99 | an active zone stays active through any stretch of frames without a release |
| Hysteresis.OneHitPerEntry | drum.py:95-99 | between any two hits of a zone there is a frame that releases it |
| Hysteresis.Linger | drum.py:98-99 | an active zone emits nothing and stays active while no frame falls below half the threshold |
| Hysteresis.OneShotPerEntry | drum.py:95-99 | entry above the threshold, any number of frames above the release level, then exit below it: exactly one hit, on the entry frame, and a release on the exit frame |
| Hysteresis.TwoEntriesTwoHits | drum.py:95-99 | rise, release, rise again, release: exactly two hits |
| Hysteresis.ExampleTrace | drum.py:95-99 | counts 0, 120, 140, 90, 90, 40 against threshold 100 give one hit, on the second frame, and a release on the last |
| Hysteresis.ZeroThresholdNeverReleases | drum.py:98 | with threshold 0 an active zone stays active and silent on every frame |
| Hysteresis.ZeroThresholdFiresAtMostOnce | drum.py:95-99 | with threshold 0 a zone fires at most once over any trace |
| Hysteresis.FlagsAfterSpec | drum.py:86-99 | after the zone loop the flags have the same zones; each visited zone has moved one `Next` step from its flag before the loop, every other zone is unchanged |
| Hysteresis.FlagsAfterStep | drum.py:86-99 | proof step for the flags invariant of `EvaluateZones`: visiting one more zone changes only that zone's flag |
| Hysteresis.HitsOfStep | drum.py:86-99 | proof step for the hit-list invariant of `EvaluateZones`: visiting one more zone appends that zone when it fires, and nothing otherwise |
| Hysteresis.HitsOfMembership | drum.py:86-99 | a zone is in the hit list exactly when it is one of the visited zones and its own `Next` step emits a hit |
| Hysteresis.HitsOfOrdered | drum.py:86-99 | the hit list follows zone order and names no zone twice |
| Hysteresis.VisitZone | drum.py:88-99 | one pass of the loop body changes only that zone's flag, by one `Next` step, and appends the zone to the hits exactly when `Next` emits a hit |
| Hysteresis.EvaluateZones | drum.py:86-99 | the in-place loop leaves the zones' flags as `FlagsAfterSpec` describes and returns the hit list of all zones in order |
| Voices.FirstFree | drum.py:103-106 | the chosen channel is idle and every channel before it is busy; no channel is chosen only when all are busy |
| Voices.DispatchFrame | drum.py:102-106 | busy channels stay busy; every played hit went to a channel idle before the frame and busy after it; a channel becomes busy only when some hit was played on it |
| Voices.DispatchAbove | drum.py:102-106 | when every channel below m is busy, no hit is played below m |
| Voices.DispatchIncreasing | drum.py:102-106 | channels are handed out in strictly increasing order, so distinct hits get distinct channels; after the first dropped hit every hit is dropped |
| Voices.CountFreeMark | drum.py:105 | playing on an idle channel leaves one idle channel fewer |
| Voices.CountFreeZero | drum.py:103-104 | no channel is found exactly when no channel is idle |
| Voices.DispatchCount | drum.py:102-106 | the number of hits played is the smaller of the number of hits and the number of idle channels |
| Voices.TwoVoicesThreeHits | drum.py:102-106 | two idle channels and three hits: channels 0 and 1 for the first two hits, the third dropped |
| Voices.PlayHits | drum.py:102-106 | the nested loop with `break` plays each hit on the channel the dispatch specification chooses and leaves the busy flags as it says |
| Drum.DrumNamesDistinct | drum.py:12-20 | the seven sound names are distinct |
| Drum.CommitProgress | drum.py:43-54 | committing the current name during setup adds a key not yet present and keeps calibration progress: the first k+1 names are committed, and the next name becomes current unless setup is over |
| Drum.OrderIsDistinct | drum.py:47-48 | no zone is committed twice and every zone has a `prev_hits` flag |
| Drum.ZoneCount | drum.py:51 | the number of zones is the number of commits, so `len(drum_zones)` can be read off the insertion order |
| Drum.Session.constructor | drum.py:22-31 | the initial globals: no zones, no flags, no centre, radius 0, zone setup on, both colours unset, the first name current (drum.py:112-113), all eight channels idle |
| Drum.Session.NextDrum | drum.py:66-71 | the current name becomes the one after its first occurrence in the name list, and stays put on the last name |
| Drum.Session.Down | drum.py:37-40 | during setup, with a non-empty current name, a click records the centre and starts a drag; after setup it samples a stick colour when a frame exists; nothing else changes |
| Drum.Session.ColorClick | drum.py:55-64 | the first colour click fills `left`, the second fills `right`, later clicks change neither |
| Drum.Session.Move | drum.py:40-42 | during a drag the radius becomes the drag radius to the pointer, otherwise it is unchanged |
| Drum.Session.CommitKeepsValid | drum.py:43-54 | the state a commit produces satisfies the calibration invariant |
| Drum.Session.Up | drum.py:43-54 | during setup the current name gets the last centre and radius and an idle flag, is appended to the zone order, the drag ends with radius 0, and the next name becomes current or setup ends after the last name; it fails exactly when no centre was ever clicked, changing nothing; outside setup nothing changes |
| Drum.Session.RenderFrame | drum.py:123 | after a frame the global radius holds the radius of the last committed zone, or is unchanged when there is none |
| Drum.Session.FlagsKeepValid | drum.py:86-99 | replacing the `prev_hits` flags without changing their zones keeps the invariant |
| Drum.Session.DetectStep | drum.py:73-106 | while setup runs or a colour is unset nothing changes and nothing plays; otherwise every zone moves one `Next` step, the hits are the firing zones in calibration order, and they are played as the dispatch specification says |
| Drum.UpWithoutDown | drum.py:43-54 | a second pointer-up with no pointer-down before it commits the next drum at the old centre with radius 0, and calibration moves on to `high_tom` |
| Drum.UpAfterFrame | drum.py:123 | with a frame drawn between the two pointer-ups, the second drum is committed as a copy of the first zone |

## Left out

- Camera capture, the window, the overlay drawing and key handling (drum.py:108-150) are input and output. They affect the callback's globals in two ways. The capture loop rebinds `frame` (drum.py:117), and the overlay drawing (drum.py:124-141) paints circles and text onto it before a colour click samples it; that frame reaches the model only as `Down`'s `pixel` and through the assumption that a frame exists (see `Drum.Session.Up` below). The loop at drum.py:123 also rebinds `radius`, which `RenderFrame` models.
- pygame start-up, loading the sounds and the sound itself (drum.py:3-20, 105) are left out. A channel is modelled only by its busy flag. Playing marks the flag busy. The audio layer clears it, which is outside the model.
- The OpenCV pixel operations (`cvtColor`, `inRange`, `morphologyEx`, `bitwise_and`, `countNonZero`) and the rasterised zone mask are foreign library calls. `DetectStep` takes the left and right stick pixel counts of each zone as inputs. No claim is made about the shape of the mask.
- Drum.Session.DetectStep: the thresholds are inputs, one abstract `real` per zone. The floating-point area `np.pi * radius**2` and `area * 0.05` are not computed, and release is at half the threshold.
- Geometry.DragRadius: the float square root is modelled as the exact integer floor square root. Float rounding for distances beyond 2^26 pixels is not modelled.
- Drum.Session.Up: the exception raised when no centre was ever clicked is modelled as `ok == false` with nothing changed. The exception raised by `frame.shape` before the first frame is read (drum.py:44) is not modelled: a frame is taken to exist.
- Drum.Session.Down: the HSV value under the pointer is a parameter (`None` before the first frame), so image indexing at the pointer, including numpy's negative indices, is not modelled.
- StickColour.RangeOf: hue is a byte like the other components, and the window is clamped at 255 as the code does. OpenCV's 8-bit hue stops at 179, and hue wrap-around for reds is not handled by the code or the model.
- `ValueError` from `list.index` (drum.py:69) cannot happen: the current name is always in the list, so `NextDrum` requires it.
- The module-level loop, its termination and resource release (drum.py:115-150) are not modelled, and neither are concurrency and audio timing.
