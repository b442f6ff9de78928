# Traffix dashboard and intersection simulation — a Dafny model

Traffix has two halves. The browser dashboard (`script.js`, with a trimmed
variant in `static/app.js`) draws roads and traffic signals from
OpenStreetMap over a Leaflet map. The pygame simulation (`main.py`) runs
one four-way intersection whose lights are switched by a Q-learning agent.
This project models the logic of both halves in Dafny and proves what that
logic promises.

Dashboard (modules `OverpassQuery`, `OverpassCycle`, `Detection`, `CameraFeeds`):

- **Query tiers.** The zoom level picks the road-class regular expression and
  decides whether signal nodes are requested. The regex text is given meaning
  by splitting its alternation, and the road filter is proved to be exactly
  the three or the eight classes.
- **Refresh cycle.** `MapView` is a class holding the two layer groups (as
  sequences) and the loading flag. `FetchAndProcessMapData` does the
  following, in order:
  - clears both layers;
  - queries a `fetch` parameter that stands for the network and JSON decoding;
  - builds the node table in a loop;
  - resolves ways and collects signal markers in a second loop;
  - draws one polyline per path.

  The random draws are a parameter `random: nat -> real`: line `k` uses
  draws `2k` (colour) and `2k+1` (weight). `drawTrafficLines` reads the zoom
  again after the reply arrives, so the model takes a separate `drawZoom`.
- `script.js:70-161` and `static/app.js:48-129` run the same cycle line for
  line:

  | step | `script.js` | `static/app.js` |
  |---|---|---|
  | filter | 79-84 | 57 |
  | signal part | 86-92 | 60-66 |
  | node table | 111-116 | 86-89 |
  | ways | 118-125 | 91-97 |
  | signals | 127-131 | 100-104 |
  | `finally` | 138-140 | 110-112 |
  | weights | 148-156 | 119-124 |

  One model covers both files, and the table below cites whichever file a
  member is easier to read against.
- **Detection toggle.** The per-camera toggle (`toggleDetection`) is a state
  machine over the map of active timers, the button state and the overlays.
- **Camera feeds.** `extractYouTubeId` is modelled as the regular expression
  it runs, with its greedy backtracking made explicit (the last marker on the
  first line wins). The other camera helper is the `streamSrc` derivation.

Simulation (modules `Intersection`, `Vehicles`, `QLearning`, `Simulation`):

- **Vehicles.** A `Vehicle` class has mutable `x, y, w, h, stopped,
  waitTime`. Its `update`, `handle_intersection` and `handle_collisions`
  methods are proved against a value-level `Updated` function.
  `colliderect` is taken as strict overlap on both axes.
- **Agent.** `TrafficAI` holds a nested Q-table. Its outer key is
  `str(state)`. Its inner dictionaries are ordered association lists, so
  `max` breaks ties by insertion order as Python does.
- **Action keys.** `str(action)` is modelled faithfully. The exploiting
  branch of `choose_action` therefore returns a string key, and `action == 1`
  in the main loop holds only for the int drawn by `random.choice`. The model
  proves that once a state has been learnt, only an exploring draw can start
  a yellow phase in it.
- **Main loop.** `Controller.Step` is the light-phase state machine of the
  main loop (lines 278-306), proved against the pure `LightStep`.
  `Controller.Frame` adds the vehicle updates and the reward.
- **Screen constants.** They are exact integers: `SCREEN_HEIGHT / 2` is 400,
  so the stop-line windows are `[495, 500]` and `[300, 305]`.

The zoom decides only which elements are requested. Every signal-tagged
node in a reply is marked at any zoom (`SignalNodeMarkedAtAnyZoom`). A query
below zoom 14 asks only for untagged `skel` nodes, so its reply yields no
markers (`UntaggedNodesGiveNoMarkers`).

## Model

| member | source | states |
|---|---|---|
| `OverpassQuery.RoadFilterTiers` | script.js:79-84 | below zoom 13 the regex accepts exactly primary, trunk and motorway; from zoom 13 it accepts exactly the eight classes including the three `_link` ones |
| `OverpassQuery.AlternativesOfAlternation` | static/app.js:57 | the anchored alternation `^(c1\|...\|cn)$` accepts exactly the classes it was built from (split/join round trip) |
| `OverpassQuery.SignalQueryPart` | script.js:86-92 | the signal fragment is non-empty if and only if zoom ≥ 14 |
| `OverpassQuery.HighwayTypes` | script.js:79-84 | the `highwayTypes` pattern is an anchored alternation whose alternatives are exactly the road classes of the zoom's tier |
| `OverpassQuery.QueryDependsOnlyOnTier` | static/app.js:57-78 | `Query`: two zoom levels give the same query text exactly when they fall in the same tier (<13, 13, ≥14); the helper `FilterDistinguishes` shows the texts of different tiers differ |
| `OverpassCycle.BuildNodeTable` | script.js:111-116 | the loop builds the node table: each node's `[lat, lon]` under its id, later nodes overwriting earlier ones |
| `OverpassCycle.NodeTableDomain` | static/app.js:86-89 | `NodeTable`: an id is in the table exactly when some `node` element of the reply carries it |
| `OverpassCycle.NodeTableLastWins` | script.js:112-116 | `NodeTable`: for duplicated ids the table holds the coordinates of the last such node |
| `OverpassCycle.ResolvePath` | script.js:121 | a resolved path is never longer than the way's id list |
| `OverpassCycle.ResolveAppend` | script.js:121 | resolution preserves order: it distributes over concatenation of id lists |
| `OverpassCycle.UnknownIdDropped` | script.js:121 | an id missing from the table contributes nothing, wherever it sits |
| `OverpassCycle.ResolveAllKnown` | static/app.js:95 | when every id resolves, the path has one point per id, in id order |
| `OverpassCycle.ResolvedPointsComeFromIds` | script.js:121 | every point of a path is the table entry of one of the way's ids |
| `OverpassCycle.RoadData` | script.js:118-125 | every kept path has more than one point, and there are at most as many paths as elements |
| `OverpassCycle.RoadDataMembers` | script.js:119-124 | a path is kept exactly when it is the resolution of a way element with more than one resolvable point |
| `OverpassCycle.RoadDataAppend` | static/app.js:91-97 | paths are appended in element order: road data of a concatenated reply is the concatenation |
| `OverpassCycle.SignalMarkers` | script.js:127-131 | there are at most as many markers as elements |
| `OverpassCycle.SignalMarkersSingle` | script.js:127-131 | one element yields its own marker exactly when it is a signal node, and nothing otherwise |
| `OverpassCycle.SignalMarkersAppend` | script.js:127-131 | markers keep element order: the markers of a concatenated reply are the concatenation of the markers |
| `OverpassCycle.SignalMarkersMembers` | script.js:127-131 | a marker sits at a node exactly when that node has `highway` or `crossing` equal to `traffic_signals` |
| `OverpassCycle.UntaggedNodesGiveNoMarkers` | static/app.js:100-104 | a reply whose nodes carry no tags yields no markers |
| `OverpassCycle.SignalNodeMarkedAtAnyZoom` | script.js:86-131 | the zoom-12 query requests no signals, yet a signal node in a reply is still marked at its coordinates |
| `OverpassCycle.SinglePrimaryWay` | static/app.js:86-104 | two nodes and one primary way give exactly one two-point path and no marker |
| `OverpassCycle.BaseWeight` | script.js:148-151 | the base weight is 2, 3 or 4: 2 exactly below zoom 13, 4 exactly from zoom 15 |
| `OverpassCycle.BaseWeightMonotone` | static/app.js:119 | zooming in never lowers the base weight |
| `OverpassCycle.ColorIndex` | script.js:155 | `floor(draw * 3)` is a valid palette index for a draw in [0, 1) |
| `OverpassCycle.TrafficLineStyle` | script.js:144-160 | line k draws path k in a palette colour at opacity 0.8; its weight is the zoom band's base weight, plus 2 exactly when its weight draw exceeds 0.8 |
| `OverpassCycle.TrafficLines` | static/app.js:121-128 | one line per path |
| `OverpassCycle.MapView.constructor` | script.js:40-41 | both layers start empty and the indicator hidden |
| `OverpassCycle.MapView.FetchAndProcessMapData` | script.js:70-140 | afterwards the layers hold only this reply's lines and markers (empty on failure), and the loading indicator is hidden on both paths |
| `OverpassCycle.MapView.ProcessElements` | static/app.js:91-105 | the second loop returns the road data and appends exactly the signal markers, in element order |
| `OverpassCycle.MapView.DrawTrafficLines` | script.js:144-161 | the traffic layer gains exactly the styled lines of the road data |
| `Detection.Toggled` | script.js:390-418 | without a button nothing changes; otherwise the camera runs afterwards exactly when it was idle, the model was loaded and it has an iframe; the alert is added exactly when an idle camera finds no model; other cameras keep their timers, button state, button labels and overlays; buttons, iframes and model are untouched |
| `Detection.Start` | script.js:421-438 | only the timer map changes: with an iframe the camera's timer is the new handle, without one nothing changes; other cameras' timers are untouched |
| `Detection.ToggleStopsRunning` | script.js:399-407 | toggling a running camera removes its timer, clears its overlay, resets its button and leaves all other timers unchanged |
| `Detection.ToggleWithoutModel` | script.js:408-414 | toggling an idle camera with no model loaded only raises the alert |
| `Detection.ToggleStarts` | script.js:415-417 | with a model and an iframe, toggling an idle camera starts its timer and marks the button active |
| `Detection.ToggleWithoutIframe` | script.js:421-426 | without an iframe no timer starts, yet the button turns active, and the next toggle tries to start again |
| `Detection.ToggleTwiceRestoresTimers` | script.js:399-417 | start then stop leaves the timer map as it was |
| `Detection.ToggleKeepsHandlesPositive` | script.js:430 | with positive `setInterval` handles, every stored handle stays truthy |
| `Detection.DetectionControls.ToggleDetection` | script.js:390-418 | the in-place toggle changes the controls exactly as `Toggled` says |
| `Detection.DetectionControls.StartDetection` | script.js:421-438 | a timer is stored only when the camera has an iframe |
| `Detection.DetectionControls.ClearDetectionOverlay` | script.js:515-521 | an existing overlay loses its boxes; nothing else changes |
| `Detection.DetectionControls.ModelLoaded` | script.js:320 | loading the model changes only the model flag |
| `Detection.DetectionControls.constructor` | script.js:7-9 | no model and no running timers at start |
| `CameraFeeds.MarkerFromMatches` | script.js:309 | group 1 can start at a position exactly when one of the seven alternatives matches there |
| `CameraFeeds.LastMarkerSound` | script.js:309-310 | the greedy `^.*` stops at the last position on the first line where an alternative matches: the position found is reachable and starts a match, and no later reachable position does; with none found, no reachable position starts a match (`LastMarkerMatches` and `LastMarkerNoLater` prove the two halves by induction on the scan) |
| `CameraFeeds.IdRun` | script.js:309 | group 2 is the longest run without `#`, `&` or `?` |
| `CameraFeeds.ExtractYouTubeId` | script.js:308-312 | a returned id is 11 UTF-16 units long (a character above U+FFFF counts twice) and holds no `#`, `&` or `?` |
| `CameraFeeds.ExtractYouTubeIdFollowsMarker` | script.js:308-312 | a returned id is the text right after a marker on the first line; with no marker there the result is null |
| `CameraFeeds.NoMarkerInsideId` | script.js:309 | no alternative can start inside a run without `/`, `=`, `#`, `&` or `?` |
| `CameraFeeds.LastMarkerCharacterized` | script.js:309-310 | the scan finds a position exactly when it is the last one on the first line where an alternative matches (`IsLastMarker`), so there is at most one |
| `CameraFeeds.ExtractYouTubeIdIsLastRun` | script.js:308-312 | the result is decided by the last marker on the first line: it is the whole run after that marker when the run is 11 UTF-16 units long and null otherwise; with no marker it is null |
| `CameraFeeds.MarkerWordLength` | script.js:308-312 | after `v/`, `embed/`, `watch?v=`, `&v=` or `live/` on the first line, a run without `/`, `=`, `#`, `&` or `?` is returned exactly when it is 11 UTF-16 units long, and null otherwise |
| `CameraFeeds.MarkerWordQueryLength` | script.js:308-312 | the same with a query `?…` after the run: the query is cut off at `?` and the run alone decides the result |
| `CameraFeeds.SharedLiveAddress` | script.js:308-312 | the camera address listed at script.js:184, `https://www.youtube.com/live/y-Os52eW2rg?si=yf9CIMI81lJfNftb`, yields `y-Os52eW2rg` |
| `CameraFeeds.WatchAddress` | script.js:308-312 | `<anything on one line>watch?v=<11 id chars>` yields exactly that id (the last marker wins) |
| `CameraFeeds.WrongLengthRefused` | script.js:311 | an id of any other length is refused |
| `CameraFeeds.LongRunRefused` | script.js:311 | fifteen id characters after `watch?v=` give null: the run is not cut down to eleven |
| `CameraFeeds.AstralCharCountsTwice` | script.js:311 | ten letters and one emoji are 12 UTF-16 units, so `watch?v=` followed by them yields null |
| `CameraFeeds.Utf16LengthOfBmp` | script.js:311 | without characters above U+FFFF, `length` equals the number of characters |
| `CameraFeeds.StreamSrc` | static/app.js:141 | empty exactly when `streamUrl` is missing or empty; otherwise `/video_feed?url=` followed by the encoded address |
| `CameraFeeds.VideoContainer` | static/app.js:142-145 | the "No stream URL" placeholder shows exactly when `streamSrc` is empty, else an image of that source |
| `Intersection.BaseStatesExclusive` | main.py:28-31 | each base light state has exactly one green axis, and the two states differ in which |
| `Intersection.Decided` | main.py:289-291 | a yellow phase starts (timer 0) only when a switch is requested and none is running; the index is untouched |
| `Intersection.YellowState` | main.py:298-301 | during yellow the previously green axis shows yellow and the other red |
| `Intersection.Advanced` | main.py:296-306 | the yellow block counts the timer up, flips the index exactly when the timer exceeds 50, keeps the index in {0,1}, and never shows two greens |
| `Intersection.LightStep` | main.py:289-306 | one frame keeps the index in {0,1} and shows no two greens |
| `Intersection.IdleFrame` | main.py:289-306 | outside yellow, a frame shows the base state unless a switch starts yellow (timer 1 after the frame) |
| `Intersection.YellowIgnoresRequests` | main.py:289-302 | while yellow, requests are ignored and each frame only advances the timer |
| `Intersection.YellowPhaseLength` | main.py:289-304 | a yellow phase flips the index exactly 51 frames after it starts, whatever is requested meanwhile |
| `Vehicles.Moved` | main.py:79-82 | a move never changes the rectangle's size |
| `Vehicles.MovedZero` | main.py:79-82 | a move of zero pixels leaves the rectangle in place |
| `Vehicles.MovedAdditive` | main.py:79-82 | two moves in the same direction add up to one move by the sum |
| `Vehicles.MovedAlongAxis` | main.py:79-82 | north and south moves keep x, east and west moves keep y, and a move changes the rectangle exactly when the distance is non-zero |
| `Vehicles.StopLineWindows` | main.py:84-91 | `NearStopLine` (`is_near_intersection`) holds exactly: north 495 ≤ bottom ≤ 500, south 300 ≤ top ≤ 305, east 300 ≤ left ≤ 305, west 495 ≤ right ≤ 500 |
| `Vehicles.CannotSkipStopLine` | main.py:42 | at speed 3 a vehicle before its window lands in it after some number of whole steps |
| `Vehicles.Updated` | main.py:66-119 | stopped after update iff blocked ahead or (at the stop line and its axis is not green); stopped means wait + 1 and no move, otherwise wait 0 and one step |
| `Vehicles.StopLineObeysLight` | main.py:93-99 | at the stop line with nobody ahead, a vehicle stops iff its axis light is not green, whatever its previous flag |
| `Vehicles.AwayFromStopLine` | main.py:101-119 | `AfterCollisions`: away from the stop line only a same-direction vehicle ahead stops it |
| `Vehicles.UpdateIsOneFrameLater` | main.py:66-99 | after an update the vehicle either waited one frame more where it stood or moved `speed` pixels along its direction with its counter reset; direction and speed are kept; stopped holds exactly when the wait time is positive; a vehicle at its stop line whose axis light is not green waited |
| `Vehicles.CalculateReward` | main.py:216-220 | the reward is never positive, and zero exactly when no vehicle waits |
| `Vehicles.RewardOfOneMoreWaitingFrame` | main.py:218-220 | one more waiting frame of one vehicle lowers the reward by exactly 1 |
| `Vehicles.Vehicle.constructor` | main.py:46-64 | a new vehicle is 30×50, turned to 50×30 for east and west, moving, with no wait |
| `Vehicles.Vehicle.HandleIntersection` | main.py:93-99 | stopped iff the vehicle's axis light is not green |
| `Vehicles.Vehicle.Others` | main.py:103-104 | the group without the vehicle itself, at most as many as the group |
| `Vehicles.Vehicle.BlockedByOthers` | main.py:113-116 | blocked by the snapshots exactly when blocked by some other vehicle of the group |
| `Vehicles.Vehicle.HandleCollisions` | main.py:101-119 | the loop stops the vehicle at the first same-direction overlap; with none, it unstops only away from the stop line |
| `Vehicles.Vehicle.Update` | main.py:66-82 | the in-place update matches `Updated` against the other vehicles as they stand |
| `Vehicles.Vehicle.CheckStop` | main.py:68-73 | the stop flag after the stop-line and collision checks, against the other vehicles |
| `Vehicles.Vehicle.Advance` | main.py:75-82 | a stopped vehicle only counts one more waiting frame; a moving one resets its counter and moves one step |
| `Vehicles.UpdateAll` | main.py:309-310 | after the group update every vehicle is one frame later: waited where it stood, or moved `speed` pixels along its direction with its wait reset; one that began at its stop line facing a light that is not green waited |
| `QLearning.Discretize` | main.py:137-140 | level 0 below 3, 1 below 6, 2 otherwise |
| `QLearning.GetStateRepresentation` | main.py:131-142 | each axis level is 0, 1 or 2 exactly when the sum of its two direction counts (missing ones 0) is below 3, in [3, 6) or at least 6 |
| `QLearning.StateOfAxisTotals` | main.py:131-142 | the state depends only on the NS and EW totals, monotonically |
| `QLearning.MissingDirectionCountsZero` | main.py:134-135 | a missing direction counts as 0 |
| `QLearning.StateKey` | main.py:156-157 | `str(state)` reads `(a, b)` with the two levels as digits |
| `QLearning.StateKeyInjective` | main.py:156-157 | distinct states get distinct `str(state)` keys |
| `QLearning.ActionKey` | main.py:159 | `str` of an int action is its single digit, and of a string key the key itself |
| `QLearning.ActionKeyOfKey` | main.py:167 | a key read back from the table is filed under itself, and the ints 0 and 1 are filed apart |
| `QLearning.KeyConflatesSwitch` | main.py:152 | the int 1 and the string "1" share a table key, but only the int equals 1 |
| `QLearning.Get` | main.py:159 | a lookup succeeds exactly for present keys and returns that key's value |
| `QLearning.Put` | main.py:167 | an assignment adds at most one entry |
| `QLearning.PutKeys` | main.py:167 | an assignment keeps the keys in their order and appends a key that was missing |
| `QLearning.PutGet` | main.py:167 | after `row[key] = v` the key reads `v` and every other key reads what it read before |
| `QLearning.PutKeepsKeysUnique` | main.py:167 | assignment never duplicates a key |
| `QLearning.UpdateKeepsKeysUnique` | main.py:165-167 | an update leaves every inner dictionary free of duplicate keys |
| `QLearning.BestIndex` | main.py:152 | `max(..., key=get)` picks the first entry with the largest value |
| `QLearning.MaxValue` | main.py:161 | `max(values, default=0)`: 0 for an empty or missing row, else the largest value |
| `QLearning.UpdatedTable` | main.py:154-167 | `q[str(state)][str(action)]` takes the Bellman value (old value and next max default to 0); the inner map is created if missing; every other entry is unchanged |
| `QLearning.Choose` | main.py:144-152 | exploring returns the drawn int; exploiting a learnt state returns a string key of maximal value (first among equals); only an int can be a switch |
| `QLearning.TrafficAI.constructor` | main.py:123-129 | rates 0.1, 0.9, 0.1 and an empty table, whose inner dictionaries hold no duplicate keys |
| `QLearning.TrafficAI.UpdateQTable` | main.py:154-167 | the in-place update yields exactly `UpdatedTable` and keeps the inner dictionaries free of duplicate keys |
| `QLearning.TrafficAI.ChooseAction` | main.py:144-152 | a switch needs an exploring draw or a state the table has not learnt |
| `QLearning.TrafficAI.LearntStateSwitchesOnlyWhenExploring` | main.py:152-167 | after an update for a state, choosing in that state switches only when exploring |
| `Simulation.Controller.constructor` | main.py:231-251 | timers 0, index 0, no yellow phase, no last decision, reward 0 |
| `Simulation.Controller.Step` | main.py:278-306 | decision every 181st frame, learning from the last decision, then `LightStep`; never two greens; a yellow phase starts only from exploration or an unlearnt state |
| `Simulation.Controller.Decide` | main.py:280-294 | a decision frame resets the timer, learns from the last decision, records the new one and requests a switch exactly when the chosen action is the int 1 |
| `Simulation.Controller.Learn` | main.py:283-285 | the table is updated only when a previous decision exists |
| `Simulation.Controller.AdvanceLight` | main.py:296-306 | the light shown and the yellow countdown follow `Advanced` |
| `Simulation.Controller.MoveVehicles` | main.py:309-312 | every vehicle is one frame later under the active light (waited where it stood or moved `speed` pixels along its direction; held at its stop line when its axis is not green), and the recorded reward is minus their total wait, so never positive |
| `Simulation.Controller.Frame` | main.py:276-312 | never two greens; every vehicle is one frame later under the light shown (waited in place or moved `speed` pixels), held at its stop line when its axis is not green; the frame's reward is minus the total wait of the updated vehicles |

## Left out

- The `fetch` to the Overpass interpreter, JSON decoding and `encodeURIComponent` are foreign calls. They are parameters (`fetch`, `encode`), and a failed request or undecodable reply is `Reply.FetchFailed`.
- The query is modelled without the whitespace of the template literals and without the bounding-box formatting (the bbox is a string parameter).
- Leaflet maps, tiles, markers and icons, SVG strings, the DOM, the live clock and the video-tab toggling are presentation. Markers keep only position and popup text; lines keep path, colour, weight and opacity.
- Overlapping `moveend` cycles are async interleaving. The code has no guard against a stale reply, and the model adds none.
- HLS.js playback, detection-model loading, `runDetection`, `generateMockDetections` and `drawDetectionBoxes` are third-party players and random floating-point boxes. An overlay is reduced to its box count.
- `createDetectionOverlay` and `addDetectionButtonToInfo` are DOM construction. The model has a fixed set of cameras with a toggle button and an iframe.
- The camera roster fetch (`initializeVideoGrid`) and the rest of `createVideoPlayer`'s markup are DOM wiring.
- `Math.random`, `random.random` and `random.choice` are input parameters. The epsilon test is the comparison of the `draw` parameter with `epsilon`.
- Q-values, coordinates and draws are exact `real`s. Floating-point rounding of the Bellman formula and of `lat`/`lon` is not modelled.
- Loading and saving the Q-table file is I/O. The agent starts with an empty table.
- `detect_traffic` (OpenCV thresholds and contours) is a foreign library. Its counts are the `counts` parameter.
- pygame drawing, the event loop, `clock.tick` and `cv2.imshow` are I/O.
- Vehicle generation (main.py:259-270) is left out: every `VEHICLE_GENERATION_INTERVAL` frames it places a vehicle with a random direction and colour at that direction's entry point, and the random choice is outside the core. Removal of off-screen vehicles (main.py:315-317) is left out too.
- `colliderect` is foreign. It is modelled as strict axis-aligned overlap, without pygame's special case for empty rectangles.
- `app.py` (Flask routes, the YOLO model, the stream proxy) is not part of this model.
- UpdateAll: states for each vehicle that it waited in place or moved `speed` pixels, and that a light that is not green at its stop line held it, but not which of the two happened when the light let it go: that depends on the vehicles ahead as they stood at its turn, so on the update order; `Vehicle.Update` states it for a single vehicle.
- Controller.MoveVehicles: states the same per-vehicle step as `UpdateAll`; whether a vehicle the light lets go was blocked depends on the update order and is stated only per vehicle, by `Vehicle.Update` and `Updated`.
- Controller.Frame: states the same per-vehicle step as `UpdateAll`, plus the reward and the light; the light-phase details are in `Controller.Step`.
