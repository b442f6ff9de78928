/**
 * The per-camera detection toggle of the dashboard (`toggleDetection`,
 * `startDetection` and `clearDetectionOverlay` in script.js).  The DOM is
 * reduced to which cameras have a toggle button, an iframe and an overlay,
 * plus each button's `active` class and label.
 */
module Detection {

  const StoppedLabel := "Detect Vehicles"
  const RunningLabel := "Stop detection"
  const ModelNotLoaded := "Detection model not loaded yet. Please wait..."

  /** Everything `toggleDetection` reads or writes. */
  datatype Panel = Panel(
    modelLoaded: bool,               // `model` is not null
    intervals: map<string, int>,     // `detectionIntervals`: camera id to timer handle
    toggles: set<string>,            // cameras whose toggle button is in the document
    iframes: set<string>,            // cameras whose player holds an iframe
    active: set<string>,             // buttons carrying the `active` class
    labels: map<string, string>,     // button text
    overlays: map<string, nat>,      // detection boxes in each existing overlay
    alerts: seq<string>)             // `alert` messages shown so far

  /** `detectionIntervals[cameraId]` is truthy. */
  predicate IsRunning(p: Panel, cameraId: string)
  {
    cameraId in p.intervals && p.intervals[cameraId] != 0
  }

  /** Timer handles returned by `setInterval` are positive. */
  predicate HandlesPositive(p: Panel)
  {
    forall c :: c in p.intervals ==> p.intervals[c] > 0
  }

  function ClearOverlay(p: Panel, cameraId: string): Panel
  {
    if cameraId in p.overlays then p.(overlays := p.overlays[cameraId := 0]) else p
  }

  /**
   * `startDetection`: with an iframe to watch, the camera's timer is stored;
   * nothing else changes, and no other camera's timer.
   */
  function Start(p: Panel, cameraId: string, timerId: int): (q: Panel)
    ensures q == p.(intervals := q.intervals)
    ensures cameraId !in p.iframes ==> q == p
    ensures cameraId in p.iframes ==> cameraId in q.intervals && q.intervals[cameraId] == timerId
    ensures forall c :: c != cameraId ==> (c in q.intervals <==> c in p.intervals)
    ensures forall c :: c != cameraId && c in q.intervals ==> q.intervals[c] == p.intervals[c]
  {
    if cameraId !in p.iframes then p else p.(intervals := p.intervals[cameraId := timerId])
  }

  /**
   * The panel after `toggleDetection(cameraId)`; `timerId` is what
   * `setInterval` would return.  Without a button nothing happens; otherwise
   * the camera runs afterwards exactly when it was idle, the model was
   * loaded and an iframe was there to start on; the alert is raised exactly
   * when an idle camera finds no model; other cameras keep their timers,
   * button state, button labels and overlays, and the document's buttons,
   * iframes and model stay as they are.
   */
  function Toggled(p: Panel, cameraId: string, timerId: int): (q: Panel)
    ensures cameraId !in p.toggles ==> q == p
    ensures cameraId in p.toggles ==>
      (IsRunning(q, cameraId) <==> !IsRunning(p, cameraId) && p.modelLoaded && cameraId in p.iframes && timerId != 0)
    ensures q.alerts == p.alerts || q.alerts == p.alerts + [ModelNotLoaded]
    ensures q.alerts != p.alerts <==> cameraId in p.toggles && !IsRunning(p, cameraId) && !p.modelLoaded
    ensures q.toggles == p.toggles && q.iframes == p.iframes && q.modelLoaded == p.modelLoaded
    ensures forall c :: c != cameraId ==> (c in q.intervals <==> c in p.intervals)
    ensures forall c :: c != cameraId && c in q.intervals ==> q.intervals[c] == p.intervals[c]
    ensures forall c :: c != cameraId ==> (c in q.active <==> c in p.active)
    ensures forall c :: c != cameraId ==> (c in q.labels <==> c in p.labels)
    ensures forall c :: c != cameraId && c in q.labels ==> q.labels[c] == p.labels[c]
    ensures forall c :: c != cameraId ==> (c in q.overlays <==> c in p.overlays)
    ensures forall c :: c != cameraId && c in q.overlays ==> q.overlays[c] == p.overlays[c]
  {
    if cameraId !in p.toggles then p
    else if IsRunning(p, cameraId) then
      ClearOverlay(p.(intervals := p.intervals - {cameraId},
                      active := p.active - {cameraId},
                      labels := p.labels[cameraId := StoppedLabel]), cameraId)
    else if !p.modelLoaded then p.(alerts := p.alerts + [ModelNotLoaded])
    else
      Start(p, cameraId, timerId).(active := p.active + {cameraId},
                                   labels := p.labels[cameraId := RunningLabel])
  }

  /** Toggling a running camera stops its timer, clears its boxes and touches no other camera's timer. */
  lemma ToggleStopsRunning(p: Panel, cameraId: string, timerId: int)
    requires cameraId in p.toggles && IsRunning(p, cameraId)
    ensures var q := Toggled(p, cameraId, timerId);
      && !IsRunning(q, cameraId)
      && cameraId !in q.active && q.labels[cameraId] == StoppedLabel
      && (cameraId in p.overlays ==> q.overlays[cameraId] == 0)
      && (forall c :: c != cameraId ==> (c in q.intervals <==> c in p.intervals))
      && (forall c :: c in q.intervals ==> q.intervals[c] == p.intervals[c])
  {
  }

  /** Without a loaded model, toggling an idle camera only raises the alert. */
  lemma ToggleWithoutModel(p: Panel, cameraId: string, timerId: int)
    requires cameraId in p.toggles && !IsRunning(p, cameraId) && !p.modelLoaded
    ensures Toggled(p, cameraId, timerId) == p.(alerts := p.alerts + [ModelNotLoaded])
  {
  }

  /** With a model and an iframe, toggling an idle camera starts its timer. */
  lemma ToggleStarts(p: Panel, cameraId: string, timerId: int)
    requires cameraId in p.toggles && !IsRunning(p, cameraId) && p.modelLoaded
    requires cameraId in p.iframes && timerId > 0
    ensures var q := Toggled(p, cameraId, timerId);
      IsRunning(q, cameraId) && q.intervals[cameraId] == timerId &&
      cameraId in q.active && q.labels[cameraId] == RunningLabel
  {
  }

  /**
   * Without an iframe no timer starts, yet the button still turns active and
   * reads "Stop detection", so the next click tries to start again.
   */
  lemma ToggleWithoutIframe(p: Panel, cameraId: string, timerId: int)
    requires cameraId in p.toggles && !IsRunning(p, cameraId) && p.modelLoaded
    requires cameraId !in p.iframes
    ensures var q := Toggled(p, cameraId, timerId);
      !IsRunning(q, cameraId) && cameraId in q.active && q.labels[cameraId] == RunningLabel &&
      Toggled(q, cameraId, timerId).intervals == p.intervals
  {
  }

  /** Starting and then stopping a camera leaves the other timers as they were. */
  lemma ToggleTwiceRestoresTimers(p: Panel, cameraId: string, t1: int, t2: int)
    requires cameraId in p.toggles && cameraId in p.iframes && p.modelLoaded
    requires cameraId !in p.intervals && t1 > 0
    ensures var q := Toggled(Toggled(p, cameraId, t1), cameraId, t2);
      q.intervals == p.intervals && cameraId !in q.active && q.labels[cameraId] == StoppedLabel
  {
    var q1 := Toggled(p, cameraId, t1);
    assert q1.intervals == p.intervals[cameraId := t1];
    assert q1.intervals - {cameraId} == p.intervals;
  }

  /** A toggle never stores a non-positive timer handle when `setInterval`'s handle is positive. */
  lemma ToggleKeepsHandlesPositive(p: Panel, cameraId: string, timerId: int)
    requires HandlesPositive(p) && timerId > 0
    ensures HandlesPositive(Toggled(p, cameraId, timerId))
  {
  }

  /** The controls of the video grid, updated in place by `toggleDetection`. */
  class DetectionControls {
    var modelLoaded: bool
    var intervals: map<string, int>
    var toggles: set<string>
    var iframes: set<string>
    var active: set<string>
    var labels: map<string, string>
    var overlays: map<string, nat>
    var alerts: seq<string>

    function State(): Panel
      reads this
    {
      Panel(modelLoaded, intervals, toggles, iframes, active, labels, overlays, alerts)
    }

    /** No model, no timers; `cameras` have their button, iframe and empty overlay. */
    constructor (cameras: set<string>)
      ensures State() == Panel(false, map[], cameras, cameras, {},
                               map c | c in cameras :: "AI Detection",
                               map c | c in cameras :: 0, [])
    {
      modelLoaded := false;
      intervals := map[];
      toggles := cameras;
      iframes := cameras;
      active := {};
      labels := map c | c in cameras :: "AI Detection";
      overlays := map c | c in cameras :: 0;
      alerts := [];
    }

    /** `initializeDetectionModel` succeeding. */
    method ModelLoaded()
      modifies this`modelLoaded
      ensures State() == old(State()).(modelLoaded := true)
    {
      modelLoaded := true;
    }

    method ToggleDetection(cameraId: string, timerId: int)
      modifies this
      ensures State() == Toggled(old(State()), cameraId, timerId)
    {
      if cameraId !in toggles {
        return;
      }
      if cameraId in intervals && intervals[cameraId] != 0 {
        intervals := intervals - {cameraId};
        active := active - {cameraId};
        labels := labels[cameraId := StoppedLabel];
        ClearDetectionOverlay(cameraId);
      } else {
        if !modelLoaded {
          alerts := alerts + [ModelNotLoaded];
          return;
        }
        StartDetection(cameraId, timerId);
        active := active + {cameraId};
        labels := labels[cameraId := RunningLabel];
      }
    }

    method StartDetection(cameraId: string, timerId: int)
      modifies this`intervals
      ensures State() == Start(old(State()), cameraId, timerId)
    {
      if cameraId !in iframes {
        return;
      }
      intervals := intervals[cameraId := timerId];
    }

    method ClearDetectionOverlay(cameraId: string)
      modifies this`overlays
      ensures State() == ClearOverlay(old(State()), cameraId)
    {
      if cameraId in overlays {
        overlays := overlays[cameraId := 0];
      }
    }
  }
}
