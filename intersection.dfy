/**
 * The intersection of the traffic simulation (main.py): the screen and road
 * constants, the two base light states and the yellow-phase state machine
 * that the main loop runs every frame.  Positions are pygame `Rect`
 * coordinates, which are integers; `SCREEN_HEIGHT / 2` is exactly 400.
 */
module Intersection {

  const ScreenWidth: int := 800
  const ScreenHeight: int := 800
  const RoadWidth: int := 100
  const LaneWidth: int := RoadWidth / 2
  const VehicleWidth: int := 30
  const VehicleHeight: int := 50
  const VehicleSpeed: int := 3
  const StopLineMargin: int := 5
  const YellowLightDuration: int := 50

  datatype Direction = North | South | East | West

  /** The strings `'green'`, `'yellow'` and `'red'` of a light. */
  datatype Color = Green | Yellow | Red

  /** A light-state dictionary `{'ns': ..., 'ew': ...}`. */
  datatype LightState = LightState(ns: Color, ew: Color)

  /** `TRAFFIC_LIGHT_STATES`: index 0 lets north/south go, index 1 east/west. */
  const TrafficLightStates: seq<LightState> := [LightState(Green, Red), LightState(Red, Green)]

  /** The light a vehicle obeys: `ns` for north/south, `ew` for east/west. */
  function AxisColor(light: LightState, d: Direction): Color
  {
    if d == North || d == South then light.ns else light.ew
  }

  /** No light state lets both axes through. */
  predicate NoConflict(light: LightState)
  {
    !(light.ns == Green && light.ew == Green)
  }

  /** Each base state has exactly one green axis, and the two states differ in which. */
  lemma BaseStatesExclusive(i: int)
    requires 0 <= i < |TrafficLightStates|
    ensures NoConflict(TrafficLightStates[i])
    ensures TrafficLightStates[i].ns == Green || TrafficLightStates[i].ew == Green
    ensures TrafficLightStates[i].ns == Green <==> TrafficLightStates[1 - i].ew == Green
  {
  }

  /**
   * The light-phase variables of the main loop: `current_traffic_light_state_index`,
   * `is_yellow_light_phase` and `yellow_light_timer`.
   */
  datatype Phase = Phase(index: int, yellow: bool, timer: int)

  predicate ValidPhase(p: Phase)
  {
    0 <= p.index <= 1
  }

  /** `if action == 1 and not is_yellow_light_phase`: a switch starts a yellow phase at timer 0. */
  function Decided(p: Phase, switchRequested: bool): (q: Phase)
    ensures q.index == p.index
    ensures q.yellow <==> p.yellow || switchRequested
    ensures q != p <==> switchRequested && !p.yellow
    ensures q != p ==> q.timer == 0
  {
    if switchRequested && !p.yellow then p.(yellow := true, timer := 0) else p
  }

  /**
   * The light shown while yellow: the axis that was green turns yellow and
   * the other stays red.
   */
  function YellowState(index: int): (light: LightState)
    requires 0 <= index <= 1
    ensures NoConflict(light)
    ensures TrafficLightStates[index].ns == Green ==> light == LightState(Yellow, Red)
    ensures TrafficLightStates[index].ew == Green ==> light == LightState(Red, Yellow)
  {
    if TrafficLightStates[index].ns == Green then LightState(Yellow, Red) else LightState(Red, Yellow)
  }

  /**
   * The yellow-phase block of the loop: the timer counts the yellow frames,
   * and once it exceeds the duration the phase ends and the index flips; the
   * light shown this frame is still the yellow one.
   */
  function Advanced(p: Phase): (r: (Phase, LightState))
    requires ValidPhase(p)
    ensures ValidPhase(r.0) && NoConflict(r.1)
    ensures !p.yellow ==> r == (p, TrafficLightStates[p.index])
    ensures p.yellow ==> r.0.timer == p.timer + 1 && r.1 == YellowState(p.index)
    ensures p.yellow ==> (r.0.index != p.index <==> p.timer + 1 > YellowLightDuration)
    ensures p.yellow ==> (r.0.yellow <==> r.0.index == p.index)
  {
    if p.yellow then
      var timer := p.timer + 1;
      var active := YellowState(p.index);
      if timer > YellowLightDuration then (Phase(1 - p.index, false, timer), active)
      else (p.(timer := timer), active)
    else (p, TrafficLightStates[p.index])
  }

  /** One frame of lines 289-306: the decision (if any) and then the yellow-phase block. */
  function LightStep(p: Phase, switchRequested: bool): (r: (Phase, LightState))
    requires ValidPhase(p)
    ensures ValidPhase(r.0)
    ensures NoConflict(r.1)
  {
    Advanced(Decided(p, switchRequested))
  }

  /** The phase after a run of frames, given whether each frame requested a switch. */
  function Run(p: Phase, switches: seq<bool>): (q: Phase)
    requires ValidPhase(p)
    ensures ValidPhase(q)
    decreases |switches|
  {
    if |switches| == 0 then p else Run(LightStep(p, switches[0]).0, switches[1..])
  }

  /**
   * A frame without a running yellow phase shows one of the two base states
   * unless it starts a yellow phase, and the index never changes in it.
   */
  lemma IdleFrame(p: Phase, switchRequested: bool)
    requires ValidPhase(p) && !p.yellow
    ensures var r := LightStep(p, switchRequested);
      && r.0.index == p.index
      && (switchRequested <==> r.0.yellow)
      && (!switchRequested ==> r.1 == TrafficLightStates[p.index] && r.0 == p)
      && (switchRequested ==> r.0.timer == 1 && r.1 == YellowState(p.index))
  {
  }

  /**
   * Requests made during a yellow phase are ignored: while the timer stays
   * within the duration, every frame only advances the timer by one.
   */
  lemma {:induction false} YellowIgnoresRequests(p: Phase, switches: seq<bool>)
    requires ValidPhase(p) && p.yellow && p.timer >= 0
    requires p.timer + |switches| <= YellowLightDuration
    ensures Run(p, switches) == p.(timer := p.timer + |switches|)
    decreases |switches|
  {
    if |switches| > 0 {
      var q := LightStep(p, switches[0]).0;
      assert q == p.(timer := p.timer + 1);
      YellowIgnoresRequests(q, switches[1..]);
    }
  }

  /**
   * A yellow phase that starts in some frame flips the index exactly
   * `YellowLightDuration + 1` frames later (counting the starting frame),
   * whatever is requested meanwhile, and then no yellow phase is running.
   */
  lemma {:induction false} YellowPhaseLength(p: Phase, switches: seq<bool>)
    requires ValidPhase(p) && !p.yellow
    requires |switches| == YellowLightDuration + 1 && switches[0]
    ensures Run(p, switches[..YellowLightDuration]).index == p.index
    ensures Run(p, switches[..YellowLightDuration]).yellow
    ensures Run(p, switches) == Phase(1 - p.index, false, YellowLightDuration + 1)
  {
    var q := LightStep(p, true).0;
    assert q == Phase(p.index, true, 1);
    var mid := switches[1..YellowLightDuration];
    assert switches[..YellowLightDuration][1..] == mid;
    YellowIgnoresRequests(q, mid);
    RunAppend(q, mid, [switches[YellowLightDuration]]);
    assert switches[1..] == mid + [switches[YellowLightDuration]];
  }

  lemma {:induction false} RunAppend(p: Phase, a: seq<bool>, b: seq<bool>)
    requires ValidPhase(p)
    ensures Run(p, a + b) == Run(Run(p, a), b)
    decreases |a|
  {
    if |a| == 0 {
      assert a + b == b;
    } else {
      assert (a + b)[1..] == a[1..] + b;
      RunAppend(LightStep(p, a[0]).0, a[1..], b);
    }
  }
}
