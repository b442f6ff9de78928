/**
 * The per-frame control logic of the main loop in main.py: the state is
 * read from the traffic counts, every `AIDecisionInterval + 1` frames the
 * agent learns from its last decision and picks a new action, the light
 * phase advances, the vehicles move and the reward is recorded.  The
 * traffic counts (OpenCV contour counting), the random draws, vehicle
 * generation and drawing are inputs or left out.
 */
module Simulation {
  import opened Common
  import opened Intersection
  import opened Vehicles
  import opened QLearning

  const AIDecisionInterval: int := 180

  /** The loop variables of `main` and the global light-state index. */
  class Controller {
    const ai: TrafficAI
    var decisionTimer: int                       // ai_decision_timer
    var yellowPhase: bool                        // is_yellow_light_phase
    var yellowTimer: int                         // yellow_light_timer
    var stateIndex: int                          // current_traffic_light_state_index
    var last: Option<(TrafficState, Action)>     // last_state and last_action
    var lastReward: int                          // last_reward

    ghost predicate Valid()
      reads this, ai
    {
      0 <= stateIndex <= 1 && 0 <= decisionTimer <= AIDecisionInterval && ai.Valid()
    }

    function LightPhase(): Phase
      reads this
    {
      Phase(stateIndex, yellowPhase, yellowTimer)
    }

    /** The variables as `main` initialises them. */
    constructor (agent: TrafficAI)
      requires agent.Valid()
      ensures Valid() && ai == agent
      ensures decisionTimer == 0 && LightPhase() == Phase(0, false, 0)
      ensures last == None && lastReward == 0
    {
      ai := agent;
      decisionTimer, yellowPhase, yellowTimer, stateIndex := 0, false, 0, 0;
      last, lastReward := None, 0;
    }

    /**
     * Lines 278-306 of one frame.  `draw` and `pick` are the values of
     * `random.random()` and `random.choice([0, 1])` in `choose_action`.
     * The light shown never has both axes green, and a yellow phase starts
     * only on a decision frame whose draw explored or whose state the agent
     * has not learnt yet.
     */
    method Step(counts: map<string, int>, draw: real, pick: Bit) returns (active: LightState)
      requires Valid()
      modifies this, ai
      ensures Valid()
      ensures NoConflict(active)
      ensures var current := GetStateRepresentation(counts);
        var decide := old(decisionTimer) + 1 > AIDecisionInterval;
        && decisionTimer == (if decide then 0 else old(decisionTimer) + 1)
        && ai.qTable == (if decide && old(last).Some?
                         then UpdatedTable(old(ai.qTable), old(last).value.0, old(last).value.1,
                                           old(lastReward), current, ai.lr, ai.gamma)
                         else old(ai.qTable))
        && last == (if decide then Some((current, ai.ChooseAction(current, draw, pick))) else old(last))
        && (LightPhase(), active) == LightStep(old(LightPhase()), decide && IsSwitch(ai.ChooseAction(current, draw, pick)))
        && lastReward == old(lastReward)
      ensures yellowPhase && !old(yellowPhase) ==>
        var key := StateKey(GetStateRepresentation(counts));
        draw < ai.epsilon || key !in ai.qTable || ai.qTable[key] == []
    {
      var current := GetStateRepresentation(counts);
      decisionTimer := decisionTimer + 1;
      if decisionTimer > AIDecisionInterval {
        Decide(current, draw, pick);
      }
      active := AdvanceLight();
    }

    /**
     * Lines 280-294, on a decision frame: learn from the last decision,
     * choose a new action and start a yellow phase if it is a switch and
     * none is running.
     */
    method Decide(current: TrafficState, draw: real, pick: Bit)
      requires ai.Valid()
      modifies this, ai
      ensures ai.Valid()
      ensures decisionTimer == 0 && lastReward == old(lastReward)
      ensures ai.qTable == (if old(last).Some?
                            then UpdatedTable(old(ai.qTable), old(last).value.0, old(last).value.1,
                                              old(lastReward), current, ai.lr, ai.gamma)
                            else old(ai.qTable))
      ensures last == Some((current, ai.ChooseAction(current, draw, pick)))
      ensures LightPhase() == Decided(old(LightPhase()), IsSwitch(ai.ChooseAction(current, draw, pick)))
    {
      decisionTimer := 0;
      Learn(current);
      var action := ai.ChooseAction(current, draw, pick);
      if IsSwitch(action) && !yellowPhase {
        yellowPhase := true;
        yellowTimer := 0;
      }
      last := Some((current, action));
    }

    /** Lines 283-285: learn from the last decision, if there is one. */
    method Learn(current: TrafficState)
      requires ai.Valid()
      modifies ai
      ensures ai.Valid()
      ensures ai.qTable == (if last.Some?
                            then UpdatedTable(old(ai.qTable), last.value.0, last.value.1,
                                              lastReward, current, ai.lr, ai.gamma)
                            else old(ai.qTable))
    {
      if last.Some? {
        ai.UpdateQTable(last.value.0, last.value.1, lastReward, current);
      }
    }

    /** Lines 296-306: the light shown this frame and the yellow-phase countdown. */
    method AdvanceLight() returns (active: LightState)
      requires 0 <= stateIndex <= 1
      modifies this`yellowPhase, this`yellowTimer, this`stateIndex
      ensures (LightPhase(), active) == Advanced(old(LightPhase()))
    {
      if yellowPhase {
        yellowTimer := yellowTimer + 1;
        if TrafficLightStates[stateIndex].ns == Green {
          active := LightState(Yellow, Red);
        } else {
          active := LightState(Red, Yellow);
        }
        if yellowTimer > YellowLightDuration {
          yellowPhase := false;
          stateIndex := 1 - stateIndex;
        }
      } else {
        active := TrafficLightStates[stateIndex];
      }
    }

    /**
     * Lines 276-312 of one frame: the light step, the vehicle updates under
     * the light it shows, and the reward of the frame, which is what the
     * next decision learns from.
     */
    method Frame(counts: map<string, int>, draw: real, pick: Bit, vehicles: seq<Vehicle>)
      returns (active: LightState)
      requires Valid() && Distinct(vehicles)
      modifies this, ai, set v | v in vehicles
      ensures Valid() && NoConflict(active)
      ensures lastReward == CalculateReward(States(vehicles))
      ensures lastReward <= 0
      ensures forall i :: 0 <= i < |vehicles| ==> OneFrameLater(old(vehicles[i].State()), vehicles[i].State(), active)
    {
      active := Step(counts, draw, pick);
      MoveVehicles(vehicles, active);
    }

    /** Lines 309-312: every vehicle updates under the active light, then the frame's reward is recorded. */
    method MoveVehicles(vehicles: seq<Vehicle>, active: LightState)
      requires Distinct(vehicles)
      modifies this`lastReward, set v | v in vehicles
      ensures lastReward == CalculateReward(States(vehicles))
      ensures lastReward <= 0
      ensures forall i :: 0 <= i < |vehicles| ==> OneFrameLater(old(vehicles[i].State()), vehicles[i].State(), active)
    {
      UpdateAll(vehicles, active);
      lastReward := CalculateReward(States(vehicles));
    }
  }
}
