/**
 * The vehicles of the traffic simulation (class `Vehicle` and
 * `calculate_reward` in main.py).  A vehicle is a pygame `Rect` plus a
 * direction, a speed, a stopped flag and a wait-time counter; `colliderect`
 * is taken as strict overlap of the two rectangles on both axes.
 */
module Vehicles {
  import opened Intersection

  /** A pygame `Rect`: top-left corner, width and height. */
  datatype Rect = Rect(x: int, y: int, w: int, h: int)
  {
    function Left(): int { x }
    function Right(): int { x + w }
    function Top(): int { y }
    function Bottom(): int { y + h }
  }

  /** `a.colliderect(b)`. */
  predicate Collides(a: Rect, b: Rect)
  {
    a.Left() < b.Right() && b.Left() < a.Right() && a.Top() < b.Bottom() && b.Top() < a.Bottom()
  }

  /** A snapshot of a vehicle's fields. */
  datatype Car = Car(rect: Rect, direction: Direction, speed: int, stopped: bool, waitTime: nat)

  /** The rectangle moved `dist` pixels in the direction of travel; a move never resizes it. */
  function Moved(r: Rect, d: Direction, dist: int): (m: Rect)
    ensures m.w == r.w && m.h == r.h
  {
    match d
    case North => r.(y := r.y - dist)
    case South => r.(y := r.y + dist)
    case East => r.(x := r.x + dist)
    case West => r.(x := r.x - dist)
  }

  /** A move of no pixels leaves the rectangle where it is. */
  lemma MovedZero(r: Rect, d: Direction)
    ensures Moved(r, d, 0) == r
  {
  }

  /** Two moves in the same direction add up to one. */
  lemma MovedAdditive(r: Rect, d: Direction, a: int, b: int)
    ensures Moved(Moved(r, d, a), d, b) == Moved(r, d, a + b)
  {
  }

  /** A move changes only the coordinate along the axis of travel. */
  lemma MovedAlongAxis(r: Rect, d: Direction, dist: int)
    ensures d == North || d == South ==> Moved(r, d, dist).x == r.x
    ensures d == East || d == West ==> Moved(r, d, dist).y == r.y
    ensures Moved(r, d, dist) != r <==> dist != 0
  {
  }

  /**
   * `is_near_intersection`: the edge of the vehicle that faces the crossing
   * lies within `StopLineMargin` pixels before the stop line.
   */
  predicate NearStopLine(r: Rect, d: Direction)
  {
    match d
    case North => ScreenHeight / 2 + RoadWidth - StopLineMargin <= r.Bottom() <= ScreenHeight / 2 + RoadWidth
    case South => ScreenHeight / 2 - RoadWidth <= r.Top() <= ScreenHeight / 2 - RoadWidth + StopLineMargin
    case East => ScreenWidth / 2 - RoadWidth <= r.Left() <= ScreenWidth / 2 - RoadWidth + StopLineMargin
    case West => ScreenWidth / 2 + RoadWidth - StopLineMargin <= r.Right() <= ScreenWidth / 2 + RoadWidth
  }

  /** The stop-line windows in screen coordinates. */
  lemma StopLineWindows(r: Rect, d: Direction)
    ensures NearStopLine(r, d) <==>
      || (d == North && 495 <= r.Bottom() <= 500)
      || (d == South && 300 <= r.Top() <= 305)
      || (d == East && 300 <= r.Left() <= 305)
      || (d == West && 495 <= r.Right() <= 500)
  {
  }

  /** The vehicle has not yet passed the stop-line window of its direction. */
  predicate BeforeStopLine(r: Rect, d: Direction)
  {
    match d
    case North => r.Bottom() >= 495
    case South => r.Top() <= 305
    case East => r.Left() <= 305
    case West => r.Right() >= 495
  }

  /**
   * A vehicle moving at `VehicleSpeed` cannot jump over its stop-line window:
   * the window is `StopLineMargin + 1` pixels wide, more than one step, so
   * some number of whole steps puts it inside.
   */
  lemma {:induction false} CannotSkipStopLine(r: Rect, d: Direction)
    requires BeforeStopLine(r, d)
    ensures exists k: nat :: NearStopLine(Moved(r, d, k * VehicleSpeed), d)
    decreases match d
      case North => r.Bottom() - 495
      case South => 305 - r.Top()
      case East => 305 - r.Left()
      case West => r.Right() - 495
  {
    if NearStopLine(r, d) {
      MovedZero(r, d);
      assert NearStopLine(Moved(r, d, 0 * VehicleSpeed), d);
    } else {
      var r' := Moved(r, d, VehicleSpeed);
      assert BeforeStopLine(r', d);
      CannotSkipStopLine(r', d);
      var k: nat :| NearStopLine(Moved(r', d, k * VehicleSpeed), d);
      MovedAdditive(r, d, VehicleSpeed, k * VehicleSpeed);
      var k': nat := k + 1;
      assert VehicleSpeed + k * VehicleSpeed == k' * VehicleSpeed;
      assert NearStopLine(Moved(r, d, k' * VehicleSpeed), d);
    }
  }

  /** The stopped flag after `handle_intersection`, called only at the stop line. */
  function AfterIntersection(c: Car, light: LightState): bool
  {
    if NearStopLine(c.rect, c.direction) then AxisColor(light, c.direction) != Green else c.stopped
  }

  /** `future_rect`: the vehicle's rectangle one step ahead. */
  function LookAhead(c: Car): Rect
  {
    Moved(c.rect, c.direction, c.speed)
  }

  /** Some other vehicle going the same way overlaps the look-ahead rectangle. */
  predicate Blocked(c: Car, others: seq<Car>)
  {
    exists i :: 0 <= i < |others| && others[i].direction == c.direction && Collides(LookAhead(c), others[i].rect)
  }

  /** The stopped flag after `handle_collisions`. */
  function AfterCollisions(c: Car, stopped: bool, others: seq<Car>): bool
  {
    if Blocked(c, others) then true
    else if !NearStopLine(c.rect, c.direction) then false
    else stopped
  }

  /**
   * `Vehicle.update`: stop-line check, collision check, then either one more
   * frame of waiting or one step of movement.  `others` are the other
   * vehicles of the group as they are when this one is updated.
   */
  function Updated(c: Car, light: LightState, others: seq<Car>): (u: Car)
    ensures u.direction == c.direction && u.speed == c.speed
    ensures u.rect.w == c.rect.w && u.rect.h == c.rect.h
    ensures u.stopped <==>
      Blocked(c, others) || (NearStopLine(c.rect, c.direction) && AxisColor(light, c.direction) != Green)
    ensures u.stopped ==> u.waitTime == c.waitTime + 1 && u.rect == c.rect
    ensures !u.stopped ==> u.waitTime == 0
    ensures !u.stopped && c.direction == North ==> u.rect == c.rect.(y := c.rect.y - c.speed)
    ensures !u.stopped && c.direction == South ==> u.rect == c.rect.(y := c.rect.y + c.speed)
    ensures !u.stopped && c.direction == East ==> u.rect == c.rect.(x := c.rect.x + c.speed)
    ensures !u.stopped && c.direction == West ==> u.rect == c.rect.(x := c.rect.x - c.speed)
  {
    var stopped := AfterCollisions(c, AfterIntersection(c, light), others);
    if stopped then c.(stopped := true, waitTime := c.waitTime + 1)
    else c.(stopped := false, waitTime := 0, rect := Moved(c.rect, c.direction, c.speed))
  }

  /**
   * At the stop line and with nobody ahead, a vehicle waits exactly when its
   * axis is not green; the flag it had before does not matter.
   */
  lemma StopLineObeysLight(c: Car, light: LightState, others: seq<Car>)
    requires NearStopLine(c.rect, c.direction) && !Blocked(c, others)
    ensures Updated(c, light, others).stopped <==> AxisColor(light, c.direction) != Green
    ensures Updated(c, light, others).stopped <==> Updated(c.(stopped := !c.stopped), light, others).stopped
  {
  }

  /** Away from the stop line only a vehicle ahead can stop a vehicle; a red light does not. */
  lemma AwayFromStopLine(c: Car, light: LightState, others: seq<Car>)
    requires !NearStopLine(c.rect, c.direction)
    ensures Updated(c, light, others).stopped <==> Blocked(c, others)
  {
  }

  /** The waiting counter counts consecutive stopped frames. */
  predicate WaitConsistent(c: Car)
  {
    c.stopped <==> c.waitTime > 0
  }

  /**
   * One update under `light`, whatever the other vehicles do: either the
   * vehicle waited one frame more where it stood, or it moved `speed`
   * pixels along its direction with its counter reset; direction and speed
   * are kept; the counter stays consistent; and a vehicle at its stop
   * line facing a light that is not green is one that waited.
   */
  predicate OneFrameLater(before: Car, after: Car, light: LightState)
  {
    && WaitConsistent(after)
    && after.direction == before.direction && after.speed == before.speed
    && (after.stopped ==> after.waitTime == before.waitTime + 1 && after.rect == before.rect)
    && (!after.stopped ==> after.waitTime == 0 && after.rect == Moved(before.rect, before.direction, before.speed))
    && (NearStopLine(before.rect, before.direction) && AxisColor(light, before.direction) != Green ==> after.stopped)
  }

  lemma UpdateIsOneFrameLater(c: Car, light: LightState, others: seq<Car>)
    ensures OneFrameLater(c, Updated(c, light, others), light)
  {
  }

  /** The sum of the wait times. */
  function TotalWait(cars: seq<Car>): (total: nat)
  {
    if |cars| == 0 then 0 else cars[0].waitTime + TotalWait(cars[1..])
  }

  /**
   * `calculate_reward`: minus the total wait time.  It is never positive,
   * and it is zero exactly when no vehicle has been waiting.
   */
  function CalculateReward(cars: seq<Car>): (reward: int)
    ensures reward <= 0
    ensures reward == 0 <==> forall i :: 0 <= i < |cars| ==> cars[i].waitTime == 0
  {
    ZeroWait(cars);
    0 - TotalWait(cars) as int
  }

  lemma {:induction false} ZeroWait(cars: seq<Car>)
    ensures TotalWait(cars) == 0 <==> forall i :: 0 <= i < |cars| ==> cars[i].waitTime == 0
    decreases |cars|
  {
    if |cars| > 0 {
      ZeroWait(cars[1..]);
      assert forall i :: 1 <= i < |cars| ==> cars[i] == cars[1..][i - 1];
    }
  }

  /** One more waiting vehicle lowers the reward by exactly one. */
  lemma {:induction false} RewardOfOneMoreWaitingFrame(cars: seq<Car>, i: int)
    requires 0 <= i < |cars|
    ensures CalculateReward(cars[i := cars[i].(waitTime := cars[i].waitTime + 1)]) == CalculateReward(cars) - 1
    decreases |cars|
  {
    var cars' := cars[i := cars[i].(waitTime := cars[i].waitTime + 1)];
    if i > 0 {
      assert cars'[1..] == cars[1..][i - 1 := cars[i].(waitTime := cars[i].waitTime + 1)];
      RewardOfOneMoreWaitingFrame(cars[1..], i - 1);
    } else {
      assert cars'[1..] == cars[1..];
    }
  }

  /** A simulated vehicle, whose rectangle and flags `update` changes in place. */
  class Vehicle {
    var x: int
    var y: int
    var w: int
    var h: int
    const direction: Direction
    const speed: int
    var stopped: bool
    var waitTime: nat

    function State(): Car
      reads this
    {
      Car(Rect(x, y, w, h), direction, speed, stopped, waitTime)
    }

    /** A vehicle at `(x0, y0)`, turned sideways when it drives east or west. */
    constructor (x0: int, y0: int, d: Direction)
      ensures State().rect.Left() == x0 && State().rect.Top() == y0
      ensures d == North || d == South ==> w == VehicleWidth && h == VehicleHeight
      ensures d == East || d == West ==> w == VehicleHeight && h == VehicleWidth
      ensures direction == d && speed == VehicleSpeed && !stopped && waitTime == 0
    {
      x, y := x0, y0;
      direction := d;
      speed := VehicleSpeed;
      stopped := false;
      waitTime := 0;
      if d == East || d == West {
        w, h := VehicleHeight, VehicleWidth;
      } else {
        w, h := VehicleWidth, VehicleHeight;
      }
    }

    predicate IsNearIntersection()
      reads this
    {
      NearStopLine(Rect(x, y, w, h), direction)
    }

    method HandleIntersection(light: LightState)
      modifies this`stopped
      ensures stopped <==> AxisColor(light, direction) != Green
    {
      if (direction == North || direction == South) && light.ns != Green {
        stopped := true;
      } else if (direction == East || direction == West) && light.ew != Green {
        stopped := true;
      } else {
        stopped := false;
      }
    }

    /** The snapshots of the vehicles of `vehicles` other than this one, in order. */
    function Others(vehicles: seq<Vehicle>): (others: seq<Car>)
      reads set v | v in vehicles && v != this
      ensures |others| <= |vehicles|
    {
      if |vehicles| == 0 then []
      else (if vehicles[0] == this then [] else [vehicles[0].State()]) + Others(vehicles[1..])
    }

    /** Blocked by the snapshots exactly when blocked by one of the other vehicles. */
    lemma {:induction false} BlockedByOthers(vehicles: seq<Vehicle>, c: Car)
      ensures Blocked(c, Others(vehicles)) <==>
        exists j :: 0 <= j < |vehicles| && vehicles[j] != this && vehicles[j].direction == c.direction
                    && Collides(LookAhead(c), vehicles[j].State().rect)
      decreases |vehicles|
    {
      if |vehicles| > 0 {
        var head := if vehicles[0] == this then [] else [vehicles[0].State()];
        BlockedByOthers(vehicles[1..], c);
        BlockedAppend(c, head, Others(vehicles[1..]));
        if exists j :: 0 <= j < |vehicles| && vehicles[j] != this && vehicles[j].direction == c.direction
                       && Collides(LookAhead(c), vehicles[j].State().rect) {
          var j :| 0 <= j < |vehicles| && vehicles[j] != this && vehicles[j].direction == c.direction
                   && Collides(LookAhead(c), vehicles[j].State().rect);
          if j > 0 {
            assert vehicles[1..][j - 1] == vehicles[j];
          } else {
            assert head[0] == vehicles[0].State();
          }
        }
        if Blocked(c, Others(vehicles[1..])) {
          var j :| 0 <= j < |vehicles[1..]| && vehicles[1..][j] != this && vehicles[1..][j].direction == c.direction
                   && Collides(LookAhead(c), vehicles[1..][j].State().rect);
          assert vehicles[j + 1] == vehicles[1..][j];
        }
      }
    }

    /**
     * `handle_collisions`: stop behind a same-direction vehicle that the
     * look-ahead rectangle overlaps; with none, move on unless at the stop line.
     */
    method HandleCollisions(vehicles: seq<Vehicle>)
      modifies this`stopped
      ensures stopped == AfterCollisions(old(State()), old(stopped), Others(vehicles))
    {
      var future := Moved(Rect(x, y, w, h), direction, speed);
      var i := 0;
      while i < |vehicles|
        invariant 0 <= i <= |vehicles|
        invariant stopped == old(stopped)
        invariant forall j :: 0 <= j < i ==>
          !(vehicles[j] != this && vehicles[j].direction == direction && Collides(future, vehicles[j].State().rect))
      {
        var other := vehicles[i];
        if other != this && other.direction == direction && Collides(future, Rect(other.x, other.y, other.w, other.h)) {
          BlockedByOthers(vehicles, State());
          stopped := true;
          return;
        }
        i := i + 1;
      }
      BlockedByOthers(vehicles, State());
      if !IsNearIntersection() {
        stopped := false;
      }
    }

    /**
     * `update`: the vehicle ends up as `Updated` says, judged against the
     * other vehicles as they stand when it is its turn.
     */
    method Update(light: LightState, vehicles: seq<Vehicle>)
      modifies this`x, this`y, this`stopped, this`waitTime
      ensures State() == Updated(old(State()), light, Others(vehicles))
    {
      ghost var others := Others(vehicles);
      CheckStop(light, vehicles);
      assert Others(vehicles) == others;
      Advance();
    }

    /** Lines 68-73 of `update`: the stop-line check, then the collision check. */
    method CheckStop(light: LightState, vehicles: seq<Vehicle>)
      modifies this`stopped
      ensures stopped == AfterCollisions(old(State()), AfterIntersection(old(State()), light), Others(vehicles))
    {
      ghost var c, others := State(), Others(vehicles);
      var atStopLine := IsNearIntersection();
      if atStopLine {
        HandleIntersection(light);
      }
      assert stopped == AfterIntersection(c, light);
      assert Others(vehicles) == others;
      ghost var checked := State();
      assert Blocked(checked, others) == Blocked(c, others) by {
        assert checked.direction == c.direction && LookAhead(checked) == LookAhead(c);
      }
      HandleCollisions(vehicles);
    }

    /** Lines 75-82 of `update`: wait one more frame, or reset the counter and move. */
    method Advance()
      modifies this`x, this`y, this`waitTime
      ensures stopped ==> State() == old(State()).(waitTime := old(waitTime) + 1)
      ensures !stopped ==> State() == old(State()).(waitTime := 0, rect := Moved(old(State()).rect, direction, speed))
    {
      if stopped {
        waitTime := waitTime + 1;
      } else {
        waitTime := 0;
        match direction
        case North => y := y - speed;
        case South => y := y + speed;
        case East => x := x + speed;
        case West => x := x - speed;
      }
    }
  }

  lemma BlockedAppend(c: Car, a: seq<Car>, b: seq<Car>)
    ensures Blocked(c, a + b) <==> Blocked(c, a) || Blocked(c, b)
  {
    if Blocked(c, a + b) {
      var i :| 0 <= i < |a + b| && (a + b)[i].direction == c.direction && Collides(LookAhead(c), (a + b)[i].rect);
      if i >= |a| {
        assert b[i - |a|] == (a + b)[i];
      }
    }
    if Blocked(c, a) {
      var i :| 0 <= i < |a| && a[i].direction == c.direction && Collides(LookAhead(c), a[i].rect);
      assert (a + b)[i] == a[i];
    }
    if Blocked(c, b) {
      var i :| 0 <= i < |b| && b[i].direction == c.direction && Collides(LookAhead(c), b[i].rect);
      assert (a + b)[|a| + i] == b[i];
    }
  }

  /** The vehicles of a group hold no object twice, as a pygame `Group` does not. */
  ghost predicate Distinct(vehicles: seq<Vehicle>)
  {
    forall i, j :: 0 <= i < j < |vehicles| ==> vehicles[i] != vehicles[j]
  }

  /** The snapshots of all vehicles of the group. */
  function States(vehicles: seq<Vehicle>): (cars: seq<Car>)
    reads vehicles
    ensures |cars| == |vehicles|
    ensures forall i :: 0 <= i < |vehicles| ==> cars[i] == vehicles[i].State()
  {
    if |vehicles| == 0 then [] else [vehicles[0].State()] + States(vehicles[1..])
  }

  /**
   * `for vehicle in vehicles: vehicle.update(active_state, vehicles)`:
   * vehicles are updated one after another, each seeing the ones before it
   * already moved, and each ends up one frame later.
   */
  method UpdateAll(vehicles: seq<Vehicle>, light: LightState)
    requires Distinct(vehicles)
    modifies set v | v in vehicles
    ensures forall i :: 0 <= i < |vehicles| ==> OneFrameLater(old(vehicles[i].State()), vehicles[i].State(), light)
  {
    var i := 0;
    while i < |vehicles|
      invariant 0 <= i <= |vehicles|
      invariant forall j :: 0 <= j < i ==> OneFrameLater(old(vehicles[j].State()), vehicles[j].State(), light)
      invariant forall j :: i <= j < |vehicles| ==> vehicles[j].State() == old(vehicles[j].State())
    {
      var v := vehicles[i];
      ghost var others := v.Others(vehicles);
      v.Update(light, vehicles);
      UpdateIsOneFrameLater(old(v.State()), light, others);
      i := i + 1;
    }
  }
}
