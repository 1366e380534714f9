/** The debounce gate of one `game_mech` call, as functions on the four
    pieces of control state the source keeps in globals. */
module Gate {
  import opened Gestures

  /** `StateL` (as a lane index), `StateA`, `last_lane_time`, `last_action_time`.
      `stateA == None` is Python's initial `None`, distinct from "NONE". */
  datatype Controls = Controls(lane: Lane, stateA: Option<Action>, lastLaneTime: real, lastActionTime: real)

  /** New control state and the keys pressed, in order. */
  datatype Step = Step(controls: Controls, keys: seq<Key>)

  /** Middle lane, no action yet, both clocks at zero. */
  const InitialControls: Controls := Controls(1, None, 0.0, 0.0)

  function Dist(a: int, b: int): nat
  {
    Abs(a - b)
  }

  /** Number of presses of key `k` in a key sequence. */
  function Count(k: Key, keys: seq<Key>): nat
  {
    multiset(keys)[k]
  }

  /** Presses of a key in two consecutive stretches of the log add up. */
  lemma CountAppend(k: Key, a: seq<Key>, b: seq<Key>)
    ensures Count(k, a + b) == Count(k, a) + Count(k, b)
  {
    assert multiset(a + b) == multiset(a) + multiset(b);
  }

  /** Appending to a key log is associative. */
  lemma AppendAssoc(a: seq<Key>, b: seq<Key>, c: seq<Key>)
    ensures a + b + c == a + (b + c)
  {
  }

  /** Number of lane keys (left or right arrow) in a key sequence. */
  function LaneKeys(keys: seq<Key>): nat
  {
    Count(Left, keys) + Count(Right, keys)
  }

  /** Number of action keys (up or down arrow) in a key sequence. */
  function ActionKeys(keys: seq<Key>): nat
  {
    Count(Up, keys) + Count(Down, keys)
  }

  /** Net number of lanes the arrow keys move the player to the right. */
  function NetShift(keys: seq<Key>): int
  {
    Count(Right, keys) - Count(Left, keys)
  }

  /** The tallies of a log split at any point are the sums of the parts. */
  lemma TalliesAppend(a: seq<Key>, b: seq<Key>)
    ensures LaneKeys(a + b) == LaneKeys(a) + LaneKeys(b)
    ensures ActionKeys(a + b) == ActionKeys(a) + ActionKeys(b)
    ensures NetShift(a + b) == NetShift(a) + NetShift(b)
    ensures Count(Space, a + b) == Count(Space, a) + Count(Space, b)
  {
    CountAppend(Left, a, b);
    CountAppend(Right, a, b);
    CountAppend(Up, a, b);
    CountAppend(Down, a, b);
    CountAppend(Space, a, b);
  }

  /** A lane change is accepted: there is a target, it is not the current
      lane, and the lane cooldown has strictly elapsed. */
  predicate LaneFires(c: Controls, target: Option<Lane>, now: real)
  {
    target.Some? && target.value != c.lane && now - c.lastLaneTime > LANE_COOLDOWN
  }

  /** An action change is accepted: the classified action differs from the
      current state and the action cooldown has strictly elapsed. */
  predicate ActionFires(c: Controls, newA: Action, now: real)
  {
    Some(newA) != c.stateA && now - c.lastActionTime > ACTION_COOLDOWN
  }

  /** The lane line: when it fires, the lane moves exactly one step toward the
      target, one arrow key is pressed and the lane clock is stamped; otherwise
      nothing changes.  The action state is never touched. */
  function LaneGate(c: Controls, target: Option<Lane>, now: real): (r: Step)
    ensures r.controls.stateA == c.stateA && r.controls.lastActionTime == c.lastActionTime
    ensures LaneFires(c, target, now) ==>
      && r.controls.lastLaneTime == now
      && Dist(r.controls.lane, target.value) + 1 == Dist(c.lane, target.value)
      && |r.keys| == 1
    ensures !LaneFires(c, target, now) ==> r.controls == c && r.keys == []
    ensures r.keys == [Right] <==> r.controls.lane == c.lane + 1
    ensures r.keys == [Left] <==> r.controls.lane == c.lane - 1
  {
    if LaneFires(c, target, now) then
      if target.value > c.lane then
        Step(c.(lane := c.lane + 1, lastLaneTime := now), [Right])
      else
        Step(c.(lane := c.lane - 1, lastLaneTime := now), [Left])
    else
      Step(c, [])
  }

  /** The action line: when it fires, the state becomes the new action and the
      action clock is stamped, with up for Jump, down for Roll and no key for
      Neutral; otherwise nothing changes.  The lane is never touched. */
  function ActionGate(c: Controls, newA: Action, now: real): (r: Step)
    ensures r.controls.lane == c.lane && r.controls.lastLaneTime == c.lastLaneTime
    ensures ActionFires(c, newA, now) ==>
      r.controls.stateA == Some(newA) && r.controls.lastActionTime == now
    ensures !ActionFires(c, newA, now) ==> r.controls == c
    ensures r.keys == [Up] <==> ActionFires(c, newA, now) && newA == Jump
    ensures r.keys == [Down] <==> ActionFires(c, newA, now) && newA == Roll
    ensures r.keys == [] <==> !ActionFires(c, newA, now) || newA == Neutral
  {
    if ActionFires(c, newA, now) then
      var keys := match newA
        case Jump => [Up]
        case Roll => [Down]
        case Neutral => [];
      Step(c.(stateA := Some(newA), lastActionTime := now), keys)
    else
      Step(c, [])
  }

  /** The lane line presses only arrow keys, and they account for its move. */
  lemma LaneGateTallies(c: Controls, target: Option<Lane>, now: real)
    ensures var r := LaneGate(c, target, now);
      && NetShift(r.keys) == r.controls.lane - c.lane
      && LaneKeys(r.keys) == |r.keys| <= 1
      && ActionKeys(r.keys) == 0 && Count(Space, r.keys) == 0
  {
  }

  /** The action line presses only up or down, at most once. */
  lemma ActionGateTallies(c: Controls, newA: Action, now: real)
    ensures var r := ActionGate(c, newA, now);
      && ActionKeys(r.keys) == |r.keys| <= 1
      && LaneKeys(r.keys) == 0 && Count(Space, r.keys) == 0
  {
  }

  /** Back inside the open neutral band the action state is forced to
      Neutral, whatever the cooldown; no key is pressed and no clock moves. */
  function NeutralReset(c: Controls, currHeight: int, userHeight: int, threshold: int): (r: Controls)
    ensures r.lane == c.lane && r.lastLaneTime == c.lastLaneTime && r.lastActionTime == c.lastActionTime
    ensures InResetBand(currHeight, userHeight, threshold) ==> r.stateA == Some(Neutral)
    ensures !InResetBand(currHeight, userHeight, threshold) ==> r == c
  {
    if InResetBand(currHeight, userHeight, threshold) then c.(stateA := Some(Neutral)) else c
  }

  /** One `game_mech` call: lane line, then action line, then the reset.
      At most one arrow key and at most one of up/down are pressed. */
  function Mech(c: Controls, lx: int, rx: int, w: int, userHeight: int, threshold: int,
                currHeight: int, now: real): (r: Step)
  {
    var lane := LaneGate(c, ClassifyLane(lx, rx, w), now);
    var action := ActionGate(lane.controls, ClassifyAction(currHeight, userHeight, threshold), now);
    Step(NeutralReset(action.controls, currHeight, userHeight, threshold), lane.keys + action.keys)
  }

  /** One `game_mech` call moves the lane by at most one and presses at
      most two keys. */
  lemma MechBounds(c: Controls, lx: int, rx: int, w: int, userHeight: int, threshold: int,
                   currHeight: int, now: real)
    ensures var r := Mech(c, lx, rx, w, userHeight, threshold, currHeight, now);
      Dist(r.controls.lane, c.lane) <= 1 && |r.keys| <= 2
  {
  }

  /** Back inside the open neutral band the action state is Neutral after
      `game_mech`, whatever the action line did. */
  lemma MechResetsInBand(c: Controls, lx: int, rx: int, w: int, userHeight: int, threshold: int,
                         currHeight: int, now: real)
    requires InResetBand(currHeight, userHeight, threshold)
    ensures Mech(c, lx, rx, w, userHeight, threshold, currHeight, now).controls.stateA == Some(Neutral)
  {
  }

  /** The lane line of one `game_mech` call: the lane moves only toward the
      classified target, the arrow keys account for the move, and the lane
      clock moves exactly when an arrow key is pressed, by more than the
      lane cooldown. */
  lemma MechLaneLine(c: Controls, lx: int, rx: int, w: int, userHeight: int, threshold: int,
                     currHeight: int, now: real)
    ensures var r := Mech(c, lx, rx, w, userHeight, threshold, currHeight, now);
      && (r.controls.lane != c.lane ==>
            var t := ClassifyLane(lx, rx, w);
            t.Some? && Dist(r.controls.lane, t.value) + 1 == Dist(c.lane, t.value))
      && NetShift(r.keys) == r.controls.lane - c.lane
      && LaneKeys(r.keys) <= 1
      && (LaneKeys(r.keys) == 0 ==> r.controls.lastLaneTime == c.lastLaneTime)
      && (LaneKeys(r.keys) == 1 ==> r.controls.lastLaneTime - c.lastLaneTime > LANE_COOLDOWN)
  {
    var lane := LaneGate(c, ClassifyLane(lx, rx, w), now);
    var action := ActionGate(lane.controls, ClassifyAction(currHeight, userHeight, threshold), now);
    LaneGateTallies(c, ClassifyLane(lx, rx, w), now);
    ActionGateTallies(lane.controls, ClassifyAction(currHeight, userHeight, threshold), now);
    TalliesAppend(lane.keys, action.keys);
  }

  /** The action line of one `game_mech` call: at most one of up and down
      is pressed, and the action clock stays or moves by more than the
      action cooldown, always when up or down is pressed. */
  lemma MechActionLine(c: Controls, lx: int, rx: int, w: int, userHeight: int, threshold: int,
                       currHeight: int, now: real)
    ensures var r := Mech(c, lx, rx, w, userHeight, threshold, currHeight, now);
      && ActionKeys(r.keys) <= 1
      && (r.controls.lastActionTime == c.lastActionTime
          || r.controls.lastActionTime - c.lastActionTime > ACTION_COOLDOWN)
      && (ActionKeys(r.keys) == 1 ==> r.controls.lastActionTime - c.lastActionTime > ACTION_COOLDOWN)
  {
    var lane := LaneGate(c, ClassifyLane(lx, rx, w), now);
    var action := ActionGate(lane.controls, ClassifyAction(currHeight, userHeight, threshold), now);
    LaneGateTallies(c, ClassifyLane(lx, rx, w), now);
    ActionGateTallies(lane.controls, ClassifyAction(currHeight, userHeight, threshold), now);
    CountAppend(Up, lane.keys, action.keys);
    CountAppend(Down, lane.keys, action.keys);
  }

  /** The keys of one `game_mech` call: never space, and an arrow key comes
      before up or down when both are pressed. */
  lemma MechKeyOrder(c: Controls, lx: int, rx: int, w: int, userHeight: int, threshold: int,
                     currHeight: int, now: real)
    ensures var r := Mech(c, lx, rx, w, userHeight, threshold, currHeight, now);
      && Count(Space, r.keys) == 0
      && (|r.keys| == 2 ==> (r.keys[0] == Left || r.keys[0] == Right) && (r.keys[1] == Up || r.keys[1] == Down))
  {
    var lane := LaneGate(c, ClassifyLane(lx, rx, w), now);
    var action := ActionGate(lane.controls, ClassifyAction(currHeight, userHeight, threshold), now);
    LaneGateTallies(c, ClassifyLane(lx, rx, w), now);
    ActionGateTallies(lane.controls, ClassifyAction(currHeight, userHeight, threshold), now);
    CountAppend(Space, lane.keys, action.keys);
  }

  /** Inside `game_mech` the action line does not see what the lane line
      did: its outcome and its keys are those of the action line run alone
      on the incoming state. */
  lemma MechActionIsActionLineAlone(c: Controls, lx: int, rx: int, w: int, userHeight: int,
                                    threshold: int, currHeight: int, now: real)
    ensures var r := Mech(c, lx, rx, w, userHeight, threshold, currHeight, now);
      var a := ActionGate(c, ClassifyAction(currHeight, userHeight, threshold), now);
      && r.controls.stateA == NeutralReset(a.controls, currHeight, userHeight, threshold).stateA
      && r.controls.lastActionTime == a.controls.lastActionTime
      && Count(Up, r.keys) == Count(Up, a.keys)
      && Count(Down, r.keys) == Count(Down, a.keys)
  {
    var newA := ClassifyAction(currHeight, userHeight, threshold);
    var lane := LaneGate(c, ClassifyLane(lx, rx, w), now);
    var action := ActionGate(lane.controls, newA, now);
    assert action.keys == ActionGate(c, newA, now).keys;
    LaneGateTallies(c, ClassifyLane(lx, rx, w), now);
    CountAppend(Up, lane.keys, action.keys);
    CountAppend(Down, lane.keys, action.keys);
  }

  /** Inside `game_mech` the lane line's outcome and keys are those of the
      lane line run alone. */
  lemma MechLaneIsLaneLineAlone(c: Controls, lx: int, rx: int, w: int, userHeight: int,
                                threshold: int, currHeight: int, now: real)
    ensures var r := Mech(c, lx, rx, w, userHeight, threshold, currHeight, now);
      var l := LaneGate(c, ClassifyLane(lx, rx, w), now);
      && r.controls.lane == l.controls.lane
      && r.controls.lastLaneTime == l.controls.lastLaneTime
      && Count(Left, r.keys) == Count(Left, l.keys)
      && Count(Right, r.keys) == Count(Right, l.keys)
  {
    var lane := LaneGate(c, ClassifyLane(lx, rx, w), now);
    var action := ActionGate(lane.controls, ClassifyAction(currHeight, userHeight, threshold), now);
    ActionGateTallies(lane.controls, ClassifyAction(currHeight, userHeight, threshold), now);
    CountAppend(Left, lane.keys, action.keys);
    CountAppend(Right, lane.keys, action.keys);
  }

  /** The lane line reads and writes only the lane and its clock: two states
      that agree on those give the same lane outcome and the same arrow keys. */
  lemma LaneLineIgnoresActionState(c1: Controls, c2: Controls, lx: int, rx: int, w: int,
                                   userHeight: int, threshold: int, currHeight: int, now: real)
    requires c1.lane == c2.lane && c1.lastLaneTime == c2.lastLaneTime
    ensures var r1, r2 := Mech(c1, lx, rx, w, userHeight, threshold, currHeight, now),
                          Mech(c2, lx, rx, w, userHeight, threshold, currHeight, now);
      && r1.controls.lane == r2.controls.lane
      && r1.controls.lastLaneTime == r2.controls.lastLaneTime
      && Count(Left, r1.keys) == Count(Left, r2.keys)
      && Count(Right, r1.keys) == Count(Right, r2.keys)
  {
    MechLaneIsLaneLineAlone(c1, lx, rx, w, userHeight, threshold, currHeight, now);
    MechLaneIsLaneLineAlone(c2, lx, rx, w, userHeight, threshold, currHeight, now);
    var target := ClassifyLane(lx, rx, w);
    assert LaneGate(c1, target, now).keys == LaneGate(c2, target, now).keys;
  }

  /** The action line reads and writes only the action state and its clock,
      whatever the shoulders' x-positions and the lane. */
  lemma ActionLineIgnoresLane(c1: Controls, c2: Controls, lx1: int, rx1: int, lx2: int, rx2: int,
                              w: int, userHeight: int, threshold: int, currHeight: int, now: real)
    requires c1.stateA == c2.stateA && c1.lastActionTime == c2.lastActionTime
    ensures var r1, r2 := Mech(c1, lx1, rx1, w, userHeight, threshold, currHeight, now),
                          Mech(c2, lx2, rx2, w, userHeight, threshold, currHeight, now);
      && r1.controls.stateA == r2.controls.stateA
      && r1.controls.lastActionTime == r2.controls.lastActionTime
      && Count(Up, r1.keys) == Count(Up, r2.keys)
      && Count(Down, r1.keys) == Count(Down, r2.keys)
  {
    MechActionIsActionLineAlone(c1, lx1, rx1, w, userHeight, threshold, currHeight, now);
    MechActionIsActionLineAlone(c2, lx2, rx2, w, userHeight, threshold, currHeight, now);
    var newA := ClassifyAction(currHeight, userHeight, threshold);
    assert ActionGate(c1, newA, now).keys == ActionGate(c2, newA, now).keys;
  }
}
