/** The controller as the source runs it: globals updated in place by
    `game_mech` and by the body of the main loop, with key presses appended
    to an output log.  Each method is tied to the functions of Gate and Loop,
    whose properties are proved there. */
module Game {
  import opened Gestures
  import opened Gate
  import opened Loop

  class Controller {
    var playing: bool
    var userHeight: int
    var lane: Lane
    var stateA: Option<Action>
    var lastLaneTime: real
    var lastActionTime: real
    /** Every key pressed so far, oldest first. */
    var keys: seq<Key>

    /** The four globals `game_mech` updates. */
    function Globals(): Controls
      reads this
    {
      Controls(lane, stateA, lastLaneTime, lastActionTime)
    }

    function State(): Session
      reads this
    {
      Session(playing, userHeight, Globals())
    }

    /** The initial values of the globals: not playing, middle lane, action
        unset, both clocks at zero, nothing pressed. */
    constructor ()
      ensures State() == InitialSession && keys == []
    {
      playing := false;
      userHeight := 0;
      lane := 1;
      stateA := None;
      lastLaneTime := 0.0;
      lastActionTime := 0.0;
      keys := [];
    }

    /** `game_mech`: the lane line, the action line and the neutral reset.
        `ly`, `ry` and `h` are passed by the source but not used. */
    method GameMech(lx: int, ly: int, rx: int, ry: int, h: int, w: int,
                    userHeight: int, threshold: int, currHeight: int, now: real)
      modifies this
      ensures var m := Mech(old(Globals()), lx, rx, w, userHeight, threshold, currHeight, now);
        Globals() == m.controls && keys == old(keys) + m.keys
      ensures playing == old(playing) && this.userHeight == old(this.userHeight)
    {
      ghost var c0, k0 := Globals(), keys;
      LaneLine(lx, rx, w, now);
      ghost var laneStep := LaneGate(c0, ClassifyLane(lx, rx, w), now);
      ActionLine(userHeight, threshold, currHeight, now);
      ghost var actionStep := ActionGate(laneStep.controls, ClassifyAction(currHeight, userHeight, threshold), now);
      assert keys == k0 + (laneStep.keys + actionStep.keys);
      // reset the action state when the body is back in the neutral band
      if Abs(currHeight - userHeight) < threshold {
        stateA := Some(Neutral);
      }
    }

    /** Lane detection and the lane cooldown (the first part of `game_mech`). */
    method LaneLine(lx: int, rx: int, w: int, now: real)
      modifies this
      ensures var l := LaneGate(old(Globals()), ClassifyLane(lx, rx, w), now);
        Globals() == l.controls && keys == old(keys) + l.keys
      ensures playing == old(playing) && userHeight == old(userHeight)
    {
      var targetLane := ClassifyLane(lx, rx, w);
      var currLane := lane;
      if targetLane.Some? && targetLane.value != currLane {
        if now - lastLaneTime > LANE_COOLDOWN {
          if targetLane.value > currLane {
            keys := keys + [Right];
            currLane := currLane + 1;
          } else {
            keys := keys + [Left];
            currLane := currLane - 1;
          }
          lane := currLane;
          lastLaneTime := now;
        }
      }
    }

    /** Jump / roll detection and the action cooldown (the second part of
        `game_mech`). */
    method ActionLine(userHeight: int, threshold: int, currHeight: int, now: real)
      modifies this
      ensures var a := ActionGate(old(Globals()), ClassifyAction(currHeight, userHeight, threshold), now);
        Globals() == a.controls && keys == old(keys) + a.keys
      ensures playing == old(playing) && this.userHeight == old(this.userHeight)
    {
      var newStateA := ClassifyAction(currHeight, userHeight, threshold);
      if Some(newStateA) != stateA && now - lastActionTime > ACTION_COOLDOWN {
        if newStateA == Jump {
          keys := keys + [Up];
        } else if newStateA == Roll {
          keys := keys + [Down];
        }
        stateA := Some(newStateA);
        lastActionTime := now;
      }
    }

    /** One pass of the main loop over a frame: skip it when no pose was
        detected; before the game starts, recalibrate and watch for the start
        gesture; once playing, run `game_mech`. */
    method Frame(t: Tick)
      modifies this
      ensures var r := FrameStep(old(State()), t);
        State() == r.session && keys == old(keys) + r.keys
    {
      if t.pose.Some? {
        ghost var s0, k0 := State(), keys;
        ghost var startKeys := if Starts(s0, t) then [Space] else [];
        var p := t.pose.value;
        var currHeight := TruncHalf(p.ly + p.ry);
        if !playing {
          AwaitStart(p);
        }
        ghost var k1 := keys;
        assert k1 == k0 + startKeys;
        assert userHeight == if s0.playing then s0.userHeight else Calibrate(p.ly, p.ry);
        assert playing == (s0.playing || Starts(s0, t));
        if playing {
          GameMech(p.lx, p.ly, p.rx, p.ry, p.h, p.w, userHeight, THRESHOLD, currHeight, t.now);
          ghost var m := Mech(s0.controls, p.lx, p.rx, p.w, userHeight, THRESHOLD, currHeight, t.now);
          assert FrameStep(s0, t) == Outcome(Session(true, userHeight, m.controls), startKeys + m.keys);
        } else {
          assert FrameStep(s0, t) == Outcome(Session(false, userHeight, s0.controls), []);
        }
      }
    }

    /** Before the game starts: recalibrate the neutral height from this
        frame, and start the game with a space press on the start gesture. */
    method AwaitStart(p: Landmarks)
      modifies this
      ensures userHeight == Calibrate(p.ly, p.ry)
      ensures playing == (old(playing) || StartGesture(p.py, p.h))
      ensures keys == old(keys) + if StartGesture(p.py, p.h) then [Space] else []
      ensures Globals() == old(Globals())
    {
      userHeight := Calibrate(p.ly, p.ry);
      if StartGesture(p.py, p.h) {
        keys := keys + [Space];
        playing := true;
      }
    }

    /** The main loop over a stream of frames, until the stream ends. */
    method Run(ticks: seq<Tick>)
      modifies this
      ensures var r := RunTicks(old(State()), ticks);
        State() == r.session && keys == old(keys) + r.keys
    {
      ghost var s0, k0 := State(), keys;
      var i := 0;
      while i < |ticks|
        invariant 0 <= i <= |ticks|
        invariant State() == RunTicks(s0, ticks[..i]).session
        invariant keys == k0 + RunTicks(s0, ticks[..i]).keys
      {
        ghost var prev := RunTicks(s0, ticks[..i]);
        Frame(ticks[i]);
        RunTicksSnoc(s0, ticks, i);
        ghost var last := FrameStep(prev.session, ticks[i]);
        AppendAssoc(k0, prev.keys, last.keys);
        i := i + 1;
      }
      assert ticks[..i] == ticks;
    }
  }
}
