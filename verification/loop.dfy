/** The per-frame body of the main loop (start gesture, calibration and
    `game_mech`) as a function, a run over a stream of frames, and what holds
    of every run. */
module Loop {
  import opened Gestures
  import opened Gate

  /** Pixel coordinates of the two shoulders and the control wrist, already
      swapped for the mirrored frame, with the frame's height and width. */
  datatype Landmarks = Landmarks(lx: int, ly: int, rx: int, ry: int, py: int, h: int, w: int)

  /** One video frame: the pose, or None when nothing was detected, and the
      clock reading `game_mech` takes. */
  datatype Tick = Tick(pose: Option<Landmarks>, now: real)

  /** `playing`, `user_height` and the control state. */
  datatype Session = Session(playing: bool, userHeight: int, controls: Controls)

  datatype Outcome = Outcome(session: Session, keys: seq<Key>)

  /** Before the first frame.  The neutral height is not yet defined in the
      source; 0 stands for it and is never read before it is set. */
  const InitialSession: Session := Session(false, 0, InitialControls)

  /** Whether this frame starts the game. */
  predicate Starts(s: Session, t: Tick)
  {
    !s.playing && t.pose.Some? && StartGesture(t.pose.value.py, t.pose.value.h)
  }

  /** The start block of the loop body: until the game plays, recalibrate
      the neutral height from this frame and start on the start gesture with
      a space press; once playing, nothing. */
  function AwaitStep(s: Session, p: Landmarks): Outcome
  {
    if s.playing then Outcome(s, [])
    else if StartGesture(p.py, p.h) then Outcome(Session(true, Calibrate(p.ly, p.ry), s.controls), [Space])
    else Outcome(Session(false, Calibrate(p.ly, p.ry), s.controls), [])
  }

  /** The running block of the loop body: `game_mech` on this frame, with the
      height measured as the shoulders' mean. */
  function PlayStep(a: Outcome, p: Landmarks, now: real): Outcome
  {
    var m := Mech(a.session.controls, p.lx, p.rx, p.w, a.session.userHeight, THRESHOLD,
                  TruncHalf(p.ly + p.ry), now);
    Outcome(a.session.(controls := m.controls), a.keys + m.keys)
  }

  /** One pass of the main loop over a frame: skipped without a pose, then
      the start block, then the running block if the game is now playing. */
  function FrameStep(s: Session, t: Tick): Outcome
  {
    match t.pose
    case None => Outcome(s, [])
    case Some(p) =>
      var a := AwaitStep(s, p);
      if a.session.playing then PlayStep(a, p, t.now) else a
  }

  /** What one frame does to the session: a frame without a pose changes
      nothing; the game starts on the start gesture and never stops; the
      neutral height is recalibrated on every frame with a pose until the
      game starts and frozen afterwards; nothing is controlled or pressed
      before the game starts. */
  lemma FrameStepSession(s: Session, t: Tick)
    ensures var r := FrameStep(s, t);
      && (t.pose.None? ==> r == Outcome(s, []))
      && r.session.playing == (s.playing || Starts(s, t))
      && (s.playing ==> r.session.userHeight == s.userHeight)
      && (!s.playing && t.pose.Some? ==> r.session.userHeight == Calibrate(t.pose.value.ly, t.pose.value.ry))
      && (!r.session.playing ==> r.session.controls == s.controls && r.keys == [])
  {
  }

  /** The main loop over a stream of frames, frame by frame from the first. */
  function RunTicks(s: Session, ticks: seq<Tick>): Outcome
    decreases |ticks|
  {
    if ticks == [] then
      Outcome(s, [])
    else
      var prev := RunTicks(s, ticks[..|ticks| - 1]);
      var last := FrameStep(prev.session, ticks[|ticks| - 1]);
      Outcome(last.session, prev.keys + last.keys)
  }

  /** Running one more frame is one more FrameStep after the run so far. */
  lemma RunTicksSnoc(s: Session, ticks: seq<Tick>, i: nat)
    requires i < |ticks|
    ensures var prev := RunTicks(s, ticks[..i]);
      var last := FrameStep(prev.session, ticks[i]);
      RunTicks(s, ticks[..i + 1]) == Outcome(last.session, prev.keys + last.keys)
  {
    assert ticks[..i + 1][..i] == ticks[..i];
  }

  /** Once the game is playing it stays playing, and the neutral height does
      not change again. */
  lemma {:induction false} RunKeepsPlaying(s: Session, ticks: seq<Tick>)
    requires s.playing
    ensures RunTicks(s, ticks).session.playing
    ensures RunTicks(s, ticks).session.userHeight == s.userHeight
  {
    if ticks != [] {
      RunKeepsPlaying(s, ticks[..|ticks| - 1]);
    }
  }

  /** Until the game starts nothing is pressed and the controls stay as
      they were. */
  lemma {:induction false} RunSilentUntilStart(s: Session, ticks: seq<Tick>)
    requires !RunTicks(s, ticks).session.playing
    ensures RunTicks(s, ticks).keys == [] && RunTicks(s, ticks).session.controls == s.controls
  {
    if ticks != [] {
      var init := ticks[..|ticks| - 1];
      FrameStepSession(RunTicks(s, init).session, ticks[|ticks| - 1]);
      RunSilentUntilStart(s, init);
    }
  }

  /** Space is pressed at most once in any run: exactly once if the run
      starts the game, never otherwise. */
  lemma {:induction false} RunPressesSpaceOnce(s: Session, ticks: seq<Tick>)
    ensures var r := RunTicks(s, ticks);
      Count(Space, r.keys) == if !s.playing && r.session.playing then 1 else 0
  {
    if ticks != [] {
      var init := ticks[..|ticks| - 1];
      RunPressesSpaceOnce(s, init);
      if s.playing {
        RunKeepsPlaying(s, init);
      }
      var prev := RunTicks(s, init);
      var last := FrameStep(prev.session, ticks[|ticks| - 1]);
      FrameStepSpace(prev.session, ticks[|ticks| - 1]);
      TalliesAppend(prev.keys, last.keys);
    }
  }

  /** The lane moves by exactly the number of right presses minus the number
      of left presses. */
  lemma {:induction false} RunLaneFollowsKeys(s: Session, ticks: seq<Tick>)
    ensures var r := RunTicks(s, ticks);
      r.session.controls.lane - s.controls.lane == NetShift(r.keys)
  {
    if ticks != [] {
      var init := ticks[..|ticks| - 1];
      RunLaneFollowsKeys(s, init);
      var prev := RunTicks(s, init);
      var last := FrameStep(prev.session, ticks[|ticks| - 1]);
      FrameStepLaneShift(prev.session, ticks[|ticks| - 1]);
      TalliesAppend(prev.keys, last.keys);
    }
  }

  /** The running block never presses space and keeps the start block's
      keys first. */
  lemma PlayStepSpace(a: Outcome, p: Landmarks, now: real)
    ensures var r := PlayStep(a, p, now);
      && Count(Space, r.keys) == Count(Space, a.keys)
      && |a.keys| <= |r.keys| && r.keys[..|a.keys|] == a.keys
  {
    var m := Mech(a.session.controls, p.lx, p.rx, p.w, a.session.userHeight, THRESHOLD, TruncHalf(p.ly + p.ry), now);
    MechKeyOrder(a.session.controls, p.lx, p.rx, p.w, a.session.userHeight, THRESHOLD, TruncHalf(p.ly + p.ry), now);
    CountAppend(Space, a.keys, m.keys);
    assert (a.keys + m.keys)[..|a.keys|] == a.keys;
  }

  /** Space is pressed exactly on the starting frame, before any other key. */
  lemma FrameStepSpace(s: Session, t: Tick)
    ensures var r := FrameStep(s, t);
      && Count(Space, r.keys) == (if Starts(s, t) then 1 else 0)
      && (Starts(s, t) ==> |r.keys| > 0 && r.keys[0] == Space)
  {
    match t.pose
    case None =>
    case Some(p) =>
      var a := AwaitStep(s, p);
      if a.session.playing {
        PlayStepSpace(a, p, t.now);
      }
  }

  /** In the running block the arrow keys account for the lane's move. */
  lemma PlayStepLaneShift(a: Outcome, p: Landmarks, now: real)
    ensures var r := PlayStep(a, p, now);
      NetShift(r.keys) - NetShift(a.keys) == r.session.controls.lane - a.session.controls.lane
  {
    var m := Mech(a.session.controls, p.lx, p.rx, p.w, a.session.userHeight, THRESHOLD, TruncHalf(p.ly + p.ry), now);
    MechLaneLine(a.session.controls, p.lx, p.rx, p.w, a.session.userHeight, THRESHOLD, TruncHalf(p.ly + p.ry), now);
    CountAppend(Left, a.keys, m.keys);
    CountAppend(Right, a.keys, m.keys);
  }

  /** Within one frame the arrow keys account for the lane's move. */
  lemma FrameStepLaneShift(s: Session, t: Tick)
    ensures var r := FrameStep(s, t);
      NetShift(r.keys) == r.session.controls.lane - s.controls.lane
  {
    match t.pose
    case None =>
    case Some(p) =>
      var a := AwaitStep(s, p);
      if a.session.playing {
        PlayStepLaneShift(a, p, t.now);
      }
  }

  /** In the running block at most one arrow key is pressed, and the lane
      clock moves exactly when one is, by more than LANE_COOLDOWN. */
  lemma PlayStepLaneClock(a: Outcome, p: Landmarks, now: real)
    ensures var r := PlayStep(a, p, now);
      var n, dl := LaneKeys(r.keys) - LaneKeys(a.keys), r.session.controls.lastLaneTime - a.session.controls.lastLaneTime;
      && 0 <= n <= 1
      && (n == 0 ==> dl == 0.0)
      && (n == 1 ==> dl > LANE_COOLDOWN)
  {
    var m := Mech(a.session.controls, p.lx, p.rx, p.w, a.session.userHeight, THRESHOLD, TruncHalf(p.ly + p.ry), now);
    MechLaneLine(a.session.controls, p.lx, p.rx, p.w, a.session.userHeight, THRESHOLD, TruncHalf(p.ly + p.ry), now);
    CountAppend(Left, a.keys, m.keys);
    CountAppend(Right, a.keys, m.keys);
  }

  /** Within one frame at most one arrow key is pressed, and the lane clock
      moves exactly when one is, by more than LANE_COOLDOWN. */
  lemma FrameStepLaneClock(s: Session, t: Tick)
    ensures var r := FrameStep(s, t);
      var dl := r.session.controls.lastLaneTime - s.controls.lastLaneTime;
      && LaneKeys(r.keys) <= 1
      && (LaneKeys(r.keys) == 0 ==> dl == 0.0)
      && (LaneKeys(r.keys) == 1 ==> dl > LANE_COOLDOWN)
  {
    match t.pose
    case None =>
    case Some(p) =>
      var a := AwaitStep(s, p);
      if a.session.playing {
        PlayStepLaneClock(a, p, t.now);
      }
  }

  /** In the running block at most one of up and down is pressed; the action
      clock stays or moves by more than ACTION_COOLDOWN, and always moves
      when up or down is pressed. */
  lemma PlayStepActionClock(a: Outcome, p: Landmarks, now: real)
    ensures var r := PlayStep(a, p, now);
      var n, da := ActionKeys(r.keys) - ActionKeys(a.keys), r.session.controls.lastActionTime - a.session.controls.lastActionTime;
      && 0 <= n <= 1
      && (da == 0.0 || da > ACTION_COOLDOWN)
      && (n == 1 ==> da > ACTION_COOLDOWN)
  {
    var m := Mech(a.session.controls, p.lx, p.rx, p.w, a.session.userHeight, THRESHOLD, TruncHalf(p.ly + p.ry), now);
    MechActionLine(a.session.controls, p.lx, p.rx, p.w, a.session.userHeight, THRESHOLD, TruncHalf(p.ly + p.ry), now);
    CountAppend(Up, a.keys, m.keys);
    CountAppend(Down, a.keys, m.keys);
  }

  /** Within one frame the action clock stays or moves by more than
      ACTION_COOLDOWN, and always moves when up or down is pressed. */
  lemma FrameStepActionClock(s: Session, t: Tick)
    ensures var r := FrameStep(s, t);
      var da := r.session.controls.lastActionTime - s.controls.lastActionTime;
      && ActionKeys(r.keys) <= 1
      && (da == 0.0 || da > ACTION_COOLDOWN)
      && (ActionKeys(r.keys) == 1 ==> da > ACTION_COOLDOWN)
  {
    match t.pose
    case None =>
    case Some(p) =>
      var a := AwaitStep(s, p);
      if a.session.playing {
        PlayStepActionClock(a, p, t.now);
      }
  }

  /** Every lane change takes more than LANE_COOLDOWN of clock time: after n
      arrow presses the lane clock has advanced by more than n cooldowns. */
  lemma {:induction false} RunLaneCooldown(s: Session, ticks: seq<Tick>)
    ensures var r := RunTicks(s, ticks);
      var n := LaneKeys(r.keys);
      && (n == 0 ==> r.session.controls.lastLaneTime == s.controls.lastLaneTime)
      && (n > 0 ==> r.session.controls.lastLaneTime - s.controls.lastLaneTime > n as real * LANE_COOLDOWN)
  {
    if ticks != [] {
      var init := ticks[..|ticks| - 1];
      RunLaneCooldown(s, init);
      var prev := RunTicks(s, init);
      var last := FrameStep(prev.session, ticks[|ticks| - 1]);
      FrameStepLaneClock(prev.session, ticks[|ticks| - 1]);
      TalliesAppend(prev.keys, last.keys);
      var n0, n1 := LaneKeys(prev.keys), LaneKeys(last.keys);
      assert LaneKeys(prev.keys + last.keys) == n0 + n1;
      assert (n0 + n1) as real * LANE_COOLDOWN == n0 as real * LANE_COOLDOWN + n1 as real * LANE_COOLDOWN;
    }
  }

  /** Every up or down press takes more than ACTION_COOLDOWN of clock time,
      and silent changes back to Neutral only add to it. */
  lemma {:induction false} RunActionCooldown(s: Session, ticks: seq<Tick>)
    ensures var r := RunTicks(s, ticks);
      var n := ActionKeys(r.keys);
      && r.session.controls.lastActionTime - s.controls.lastActionTime >= n as real * ACTION_COOLDOWN
      && (n > 0 ==> r.session.controls.lastActionTime - s.controls.lastActionTime > n as real * ACTION_COOLDOWN)
  {
    if ticks != [] {
      var init := ticks[..|ticks| - 1];
      RunActionCooldown(s, init);
      var prev := RunTicks(s, init);
      var last := FrameStep(prev.session, ticks[|ticks| - 1]);
      FrameStepActionClock(prev.session, ticks[|ticks| - 1]);
      TalliesAppend(prev.keys, last.keys);
      var n0, n1 := ActionKeys(prev.keys), ActionKeys(last.keys);
      assert ActionKeys(prev.keys + last.keys) == n0 + n1;
      assert (n0 + n1) as real * ACTION_COOLDOWN == n0 as real * ACTION_COOLDOWN + n1 as real * ACTION_COOLDOWN;
    }
  }

  /** Getting from one outer lane to the other takes at least two arrow
      presses and more than two lane cooldowns, never one event. */
  lemma CrossingTakesTwoMoves(s: Session, ticks: seq<Tick>)
    requires Dist(s.controls.lane, RunTicks(s, ticks).session.controls.lane) == 2
    ensures var r := RunTicks(s, ticks);
      && LaneKeys(r.keys) >= 2
      && r.session.controls.lastLaneTime - s.controls.lastLaneTime > 2.0 * LANE_COOLDOWN
  {
    var r := RunTicks(s, ticks);
    RunLaneFollowsKeys(s, ticks);
    RunLaneCooldown(s, ticks);
    var n := LaneKeys(r.keys);
    assert n >= 2;
    assert n as real * LANE_COOLDOWN >= 2.0 * LANE_COOLDOWN;
  }

  /** On the frame that starts the game the body is, by construction of the
      calibration, inside the neutral band: space is pressed first, no up or
      down key follows, and the action state ends Neutral. */
  lemma StartingFrameIsNeutral(s: Session, t: Tick)
    requires Starts(s, t)
    ensures var r := FrameStep(s, t);
      && r.keys[0] == Space
      && ActionKeys(r.keys) == 0
      && r.session.controls.stateA == Some(Neutral)
  {
    var p := t.pose.value;
    var userHeight, currHeight := Calibrate(p.ly, p.ry), TruncHalf(p.ly + p.ry);
    CalibratedFrameIsNeutral(p.ly, p.ry);
    var m := Mech(s.controls, p.lx, p.rx, p.w, userHeight, THRESHOLD, currHeight, t.now);
    MechActionIsActionLineAlone(s.controls, p.lx, p.rx, p.w, userHeight, THRESHOLD, currHeight, t.now);
    MechResetsInBand(s.controls, p.lx, p.rx, p.w, userHeight, THRESHOLD, currHeight, t.now);
    assert ActionGate(s.controls, Neutral, t.now).keys == [];
    CountAppend(Up, [Space], m.keys);
    CountAppend(Down, [Space], m.keys);
  }
}
