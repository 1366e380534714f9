# Subway Surfers pose controller — a verified model

The program drives the game Subway Surfers from a webcam. A pose model reports
where the player's shoulders and one wrist are. The program turns them into key
presses:

- shoulders left of, straddling or right of the centre line choose the left,
  middle or right lane, one lane per arrow press;
- the shoulders rising above or dropping below a calibrated neutral band press
  up (jump) or down (roll);
- raising the control wrist above the top third of the frame starts the game
  with a space press.

Two cooldowns debounce the arrow presses. The neutral height is the shoulders'
mean height plus ten pixels, recalibrated on every frame until the game starts.

The model has four modules:

- `Gestures` (`gestures.dfy`) holds the pure classifiers:
  - the lane target from the shoulders' x-positions;
  - the vertical action from the height displacement;
  - the start gesture;
  - the calibration arithmetic, including the truncation toward zero of Python's `int()`.
- `Gate` (`gate.dfy`) is `game_mech` as functions on the four globals it updates:
  - the lane, the action state and their two cooldown clocks;
  - the lane line, the action line and the neutral reset;
  - lemmas on what one call does.
- `Loop` (`loop.dfy`) models one pass of the main loop over a frame as a function:
  - the start block, then the running block;
  - the run over a stream of frames;
  - lemmas that hold of every run: space is pressed once, the lane follows the
    arrow keys, every arrow press costs a cooldown, and the game stays silent
    until it starts.
- `Game` (`game.dfy`) holds the class `Controller`:
  - its fields are the program's globals and its key log;
  - `GameMech`, `LaneLine` and `ActionLine` update them in place as the source does;
  - `AwaitStart`, `Frame` and `Run` do the same for the loop body and the main loop;
  - each method's `ensures` ties the new state to the corresponding function of `Gate` or `Loop`.

Some conventions:

- **Pixels.** Landmarks are integer pixels.
- **Comparisons.** Comparisons against `w / 2` and `h / 3` are stated over the reals in the contracts and computed over the integers (`2 * lx < w`, `3 * py < h`).
- **Time.** Time is a `real` number of seconds, taken as an input with each frame.
- **Lanes.** The lane is an index 0..2, not the source's string `"Lane k"`.
- **Action state.** The action state is `Option<Action>`:
  - `None` is Python's initial `None`;
  - `Some(Neutral)` is the string `"NONE"`.
- **Key presses.** A press-and-release pair is one `Key` appended to the log.

Three details of the code are easy to misread:

- **Lane comparisons.** The middle and right lanes use a strict `rx > w / 2`. A shoulder exactly on the centre line therefore gives no target.
- **Rounding.** `int((ly + ry) / 2)` truncates toward zero rather than rounding.
- **Calibration.** The neutral height is recomputed on every frame with a pose until the game starts, not once.

## Model

| member | source | states |
|---|---|---|
| `Gestures.TruncHalf` | subway_surfers_computer_vision.py:228 | the result is half the sum truncated toward zero: within one below (non-negative sums) or one above (negative sums) of the exact half, never larger in magnitude |
| `Gestures.Calibrate` | subway_surfers_computer_vision.py:37 | the neutral height minus the offset 10 is the shoulders' mean truncated toward zero, for both signs |
| `Gestures.StartGesture` | subway_surfers_computer_vision.py:235 | the game starts exactly when `py < h / 3` over the reals |
| `Gestures.ClassifyLane` | subway_surfers_computer_vision.py:107-114 | lane 0 iff both shoulders are strictly left of `w / 2`, 1 iff `lx < w / 2 < rx`, 2 iff both strictly right, no target iff a shoulder is on the centre line or they are crossed |
| `Gestures.ClassifyAction` | subway_surfers_computer_vision.py:137-145 | Jump iff the height is strictly above the band, Roll iff strictly below, Neutral iff within the closed band |
| `Gestures.ResetBandIsNeutral` | subway_surfers_computer_vision.py:137-163 | inside the open reset band the classifier answers Neutral |
| `Gestures.BoundaryIsNeutralWithoutReset` | subway_surfers_computer_vision.py:137-163 | a height exactly `Threshold` from neutral classifies as Neutral but does not trigger the reset |
| `Gestures.CalibratedFrameIsNeutral` | subway_surfers_computer_vision.py:228-232 | on a calibration frame the height is 10 pixels above neutral, classified Neutral and inside the reset band |
| `Gate.LaneGate` | subway_surfers_computer_vision.py:117-133 | when a target differs from the lane and the cooldown strictly elapsed: one step toward the target, one arrow key (right iff the lane grows), clock stamped; otherwise nothing changes; the action state and its clock are never touched |
| `Gate.LaneGateTallies` | subway_surfers_computer_vision.py:120-133 | the lane line presses at most one key, always an arrow, and the arrows account for the move |
| `Gate.ActionGate` | subway_surfers_computer_vision.py:148-159 | when the new action differs from the state and the cooldown strictly elapsed: state set, clock stamped, up for Jump, down for Roll, no key for Neutral; otherwise nothing changes; lane and lane clock untouched |
| `Gate.ActionGateTallies` | subway_surfers_computer_vision.py:148-159 | the action line presses at most one key, always up or down |
| `Gate.NeutralReset` | subway_surfers_computer_vision.py:161-163 | inside the open band the state becomes Neutral, otherwise it is unchanged; lane and both clocks untouched |
| `Gate.Mech` | subway_surfers_computer_vision.py:94-163 | one `game_mech` call: lane line, action line, neutral reset; no contract of its own, its behaviour is stated by `MechBounds`, `MechResetsInBand`, `MechLaneLine`, `MechActionLine`, `MechKeyOrder`, `MechActionIsActionLineAlone`, `MechLaneIsLaneLineAlone`, `LaneLineIgnoresActionState` and `ActionLineIgnoresLane` |
| `Gate.MechBounds` | subway_surfers_computer_vision.py:117-159 | one `game_mech` call moves the lane by at most one and presses at most two keys |
| `Gate.MechResetsInBand` | subway_surfers_computer_vision.py:161-163 | after `game_mech`, inside the reset band the action state is Neutral |
| `Gate.MechLaneLine` | subway_surfers_computer_vision.py:107-133 | the lane moves only toward the classified target; right minus left presses equal the move; at most one arrow; the lane clock moves exactly when an arrow is pressed, by more than the cooldown |
| `Gate.MechActionLine` | subway_surfers_computer_vision.py:137-159 | at most one of up/down; the action clock stays or moves by more than the cooldown, always when up/down is pressed |
| `Gate.MechKeyOrder` | subway_surfers_computer_vision.py:117-159 | `game_mech` never presses space, and an arrow comes before up/down |
| `Gate.MechActionIsActionLineAlone` | subway_surfers_computer_vision.py:102-163 | the action outcome and up/down keys of `game_mech` are those of the action line run alone on the incoming state |
| `Gate.MechLaneIsLaneLineAlone` | subway_surfers_computer_vision.py:102-163 | the lane outcome and arrow keys of `game_mech` are those of the lane line run alone |
| `Gate.LaneLineIgnoresActionState` | subway_surfers_computer_vision.py:102-133 | states that agree on lane and lane clock give the same lane, lane clock and arrow keys, whatever the action state |
| `Gate.ActionLineIgnoresLane` | subway_surfers_computer_vision.py:137-163 | states that agree on action state and its clock give the same action state, clock and up/down keys, whatever the lane and shoulders' x-positions |
| `Loop.AwaitStep` | subway_surfers_computer_vision.py:231-238 | the start block; no contract of its own, its behaviour is stated by `FrameStepSession`, `FrameStepSpace` and `RunPressesSpaceOnce` |
| `Loop.PlayStep` | subway_surfers_computer_vision.py:241-243 | the running block; no contract of its own, its behaviour is stated by `PlayStepSpace`, `PlayStepLaneShift`, `PlayStepLaneClock` and `PlayStepActionClock` |
| `Loop.FrameStep` | subway_surfers_computer_vision.py:208-243 | one pass of the loop body; no contract of its own, its behaviour is stated by `FrameStepSession`, `FrameStepSpace`, `FrameStepLaneShift`, `FrameStepLaneClock`, `FrameStepActionClock` and `StartingFrameIsNeutral` |
| `Loop.RunTicks` | subway_surfers_computer_vision.py:192-243 | the main loop over a stream of frames; no contract of its own, its behaviour is stated by the `Run*` lemmas and `CrossingTakesTwoMoves` |
| `Loop.FrameStepSession` | subway_surfers_computer_vision.py:208-243 | a frame without a pose changes nothing; the game starts on the start gesture and never stops; recalibration on every pre-start frame, frozen after; nothing controlled or pressed before the start |
| `Loop.RunKeepsPlaying` | subway_surfers_computer_vision.py:231-238 | once playing, a run keeps playing and never recalibrates |
| `Loop.RunSilentUntilStart` | subway_surfers_computer_vision.py:231-243 | a run that has not started pressed nothing and left the controls as they were |
| `Loop.RunPressesSpaceOnce` | subway_surfers_computer_vision.py:235-238 | space is pressed exactly once in a run that starts the game and never otherwise |
| `Loop.PlayStepSpace` | subway_surfers_computer_vision.py:241-243 | the running block presses no space and keeps the start block's keys first |
| `Loop.FrameStepSpace` | subway_surfers_computer_vision.py:231-243 | space is pressed exactly on the starting frame, as its first key |
| `Loop.PlayStepLaneShift` | subway_surfers_computer_vision.py:241-243 | in the running block the arrow keys account for the lane's move |
| `Loop.FrameStepLaneShift` | subway_surfers_computer_vision.py:208-243 | in one frame the arrow keys account for the lane's move |
| `Loop.PlayStepLaneClock` | subway_surfers_computer_vision.py:241-243 | in the running block at most one arrow; the lane clock moves exactly when one is pressed, by more than the cooldown |
| `Loop.FrameStepLaneClock` | subway_surfers_computer_vision.py:208-243 | in one frame at most one arrow; the lane clock moves exactly when one is pressed, by more than the cooldown |
| `Loop.PlayStepActionClock` | subway_surfers_computer_vision.py:241-243 | in the running block at most one of up/down; the action clock stays or moves by more than the cooldown, always when one is pressed |
| `Loop.FrameStepActionClock` | subway_surfers_computer_vision.py:208-243 | in one frame at most one of up/down; the action clock stays or moves by more than the cooldown |
| `Loop.RunLaneFollowsKeys` | subway_surfers_computer_vision.py:117-133 | over any run, the lane's total move equals right presses minus left presses |
| `Loop.RunLaneCooldown` | subway_surfers_computer_vision.py:120-133 | after n arrow presses the lane clock has advanced by more than n lane cooldowns; without presses it has not moved |
| `Loop.RunActionCooldown` | subway_surfers_computer_vision.py:148-159 | after n up/down presses the action clock has advanced by at least n action cooldowns, strictly more when n > 0 |
| `Loop.CrossingTakesTwoMoves` | subway_surfers_computer_vision.py:117-133 | going from one outer lane to the other takes at least two arrow presses and more than two lane cooldowns |
| `Loop.StartingFrameIsNeutral` | subway_surfers_computer_vision.py:228-243 | on the starting frame space comes first, no up/down is pressed and the action state ends Neutral |
| `Game.Controller.constructor` | subway_surfers_computer_vision.py:179-188 | not playing, middle lane, action unset, both clocks at zero, empty key log |
| `Game.Controller.LaneLine` | subway_surfers_computer_vision.py:107-133 | the globals and key log after the lane block are those given by `LaneGate`; `playing` and the neutral height untouched |
| `Game.Controller.ActionLine` | subway_surfers_computer_vision.py:137-159 | the globals and key log after the action block are those given by `ActionGate` |
| `Game.Controller.GameMech` | subway_surfers_computer_vision.py:94-163 | the globals after `game_mech` are those of `Mech` and its keys are appended to the log; `playing` and the neutral height untouched |
| `Game.Controller.AwaitStart` | subway_surfers_computer_vision.py:231-238 | recalibrates, presses space and starts exactly on the start gesture; controls untouched |
| `Game.Controller.Frame` | subway_surfers_computer_vision.py:208-243 | the state after one loop pass is that of `FrameStep`, with its keys appended to the log |
| `Game.Controller.Run` | subway_surfers_computer_vision.py:192-243 | the state after the main loop over a stream of frames is that of `RunTicks`, with its keys appended |

## Left out

- **Camera and loop exit.** Camera capture, mirroring, and leaving the loop on a failed read or on `q` are I/O. A run ends when its finite sequence of frames ends.
- **Pose inference.** MediaPipe pose inference and the scaling of its normalised float landmarks into pixels come from a foreign library and use float arithmetic. The pixel coordinates are inputs.
- **Drawing.** All drawing is cosmetic: the start message, the `callibration` overlay, the status text and the window.
- **`fps`.** The frame-rate computation has no effect on control.
- **The keyboard.** The `pynput` controller is a foreign call. Each press is modelled as one key appended to a log.
- **Time.** The clock is an input. Times and cooldowns are exact reals, so float rounding of `t.time()` and of the differences is not modelled.
- **Float comparisons.** Python compares the integer pixels with the floats `w / 2` and `h / 3`. The model compares exactly, which agrees for every pixel size a frame can have.
- **Initial neutral height.** Before the first frame with a pose, the neutral height is undefined in the source. It is modelled as 0, which is never read before it is set.
- **Unused parameters.** `game_mech` receives `ly`, `ry` and `h` and does not use them. `Game.Controller.GameMech` keeps them, and the `Gate` functions omit them.
