# Swipe-and-ride round, modelled in Dafny

The game's single component, `SwipeFollow` (`Assets/SplineFollow.cs`), runs one
round per scene. The player presses and releases a touch. The length of that
swipe, relative to the screen height, becomes a force from 0 to 10. A force in
the closed band 3..5 wins. A coroutine then drives the car along a spline: to
the end of the path on a win, or to a random point inside it on a loss. When the
ride is over, a result text and a hint are shown, and after a loss an
interstitial ad is scheduled. `RestartGame` clears the round flags and reloads
the scene.

The project has three modules:

- `Mathf` (`mathf.dfy`): the Unity helpers the logic calls. These are
  `Clamp`, `Clamp01`, `Lerp` and `RoundToInt` (round half to even), over
  mathematical integers and reals.
- `Decimal` (`decimal.dfy`): how an `int` is written into the force label, and
  the reading that inverts it.
- `SplineFollow` (`spline_follow.dfy`): the round itself. The touch phases are
  `TouchPhase`. One frame's engine inputs are `Frame`: the first touch, the
  normalised swipe length, and the two random draws. The fields that `Update`
  touches form the value `Round`, and the pure `Step` function says what one
  `Update` does to it. `Run` and `ScoredFrames` extend this to a sequence of
  frames. The class `SwipeFollow` has the source's fields and methods. Each
  method's contract ties the new field values to `Step` and its parts, and
  `Valid()` holds the round invariant `RoundInv`. The ride coroutine is an
  `Animation` value kept in the object. `MoveCarOnSpline` resumes it once per
  frame time until the ride is over; later frame times are not used. `PlayRound` plays a full round as a client of the
  class.

Inputs that come from the engine are parameters:

- The swipe length divided by the screen height is `Frame.normalizedSwipe`.
  It is supplied by the host: the model does not compute `magnitude`.
- `Random.Range(0.1f, 0.9f)` is `Frame.loseTarget`, and
  `Random.Range(2f, 4f)` is `Frame.duration`. Each has its range as a
  precondition (`DrawsInRange`).
- `Time.deltaTime` is one element of the `deltas` given to `MoveCarOnSpline`.
  Each element is required to be non-negative.

Two points about the code and the engine:

- `RestartGame` leaves `_swipeForce` as it is, and so does the model. Only the
  scene reload, which replaces the whole object, resets it.
- Unity's float `Random.Range` includes both bounds. So the loss target lies
  in the closed range 0.1..0.9 and is never 1.0.

## Model

| member | source | states |
|---|---|---|
| Mathf.Clamp | Assets/SplineFollow.cs:66 | the result lies in min..max when min <= max, equals the value when it is already in range, equals min below it and max above it |
| Mathf.Clamp01 | Assets/SplineFollow.cs:109 | the interpolation factor lies in 0..1, is t itself inside 0..1, and is 1 for t >= 1 and 0 for t <= 0 |
| Mathf.Lerp | Assets/SplineFollow.cs:109 | the result is b once t >= 1, is a for t <= 0, and for a <= b lies between a and b |
| Mathf.Scale | Assets/SplineFollow.cs:109 | a fraction 0..1 of a non-negative distance lies between 0 and that distance; fraction 0 gives 0 and fraction 1 gives the distance |
| Mathf.LerpMonotone | Assets/SplineFollow.cs:108-109 | a larger t never gives an earlier interpolated point |
| Mathf.RoundToInt | Assets/SplineFollow.cs:66 | the result is within half a unit of the input, and an exact tie goes to the even integer |
| Mathf.RoundToIntMonotone | Assets/SplineFollow.cs:66 | rounding never reverses the order of two values |
| Mathf.ClampMonotone | Assets/SplineFollow.cs:66 | clamping never reverses the order of two values |
| Decimal.DigitChar | Assets/SplineFollow.cs:68 | a digit 0..9 is written as a character '0'..'9' whose offset from '0' is the digit |
| Decimal.DigitValue | Assets/SplineFollow.cs:68 | the value read is a digit 0..9, and a digit character is the writing of the digit it reads as |
| Decimal.Show | Assets/SplineFollow.cs:68 | the interpolated number is a non-empty string of decimal digits, starting with '0' only for zero, and one digit long exactly below 10 |
| Decimal.ValueOfShow | Assets/SplineFollow.cs:68 | reading the written digits gives back the number |
| Decimal.ShowInjective | Assets/SplineFollow.cs:68 | different numbers are written differently |
| SplineFollow.SwipeForce | Assets/SplineFollow.cs:65-66 | the force is in 0..10 for every input; it is 0 for no swipe and 10 from one screen height on; in between it is within 0.5 of ten times the normalised swipe |
| SplineFollow.SwipeForceMonotone | Assets/SplineFollow.cs:65-66 | a longer swipe never gives a smaller force |
| SplineFollow.WinBandIsClosed | Assets/SplineFollow.cs:23-24 | the win band is 3..5 inclusive at both ends: 3 and 5 win, 2 and 6 lose, and the winning forces are exactly 3, 4 and 5 |
| SplineFollow.SwipeExamples | Assets/SplineFollow.cs:65-70 | a swipe of 0.35 screen heights gives force 4 and wins; one of 0.61 gives force 6, loses, and is hinted "Too fast!" |
| SplineFollow.TargetIsEndExactlyOnWin | Assets/SplineFollow.cs:88-97 | the car is sent to path parameter 1.0 exactly on a win; after a loss it is sent to the drawn point, inside 0.1..0.9 |
| SplineFollow.EndMessages | Assets/SplineFollow.cs:119-137 | the result reads "You win!" exactly on a win and "You lost!" exactly on a loss; an ad follows exactly a loss; the hint is "Nice!", "Too slow!" below 3 or "Too fast!" above 5, so the fallback arm never keeps the old hint |
| SplineFollow.ForceTextInjective | Assets/SplineFollow.cs:68 | the force label determines the force it was written from |
| SplineFollow.PathParameter | Assets/SplineFollow.cs:105-113 | the car's path parameter stays between 0 and the target, and equals the target once the elapsed time reaches the duration |
| SplineFollow.PathParameterMonotone | Assets/SplineFollow.cs:105-113 | more elapsed time never puts the car further back along the path |
| SplineFollow.IsWin | Assets/SplineFollow.cs:70 | the band test: a force wins exactly when it is 3, 4 or 5, so a winning force is never one of the clamped extremes 0 and 10 (see also WinBandIsClosed) |
| SplineFollow.TargetPosition | Assets/SplineFollow.cs:88-97 | for a draw in 0.1..0.9, the target is the end of the path 1.0 exactly on a win and otherwise lies in 0.1..1.0 (see also TargetIsEndExactlyOnWin) |
| SplineFollow.ResultText | Assets/SplineFollow.cs:119 | the result reads "You win!" exactly on success and "You lost!" exactly otherwise |
| SplineFollow.AdsFor | Assets/SplineFollow.cs:134-137 | one ad is scheduled exactly after a loss, none after a win |
| SplineFollow.EndHint | Assets/SplineFollow.cs:122-132 | "Nice!" on success; on a loss with a force outside 3..5, "Too slow!" below 3 and "Too fast!" above 5; the old hint is kept only on a loss whose force is inside the band, which EndMessages shows never happens |
| SplineFollow.ForceText | Assets/SplineFollow.cs:68 | the label starts with "Swipe force: " and the rest reads back as the force (see also ForceTextInjective) |
| SplineFollow.Step | Assets/SplineFollow.cs:27-34 | an ended round is left unchanged; the round ends exactly when it already had or the frame scores; a frame that does not score keeps the force and the ride (see also EndedRoundIsFrozen, AtMostOneSwipePerRound) |
| SplineFollow.Detect | Assets/SplineFollow.cs:36-58 | no touch and the phases Moved, Stationary and Canceled change nothing; a press changes only the start point; a release records the end point and ends the round with both flags set (see also OtherFramesChangeAtMostStart) |
| SplineFollow.Score | Assets/SplineFollow.cs:60-86 | the round is ended with both flags set, the force is in 0..10 and its label shows it, the points are kept, and the started ride's outcome agrees with the force and, for in-range draws, its target and duration are valid (see also ReleaseEndsRound) |
| SplineFollow.StepPreservesInvariant | Assets/SplineFollow.cs:27-86 | one `Update` with in-range draws keeps the round invariant: force in 0..10, the two flags equal, the label showing the force of an ended round, and the ride agreeing with the force |
| SplineFollow.ReleaseEndsRound | Assets/SplineFollow.cs:45-48 | a release in an open round sets both flags, stores the clamped force and its label, records the end point, keeps the start point, and starts a ride that ends at 1.0 exactly on a win and at the drawn point otherwise |
| SplineFollow.OtherFramesChangeAtMostStart | Assets/SplineFollow.cs:29-54 | any other frame changes nothing, except a press in an open round, which changes only the start point |
| SplineFollow.EndedRoundIsFrozen | Assets/SplineFollow.cs:29 | once the round has ended, no sequence of later frames changes it or scores a swipe |
| SplineFollow.AtMostOneSwipePerRound | Assets/SplineFollow.cs:29-33 | over any sequence of frames at most one swipe is scored, and none if the round has already ended |
| SplineFollow.RunPreservesInvariant | Assets/SplineFollow.cs:27-86 | the round invariant holds after any sequence of frames with in-range draws |
| SplineFollow.SwipeFollow.constructor | Assets/SplineFollow.cs:16-25 | a new component has force 0, both flags false, no ride, and the labels and car as the scene places them |
| SplineFollow.SwipeFollow.Update | Assets/SplineFollow.cs:27-34 | the round fields change as `Step` says, the invariant is kept, and the labels written at the ride's end, the car and the ads do not change |
| SplineFollow.SwipeFollow.DetectSwipe | Assets/SplineFollow.cs:36-58 | a press records the start point, a release records the end point and scores, and every other phase or no touch changes nothing |
| SplineFollow.SwipeFollow.CalculateSwipeForce | Assets/SplineFollow.cs:60-73 | the force is the clamped rounded swipe, the label shows it, the round is ended, the ride is started and the swipe is marked taken |
| SplineFollow.SwipeFollow.EndGame | Assets/SplineFollow.cs:75-86 | the round is marked ended and a ride starts towards 1.0 on a win or towards the drawn point on a loss; nothing else changes |
| SplineFollow.SwipeFollow.MoveCarToEnd | Assets/SplineFollow.cs:88-91 | the ride starts towards path parameter 1.0 as a win |
| SplineFollow.SwipeFollow.MoveCarToRandomLocation | Assets/SplineFollow.cs:93-97 | the ride starts towards the drawn point as a loss |
| SplineFollow.SwipeFollow.MoveCarOnSpline | Assets/SplineFollow.cs:99-138 | while the ride is short of its duration, each frame adds its time and the car never moves back, and no message is written; the ride ends only at a resumption that is the first to find the duration reached, and then the car is exactly at the target, the result and the hint are written, and one ad is scheduled after a loss; with no frame times the car stays where it was; the round fields do not change |
| SplineFollow.SwipeFollow.RestartGame | Assets/SplineFollow.cs:145-152 | both flags are cleared and the result and force labels emptied; the force, the hint, the points, the car and the ride are left as they were |
| SplineFollow.PlayRound | Assets/SplineFollow.cs:27-138 | a press, a drag, a release, a second ignored release and enough frames end with "You win!", "Nice!" and no ad when the force is in 3..5; otherwise they end with "You lost!", the matching slow or fast hint and one ad |

## Left out

- Float arithmetic: the force, the interpolation and the elapsed time are on
  reals. `normalizedSwipe * 10` and `currentTime / duration` are not rounded to
  float, and `Math.Round`'s cast to a 32-bit `int` is not modelled. The final
  position is exact in float as well: `t >= 1` clamps to 1, and
  `Lerp(0, target, 1)` is `target`.
- `swipeDelta.magnitude / Screen.height` is supplied by the host as
  `Frame.normalizedSwipe`. The model records the start and end points but does
  not measure the distance between them.
- Random draws (`Random.Range`) and `Time.deltaTime` are caller-supplied values
  under range preconditions.
- Unity input polling (`Input.touchCount`, `Input.GetTouch(0)`) is a
  `Frame.touch` that is either `None` or the first touch. `TouchPhase` has
  exactly five values, so the `ArgumentOutOfRangeException` arm cannot be
  reached and is not modelled.
- The spline evaluation, the car's rotation and the text colours are not
  modelled. The car is the path parameter it was last placed at (`car`).
- The timing of the coroutine against `Update` is not modelled. Its
  resumptions are driven by `MoveCarOnSpline` calls. The first resumption,
  which Unity runs inside `StartCoroutine`, is the first frame time given.
  `Update` changes nothing once a round has ended, so the order of the two
  does not matter within a round.
- The model keeps one ride. A round started after `RestartGame` but before the
  scene reload would, in Unity, run a second coroutine beside the first. The
  model replaces the first one instead.
- `SceneManager.LoadScene` in `RestartGame` is not modelled. It replaces the
  whole object, so the model only clears the fields the method itself clears.
- `Invoke(nameof(ShowInterstitialAd), 1.0f)` is an `adsScheduled` counter. The
  one-second delay and `ShowInterstitialAd` itself, which calls the ad
  component, are not modelled.
- The unused fields `_swipeDetected` and `_maxSwipeForce` are not modelled.
