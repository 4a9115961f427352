/** One round of the swipe game: a touch swipe is turned into a force 0..10, the
    force decides win or lose, and a coroutine drives the car along the spline to
    the end of the path (win) or to a random point on it (lose), then shows the
    result. The engine's inputs (the first touch of a frame, the normalised swipe
    distance, the random draws and the frame time) reach the model as values. */
module SplineFollow {
  import Mathf
  import Decimal

  const WinThresholdMin: int := 3
  const WinThresholdMax: int := 5
  const MaxForce: int := 10

  /** Path parameter of the end of the spline. */
  const EndPosition: real := 1.0
  /** Bounds of `Random.Range(0.1f, 0.9f)`, the stopping point after a loss. */
  const LoseTargetMin: real := 0.1
  const LoseTargetMax: real := 0.9
  /** Bounds of `Random.Range(2f, 4f)`, the length of the car's ride. */
  const DurationMin: real := 2.0
  const DurationMax: real := 4.0

  datatype Option<T> = None | Some(value: T)

  /** A screen position. */
  datatype Point = Point(x: real, y: real)

  /** The five values of Unity's `TouchPhase`; no other value exists, so the
      `ArgumentOutOfRangeException` arm of `DetectSwipe` has nothing to match. */
  datatype TouchPhase = Began | Moved | Stationary | Ended | Canceled

  datatype Touch = Touch(phase: TouchPhase, position: Point)

  /** What the engine supplies while one frame's `Update` runs: the first touch,
      if any; the swipe length divided by the screen height, measured from the
      recorded start to this touch; and the two random draws that a round's end
      makes (the loss target and the ride's duration). */
  datatype Frame = Frame(touch: Option<Touch>, normalizedSwipe: real, loseTarget: real, duration: real)

  /** The random draws lie in the ranges `Random.Range` is asked for. */
  predicate DrawsInRange(f: Frame)
  {
    LoseTargetMin <= f.loseTarget <= LoseTargetMax && DurationMin <= f.duration <= DurationMax
  }

  // ---------------------------------------------------------------------------
  // Force, outcome and messages

  /** The stored force: ten times the normalised swipe, rounded half to even and
      clamped to 0..10. */
  function SwipeForce(normalizedSwipe: real): (force: int)
    ensures 0 <= force <= MaxForce
    ensures normalizedSwipe <= 0.0 ==> force == 0
    ensures normalizedSwipe >= 1.0 ==> force == MaxForce
    ensures 0.0 <= normalizedSwipe <= 1.0 ==> -0.5 <= force as real - 10.0 * normalizedSwipe <= 0.5
  {
    Mathf.Clamp(Mathf.RoundToInt(normalizedSwipe * 10.0), 0, MaxForce)
  }

  /** A longer swipe never gives a smaller force. */
  lemma SwipeForceMonotone(d1: real, d2: real)
    requires d1 <= d2
    ensures SwipeForce(d1) <= SwipeForce(d2)
  {
    Mathf.RoundToIntMonotone(d1 * 10.0, d2 * 10.0);
    Mathf.ClampMonotone(Mathf.RoundToInt(d1 * 10.0), Mathf.RoundToInt(d2 * 10.0), 0, MaxForce);
  }

  /** The round is won when the force lies in the closed band 3..5. */
  predicate IsWin(force: int)
    ensures IsWin(force) ==> 0 < force < MaxForce
    ensures IsWin(force) <==> force in {3, 4, 5}
  {
    WinThresholdMin <= force <= WinThresholdMax
  }

  lemma WinBandIsClosed()
    ensures IsWin(3) && IsWin(5) && !IsWin(2) && !IsWin(6)
    ensures forall force :: IsWin(force) <==> force in {3, 4, 5}
  {
  }

  /** A swipe of 0.35 screen heights gives 3.5, which rounds to the even 4 and
      wins; one of 0.61 gives 6 and loses as too fast. */
  lemma SwipeExamples()
    ensures SwipeForce(0.35) == 4 && IsWin(4)
    ensures SwipeForce(0.61) == 6 && !IsWin(6) && EndHint(false, 6, "") == "Too fast!"
  {
    assert (3.5).Floor == 3;
    assert (6.1).Floor == 6;
  }

  /** The path parameter the car is sent to. */
  function TargetPosition(success: bool, loseTarget: real): (target: real)
    ensures LoseTargetMin <= loseTarget <= LoseTargetMax ==>
      (target == EndPosition <==> success) && LoseTargetMin <= target <= EndPosition
  {
    if success then EndPosition else loseTarget
  }

  /** The car reaches the end of the path exactly on a win; after a loss it stops
      strictly inside the path, between the bounds of the random draw. */
  lemma TargetIsEndExactlyOnWin(success: bool, loseTarget: real)
    requires LoseTargetMin <= loseTarget <= LoseTargetMax
    ensures (TargetPosition(success, loseTarget) == EndPosition) == success
    ensures !success ==> LoseTargetMin <= TargetPosition(success, loseTarget) <= LoseTargetMax
  {
  }

  function ResultText(success: bool): (text: string)
    ensures (text == "You win!") == success
    ensures (text == "You lost!") == !success
  {
    assert "You win!"[4] != "You lost!"[4];
    if success then "You win!" else "You lost!"
  }

  /** Ads scheduled by the end of a ride: one `Invoke` of the ad after a loss. */
  function AdsFor(success: bool): (ads: nat)
    ensures (ads > 0) == !success
    ensures ads <= 1
  {
    if success then 0 else 1
  }

  /** The end hint after a ride; `current` is the hint's text before, which the
      fallback arm of the `switch` keeps. */
  function EndHint(success: bool, force: int, current: string): (hint: string)
    ensures success ==> hint == "Nice!"
    ensures !success && !IsWin(force) ==>
      hint == (if force < WinThresholdMin then "Too slow!" else "Too fast!")
    ensures !success && IsWin(force) ==> hint == current
  {
    if success then "Nice!"
    else if force < WinThresholdMin then "Too slow!"
    else if force > WinThresholdMax then "Too fast!"
    else current
  }

  /** The messages at the end of a ride whose outcome agrees with the force: the
      result says win exactly on success, an ad follows exactly a loss, and the
      hint names the cause of a loss, so the fallback arm never keeps the old
      hint. */
  lemma EndMessages(force: int, current: string)
    ensures (ResultText(IsWin(force)) == "You win!") == IsWin(force)
    ensures (ResultText(IsWin(force)) == "You lost!") == !IsWin(force)
    ensures (AdsFor(IsWin(force)) > 0) == !IsWin(force)
    ensures EndHint(IsWin(force), force, current) ==
              if IsWin(force) then "Nice!"
              else if force < WinThresholdMin then "Too slow!"
              else "Too fast!"
  {
    assert "You win!"[4] != "You lost!"[4];
  }

  const ForcePrefix: string := "Swipe force: "

  /** The text written to the force label: the prefix, then digits that read
      back as the force. */
  function ForceText(force: nat): (text: string)
    ensures |text| > |ForcePrefix| && text[..|ForcePrefix|] == ForcePrefix
    ensures Decimal.Value(text[|ForcePrefix|..]) == force
  {
    Decimal.ValueOfShow(force);
    var text := ForcePrefix + Decimal.Show(force);
    assert text[|ForcePrefix|..] == Decimal.Show(force);
    text
  }

  /** The label shows the force it was written from: two different forces never
      produce the same text. */
  lemma ForceTextInjective(a: nat, b: nat)
    ensures ForceText(a) == ForceText(b) ==> a == b
  {
    if ForceText(a) == ForceText(b) {
      var n := |ForcePrefix|;
      assert ForceText(a)[n..] == Decimal.Show(a);
      assert ForceText(b)[n..] == Decimal.Show(b);
      Decimal.ShowInjective(a, b);
    }
  }

  // ---------------------------------------------------------------------------
  // The car's ride

  /** A started `MoveCarOnSpline` coroutine: where it takes the car, whether the
      round was won, how long the ride lasts, the time accumulated so far
      (`currentTime`) and how many loop iterations have run. */
  datatype Animation = Animation(target: real, success: bool, duration: real, elapsed: real, frames: nat)

  function StartAnimation(target: real, success: bool, duration: real): Animation
  {
    Animation(target, success, duration, 0.0, 0)
  }

  predicate AnimationInv(a: Animation)
  {
    && (a.success ==> a.target == EndPosition)
    && (!a.success ==> LoseTargetMin <= a.target <= LoseTargetMax)
    && DurationMin <= a.duration <= DurationMax
    && 0.0 <= a.elapsed
    && (a.frames == 0 ==> a.elapsed == 0.0)
  }

  /** The path parameter the car is placed at after the latest iteration. */
  function PathParameter(a: Animation): (p: real)
    requires AnimationInv(a)
    ensures 0.0 <= p <= a.target
    ensures a.elapsed >= a.duration ==> p == a.target
  {
    Mathf.Lerp(0.0, a.target, a.elapsed / a.duration)
  }

  /** More elapsed time never puts the car further back. */
  lemma PathParameterMonotone(a: Animation, b: Animation)
    requires AnimationInv(a) && AnimationInv(b)
    requires a.target == b.target && a.duration == b.duration && a.elapsed <= b.elapsed
    ensures PathParameter(a) <= PathParameter(b)
  {
    var d := a.duration;
    assert a.elapsed / d <= b.elapsed / d by {
      assert b.elapsed / d - a.elapsed / d == (b.elapsed - a.elapsed) / d;
    }
    Mathf.LerpMonotone(0.0, a.target, a.elapsed / d, b.elapsed / d);
  }

  /** The sum of the frame times in `s`. */
  function Sum(s: seq<real>): real
  {
    if s == [] then 0.0 else Sum(s[..|s| - 1]) + s[|s| - 1]
  }

  /** Every one of the first `n` resumptions finds the ride, started at
      `elapsed0`, still short of `duration`. */
  predicate ShortBefore(elapsed0: real, duration: real, deltas: seq<real>, n: nat)
    requires n <= |deltas|
  {
    forall k :: 0 <= k < n ==> elapsed0 + Sum(deltas[..k]) < duration
  }

  /** Resumption `k` is the first to find the ride complete. */
  predicate CompletesAt(elapsed0: real, duration: real, deltas: seq<real>, k: int)
  {
    && 0 <= k < |deltas|
    && elapsed0 + Sum(deltas[..k]) >= duration
    && ShortBefore(elapsed0, duration, deltas, k)
  }

  // ---------------------------------------------------------------------------
  // The round as a value

  /** The fields `Update` reads and writes. */
  datatype Round = Round(
    swipeForce: int,
    swiped: bool,
    gameEnded: bool,
    swipeStart: Point,
    swipeEnd: Point,
    swipeForceText: string,
    animation: Option<Animation>)

  /** What every reachable round satisfies: the force is in range, a round is
      over exactly when its swipe was taken, the label shows the force of an
      ended round, and a started ride agrees with the force. */
  predicate RoundInv(r: Round)
  {
    && 0 <= r.swipeForce <= MaxForce
    && r.swiped == r.gameEnded
    && (r.gameEnded ==> r.swipeForceText == ForceText(r.swipeForce))
    && (r.animation.Some? ==>
          AnimationInv(r.animation.value) && r.animation.value.success == IsWin(r.swipeForce))
  }

  /** One call of `Update`. */
  function Step(r: Round, f: Frame): (r': Round)
    ensures r.gameEnded ==> r' == r
    ensures r'.gameEnded == (r.gameEnded || Scores(r, f))
    ensures !Scores(r, f) ==> r'.swipeForce == r.swipeForce && r'.animation == r.animation
  {
    if r.gameEnded then r
    else if !r.swiped then Detect(r, f)
    else r
  }

  /** One call of `DetectSwipe`. */
  function Detect(r: Round, f: Frame): (r': Round)
    ensures f.touch.None? ==> r' == r
    ensures f.touch.Some? && f.touch.value.phase in {Moved, Stationary, Canceled} ==> r' == r
    ensures f.touch.Some? && f.touch.value.phase == Began ==>
      r' == r.(swipeStart := f.touch.value.position)
    ensures f.touch.Some? && f.touch.value.phase == Ended ==>
      r'.gameEnded && r'.swiped && r'.swipeStart == r.swipeStart && r'.swipeEnd == f.touch.value.position
  {
    match f.touch
    case None => r
    case Some(t) =>
      match t.phase
      case Began => r.(swipeStart := t.position)
      case Ended => Score(r.(swipeEnd := t.position), f)
      case Moved => r
      case Stationary => r
      case Canceled => r
  }

  /** `CalculateSwipeForce`, with `EndGame` and the start of the ride. */
  function Score(r: Round, f: Frame): (r': Round)
    ensures r'.gameEnded && r'.swiped
    ensures 0 <= r'.swipeForce <= MaxForce && r'.swipeForceText == ForceText(r'.swipeForce)
    ensures r'.swipeStart == r.swipeStart && r'.swipeEnd == r.swipeEnd
    ensures r'.animation.Some? && r'.animation.value.success == IsWin(r'.swipeForce)
    ensures DrawsInRange(f) ==> AnimationInv(r'.animation.value)
  {
    var force := SwipeForce(f.normalizedSwipe);
    var success := IsWin(force);
    r.(swipeForce := force,
       swipeForceText := ForceText(force),
       gameEnded := true,
       animation := Some(StartAnimation(TargetPosition(success, f.loseTarget), success, f.duration)),
       swiped := true)
  }

  /** The frame calls `CalculateSwipeForce`. */
  predicate Scores(r: Round, f: Frame)
  {
    !r.gameEnded && !r.swiped && f.touch.Some? && f.touch.value.phase == Ended
  }

  lemma StepPreservesInvariant(r: Round, f: Frame)
    requires RoundInv(r) && DrawsInRange(f)
    ensures RoundInv(Step(r, f))
  {
  }

  /** The release of a touch ends an open round: the force is the clamped swipe,
      the label shows it, both flags are set, and the car is sent to the end of
      the path exactly on a win, otherwise to the drawn point; the start point is
      kept. */
  lemma ReleaseEndsRound(r: Round, f: Frame)
    requires RoundInv(r) && DrawsInRange(f) && Scores(r, f)
    ensures var r' := Step(r, f);
      && r'.gameEnded && r'.swiped
      && r'.swipeForce == SwipeForce(f.normalizedSwipe)
      && r'.swipeForceText == ForceText(r'.swipeForce)
      && r'.swipeStart == r.swipeStart
      && r'.swipeEnd == f.touch.value.position
      && r'.animation.Some?
      && r'.animation.value.elapsed == 0.0
      && r'.animation.value.duration == f.duration
      && (r'.animation.value.target == EndPosition <==> IsWin(r'.swipeForce))
      && (!IsWin(r'.swipeForce) ==> r'.animation.value.target == f.loseTarget)
  {
  }

  /** Every frame that does not release a touch in an open round changes at most
      the start point, and only a press does that. */
  lemma OtherFramesChangeAtMostStart(r: Round, f: Frame)
    requires !Scores(r, f)
    ensures var r' := Step(r, f);
      if !r.gameEnded && !r.swiped && f.touch.Some? && f.touch.value.phase == Began
      then r' == r.(swipeStart := f.touch.value.position)
      else r' == r
  {
  }

  /** The round after a sequence of frames. */
  function Run(r: Round, frames: seq<Frame>): Round
    decreases |frames|
  {
    if frames == [] then r else Run(Step(r, frames[0]), frames[1..])
  }

  /** How many of the frames call `CalculateSwipeForce`. */
  function ScoredFrames(r: Round, frames: seq<Frame>): nat
    decreases |frames|
  {
    if frames == [] then 0
    else (if Scores(r, frames[0]) then 1 else 0) + ScoredFrames(Step(r, frames[0]), frames[1..])
  }

  /** Once a round has ended, no later frame changes it or scores again. */
  lemma {:induction false} EndedRoundIsFrozen(r: Round, frames: seq<Frame>)
    requires r.gameEnded
    ensures Run(r, frames) == r
    ensures ScoredFrames(r, frames) == 0
    decreases |frames|
  {
    if frames != [] {
      EndedRoundIsFrozen(r, frames[1..]);
    }
  }

  /** At most one swipe is scored per round, and none once it has ended. */
  lemma {:induction false} AtMostOneSwipePerRound(r: Round, frames: seq<Frame>)
    ensures ScoredFrames(r, frames) <= (if r.gameEnded then 0 else 1)
    decreases |frames|
  {
    if frames != [] {
      var r' := Step(r, frames[0]);
      if Scores(r, frames[0]) {
        EndedRoundIsFrozen(r', frames[1..]);
      } else {
        AtMostOneSwipePerRound(r', frames[1..]);
      }
    }
  }

  /** Any run of frames with in-range draws keeps the round invariant. */
  lemma {:induction false} RunPreservesInvariant(r: Round, frames: seq<Frame>)
    requires RoundInv(r)
    requires forall i :: 0 <= i < |frames| ==> DrawsInRange(frames[i])
    ensures RoundInv(Run(r, frames))
    decreases |frames|
  {
    if frames != [] {
      StepPreservesInvariant(r, frames[0]);
      RunPreservesInvariant(Step(r, frames[0]), frames[1..]);
    }
  }

  // ---------------------------------------------------------------------------
  // The component

  class SwipeFollow {
    var swipeForce: int
    var swiped: bool
    var swipeStart: Point
    var swipeEnd: Point
    var gameEnded: bool
    /** The `text` of the three labels. */
    var resultText: string
    var swipeForceText: string
    var endTextHint: string
    /** The path parameter last applied to the car's transform. */
    var car: real
    /** The ride coroutine, while it runs. */
    var animation: Option<Animation>
    /** How many `ShowInterstitialAd` calls have been scheduled. */
    var adsScheduled: nat

    function State(): Round
      reads this
    {
      Round(swipeForce, swiped, gameEnded, swipeStart, swipeEnd, swipeForceText, animation)
    }

    ghost predicate Valid()
      reads this
    {
      && RoundInv(State())
      && (animation.Some? && animation.value.frames > 0 ==> car == PathParameter(animation.value))
    }

    /** The component as the scene creates it: fields at their defaults, labels
        and car as placed in the scene. */
    constructor (result0: string, swipeForceText0: string, endTextHint0: string, car0: real)
      ensures Valid()
      ensures State() == Round(0, false, false, Point(0.0, 0.0), Point(0.0, 0.0), swipeForceText0, None)
      ensures resultText == result0 && endTextHint == endTextHint0 && car == car0 && adsScheduled == 0
    {
      swipeForce, swiped, gameEnded := 0, false, false;
      swipeStart, swipeEnd := Point(0.0, 0.0), Point(0.0, 0.0);
      resultText, swipeForceText, endTextHint := result0, swipeForceText0, endTextHint0;
      car, animation, adsScheduled := car0, None, 0;
    }

    method Update(f: Frame)
      requires Valid() && DrawsInRange(f)
      modifies this
      ensures Valid()
      ensures State() == Step(old(State()), f)
      ensures resultText == old(resultText) && endTextHint == old(endTextHint)
      ensures car == old(car) && adsScheduled == old(adsScheduled)
    {
      if gameEnded {
        return;
      }
      if !swiped {
        DetectSwipe(f);
      }
    }

    method DetectSwipe(f: Frame)
      requires Valid() && DrawsInRange(f)
      modifies this
      ensures Valid()
      ensures State() == Detect(old(State()), f)
      ensures resultText == old(resultText) && endTextHint == old(endTextHint)
      ensures car == old(car) && adsScheduled == old(adsScheduled)
    {
      if f.touch.None? {
        return;
      }
      var touch := f.touch.value;
      match touch.phase {
        case Began =>
          swipeStart := touch.position;
        case Ended =>
          swipeEnd := touch.position;
          CalculateSwipeForce(f.normalizedSwipe, f.loseTarget, f.duration);
        case Moved =>
        case Stationary =>
        case Canceled =>
      }
    }

    method CalculateSwipeForce(normalizedSwipe: real, loseTarget: real, duration: real)
      requires Valid()
      requires LoseTargetMin <= loseTarget <= LoseTargetMax && DurationMin <= duration <= DurationMax
      modifies this
      ensures Valid()
      ensures State() == Score(old(State()), Frame(None, normalizedSwipe, loseTarget, duration))
      ensures resultText == old(resultText) && endTextHint == old(endTextHint)
      ensures car == old(car) && adsScheduled == old(adsScheduled)
    {
      swipeForce := SwipeForce(normalizedSwipe);
      swipeForceText := ForceText(swipeForce);
      EndGame(IsWin(swipeForce), loseTarget, duration);
      swiped := true;
    }

    method EndGame(success: bool, loseTarget: real, duration: real)
      modifies this
      ensures gameEnded
      ensures animation == Some(StartAnimation(TargetPosition(success, loseTarget), success, duration))
      ensures swipeForce == old(swipeForce) && swiped == old(swiped)
      ensures swipeStart == old(swipeStart) && swipeEnd == old(swipeEnd)
      ensures swipeForceText == old(swipeForceText)
      ensures resultText == old(resultText) && endTextHint == old(endTextHint)
      ensures car == old(car) && adsScheduled == old(adsScheduled)
    {
      gameEnded := true;
      if success {
        MoveCarToEnd(duration);
      } else {
        MoveCarToRandomLocation(loseTarget, duration);
      }
    }

    method MoveCarToEnd(duration: real)
      modifies this`animation
      ensures animation == Some(StartAnimation(EndPosition, true, duration))
    {
      animation := Some(StartAnimation(EndPosition, true, duration));
    }

    method MoveCarToRandomLocation(randomPosition: real, duration: real)
      modifies this`animation
      ensures animation == Some(StartAnimation(randomPosition, false, duration))
    {
      animation := Some(StartAnimation(randomPosition, false, duration));
    }

    /** Resumes the ride coroutine once per frame time in `deltas`. A resumption
        that finds the ride short of its duration adds the frame time and places
        the car; the first one that finds it complete writes the result and the
        hint, schedules the ad after a loss, and ends the coroutine (the frame
        times after it are not used). */
    method MoveCarOnSpline(deltas: seq<real>)
      requires Valid() && animation.Some?
      requires forall i :: 0 <= i < |deltas| ==> deltas[i] >= 0.0
      modifies this
      ensures Valid()
      ensures State().(animation := None) == old(State()).(animation := None)
      ensures old(animation.value.frames) > 0 ==> old(car) <= car
      ensures deltas == [] ==> car == old(car)
      ensures animation.Some? ==>
        && animation.value == old(animation.value).(
             elapsed := old(animation.value.elapsed) + Sum(deltas),
             frames := old(animation.value.frames) + |deltas|)
        && ShortBefore(old(animation.value.elapsed), old(animation.value.duration), deltas, |deltas|)
        && resultText == old(resultText) && endTextHint == old(endTextHint)
        && adsScheduled == old(adsScheduled)
      ensures animation.None? ==>
        && (exists k :: CompletesAt(old(animation.value.elapsed), old(animation.value.duration), deltas, k))
        && car == old(animation.value.target)
        && resultText == ResultText(old(animation.value.success))
        && endTextHint == EndHint(old(animation.value.success), swipeForce, old(endTextHint))
        && adsScheduled == old(adsScheduled) + AdsFor(old(animation.value.success))
    {
      var a := animation.value;
      ghost var a0 := a;
      var position := car;
      var i := 0;
      while i < |deltas| && a.elapsed < a.duration
        invariant 0 <= i <= |deltas|
        invariant unchanged(this)
        invariant AnimationInv(a)
        invariant a.target == a0.target && a.success == a0.success && a.duration == a0.duration
        invariant a.elapsed == a0.elapsed + Sum(deltas[..i]) && a.frames == a0.frames + i
        invariant ShortBefore(a0.elapsed, a0.duration, deltas, i)
        invariant a.frames > 0 ==> position == PathParameter(a)
        invariant a0.frames > 0 ==> car <= position
        invariant i == 0 ==> position == car
      {
        ghost var before := a;
        assert deltas[..i + 1][..i] == deltas[..i];
        a := a.(elapsed := a.elapsed + deltas[i], frames := a.frames + 1);
        if before.frames > 0 {
          PathParameterMonotone(before, a);
        }
        position := PathParameter(a);
        i := i + 1;
      }
      car := position;
      if i < |deltas| {
        // Resumption i finds the loop condition false: the ride is over.
        assert CompletesAt(a0.elapsed, a0.duration, deltas, i);
        resultText := ResultText(a.success);
        endTextHint := EndHint(a.success, swipeForce, endTextHint);
        adsScheduled := adsScheduled + AdsFor(a.success);
        animation := None;
      } else {
        assert deltas[..|deltas|] == deltas;
        animation := Some(a);
      }
    }

    /** Starts a new round: both flags and the result and force labels are
        cleared; the stored force, the hint and the ride are left as they are. */
    method RestartGame()
      requires Valid()
      modifies this
      ensures Valid()
      ensures !gameEnded && !swiped
      ensures resultText == "" && swipeForceText == ""
      ensures swipeForce == old(swipeForce) && endTextHint == old(endTextHint)
      ensures swipeStart == old(swipeStart) && swipeEnd == old(swipeEnd)
      ensures car == old(car) && animation == old(animation) && adsScheduled == old(adsScheduled)
    {
      gameEnded := false;
      swiped := false;
      resultText := "";
      swipeForceText := "";
    }
  }

  /** A whole round as a player meets it: a press, a drag, a release, a second
      release that is ignored, and frames until the ride is over. The outcome
      depends only on the force of the first release. */
  method PlayRound(start: Point, end: Point, normalizedSwipe: real, loseTarget: real, duration: real)
    returns (result: string, hint: string, force: int, ads: nat)
    requires LoseTargetMin <= loseTarget <= LoseTargetMax && DurationMin <= duration <= DurationMax
    ensures force == SwipeForce(normalizedSwipe)
    ensures result == (if WinThresholdMin <= force <= WinThresholdMax then "You win!" else "You lost!")
    ensures hint ==
      if WinThresholdMin <= force <= WinThresholdMax then "Nice!"
      else if force < WinThresholdMin then "Too slow!"
      else "Too fast!"
    ensures ads == (if WinThresholdMin <= force <= WinThresholdMax then 0 else 1)
  {
    var game := new SwipeFollow("", "", "", 0.0);
    game.Update(Frame(None, normalizedSwipe, loseTarget, duration));
    game.Update(Frame(Some(Touch(Began, start)), normalizedSwipe, loseTarget, duration));
    game.Update(Frame(Some(Touch(Moved, end)), normalizedSwipe, loseTarget, duration));
    game.Update(Frame(Some(Touch(Ended, end)), normalizedSwipe, loseTarget, duration));
    game.Update(Frame(Some(Touch(Ended, start)), 0.0, loseTarget, duration));
    var deltas := [2.0, 2.0, 0.0];
    assert Sum(deltas[..2]) == 4.0 by {
      assert deltas[..2] == [2.0, 2.0] && [2.0, 2.0][..1] == [2.0] && [2.0][..0] == [];
    }
    game.MoveCarOnSpline(deltas);
    result, hint, force, ads := game.resultText, game.endTextHint, game.swipeForce, game.adsScheduled;
  }
}
