/**
  The registration logic object: the transform matrix it moves, the state of
  the two polling optimizers and the state of the interactive key/pointer
  gestures. Every method is proved against the pure specifications of the
  AxisSearch and Optimizer modules.
 */
module Regmatic {
  import opened Geometry
  import opened Objective
  import opened AxisSearch
  import opened Optimizer

  /** The interactive mode toggled by the 'a' and 's' keys. */
  datatype ActionState = IdleMode | TranslationMode | RotationMode

  /** Which optimizer a polling timer drives. */
  datatype Session = TranslationSession | RotationSession

  /** The polling timer: absent, or present and driving one optimizer. */
  datatype Timer = NoTimer | Polling(session: Session)

  /** The events a slice view forwards; a pointer move carries its world (RAS) position. */
  datatype Event =
    | LeftButtonPress
    | LeftButtonRelease
    | MouseMove(ras: Vec3)
    | KeyPress(key: string)
    | KeyRelease
    | Enter
    | Leave

  /** One more step of a sweep extends the net rotation by one step. */
  lemma OneMoreStep(p: Pose, a: Axis, step: real, k: int)
    requires Normal(p.turns)
    ensures Turn(SweepPose(p, a, step, k - 1).turns, a, step) == SweepPose(p, a, step, k).turns
  {
    StepsAdd(k - 1, 1, step);
    TurnAdditive(p.turns, a, Steps(k - 1, step), step);
  }

  /** The closing rotation of a sweep of `n` steps leaves a net rotation of `k` steps. */
  lemma StepsBack(p: Pose, a: Axis, step: real, n: nat, k: int)
    requires Normal(p.turns)
    ensures Turn(SweepPose(p, a, step, n).turns, a, Steps(k - n, step)) == SweepPose(p, a, step, k).turns
  {
    StepsAdd(n, k - n, step);
    assert n + (k - n) == k;
    TurnAdditive(p.turns, a, Steps(n, step), Steps(k - n, step));
  }

  /** A sweep that has kept the first minimum of all its scores ends where `RotationSweep` says. */
  lemma SweepEndsAtFirstMin(img: Images, p: Pose, a: Axis, step: real, n: nat, best: nat)
    requires Normal(p.turns)
    requires best == FirstMinIn(SweepScores(img, p, a, step, n), n + 1)
    ensures best == FirstMinIndex(SweepScores(img, p, a, step, n))
    ensures RotationSweep(img, p, a, step, n) == SweepPose(p, a, step, best)
    ensures SweepScores(img, p, a, step, n)[best] == Tick(img, SweepPose(p, a, step, best))
  {
    SweepScoreAt(img, p, a, step, n, best);
  }

  class RegmaticLogic {
    /** The fixed and moving volumes, resampled on the fixed volume's grid. */
    const images: Images
    /** The moving-to-fixed transform; only its translation column is handled numerically. */
    const m: array2<real>
    /** The rotational part of the transform (the 3x3 block of `m` is not computed). */
    var orientation: Word

    var timer: Timer
    /** History of objective scores, one per translation tick. */
    var L: seq<int>
    /** Stagnation divider of the translation step. */
    var divider: real
    /** Current rotation step of the rotation optimizer. */
    var step: real
    /** Last computed normalising weight. */
    var WMAX: int

    var actionState: ActionState
    /** Number of pointer moves handled in the current gesture; 0 means none yet. */
    var before: nat
    /** Pointer reference position (x0, y0, z0). */
    var p0: Vec3
    /** Latched translation (tx0, ty0, tz0). */
    var t0: Vec3

    /** `m` is a 4x4 matrix (its dimensions never change). */
    predicate Shaped() {
      m.Length0 == 4 && m.Length1 == 4
    }

    ghost predicate Valid()
      reads this
    {
      && Shaped()
      && divider >= 1.0
      && Normal(orientation)
    }

    function Translation(): Vec3
      reads m
      requires Shaped()
    {
      Vec3(m[0, 3], m[1, 3], m[2, 3])
    }

    function CurrentPose(): Pose
      reads this, m
      requires Shaped()
    {
      Pose(Translation(), orientation)
    }

    /** The entries of `m` outside the translation column, row by row. */
    function LinearPart(): seq<real>
      reads m
      requires Shaped()
    {
      [m[0, 0], m[0, 1], m[0, 2], m[1, 0], m[1, 1], m[1, 2], m[2, 0], m[2, 1], m[2, 2],
       m[3, 0], m[3, 1], m[3, 2], m[3, 3]]
    }

    constructor (images: Images)
      ensures Valid() && fresh(m) && this.images == images
      ensures forall i, j :: 0 <= i < 4 && 0 <= j < 4 ==> m[i, j] == if i == j then 1.0 else 0.0
      ensures orientation == Id
      ensures timer == NoTimer && L == [] && divider == 1.0 && step == 1.0 && WMAX == 0
      ensures actionState == IdleMode && before == 0
      ensures p0 == Vec3(0.0, 0.0, 0.0) && t0 == Vec3(0.0, 0.0, 0.0)
    {
      this.images := images;
      m := new real[4, 4]((i, j) => if i == j then 1.0 else 0.0);
      orientation := Id;
      timer := NoTimer;
      L := [];
      divider := 1.0;
      step := 1.0;
      WMAX := 0;
      actionState := IdleMode;
      before := 0;
      p0 := Vec3(0.0, 0.0, 0.0);
      t0 := Vec3(0.0, 0.0, 0.0);
    }

    // ------------------------------------------------------ transform primitives

    /** Sets the translation column, and only it. */
    method Translate(x: real, y: real, z: real)
      requires Valid()
      modifies m
      ensures Valid()
      ensures Translation() == Vec3(x, y, z)
      ensures LinearPart() == old(LinearPart())
    {
      m[0, 3] := x;
      m[1, 3] := y;
      m[2, 3] := z;
    }

    /**
      Rotates about the transform's own translation (which therefore stays put)
      by `fi` about X, then `psi` about Z, then `theta` about Y, and latches
      the translation into `t0`.
     */
    method Rotate(fi: real, theta: real, psi: real)
      requires Valid()
      modifies this`orientation, this`t0
      ensures Valid()
      ensures orientation == Turn(Turn(Turn(old(orientation), X, fi), Z, psi), Y, theta)
      ensures t0 == Translation()
    {
      t0 := Translation();
      TurnNormal(orientation, X, fi);
      TurnNormal(Turn(orientation, X, fi), Z, psi);
      TurnNormal(Turn(Turn(orientation, X, fi), Z, psi), Y, theta);
      orientation := Turn(Turn(Turn(orientation, X, fi), Z, psi), Y, theta);
    }

    /** `rotate` with the angle `d` in the slot of axis `a` and zero in the others. */
    method RotateAbout(a: Axis, d: real)
      requires Valid()
      modifies this`orientation, this`t0
      ensures Valid()
      ensures orientation == Turn(old(orientation), a, d)
      ensures t0 == Translation()
    {
      ghost var o := orientation;
      match a
      case X =>
        Rotate(d, 0.0, 0.0);
        TurnZero(Turn(o, X, d), Z);
        TurnZero(Turn(o, X, d), Y);
      case Y =>
        Rotate(0.0, d, 0.0);
        TurnZero(o, X);
        TurnZero(o, Z);
      case Z =>
        Rotate(0.0, 0.0, d);
        TurnZero(o, X);
        TurnZero(Turn(o, Z, d), Y);
    }

    // ---------------------------------------------------------- axis searches

    /**
      `rotateRegistrationX/Y/Z`: `nbIteration` steps of `stepSize` about `a`,
      keeping the first strictly best step count, then rotating back so that
      the net rotation is exactly `bestMove * stepSize`.
     */
    method RotateRegistration(a: Axis, stepSize: real, nbIteration: nat)
      returns (bestMove: nat, bestValue: int)
      requires Valid()
      modifies this`orientation, this`t0
      ensures Valid()
      ensures bestMove == FirstMinIndex(SweepScores(images, old(CurrentPose()), a, stepSize, nbIteration))
      ensures CurrentPose() == RotationSweep(images, old(CurrentPose()), a, stepSize, nbIteration)
      ensures bestValue == Tick(images, CurrentPose())
      ensures t0 == Translation()
    {
      ghost var p := CurrentPose();
      bestMove, bestValue := SweepForward(p, a, stepSize, nbIteration);
      SweepBack(p, a, stepSize, nbIteration, bestMove);
      SweepEndsAtFirstMin(images, p, a, stepSize, nbIteration, bestMove);
    }

    /**
      The forward part of a sweep: `n` steps of `stepSize` about `a`, scoring
      each pose and keeping the first strictly best step count and its score.
     */
    method SweepForward(ghost p: Pose, a: Axis, stepSize: real, n: nat) returns (bestMove: nat, bestValue: int)
      requires Valid() && CurrentPose() == p
      modifies this`orientation, this`t0
      ensures Valid() && Translation() == p.t
      ensures orientation == SweepPose(p, a, stepSize, n).turns
      ensures bestMove == FirstMinIn(SweepScores(images, p, a, stepSize, n), n + 1)
      ensures bestValue == SweepScores(images, p, a, stepSize, n)[bestMove]
      ensures t0 == if n > 0 then Translation() else old(t0)
    {
      ghost var s := SweepScores(images, p, a, stepSize, n);
      SweepPoseZero(p, a, stepSize);
      SweepScoreAt(images, p, a, stepSize, n, 0);
      bestValue, bestMove := Tick(images, CurrentPose()), 0;
      var fi := 1;
      while fi <= n
        invariant 1 <= fi <= n + 1
        invariant Valid() && Translation() == p.t
        invariant t0 == if fi > 1 then Translation() else old(t0)
        invariant orientation == SweepPose(p, a, stepSize, fi - 1).turns
        invariant bestMove == FirstMinIn(s, fi) && bestValue == s[bestMove]
      {
        var value := SweepStep(p, a, stepSize, fi);
        SweepScoreAt(images, p, a, stepSize, n, fi);
        if value < bestValue {
          bestValue := value;
          bestMove := fi;
        }
        fi := fi + 1;
      }
      assert fi - 1 == n;
    }

    /** One step of a sweep: rotates by one more `stepSize` about `a` and scores the new pose. */
    method SweepStep(ghost p: Pose, a: Axis, stepSize: real, ghost k: int) returns (value: int)
      requires Valid() && Normal(p.turns) && Translation() == p.t
      requires orientation == SweepPose(p, a, stepSize, k - 1).turns
      modifies this`orientation, this`t0
      ensures Valid() && Translation() == p.t
      ensures orientation == SweepPose(p, a, stepSize, k).turns
      ensures value == Tick(images, SweepPose(p, a, stepSize, k))
      ensures t0 == Translation()
    {
      RotateAbout(a, stepSize);
      OneMoreStep(p, a, stepSize, k);
      value := Tick(images, CurrentPose());
    }

    /** The closing rotation of a sweep of `n` steps, back to a net rotation of `best` steps. */
    method SweepBack(ghost p: Pose, a: Axis, stepSize: real, n: nat, best: nat)
      requires Valid() && Normal(p.turns) && Translation() == p.t
      requires orientation == SweepPose(p, a, stepSize, n).turns
      modifies this`orientation, this`t0
      ensures Valid() && Translation() == p.t
      ensures orientation == SweepPose(p, a, stepSize, best).turns
      ensures t0 == Translation()
    {
      if best == 0 {
        RotateAbout(a, Steps(-(n as int), stepSize));
      } else {
        RotateAbout(a, Steps(best - n, stepSize));
      }
      StepsBack(p, a, stepSize, n, best);
    }

    /** One scanned position: moves to `base` shifted by `offset` along `a` and scores it. */
    method ScoreShifted(a: Axis, base: Vec3, offset: real) returns (value: int)
      requires Valid()
      modifies m
      ensures Valid() && LinearPart() == old(LinearPart())
      ensures Translation() == base.With(a, base.Get(a) + offset)
      ensures value == Tick(images, Pose(base, orientation).Shifted(a, offset))
    {
      var v := base.With(a, base.Get(a) + offset);
      Translate(v.x, v.y, v.z);
      Pose(base, orientation).ShiftedTranslation(a, offset);
      value := Tick(images, CurrentPose());
    }

    /**
      One position of a scan: moves to offset `i` steps along `a` from `base`,
      scores it, and accepts it when the score is `<=` the best so far.
     */
    method ScanStep(ghost bp: Pose, a: Axis, base: Vec3, n: int, stepSize: real, sentinel: int,
                    i: int, bestValue: int, bestMove: real)
      returns (newValue: int, newMove: real)
      requires Valid() && bp == Pose(base, orientation) && -n <= i < n
      requires bestValue == ScanUpTo(images, bp, a, n, stepSize, sentinel, i + n).best
      requires bestMove == OffsetOf(ScanUpTo(images, bp, a, n, stepSize, sentinel, i + n).at, n, stepSize)
      modifies m
      ensures Valid() && LinearPart() == old(LinearPart())
      ensures Translation() == base.With(a, base.Get(a) + Steps(i, stepSize))
      ensures newValue == ScanUpTo(images, bp, a, n, stepSize, sentinel, i + n + 1).best
      ensures newMove == OffsetOf(ScanUpTo(images, bp, a, n, stepSize, sentinel, i + n + 1).at, n, stepSize)
    {
      var value := ScoreShifted(a, base, Steps(i, stepSize));
      assert i + n + 1 - 1 - n == i;
      if value <= bestValue {
        newValue, newMove := value, Steps(i, stepSize);
      } else {
        newValue, newMove := bestValue, bestMove;
      }
    }

    /**
      One loop of `translateRegistration`: absolute offsets `i * stepSize`,
      `i` in `-n .. n-1`, along `a` from `base`, accepting a score `<=` the
      best so far, which starts at `sentinel`. Returns the retained offset.
     */
    method ScanAxis(a: Axis, base: Vec3, n: int, stepSize: real, sentinel: int)
      returns (bestMove: real)
      requires Valid()
      modifies m
      ensures Valid()
      ensures bestMove == BestOffset(images, Pose(base, orientation), a, n, stepSize, sentinel)
      ensures n > 0 ==> Translation() == base.With(a, base.Get(a) + Steps(n - 1, stepSize))
      ensures n <= 0 ==> Translation() == old(Translation())
      ensures LinearPart() == old(LinearPart())
    {
      ghost var bp := Pose(base, orientation);
      var bestValue := sentinel;
      bestMove := 0.0;
      var i := -n;
      while i < n
        invariant n > 0 ==> -n <= i <= n
        invariant n <= 0 ==> i == -n
        invariant 0 <= i + n <= ScanLength(n)
        invariant Valid() && LinearPart() == old(LinearPart())
        invariant i == -n ==> Translation() == old(Translation())
        invariant i > -n ==> Translation() == base.With(a, base.Get(a) + Steps(i - 1, stepSize))
        invariant bestValue == ScanUpTo(images, bp, a, n, stepSize, sentinel, i + n).best
        invariant bestMove == OffsetOf(ScanUpTo(images, bp, a, n, stepSize, sentinel, i + n).at, n, stepSize)
      {
        bestValue, bestMove := ScanStep(bp, a, base, n, stepSize, sentinel, i, bestValue, bestMove);
        i := i + 1;
      }
      assert n > 0 ==> i == n;
    }

    /** The three loops of `translateRegistration`, each scanning from the offsets retained before it. */
    method ScanAxes(iMax: int, jMax: int, kMax: int, iStep: real, jStep: real, kStep: real, sentinel: int)
      returns (iBestMove: real, jBestMove: real, kBestMove: real)
      requires Valid()
      modifies m
      ensures Valid() && LinearPart() == old(LinearPart())
      ensures iBestMove == BestOffset(images, Pose(t0, orientation), X, iMax, iStep, sentinel)
      ensures jBestMove == BestOffset(images, Pose(Vec3(t0.x + iBestMove, t0.y, t0.z), orientation), Y, jMax, jStep, sentinel)
      ensures kBestMove ==
              BestOffset(images, Pose(Vec3(t0.x + iBestMove, t0.y + jBestMove, t0.z), orientation), Z, kMax, kStep, sentinel)
    {
      iBestMove := ScanAxis(X, t0, iMax, iStep, sentinel);
      jBestMove := ScanAxis(Y, Vec3(t0.x + iBestMove, t0.y, t0.z), jMax, jStep, sentinel);
      kBestMove := ScanAxis(Z, Vec3(t0.x + iBestMove, t0.y + jBestMove, t0.z), kMax, kStep, sentinel);
    }

    /**
      `translateRegistration`: latches the translation and `WMAX`, scans x,
      then y, then z, and sets the translation to the latched one plus the
      three retained offsets (the absolute `translate` of the last line
      overwrites the one before it).
     */
    method TranslateRegistration(iMax: int, jMax: int, kMax: int, iStep: real, jStep: real, kStep: real)
      requires Valid()
      modifies this`t0, this`WMAX, m
      ensures Valid()
      ensures CurrentPose() ==
                TranslationScan(images, old(CurrentPose()), iMax, jMax, kMax, iStep, jStep, kStep)
      ensures t0 == old(Translation()) && WMAX == Weight(images, old(CurrentPose()))
      ensures LinearPart() == old(LinearPart())
    {
      ghost var p := CurrentPose();
      t0 := Translation();
      WMAX := Weight(images, CurrentPose());
      var sentinel := 2 * WMAX;
      var iBestMove, jBestMove, kBestMove := ScanAxes(iMax, jMax, kMax, iStep, jStep, kStep, sentinel);
      Translate(Steps(-iMax, iStep) + t0.x, Steps(-jMax, jStep) + t0.y, Steps(-kMax, kStep) + t0.z);
      Translate(iBestMove + t0.x, jBestMove + t0.y, kBestMove + t0.z);
      TranslationScanOffsets(images, p, iMax, jMax, kMax, iStep, jStep, kStep,
                             iBestMove, jBestMove, kBestMove);
    }

    // -------------------------------------------------------- optimizer ticks

    /**
      `registration`, one tick of the translation optimizer. The score is
      appended to `L` before `L[-2]` is read, so a tick with `L` empty raises
      IndexError; otherwise the divider doubles exactly when the last two
      scores are equal (it is multiplied by 1 otherwise, never reset).
     */
    method Registration() returns (outcome: Outcome)
      requires Valid()
      modifies this`L, this`divider, this`WMAX, this`t0, m
      ensures Valid()
      ensures L == old(L) + [Tick(images, old(CurrentPose()))]
      ensures |old(L)| == 0 ==>
                && outcome == IndexError && CurrentPose() == old(CurrentPose())
                && divider == old(divider) && WMAX == old(WMAX) && t0 == old(t0)
      ensures |old(L)| > 0 ==>
                divider == old(divider) * (if L[|L| - 1] == L[|L| - 2] then 2.0 else 1.0)
      ensures |old(L)| > 0 ==>
                TickResult(outcome, CurrentPose(), WMAX, t0) ==
                TranslationTick(images, old(CurrentPose()), divider, old(t0))
      ensures divider >= old(divider)
      ensures LinearPart() == old(LinearPart())
    {
      L := L + [Tick(images, CurrentPose())];
      if |L| < 2 {
        return IndexError;
      }
      if L[|L| - 1] == L[|L| - 2] {
        divider := divider * 2.0;
      } else {
        divider := divider * 1.0;
      }
      outcome := TranslationMoves();
    }

    /**
      The moves of a translation tick once the divider is updated: three
      single-axis scans, each with a step computed from the current score.
     */
    method TranslationMoves() returns (outcome: Outcome)
      requires Valid()
      modifies this`WMAX, this`t0, m
      ensures Valid() && LinearPart() == old(LinearPart())
      ensures TickResult(outcome, CurrentPose(), WMAX, t0) ==
              TranslationTick(images, old(CurrentPose()), divider, old(t0))
    {
      WMAX := Weight(images, CurrentPose());
      var iStep := TranslationStep(Tick(images, CurrentPose()), WMAX);
      if iStep.Raises? {
        return iStep.error;
      }
      TranslateRegistration(10, 0, 0, iStep.size / divider, 1.0, 1.0);
      var jStep := TranslationStep(Tick(images, CurrentPose()), WMAX);
      TranslateRegistration(0, 10, 0, 1.0, jStep.size / divider, 1.0);
      var kStep := TranslationStep(Tick(images, CurrentPose()), WMAX);
      if kStep.Raises? {
        return kStep.error;
      }
      TranslateRegistration(0, 0, 10, 1.0, 1.0, kStep.size / divider);
      return Completed;
    }

    /** Two sweeps of `registrationRotation` about `a`: `s` then `-s`, with 10 iterations each. */
    method SweepBothWays(a: Axis, s: real)
      requires Valid()
      modifies this`orientation, this`t0
      ensures Valid() && Translation() == old(Translation()) && t0 == Translation()
      ensures CurrentPose() == BothWays(images, old(CurrentPose()), a, s)
    {
      var move, value := RotateRegistration(a, s, 10);
      move, value := RotateRegistration(a, -s, 10);
    }

    /**
      The first two lines of `registrationRotation`: latches the weight of the
      current pose and ratchets the step; `false` when the step would be NaN,
      in which case the step is left as it was.
     */
    method RatchetRotationStep() returns (ratcheted: bool)
      requires Valid()
      modifies this`WMAX, this`step
      ensures Valid()
      ensures WMAX == Weight(images, CurrentPose())
      ensures ratcheted <==> NextRotationStep(Tick(images, CurrentPose()), WMAX, old(step)).Finite?
      ensures !ratcheted ==> step == old(step)
      ensures ratcheted ==> step == NextRotationStep(Tick(images, CurrentPose()), WMAX, old(step)).value
    {
      WMAX := Weight(images, CurrentPose());
      var next := NextRotationStep(Tick(images, CurrentPose()), WMAX, step);
      ratcheted := next.Finite?;
      if ratcheted {
        step := next.value;
      }
    }

    /**
      `registrationRotation`, one tick of the rotation optimizer: ratchets the
      step, then sweeps X+, X-, Y+, Y-, Z+, Z- with 10 iterations each. A zero
      weight with a nonzero score keeps the step and sweeps with it; a zero
      weight with a zero score makes the step NaN, where the model stops.
     */
    method RegistrationRotation() returns (outcome: Outcome)
      requires Valid()
      modifies this`WMAX, this`step, this`orientation, this`t0
      ensures Valid()
      ensures WMAX == Weight(images, old(CurrentPose()))
      ensures WMAX == 0 && Tick(images, old(CurrentPose())) == 0 ==>
                && outcome == NaNStep && step == old(step)
                && orientation == old(orientation) && t0 == old(t0)
      ensures WMAX != 0 || Tick(images, old(CurrentPose())) != 0 ==>
                && outcome == Completed
                && step == NextRotationStep(Tick(images, old(CurrentPose())), WMAX, old(step)).value
                && CurrentPose() == RotationTick(images, old(CurrentPose()), step)
                && t0 == Translation()
      ensures WMAX != 0 ==> step == RatchetStep(Tick(images, old(CurrentPose())), WMAX, old(step))
      ensures WMAX == 0 ==> step == old(step)
      ensures step <= old(step)
      ensures Translation() == old(Translation())
    {
      var ratcheted := RatchetRotationStep();
      if !ratcheted {
        return NaNStep;
      }
      SweepBothWays(X, step);
      SweepBothWays(Y, step);
      SweepBothWays(Z, step);
      return Completed;
    }

    // ------------------------------------------------------- session control

    /** `stop`: back to idle (the observer removal is host plumbing). */
    method Stop()
      modifies this`actionState
      ensures actionState == IdleMode
    {
      actionState := IdleMode;
    }

    /** `startRegistration`: a running timer is dropped via `stop`, not `stopRegistration`. */
    method StartRegistration()
      modifies this`timer, this`actionState
      ensures timer == Polling(TranslationSession)
      ensures actionState == if old(timer) != NoTimer then IdleMode else old(actionState)
    {
      if timer != NoTimer {
        Stop();
      }
      timer := Polling(TranslationSession);
    }

    /** `startRegistrationRotation(step)`: as `startRegistration`, first setting the step. */
    method StartRegistrationRotation(stepSize: real)
      modifies this`timer, this`actionState, this`step
      ensures timer == Polling(RotationSession) && step == stepSize
      ensures actionState == if old(timer) != NoTimer then IdleMode else old(actionState)
    {
      step := stepSize;
      if timer != NoTimer {
        Stop();
      }
      timer := Polling(RotationSession);
    }

    /**
      `stopRegistration`: only when a timer exists, removes it, empties the
      score history and resets the divider. Once the timer is gone a second
      call changes nothing, so stopping is idempotent.
     */
    method StopRegistration()
      requires Valid()
      modifies this`timer, this`L, this`divider
      ensures Valid()
      ensures timer == NoTimer
      ensures old(timer) != NoTimer ==> L == [] && divider == 1.0
      ensures old(timer) == NoTimer ==> L == old(L) && divider == old(divider)
    {
      if timer != NoTimer {
        timer := NoTimer;
        L := [];
        divider := 1.0;
      }
    }

    /** `stopRegistrationRotation`, whose body in the source is the same as `stopRegistration`'s. */
    method StopRegistrationRotation()
      requires Valid()
      modifies this`timer, this`L, this`divider
      ensures Valid()
      ensures timer == NoTimer
      ensures old(timer) != NoTimer ==> L == [] && divider == 1.0
      ensures old(timer) == NoTimer ==> L == old(L) && divider == old(divider)
    {
      StopRegistration();
    }

    // ---------------------------------------------------------- interaction

    /**
      `processEvent`, key-press and pointer-move handling. 'a' toggles
      translation/idle and 's' rotation/idle; only a return to idle clears
      `before`. A pointer move in translation mode latches `p0` and `t0` on the
      first move of a gesture and then sets the translation to
      `t0 + (position - p0)`. A move in rotation mode updates the same latch
      and makes the current position the new reference.
     */
    method ProcessEvent(fromObservedView: bool, event: Event)
      requires Valid()
      modifies this`actionState, this`before, this`p0, this`t0, m
      ensures Valid() && LinearPart() == old(LinearPart())
      ensures !fromObservedView ==>
                && actionState == old(actionState) && before == old(before)
                && p0 == old(p0) && t0 == old(t0) && Translation() == old(Translation())
      ensures fromObservedView && event.KeyPress? ==>
                && p0 == old(p0) && t0 == old(t0) && Translation() == old(Translation())
      ensures fromObservedView && event.KeyPress? && event.key == "a" ==>
                if old(actionState) == TranslationMode then actionState == IdleMode && before == 0
                else actionState == TranslationMode && before == old(before)
      ensures fromObservedView && event.KeyPress? && event.key == "s" ==>
                if old(actionState) == RotationMode then actionState == IdleMode && before == 0
                else actionState == RotationMode && before == old(before)
      ensures fromObservedView && event.KeyPress? && event.key != "a" && event.key != "s" ==>
                actionState == old(actionState) && before == old(before)
      ensures fromObservedView && event.MouseMove? && old(actionState) != IdleMode ==>
                && actionState == old(actionState) && before == old(before) + 1
                && t0 == (if old(before) == 0 then old(Translation()) else old(t0))
      ensures fromObservedView && event.MouseMove? && old(actionState) == TranslationMode ==>
                && p0 == (if old(before) == 0 then event.ras else old(p0))
                && Translation() == t0.Plus(event.ras.Minus(p0))
      ensures fromObservedView && event.MouseMove? && old(actionState) == RotationMode ==>
                p0 == event.ras && Translation() == old(Translation())
      ensures fromObservedView && !event.KeyPress? && (!event.MouseMove? || old(actionState) == IdleMode) ==>
                && actionState == old(actionState) && before == old(before)
                && p0 == old(p0) && t0 == old(t0) && Translation() == old(Translation())
    {
      if !fromObservedView {
        return;
      }
      if event.KeyPress? {
        var key := event.key;
        if key == "a" && actionState != TranslationMode {
          actionState := TranslationMode;
        } else if key == "s" && actionState != RotationMode {
          actionState := RotationMode;
        } else if key == "s" && actionState == RotationMode {
          actionState := IdleMode;
          before := 0;
        } else if key == "a" && actionState == TranslationMode {
          actionState := IdleMode;
          before := 0;
        }
      }
      if actionState == RotationMode && event.MouseMove? {
        if before == 0 {
          p0 := event.ras;
          t0 := Translation();
        }
        p0 := event.ras;
        before := before + 1;
      } else if actionState == TranslationMode && event.MouseMove? {
        if before == 0 {
          p0 := event.ras;
          t0 := Translation();
        }
        var d := event.ras.Minus(p0);
        Translate(t0.x + d.x, t0.y + d.y, t0.z + d.z);
        before := before + 1;
      }
    }
  }
}
