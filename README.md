# Regmatic registration logic in Dafny

This project models the search and control logic of `RegmaticLogic`, the
object behind an interactive rigid-registration tool that aligns a moving 3D
volume onto a fixed one. The model covers:

- the objective and its normalising scale, `tick` and `weightMax`;
- the exhaustive single-axis searches: the rotation sweeps
  `rotateRegistrationX/Y/Z` and the three translation scans of
  `translateRegistration`;
- the two optimizer ticks, `registration` and `registrationRotation`, with the
  score history `L`, the stagnation divider and the ratcheting rotation step;
- starting and stopping a polling session;
- the key/pointer state machine of `processEvent`.

The image content stays abstract. An `Images` value gives the fixed volume's
intensities on its own grid. It also gives, for every pose of the moving volume,
that volume's intensities resampled onto the same grid. The objective is the sum
of voxel-wise absolute differences over integer intensities.

The model has five files:

- `geometry.dfy`: the pose, made of the translation column of the 4x4 matrix
  and the rotational part. The rotational part is a reduced word of
  single-axis rotations:
  - rotations about the same axis that follow each other merge by adding their
    angles;
  - rotations about different axes stay apart.
- `objective.dfy`: `tick` and `weightMax` as functions over integer sequences.
- `search.dfy`: pure specifications of one rotation sweep and one translation
  scan, and the lemmas about them.
- `optimizer.dfy`: the step heuristics, and one optimizer tick as a function of
  the pose.
- `logic.dfy`: the class `RegmaticLogic`. Its fields are the ones the source
  updates. The matrix `m` is a 4x4 `array2<real>`. Each method is proved
  against the specifications above.

Where the code and the design description disagree, the model follows the code:

- The step heuristic uses `int()`, which truncates. It does not round.
- When the last two scores differ, the divider is multiplied by 1. It is not
  reset to 1, so it never decreases within a session.
- The rotation sweep is one-sided: steps `1 .. n`. It keeps the first
  strictly better score, so ties go to the earlier step.
- The translation scan is two-sided: absolute offsets `i * step` for `i` in
  `-n .. n-1`, starting from a `2 * weightMax` sentinel. It accepts a score
  that is `<=` the best so far, so ties go to the last offset scanned.
- `registration` appends the score to `L` before reading `L[-2]`. A tick with
  `L` empty therefore raises IndexError and moves nothing. `L` is empty after
  construction and after `stopRegistration`. `startRegistration` over a
  running timer goes through `stop`, which keeps `L`, so the first tick of
  such a session compares with the previous session's last score.
- A weight of 0 does not raise in the division: numpy gives infinity for a
  nonzero score and NaN for a zero score. In `registration`, `int()` of
  infinity raises OverflowError and `int()` of NaN raises ValueError. In
  `registrationRotation`, an infinite ratio leaves the step unchanged and the
  sweeps run. A NaN ratio makes the step NaN, and the model ends that tick
  there (see "Left out").

## Model

| member | source | states |
|---|---|---|
| Geometry.Vec3.With | Regmatic.py:690-702 | replacing one coordinate sets that coordinate and keeps the other two |
| Geometry.Steps | Regmatic.py:689-690 | no contract of its own: the offset `k * step` of a scan position or a sweep; StepsAdd states that steps add up |
| Geometry.StepsAdd | Regmatic.py:626-636 | `k` steps followed by `j` steps cover `k + j` steps, as the closing rotation of a sweep relies on |
| Geometry.Turn | Regmatic.py:609-620 | no contract of its own; TurnNormal, TurnZero, TurnAdditive and TurnInverse state its properties |
| Geometry.TurnNormal | Regmatic.py:609-620 | rotating about one axis keeps the orientation word reduced |
| Geometry.TurnZero | Regmatic.py:609-620 | a rotation by 0 degrees (the unused slots of `rotate`) leaves the orientation unchanged |
| Geometry.TurnAdditive | Regmatic.py:626-636 | two rotations about the same axis compose into one rotation by the sum of their angles |
| Geometry.TurnInverse | Regmatic.py:633-634 | rotating back by the negated angle restores the orientation exactly |
| Geometry.Pose.Shifted | Regmatic.py:604-607 | moving coordinate `a` of the translation by an offset keeps the rotation and the other two coordinates |
| Geometry.Pose.Rotated | Regmatic.py:609-620 | a rotation centred on the transform's own translation leaves that translation unchanged |
| Objective.SumAbsDiff | Regmatic.py:518-522 | no contract of its own; SumAbsDiffZeroIff and SumAbsDiffBound state its properties |
| Objective.SumAbsDiffZeroIff | Regmatic.py:518-522 | the sum of absolute differences is 0 exactly when the two grids are equal |
| Objective.SumAbsDiffBound | Regmatic.py:518-532 | for non-negative intensities the mismatch is at most the sum of the two totals |
| Objective.WeightMax | Regmatic.py:526-532 | `weightMax` is one of the two totals and at least as large as each |
| Objective.SentinelBound | Regmatic.py:680-686 | for non-negative intensities the `2 * WMAX` start value is at least the mismatch |
| Objective.SentinelCanFailForNegativeIntensities | Regmatic.py:680-686 | with negative intensities the mismatch can exceed `2 * WMAX`, so the sentinel is then not an upper bound |
| Objective.Resampled | Regmatic.py:518-522 | the moving volume is resampled onto the fixed volume's grid, so both arrays have the same size |
| Objective.Tick | Regmatic.py:518-524 | no contract of its own; TickZeroIffAligned and TickWithinSentinel state its properties |
| Objective.TickZeroIffAligned | Regmatic.py:518-522 | the score at a pose is 0 exactly when the resampled moving volume equals the fixed one |
| Objective.Weight | Regmatic.py:526-532 | no contract of its own; WeightIsLargerTotal states its property |
| Objective.WeightIsLargerTotal | Regmatic.py:526-532 | the scale at a pose is the larger of the fixed total and the resampled moving total |
| Objective.TickWithinSentinel | Regmatic.py:680-691 | for non-negative intensities a pose scores at most twice its own weight, so the base of a scan always passes the `2 * WMAX` start value taken there |
| AxisSearch.FirstMinIn | Regmatic.py:625-630 | the strict-`<` scan over the first `k` scores ends at a position below `k` |
| AxisSearch.FirstMinInIsFirstMin | Regmatic.py:625-630 | the strict-`<` scan keeps a minimum of the scores seen, and every earlier score is strictly larger |
| AxisSearch.FirstMinIndex | Regmatic.py:625-630 | the index a full strict-`<` scan keeps is the first position of the minimum |
| AxisSearch.LastMinIn | Regmatic.py:689-694 | the `<=` scan over the first `k` scores ends at a position below `k` |
| AxisSearch.LastMinInIsLastMin | Regmatic.py:689-694 | the `<=` scan keeps a minimum of the scores seen, and every later score is strictly larger |
| AxisSearch.LastMinIndex | Regmatic.py:689-694 | the index a full `<=` scan keeps is the last position of the minimum |
| AxisSearch.FirstMinUnique | Regmatic.py:625-630 | the first minimum of a score sequence is unique |
| AxisSearch.LastMinUnique | Regmatic.py:689-694 | the last minimum of a score sequence is unique |
| AxisSearch.SweepPose | Regmatic.py:625-627 | after any number of steps of a sweep the translation is the one the sweep started from |
| AxisSearch.SweepScores | Regmatic.py:625-630 | a sweep of `n` steps produces `n + 1` scores: the start pose and one per step |
| AxisSearch.SweepScoreAt | Regmatic.py:625-630 | score `k` of a sweep is the objective after exactly `k` steps about the axis |
| AxisSearch.RotationSweep | Regmatic.py:622-638 | a sweep ends with the translation unchanged and a score no worse than at the start; an equal score means the sweep fully reverted |
| AxisSearch.RotationSweepTurnsByBestSteps | Regmatic.py:622-638 | a sweep turns about its axis by `step` times the first best step count, which is at most `n` |
| AxisSearch.ScanLength | Regmatic.py:689 | a scan visits some position exactly when `n > 0` |
| AxisSearch.XRange | Regmatic.py:689 | `xrange(lo, hi)` has `hi - lo` elements, or none when `lo >= hi` |
| AxisSearch.XRangeAt | Regmatic.py:689 | element `j` of `xrange(lo, hi)` is `lo + j` |
| AxisSearch.ScanVisitsRange | Regmatic.py:689-690 | the positions of a scan are `xrange(-n, n)` in order: position `j` is `i == j - n` |
| AxisSearch.ScanScoresUpTo | Regmatic.py:689-690 | the first `k` positions of a scan produce `k` scores |
| AxisSearch.ScanScores | Regmatic.py:689 | a scan of `n` steps each side visits `2n` positions, or none when `n <= 0` |
| AxisSearch.ScanScoresUpToAt | Regmatic.py:689-691 | position `j` of a scan is scored at the absolute offset of `j - n` steps from the base |
| AxisSearch.ScanScoreAt | Regmatic.py:689-691 | position `j` of a full scan is scored at the absolute offset of `j - n` steps from the base |
| AxisSearch.ScanChoice | Regmatic.py:681-694 | the position a `<=` scan settles on, when there is one, is one of the scanned positions |
| AxisSearch.ScanChoiceIsLastMin | Regmatic.py:681-694 | a scan accepts some position exactly when some score is `<=` the sentinel, and it then accepts the last minimum |
| AxisSearch.ScanPrefix | Regmatic.py:689-694 | after `k` scores, the accepted position is one of those `k` |
| AxisSearch.ScanPrefixInvariant | Regmatic.py:681-694 | the loop invariant of a `<=` scan: nothing is accepted while every score is above the sentinel, and otherwise the best is the last minimum so far |
| AxisSearch.ScanPrefixAgrees | Regmatic.py:681-694 | a complete `<=` scan settles exactly on the last minimum, or on nothing |
| AxisSearch.ScanUpTo | Regmatic.py:689-694 | a scan that scores each position as it reaches it has accepted a position below `k` after `k` positions |
| AxisSearch.ScanUpToIsPrefix | Regmatic.py:689-694 | scoring as it goes, the scan is the `<=` scan of its score sequence |
| AxisSearch.ShiftedByZero | Regmatic.py:689-690 | the scanned offset 0 is the base pose itself |
| AxisSearch.OffsetOf | Regmatic.py:681-694 | no accepted position keeps the initial offset 0; an accepted position gives one of the scanned offsets `i * step` with `-n <= i < n` |
| AxisSearch.BestOffset | Regmatic.py:681-705 | the retained offset is 0 or one of the scanned offsets `i * step` with `-n <= i < n`, and 0 when the scan has no positions |
| AxisSearch.BestOffsetNeverWorse | Regmatic.py:689-694 | offset 0 is scanned, so the retained offset scores no worse than the base |
| AxisSearch.ScanPicksLastMinimum | Regmatic.py:681-694 | with non-negative intensities a non-empty scan retains the offset of the last minimum |
| AxisSearch.TranslationScan | Regmatic.py:676-708 | `translateRegistration` keeps the rotation, never ends worse than it started, and moves no coordinate whose span (`iMax`, `jMax` or `kMax`) is 0 or less |
| AxisSearch.TranslationScanOffsets | Regmatic.py:695-708 | the final translation is the captured one plus the three retained offsets, each scan starting where the previous one settled |
| Optimizer.StepRatio | Regmatic.py:721 | `(score / WMAX)^2 * 15` is never negative |
| Optimizer.StepRatioAtMost15 | Regmatic.py:721 | when the score lies between 0 and `WMAX`, the ratio is at most 15 |
| Optimizer.AdaptiveStep | Regmatic.py:721 | the undivided step is at least 0.1; it is 0.1 exactly when truncation gives 0, and otherwise the truncated ratio |
| Optimizer.ScoreRatio | Regmatic.py:721-737 | numpy's ratio is finite (and non-negative) exactly when the weight is nonzero, NaN exactly when weight and score are both 0, and infinite otherwise |
| Optimizer.TranslationStep | Regmatic.py:721-727 | the step exists exactly when the weight is nonzero and is then the adaptive step; `int()` raises OverflowError for a nonzero score and ValueError for a zero one |
| Optimizer.NextRotationStep | Regmatic.py:737 | a finite step never grows and stays at least 0.01 once it is; it is NaN exactly when the ratio is, the previous step when the ratio is infinite, and the ratcheted step for a nonzero weight |
| Optimizer.RatchetStep | Regmatic.py:737 | the rotation step never grows, and stays at least 0.01 once it is |
| Optimizer.TranslationTick | Regmatic.py:713-729 | a translation tick that gets past `L[-2]` keeps the rotation and never worsens the score, and ends normally or with the error `int()` raises; a zero weight at the start raises before anything moves: OverflowError for a nonzero score, ValueError for a zero one |
| Optimizer.BothWays | Regmatic.py:739-744 | a sweep about one axis forwards then backwards keeps the translation and never worsens the score |
| Optimizer.RotationTick | Regmatic.py:739-744 | the six sweeps keep the translation and never worsen the score |
| Regmatic.OneMoreStep | Regmatic.py:626-627 | one more step of a sweep extends the net rotation by one step |
| Regmatic.StepsBack | Regmatic.py:633-636 | the closing rotation of a sweep of `n` steps leaves a net rotation of `k` steps |
| Regmatic.SweepEndsAtFirstMin | Regmatic.py:622-638 | a sweep that kept the first minimum of its scores ends where `RotationSweep` says |
| Regmatic.RegmaticLogic.constructor | Regmatic.py:282-317 | the matrix starts as the identity, with no timer, an empty history, divider 1, step 1, idle mode and `before == 0` |
| Regmatic.RegmaticLogic.Translate | Regmatic.py:604-607 | `translate` writes the translation column and leaves every other entry of `m` unchanged |
| Regmatic.RegmaticLogic.Rotate | Regmatic.py:609-620 | `rotate` latches the translation into `t0` and appends the rotations about X, then Z, then Y to the orientation |
| Regmatic.RegmaticLogic.RotateAbout | Regmatic.py:627 | `rotate` with one nonzero slot is a single rotation about that axis |
| Regmatic.RegmaticLogic.RotateRegistration | Regmatic.py:622-674 | `bestMove` is the first strict minimum of the sweep's `nbIteration + 1` scores, and the sweep ends where `RotationSweep` says (a net rotation of `bestMove * step`, by RotationSweepTurnsByBestSteps); `bestValue` is the final score; the translation is unchanged |
| Regmatic.RegmaticLogic.SweepForward | Regmatic.py:625-632 | after the loop the orientation is `n` steps on, and the kept best is the first minimum of the scores |
| Regmatic.RegmaticLogic.SweepStep | Regmatic.py:627-628 | one loop iteration rotates by one more step and scores the new pose |
| Regmatic.RegmaticLogic.SweepBack | Regmatic.py:633-636 | both branches of the closing rotation leave a net rotation of `bestMove` steps |
| Regmatic.RegmaticLogic.ScoreShifted | Regmatic.py:690-691 | the scan moves to the absolute offset from the captured translation and scores it there |
| Regmatic.RegmaticLogic.ScanStep | Regmatic.py:690-694 | one iteration of a scan advances the `<=` scan state by one position |
| Regmatic.RegmaticLogic.ScanAxis | Regmatic.py:689-694 | a scan loop returns the retained offset of the `<=` scan and leaves the translation at the last scanned position |
| Regmatic.RegmaticLogic.ScanAxes | Regmatic.py:689-706 | y is scanned from the x offset, and z from both, all from the captured translation |
| Regmatic.RegmaticLogic.TranslateRegistration | Regmatic.py:676-708 | `translateRegistration` latches `t0` and `WMAX` and ends at the pose `TranslationScan` specifies, with the linear part untouched |
| Regmatic.RegmaticLogic.Registration | Regmatic.py:713-729 | the score is appended; with `L` empty the tick raises IndexError and moves nothing; the divider doubles exactly when the last two scores are equal and never decreases |
| Regmatic.RegmaticLogic.TranslationMoves | Regmatic.py:720-729 | the three scans with their adaptive steps end where `TranslationTick` says, including the errors `int()` raises for a zero weight |
| Regmatic.RegmaticLogic.RatchetRotationStep | Regmatic.py:735-737 | the weight of the current pose is latched and the step becomes `NextRotationStep`, unless that is NaN, in which case the step is left alone |
| Regmatic.RegmaticLogic.SweepBothWays | Regmatic.py:739-744 | two sweeps about `a`, by `s` and then by `-s`, end where `BothWays` says, with the translation unchanged |
| Regmatic.RegmaticLogic.RegistrationRotation | Regmatic.py:734-744 | the weight is latched; a nonzero weight ratchets the step and a zero weight leaves it; unless the step would be NaN, the six sweeps X+, X-, Y+, Y-, Z+, Z- then run and end at `RotationTick`; the step never grows and the translation is unchanged |
| Regmatic.RegmaticLogic.Stop | Regmatic.py:592-595 | `stop` returns to idle mode |
| Regmatic.RegmaticLogic.StartRegistration | Regmatic.py:348-355 | a translation session starts; a running timer is first dropped through `stop` |
| Regmatic.RegmaticLogic.StartRegistrationRotation | Regmatic.py:357-365 | as `startRegistration`, but it sets the rotation step first and drives the rotation optimizer |
| Regmatic.RegmaticLogic.StopRegistration | Regmatic.py:367-372 | only when a timer exists: the timer is removed, `L` emptied and the divider reset, so a second call changes nothing |
| Regmatic.RegmaticLogic.StopRegistrationRotation | Regmatic.py:374-379 | the same effect as `stopRegistration` |
| Regmatic.RegmaticLogic.ProcessEvent | Regmatic.py:381-514 | 'a' and 's' toggle their mode with idle, and only a return to idle clears `before`; in translation mode the first move latches `p0` and `t0`, and every move sets the translation to `t0 + (position - p0)` |

## Left out

- `RegmaticWidget`, `onReload` and `testingData`: user interface and host plumbing.
- `start`, `removeObservers` and the observer tags: the host's event subscription. `processEvent` takes a flag saying whether the event comes from an observed view.
- Qt timers: a timer is a present/absent flag that records which optimizer it drives. Polling itself is not modelled.
- `rasArray`: resampling with `vtkImageReslice` and the matrix inversion are library calls. The abstract `Images` value stands in for them.
- The trigonometry of `RotateWXYZ` and the 3x3 block of `m`: the orientation word stands in for the rotational part, and the model never computes that part numerically.
- ProcessEvent: in rotation mode it models only the latch bookkeeping (`p0`, `t0`, `before`). It does not model the rotation the gesture applies, the choice of plane by exact float equality, or the fiducial centre. The model keeps the translation unchanged in rotation mode. The source moves it whenever the centre of the rotation is not the current translation. That happens with a fiducial centre. It also happens without one, because the gesture rotates about the latched `t0` (Regmatic.py:472-485) and `t0` can differ from the current translation. One case is a direct switch from 'a' to 's', which keeps `before` and so keeps the latch (Regmatic.py:393-394). Another is a registration tick that re-latched `t0` in the middle of a gesture (Regmatic.py:610, 677).
- `colorWindow`: rendering. Its own division by `weightMax` is also left out. With a weight of 0 that division gives infinity or NaN, which only affects the background colour.
- `print` calls, and the unused `total` and `fi/theta/psiBestValue` locals of `translateRegistration`.
- The `step` method: it is shadowed by the instance field of the same name and is unreachable.
- Floating point: angles, offsets and steps are exact reals.
- Integer width: intensities and sums are unbounded integers. The source subtracts the two arrays in their own fixed-width dtype (Regmatic.py:522), so for an unsigned 8-bit volume `|0 - 1|` comes out as 255. `numpy.sum` also accumulates in a fixed width. Neither wrap-around is modelled.
- Aliasing of `m`: the model takes `m` to be the transform node's own matrix. In the source it becomes an alias of that matrix only after the first pointer gesture.
- ScanAxes: does not state where each scan leaves the translation column, because `TranslateRegistration` overwrites it at the end.
- RotateRegistration: `nbIteration` is a natural number. The callers always pass 10.
- RegistrationRotation: when the weight and the score are both 0, the source computes a NaN step and runs the six sweeps with NaN angles. Reals have no NaN, so the model ends that tick with `NaNStep` and changes neither the step nor the orientation.
- StartRegistrationRotation: the `step=None` default of Regmatic.py:357 is not modelled. The only caller passes a value (Regmatic.py:233).
