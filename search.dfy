/**
  Exhaustive single-axis searches, as pure specifications.

  A rotation sweep (`rotateRegistrationX/Y/Z`) evaluates the objective after
  each of `n` equal steps about one axis, keeps the first strictly best step
  count, and ends up rotated by exactly that many steps. A translation scan
  (one loop of `translateRegistration`) evaluates absolute offsets
  `i * step` for `i` in `-n .. n-1` from a captured base, accepting a score
  that is `<=` the best so far, the best so far starting at a sentinel; ties
  therefore go to the last offset scanned.
 */
module AxisSearch {
  import opened Geometry
  import opened Objective

  datatype Option<T> = None | Some(value: T)

  /** `k` is the first position of a minimum of `s`. */
  predicate IsFirstMin(s: seq<int>, k: nat) {
    && k < |s|
    && (forall j :: 0 <= j < |s| ==> s[k] <= s[j])
    && (forall j :: 0 <= j < k ==> s[k] < s[j])
  }

  /** `k` is the last position of a minimum of `s`. */
  predicate IsLastMin(s: seq<int>, k: nat) {
    && k < |s|
    && (forall j :: 0 <= j < |s| ==> s[k] <= s[j])
    && (forall j :: k < j < |s| ==> s[k] < s[j])
  }

  /**
    Position of the first minimum among the first `k` scores, found by scanning
    left to right and moving only on a strictly smaller value.
   */
  function FirstMinIn(s: seq<int>, k: nat): (b: nat)
    requires 0 < k <= |s|
    ensures b < k
  {
    if k == 1 then 0
    else
      var b := FirstMinIn(s, k - 1);
      if s[k - 1] < s[b] then k - 1 else b
  }

  lemma {:induction false} FirstMinInIsFirstMin(s: seq<int>, k: nat)
    requires 0 < k <= |s|
    ensures forall j :: 0 <= j < k ==> s[FirstMinIn(s, k)] <= s[j]
    ensures forall j :: 0 <= j < FirstMinIn(s, k) ==> s[FirstMinIn(s, k)] < s[j]
  {
    if k > 1 {
      FirstMinInIsFirstMin(s, k - 1);
    }
  }

  function FirstMinIndex(s: seq<int>): (k: nat)
    requires |s| > 0
    ensures IsFirstMin(s, k)
  {
    FirstMinInIsFirstMin(s, |s|);
    FirstMinIn(s, |s|)
  }

  /**
    Position of the last minimum among the first `k` scores, found by scanning
    left to right and moving on a smaller or equal value.
   */
  function LastMinIn(s: seq<int>, k: nat): (b: nat)
    requires 0 < k <= |s|
    ensures b < k
  {
    if k == 1 then 0
    else
      var b := LastMinIn(s, k - 1);
      if s[k - 1] <= s[b] then k - 1 else b
  }

  lemma {:induction false} LastMinInIsLastMin(s: seq<int>, k: nat)
    requires 0 < k <= |s|
    ensures forall j :: 0 <= j < k ==> s[LastMinIn(s, k)] <= s[j]
    ensures forall j :: LastMinIn(s, k) < j < k ==> s[LastMinIn(s, k)] < s[j]
  {
    if k > 1 {
      LastMinInIsLastMin(s, k - 1);
    }
  }

  function LastMinIndex(s: seq<int>): (k: nat)
    requires |s| > 0
    ensures IsLastMin(s, k)
  {
    LastMinInIsLastMin(s, |s|);
    LastMinIn(s, |s|)
  }

  lemma FirstMinUnique(s: seq<int>, k1: nat, k2: nat)
    requires IsFirstMin(s, k1) && IsFirstMin(s, k2)
    ensures k1 == k2
  {
    assert s[k1] == s[k2];
  }

  lemma LastMinUnique(s: seq<int>, k1: nat, k2: nat)
    requires IsLastMin(s, k1) && IsLastMin(s, k2)
    ensures k1 == k2
  {
    assert s[k1] == s[k2];
  }

  // ---------------------------------------------------------------- rotation

  /** The pose after `k` steps of `step` degrees about `a`. */
  function SweepPose(p: Pose, a: Axis, step: real, k: int): (q: Pose)
    ensures q.t == p.t
  {
    p.Rotated(a, Steps(k, step))
  }

  lemma SweepPoseZero(p: Pose, a: Axis, step: real)
    requires Normal(p.turns)
    ensures SweepPose(p, a, step, 0) == p
  {
    TurnZero(p.turns, a);
  }

  /**
    Scores of a sweep of `n` steps, in the order they are computed: position
    `k` is the score after `k` steps, position 0 the pose before the sweep.
   */
  function SweepScores(img: Images, p: Pose, a: Axis, step: real, n: nat): (s: seq<int>)
    ensures |s| == n + 1
  {
    if n == 0 then [Tick(img, p)]
    else SweepScores(img, p, a, step, n - 1) + [Tick(img, SweepPose(p, a, step, n))]
  }

  lemma {:induction false} SweepScoreAt(img: Images, p: Pose, a: Axis, step: real, n: nat, k: nat)
    requires Normal(p.turns) && k <= n
    ensures SweepScores(img, p, a, step, n)[k] == Tick(img, SweepPose(p, a, step, k))
  {
    if n == 0 {
      SweepPoseZero(p, a, step);
    } else if k < n {
      SweepScoreAt(img, p, a, step, n - 1, k);
    }
  }

  /**
    The pose a rotation sweep of `n` steps of `step` degrees about `a` ends in:
    rotated by (first best step count) * `step`, so no better score means no change.
   */
  function RotationSweep(img: Images, p: Pose, a: Axis, step: real, n: nat): (q: Pose)
    requires Normal(p.turns)
    ensures q.t == p.t && Normal(q.turns)
    ensures Tick(img, q) <= Tick(img, p)
    ensures Tick(img, q) == Tick(img, p) ==> q == p
  {
    var s := SweepScores(img, p, a, step, n);
    var k := FirstMinIndex(s);
    SweepPoseZero(p, a, step);
    SweepScoreAt(img, p, a, step, n, 0);
    SweepScoreAt(img, p, a, step, n, k);
    TurnNormal(p.turns, a, Steps(k, step));
    SweepPose(p, a, step, k)
  }

  /** A rotation sweep turns about `a` by the first best step count, at most `n`, times `step`. */
  lemma RotationSweepTurnsByBestSteps(img: Images, p: Pose, a: Axis, step: real, n: nat)
    requires Normal(p.turns)
    ensures var k := FirstMinIndex(SweepScores(img, p, a, step, n));
            && k <= n
            && RotationSweep(img, p, a, step, n) == p.Rotated(a, Steps(k, step))
  {
  }

  // ------------------------------------------------------------- translation

  /** Number of positions a scan of `n` steps each side visits: `i` in `-n .. n-1`. */
  function ScanLength(n: int): (r: nat)
    ensures r > 0 <==> n > 0
  {
    if n > 0 then 2 * n else 0
  }

  /** Python's `xrange(lo, hi)`: the integers from `lo` up to, but not including, `hi`. */
  function XRange(lo: int, hi: int): (s: seq<int>)
    ensures |s| == if lo < hi then hi - lo else 0
    decreases hi - lo
  {
    if lo >= hi then [] else [lo] + XRange(lo + 1, hi)
  }

  lemma {:induction false} XRangeAt(lo: int, hi: int, j: nat)
    requires j < |XRange(lo, hi)|
    ensures XRange(lo, hi)[j] == lo + j
    decreases hi - lo
  {
    if j > 0 {
      XRangeAt(lo + 1, hi, j - 1);
    }
  }

  /** A scan of `n` steps each side visits `xrange(-n, n)` in order: its position `j` is `i == j - n`. */
  lemma ScanVisitsRange(n: int, j: nat)
    ensures |XRange(-n, n)| == ScanLength(n)
    ensures j < ScanLength(n) ==> XRange(-n, n)[j] == j - n
  {
    if j < ScanLength(n) {
      XRangeAt(-n, n, j);
    }
  }

  /**
    Scores of the first `k` positions of a scan along `a` from `base`, in scan
    order: position `j` is the absolute offset of `j - n` steps.
   */
  function ScanScoresUpTo(img: Images, base: Pose, a: Axis, n: int, step: real, k: nat): (s: seq<int>)
    ensures |s| == k
  {
    if k == 0 then []
    else ScanScoresUpTo(img, base, a, n, step, k - 1) + [Tick(img, base.Shifted(a, Steps(k - 1 - n, step)))]
  }

  /** Scores of every position of a scan of `n` steps each side. */
  function ScanScores(img: Images, base: Pose, a: Axis, n: int, step: real): (s: seq<int>)
    ensures |s| == ScanLength(n)
  {
    ScanScoresUpTo(img, base, a, n, step, ScanLength(n))
  }

  lemma {:induction false} ScanScoresUpToAt(img: Images, base: Pose, a: Axis, n: int, step: real, k: nat, j: nat)
    requires j < k
    ensures ScanScoresUpTo(img, base, a, n, step, k)[j] == Tick(img, base.Shifted(a, Steps(j - n, step)))
  {
    if j < k - 1 {
      ScanScoresUpToAt(img, base, a, n, step, k - 1, j);
    }
  }

  /** Position `j` of a scan is scored at `j - n` steps from the base. */
  lemma ScanScoreAt(img: Images, base: Pose, a: Axis, n: int, step: real, j: nat)
    requires j < ScanLength(n)
    ensures ScanScores(img, base, a, n, step)[j] == Tick(img, base.Shifted(a, Steps(j - n, step)))
  {
    ScanScoresUpToAt(img, base, a, n, step, ScanLength(n), j);
  }

  /**
    The position a `<=` scan that starts from `sentinel` settles on: the last
    minimum, provided some score reaches down to the sentinel, and none otherwise.
   */
  function ScanChoice(s: seq<int>, sentinel: int): (c: Option<nat>)
    ensures c.Some? ==> c.value < |s|
  {
    if |s| > 0 && s[LastMinIndex(s)] <= sentinel then Some(LastMinIndex(s)) else None
  }

  lemma ScanChoiceIsLastMin(s: seq<int>, sentinel: int)
    ensures ScanChoice(s, sentinel).Some? <==> exists j :: 0 <= j < |s| && s[j] <= sentinel
    ensures ScanChoice(s, sentinel).Some? ==>
              IsLastMin(s, ScanChoice(s, sentinel).value) && s[ScanChoice(s, sentinel).value] <= sentinel
  {
  }

  /** The state of a `<=` scan: the best score so far and where it was accepted, if anywhere. */
  datatype ScanState = ScanState(best: int, at: Option<nat>)

  /**
    The state after scanning the first `k` scores from the start value
    `sentinel`, replacing the best whenever a score is `<=` it.
   */
  function ScanPrefix(s: seq<int>, sentinel: int, k: nat): (r: ScanState)
    requires k <= |s|
    ensures r.at.Some? ==> r.at.value < k
  {
    if k == 0 then ScanState(sentinel, None)
    else
      var r := ScanPrefix(s, sentinel, k - 1);
      if s[k - 1] <= r.best then ScanState(s[k - 1], Some(k - 1)) else r
  }

  /**
    After `k` scores, a scan has accepted nothing exactly while every score was
    above the sentinel, and otherwise holds the last minimum seen so far.
   */
  lemma {:induction false} ScanPrefixInvariant(s: seq<int>, sentinel: int, k: nat)
    requires k <= |s|
    ensures var r := ScanPrefix(s, sentinel, k);
            r.at.None? ==> r.best == sentinel && forall j :: 0 <= j < k ==> s[j] > sentinel
    ensures var r := ScanPrefix(s, sentinel, k);
            r.at.Some? ==>
              && r.best == s[r.at.value] <= sentinel
              && (forall j :: 0 <= j < k ==> s[r.at.value] <= s[j])
              && (forall j :: r.at.value < j < k ==> s[r.at.value] < s[j])
  {
    if k > 0 {
      ScanPrefixInvariant(s, sentinel, k - 1);
    }
  }

  /** A complete `<=` scan settles exactly where `ScanChoice` says. */
  lemma ScanPrefixAgrees(s: seq<int>, sentinel: int)
    ensures ScanPrefix(s, sentinel, |s|).at == ScanChoice(s, sentinel)
  {
    var r := ScanPrefix(s, sentinel, |s|);
    ScanPrefixInvariant(s, sentinel, |s|);
    if r.at.Some? {
      LastMinUnique(s, r.at.value, ScanChoice(s, sentinel).value);
    }
  }

  /**
    The state of a scan along `a` from `base` after its first `k` positions,
    each position being scored as it is reached.
   */
  function ScanUpTo(img: Images, base: Pose, a: Axis, n: int, step: real, sentinel: int, k: nat): (r: ScanState)
    ensures r.at.Some? ==> r.at.value < k
  {
    if k == 0 then ScanState(sentinel, None)
    else
      var r := ScanUpTo(img, base, a, n, step, sentinel, k - 1);
      var v := Tick(img, base.Shifted(a, Steps(k - 1 - n, step)));
      if v <= r.best then ScanState(v, Some(k - 1)) else r
  }

  /** Scoring as it goes, a scan is the `<=` scan of its score sequence. */
  lemma {:induction false} ScanUpToIsPrefix(img: Images, base: Pose, a: Axis, n: int, step: real, sentinel: int, k: nat)
    requires k <= ScanLength(n)
    ensures ScanUpTo(img, base, a, n, step, sentinel, k) == ScanPrefix(ScanScores(img, base, a, n, step), sentinel, k)
  {
    if k > 0 {
      ScanUpToIsPrefix(img, base, a, n, step, sentinel, k - 1);
      ScanScoreAt(img, base, a, n, step, k - 1);
    }
  }

  /**
    The offset a scan retains: the offset last accepted, or 0 when none was
    accepted; it is always 0 or one of the scanned offsets, and a scan
    without positions retains 0.
   */
  function BestOffset(img: Images, base: Pose, a: Axis, n: int, step: real, sentinel: int): (d: real)
    ensures d == 0.0 || exists i :: -n <= i < n && d == Steps(i, step)
    ensures n <= 0 ==> d == 0.0
  {
    OffsetOf(ScanUpTo(img, base, a, n, step, sentinel, ScanLength(n)).at, n, step)
  }

  /**
    The offset of an accepted position of a scan of `n` steps each side, or
    the initial 0 when none was accepted; an accepted position gives one of
    the scanned offsets.
   */
  function OffsetOf(at: Option<nat>, n: int, step: real): (d: real)
    ensures at.None? ==> d == 0.0
    ensures at.Some? && at.value < ScanLength(n) ==> exists i :: -n <= i < n && d == Steps(i, step)
  {
    match at
    case None => 0.0
    case Some(k) => Steps(k - n, step)
  }

  lemma ShiftedByZero(p: Pose, a: Axis)
    ensures p.Shifted(a, 0.0) == p
  {
    var q := p.Shifted(a, 0.0);
    assert q.t.Get(X) == p.t.Get(X) && q.t.Get(Y) == p.t.Get(Y) && q.t.Get(Z) == p.t.Get(Z);
  }

  /** Offset 0 is always among the scanned ones, so a scan never ends worse than its base. */
  lemma BestOffsetNeverWorse(img: Images, base: Pose, a: Axis, n: int, step: real, sentinel: int)
    ensures Tick(img, base.Shifted(a, BestOffset(img, base, a, n, step, sentinel))) <= Tick(img, base)
  {
    var s := ScanScores(img, base, a, n, step);
    ShiftedByZero(base, a);
    ScanUpToIsPrefix(img, base, a, n, step, sentinel, |s|);
    ScanPrefixInvariant(s, sentinel, |s|);
    match ScanPrefix(s, sentinel, |s|).at
    case None =>
    case Some(k) =>
      ScanScoreAt(img, base, a, n, step, n);
      ScanScoreAt(img, base, a, n, step, k);
  }

  /**
    With non-negative intensities the `2 * weightMax` sentinel is reached by
    the base itself, so a non-empty scan always settles on the last minimum
    of its scores.
   */
  lemma ScanPicksLastMinimum(img: Images, base: Pose, a: Axis, n: int, step: real)
    requires NonNegativeImages(img) && n > 0
    ensures var s := ScanScores(img, base, a, n, step);
            BestOffset(img, base, a, n, step, 2 * Weight(img, base)) == Steps(LastMinIndex(s) - n, step)
  {
    var s := ScanScores(img, base, a, n, step);
    ShiftedByZero(base, a);
    ScanScoreAt(img, base, a, n, step, n);
    TickWithinSentinel(img, base);
    ScanUpToIsPrefix(img, base, a, n, step, 2 * Weight(img, base), |s|);
    ScanPrefixAgrees(s, 2 * Weight(img, base));
  }

  /**
    The pose `translateRegistration(iMax, jMax, kMax, iStep, jStep, kStep)`
    ends in: x is scanned from the captured translation, then y from the x
    result, then z from both; all three share the sentinel `2 * weightMax`
    taken before the first move, and the rotation is untouched.
   */
  function TranslationScan(img: Images, p: Pose, iMax: int, jMax: int, kMax: int,
                           iStep: real, jStep: real, kStep: real): (q: Pose)
    ensures q.turns == p.turns
    ensures Tick(img, q) <= Tick(img, p)
    ensures iMax <= 0 ==> q.t.x == p.t.x
    ensures jMax <= 0 ==> q.t.y == p.t.y
    ensures kMax <= 0 ==> q.t.z == p.t.z
  {
    var sentinel := 2 * Weight(img, p);
    var di := BestOffset(img, p, X, iMax, iStep, sentinel);
    var p1 := p.Shifted(X, di);
    var dj := BestOffset(img, p1, Y, jMax, jStep, sentinel);
    var p2 := p1.Shifted(Y, dj);
    var dk := BestOffset(img, p2, Z, kMax, kStep, sentinel);
    BestOffsetNeverWorse(img, p, X, iMax, iStep, sentinel);
    BestOffsetNeverWorse(img, p1, Y, jMax, jStep, sentinel);
    BestOffsetNeverWorse(img, p2, Z, kMax, kStep, sentinel);
    p2.Shifted(Z, dk)
  }

  /**
    A translation scan ends at the captured translation plus the three
    retained offsets, each scan starting from where the previous one settled.
   */
  lemma TranslationScanOffsets(img: Images, p: Pose, iMax: int, jMax: int, kMax: int,
                               iStep: real, jStep: real, kStep: real, di: real, dj: real, dk: real)
    requires di == BestOffset(img, p, X, iMax, iStep, 2 * Weight(img, p))
    requires dj == BestOffset(img, Pose(Vec3(p.t.x + di, p.t.y, p.t.z), p.turns), Y, jMax, jStep, 2 * Weight(img, p))
    requires dk == BestOffset(img, Pose(Vec3(p.t.x + di, p.t.y + dj, p.t.z), p.turns), Z, kMax, kStep, 2 * Weight(img, p))
    ensures TranslationScan(img, p, iMax, jMax, kMax, iStep, jStep, kStep)
            == Pose(Vec3(di + p.t.x, dj + p.t.y, dk + p.t.z), p.turns)
  {
    assert p.Shifted(X, di) == Pose(Vec3(p.t.x + di, p.t.y, p.t.z), p.turns);
    assert p.Shifted(X, di).Shifted(Y, dj) == Pose(Vec3(p.t.x + di, p.t.y + dj, p.t.z), p.turns);
  }
}
