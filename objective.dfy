/**
  The objective that the optimizer minimises and the scale it normalises by.

  Resampling the two volumes into the fixed volume's world grid is done by
  VTK and cannot be seen here, so it is abstracted: an `Images` value gives
  the fixed grid and, for every pose of the moving volume, the intensity of
  each voxel of the moving volume resampled onto that same grid. Both grids
  of one evaluation therefore always have the same number of voxels.
 */
module Objective {
  import opened Geometry

  function Sum(s: seq<int>): int {
    if s == [] then 0 else s[0] + Sum(s[1..])
  }

  function Abs(x: int): nat {
    if x < 0 then -x else x
  }

  /** Sum of the voxel-wise absolute intensity differences of two grids (`tick`). */
  function SumAbsDiff(a: seq<int>, b: seq<int>): nat
    requires |a| == |b|
  {
    if a == [] then 0 else Abs(a[0] - b[0]) + SumAbsDiff(a[1..], b[1..])
  }

  /** The mismatch is zero exactly when the two grids agree voxel for voxel. */
  lemma {:induction false} SumAbsDiffZeroIff(a: seq<int>, b: seq<int>)
    requires |a| == |b|
    ensures SumAbsDiff(a, b) == 0 <==> a == b
  {
    if a != [] {
      SumAbsDiffZeroIff(a[1..], b[1..]);
      assert a == [a[0]] + a[1..] && b == [b[0]] + b[1..];
    }
  }

  /** The larger of the two grids' total intensities (`weightMax`). */
  function WeightMax(a: seq<int>, b: seq<int>): (r: int)
    ensures r >= Sum(a) && r >= Sum(b)
    ensures r == Sum(a) || r == Sum(b)
  {
    if Sum(a) >= Sum(b) then Sum(a) else Sum(b)
  }

  predicate NonNegative(s: seq<int>) {
    forall i :: 0 <= i < |s| ==> s[i] >= 0
  }

  /** For non-negative intensities the mismatch never exceeds the two totals together. */
  lemma {:induction false} SumAbsDiffBound(a: seq<int>, b: seq<int>)
    requires |a| == |b| && NonNegative(a) && NonNegative(b)
    ensures SumAbsDiff(a, b) <= Sum(a) + Sum(b)
  {
    if a != [] {
      assert NonNegative(a[1..]) && NonNegative(b[1..]) by {
        forall i | 0 <= i < |a| - 1 ensures a[1..][i] >= 0 && b[1..][i] >= 0 {
          assert a[1..][i] == a[i + 1] && b[1..][i] == b[i + 1];
        }
      }
      SumAbsDiffBound(a[1..], b[1..]);
    }
  }

  /**
    For non-negative intensities `2 * weightMax` bounds the mismatch, which is
    what makes it usable as the "worse than anything" start value of a scan.
   */
  lemma SentinelBound(a: seq<int>, b: seq<int>)
    requires |a| == |b| && NonNegative(a) && NonNegative(b)
    ensures SumAbsDiff(a, b) <= 2 * WeightMax(a, b)
  {
    SumAbsDiffBound(a, b);
  }

  /** With negative intensities (CT values, say) `2 * weightMax` can lie below the mismatch. */
  lemma SentinelCanFailForNegativeIntensities()
    ensures SumAbsDiff([-1], [-2]) > 2 * WeightMax([-1], [-2])
  {
    assert Sum([-1]) == -1;
    assert Sum([-2]) == -2;
    assert SumAbsDiff([-1], [-2]) == 1 by {
      assert SumAbsDiff([-1][1..], [-2][1..]) == 0;
    }
  }

  /**
    The source of voxel intensities: the fixed volume resampled onto its own
    world grid, and the moving volume resampled onto the same grid under a
    pose (`movingAt(p, i)` is voxel `i` of that grid).
   */
  datatype Images = Images(fixedGrid: seq<int>, movingAt: (Pose, nat) -> int)

  function Resampled(img: Images, p: Pose): (r: seq<int>)
    ensures |r| == |img.fixedGrid|
  {
    seq(|img.fixedGrid|, i requires 0 <= i => img.movingAt(p, i))
  }

  /** The objective score at pose `p` (`tick`). */
  function Tick(img: Images, p: Pose): nat {
    SumAbsDiff(Resampled(img, p), img.fixedGrid)
  }

  /** The score is zero exactly when the moving volume resampled at `p` equals the fixed one. */
  lemma TickZeroIffAligned(img: Images, p: Pose)
    ensures Tick(img, p) == 0 <==> Resampled(img, p) == img.fixedGrid
  {
    SumAbsDiffZeroIff(Resampled(img, p), img.fixedGrid);
  }

  /** The normalising scale at pose `p` (`weightMax`). */
  function Weight(img: Images, p: Pose): int {
    WeightMax(Resampled(img, p), img.fixedGrid)
  }

  /** The scale is the larger of the two volumes' total intensities. */
  lemma WeightIsLargerTotal(img: Images, p: Pose)
    ensures Weight(img, p) >= Sum(img.fixedGrid) && Weight(img, p) >= Sum(Resampled(img, p))
    ensures Weight(img, p) == Sum(img.fixedGrid) || Weight(img, p) == Sum(Resampled(img, p))
  {
  }

  /** Every voxel of either volume, at every pose, has a non-negative intensity. */
  ghost predicate NonNegativeImages(img: Images) {
    && NonNegative(img.fixedGrid)
    && forall p: Pose, i: nat :: img.movingAt(p, i) >= 0
  }

  lemma TickWithinSentinel(img: Images, p: Pose)
    requires NonNegativeImages(img)
    ensures Tick(img, p) <= 2 * Weight(img, p)
  {
    SentinelBound(Resampled(img, p), img.fixedGrid);
  }
}
