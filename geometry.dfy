/**
  Rigid-transform parameters of the moving volume.

  The translation is a world-space 3-vector (the column (0,3),(1,3),(2,3) of the
  4x4 transform matrix). The rotational part is kept abstract: instead of the
  3x3 block that vtkTransform fills with trigonometry, an orientation is the
  word of single-axis rotations applied so far, most recent last. Rotations
  about the same axis that follow each other merge by adding their angles;
  rotations about different axes are kept apart, since they do not commute.
 */
module Geometry {

  datatype Axis = X | Y | Z

  datatype Vec3 = Vec3(x: real, y: real, z: real) {

    function Get(a: Axis): real {
      match a
      case X => x
      case Y => y
      case Z => z
    }

    /** The vector with coordinate `a` replaced by `v`. */
    function With(a: Axis, v: real): (r: Vec3)
      ensures r.Get(a) == v
      ensures forall b: Axis :: b != a ==> r.Get(b) == Get(b)
    {
      match a
      case X => Vec3(v, y, z)
      case Y => Vec3(x, v, z)
      case Z => Vec3(x, y, v)
    }

    function Plus(o: Vec3): Vec3 {
      Vec3(x + o.x, y + o.y, z + o.z)
    }

    function Minus(o: Vec3): Vec3 {
      Vec3(x - o.x, y - o.y, z - o.z)
    }
  }

  /** The distance (or angle) covered by `k` steps of size `step`; negative `k` goes backwards. */
  function Steps(k: int, step: real): real {
    k as real * step
  }

  /** Steps add up: `k` steps followed by `j` steps cover `k + j` steps. */
  lemma StepsAdd(k: int, j: int, step: real)
    ensures Steps(k, step) + Steps(j, step) == Steps(k + j, step)
  {
    var x, y := k as real, j as real;
    assert (x + y) * step == x * step + y * step;
  }

  /** One rotation by `degrees` about a coordinate axis. */
  datatype Rotation = Rotation(axis: Axis, degrees: real)

  /** A word of rotations: the identity, or a word followed by one more rotation. */
  datatype Word = Id | Then(init: Word, last: Rotation)

  /** A reduced word: no zero angle, no two neighbours on the same axis. */
  predicate Normal(o: Word) {
    match o
    case Id => true
    case Then(init, r) =>
      && r.degrees != 0.0
      && Normal(init)
      && (init.Then? ==> init.last.axis != r.axis)
  }

  /**
    The orientation `o` followed by a rotation of `d` degrees about axis `a`:
    merged into the last rotation when that is about `a` too (and dropped
    when the angles cancel), appended otherwise, and a zero angle is no rotation.
   */
  function Turn(o: Word, a: Axis, d: real): Word {
    if o.Then? && o.last.axis == a then
      var e := o.last.degrees + d;
      if e == 0.0 then o.init else Then(o.init, Rotation(a, e))
    else if d == 0.0 then o
    else Then(o, Rotation(a, d))
  }

  /** Turning keeps a word reduced. */
  lemma TurnNormal(o: Word, a: Axis, d: real)
    requires Normal(o)
    ensures Normal(Turn(o, a, d))
  {
  }

  /** A rotation by zero degrees changes nothing. */
  lemma TurnZero(o: Word, a: Axis)
    requires Normal(o)
    ensures Turn(o, a, 0.0) == o
  {
  }

  /** Two rotations about one axis compose into one rotation by the sum of the angles. */
  lemma TurnAdditive(o: Word, a: Axis, d1: real, d2: real)
    requires Normal(o)
    ensures Turn(Turn(o, a, d1), a, d2) == Turn(o, a, d1 + d2)
  {
  }

  /** Undoing a rotation about the same axis restores the orientation exactly. */
  lemma TurnInverse(o: Word, a: Axis, d: real)
    requires Normal(o)
    ensures Turn(Turn(o, a, d), a, -d) == o
  {
    var zero := d + -d;
    assert zero == 0.0;
    TurnAdditive(o, a, d, -d);
    TurnZero(o, a);
    assert Turn(o, a, zero) == o;
  }

  /** Transform parameters: the translation column and the orientation. */
  datatype Pose = Pose(t: Vec3, turns: Word) {

    /** This pose with coordinate `a` of the translation moved by `offset`. */
    function Shifted(a: Axis, offset: real): (q: Pose)
      ensures q.turns == turns && q.t.Get(a) == t.Get(a) + offset
      ensures forall b: Axis :: b != a ==> q.t.Get(b) == t.Get(b)
    {
      Pose(t.With(a, t.Get(a) + offset), turns)
    }

    /** Shifting along `a` gives the pose whose translation has coordinate `a` moved. */
    lemma ShiftedTranslation(a: Axis, offset: real)
      ensures Shifted(a, offset) == Pose(t.With(a, t.Get(a) + offset), turns)
    {
    }

    /**
      This pose rotated by `d` degrees about axis `a`, the centre being
      its own translation, which therefore does not move.
     */
    function Rotated(a: Axis, d: real): (q: Pose)
      ensures q.t == t
    {
      Pose(t, Turn(turns, a, d))
    }
  }
}
