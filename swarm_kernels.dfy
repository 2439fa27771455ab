/**
 * The two per-cell GPU kernels of the butterfly swarm (js/butterflies.js):
 * the velocity kernel nudges a butterfly back towards the flying box and caps
 * its speed at 1, the position kernel moves it along its velocity. Both kernels
 * read the previous step's position and velocity of the same cell only.
 * GLSL floats are exact reals; vector length is an argument `len` that the
 * caller supplies together with the fact len * len == |v|² (no square root).
 */
module SwarmKernels {
  import opened Vectors

  /** A GLSL vec2 used as a closed range: x is the lower, y the upper bound. */
  datatype Interval = Interval(min: real, max: real)

  /** The boundsX and boundsZ uniforms; the y range is fixed in the kernel. */
  datatype Bounds = Bounds(boundsX: Interval, boundsZ: Interval)

  /** The bounds the uniforms start with. */
  const DefaultBounds: Bounds := Bounds(Interval(-20.0, 20.0), Interval(-10.0, 10.0))

  const FloorY: real := 0.0
  const CeilingY: real := 10.0

  /** Positions advance by velocity * dt * Speed. */
  const Speed: real := 15.0

  predicate Inside(p: Vec3, b: Bounds) {
    b.boundsX.min <= p.x <= b.boundsX.max
    && FloorY <= p.y <= CeilingY
    && b.boundsZ.min <= p.z <= b.boundsZ.max
  }

  /** The x pair of the boundary rule. */
  function NudgeX(p: Vec3, v: Vec3, b: Bounds): (r: Vec3)
    ensures r == v <==> b.boundsX.min <= p.x <= b.boundsX.max
    ensures p.x < b.boundsX.min ==> r.x > v.x
    ensures b.boundsX.min <= p.x && p.x > b.boundsX.max ==> r.x < v.x
  {
    if p.x < b.boundsX.min then Vec3(v.x + 0.05, v.y + 0.01, v.z)
    else if p.x > b.boundsX.max then Vec3(v.x - 0.05, v.y, v.z - 0.01)
    else v
  }

  /** The y pair of the boundary rule, against the fixed floor and ceiling. */
  function NudgeY(p: Vec3, v: Vec3): (r: Vec3)
    ensures r == v <==> FloorY <= p.y <= CeilingY
    ensures p.y < FloorY ==> r.y > v.y
    ensures p.y > CeilingY ==> r.y < v.y
  {
    if p.y < FloorY then Vec3(v.x, v.y + 0.01, v.z + 0.01)
    else if p.y > CeilingY then Vec3(v.x - 0.01, v.y - 0.01, v.z)
    else v
  }

  /** The z pair of the boundary rule. */
  function NudgeZ(p: Vec3, v: Vec3, b: Bounds): (r: Vec3)
    ensures r == v <==> b.boundsZ.min <= p.z <= b.boundsZ.max
    ensures p.z < b.boundsZ.min ==> r.z > v.z
    ensures b.boundsZ.min <= p.z && p.z > b.boundsZ.max ==> r.z < v.z
  {
    if p.z < b.boundsZ.min then Vec3(v.x + 0.01, v.y, v.z + 0.05)
    else if p.z > b.boundsZ.max then Vec3(v.x, v.y - 0.01, v.z - 0.05)
    else v
  }

  /**
   * The boundary rule of the velocity kernel: the three if / else-if pairs in
   * order, each adding to the velocity left by the pairs before it.
   */
  function Nudge(p: Vec3, v: Vec3, b: Bounds): (r: Vec3)
    ensures Inside(p, b) ==> r == v
  {
    NudgeZ(p, NudgeY(p, NudgeX(p, v, b)), b)
  }

  /*
   * The same rule read per component: what each face adds to x, to y and to z.
   * A face pushes along its own axis by 0.05 (x and z) or 0.01 (y), and
   * sideways by 0.01.
   */

  function DeltaX(p: Vec3, b: Bounds): real {
    (if p.x < b.boundsX.min then 0.05 else if p.x > b.boundsX.max then -0.05 else 0.0)
    + (if p.y < FloorY then 0.0 else if p.y > CeilingY then -0.01 else 0.0)
    + (if p.z < b.boundsZ.min then 0.01 else 0.0)
  }

  function DeltaY(p: Vec3, b: Bounds): real {
    (if p.x < b.boundsX.min then 0.01 else 0.0)
    + (if p.y < FloorY then 0.01 else if p.y > CeilingY then -0.01 else 0.0)
    + (if p.z < b.boundsZ.min then 0.0 else if p.z > b.boundsZ.max then -0.01 else 0.0)
  }

  function DeltaZ(p: Vec3, b: Bounds): real {
    (if p.x < b.boundsX.min then 0.0 else if p.x > b.boundsX.max then -0.01 else 0.0)
    + (if p.y < FloorY then 0.01 else 0.0)
    + (if p.z < b.boundsZ.min then 0.05 else if p.z > b.boundsZ.max then -0.05 else 0.0)
  }

  /** The three pairs act independently: the velocity gains the per-component table. */
  lemma NudgeByComponent(p: Vec3, v: Vec3, b: Bounds)
    ensures Nudge(p, v, b) == Vec3(v.x + DeltaX(p, b), v.y + DeltaY(p, b), v.z + DeltaZ(p, b))
  {
  }

  /** The table adds nothing exactly inside the box. */
  lemma DeltasZeroIffInside(p: Vec3, b: Bounds)
    ensures DeltaX(p, b) == 0.0 && DeltaY(p, b) == 0.0 && DeltaZ(p, b) == 0.0 <==> Inside(p, b)
  {
  }

  /** The velocity is left alone exactly when the butterfly is inside the box. */
  lemma NudgeFixedIffInside(p: Vec3, v: Vec3, b: Bounds)
    ensures Nudge(p, v, b) == v <==> Inside(p, b)
  {
    NudgeByComponent(p, v, b);
    DeltasZeroIffInside(p, b);
  }

  /** Outside an x or z face the nudge always points back across that face. */
  lemma NudgeRepelsSideFaces(p: Vec3, v: Vec3, b: Bounds)
    ensures p.x < b.boundsX.min ==> Nudge(p, v, b).x > v.x
    ensures p.x > b.boundsX.max && b.boundsX.min <= p.x ==> Nudge(p, v, b).x < v.x
    ensures p.z < b.boundsZ.min ==> Nudge(p, v, b).z > v.z
    ensures p.z > b.boundsZ.max && b.boundsZ.min <= p.z ==> Nudge(p, v, b).z < v.z
  {
    NudgeByComponent(p, v, b);
  }

  /**
   * Under the floor or over the ceiling the vertical nudge never points the
   * wrong way; it points back strictly unless a side face's nudge cancels it.
   */
  lemma NudgeRepelsFloorAndCeiling(p: Vec3, v: Vec3, b: Bounds)
    ensures p.y < FloorY ==> Nudge(p, v, b).y >= v.y
    ensures p.y < FloorY && !(b.boundsZ.min <= p.z && p.z > b.boundsZ.max) ==> Nudge(p, v, b).y > v.y
    ensures p.y > CeilingY ==> Nudge(p, v, b).y <= v.y
    ensures p.y > CeilingY && !(p.x < b.boundsX.min) ==> Nudge(p, v, b).y < v.y
  {
    NudgeByComponent(p, v, b);
  }

  /**
   * Under the floor, the vertical speed is kept exactly when the far z face
   * takes back what the floor adds and the near x face adds nothing; the
   * point (0, -1, 11) with the default bounds is such a case.
   */
  lemma FloorNudgeCancelled(p: Vec3, v: Vec3, b: Bounds)
    requires p.y < FloorY
    ensures Nudge(p, v, b).y == v.y
        <==> !(p.x < b.boundsX.min) && !(p.z < b.boundsZ.min) && p.z > b.boundsZ.max
    ensures var q := Vec3(0.0, -1.0, 11.0);
            Nudge(q, v, DefaultBounds).y == v.y && !Inside(q, DefaultBounds)
  {
    NudgeByComponent(p, v, b);
    NudgeByComponent(Vec3(0.0, -1.0, 11.0), v, DefaultBounds);
  }

  predicate IsLength(len: real, v: Vec3) {
    len >= 0.0 && len * len == Norm2(v)
  }

  lemma LengthAtMostOne(len: real, v: Vec3)
    requires IsLength(len, v)
    ensures len <= 1.0 <==> Norm2(v) <= 1.0
  {
    if len > 1.0 {
      assert len * len > 1.0 * len;
    }
  }

  /**
   * The speed cap: a velocity longer than 1 is divided by its length. The
   * result is never longer than 1, a velocity of length at most 1 is kept,
   * and a longer one becomes a unit vector in the same direction.
   */
  function Clamp(v: Vec3, len: real): (r: Vec3)
    requires IsLength(len, v)
    ensures Norm2(r) <= 1.0
    ensures Norm2(v) <= 1.0 ==> r == v
    ensures Norm2(v) > 1.0 ==> Norm2(r) == 1.0 && Scale(r, len) == v
  {
    LengthAtMostOne(len, v);
    if len > 1.0 then
      var r := Scale(v, 1.0 / len);
      Norm2Scale(v, 1.0 / len);
      assert (1.0 / len) * (1.0 / len) * (len * len) == 1.0;
      assert Scale(r, len) == v by {
        assert v.x * (1.0 / len) * len == v.x;
        assert v.y * (1.0 / len) * len == v.y;
        assert v.z * (1.0 / len) * len == v.z;
      }
      r
    else
      v
  }

  /** The velocity kernel: the boundary nudges, then the speed cap. */
  function VelocityKernel(p: Vec3, v: Vec3, b: Bounds, len: real): (r: Vec3)
    requires IsLength(len, Nudge(p, v, b))
    ensures Norm2(r) <= 1.0
  {
    Clamp(Nudge(p, v, b), len)
  }

  /** Inside the box a velocity of length at most 1 passes through unchanged. */
  lemma VelocityUnchangedInside(p: Vec3, v: Vec3, b: Bounds, len: real)
    requires IsLength(len, Nudge(p, v, b))
    requires Inside(p, b) && Norm2(v) <= 1.0
    ensures VelocityKernel(p, v, b, len) == v
  {
    NudgeFixedIffInside(p, v, b);
  }

  /** A nudged velocity longer than 1 keeps its direction and is cut to length 1. */
  lemma VelocityCappedKeepsDirection(p: Vec3, v: Vec3, b: Bounds, len: real)
    requires IsLength(len, Nudge(p, v, b))
    requires Norm2(Nudge(p, v, b)) > 1.0
    ensures Norm2(VelocityKernel(p, v, b, len)) == 1.0
    ensures Scale(VelocityKernel(p, v, b, len), len) == Nudge(p, v, b)
  {
  }

  /** The position kernel: move along the previous velocity for dt * Speed. */
  function PositionKernel(p: Vec3, v: Vec3, dt: real): (r: Vec3)
    ensures Norm2(Sub(r, p)) == (dt * Speed) * (dt * Speed) * Norm2(v)
  {
    var r := Add(p, Scale(v, dt * Speed));
    assert Sub(r, p) == Scale(v, dt * Speed);
    Norm2Scale(v, dt * Speed);
    r
  }

  /** A step of at most unit velocity moves the butterfly at most dt * Speed. */
  lemma DisplacementBounded(p: Vec3, v: Vec3, dt: real)
    requires Norm2(v) <= 1.0
    ensures Norm2(Sub(PositionKernel(p, v, dt), p)) <= (dt * Speed) * (dt * Speed)
  {
    var k := (dt * Speed) * (dt * Speed);
    assert k >= 0.0;
    assert k * Norm2(v) <= k * 1.0;
  }

  /** One texel of the two simulation textures. */
  datatype Cell = Cell(position: Vec3, velocity: Vec3)

  /**
   * One compute pass over a cell: both kernels read the cell as it was
   * before the pass, so the position moves along the old velocity.
   */
  function Step(c: Cell, b: Bounds, dt: real, len: real): (r: Cell)
    requires IsLength(len, Nudge(c.position, c.velocity, b))
    ensures r.position == PositionKernel(c.position, c.velocity, dt)
    ensures Norm2(r.velocity) <= 1.0
  {
    Cell(PositionKernel(c.position, c.velocity, dt), VelocityKernel(c.position, c.velocity, b, len))
  }

  /** Whether lens holds the length of every cell's nudged velocity. */
  predicate LengthsOf(cells: seq<Cell>, b: Bounds, lens: seq<real>) {
    |lens| == |cells|
    && forall i :: 0 <= i < |cells| ==> IsLength(lens[i], Nudge(cells[i].position, cells[i].velocity, b))
  }

  /**
   * One compute pass over the whole texture: every cell takes one step, with
   * the same uniforms, from the grid as it was before the pass.
   */
  function Pass(cells: seq<Cell>, b: Bounds, dt: real, lens: seq<real>): (r: seq<Cell>)
    requires LengthsOf(cells, b, lens)
    ensures |r| == |cells|
    ensures forall i :: 0 <= i < |cells| ==>
      r[i].position == PositionKernel(cells[i].position, cells[i].velocity, dt) && Norm2(r[i].velocity) <= 1.0
  {
    seq(|cells|, i requires 0 <= i < |cells| => Step(cells[i], b, dt, lens[i]))
  }

  /** A cell's next state depends on that cell alone: the kernels never read a neighbour. */
  lemma PassIsLocal(cells: seq<Cell>, cells': seq<Cell>, b: Bounds, dt: real, lens: seq<real>, lens': seq<real>, i: nat)
    requires LengthsOf(cells, b, lens) && LengthsOf(cells', b, lens')
    requires i < |cells| && i < |cells'| && cells[i] == cells'[i] && lens[i] == lens'[i]
    ensures Pass(cells, b, dt, lens)[i] == Pass(cells', b, dt, lens')[i]
  {
  }

  /** Where a cell moves does not depend on the bounds nor on the new velocity. */
  lemma StepPositionIgnoresBounds(c: Cell, b: Bounds, b': Bounds, dt: real, len: real, len': real)
    requires IsLength(len, Nudge(c.position, c.velocity, b))
    requires IsLength(len', Nudge(c.position, c.velocity, b'))
    ensures Step(c, b, dt, len).position == Step(c, b', dt, len').position
  {
  }

  /** After any first step, every later step moves a butterfly at most dt * Speed. */
  lemma SecondStepDisplacementBounded(c: Cell, b: Bounds, dt: real, len: real, dt': real, len': real)
    requires IsLength(len, Nudge(c.position, c.velocity, b))
    requires IsLength(len', Nudge(Step(c, b, dt, len).position, Step(c, b, dt, len).velocity, b))
    ensures var c' := Step(c, b, dt, len);
            Norm2(Sub(Step(c', b, dt', len').position, c'.position)) <= (dt' * Speed) * (dt' * Speed)
  {
    var c' := Step(c, b, dt, len);
    DisplacementBounded(c'.position, c'.velocity, dt');
  }

  /**
   * A resting butterfly beyond the +x face with the default bounds: the
   * velocity gets the +x face nudge only, and the position does not move.
   */
  lemma RestingBeyondXFace(dt: real, len: real)
    requires IsLength(len, Nudge(Vec3(25.0, 5.0, 0.0), Zero, DefaultBounds))
    ensures var r := Step(Cell(Vec3(25.0, 5.0, 0.0), Zero), DefaultBounds, dt, len);
            r.velocity == Vec3(-0.05, 0.0, -0.01) && r.position == Vec3(25.0, 5.0, 0.0)
  {
    assert Nudge(Vec3(25.0, 5.0, 0.0), Zero, DefaultBounds) == Vec3(-0.05, 0.0, -0.01);
    assert Norm2(Vec3(-0.05, 0.0, -0.01)) <= 1.0;
  }
}
