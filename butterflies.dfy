/**
 * The Butterflies object of js/butterflies.js: the per-agent geometry built
 * once by the constructor, and the uniforms (simulation time, step length and
 * flying bounds) that setBounds and tick update in place.
 */
module Swarm {
  import opened ButterflyGeometry
  import opened SwarmKernels

  /** The side of the square compute textures, and the default flock side. */
  const ComputeTexWidth: nat := 32

  /** The time uniform after a run of ticks: the sum of their steps. */
  function Elapsed(steps: seq<real>): (t: real)
    ensures (forall i :: 0 <= i < |steps| ==> steps[i] >= 0.0) ==> t >= 0.0
  {
    if steps == [] then 0.0 else Elapsed(steps[..|steps| - 1]) + steps[|steps| - 1]
  }

  /** The step uniform after a run of ticks: the last step, 0 before the first. */
  function LastStep(steps: seq<real>): (dt: real)
    ensures steps == [] ==> dt == 0.0
    ensures steps != [] ==> dt in steps
  {
    if steps == [] then 0.0 else steps[|steps| - 1]
  }

  lemma {:induction false} ElapsedOfAppend(steps: seq<real>, more: seq<real>)
    ensures Elapsed(steps + more) == Elapsed(steps) + Elapsed(more)
    decreases |more|
  {
    if more != [] {
      var init := more[..|more| - 1];
      assert (steps + more)[..|steps + more| - 1] == steps + init;
      ElapsedOfAppend(steps, init);
    } else {
      assert steps + more == steps;
    }
  }

  /** With no negative step the time uniform never goes back. */
  lemma {:induction false} ElapsedMonotone(steps: seq<real>, n: nat)
    requires n <= |steps|
    requires forall i :: 0 <= i < |steps| ==> steps[i] >= 0.0
    ensures Elapsed(steps[..n]) <= Elapsed(steps)
    decreases |steps|
  {
    if n < |steps| {
      var init := steps[..|steps| - 1];
      assert init[..n] == steps[..n];
      ElapsedMonotone(init, n);
    } else {
      assert steps[..n] == steps;
    }
  }

  class Butterflies {
    /** The number of agents along each side of the grid. */
    const count: nat
    /** The geometry's four vertex attributes: position, vidx, uv and posn. */
    const vertices: seq<real>
    const vertIndices: seq<real>
    const uvs: seq<real>
    const posn: seq<real>

    /** The uniforms t, dt, boundsX and boundsZ. */
    var t: real
    var dt: real
    var boundsX: Interval
    var boundsZ: Interval

    /** The steps passed to tick so far. */
    ghost var steps: seq<real>

    /** The uniforms always record the ticks so far: t is their sum, dt the last one. */
    ghost predicate Valid()
      reads this
    {
      t == Elapsed(steps) && dt == LastStep(steps)
    }

    /** The bounds the velocity kernel reads. */
    function CurrentBounds(): Bounds
      reads this
    {
      Bounds(boundsX, boundsZ)
    }

    constructor (count: nat := ComputeTexWidth)
      ensures this.count == count
      ensures vertices == AttributeArray(Vertices, count)
      ensures vertIndices == AttributeArray(VertIndices, count)
      ensures uvs == AttributeArray(Uvs, count)
      ensures posn == AttributeArray(Posn, count)
      ensures t == 0.0 && dt == 0.0
      ensures CurrentBounds() == DefaultBounds
      ensures steps == [] && Valid()
    {
      this.count := count;
      var vs, vis, us, ps := BuildAttributes(count);
      vertices := vs;
      vertIndices := vis;
      uvs := us;
      posn := ps;
      t := 0.0;
      dt := 0.0;
      boundsX := Interval(-20.0, 20.0);
      boundsZ := Interval(-10.0, 10.0);
      steps := [];
    }

    /** setBounds: new x and z ranges; time and step are untouched. */
    method SetBounds(minX: real, maxX: real, minZ: real, maxZ: real)
      requires Valid()
      modifies this
      ensures boundsX == Interval(minX, maxX) && boundsZ == Interval(minZ, maxZ)
      ensures t == old(t) && dt == old(dt) && steps == old(steps)
      ensures Valid()
    {
      boundsX := Interval(minX, maxX);
      boundsZ := Interval(minZ, maxZ);
    }

    /**
     * tick: the time uniform advances by the step and the step uniform takes
     * it; the bounds are untouched. The compute pass that follows is
     * SwarmKernels.Step on every cell with these uniforms.
     */
    method Tick(delta: real)
      requires Valid()
      modifies this
      ensures t == old(t) + delta && dt == delta
      ensures boundsX == old(boundsX) && boundsZ == old(boundsZ)
      ensures steps == old(steps) + [delta]
      ensures Valid()
    {
      t := t + delta;
      dt := delta;
      steps := steps + [delta];
      assert steps[..|steps| - 1] == old(steps);
    }
  }
}
