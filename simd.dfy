/**
 * `SimulationNBodySIMD`: the single-threaded vector variant. Full policy:
 * for every body `iBody`, `jBody` advances over all bodies in strides of the
 * lane width, a scalar loop finishes the remainder, and the result is
 * assigned (not added) to `accelerations[iBody]`.
 */
module Simd {
  import opened Physics
  import opened Mipp
  import opened LaneKernel

  class SimulationNBodySIMD {
    /** The body store; only the integrator changes it. */
    var bodies: seq<Body>
    /** The acceleration buffer, one entry per body. */
    const accelerations: array<Vec3>
    const law: Law
    const dt: real

    ghost predicate Valid()
      reads this
    {
      accelerations.Length == |bodies|
    }

    constructor (initial: seq<Body>, law: Law, dt: real)
      ensures Valid() && fresh(accelerations)
      ensures bodies == initial && this.law == law && this.dt == dt
      ensures accelerations[..] == Zeros(|initial|)
    {
      bodies := initial;
      this.law := law;
      this.dt := dt;
      accelerations := new Vec3[|initial|](_ => Zero);
    }

    /** Zeroes `accelerations[0..n)`; whatever was there before. */
    method InitIteration()
      requires Valid()
      modifies accelerations
      ensures accelerations[..] == Zeros(|bodies|)
    {
      var iBody := 0;
      while iBody < |bodies|
        invariant 0 <= iBody <= |bodies|
        invariant forall k :: 0 <= k < iBody ==> accelerations[k] == Zero
      {
        accelerations[iBody] := Zero;
        iBody := iBody + 1;
      }
    }

    /** Assigns every entry its full ordered-pair sum, independently of the
        buffer's previous content. */
    method ComputeBodiesAcceleration()
      requires Valid()
      modifies accelerations
      ensures accelerations[..] == FullAccelerations(law, bodies)
    {
      var d := ToSoA(bodies);
      var n := |bodies|;
      var iBody := 0;
      while iBody < n
        invariant 0 <= iBody <= n
        invariant forall k :: 0 <= k < iBody ==> accelerations[k] == SumAll(law, bodies, k, n)
      {
        var axi, ayi, azi, jBody := VectorStrides(law, bodies, d, iBody);
        axi, ayi, azi := ScalarTail(law, bodies, d, iBody, jBody, axi, ayi, azi);
        accelerations[iBody] := Vec3(axi, ayi, azi);
        iBody := iBody + 1;
      }
    }

    /** One step: reset, then accumulate, then integrate with the fresh
        accelerations. `advance` is the body store's integrator. */
    method ComputeOneIteration(advance: (Body, Vec3, real) -> Body)
      requires Valid()
      modifies this, accelerations
      ensures Valid()
      ensures accelerations[..] == FullAccelerations(law, old(bodies))
      ensures bodies == Integrate(old(bodies), accelerations[..], dt, advance)
    {
      InitIteration();
      ComputeBodiesAcceleration();
      bodies := Integrate(bodies, accelerations[..], dt, advance);
    }
  }
}
