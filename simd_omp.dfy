/**
 * `SimulationNBodySIMD_OMP`: the vector variant with the outer loop shared
 * among OpenMP threads (`#pragma omp for schedule(runtime)`). Each iteration
 * `iBody` reads only the body store and writes only `accelerations[iBody]`,
 * so the iterations are independent. The runtime schedule is modelled as the
 * order in which the iterations run, one after the other; whatever that
 * order, as long as it reaches every body, the buffer ends up the same.
 */
module SimdOmp {
  import opened Physics
  import opened Mipp
  import opened LaneKernel

  class SimulationNBodySIMD_OMP {
    /** The body store; only the integrator changes it. */
    var bodies: seq<Body>
    /** The acceleration buffer, one entry per body. */
    const accelerations: array<Vec3>
    const law: Law
    const dt: real

    ghost predicate Valid()
      reads this
    {
      accelerations.Length == |bodies|
    }

    constructor (initial: seq<Body>, law: Law, dt: real)
      ensures Valid() && fresh(accelerations)
      ensures bodies == initial && this.law == law && this.dt == dt
      ensures accelerations[..] == Zeros(|initial|)
    {
      bodies := initial;
      this.law := law;
      this.dt := dt;
      accelerations := new Vec3[|initial|](_ => Zero);
    }

    /** Zeroes `accelerations[0..n)`; whatever was there before. */
    method InitIteration()
      requires Valid()
      modifies accelerations
      ensures accelerations[..] == Zeros(|bodies|)
    {
      var iBody := 0;
      while iBody < |bodies|
        invariant 0 <= iBody <= |bodies|
        invariant forall k :: 0 <= k < iBody ==> accelerations[k] == Zero
      {
        accelerations[iBody] := Zero;
        iBody := iBody + 1;
      }
    }

    /** One iteration of the shared loop: the vector strides, the reduction
        and the scalar tail for body `iBody`, stored into its own entry and
        no other. */
    method ComputeRow(d: DataSoA, iBody: nat)
      requires Valid() && IsSoA(d, bodies) && iBody < |bodies|
      modifies accelerations
      ensures accelerations[iBody] == SumAll(law, bodies, iBody, |bodies|)
      ensures forall k :: 0 <= k < accelerations.Length && k != iBody ==>
                accelerations[k] == old(accelerations[k])
    {
      var axi, ayi, azi, jBody := VectorStrides(law, bodies, d, iBody);
      axi, ayi, azi := ScalarTail(law, bodies, d, iBody, jBody, axi, ayi, azi);
      accelerations[iBody] := Vec3(axi, ayi, azi);
    }

    /** The shared loop, its iterations run in the order `order` the
        scheduler picks: any order that reaches every body assigns every
        entry its full ordered-pair sum, independently of the buffer's
        previous content. */
    method ComputeBodiesAcceleration(order: seq<nat>)
      requires Valid()
      requires forall t :: 0 <= t < |order| ==> order[t] < |bodies|
      requires forall k :: 0 <= k < |bodies| ==> k in order
      modifies accelerations
      ensures accelerations[..] == FullAccelerations(law, bodies)
    {
      var d := ToSoA(bodies);
      var t := 0;
      while t < |order|
        invariant t <= |order|
        invariant forall s :: 0 <= s < t ==>
                    accelerations[order[s]] == SumAll(law, bodies, order[s], |bodies|)
      {
        ComputeRow(d, order[t]);
        t := t + 1;
      }
      forall k | 0 <= k < |bodies|
        ensures accelerations[k] == SumAll(law, bodies, k, |bodies|)
      {
        assert k in order;
        var s :| 0 <= s < |order| && order[s] == k;
      }
    }

    /** One step: reset, then accumulate in the scheduler's order, then
        integrate with the fresh accelerations. `advance` is the body
        store's integrator. */
    method ComputeOneIteration(order: seq<nat>, advance: (Body, Vec3, real) -> Body)
      requires Valid()
      requires forall t :: 0 <= t < |order| ==> order[t] < |bodies|
      requires forall k :: 0 <= k < |bodies| ==> k in order
      modifies this, accelerations
      ensures Valid()
      ensures accelerations[..] == FullAccelerations(law, old(bodies))
      ensures bodies == Integrate(old(bodies), accelerations[..], dt, advance)
    {
      InitIteration();
      ComputeBodiesAcceleration(order);
      bodies := Integrate(bodies, accelerations[..], dt, advance);
    }
  }
}
