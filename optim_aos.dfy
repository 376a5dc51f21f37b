/**
 * `SimulationNBodyOptim` of the main tree: the symmetric variant over the
 * array-of-structures view of the body store. Row `iBody` visits the bodies
 * after it; each visit computes one shared inverse cube, adds `ai * rij` to
 * `accelerations[iBody]` and subtracts `aj * rij` from
 * `accelerations[jBody]`, both in place, so the result is added to whatever
 * the buffer held and the step must reset it first.
 */
module OptimAoS {
  import opened Physics
  import opened Interaction
  import opened Symmetric

  class SimulationNBodyOptim {
    /** The body store; only the integrator changes it. */
    var bodies: seq<Body>
    /** The acceleration buffer, one entry per body. */
    const accelerations: array<Vec3>
    const law: Law
    const dt: real

    ghost predicate Valid()
      reads this
    {
      accelerations.Length == |bodies|
    }

    constructor (initial: seq<Body>, law: Law, dt: real)
      ensures Valid() && fresh(accelerations)
      ensures bodies == initial && this.law == law && this.dt == dt
      ensures accelerations[..] == Zeros(|initial|)
    {
      bodies := initial;
      this.law := law;
      this.dt := dt;
      accelerations := new Vec3[|initial|](_ => Zero);
    }

    /** Zeroes `accelerations[0..n)`; whatever was there before. */
    method InitIteration()
      requires Valid()
      modifies accelerations
      ensures accelerations[..] == Zeros(|bodies|)
    {
      var iBody := 0;
      while iBody < |bodies|
        invariant 0 <= iBody <= |bodies|
        invariant forall k :: 0 <= k < iBody ==> accelerations[k] == Zero
      {
        accelerations[iBody] := Zero;
        iBody := iBody + 1;
      }
    }

    /** One visit of the pair `(iBody, jBody)`: one shared inverse cube,
        `ai * rij` added to entry `iBody` and `aj * rij` subtracted from entry
        `jBody`, that is, each body receives the pull of the other. */
    method VisitPair(iBody: nat, jBody: nat, softSquared: real)
      requires Valid() && iBody < jBody < |bodies| && softSquared == SoftSquared(law)
      modifies accelerations
      ensures accelerations[iBody] == Add(old(accelerations[iBody]), Pull(law, bodies, iBody, jBody))
      ensures accelerations[jBody] == Add(old(accelerations[jBody]), Pull(law, bodies, jBody, iBody))
      ensures forall k :: 0 <= k < accelerations.Length && k != iBody && k != jBody ==>
                accelerations[k] == old(accelerations[k])
    {
      var bi, bj := bodies[iBody], bodies[jBody];
      var aix, aiy, aiz, ajx, ajy, ajz :=
        MutualPull(law, bodies, iBody, jBody, bi.q.x, bi.q.y, bi.q.z, bj.q.x, bj.q.y, bj.q.z,
                   bi.m, bj.m, softSquared, law.G);
      var acc_i := accelerations[iBody];
      accelerations[iBody] := Vec3(acc_i.x + aix, acc_i.y + aiy, acc_i.z + aiz);
      var acc_j := accelerations[jBody];
      accelerations[jBody] := Vec3(acc_j.x - ajx, acc_j.y - ajy, acc_j.z - ajz);
    }

    /** The inner loop of row `iBody`: every entry receives what the row
        adds to it. */
    method AccumulateRow(iBody: nat, softSquared: real)
      requires Valid() && iBody < |bodies| && softSquared == SoftSquared(law)
      modifies accelerations
      ensures forall k :: 0 <= k < |bodies| ==>
                accelerations[k] == Add(old(accelerations[k]), RowEffect(law, bodies, k, iBody))
    {
      var jBody: nat := iBody + 1;
      while jBody < |bodies|
        invariant iBody < jBody <= |bodies|
        invariant forall k :: 0 <= k < |bodies| ==>
                    accelerations[k] == Add(old(accelerations[k]), RowSoFar(law, bodies, k, iBody, jBody))
      {
        VisitPair(iBody, jBody, softSquared);
        forall k | 0 <= k < |bodies| {
          RowSoFarStep(law, bodies, k, iBody, jBody);
        }
        jBody := jBody + 1;
      }
    }

    /** Adds to every entry the pull of every other body: after row
        `iBody`, every entry holds what the pairs of the first `iBody + 1`
        rows of the triangular schedule contribute to it. */
    method ComputeBodiesAcceleration()
      requires Valid()
      modifies accelerations
      ensures forall k :: 0 <= k < |bodies| ==>
                accelerations[k] == Add(old(accelerations[k]), Accel(law, bodies, k))
    {
      var softSquared := SoftSquared(law);  // squared with `pow` in this tree
      var iBody := 0;
      while iBody < |bodies|
        invariant iBody <= |bodies|
        invariant forall k :: 0 <= k < |bodies| ==>
                    accelerations[k] == Add(old(accelerations[k]), Partial(law, bodies, k, iBody))
      {
        AccumulateRow(iBody, softSquared);
        forall k | 0 <= k < |bodies| {
          PartialStep(law, bodies, k, iBody);
        }
        iBody := iBody + 1;
      }
      forall k | 0 <= k < |bodies| {
        PartialComplete(law, bodies, k);
      }
    }

    /** One step: reset, then accumulate, then integrate with the fresh
        accelerations. `advance` is the body store's integrator. */
    method ComputeOneIteration(advance: (Body, Vec3, real) -> Body)
      requires Valid()
      modifies this, accelerations
      ensures Valid()
      ensures accelerations[..] == Accelerations(law, old(bodies))
      ensures bodies == Integrate(old(bodies), accelerations[..], dt, advance)
    {
      InitIteration();
      ComputeBodiesAcceleration();
      bodies := Integrate(bodies, accelerations[..], dt, advance);
    }
  }
}
