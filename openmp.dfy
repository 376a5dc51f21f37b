/**
 * `SimulationNBodyOpenMP.cpp` of the `murb-se` tree, whose class is also
 * named `SimulationNBodyOptim`: the symmetric kernel over the
 * structure-of-arrays view. Row `iBody` loads body `iBody` once, gathers its
 * own acceleration in the locals `axi, ayi, azi`, subtracts `aj * rij` from
 * `accelerations[jBody]` at every visit, and adds the locals to
 * `accelerations[iBody]` after the row. The file holds no OpenMP directive:
 * the loops run one after the other.
 */
module OpenMP {
  import opened Physics
  import opened Interaction
  import opened Symmetric

  class SimulationNBodyOptim {
    /** The body store; only the integrator changes it. */
    var bodies: seq<Body>
    /** The acceleration buffer, one entry per body. */
    const accelerations: array<Vec3>
    const law: Law
    const dt: real

    ghost predicate Valid()
      reads this
    {
      accelerations.Length == |bodies|
    }

    constructor (initial: seq<Body>, law: Law, dt: real)
      ensures Valid() && fresh(accelerations)
      ensures bodies == initial && this.law == law && this.dt == dt
      ensures accelerations[..] == Zeros(|initial|)
    {
      bodies := initial;
      this.law := law;
      this.dt := dt;
      accelerations := new Vec3[|initial|](_ => Zero);
    }

    /** Zeroes `accelerations[0..n)`; whatever was there before. */
    method InitIteration()
      requires Valid()
      modifies accelerations
      ensures accelerations[..] == Zeros(|bodies|)
    {
      var iBody := 0;
      while iBody < |bodies|
        invariant 0 <= iBody <= |bodies|
        invariant forall k :: 0 <= k < iBody ==> accelerations[k] == Zero
      {
        accelerations[iBody] := Zero;
        iBody := iBody + 1;
      }
    }

    /** One visit of the pair `(iBody, jBody)` with body `iBody` already
        loaded: one shared inverse cube, `ai * rij` added to the row's locals,
        then `aj * rij` subtracted from entry `jBody`, which adds the pull of
        `iBody` to it. */
    method VisitPair(d: DataSoA, iBody: nat, jBody: nat,
                     qx_i: real, qy_i: real, qz_i: real, m_i: real, softSquared: real,
                     axi: real, ayi: real, azi: real)
      returns (axi': real, ayi': real, azi': real)
      requires Valid() && IsSoA(d, bodies) && iBody < jBody < |bodies|
      requires Vec3(qx_i, qy_i, qz_i) == bodies[iBody].q && m_i == bodies[iBody].m
      requires softSquared == SoftSquared(law)
      modifies accelerations
      ensures Vec3(axi', ayi', azi') == Add(Vec3(axi, ayi, azi), Pull(law, bodies, iBody, jBody))
      ensures accelerations[jBody] == Add(old(accelerations[jBody]), Pull(law, bodies, jBody, iBody))
      ensures forall k :: 0 <= k < accelerations.Length && k != jBody ==>
                accelerations[k] == old(accelerations[k])
    {
      var aix, aiy, aiz, ajx, ajy, ajz :=
        MutualPull(law, bodies, iBody, jBody, qx_i, qy_i, qz_i,
                   d.qx[jBody], d.qy[jBody], d.qz[jBody], m_i, d.m[jBody], softSquared, law.G);
      axi', ayi', azi' := axi + aix, ayi + aiy, azi + aiz;
      var acc_j := accelerations[jBody];
      accelerations[jBody] := Vec3(acc_j.x - ajx, acc_j.y - ajy, acc_j.z - ajz);
    }

    /** Row `iBody`: the inner loop, then the store of the locals. Every
        entry receives what the row adds to it. */
    method AccumulateRow(d: DataSoA, iBody: nat, n: nat, softSquared: real)
      requires Valid() && IsSoA(d, bodies) && iBody < n == |bodies| && softSquared == SoftSquared(law)
      modifies accelerations
      ensures forall k :: 0 <= k < |bodies| ==>
                accelerations[k] == Add(old(accelerations[k]), RowEffect(law, bodies, k, iBody))
    {
      var qx_i, qy_i, qz_i, m_i := d.qx[iBody], d.qy[iBody], d.qz[iBody], d.m[iBody];
      var axi, ayi, azi := 0.0, 0.0, 0.0;
      var jBody: nat := iBody + 1;
      while jBody < n
        invariant iBody < jBody <= n
        invariant Vec3(axi, ayi, azi) == SumFrom(law, bodies, iBody, iBody + 1, jBody)
        invariant accelerations[iBody] == old(accelerations[iBody])
        invariant forall k :: 0 <= k < |bodies| && k != iBody ==>
                    accelerations[k] == Add(old(accelerations[k]), RowSoFar(law, bodies, k, iBody, jBody))
      {
        axi, ayi, azi := VisitPair(d, iBody, jBody, qx_i, qy_i, qz_i, m_i, softSquared, axi, ayi, azi);
        forall k | 0 <= k < |bodies| && k != iBody {
          RowSoFarStep(law, bodies, k, iBody, jBody);
        }
        jBody := jBody + 1;
      }
      var acc_i := accelerations[iBody];
      accelerations[iBody] := Vec3(acc_i.x + axi, acc_i.y + ayi, acc_i.z + azi);
    }

    /** Adds to every entry the pull of every other body: after row
        `iBody`, every entry holds what the pairs of the first `iBody + 1`
        rows of the triangular schedule contribute to it. */
    method ComputeBodiesAcceleration()
      requires Valid()
      modifies accelerations
      ensures forall k :: 0 <= k < |bodies| ==>
                accelerations[k] == Add(old(accelerations[k]), Accel(law, bodies, k))
    {
      var d := ToSoA(bodies);
      var n := |bodies|;
      var softSquared := SoftSquared(law);
      var iBody := 0;
      while iBody < n
        invariant iBody <= n
        invariant forall k :: 0 <= k < n ==>
                    accelerations[k] == Add(old(accelerations[k]), Partial(law, bodies, k, iBody))
      {
        AccumulateRow(d, iBody, n, softSquared);
        forall k | 0 <= k < n {
          PartialStep(law, bodies, k, iBody);
        }
        iBody := iBody + 1;
      }
      forall k | 0 <= k < n {
        PartialComplete(law, bodies, k);
      }
    }

    /** One step: reset, then accumulate, then integrate with the fresh
        accelerations. `advance` is the body store's integrator. */
    method ComputeOneIteration(advance: (Body, Vec3, real) -> Body)
      requires Valid()
      modifies this, accelerations
      ensures Valid()
      ensures accelerations[..] == Accelerations(law, old(bodies))
      ensures bodies == Integrate(old(bodies), accelerations[..], dt, advance)
    {
      InitIteration();
      ComputeBodiesAcceleration();
      bodies := Integrate(bodies, accelerations[..], dt, advance);
    }
  }
}
