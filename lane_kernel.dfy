/**
 * The inner loops shared by the two vector variants, over the
 * structure-of-arrays view `d` of the body store: for one body `iBody`, the
 * vector loop takes `W` bodies at a time while a whole stride fits, the
 * accumulators are reduced once, and a scalar loop finishes the remainder.
 */
module LaneKernel {
  import opened Physics
  import opened Mipp
  import opened Interaction

  /** The vector loop of one body `iBody` and its single horizontal
      reduction: `jBody` advances in strides of `W` while a whole stride
      fits, so it stops at the largest multiple of `W` not above `n`, fewer
      than `W` bodies are left over, and the reduced accumulators hold the
      row sum up to `jBody`. */
  method VectorStrides(law: Law, b: seq<Body>, d: DataSoA, iBody: nat)
    returns (axi: real, ayi: real, azi: real, jBody: nat)
    requires IsSoA(d, b) && iBody < |b|
    ensures jBody % W == 0 && jBody <= |b| < jBody + W
    ensures Vec3(axi, ayi, azi) == SumAll(law, b, iBody, jBody)
  {
    var n := |b|;
    var axi_vec, ayi_vec, azi_vec := Splat(0.0), Splat(0.0), Splat(0.0);
    HaddSplatZero();

    jBody := 0;
    while jBody + W <= n
      invariant jBody <= n
      invariant Reduced(axi_vec, ayi_vec, azi_vec) == SumAll(law, b, iBody, jBody)
      invariant Aligned(jBody)
    {
      axi_vec, ayi_vec, azi_vec := AccumulateStride(law, b, d, iBody, jBody, axi_vec, ayi_vec, azi_vec);
      jBody := jBody + W;
    }
    AlignedIsMultiple(jBody);

    axi, ayi, azi := Hadd(axi_vec), Hadd(ayi_vec), Hadd(azi_vec);
  }

  /** The three accumulators after `hadd`, as one vector. */
  function Reduced(ax: Reg, ay: Reg, az: Reg): Vec3 {
    Vec3(Hadd(ax), Hadd(ay), Hadd(az))
  }

  /** One pass of the vector loop (`ai += ...` on the three accumulators):
      if the accumulators reduced to the row sum of `iBody` up to `jBody`,
      they reduce to the row sum up to `jBody + W` afterwards. */
  method AccumulateStride(law: Law, b: seq<Body>, d: DataSoA, iBody: nat, jBody: nat,
                          axi_vec: Reg, ayi_vec: Reg, azi_vec: Reg)
    returns (ax_next: Reg, ay_next: Reg, az_next: Reg)
    requires IsSoA(d, b) && iBody < |b| && jBody + W <= |b|
    requires Reduced(axi_vec, ayi_vec, azi_vec) == SumAll(law, b, iBody, jBody)
    ensures Reduced(ax_next, ay_next, az_next) == SumAll(law, b, iBody, jBody + W)
  {
    var ax_contrib, ay_contrib, az_contrib := StrideContributions(law, b, d, iBody, jBody);
    StrideStep(law, b, iBody, jBody, axi_vec, ayi_vec, azi_vec, ax_contrib, ay_contrib, az_contrib);
    ax_next := LaneAdd(axi_vec, ax_contrib);
    ay_next := LaneAdd(ayi_vec, ay_contrib);
    az_next := LaneAdd(azi_vec, az_contrib);
  }

  /** The arithmetic of one stride: lane `l` of the three results is the
      pull of body `jBody + l` on body `iBody`. */
  method StrideContributions(law: Law, b: seq<Body>, d: DataSoA, iBody: nat, jBody: nat)
    returns (ax_contrib: Reg, ay_contrib: Reg, az_contrib: Reg)
    requires IsSoA(d, b) && iBody < |b| && jBody + W <= |b|
    ensures forall l :: 0 <= l < W ==>
      Vec3(ax_contrib[l], ay_contrib[l], az_contrib[l]) == Pull(law, b, iBody, jBody + l)
  {
    var qx_j := LoadU(d.qx, jBody);
    var qy_j := LoadU(d.qy, jBody);
    var qz_j := LoadU(d.qz, jBody);
    var m_j := LoadU(d.m, jBody);

    var rijx := LaneSubScalar(qx_j, d.qx[iBody]);
    var rijy := LaneSubScalar(qy_j, d.qy[iBody]);
    var rijz := LaneSubScalar(qz_j, d.qz[iBody]);
    BodyLanes(b, d, iBody, jBody, qx_j, qy_j, qz_j, m_j, rijx, rijy, rijz);

    var rijSquared := LaneAdd(LaneAdd(LaneMul(rijx, rijx), LaneMul(rijy, rijy)), LaneMul(rijz, rijz));
    var distSq := LaneAddScalar(rijSquared, SoftSquared(law));
    DistLanes(rijx, rijy, rijz, rijSquared, SoftSquared(law), distSq);
    var invDistCube := LaneInvCube(law, distSq);

    var ai := LaneMulScalar(LaneMul(m_j, invDistCube), law.G);

    ax_contrib := LaneMul(ai, rijx);
    ay_contrib := LaneMul(ai, rijy);
    az_contrib := LaneMul(ai, rijz);
    ScaleLanes(m_j, invDistCube, law.G, ai, rijx, rijy, rijz, ax_contrib, ay_contrib, az_contrib);

    StrideLanes(law, b, iBody, jBody, m_j, rijx, rijy, rijz, distSq, invDistCube, ai,
                ax_contrib, ay_contrib, az_contrib);
  }

  /** The loaded lanes: lane `l` of `rij` is the separation of body `jBody + l`
      from body `iBody`, and lane `l` of `m_j` is its mass. */
  lemma BodyLanes(b: seq<Body>, d: DataSoA, iBody: nat, jBody: nat,
                  qx_j: Reg, qy_j: Reg, qz_j: Reg, m_j: Reg, rijx: Reg, rijy: Reg, rijz: Reg)
    requires IsSoA(d, b) && iBody < |b| && jBody + W <= |b|
    requires qx_j == LoadU(d.qx, jBody) && qy_j == LoadU(d.qy, jBody)
    requires qz_j == LoadU(d.qz, jBody) && m_j == LoadU(d.m, jBody)
    requires rijx == LaneSubScalar(qx_j, d.qx[iBody]) && rijy == LaneSubScalar(qy_j, d.qy[iBody])
    requires rijz == LaneSubScalar(qz_j, d.qz[iBody])
    ensures forall l :: 0 <= l < W ==>
      Vec3(rijx[l], rijy[l], rijz[l]) == Sub(b[jBody + l].q, b[iBody].q) && m_j[l] == b[jBody + l].m
  {
  }

  /** `rijSquared + softSquared`, lane by lane, is the softened squared distance. */
  lemma DistLanes(rijx: Reg, rijy: Reg, rijz: Reg, rijSquared: Reg, softSquared: real, distSq: Reg)
    requires rijSquared == LaneAdd(LaneAdd(LaneMul(rijx, rijx), LaneMul(rijy, rijy)), LaneMul(rijz, rijz))
    requires distSq == LaneAddScalar(rijSquared, softSquared)
    ensures forall l :: 0 <= l < W ==> distSq[l] == DistSq(Vec3(rijx[l], rijy[l], rijz[l]), softSquared)
  {
  }

  /** `ai = m_j * invDistCube * G` and the contributions `ai * rij`, lane by lane. */
  lemma ScaleLanes(m_j: Reg, invDistCube: Reg, G: real, ai: Reg,
                   rijx: Reg, rijy: Reg, rijz: Reg, cx: Reg, cy: Reg, cz: Reg)
    requires ai == LaneMulScalar(LaneMul(m_j, invDistCube), G)
    requires cx == LaneMul(ai, rijx) && cy == LaneMul(ai, rijy) && cz == LaneMul(ai, rijz)
    ensures forall l :: 0 <= l < W ==>
      ai[l] == (m_j[l] * invDistCube[l]) * G &&
      Vec3(cx[l], cy[l], cz[l]) == Scale(ai[l], Vec3(rijx[l], rijy[l], rijz[l]))
  {
  }

  /** Every lane of a stride: if the registers hold, lane by lane, what the
      kernel computes, then the contribution is lane by lane the pull of
      body `jBody + l` on body `iBody`. */
  lemma StrideLanes(law: Law, b: seq<Body>, iBody: nat, jBody: nat,
                    m_j: Reg, rijx: Reg, rijy: Reg, rijz: Reg, distSq: Reg, invDistCube: Reg, ai: Reg,
                    cx: Reg, cy: Reg, cz: Reg)
    requires iBody < |b| && jBody + W <= |b|
    requires forall l :: 0 <= l < W ==>
      Vec3(rijx[l], rijy[l], rijz[l]) == Sub(b[jBody + l].q, b[iBody].q) && m_j[l] == b[jBody + l].m
    requires forall l :: 0 <= l < W ==>
      distSq[l] == DistSq(Vec3(rijx[l], rijy[l], rijz[l]), SoftSquared(law)) &&
      invDistCube[l] == InvCube(law, distSq[l])
    requires forall l :: 0 <= l < W ==>
      ai[l] == (m_j[l] * invDistCube[l]) * law.G &&
      Vec3(cx[l], cy[l], cz[l]) == Scale(ai[l], Vec3(rijx[l], rijy[l], rijz[l]))
    ensures forall l :: 0 <= l < W ==> Vec3(cx[l], cy[l], cz[l]) == Pull(law, b, iBody, jBody + l)
  {
    forall l | 0 <= l < W
      ensures Vec3(cx[l], cy[l], cz[l]) == Pull(law, b, iBody, jBody + l)
    {
      var rij, c := Vec3(rijx[l], rijy[l], rijz[l]), Vec3(cx[l], cy[l], cz[l]);
      LanePull(law, b, iBody, jBody + l, rij, distSq[l], invDistCube[l], m_j[l], ai[l], c);
    }
  }

  /** One lane of a stride: `ai = m_j * invDistCube * G`, the vector kernel's
      order of the product, scales `rij` into the pull of `j` on `i`. */
  lemma LanePull(law: Law, b: seq<Body>, i: nat, j: nat,
                 rij: Vec3, distSq: real, invDistCube: real, mj: real, ai: real, contrib: Vec3)
    requires i < |b| && j < |b|
    requires rij == Sub(b[j].q, b[i].q)
    requires distSq == DistSq(rij, SoftSquared(law))
    requires invDistCube == InvCube(law, distSq)
    requires mj == b[j].m && ai == (mj * invDistCube) * law.G
    requires contrib == Scale(ai, rij)
    ensures contrib == Pull(law, b, i, j)
  {
    SameFactor(law, b, i, j, distSq);
    MulRotate(mj, invDistCube, law.G);
  }

  lemma MulRotate(m: real, f: real, g: real)
    ensures (m * f) * g == g * m * f
  {
  }

  /** The vector accumulators after one stride: if they reduced to the row
      sum up to `jBody`, adding the stride's contributions makes them reduce
      to the row sum up to `jBody + W`. */
  lemma StrideStep(law: Law, b: seq<Body>, iBody: nat, jBody: nat,
                   ax: Reg, ay: Reg, az: Reg, cx: Reg, cy: Reg, cz: Reg)
    requires iBody < |b| && jBody + W <= |b|
    requires forall l :: 0 <= l < W ==> Vec3(cx[l], cy[l], cz[l]) == Pull(law, b, iBody, jBody + l)
    requires Vec3(Hadd(ax), Hadd(ay), Hadd(az)) == SumAll(law, b, iBody, jBody)
    ensures Vec3(Hadd(LaneAdd(ax, cx)), Hadd(LaneAdd(ay, cy)), Hadd(LaneAdd(az, cz)))
            == SumAll(law, b, iBody, jBody + W)
  {
    StrideSum(law, b, iBody, jBody, cx, cy, cz, W);
    HaddAdd(ax, cx);
    HaddAdd(ay, cy);
    HaddAdd(az, cz);
  }

  /** The scalar loop over the bodies the vector loop left out: starting
      from the row sum up to `jBody`, it adds the pulls of the remaining
      bodies one at a time, ending with the full row sum. */
  method ScalarTail(law: Law, b: seq<Body>, d: DataSoA, iBody: nat, jBody: nat,
                    axi: real, ayi: real, azi: real)
    returns (ax_row: real, ay_row: real, az_row: real)
    requires IsSoA(d, b) && iBody < |b| && jBody <= |b|
    requires Vec3(axi, ayi, azi) == SumAll(law, b, iBody, jBody)
    ensures Vec3(ax_row, ay_row, az_row) == SumAll(law, b, iBody, |b|)
  {
    var n := |b|;
    var softSquared := SoftSquared(law);
    var G := law.G;
    var qx_i, qy_i, qz_i := d.qx[iBody], d.qy[iBody], d.qz[iBody];
    ax_row, ay_row, az_row := axi, ayi, azi;

    var j := jBody;
    while j < n
      invariant jBody <= j <= n
      invariant Vec3(ax_row, ay_row, az_row) == SumAll(law, b, iBody, j)
    {
      var ax, ay, az := PullOn(law, b, iBody, j, qx_i, qy_i, qz_i,
                               d.qx[j], d.qy[j], d.qz[j], d.m[j], softSquared, G);
      ax_row := ax_row + ax;
      ay_row := ay_row + ay;
      az_row := az_row + az;
      j := j + 1;
    }
  }
}
