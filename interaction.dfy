/**
 * The scalar arithmetic every CPU kernel writes for one pair `(i, j)`:
 * `rij = q_j - q_i` component by component, `rijSquared`, the softened
 * `distSq = rijSquared + softSquared`, the inverse cube, and the scalar
 * accelerations `ai = G * m_j * invDistCube` (and, in the symmetric
 * kernels, `aj = G * m_i * invDistCube`). The positions and masses are
 * passed as the kernel reads them from the array-of-structures or the
 * structure-of-arrays view of the body store.
 */
module Interaction {
  import opened Physics

  /** `ai * rij`: what body `j` adds to the acceleration of body `i`. */
  method PullOn(law: Law, b: seq<Body>, i: nat, j: nat,
                qx_i: real, qy_i: real, qz_i: real, qx_j: real, qy_j: real, qz_j: real,
                m_j: real, softSquared: real, G: real)
    returns (ax: real, ay: real, az: real)
    requires i < |b| && j < |b|
    requires Vec3(qx_i, qy_i, qz_i) == b[i].q
    requires Vec3(qx_j, qy_j, qz_j) == b[j].q && m_j == b[j].m
    requires softSquared == SoftSquared(law) && G == law.G
    ensures Vec3(ax, ay, az) == Pull(law, b, i, j)
  {
    var rijx := qx_j - qx_i;
    var rijy := qy_j - qy_i;
    var rijz := qz_j - qz_i;

    var rijSquared := rijx * rijx + rijy * rijy + rijz * rijz;
    var distSq := rijSquared + softSquared;
    assert distSq == DistSq(Vec3(rijx, rijy, rijz), softSquared);
    var invDistCube := InvCube(law, distSq);

    var ai := G * m_j * invDistCube;
    ScalarPull(law, b, i, j, rijx, rijy, rijz, distSq, invDistCube, m_j, ai);

    ax, ay, az := ai * rijx, ai * rijy, ai * rijz;
  }

  /** `ai * rij` for body `i` and `aj * rij` for body `j`, from one shared
      inverse cube: adding the first to body `i` adds the pull of `j` on `i`,
      and subtracting the second from body `j` adds the pull of `i` on `j`. */
  method MutualPull(law: Law, b: seq<Body>, i: nat, j: nat,
                    qx_i: real, qy_i: real, qz_i: real, qx_j: real, qy_j: real, qz_j: real,
                    m_i: real, m_j: real, softSquared: real, G: real)
    returns (aix: real, aiy: real, aiz: real, ajx: real, ajy: real, ajz: real)
    requires i < |b| && j < |b|
    requires Vec3(qx_i, qy_i, qz_i) == b[i].q && m_i == b[i].m
    requires Vec3(qx_j, qy_j, qz_j) == b[j].q && m_j == b[j].m
    requires softSquared == SoftSquared(law) && G == law.G
    ensures Vec3(aix, aiy, aiz) == Pull(law, b, i, j)
    ensures Vec3(-ajx, -ajy, -ajz) == Pull(law, b, j, i)
  {
    var rijx := qx_j - qx_i;
    var rijy := qy_j - qy_i;
    var rijz := qz_j - qz_i;

    var rijSquared := rijx * rijx + rijy * rijy + rijz * rijz;
    var distSq := rijSquared + softSquared;
    assert distSq == DistSq(Vec3(rijx, rijy, rijz), softSquared);
    var invDistCube := InvCube(law, distSq);

    var ai := G * m_j * invDistCube;
    var aj := G * m_i * invDistCube;
    ScalarPull(law, b, i, j, rijx, rijy, rijz, distSq, invDistCube, m_j, ai);
    ScalarReaction(law, b, i, j, rijx, rijy, rijz, distSq, invDistCube, m_i, aj);

    aix, aiy, aiz := ai * rijx, ai * rijy, ai * rijz;
    ajx, ajy, ajz := aj * rijx, aj * rijy, aj * rijz;
  }
}
