/**
 * The physics shared by every CPU variant of the N-body step: 3-vectors over
 * the reals, the body record, the softened force law, and the two reference
 * definitions of the acceleration buffer (the symmetric policy sums over the
 * other bodies, the full policy over all bodies including the body itself).
 */
module Physics {

  /** A 3-vector of reals: a position, a velocity, an acceleration, or one
      pair's separation `rij`. */
  datatype Vec3 = Vec3(x: real, y: real, z: real)

  const Zero: Vec3 := Vec3(0.0, 0.0, 0.0)

  function Add(a: Vec3, b: Vec3): Vec3 {
    Vec3(a.x + b.x, a.y + b.y, a.z + b.z)
  }

  lemma AddZero(v: Vec3)
    ensures Add(v, Zero) == v
  {
  }

  lemma AddAssoc(u: Vec3, v: Vec3, w: Vec3)
    ensures Add(Add(u, v), w) == Add(u, Add(v, w))
  {
  }

  function Sub(a: Vec3, b: Vec3): Vec3 {
    Vec3(a.x - b.x, a.y - b.y, a.z - b.z)
  }

  /** `s * a`, written scalar first as the kernels write `ai * rijx`. */
  function Scale(s: real, a: Vec3): Vec3 {
    Vec3(s * a.x, s * a.y, s * a.z)
  }

  /** Scaling distributes over addition. */
  lemma ScaleAdd(s: real, a: Vec3, b: Vec3)
    ensures Scale(s, Add(a, b)) == Add(Scale(s, a), Scale(s, b))
  {
    assert s * (a.x + b.x) == s * a.x + s * b.x;
    assert s * (a.y + b.y) == s * a.y + s * b.y;
    assert s * (a.z + b.z) == s * a.z + s * b.z;
  }

  /** The squared Euclidean length `|r|²`, never negative. */
  function Norm2(r: Vec3): (n: real)
    ensures n >= 0.0
  {
    assert r.x * r.x >= 0.0 && r.y * r.y >= 0.0 && r.z * r.z >= 0.0;
    r.x * r.x + r.y * r.y + r.z * r.z
  }

  /** One body: mass, position, velocity. Masses never change during a run. */
  datatype Body = Body(m: real, q: Vec3, v: Vec3)

  /** The gravitational constant `G`, the softening length `soft`, and the
      inverse-cube factor `invCube(d) = d^(-3/2)`. The kernels compute that
      factor with `1/sqrt`, `1/(d*sqrt(d))` or the vector `rsqrt`; it is kept
      abstract so that every result below holds whatever it is. */
  datatype ForceLaw = ForceLaw(G: real, soft: real, invCube: real -> real)

  /** A force law with a nonzero softening length. With `soft = 0` the
      self-pair of the full-policy kernels takes the inverse cube of `0`,
      which is not a number; every kernel here is modelled under this law. */
  type Law = law: ForceLaw | law.soft != 0.0 witness ForceLaw(1.0, 1.0, d => d)

  /** A product of two reals of the same strict sign is positive. */
  function Product(a: real, b: real): (p: real)
    ensures (a > 0.0 && b > 0.0) || (a < 0.0 && b < 0.0) ==> p > 0.0
  {
    a * b
  }

  /** `softSquared = soft * soft`, which every kernel hoists out of its
      loops; positive under a `Law`. */
  function SoftSquared(law: Law): (s: real)
    ensures s > 0.0
  {
    Product(law.soft, law.soft)
  }

  /** Softened squared distance `|r|² + soft²`, from the `softSquared` the
      kernels hoist out of their loops: never below `softSquared`, so
      positive whenever `softSquared` is, and the inverse cube is taken of a
      positive number. */
  function DistSq(r: Vec3, softSquared: real): (d: real)
    ensures d >= softSquared
  {
    Norm2(r) + softSquared
  }

  /** `invCube(distSq)`, what `1/sqrt` cubed, `1/(d*sqrt(d))` or `rsqrt`
      cubed approximate. */
  function InvCube(law: Law, distSq: real): real
    requires distSq > 0.0
  {
    law.invCube(distSq)
  }

  /** The factor `invCube(|rij|² + soft²)` a pair shares between its two bodies. */
  function PairFactor(law: Law, b: seq<Body>, i: nat, j: nat): real
    requires i < |b| && j < |b|
  {
    InvCube(law, DistSq(Sub(b[j].q, b[i].q), SoftSquared(law)))
  }

  /** Acceleration of body `i` due to body `j`: `G * m_j * invCube * rij`
      with `rij = q_j - q_i`. A body does not pull itself. */
  function Pull(law: Law, b: seq<Body>, i: nat, j: nat): (a: Vec3)
    requires i < |b| && j < |b|
    ensures i == j ==> a == Zero
  {
    Scale(law.G * b[j].m * PairFactor(law, b, i, j), Sub(b[j].q, b[i].q))
  }

  /** The two bodies of a pair see the same inverse-cube factor. */
  lemma SharedFactor(law: Law, b: seq<Body>, i: nat, j: nat)
    requires i < |b| && j < |b|
    ensures PairFactor(law, b, i, j) == PairFactor(law, b, j, i)
  {
    var r, s := Sub(b[j].q, b[i].q), Sub(b[i].q, b[j].q);
    assert s == Vec3(-r.x, -r.y, -r.z);
    assert Norm2(s) == Norm2(r);
  }

  /** Scaling the zero vector gives zero. */
  lemma ScaleZero(s: real)
    ensures Scale(s, Zero) == Zero
  {
    assert s * 0.0 == 0.0;
  }

  /** Scaling twice is scaling by the product. */
  lemma ScaleScale(s: real, t: real, a: Vec3)
    ensures Scale(s, Scale(t, a)) == Scale(s * t, a)
  {
    assert s * (t * a.x) == (s * t) * a.x;
    assert s * (t * a.y) == (s * t) * a.y;
    assert s * (t * a.z) == (s * t) * a.z;
  }

  /** The same multiple of `q - p` and of `p - q` cancel. */
  lemma ScaleOpposite(c: real, p: Vec3, q: Vec3)
    ensures Add(Scale(c, Sub(q, p)), Scale(c, Sub(p, q))) == Zero
  {
    assert c * (q.x - p.x) + c * (p.x - q.x) == 0.0;
    assert c * (q.y - p.y) + c * (p.y - q.y) == 0.0;
    assert c * (q.z - p.z) + c * (p.z - q.z) == 0.0;
  }

  /** Two cancelling pairs, regrouped, still cancel. */
  lemma AddCancelPairs(a: Vec3, b: Vec3, c: Vec3, d: Vec3)
    requires Add(a, c) == Zero && Add(b, d) == Zero
    ensures Add(Add(a, b), Add(c, d)) == Zero
  {
  }

  /** Newton's third law as the symmetric kernels use it: the pull of `i` on
      `j` is minus the scaled separation `rij`, with the factor computed for
      body `i`'s side of the pair. */
  lemma Reaction(law: Law, b: seq<Body>, i: nat, j: nat)
    requires i < |b| && j < |b|
    ensures Add(Pull(law, b, j, i), Scale(law.G * b[i].m * PairFactor(law, b, i, j), Sub(b[j].q, b[i].q))) == Zero
  {
    SharedFactor(law, b, i, j);
    var c := law.G * b[i].m * PairFactor(law, b, i, j);
    assert Pull(law, b, j, i) == Scale(c, Sub(b[i].q, b[j].q));
    ScaleOpposite(c, b[j].q, b[i].q);
  }

  /** Action and reaction weighted by mass cancel: `m_i a_ij + m_j a_ji = 0`. */
  lemma ActionReaction(law: Law, b: seq<Body>, i: nat, j: nat)
    requires i < |b| && j < |b|
    ensures Add(Scale(b[i].m, Pull(law, b, i, j)), Scale(b[j].m, Pull(law, b, j, i))) == Zero
  {
    SharedFactor(law, b, i, j);
    var f := PairFactor(law, b, i, j);
    MassesCommute(law.G, b[i].m, b[j].m, f);
    WeightedCancel(b[i].m, b[j].m, law.G * b[j].m * f, law.G * b[i].m * f, b[i].q, b[j].q);
  }

  lemma MassesCommute(g: real, mi: real, mj: real, f: real)
    ensures mi * (g * mj * f) == mj * (g * mi * f)
  {
  }

  /** `m_i (c_i (q_j - q_i)) + m_j (c_j (q_i - q_j)) = 0` when `m_i c_i = m_j c_j`. */
  lemma WeightedCancel(mi: real, mj: real, ci: real, cj: real, qi: Vec3, qj: Vec3)
    requires mi * ci == mj * cj
    ensures Add(Scale(mi, Scale(ci, Sub(qj, qi))), Scale(mj, Scale(cj, Sub(qi, qj)))) == Zero
  {
    ScaleScale(mi, ci, Sub(qj, qi));
    ScaleScale(mj, cj, Sub(qi, qj));
    ScaleOpposite(mi * ci, qi, qj);
  }

  /** The scalar distance arithmetic every kernel writes for one pair:
      `rij = q_j - q_i` component by component, then
      `distSq = rijx² + rijy² + rijz² + soft²` and `invCube(distSq)` are the
      pair's softened squared distance and shared factor. */
  lemma PairGeometry(law: Law, b: seq<Body>, i: nat, j: nat,
                     rijx: real, rijy: real, rijz: real, distSq: real, invDistCube: real)
    requires i < |b| && j < |b|
    requires rijx == b[j].q.x - b[i].q.x && rijy == b[j].q.y - b[i].q.y && rijz == b[j].q.z - b[i].q.z
    requires distSq == (rijx * rijx + rijy * rijy + rijz * rijz) + SoftSquared(law)
    requires invDistCube == InvCube(law, distSq)
    ensures Vec3(rijx, rijy, rijz) == Sub(b[j].q, b[i].q)
    ensures distSq == DistSq(Sub(b[j].q, b[i].q), SoftSquared(law))
    ensures invDistCube == PairFactor(law, b, i, j)
  {
    var r := Sub(b[j].q, b[i].q);
    assert r == Vec3(rijx, rijy, rijz);
    assert Norm2(r) == rijx * rijx + rijy * rijy + rijz * rijz;
    SameFactor(law, b, i, j, distSq);
  }

  /** With that geometry, `ai = G * m_j * invDistCube` scales `rij` into the
      pull of `j` on `i`. */
  lemma ScalarPull(law: Law, b: seq<Body>, i: nat, j: nat,
                   rijx: real, rijy: real, rijz: real, distSq: real, invDistCube: real,
                   mj: real, ai: real)
    requires i < |b| && j < |b|
    requires rijx == b[j].q.x - b[i].q.x && rijy == b[j].q.y - b[i].q.y && rijz == b[j].q.z - b[i].q.z
    requires distSq == (rijx * rijx + rijy * rijy + rijz * rijz) + SoftSquared(law)
    requires invDistCube == InvCube(law, distSq)
    requires mj == b[j].m && ai == law.G * mj * invDistCube
    ensures Vec3(ai * rijx, ai * rijy, ai * rijz) == Pull(law, b, i, j)
  {
    PairGeometry(law, b, i, j, rijx, rijy, rijz, distSq, invDistCube);
  }

  /** The reaction half of the same arithmetic: with `aj = G * m_i * invDistCube`,
      subtracting `aj * rij` from body `j` adds the pull of `i` on `j`. */
  lemma ScalarReaction(law: Law, b: seq<Body>, i: nat, j: nat,
                       rijx: real, rijy: real, rijz: real, distSq: real, invDistCube: real,
                       mi: real, aj: real)
    requires i < |b| && j < |b|
    requires rijx == b[j].q.x - b[i].q.x && rijy == b[j].q.y - b[i].q.y && rijz == b[j].q.z - b[i].q.z
    requires distSq == (rijx * rijx + rijy * rijy + rijz * rijz) + SoftSquared(law)
    requires invDistCube == InvCube(law, distSq)
    requires mi == b[i].m && aj == law.G * mi * invDistCube
    ensures Vec3(-(aj * rijx), -(aj * rijy), -(aj * rijz)) == Pull(law, b, j, i)
  {
    PairGeometry(law, b, i, j, rijx, rijy, rijz, distSq, invDistCube);
    Reaction(law, b, i, j);
  }

  /** The inverse cube of the pair's softened distance is its shared factor. */
  lemma SameFactor(law: Law, b: seq<Body>, i: nat, j: nat, distSq: real)
    requires i < |b| && j < |b|
    requires distSq == DistSq(Sub(b[j].q, b[i].q), SoftSquared(law))
    ensures InvCube(law, distSq) == PairFactor(law, b, i, j)
  {
  }

  /** Symmetric-policy reference: `Σ_{j < hi, j != i} Pull(i, j)`. */
  function SumOthers(law: Law, b: seq<Body>, i: nat, hi: nat): Vec3
    requires i < |b| && hi <= |b|
  {
    if hi == 0 then Zero
    else if hi - 1 == i then SumOthers(law, b, i, hi - 1)
    else Add(SumOthers(law, b, i, hi - 1), Pull(law, b, i, hi - 1))
  }

  /** Full-policy reference: `Σ_{j < hi} Pull(i, j)`, the self-pair included. */
  function SumAll(law: Law, b: seq<Body>, i: nat, hi: nat): Vec3
    requires i < |b| && hi <= |b|
  {
    if hi == 0 then Zero
    else Add(SumAll(law, b, i, hi - 1), Pull(law, b, i, hi - 1))
  }

  /** Acceleration of body `i`: the sum over every other body. */
  function Accel(law: Law, b: seq<Body>, i: nat): Vec3
    requires i < |b|
  {
    SumOthers(law, b, i, |b|)
  }

  /** The buffer a symmetric variant leaves after reset and accumulation. */
  function Accelerations(law: Law, b: seq<Body>): (acc: seq<Vec3>)
    ensures |acc| == |b|
  {
    seq(|b|, i requires 0 <= i < |b| => Accel(law, b, i))
  }

  /** The buffer a full-policy (vector) variant assigns. */
  function FullAccelerations(law: Law, b: seq<Body>): (acc: seq<Vec3>)
    ensures |acc| == |b|
  {
    seq(|b|, i requires 0 <= i < |b| => SumAll(law, b, i, |b|))
  }

  /** Including the self-pair changes nothing, because `rii = 0`. */
  lemma {:induction false} SelfPairVanishes(law: Law, b: seq<Body>, i: nat, hi: nat)
    requires i < |b| && hi <= |b|
    ensures SumAll(law, b, i, hi) == SumOthers(law, b, i, hi)
  {
    if hi > 0 {
      SelfPairVanishes(law, b, i, hi - 1);
      var p := Pull(law, b, i, hi - 1);
      assert SumAll(law, b, i, hi) == Add(SumAll(law, b, i, hi - 1), p);
      if hi - 1 == i {
        assert p == Zero;
      }
    }
  }

  /** The two accumulation policies give the same buffer. */
  lemma PoliciesAgree(law: Law, b: seq<Body>)
    ensures FullAccelerations(law, b) == Accelerations(law, b)
  {
    forall i | 0 <= i < |b|
      ensures FullAccelerations(law, b)[i] == Accelerations(law, b)[i]
    {
      SelfPairVanishes(law, b, i, |b|);
    }
  }

  /** An all-zero buffer of `n` entries. */
  function Zeros(n: nat): (z: seq<Vec3>)
    ensures |z| == n
  {
    seq(n, _ => Zero)
  }

  /** The integrator's effect on the body store: each body is advanced by
      `advance` from its own acceleration and the time step. */
  function Integrate(b: seq<Body>, acc: seq<Vec3>, dt: real,
                     advance: (Body, Vec3, real) -> Body): (b': seq<Body>)
    requires |acc| == |b|
    ensures |b'| == |b|
  {
    seq(|b|, k requires 0 <= k < |b| => advance(b[k], acc[k], dt))
  }

  /** The structure-of-arrays view `getDataSoA` hands to the SoA kernels. */
  datatype DataSoA = DataSoA(qx: seq<real>, qy: seq<real>, qz: seq<real>, m: seq<real>)

  /** `d` holds, field by field, the positions and masses of `b`. */
  predicate IsSoA(d: DataSoA, b: seq<Body>) {
    |d.qx| == |b| && |d.qy| == |b| && |d.qz| == |b| && |d.m| == |b| &&
    forall k :: 0 <= k < |b| ==>
      d.qx[k] == b[k].q.x && d.qy[k] == b[k].q.y && d.qz[k] == b[k].q.z && d.m[k] == b[k].m
  }

  function ToSoA(b: seq<Body>): (d: DataSoA)
    ensures IsSoA(d, b)
  {
    DataSoA(seq(|b|, k requires 0 <= k < |b| => b[k].q.x),
            seq(|b|, k requires 0 <= k < |b| => b[k].q.y),
            seq(|b|, k requires 0 <= k < |b| => b[k].q.z),
            seq(|b|, k requires 0 <= k < |b| => b[k].m))
  }
}
