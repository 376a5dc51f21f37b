/**
 * The part of the mipp vector library the vector kernels use. A register
 * `mipp::Reg<float>` holds `W` lanes, where `W = mipp::N<float>()` is fixed
 * by the target instruction set (4 for SSE, 8 for AVX, 16 for AVX-512) and
 * left unspecified here beyond `W >= 1`. Operators act lane by lane, a
 * scalar operand is broadcast to every lane, `loadu` reads `W` consecutive
 * values and `hadd` sums the lanes.
 */
module Mipp {
  import opened Physics

  type Lanes = n: nat | n >= 1 witness 1

  /** `mipp::N<float>()`, the number of lanes of a register. */
  const W: Lanes

  /** `j` is a whole number of strides: a multiple of `W`. */
  predicate Aligned(j: nat)
    decreases j
  {
    j == 0 || (j >= W && Aligned(j - W))
  }

  /** A whole number of strides leaves no remainder modulo `W`. */
  lemma {:induction false} AlignedIsMultiple(j: nat)
    requires Aligned(j)
    ensures j % W == 0
  {
    if j > 0 {
      AlignedIsMultiple(j - W);
      ModShift(j - W);
    }
  }

  /** Adding one stride does not change the remainder modulo `W`. */
  lemma ModShift(x: nat)
    ensures (x + W) % W == x % W
  {
    var q, r := x / W, x % W;
    assert x + W == (q + 1) * W + r;
    ModUnique(x + W, q + 1, r);
  }

  /** Euclidean division by `W` has one quotient and one remainder. */
  lemma ModUnique(x: int, q: int, r: int)
    requires x == q * W + r && 0 <= r < W
    ensures x % W == r
  {
    var q', r' := x / W, x % W;
    var d := q - q';
    assert d * W == r' - r by { assert q * W - q' * W == (q - q') * W; }
    if d >= 1 {
      MultipleAtLeast(d);
    } else if d <= -1 {
      MultipleAtLeast(-d);
    }
  }

  lemma {:induction false} MultipleAtLeast(d: int)
    requires d >= 1
    ensures d * W >= W
  {
    if d > 1 {
      MultipleAtLeast(d - 1);
      assert d * W == (d - 1) * W + W;
    }
  }

  /** One register. */
  type Reg = s: seq<real> | |s| == W witness seq(W, _ => 0.0)

  /** `mipp::Reg<float>(x)`: every lane holds `x`. */
  function Splat(x: real): (r: Reg)
    ensures forall l {:trigger r[l]} :: 0 <= l < W ==> r[l] == x
  {
    seq(W, _ => x)
  }

  /** `mipp::loadu(&xs[j])`: the lanes `xs[j .. j + W)`, all in bounds. */
  function LoadU(xs: seq<real>, j: nat): (r: Reg)
    requires j + W <= |xs|
    ensures forall l {:trigger r[l]} :: 0 <= l < W ==> r[l] == xs[j + l]
  {
    xs[j..j + W]
  }

  function LaneAdd(a: Reg, b: Reg): (r: Reg)
    ensures forall l {:trigger r[l]} :: 0 <= l < W ==> r[l] == a[l] + b[l]
  {
    seq(W, l requires 0 <= l < W => a[l] + b[l])
  }

  function LaneMul(a: Reg, b: Reg): (r: Reg)
    ensures forall l {:trigger r[l]} :: 0 <= l < W ==> r[l] == a[l] * b[l]
  {
    seq(W, l requires 0 <= l < W => a[l] * b[l])
  }

  /** `a - x` with the scalar `x` broadcast to every lane. */
  function LaneSubScalar(a: Reg, x: real): (r: Reg)
    ensures forall l {:trigger r[l]} :: 0 <= l < W ==> r[l] == a[l] - x
  {
    seq(W, l requires 0 <= l < W => a[l] - x)
  }

  /** `a + x` with the scalar `x` broadcast to every lane. */
  function LaneAddScalar(a: Reg, x: real): (r: Reg)
    ensures forall l {:trigger r[l]} :: 0 <= l < W ==> r[l] == a[l] + x
  {
    seq(W, l requires 0 <= l < W => a[l] + x)
  }

  /** `a * x` with the scalar `x` broadcast to every lane. */
  function LaneMulScalar(a: Reg, x: real): (r: Reg)
    ensures forall l {:trigger r[l]} :: 0 <= l < W ==> r[l] == a[l] * x
  {
    seq(W, l requires 0 <= l < W => a[l] * x)
  }

  /** The inverse cube built from `mipp::rsqrt`, lane by lane; like the
      scalar one, it is taken of positive lanes only. */
  function LaneInvCube(law: Law, a: Reg): (r: Reg)
    requires forall l :: 0 <= l < W ==> a[l] > 0.0
    ensures forall l {:trigger r[l]} :: 0 <= l < W ==> r[l] == InvCube(law, a[l])
  {
    seq(W, l requires 0 <= l < W => InvCube(law, a[l]))
  }

  /** `mipp::hadd`: the sum of all lanes. */
  function Hadd(a: Reg): real {
    LaneSum(a, W)
  }

  /** The sum of the first `k` lanes. */
  function LaneSum(a: Reg, k: nat): real
    requires k <= W
  {
    if k == 0 then 0.0 else LaneSum(a, k - 1) + a[k - 1]
  }

  /** A register of zeros sums to zero. */
  lemma HaddSplatZero()
    ensures Hadd(Splat(0.0)) == 0.0
  {
    ZerosSumToZero(Splat(0.0), W);
  }

  lemma {:induction false} ZerosSumToZero(a: Reg, k: nat)
    requires k <= W
    requires forall l :: 0 <= l < W ==> a[l] == 0.0
    ensures LaneSum(a, k) == 0.0
  {
    if k > 0 {
      ZerosSumToZero(a, k - 1);
    }
  }

  /** Summing lanes commutes with lanewise addition, so reducing the
      accumulator once after the loop equals reducing it every step. */
  lemma HaddAdd(a: Reg, b: Reg)
    ensures Hadd(LaneAdd(a, b)) == Hadd(a) + Hadd(b)
  {
    SumOfSums(a, b, LaneAdd(a, b), W);
  }

  lemma {:induction false} SumOfSums(a: Reg, b: Reg, c: Reg, k: nat)
    requires k <= W
    requires forall l :: 0 <= l < W ==> c[l] == a[l] + b[l]
    ensures LaneSum(c, k) == LaneSum(a, k) + LaneSum(b, k)
  {
    if k > 0 {
      SumOfSums(a, b, c, k - 1);
    }
  }

  /** One stride of the vector loop: if lane `l` of the three contribution
      registers holds the pull of body `j + l` on body `i`, the sums of their
      first `k` lanes extend the row sum from `j` to `j + k`. */
  lemma {:induction false} StrideSum(law: Law, b: seq<Body>, i: nat, j: nat,
                                     cx: Reg, cy: Reg, cz: Reg, k: nat)
    requires i < |b| && k <= W && j + W <= |b|
    requires forall l :: 0 <= l < W ==> Vec3(cx[l], cy[l], cz[l]) == Pull(law, b, i, j + l)
    ensures Add(SumAll(law, b, i, j), Vec3(LaneSum(cx, k), LaneSum(cy, k), LaneSum(cz, k)))
            == SumAll(law, b, i, j + k)
  {
    if k > 0 {
      StrideSum(law, b, i, j, cx, cy, cz, k - 1);
      var p := Pull(law, b, i, j + k - 1);
      assert SumAll(law, b, i, j + k) == Add(SumAll(law, b, i, j + k - 1), p);
    }
  }
}
