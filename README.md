# murb N-body acceleration kernels in Dafny

This project models the CPU kernels of murb, an N-body gravity simulator.
Each kernel fills the acceleration buffer of one time step. Every
implementation has three operations:

- `initIteration` zeroes the buffer.
- `computeBodiesAcceleration` accumulates the gravitational pull of the
  bodies on one another.
- `computeOneIteration` runs the two and then hands the buffer to the
  integrator.

The model covers five source files, one module and one class each:

| module | source file | policy |
|---|---|---|
| `OptimAoS` | `src/murb/implem/SimulationNBodyOptim.cpp` | symmetric, array of structures, `+=`/`-=` in place |
| `OptimSe` | `murb-se/src/murb/implem/SimulationNBodyOptim.cpp` | the same, with `n` read once |
| `OpenMP` | `murb-se/src/murb/implem/SimulationNBodyOpenMP.cpp` | symmetric, structure of arrays, row sum kept in locals |
| `Simd` | `murb-se/src/murb/implem/SimulationNBodySIMD.cpp` | full, vector strides, then a scalar tail |
| `SimdOmp` | `murb-se/src/murb/implem/SimulationNBodySIMD_OMP.cpp` | as `Simd`, rows in any scheduler order |

The shared parts are in their own modules:

- `Physics`:
  - vectors, bodies and the softened force law, with a nonzero softening
    length;
  - the pull `Pull(i, j) = G m_j invCube(|q_j - q_i|² + soft²) (q_j - q_i)`;
  - the two reference buffers. `Accelerations` sums over the other bodies.
    `FullAccelerations` sums over all bodies, the body itself included.
- `Interaction`: the scalar arithmetic of one pair.
- `Mipp`: the vector-register operations the vector kernels use.
- `LaneKernel`: the vector loop, the horizontal reduction and the scalar
  tail.
- `Schedule`: the sequence of pairs `(iBody, jBody)` that the triangular
  loop visits.
- `Symmetric`: what that loop adds to each buffer entry, row by row and pair
  by pair.
- `Momentum`: conservation of total momentum.

The buffer is an `array<Vec3>` and the body store is a `seq<Body>` field.
Methods that change the buffer name it in `modifies`. No kernel method
lists `bodies` there, so only the accelerations are written.

The main results:

- **Symmetric kernels.** Entry `k` ends as `old(acc[k]) + Accel(k)`. The
  accumulation is added to what the buffer held, so the preceding reset is
  needed. `ComputeOneIteration` therefore yields exactly
  `Accelerations(law, bodies)`.
- **Vector kernels.** They assign `FullAccelerations`, whatever the buffer
  held before.
- **Both policies agree.** `Physics.PoliciesAgree` proves the two
  reference buffers equal, because the self-pair contributes nothing.
- **Pair schedule.** The triangular loop visits each pair `i < j < n`
  exactly once, `n(n-1)/2` pairs in all. Visiting those pairs gives every
  body the pull of every other body.
- **Momentum.** The mass-weighted sum of the buffer is zero.

## Model

| member | source | states |
|---|---|---|
| Physics.Norm2 | murb-se/src/murb/implem/SimulationNBodySIMD.cpp:71 | `rijSquared`, a sum of three squares, is never negative |
| Physics.SoftSquared | murb-se/src/murb/implem/SimulationNBodySIMD.cpp:42 | with a nonzero softening length, the hoisted `softSquared = soft * soft` is positive |
| Physics.DistSq | murb-se/src/murb/implem/SimulationNBodyOpenMP.cpp:63-67 | `distSq = rijSquared + softSquared` is never below `softSquared`, so the inverse cube, defined only for a positive argument, is taken of a positive number |
| Physics.Pull | murb-se/src/murb/implem/SimulationNBodySIMD.cpp:96-112 | the pull of a body on itself is zero (`rii = 0`), so the full-policy loop's `jBody == iBody` term adds nothing |
| Physics.SharedFactor | src/murb/implem/SimulationNBodyOptim.cpp:59-66 | the softened inverse cube of pair `(i, j)` equals that of `(j, i)`, so one `invDistCubed` serves both `ai` and `aj` |
| Physics.Reaction | src/murb/implem/SimulationNBodyOptim.cpp:66-76 | subtracting `aj * rij` from body `j` adds the pull of `i` on `j` |
| Physics.ActionReaction | src/murb/implem/SimulationNBodyOptim.cpp:64-76 | Newton's third law for one pair: `m_i Pull(i, j) + m_j Pull(j, i) = 0` |
| Physics.PairGeometry | murb-se/src/murb/implem/SimulationNBodyOptim.cpp:48-58 | componentwise `rij`, `rijSquared + softSquared` and its inverse cube are the pair's separation, softened squared distance and shared factor |
| Physics.ScalarPull | murb-se/src/murb/implem/SimulationNBodyOptim.cpp:48-66 | `ai = G * m_j * invDistCube` times `rij` is the pull of `j` on `i` |
| Physics.ScalarReaction | murb-se/src/murb/implem/SimulationNBodyOptim.cpp:61-71 | `-(aj * rij)` with `aj = G * m_i * invDistCube` is the pull of `i` on `j` |
| Physics.SelfPairVanishes | murb-se/src/murb/implem/SimulationNBodySIMD.cpp:59-112 | the sum over all `j < hi` including `j == i` equals the sum over `j != i` |
| Physics.PoliciesAgree | murb-se/src/murb/implem/SimulationNBodySIMD.cpp:47-117 | the full-policy buffer equals the symmetric-policy buffer entry by entry |
| Physics.ToSoA | murb-se/src/murb/implem/SimulationNBodyOpenMP.cpp:32-38 | the structure-of-arrays view has one entry per body in each array, holding that body's position components and mass |
| Interaction.PullOn | murb-se/src/murb/implem/SimulationNBodySIMD_OMP.cpp:103-116 | the scalar tail's `ai * rij`, from loaded positions and mass, is the pull of `j` on `i` |
| Interaction.MutualPull | murb-se/src/murb/implem/SimulationNBodyOpenMP.cpp:57-83 | from one shared inverse cube, `ai * rij` is the pull of `j` on `i` and `-(aj * rij)` the pull of `i` on `j` |
| Mipp.LoadU | murb-se/src/murb/implem/SimulationNBodySIMD.cpp:61-64 | `loadu(&xs[j])` is defined only when `j + W <= |xs|`, and lane `l` is `xs[j + l]` |
| Mipp.LaneInvCube | murb-se/src/murb/implem/SimulationNBodySIMD.cpp:72-76 | `rsqrt(distSq)` cubed holds in lane `l` the inverse cube of lane `l` of `distSq`, and is taken only when every lane is positive |
| Mipp.AlignedIsMultiple | murb-se/src/murb/implem/SimulationNBodySIMD.cpp:58-59 | a `jBody` reached from `0` by steps of `SIMD_SIZE` is a multiple of it |
| Mipp.HaddSplatZero | murb-se/src/murb/implem/SimulationNBodySIMD.cpp:53-55 | accumulators built as `Reg(0.f)` reduce to zero |
| Mipp.HaddAdd | murb-se/src/murb/implem/SimulationNBodySIMD.cpp:85-93 | `hadd` of a lanewise sum is the sum of the `hadd`s, so reducing once after the loop equals reducing at every stride |
| Mipp.StrideSum | murb-se/src/murb/implem/SimulationNBodySIMD.cpp:59-88 | the lane sums of one stride's contributions extend the row sum from `jBody` to `jBody + k` |
| LaneKernel.VectorStrides | murb-se/src/murb/implem/SimulationNBodySIMD_OMP.cpp:60-99 | the vector loop stops at the largest multiple of `W` not above `n` (`jBody % W == 0` and `jBody <= n < jBody + W`), and the reduced accumulators hold the row sum over `[0, jBody)` |
| LaneKernel.AccumulateStride | murb-se/src/murb/implem/SimulationNBodySIMD.cpp:59-88 | one stride turns accumulators reducing to the row sum up to `jBody` into ones reducing to the row sum up to `jBody + W` |
| LaneKernel.StrideContributions | murb-se/src/murb/implem/SimulationNBodySIMD.cpp:61-82 | with every load in bounds, lane `l` of `ai * rij` is the pull of body `jBody + l` on body `iBody` |
| LaneKernel.BodyLanes | murb-se/src/murb/implem/SimulationNBodySIMD.cpp:61-69 | lane `l` of `rij` is the separation of body `jBody + l` from `iBody`, and lane `l` of `m_j` is its mass |
| LaneKernel.DistLanes | murb-se/src/murb/implem/SimulationNBodySIMD.cpp:71-72 | lane `l` of `distSq` is the softened squared length of lane `l` of `rij` |
| LaneKernel.ScaleLanes | murb-se/src/murb/implem/SimulationNBodySIMD.cpp:78-82 | lane `l` of `ai` is `m_j * invDistCube * G` and of the contribution `ai * rij` |
| LaneKernel.StrideLanes | murb-se/src/murb/implem/SimulationNBodySIMD.cpp:67-82 | the lanes as loaded and computed make each lane's contribution the pull of `jBody + l` on `iBody` |
| LaneKernel.LanePull | murb-se/src/murb/implem/SimulationNBodySIMD.cpp:78 | the vector order of the product, `m_j * invDistCube * G`, gives the same pull as the scalar `G * m_j * invDistCube` |
| LaneKernel.StrideStep | murb-se/src/murb/implem/SimulationNBodySIMD.cpp:85-93 | adding one stride's contributions lanewise moves the reduced accumulators from the row sum up to `jBody` to the row sum up to `jBody + W` |
| LaneKernel.ScalarTail | murb-se/src/murb/implem/SimulationNBodySIMD.cpp:96-112 | the scalar loop from where the vector loop stopped up to `n` completes the row sum over `[0, n)` |
| Schedule.RowIncreasing | murb-se/src/murb/implem/SimulationNBodyOptim.cpp:47 | one row visits exactly the pairs `(i, j)`, `lo <= j < hi`, in increasing order |
| Schedule.TriangleExact | murb-se/src/murb/implem/SimulationNBodyOptim.cpp:45-47 | the first `i` rows visit exactly the pairs `p.0 < i`, `p.0 < p.1 < n`, in strictly increasing order, so no pair twice and no self-pair |
| Schedule.TriangleSize | src/murb/implem/SimulationNBodyOptim.cpp:48-51 | the first `i` rows visit `i(2n - i - 1)/2` pairs, `n(n-1)/2` in all |
| Symmetric.RowSoFarStep | murb-se/src/murb/implem/SimulationNBodyOptim.cpp:47-71 | one visit `(i, j)` adds the pull of `j` to entry `i`, the pull of `i` to entry `j`, and nothing to any other entry |
| Symmetric.PartialStep | murb-se/src/murb/implem/SimulationNBodyOptim.cpp:45-73 | row `i` turns what the first `i` rows added into what the first `i + 1` rows add |
| Symmetric.OthersSplit | murb-se/src/murb/implem/SimulationNBodyOptim.cpp:45-47 | the pulls of the bodies before `k` and those after `k` together make the sum over all others |
| Symmetric.PartialComplete | murb-se/src/murb/implem/SimulationNBodyOptim.cpp:45-73 | after all `n` rows entry `k` has received `Accel(k)`, the pull of every other body |
| Symmetric.EffectAppend | murb-se/src/murb/implem/SimulationNBodyOptim.cpp:45-47 | visiting one pair sequence after another adds what each adds |
| Symmetric.RowIsPairs | murb-se/src/murb/implem/SimulationNBodyOptim.cpp:47-71 | the pairs of row `i` up to `j`, visited one by one, add to every entry what the row has added so far |
| Symmetric.TriangleByRows | murb-se/src/murb/implem/SimulationNBodyOptim.cpp:45-47 | the pairs of the first `i` rows add what the first `i - 1` rows add plus what row `i - 1` adds |
| Symmetric.TriangleIsPartial | murb-se/src/murb/implem/SimulationNBodyOptim.cpp:45-73 | visiting the pairs of the first `i` rows of the schedule adds `Partial(k, i)` to entry `k` |
| Symmetric.ScheduleComplete | murb-se/src/murb/implem/SimulationNBodyOptim.cpp:45-73 | visiting the pairs `i < j < n` once each, in loop order, adds to every entry the pull of every other body |
| Momentum.RowCancelsColumn | src/murb/implem/SimulationNBodyOptim.cpp:64-76 | what the first `hi` bodies do to body `k`, mass-weighted, cancels what `k` does to them |
| Momentum.TriVanishes | src/murb/implem/SimulationNBodyOptim.cpp:64-76 | among the first `k` bodies the mass-weighted internal pulls cancel |
| Momentum.MomentumCancels | src/murb/implem/SimulationNBodyOptim.cpp:73-76 | the buffer of a symmetric step satisfies `Σ_i m_i acc_i = 0` |
| OptimAoS.SimulationNBodyOptim.constructor | src/murb/implem/SimulationNBodyOptim.cpp:15 | the buffer has one entry per body |
| OptimAoS.SimulationNBodyOptim.InitIteration | src/murb/implem/SimulationNBodyOptim.cpp:19-26 | every entry is zero afterwards, whatever it held (so a second reset changes nothing) |
| OptimAoS.SimulationNBodyOptim.VisitPair | src/murb/implem/SimulationNBodyOptim.cpp:54-76 | `+= ai * rij` adds the pull of `jBody` to entry `iBody`, `-= aj * rij` adds the pull of `iBody` to entry `jBody`, and no other entry changes |
| OptimAoS.SimulationNBodyOptim.AccumulateRow | src/murb/implem/SimulationNBodyOptim.cpp:51-77 | the inner loop, `getN()` read at every test, adds to each entry what row `iBody` contributes to it |
| OptimAoS.SimulationNBodyOptim.ComputeBodiesAcceleration | src/murb/implem/SimulationNBodyOptim.cpp:40-79 | with `softSquared` computed once before the loops, every entry becomes its old value plus the pull of every other body |
| OptimAoS.SimulationNBodyOptim.ComputeOneIteration | src/murb/implem/SimulationNBodyOptim.cpp:82-88 | reset, then accumulate, then integrate: the buffer is exactly `Accelerations(bodies)` and the bodies are advanced with it |
| OptimSe.SimulationNBodyOptim.constructor | murb-se/src/murb/implem/SimulationNBodyOptim.cpp:17 | the buffer has one entry per body |
| OptimSe.SimulationNBodyOptim.InitIteration | murb-se/src/murb/implem/SimulationNBodyOptim.cpp:20-27 | every entry is zero afterwards, whatever it held |
| OptimSe.SimulationNBodyOptim.VisitPair | murb-se/src/murb/implem/SimulationNBodyOptim.cpp:48-71 | one visit adds the pull of `jBody` to entry `iBody` and the pull of `iBody` to entry `jBody`; no other entry changes |
| OptimSe.SimulationNBodyOptim.AccumulateRow | murb-se/src/murb/implem/SimulationNBodyOptim.cpp:47-72 | the inner loop up to the hoisted `n` adds to each entry what row `iBody` contributes to it |
| OptimSe.SimulationNBodyOptim.ComputeBodiesAcceleration | murb-se/src/murb/implem/SimulationNBodyOptim.cpp:29-74 | every entry becomes its old value plus the pull of every other body |
| OptimSe.SimulationNBodyOptim.ComputeOneIteration | murb-se/src/murb/implem/SimulationNBodyOptim.cpp:76-82 | reset, accumulate, integrate: the buffer is exactly `Accelerations(bodies)` |
| OpenMP.SimulationNBodyOptim.constructor | murb-se/src/murb/implem/SimulationNBodyOpenMP.cpp:17 | the buffer has one entry per body |
| OpenMP.SimulationNBodyOptim.InitIteration | murb-se/src/murb/implem/SimulationNBodyOpenMP.cpp:20-27 | every entry is zero afterwards, whatever it held |
| OpenMP.SimulationNBodyOptim.VisitPair | murb-se/src/murb/implem/SimulationNBodyOpenMP.cpp:57-83 | `axi += ai * rij` adds the pull of `jBody` on `iBody` to the row's locals, then `-= aj * rij` adds the pull of `iBody` to entry `jBody` alone |
| OpenMP.SimulationNBodyOptim.AccumulateRow | murb-se/src/murb/implem/SimulationNBodyOpenMP.cpp:47-89 | the locals `axi, ayi, azi` gather the row sum of `iBody`, entry `iBody` is untouched until the store after the loop, and each entry ends with what the row contributes to it |
| OpenMP.SimulationNBodyOptim.ComputeBodiesAcceleration | murb-se/src/murb/implem/SimulationNBodyOpenMP.cpp:29-91 | every entry becomes its old value plus the pull of every other body |
| OpenMP.SimulationNBodyOptim.ComputeOneIteration | murb-se/src/murb/implem/SimulationNBodyOpenMP.cpp:93-99 | reset, accumulate, integrate: the buffer is exactly `Accelerations(bodies)` |
| Simd.SimulationNBodySIMD.constructor | murb-se/src/murb/implem/SimulationNBodySIMD.cpp:19 | the buffer has one entry per body |
| Simd.SimulationNBodySIMD.InitIteration | murb-se/src/murb/implem/SimulationNBodySIMD.cpp:22-29 | every entry is zero afterwards, whatever it held |
| Simd.SimulationNBodySIMD.ComputeBodiesAcceleration | murb-se/src/murb/implem/SimulationNBodySIMD.cpp:32-118 | every entry is assigned the sum of the pulls of all bodies, independently of the buffer's previous content |
| Simd.SimulationNBodySIMD.ComputeOneIteration | murb-se/src/murb/implem/SimulationNBodySIMD.cpp:197-203 | reset, accumulate, integrate: the buffer is exactly `FullAccelerations(bodies)` |
| SimdOmp.SimulationNBodySIMD_OMP.constructor | murb-se/src/murb/implem/SimulationNBodySIMD_OMP.cpp:17 | the buffer has one entry per body |
| SimdOmp.SimulationNBodySIMD_OMP.InitIteration | murb-se/src/murb/implem/SimulationNBodySIMD_OMP.cpp:20-27 | every entry is zero afterwards, whatever it held |
| SimdOmp.SimulationNBodySIMD_OMP.ComputeRow | murb-se/src/murb/implem/SimulationNBodySIMD_OMP.cpp:54-122 | iteration `iBody` writes its full row sum into entry `iBody` and changes no other entry |
| SimdOmp.SimulationNBodySIMD_OMP.ComputeBodiesAcceleration | murb-se/src/murb/implem/SimulationNBodySIMD_OMP.cpp:29-125 | whatever order the scheduler runs the iterations in, if it reaches every body, the buffer ends as `FullAccelerations(bodies)` |
| SimdOmp.SimulationNBodySIMD_OMP.ComputeOneIteration | murb-se/src/murb/implem/SimulationNBodySIMD_OMP.cpp:127-133 | reset, accumulate in any covering order, integrate: the buffer is exactly `FullAccelerations(bodies)` |

## Left out

- Floating point. Arithmetic is over `real`, so rounding and the
  association order of sums are not modelled. In particular the vector
  kernels sum the lanes in a different order from a scalar loop; over the
  reals both orders agree.
- The inverse cube. The kernels compute `distSq^(-3/2)` in several ways:
  `1/sqrt` cubed, `1/(distSq*sqrt(distSq))`, or the vector `rsqrt` cubed.
  The model keeps it as the function `invCube` carried by the force law. The
  results hold for any such function, so their numerical differences are not
  captured.
- The lane width `W = mipp::N<float>()`. It is a constant with `W >= 1` and
  no further assumptions. The mipp library itself is modelled only through
  the lane semantics of the operations the kernels call.
- OpenMP. `SimulationNBodySIMD_OMP.cpp` shares its outer loop among
  threads. The model runs the iterations one after another in an
  arbitrary covering order, passed as `order`. Real interleaving and the
  `schedule(runtime)` policy are not modelled. `SimulationNBodyOpenMP.cpp`
  contains no OpenMP directive despite its name, and the model follows the
  code: sequential loops.
- The integrator. `updatePositionsAndVelocities` is not part of this model.
  It is the parameter `advance`, applied to every body with its own entry of
  the buffer and `dt`.
- Constructors. Only the buffer allocation of one entry per body is
  modelled. `flopsPerIte` and the random initial bodies are not part of this
  model.
- Accessors. `getDataAoS`, `getDataSoA` and `getN` are modelled as reads of
  the `bodies` field, and `getDataSoA` as `Physics.ToSoA`.
- The GPU variant, `SimulationNBodyGPU.cpp`. It is outside the modelled
  core.
- Buffer entries. The three component writes to `accelerations[k].ax/.ay/.az`
  are modelled as one `Vec3` write. The pair arithmetic and the inner loops
  are factored into methods (`VisitPair`, `AccumulateRow`, `ComputeRow`,
  `VectorStrides`, `ScalarTail`). In the symmetric kernels, values the
  source computes before a loop (`softSquared` and `n` before the row loop,
  `qx_i` and `m_i` before the inner loop) are computed at the same point and
  passed to the methods that run the loop. A pair visit keeps the source's
  order of its two updates: entry `iBody`, or the row's locals, first, then
  entry `jBody`. The vector kernels' strides and tail use
  `SoftSquared(law)` where the source reads the `softSquared` it computed
  before the rows; the value is the same.
- A zero softening length. Every kernel takes a `Physics.Law`, whose
  `soft` is nonzero. With `soft = 0`, the full-policy kernels take
  `rsqrt(0)` at the self-pair `jBody == iBody` and multiply the infinite
  result by a zero separation, which gives NaN. The symmetric kernels only
  reach a zero distance when two bodies coincide. IEEE infinities and NaN
  are not modelled, so `Physics.PoliciesAgree` and
  `Physics.SelfPairVanishes` are stated for nonzero softening only. A
  negative `soft` is modelled, like in the program, through `soft * soft`.
- `std::pow` in the main tree. Both trees are modelled as `soft * soft`,
  because the main tree's `std::pow(soft, 2)` is equal to it over the reals.
- The pair schedule. The loops do not record which pairs they visit. That
  the triangular loop visits each pair `i < j < n` once is stated about
  `Schedule.Triangle` by `Schedule.TriangleExact`. That this schedule
  produces what the kernels accumulate is proved by
  `Symmetric.TriangleIsPartial` and `Symmetric.ScheduleComplete`, against
  the same `Partial` and `RowSoFar` functions the kernels' loop invariants
  use.
