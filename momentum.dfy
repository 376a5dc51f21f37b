/**
 * Momentum conservation of the acceleration buffer: after reset and
 * accumulation, the mass-weighted sum of all accelerations is zero,
 * because every pair contributes equal and opposite forces.
 */
module Momentum {
  import opened Physics

  /** `Σ_{i < hi} m_i * acc_i`, the rate of change of the total momentum. */
  function MomentumRate(b: seq<Body>, acc: seq<Vec3>, hi: nat): Vec3
    requires hi <= |b| && hi <= |acc|
  {
    if hi == 0 then Zero
    else Add(MomentumRate(b, acc, hi - 1), Scale(b[hi - 1].m, acc[hi - 1]))
  }

  /** `Σ_{i < hi} m_i * Σ_{j < k, j != i} Pull(i, j)`: the momentum rate of the
      first `hi` bodies counting only the pulls of the first `k` bodies. */
  function Tri(law: Law, b: seq<Body>, k: nat, hi: nat): Vec3
    requires hi <= k <= |b|
  {
    if hi == 0 then Zero
    else Add(Tri(law, b, k, hi - 1), Scale(b[hi - 1].m, SumOthers(law, b, hi - 1, k)))
  }

  /** `Σ_{i < hi} m_i * Pull(i, k)`: what body `k` does to the first `hi` bodies. */
  function Column(law: Law, b: seq<Body>, k: nat, hi: nat): Vec3
    requires k < |b| && hi <= |b|
  {
    if hi == 0 then Zero
    else Add(Column(law, b, k, hi - 1), Scale(b[hi - 1].m, Pull(law, b, hi - 1, k)))
  }

  /** What the first `hi` bodies do to body `k` cancels what `k` does to them. */
  lemma {:induction false} RowCancelsColumn(law: Law, b: seq<Body>, k: nat, hi: nat)
    requires hi <= k < |b|
    ensures Add(Scale(b[k].m, SumOthers(law, b, k, hi)), Column(law, b, k, hi)) == Zero
  {
    if hi > 0 {
      var j := hi - 1;
      RowCancelsColumn(law, b, k, j);
      ActionReaction(law, b, k, j);
      var s := SumOthers(law, b, k, j);
      var p := Pull(law, b, k, j);
      assert SumOthers(law, b, k, hi) == Add(s, p);
      ScaleAdd(b[k].m, s, p);
      var column := Column(law, b, k, j);
      var back := Scale(b[j].m, Pull(law, b, j, k));
      assert Column(law, b, k, hi) == Add(column, back);
      var row := Scale(b[k].m, SumOthers(law, b, k, hi));
      assert row == Add(Scale(b[k].m, s), Scale(b[k].m, p));
      AddCancelPairs(Scale(b[k].m, s), Scale(b[k].m, p), column, back);
      assert Add(row, Add(column, back)) == Zero;
    } else {
      ScaleZero(b[k].m);
    }
  }

  /** Admitting body `k` adds its column to the triangle. */
  lemma {:induction false} TriGrows(law: Law, b: seq<Body>, k: nat, hi: nat)
    requires hi <= k < |b|
    ensures Tri(law, b, k + 1, hi) == Add(Tri(law, b, k, hi), Column(law, b, k, hi))
  {
    if hi > 0 {
      var i := hi - 1;
      TriGrows(law, b, k, i);
      var s := SumOthers(law, b, i, k);
      var p := Pull(law, b, i, k);
      assert SumOthers(law, b, i, k + 1) == Add(s, p);
      ScaleAdd(b[i].m, s, p);
    }
  }

  /** Among the first `k` bodies the internal forces cancel. */
  lemma {:induction false} TriVanishes(law: Law, b: seq<Body>, k: nat)
    requires k <= |b|
    ensures Tri(law, b, k, k) == Zero
  {
    if k > 0 {
      var j := k - 1;
      TriVanishes(law, b, j);
      TriGrows(law, b, j, j);
      RowCancelsColumn(law, b, j, j);
      assert SumOthers(law, b, j, k) == SumOthers(law, b, j, j);
    }
  }

  lemma {:induction false} MomentumRateIsTri(law: Law, b: seq<Body>, hi: nat)
    requires hi <= |b|
    ensures MomentumRate(b, Accelerations(law, b), hi) == Tri(law, b, |b|, hi)
  {
    if hi > 0 {
      MomentumRateIsTri(law, b, hi - 1);
    }
  }

  /** Newton's third law for the whole buffer: `Σ_i m_i * acc_i = 0`. */
  lemma MomentumCancels(law: Law, b: seq<Body>)
    ensures MomentumRate(b, Accelerations(law, b), |b|) == Zero
  {
    MomentumRateIsTri(law, b, |b|);
    TriVanishes(law, b, |b|);
  }
}
