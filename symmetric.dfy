/**
 * What the triangular loop of the symmetric kernels adds to the buffer.
 * Row `iBody` visits `jBody = iBody + 1 .. n - 1`; each visit adds the pull
 * of `jBody` to entry `iBody` and the pull of `iBody` to entry `jBody`.
 * After the first `i` rows, entry `k` has received the pulls of every body
 * that shares a visited pair with it; after all `n` rows, the pulls of every
 * other body.
 */
module Symmetric {
  import opened Physics
  import opened Schedule

  /** `Σ_{lo <= j < hi} Pull(k, j)`. */
  function SumFrom(law: Law, b: seq<Body>, k: nat, lo: nat, hi: nat): Vec3
    requires k < |b| && hi <= |b|
    decreases hi
  {
    if hi <= lo then Zero
    else Add(SumFrom(law, b, k, lo, hi - 1), Pull(law, b, k, hi - 1))
  }

  /** What row `i`, visited up to (excluding) `j`, has added to entry `k`:
      the pulls of bodies `i + 1 .. j - 1` on body `i`, or, for a body `k`
      the row has reached, the pull of `i` on `k`. */
  function RowSoFar(law: Law, b: seq<Body>, k: nat, i: nat, j: nat): Vec3
    requires k < |b| && i < j <= |b|
  {
    if k == i then SumFrom(law, b, i, i + 1, j)
    else if i < k < j then Pull(law, b, k, i)
    else Zero
  }

  /** What the whole row `i` adds to entry `k`. */
  function RowEffect(law: Law, b: seq<Body>, k: nat, i: nat): Vec3
    requires k < |b| && i < |b|
  {
    RowSoFar(law, b, k, i, |b|)
  }

  /** What the first `i` rows have added to entry `k`: every pull on `k`
      from a body `j < i`, and, once row `k` itself is done, the pulls of
      all bodies after `k`. */
  function Partial(law: Law, b: seq<Body>, k: nat, i: nat): Vec3
    requires k < |b| && i <= |b|
  {
    if k < i then Add(SumOthers(law, b, k, k), SumFrom(law, b, k, k + 1, |b|))
    else SumOthers(law, b, k, i)
  }

  /** Nothing has been added before the first row. */
  lemma PartialStart(law: Law, b: seq<Body>, k: nat)
    requires k < |b|
    ensures Partial(law, b, k, 0) == Zero
  {
  }

  /** One more visit of row `i` extends what the row has added so far. */
  lemma RowSoFarStep(law: Law, b: seq<Body>, k: nat, i: nat, j: nat)
    requires k < |b| && i < j < |b|
    ensures RowSoFar(law, b, k, i, j + 1) ==
            if k == i then Add(RowSoFar(law, b, k, i, j), Pull(law, b, i, j))
            else if k == j then Add(RowSoFar(law, b, k, i, j), Pull(law, b, j, i))
            else RowSoFar(law, b, k, i, j)
  {
  }

  /** Row `i` turns the first `i` rows' contribution into the first
      `i + 1` rows'. */
  lemma PartialStep(law: Law, b: seq<Body>, k: nat, i: nat)
    requires k < |b| && i < |b|
    ensures Add(Partial(law, b, k, i), RowEffect(law, b, k, i)) == Partial(law, b, k, i + 1)
  {
    if k > i {
      assert SumOthers(law, b, k, i + 1) == Add(SumOthers(law, b, k, i), Pull(law, b, k, i));
    }
  }

  /** The pulls before `k` and after `k` make up the sum over the others. */
  lemma {:induction false} OthersSplit(law: Law, b: seq<Body>, k: nat, hi: nat)
    requires k < hi <= |b|
    ensures Add(SumOthers(law, b, k, k), SumFrom(law, b, k, k + 1, hi)) == SumOthers(law, b, k, hi)
  {
    if hi > k + 1 {
      OthersSplit(law, b, k, hi - 1);
      assert SumOthers(law, b, k, hi) == Add(SumOthers(law, b, k, hi - 1), Pull(law, b, k, hi - 1));
    } else {
      assert SumOthers(law, b, k, k + 1) == SumOthers(law, b, k, k);
    }
  }

  /** After all `n` rows, entry `k` has received the pull of every other body. */
  lemma PartialComplete(law: Law, b: seq<Body>, k: nat)
    requires k < |b|
    ensures Partial(law, b, k, |b|) == Accel(law, b, k)
  {
    OthersSplit(law, b, k, |b|);
  }

  /** What one visit of the pair `p = (iBody, jBody)` adds to entry `k`: the
      pull of `jBody` if `k` is `iBody`, the pull of `iBody` if `k` is
      `jBody`, nothing otherwise. */
  function PairEffect(law: Law, b: seq<Body>, k: nat, p: (nat, nat)): Vec3
    requires k < |b|
  {
    if p.0 < |b| && p.1 < |b| then
      if k == p.0 then Pull(law, b, k, p.1)
      else if k == p.1 then Pull(law, b, k, p.0)
      else Zero
    else Zero
  }

  /** What visiting the pairs of `s`, in order, adds to entry `k`. */
  function Effect(law: Law, b: seq<Body>, k: nat, s: seq<(nat, nat)>): Vec3
    requires k < |b|
    decreases |s|
  {
    if |s| == 0 then Zero
    else Add(Effect(law, b, k, s[..|s| - 1]), PairEffect(law, b, k, s[|s| - 1]))
  }

  /** Visiting `s` and then `t` adds what each adds. */
  lemma {:induction false} EffectAppend(law: Law, b: seq<Body>, k: nat, s: seq<(nat, nat)>, t: seq<(nat, nat)>)
    requires k < |b|
    ensures Effect(law, b, k, s + t) == Add(Effect(law, b, k, s), Effect(law, b, k, t))
    decreases |t|
  {
    if |t| == 0 {
      assert s + t == s;
      AddZero(Effect(law, b, k, s));
    } else {
      var t' := t[..|t| - 1];
      var x := t[|t| - 1];
      assert (s + t)[..|s + t| - 1] == s + t';
      assert (s + t)[|s + t| - 1] == x;
      EffectAppend(law, b, k, s, t');
      AddAssoc(Effect(law, b, k, s), Effect(law, b, k, t'), PairEffect(law, b, k, x));
    }
  }

  /** The pairs row `i` visits up to (excluding) `j` add what the row has
      added so far. */
  lemma {:induction false} RowIsPairs(law: Law, b: seq<Body>, k: nat, i: nat, j: nat)
    requires k < |b| && i < j <= |b|
    ensures Effect(law, b, k, Row(i, i + 1, j)) == RowSoFar(law, b, k, i, j)
    decreases j
  {
    if j > i + 1 {
      RowIsPairs(law, b, k, i, j - 1);
      var r := Row(i, i + 1, j);
      assert r[..|r| - 1] == Row(i, i + 1, j - 1);
      assert r[|r| - 1] == (i, j - 1);
      RowSoFarStep(law, b, k, i, j - 1);
    }
  }

  /** Row `i - 1` of the schedule adds what the row adds. */
  lemma TriangleByRows(law: Law, b: seq<Body>, k: nat, i: nat)
    requires k < |b| && 0 < i <= |b|
    ensures Effect(law, b, k, Triangle(|b|, i)) ==
            Add(Effect(law, b, k, Triangle(|b|, i - 1)), RowEffect(law, b, k, i - 1))
  {
    EffectAppend(law, b, k, Triangle(|b|, i - 1), Row(i - 1, i, |b|));
    RowIsPairs(law, b, k, i - 1, |b|);
  }

  /** The first `i` rows of the triangular schedule add `Partial(k, i)`. */
  lemma {:induction false} TriangleIsPartial(law: Law, b: seq<Body>, k: nat, i: nat)
    requires k < |b| && i <= |b|
    ensures Effect(law, b, k, Triangle(|b|, i)) == Partial(law, b, k, i)
  {
    if i == 0 {
      PartialStart(law, b, k);
    } else {
      TriangleIsPartial(law, b, k, i - 1);
      TriangleByRows(law, b, k, i);
      PartialStep(law, b, k, i - 1);
    }
  }

  /** Visiting every pair `i < j < n` once, in the kernels' order, gives
      every body the pull of every other body. */
  lemma ScheduleComplete(law: Law, b: seq<Body>, k: nat)
    requires k < |b|
    ensures Effect(law, b, k, Triangle(|b|, |b|)) == Accel(law, b, k)
  {
    TriangleIsPartial(law, b, k, |b|);
    PartialComplete(law, b, k);
  }
}
