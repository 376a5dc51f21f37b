/**
 * The index schedule of the symmetric kernels, as the sequence of pairs
 * `(iBody, jBody)` their loops visit in order: `jBody` starts at `iBody + 1`,
 * so every unordered pair is visited once.
 */
module Schedule {

  /** The pairs `(i, j)` for `lo <= j < hi`, in increasing `j`. */
  function Row(i: nat, lo: nat, hi: nat): (r: seq<(nat, nat)>)
    requires lo <= hi
    ensures |r| == hi - lo
    decreases hi - lo
  {
    if lo == hi then [] else Row(i, lo, hi - 1) + [(i, hi - 1)]
  }

  /** Pairs visited by the first `i` outer iterations of the triangular loop:
      A -> (B, C, D), B -> (C, D), C -> (D). */
  function Triangle(n: nat, i: nat): seq<(nat, nat)>
    requires i <= n
  {
    if i == 0 then [] else Triangle(n, i - 1) + Row(i - 1, i, n)
  }

  predicate LexLess(p: (nat, nat), q: (nat, nat)) {
    p.0 < q.0 || (p.0 == q.0 && p.1 < q.1)
  }

  /** Strictly increasing in loop order; in particular no pair repeats. */
  predicate Increasing(s: seq<(nat, nat)>) {
    forall t, u :: 0 <= t < u < |s| ==> LexLess(s[t], s[u])
  }

  /** A row is increasing and holds exactly the pairs `(i, j)`, `lo <= j < hi`. */
  lemma {:induction false} RowIncreasing(i: nat, lo: nat, hi: nat)
    requires lo <= hi
    ensures Increasing(Row(i, lo, hi))
    ensures forall p :: p in Row(i, lo, hi) <==> p.0 == i && lo <= p.1 < hi
    decreases hi - lo
  {
    if lo < hi {
      RowIncreasing(i, lo, hi - 1);
      var r := Row(i, lo, hi - 1);
      var c := r + [(i, hi - 1)];
      forall t, u | 0 <= t < u < |c|
        ensures LexLess(c[t], c[u])
      {
        assert c[t] == r[t] && r[t] in r;
        if u < |r| {
          assert c[u] == r[u];
        }
      }
    }
  }

  /** Concatenating two increasing runs, all of the first below all of the
      second, gives an increasing run. */
  lemma AppendIncreasing(s: seq<(nat, nat)>, r: seq<(nat, nat)>, i: nat)
    requires Increasing(s) && Increasing(r)
    requires forall p :: p in s ==> p.0 < i
    requires forall p :: p in r ==> p.0 == i
    ensures Increasing(s + r)
  {
    var c := s + r;
    forall t, u | 0 <= t < u < |c|
      ensures LexLess(c[t], c[u])
    {
      if u >= |s| {
        assert c[u] == r[u - |s|];
        if t >= |s| {
          assert c[t] == r[t - |s|];
        } else {
          assert c[t] == s[t];
          assert s[t] in s;
          assert r[u - |s|] in r;
        }
      }
    }
  }

  /** The triangular loop visits exactly the pairs `i < j < n`, each once. */
  lemma {:induction false} TriangleExact(n: nat, i: nat)
    requires i <= n
    ensures forall p :: p in Triangle(n, i) <==> p.0 < i && p.0 < p.1 < n
    ensures Increasing(Triangle(n, i))
  {
    if i > 0 {
      TriangleExact(n, i - 1);
      RowIncreasing(i - 1, i, n);
      AppendIncreasing(Triangle(n, i - 1), Row(i - 1, i, n), i - 1);
    }
  }

  /** The triangle has `i (2n - i - 1) / 2` pairs; `n (n - 1) / 2` in all. */
  lemma {:induction false} TriangleSize(n: nat, i: nat)
    requires i <= n
    ensures 2 * |Triangle(n, i)| == i * (2 * n - i - 1)
  {
    if i > 0 {
      TriangleSize(n, i - 1);
      var before := |Triangle(n, i - 1)|;
      assert |Triangle(n, i)| == before + (n - i);
      TriangleStep(n, i, before);
    }
  }

  lemma TriangleStep(n: nat, i: nat, before: int)
    requires 0 < i <= n
    requires 2 * before == (i - 1) * (2 * n - i)
    ensures 2 * (before + (n - i)) == i * (2 * n - i - 1)
  {
  }
}
