/** Running mean and sum of squared deviations, over the reals: the incremental
    formulas agree with a full pass over the points. */
module Statistics {
  import opened Records

  type Vec = seq<real>

  // ---- what a full pass computes ----

  function At(v: Vec, k: nat): real { if k < |v| then v[k] else 0.0 }

  function SumAt(vs: seq<Vec>, k: nat): real {
    if vs == [] then 0.0 else SumAt(vs[..|vs| - 1], k) + At(vs[|vs| - 1], k)
  }

  function SquaresAt(vs: seq<Vec>, k: nat): real {
    if vs == [] then 0.0 else SquaresAt(vs[..|vs| - 1], k) + Sq(At(vs[|vs| - 1], k))
  }

  function Sq(x: real): real { x * x }

  /** Squared deviations of one coordinate from `c`. */
  function DevAt(vs: seq<Vec>, k: nat, c: real): real {
    if vs == [] then 0.0 else DevAt(vs[..|vs| - 1], k, c) + Sq(At(vs[|vs| - 1], k) - c)
  }

  /** Squared distances from `mean`, over the first `d` coordinates. */
  function Dev(vs: seq<Vec>, mean: Vec, d: nat): real {
    if d == 0 then 0.0 else Dev(vs, mean, d - 1) + DevAt(vs, d - 1, At(mean, d - 1))
  }

  predicate IsMean(vs: seq<Vec>, k: nat, c: real) { c * |vs| as real == SumAt(vs, k) }

  /** Exact statistics of the points: their average, and the sum of their squared
      distances from it. */
  ghost predicate IsExact(vs: seq<Vec>, dim: nat, mean: Vec, m2: real, count: int) {
    && (forall v :: v in vs ==> |v| == dim) && |mean| == dim && count == |vs|
    && (forall k :: 0 <= k < dim ==> IsMean(vs, k, At(mean, k)))
    && m2 == Dev(vs, mean, dim)
  }

  // ---- algebra of one coordinate ----

  lemma {:induction false} DevExpands(vs: seq<Vec>, k: nat, c: real)
    ensures DevAt(vs, k, c) == SquaresAt(vs, k) - 2.0 * c * SumAt(vs, k) + |vs| as real * c * c
    decreases |vs|
  {
    if vs != [] {
      var front := vs[..|vs| - 1];
      DevExpands(front, k, c);
      DevExpandsBy(SquaresAt(front, k), SumAt(front, k), |front| as real, At(vs[|vs| - 1], k), c);
    }
  }

  lemma DevExpandsBy(q: real, s: real, n: real, x: real, c: real)
    ensures (q - 2.0 * c * s + n * c * c) + Sq(x - c) == (q + Sq(x)) - 2.0 * c * (s + x) + (n + 1.0) * c * c
  {
    assert (x - c) * (x - c) == x * x - 2.0 * c * x + c * c;
    assert 2.0 * c * (s + x) == 2.0 * c * s + 2.0 * c * x;
    assert (n + 1.0) * c * c == n * c * c + c * c;
  }

  lemma SpreadOfMean(vs: seq<Vec>, k: nat, c: real, n: real)
    requires IsMean(vs, k, c) && n == |vs| as real
    ensures c * n == SumAt(vs, k) && DevAt(vs, k, c) == SquaresAt(vs, k) - n * c * c
  {
    DevExpands(vs, k, c);
  }

  // ---- Welford ----

  function Nudged(mean: real, x: real, n: real): real
    requires n != 0.0
  {
    mean + (x - mean) / n
  }

  function GainAt(mean: real, x: real, n: real): real
    requires n != 0.0
  {
    (x - mean) * (x - Nudged(mean, x, n))
  }

  /** The increments to the sum of squares over the first `d` coordinates. */
  function Gain(mean: Vec, p: Vec, n: real, d: nat): real
    requires n != 0.0
  {
    if d == 0 then 0.0 else Gain(mean, p, n, d - 1) + GainAt(At(mean, d - 1), At(p, d - 1), n)
  }

  function NewMean(mean: Vec, p: Vec, n: real): Vec
    requires n != 0.0
  {
    seq(|mean|, k requires 0 <= k < |mean| => if k < |p| then Nudged(mean[k], p[k], n) else mean[k])
  }

  /** `welford_update`. */
  method WelfordUpdate(mean: array<real>, m2: real, count: int, p: Vec) returns (m2': real, count': int)
    requires count >= 0
    modifies mean
    ensures count' == count + 1
    ensures mean[..] == NewMean(old(mean[..]), p, count' as real)
    ensures m2' == m2 + Gain(old(mean[..]), p, count' as real, Min(mean.Length, |p|))
  {
    count' := count + 1;
    var n := count' as real;
    var sqDeltaSum := 0.0;
    var len := Min(mean.Length, |p|);
    for k := 0 to len
      invariant sqDeltaSum == Gain(old(mean[..]), p, n, k)
      invariant forall j :: 0 <= j < k ==> mean[j] == Nudged(old(mean[j]), p[j], n)
      invariant forall j :: k <= j < mean.Length ==> mean[j] == old(mean[j])
    {
      var delta := p[k] - mean[k];
      mean[k] := mean[k] + delta / n;
      var delta2 := p[k] - mean[k];
      sqDeltaSum := sqDeltaSum + delta * delta2;
    }
    m2' := m2 + sqDeltaSum;
    assert mean[..] == NewMean(old(mean[..]), p, n);
  }

  lemma WelfordScalar(n: real, n1: real, s: real, q: real, mean: real, x: real, m: real)
    requires n >= 0.0 && n1 == n + 1.0 && mean * n == s && m == Nudged(mean, x, n1)
    ensures m * n1 == s + x && (q + Sq(x)) - n1 * m * m == (q - n * mean * mean) + GainAt(mean, x, n1)
  { }

  lemma WelfordCoordinate(vs: seq<Vec>, k: nat, mean: real, p: Vec, n1: real)
    requires IsMean(vs, k, mean) && n1 == (|vs| + 1) as real
    ensures var m := Nudged(mean, At(p, k), n1);
      IsMean(vs + [p], k, m) && DevAt(vs + [p], k, m) == DevAt(vs, k, mean) + GainAt(mean, At(p, k), n1)
  {
    var n := |vs| as real;
    SpreadOfMean(vs, k, mean, n);
    WelfordStep(vs, k, mean, p, n, n1, Nudged(mean, At(p, k), n1), DevAt(vs, k, mean));
  }

  lemma WelfordStep(vs: seq<Vec>, k: nat, mean: real, p: Vec, n: real, n1: real, m: real, before: real)
    requires n >= 0.0 && n1 == n + 1.0 && n1 == |vs + [p]| as real
    requires mean * n == SumAt(vs, k) && before == SquaresAt(vs, k) - n * mean * mean && m == Nudged(mean, At(p, k), n1)
    ensures IsMean(vs + [p], k, m) && DevAt(vs + [p], k, m) == before + GainAt(mean, At(p, k), n1)
  {
    assert (vs + [p])[..|vs|] == vs;
    WelfordScalar(n, n1, SumAt(vs, k), SquaresAt(vs, k), mean, At(p, k), m);
    assert IsMean(vs + [p], k, m);
    SpreadOfMean(vs + [p], k, m, n1);
  }

  lemma {:induction false} WelfordDev(vs: seq<Vec>, d: nat, mean: Vec, p: Vec, next: Vec, n1: real)
    requires forall k :: 0 <= k < d ==> IsMean(vs, k, At(mean, k))
    requires n1 == (|vs| + 1) as real && forall k :: 0 <= k < d ==> At(next, k) == Nudged(At(mean, k), At(p, k), n1)
    ensures Dev(vs + [p], next, d) == Dev(vs, mean, d) + Gain(mean, p, n1, d)
    decreases d
  {
    if d > 0 {
      WelfordDev(vs, d - 1, mean, p, next, n1);
      WelfordCoordinate(vs, d - 1, At(mean, d - 1), p, n1);
    }
  }

  /** One update takes exact statistics of the points to exact statistics of the
      points and the new one. */
  lemma WelfordKeepsExact(vs: seq<Vec>, dim: nat, mean: Vec, m2: real, count: int, p: Vec)
    requires IsExact(vs, dim, mean, m2, count) && |p| == dim
    ensures IsExact(vs + [p], dim, NewMean(mean, p, (count + 1) as real), m2 + Gain(mean, p, (count + 1) as real, dim), count + 1)
  {
    var next := NewMean(mean, p, (count + 1) as real);
    WelfordDev(vs, dim, mean, p, next, (count + 1) as real);
    forall k | 0 <= k < dim ensures IsMean(vs + [p], k, At(next, k)) { WelfordCoordinate(vs, k, At(mean, k), p, (count + 1) as real); }
  }

  /** And only those: what was not exact before is not exact after. */
  lemma WelfordLeavesInexact(vs: seq<Vec>, dim: nat, mean: Vec, m2: real, count: int, p: Vec)
    requires |mean| == dim && count == |vs| && |p| == dim
    requires IsExact(vs + [p], dim, NewMean(mean, p, (count + 1) as real), m2 + Gain(mean, p, (count + 1) as real, dim), count + 1)
    ensures IsExact(vs, dim, mean, m2, count)
  {
    var n1, next := (count + 1) as real, NewMean(mean, p, (count + 1) as real);
    forall v | v in vs ensures |v| == dim { assert v in vs + [p]; }
    forall k | 0 <= k < dim ensures IsMean(vs, k, At(mean, k)) {
      assert IsMean(vs + [p], k, At(next, k));
      OldMean(vs, k, At(mean, k), p, n1);
    }
    WelfordDev(vs, dim, mean, p, next, n1);
  }

  lemma OldMean(vs: seq<Vec>, k: nat, mean: real, p: Vec, n: real)
    requires n == |vs + [p]| as real && IsMean(vs + [p], k, Nudged(mean, At(p, k), n))
    ensures IsMean(vs, k, mean)
  {
    assert (vs + [p])[..|vs|] == vs;
    Unnudged(mean, At(p, k), n);
  }

  lemma Unnudged(mean: real, x: real, n: real)
    requires n != 0.0
    ensures Nudged(mean, x, n) * n == mean * (n - 1.0) + x
  { }

  lemma {:induction false} DevOfOne(p: Vec, d: nat)
    ensures Dev([p], p, d) == 0.0
    decreases d
  {
    if d > 0 {
      DevOfOne(p, d - 1);
      assert [p][..0] == [];
      assert DevAt([p], d - 1, At(p, d - 1)) == 0.0;
    }
  }

  /** A single point is its own mean, with no spread. */
  lemma OnePointExact(p: Vec)
    ensures IsExact([p], |p|, p, 0.0, 1)
  {
    DevOfOne(p, |p|);
    forall k | 0 <= k < |p| ensures IsMean([p], k, At(p, k)) { assert [p][..0] == []; }
  }

  datatype Stats = Stats(mean: Vec, m2: real, count: nat)

  /** Folding the update from the first point. */
  function Folded(vs: seq<Vec>): Stats
    requires vs != []
  {
    if |vs| == 1 then Stats(vs[0], 0.0, 1)
    else
      var s, p := Folded(vs[..|vs| - 1]), vs[|vs| - 1];
      var n := (s.count + 1) as real;
      Stats(NewMean(s.mean, p, n), s.m2 + Gain(s.mean, p, n, Min(|s.mean|, |p|)), s.count + 1)
  }

  /** For every sequence of points the fold gives the exact mean and spread. */
  lemma {:induction false} FoldingIsExact(vs: seq<Vec>, dim: nat)
    requires vs != [] && forall v :: v in vs ==> |v| == dim
    ensures var s := Folded(vs); IsExact(vs, dim, s.mean, s.m2, s.count)
    decreases |vs|
  {
    if |vs| == 1 {
      assert vs == [vs[0]];
      OnePointExact(vs[0]);
    } else {
      var front, p := vs[..|vs| - 1], vs[|vs| - 1];
      FoldingIsExact(front, dim);
      var s := Folded(front);
      WelfordKeepsExact(front, dim, s.mean, s.m2, s.count, p);
      assert vs == front + [p];
    }
  }

  // ---- Chan ----

  function PairMeanAt(na: real, nb: real, a: real, b: real): real
    requires na + nb != 0.0
  {
    (na * a + nb * b) / (na + nb)
  }

  function PairMean(na: real, nb: real, a: Vec, b: Vec, d: nat): (mean: Vec)
    requires na + nb != 0.0
    ensures |mean| == d && forall k :: 0 <= k < d ==> mean[k] == PairMeanAt(na, nb, At(a, k), At(b, k))
  {
    if d == 0 then [] else PairMean(na, nb, a, b, d - 1) + [PairMeanAt(na, nb, At(a, d - 1), At(b, d - 1))]
  }

  function Gap(a: Vec, b: Vec, d: nat): real {
    if d == 0 then 0.0 else Gap(a, b, d - 1) + Sq(At(a, d - 1) - At(b, d - 1))
  }

  function Combined(a: Stats, b: Stats): Stats {
    if a.count + b.count == 0 then Stats(a.mean, 0.0, 0)
    else if a.count == 0 then b
    else if b.count == 0 then a
    else
      var na, nb := a.count as real, b.count as real;
      Stats(PairMean(na, nb, a.mean, b.mean, |a.mean|),
            a.m2 + b.m2 + Weight(na, nb) * Gap(a.mean, b.mean, |a.mean|), a.count + b.count)
  }

  /** `combine_centroids`. Only when both sides have members does it read the
      second mean, at the indices of the first. */
  method CombineCentroids(a: Stats, b: Stats) returns (r: Stats)
    requires a.count > 0 && b.count > 0 ==> |a.mean| <= |b.mean|
    ensures r == Combined(a, b)
  {
    var total := a.count + b.count;
    if total == 0 { return Stats(a.mean, 0.0, 0); }
    if a.count == 0 { return b; }
    if b.count == 0 { return a; }
    var na, nb := a.count as real, b.count as real;
    var mean: Vec, deltaSq := [], 0.0;
    for i := 0 to |a.mean|
      invariant mean == PairMean(na, nb, a.mean, b.mean, i) && deltaSq == Gap(a.mean, b.mean, i)
    {
      mean := mean + [PairMeanAt(na, nb, a.mean[i], b.mean[i])];
      deltaSq := deltaSq + Sq(a.mean[i] - b.mean[i]);
    }
    r := Stats(mean, a.m2 + b.m2 + Weight(na, nb) * deltaSq, total);
  }

  lemma {:induction false} SumsAppend(us: seq<Vec>, vs: seq<Vec>, k: nat)
    ensures SumAt(us + vs, k) == SumAt(us, k) + SumAt(vs, k)
    ensures SquaresAt(us + vs, k) == SquaresAt(us, k) + SquaresAt(vs, k)
    decreases |vs|
  {
    if vs == [] {
      assert us + vs == us;
    } else {
      SumsAppend(us, vs[..|vs| - 1], k);
      assert (us + vs)[..|us + vs| - 1] == us + vs[..|vs| - 1];
    }
  }

  predicate SumsMatch(us: seq<Vec>, vs: seq<Vec>, ws: seq<Vec>, k: nat) {
    SumAt(ws, k) == SumAt(us, k) + SumAt(vs, k) && SquaresAt(ws, k) == SquaresAt(us, k) + SquaresAt(vs, k)
  }

  /** `ws` holds the points of `us` and of `vs`, in whatever order. */
  ghost predicate Union(us: seq<Vec>, vs: seq<Vec>, ws: seq<Vec>, d: nat) {
    |ws| == |us| + |vs| && forall k :: 0 <= k < d ==> SumsMatch(us, vs, ws, k)
  }

  /** How much of the squared gap of two means the combined spread gains. */
  function Weight(na: real, nb: real): real
    requires na + nb != 0.0
  {
    na * nb / (na + nb)
  }

  /** What makes `mean` the combined mean and `x` the spread it adds. */
  predicate ChanLaw(na: real, nb: real, n: real, a: real, b: real, mean: real, x: real) {
    mean * n == a * na + b * nb && na * a * a + nb * b * b - n * mean * mean == x
  }

  predicate Adds(us: seq<Vec>, vs: seq<Vec>, ws: seq<Vec>, k: nat, a: real, b: real, mean: real, x: real) {
    IsMean(ws, k, mean) && DevAt(ws, k, mean) == DevAt(us, k, a) + DevAt(vs, k, b) + x
  }

  lemma ChanCoordinate(us: seq<Vec>, vs: seq<Vec>, ws: seq<Vec>, k: nat, a: real, b: real, mean: real, x: real,
                       na: real, nb: real, n: real)
    requires na == |us| as real && nb == |vs| as real && n == |ws| as real && ChanLaw(na, nb, n, a, b, mean, x)
    requires SumsMatch(us, vs, ws, k) && IsMean(us, k, a) && IsMean(vs, k, b)
    ensures Adds(us, vs, ws, k, a, b, mean, x)
  {
    SpreadOfMean(us, k, a, na);
    SpreadOfMean(vs, k, b, nb);
    assert IsMean(ws, k, mean);
    SpreadOfMean(ws, k, mean, n);
  }

  function Total(xs: seq<real>): real {
    if xs == [] then 0.0 else Total(xs[..|xs| - 1]) + xs[|xs| - 1]
  }

  lemma {:induction false} DevsAddUp(us: seq<Vec>, vs: seq<Vec>, ws: seq<Vec>, a: Vec, b: Vec, mean: Vec, xs: seq<real>)
    requires forall k :: 0 <= k < |xs| ==> DevAt(ws, k, At(mean, k)) == DevAt(us, k, At(a, k)) + DevAt(vs, k, At(b, k)) + xs[k]
    ensures Dev(ws, mean, |xs|) == Dev(us, a, |xs|) + Dev(vs, b, |xs|) + Total(xs)
    decreases |xs|
  {
    if xs != [] { DevsAddUp(us, vs, ws, a, b, mean, xs[..|xs| - 1]); }
  }

  function Terms(w: real, a: Vec, b: Vec, d: nat): (xs: seq<real>)
    ensures |xs| == d
  {
    if d == 0 then [] else Terms(w, a, b, d - 1) + [w * Sq(At(a, d - 1) - At(b, d - 1))]
  }

  lemma {:induction false} TermsTotal(w: real, a: Vec, b: Vec, d: nat)
    ensures Total(Terms(w, a, b, d)) == w * Gap(a, b, d)
    decreases d
  {
    if d > 0 {
      var xs := Terms(w, a, b, d - 1);
      TermsTotal(w, a, b, d - 1);
    }
  }

  lemma {:induction false} TermAt(w: real, a: Vec, b: Vec, d: nat, k: nat)
    requires k < d
    ensures Terms(w, a, b, d)[k] == w * Sq(At(a, k) - At(b, k))
    decreases d
  {
    if k < d - 1 { TermAt(w, a, b, d - 1, k); }
  }

  lemma LawsHold(na: real, nb: real, n: real, a: Vec, b: Vec, mean: Vec, w: real, dim: nat)
    requires na + nb > 0.0 && n == na + nb && w == Weight(na, nb)
    requires forall k :: 0 <= k < dim ==> At(mean, k) == PairMeanAt(na, nb, At(a, k), At(b, k))
    ensures forall k :: 0 <= k < dim ==> ChanLaw(na, nb, n, At(a, k), At(b, k), At(mean, k), Terms(w, a, b, dim)[k])
  {
    forall k | 0 <= k < dim ensures ChanLaw(na, nb, n, At(a, k), At(b, k), At(mean, k), Terms(w, a, b, dim)[k]) {
      TermAt(w, a, b, dim, k);
      LawHolds(na, nb, n, At(a, k), At(b, k), At(mean, k));
    }
  }

  lemma LawHolds(na: real, nb: real, n: real, a: real, b: real, mean: real)
    requires na + nb > 0.0 && n == na + nb && mean == PairMeanAt(na, nb, a, b)
    ensures ChanLaw(na, nb, n, a, b, mean, Weight(na, nb) * Sq(a - b))
  { }

  lemma CombinedSpread(us: seq<Vec>, vs: seq<Vec>, ws: seq<Vec>, a: Vec, b: Vec, mean: Vec, xs: seq<real>)
    requires forall k :: 0 <= k < |xs| ==> Adds(us, vs, ws, k, At(a, k), At(b, k), At(mean, k), xs[k])
    ensures forall k :: 0 <= k < |xs| ==> IsMean(ws, k, At(mean, k))
    ensures Dev(ws, mean, |xs|) == Dev(us, a, |xs|) + Dev(vs, b, |xs|) + Total(xs)
  {
    DevsAddUp(us, vs, ws, a, b, mean, xs);
  }

  lemma CombinedParts(a: Stats, b: Stats, dim: nat, w: real)
    requires a.count > 0 && b.count > 0 && |a.mean| == dim && w == Weight(a.count as real, b.count as real)
    ensures var r := Combined(a, b);
      |r.mean| == dim && r.count == a.count + b.count && r.m2 == a.m2 + b.m2 + w * Gap(a.mean, b.mean, dim) &&
      forall k :: 0 <= k < dim ==> At(r.mean, k) == PairMeanAt(a.count as real, b.count as real, At(a.mean, k), At(b.mean, k))
  { }

  /** Combining the exact statistics of two sets of points, however their union
      is listed, gives the exact statistics of the union. */
  lemma CombineIsExact(us: seq<Vec>, vs: seq<Vec>, ws: seq<Vec>, dim: nat, a: Stats, b: Stats)
    requires IsExact(us, dim, a.mean, a.m2, a.count) && IsExact(vs, dim, b.mean, b.m2, b.count)
    requires Union(us, vs, ws, dim) && us != [] && vs != [] && forall v :: v in ws ==> |v| == dim
    ensures var r := Combined(a, b); IsExact(ws, dim, r.mean, r.m2, r.count)
  {
    CombineWith(us, vs, ws, dim, a, b, Weight(a.count as real, b.count as real), a.count as real, b.count as real);
  }

  lemma CombineWith(us: seq<Vec>, vs: seq<Vec>, ws: seq<Vec>, dim: nat, a: Stats, b: Stats, w: real, na: real, nb: real)
    requires IsExact(us, dim, a.mean, a.m2, a.count) && IsExact(vs, dim, b.mean, b.m2, b.count)
    requires Union(us, vs, ws, dim) && us != [] && vs != [] && forall v :: v in ws ==> |v| == dim
    requires na == a.count as real && nb == b.count as real && w == Weight(na, nb)
    ensures var r := Combined(a, b); IsExact(ws, dim, r.mean, r.m2, r.count)
  {
    CombinedParts(a, b, dim, w);
    CombinedMeans(us, vs, ws, dim, a.mean, b.mean, Combined(a, b).mean, w, na, nb);
  }

  lemma CombinedMeans(us: seq<Vec>, vs: seq<Vec>, ws: seq<Vec>, dim: nat, a: Vec, b: Vec, mean: Vec, w: real, na: real, nb: real)
    requires na == |us| as real && nb == |vs| as real && na + nb > 0.0 && w == Weight(na, nb)
    requires Union(us, vs, ws, dim) && forall k :: 0 <= k < dim ==> IsMean(us, k, At(a, k)) && IsMean(vs, k, At(b, k))
    requires forall k :: 0 <= k < dim ==> At(mean, k) == PairMeanAt(na, nb, At(a, k), At(b, k))
    ensures forall k :: 0 <= k < dim ==> IsMean(ws, k, At(mean, k))
    ensures Dev(ws, mean, dim) == Dev(us, a, dim) + Dev(vs, b, dim) + w * Gap(a, b, dim)
  {
    LawsHold(na, nb, |ws| as real, a, b, mean, w, dim);
    forall k | 0 <= k < |Terms(w, a, b, dim)| ensures Adds(us, vs, ws, k, At(a, k), At(b, k), At(mean, k), Terms(w, a, b, dim)[k]) {
      ChanCoordinate(us, vs, ws, k, At(a, k), At(b, k), At(mean, k), Terms(w, a, b, dim)[k], na, nb, |ws| as real);
    }
    CombinedSpread(us, vs, ws, a, b, mean, Terms(w, a, b, dim));
    TermsTotal(w, a, b, dim);
  }

  lemma OneMean(vs: seq<Vec>, k: nat, x: real, y: real)
    requires vs != [] && IsMean(vs, k, x) && IsMean(vs, k, y)
    ensures x == y
  {
    var n := |vs| as real;
    assert (x - y) * n == 0.0;
  }

  /** Exact statistics are unique, so any two ways of computing them agree. */
  lemma ExactIsUnique(vs: seq<Vec>, dim: nat, a: Stats, b: Stats)
    requires vs != [] && IsExact(vs, dim, a.mean, a.m2, a.count) && IsExact(vs, dim, b.mean, b.m2, b.count)
    ensures a == b
  {
    forall k | 0 <= k < dim ensures a.mean[k] == b.mean[k] {
      assert IsMean(vs, k, At(a.mean, k)) && IsMean(vs, k, At(b.mean, k));
      OneMean(vs, k, At(a.mean, k), At(b.mean, k));
    }
    assert a.mean == b.mean;
  }

  /** Statistics of the concatenation, from the statistics of the parts. */
  lemma CombineOfFolds(us: seq<Vec>, vs: seq<Vec>, dim: nat)
    requires us != [] && vs != [] && forall v :: v in us + vs ==> |v| == dim
    ensures Combined(Folded(us), Folded(vs)) == Folded(us + vs)
  {
    assert forall v :: v in us ==> v in us + vs;
    assert forall v :: v in vs ==> v in us + vs;
    FoldingIsExact(us, dim);
    FoldingIsExact(vs, dim);
    FoldingIsExact(us + vs, dim);
    forall k | 0 <= k < dim ensures SumsMatch(us, vs, us + vs, k) { SumsAppend(us, vs, k); }
    CombineIsExact(us, vs, us + vs, dim, Folded(us), Folded(vs));
    ExactIsUnique(us + vs, dim, Combined(Folded(us), Folded(vs)), Folded(us + vs));
  }

  // ---- splits ----

  /** The points assigned to one side. */
  function Picked(vs: seq<Vec>, side: seq<nat>, a: nat): seq<Vec>
    requires |side| == |vs|
  {
    if vs == [] then []
    else
      var front := Picked(vs[..|vs| - 1], side[..|vs| - 1], a);
      if side[|vs| - 1] == a then front + [vs[|vs| - 1]] else front
  }

  lemma {:induction false} PickedSums(vs: seq<Vec>, side: seq<nat>, k: nat)
    requires |side| == |vs| && forall j :: 0 <= j < |side| ==> side[j] == 0 || side[j] == 1
    ensures SumsMatch(Picked(vs, side, 0), Picked(vs, side, 1), vs, k)
    decreases |vs|
  {
    if vs != [] {
      var front, fside, v := vs[..|vs| - 1], side[..|vs| - 1], vs[|vs| - 1];
      PickedSums(front, fside, k);
      var p := Picked(front, fside, side[|vs| - 1]);
      assert (p + [v])[..|p|] == p;
    }
  }

  lemma {:induction false} PickedCounts(vs: seq<Vec>, side: seq<nat>)
    requires |side| == |vs| && forall j :: 0 <= j < |side| ==> side[j] == 0 || side[j] == 1
    ensures |vs| == |Picked(vs, side, 0)| + |Picked(vs, side, 1)|
    decreases |vs|
  {
    if vs != [] { PickedCounts(vs[..|vs| - 1], side[..|vs| - 1]); }
  }

  /** Combining the two halves of any exact split gives back the parent. */
  lemma RecombiningASplit(vs: seq<Vec>, side: seq<nat>, dim: nat, parent: Stats, a: Stats, b: Stats)
    requires |side| == |vs| && (forall j :: 0 <= j < |side| ==> side[j] == 0 || side[j] == 1)
    requires IsExact(vs, dim, parent.mean, parent.m2, parent.count)
    requires Picked(vs, side, 0) != [] && IsExact(Picked(vs, side, 0), dim, a.mean, a.m2, a.count)
    requires Picked(vs, side, 1) != [] && IsExact(Picked(vs, side, 1), dim, b.mean, b.m2, b.count)
    ensures Combined(a, b) == parent
  {
    assert Union(Picked(vs, side, 0), Picked(vs, side, 1), vs, dim) by {
      PickedCounts(vs, side);
      forall k | 0 <= k < dim ensures SumsMatch(Picked(vs, side, 0), Picked(vs, side, 1), vs, k) { PickedSums(vs, side, k); }
    }
    PickedCounts(vs, side);
    CombineIsExact(Picked(vs, side, 0), Picked(vs, side, 1), vs, dim, a, b);
    ExactIsUnique(vs, dim, Combined(a, b), parent);
  }

  // ---- variance ----

  function VarianceFromM2(m2: real, count: int): real {
    if count < 2 then 0.0 else m2 / (count as real - 1.0)
  }

  lemma {:induction false} DevAtNonNegative(vs: seq<Vec>, k: nat, c: real)
    ensures DevAt(vs, k, c) >= 0.0
    decreases |vs|
  {
    if vs != [] {
      DevAtNonNegative(vs[..|vs| - 1], k, c);
      SquareNonNegative(At(vs[|vs| - 1], k) - c);
    }
  }

  lemma SquareNonNegative(x: real)
    ensures Sq(x) >= 0.0
  { }

  lemma {:induction false} DevNonNegative(vs: seq<Vec>, mean: Vec, d: nat)
    ensures Dev(vs, mean, d) >= 0.0
    decreases d
  {
    if d > 0 {
      DevNonNegative(vs, mean, d - 1);
      DevAtNonNegative(vs, d - 1, At(mean, d - 1));
    }
  }

  /** From exact statistics the variance is the sample variance, never negative. */
  lemma VarianceIsSampleVariance(vs: seq<Vec>, dim: nat, s: Stats)
    requires IsExact(vs, dim, s.mean, s.m2, s.count)
    ensures VarianceFromM2(s.m2, s.count) >= 0.0
    ensures |vs| >= 2 ==> VarianceFromM2(s.m2, s.count) * (|vs| - 1) as real == Dev(vs, s.mean, dim)
  {
    DevNonNegative(vs, s.mean, dim);
  }
}
