/** Lloyd's algorithm for two clusters, for any distance function. */
module KMeans {
  import opened Records
  import opened Statistics

  datatype Member = Member(id: Uuid, vector: Vec)

  datatype Cluster = Cluster(mean: Vec, m2: real, count: nat, ids: seq<Uuid>, distances: seq<real>)

  datatype Split = TooFew | BadDimension | Clusters(a: Cluster, b: Cluster)

  type Distance = (Vec, Vec) -> real

  function Vectors(members: seq<Member>): (vs: seq<Vec>)
    ensures |vs| == |members| && forall k :: 0 <= k < |vs| ==> vs[k] == members[k].vector
  {
    seq(|members|, k requires 0 <= k < |members| => members[k].vector)
  }

  function Ids(members: seq<Member>): (ids: seq<Uuid>)
    ensures |ids| == |members| && forall k :: 0 <= k < |ids| ==> ids[k] == members[k].id
  {
    seq(|members|, k requires 0 <= k < |members| => members[k].id)
  }

  function PickedIds(members: seq<Member>, side: seq<nat>, a: nat): seq<Uuid>
    requires |side| == |members|
  {
    if members == [] then []
    else
      var front := PickedIds(members[..|members| - 1], side[..|members| - 1], a);
      if side[|members| - 1] == a then front + [members[|members| - 1].id] else front
  }

  predicate TwoSided(side: seq<nat>) {
    (forall k :: 0 <= k < |side| ==> side[k] == 0 || side[k] == 1) && 0 in side && 1 in side
  }

  /** No two members are further apart than the guard of the degenerate case. */
  predicate Degenerate(members: seq<Member>, dist: Distance) {
    forall i, j :: 0 <= i < j < |members| ==> dist(members[i].vector, members[j].vector) <= 0.000000001
  }

  predicate SameDim(members: seq<Member>) {
    forall k :: 0 <= k < |members| ==> |members[k].vector| == |members[0].vector|
  }

  /** The cluster lists the ids assigned to side `a` and counts them. */
  predicate Lists(members: seq<Member>, side: seq<nat>, a: nat, c: Cluster) {
    |side| == |members| && c.ids == PickedIds(members, side, a) && c.count == |c.ids| == |c.distances|
  }

  ghost predicate ExactFor(members: seq<Member>, side: seq<nat>, a: nat, c: Cluster) {
    |side| == |members| && members != [] &&
    IsExact(Picked(Vectors(members), side, a), |members[0].vector|, c.mean, c.m2, c.count)
  }

  // ---- the lists partition the input ----

  lemma {:induction false} PickedSameLength(members: seq<Member>, side: seq<nat>, a: nat)
    requires |side| == |members|
    ensures |PickedIds(members, side, a)| == |Picked(Vectors(members), side, a)|
    decreases |members|
  {
    if members != [] {
      PickedSameLength(members[..|members| - 1], side[..|members| - 1], a);
      assert Vectors(members)[..|members| - 1] == Vectors(members[..|members| - 1]);
    }
  }

  /** Between them the two sides list every id, as often as the input does. */
  lemma {:induction false} SidesPartitionIds(members: seq<Member>, side: seq<nat>)
    requires |side| == |members| && forall k :: 0 <= k < |side| ==> side[k] == 0 || side[k] == 1
    ensures multiset(PickedIds(members, side, 0)) + multiset(PickedIds(members, side, 1)) == multiset(Ids(members))
    decreases |members|
  {
    if members != [] {
      var n := |members| - 1;
      SidesPartitionIds(members[..n], side[..n]);
      assert Ids(members) == Ids(members[..n]) + [members[n].id];
    }
  }

  lemma {:induction false} SideNotEmpty(members: seq<Member>, side: seq<nat>, a: nat)
    requires |side| == |members| && a in side
    ensures PickedIds(members, side, a) != []
    decreases |members|
  {
    var n := |members| - 1;
    if side[n] != a {
      assert side == side[..n] + [side[n]];
      SideNotEmpty(members[..n], side[..n], a);
    }
  }

  // ---- the algorithm ----

  /** Which mean a member is nearer to; ties go to the first. */
  function Nearer(m: Member, mean0: Vec, mean1: Vec, dist: Distance): nat {
    if dist(m.vector, mean0) <= dist(m.vector, mean1) then 0 else 1
  }

  /** Index of the member farthest from `mean`, for moving one into an empty
      cluster; the search starts at -1, below every distance. */
  method Farthest(members: seq<Member>, mean: Vec, dist: Distance) returns (idx: nat)
    requires members != []
    ensures idx < |members|
    ensures forall k :: 0 <= k < |members| && dist(members[k].vector, mean) > -1.0 ==>
      dist(members[k].vector, mean) <= dist(members[idx].vector, mean)
  {
    idx := 0;
    var far := -1.0;
    for k := 0 to |members|
      invariant idx < |members| && (far > -1.0 ==> far == dist(members[idx].vector, mean)) && far >= -1.0
      invariant forall j :: 0 <= j < k ==> dist(members[j].vector, mean) <= far
    {
      var d := dist(members[k].vector, mean);
      if d > far { far, idx := d, k; }
    }
  }

  /** One pass of assigning members to the nearer mean, then filling an empty
      cluster: afterwards neither cluster is empty, and every member is with its
      nearer mean, save one if all were nearer to the same. */
  method Assign(members: seq<Member>, mean0: Vec, mean1: Vec, dist: Distance, side: array<nat>)
    returns (changed: bool, ghost moved: Option<nat>)
    requires |members| >= 2 && side.Length == |members|
    modifies side
    ensures TwoSided(side[..])
    ensures changed <==> side[..] != old(side[..]) || moved.Some?
    ensures forall k :: 0 <= k < |members| && moved != Some(k) ==> side[k] == Nearer(members[k], mean0, mean1, dist)
    ensures moved.Some? ==> moved.value < |members| && (forall k :: 0 <= k < |members| ==>
      Nearer(members[k], mean0, mean1, dist) == 1 - side[moved.value])
  {
    changed, moved := false, None;
    var count0, count1 := 0, 0;
    ghost var in0: nat, in1: nat := 0, 0;
    for k := 0 to |members|
      invariant count0 >= 0 && count1 >= 0 && count0 + count1 == k
      invariant forall j :: 0 <= j < k ==> side[j] == Nearer(members[j], mean0, mean1, dist)
      invariant count0 == 0 ==> forall j :: 0 <= j < k ==> side[j] == 1
      invariant count1 == 0 ==> forall j :: 0 <= j < k ==> side[j] == 0
      invariant count0 > 0 ==> in0 < k && side[in0] == 0
      invariant count1 > 0 ==> in1 < k && side[in1] == 1
      invariant forall j :: k <= j < side.Length ==> side[j] == old(side[j])
      invariant !changed <==> side[..] == old(side[..])
    {
      var d0 := dist(members[k].vector, mean0);
      var d1 := dist(members[k].vector, mean1);
      var assign := if d0 <= d1 then 0 else 1;
      assert side[..][k] == old(side[..])[k];
      if assign != side[k] {
        side[k] := assign;
        changed := true;
        assert side[..][k] != old(side[..])[k];
      }
      if assign == 0 { count0, in0 := count0 + 1, k; } else { count1, in1 := count1 + 1, k; }
    }
    if count0 == 0 {
      var far := Farthest(members, mean1, dist);
      side[far] := 0;
      changed, moved := true, Some(far);
      assert side[..][far] == 0 && side[..][if far == 0 then 1 else 0] == 1;
    } else if count1 == 0 {
      var far := Farthest(members, mean0, dist);
      side[far] := 1;
      changed, moved := true, Some(far);
      assert side[..][far] == 1 && side[..][if far == 0 then 1 else 0] == 0;
    } else {
      assert side[..][in0] == 0 && side[..][in1] == 1;
    }
  }

  /** The average of one side, or the old mean for an empty side. */
  method Average(members: seq<Member>, side: seq<nat>, a: nat, mean: Vec) returns (r: Vec)
    requires |side| == |members| && members != [] && SameDim(members) && |mean| == |members[0].vector|
    ensures |r| == |mean|
    ensures Picked(Vectors(members), side, a) == [] ==> r == mean
    ensures Picked(Vectors(members), side, a) != [] ==>
      forall k :: 0 <= k < |r| ==> IsMean(Picked(Vectors(members), side, a), k, r[k])
  {
    var dim := |mean|;
    var sum := new real[dim](_ => 0.0);
    var n := 0;
    for k := 0 to |members|
      invariant n == |Picked(Vectors(members)[..k], side[..k], a)|
      invariant forall j :: 0 <= j < dim ==> sum[j] == SumAt(Picked(Vectors(members)[..k], side[..k], a), j)
    {
      PickedNext(members, side, a, k);
      if side[k] == a {
        n := n + 1;
        AddInto(sum, members[k].vector, Picked(Vectors(members)[..k], side[..k], a));
      }
    }
    assert Vectors(members)[..|members|] == Vectors(members) && side[..|members|] == side;
    if n > 0 { r := Divided(sum[..], n, Picked(Vectors(members), side, a)); } else { r := mean; }
  }

  method AddInto(sum: array<real>, v: Vec, ghost vs: seq<Vec>)
    requires |v| == sum.Length && forall j :: 0 <= j < sum.Length ==> sum[j] == SumAt(vs, j)
    modifies sum
    ensures forall j :: 0 <= j < sum.Length ==> sum[j] == SumAt(vs + [v], j)
  {
    for j := 0 to |v|
      invariant forall i :: 0 <= i < j ==> sum[i] == SumAt(vs, i) + v[i]
      invariant forall i :: j <= i < sum.Length ==> sum[i] == SumAt(vs, i)
    {
      sum[j] := sum[j] + v[j];
    }
    forall j | 0 <= j < sum.Length ensures sum[j] == SumAt(vs + [v], j) { SumPush(vs, v, j); }
  }

  method Divided(sum: seq<real>, n: nat, ghost vs: seq<Vec>) returns (r: Vec)
    requires n == |vs| > 0 && forall j :: 0 <= j < |sum| ==> sum[j] == SumAt(vs, j)
    ensures |r| == |sum| && forall k :: 0 <= k < |r| ==> IsMean(vs, k, r[k])
  {
    r := seq(|sum|, k requires 0 <= k < |sum| => sum[k] / n as real);
    forall k | 0 <= k < |r| ensures IsMean(vs, k, r[k]) { Quotient(sum[k], n as real); }
  }

  lemma SumPush(vs: seq<Vec>, v: Vec, k: nat)
    ensures SumAt(vs + [v], k) == SumAt(vs, k) + At(v, k)
  {
    assert (vs + [v])[..|vs|] == vs;
  }

  lemma Quotient(x: real, n: real)
    requires n > 0.0
    ensures x / n * n == x
  { }

  lemma PickedIdsNext(members: seq<Member>, side: seq<nat>, a: nat, k: nat)
    requires |side| == |members| && k < |members|
    ensures var p := PickedIds(members[..k], side[..k], a);
      PickedIds(members[..k + 1], side[..k + 1], a) == if side[k] == a then p + [members[k].id] else p
  {
    assert side[..k + 1][..k] == side[..k] && members[..k + 1][..k] == members[..k];
  }

  lemma PickedNext(members: seq<Member>, side: seq<nat>, a: nat, k: nat)
    requires |side| == |members| && k < |members|
    ensures var p := Picked(Vectors(members)[..k], side[..k], a);
      Picked(Vectors(members)[..k + 1], side[..k + 1], a) == if side[k] == a then p + [members[k].vector] else p
    ensures var p := PickedIds(members[..k], side[..k], a);
      PickedIds(members[..k + 1], side[..k + 1], a) == if side[k] == a then p + [members[k].id] else p
  {
    PickedIdsNext(members, side, a, k);
    assert Vectors(members)[..k + 1][..k] == Vectors(members)[..k] && side[..k + 1][..k] == side[..k];
  }

  ghost predicate Running(vs: seq<Vec>, dim: nat, mean: Vec, m2: real, count: nat) {
    count == |vs| && if count == 0 then m2 == 0.0 else IsExact(vs, dim, mean, m2, count)
  }

  /** The first point becomes the mean; later ones update it. */
  method AddPoint(mean: array<real>, m2: real, count: nat, v: Vec, ghost vs: seq<Vec>) returns (m2': real, count': nat)
    requires |v| == mean.Length && Running(vs, |v|, mean[..], m2, count)
    modifies mean
    ensures count' == count + 1 && Running(vs + [v], |v|, mean[..], m2', count')
  {
    if count == 0 {
      for j := 0 to |v|
        invariant forall i :: 0 <= i < j ==> mean[i] == v[i]
      {
        mean[j] := v[j];
      }
      m2', count' := m2, 1;
      assert mean[..] == v && vs + [v] == [v];
      OnePointExact(v);
    } else {
      WelfordKeepsExact(vs, |v|, mean[..], m2, count, v);
      m2', count' := WelfordUpdate(mean, m2, count, v);
    }
  }

  /** The closure `build_cluster`: the final metrics of one side. */
  method BuildCluster(members: seq<Member>, side: seq<nat>, a: nat, mean: Vec, dist: Distance) returns (c: Cluster)
    requires |side| == |members| && members != [] && SameDim(members) && a in side
    ensures Lists(members, side, a, c) && c.count > 0 && ExactFor(members, side, a, c)
  {
    var dim := |members[0].vector|;
    var ids: seq<Uuid>, distances: seq<real> := [], [];
    var cMean := new real[dim](_ => 0.0);
    var m2, count := 0.0, 0;
    for k := 0 to |members|
      invariant ids == PickedIds(members[..k], side[..k], a) && count == |ids| == |distances|
      invariant Running(Picked(Vectors(members)[..k], side[..k], a), dim, cMean[..], m2, count)
    {
      PickedNext(members, side, a, k);
      if side[k] == a {
        var v := members[k].vector;
        ids := ids + [members[k].id];
        distances := distances + [dist(v, mean)];
        m2, count := AddPoint(cMean, m2, count, v, Picked(Vectors(members)[..k], side[..k], a));
      }
    }
    assert members[..|members|] == members && side[..|members|] == side && Vectors(members)[..|members|] == Vectors(members);
    SideNotEmpty(members, side, a);
    c := Cluster(if count > 0 then cMean[..] else mean, m2, count, ids, distances);
  }

  /** The pair farthest apart, and whether the guard finds it far enough. */
  method FarthestPair(members: seq<Member>, dist: Distance) returns (i: nat, j: nat, max: real)
    requires |members| >= 2
    ensures i < |members| && j < |members|
    ensures max > -1.0 ==> i < j && max == dist(members[i].vector, members[j].vector)
    ensures forall a, b :: 0 <= a < b < |members| ==> dist(members[a].vector, members[b].vector) <= max
    ensures max <= 0.000000001 <==> Degenerate(members, dist)
  {
    i, j, max := 0, 1, -1.0;
    for p := 0 to |members|
      invariant i < |members| && j < |members| && max >= -1.0
      invariant max > -1.0 ==> i < j && max == dist(members[i].vector, members[j].vector)
      invariant forall a, b :: 0 <= a < p && a < b < |members| ==> dist(members[a].vector, members[b].vector) <= max
    {
      for q := p + 1 to |members|
        invariant i < |members| && j < |members| && max >= -1.0
        invariant max > -1.0 ==> i < j && max == dist(members[i].vector, members[j].vector)
        invariant forall a, b :: 0 <= a < p && a < b < |members| ==> dist(members[a].vector, members[b].vector) <= max
        invariant forall b :: p < b < q ==> dist(members[p].vector, members[b].vector) <= max
      {
        var d := dist(members[p].vector, members[q].vector);
        if d > max { max, i, j := d, p, q; }
      }
    }
  }

  function Halves(n: nat): (side: seq<nat>)
    ensures |side| == n && forall k :: 0 <= k < n ==> side[k] == if k < n / 2 then 0 else 1
  {
    seq(n, k => if k < n / 2 then 0 else 1)
  }

  /** `kmeans2`. Errors exactly for fewer than two members or unequal dimensions;
      otherwise, for any distance function and however the loop ends, the two
      clusters are non-empty and list the two sides of one assignment of the
      members. Outside the degenerate case their statistics are exact. */
  method Kmeans2(members: seq<Member>, dist: Distance) returns (r: Split, ghost side: seq<nat>)
    ensures r.TooFew? <==> |members| < 2
    ensures r.BadDimension? <==> |members| >= 2 && !SameDim(members)
    ensures r.Clusters? ==> |side| == |members| && TwoSided(side) && Lists(members, side, 0, r.a) && Lists(members, side, 1, r.b)
    ensures r.Clusters? ==> r.a.count > 0 && r.b.count > 0
    ensures r.Clusters? ==> multiset(r.a.ids) + multiset(r.b.ids) == multiset(Ids(members))
    ensures r.Clusters? && !Degenerate(members, dist) ==> ExactFor(members, side, 0, r.a) && ExactFor(members, side, 1, r.b)
    ensures r.Clusters? && Degenerate(members, dist) ==>
      side == Halves(|members|) && r.a.mean == r.b.mean == members[0].vector && r.a.m2 == r.b.m2 == 0.0
  {
    side := [];
    if |members| < 2 { return TooFew, side; }
    var dim := |members[0].vector|;
    for k := 0 to |members|
      invariant forall j :: 0 <= j < k ==> |members[j].vector| == dim
    {
      if |members[k].vector| != dim { return BadDimension, side; }
    }
    var i, j, max := FarthestPair(members, dist);
    if max <= 0.000000001 {
      r := SplitInHalves(members);
      side := Halves(|members|);
      SidesPartitionIds(members, side);
      return;
    }
    var mean0, mean1 := members[i].vector, members[j].vector;
    var assignments := new nat[|members|](_ => 0);
    var iter := 0;
    var changed := true;
    while iter < 50 && changed
      invariant 0 <= iter <= 50 && |mean0| == |mean1| == dim
      invariant iter == 0 ==> changed
      invariant iter > 0 ==> TwoSided(assignments[..])
    {
      ghost var moved;
      changed, moved := Assign(members, mean0, mean1, dist, assignments);
      if changed {
        mean0 := Average(members, assignments[..], 0, mean0);
        mean1 := Average(members, assignments[..], 1, mean1);
      }
      iter := iter + 1;
    }
    side := assignments[..];
    var a := BuildCluster(members, assignments[..], 0, mean0, dist);
    var b := BuildCluster(members, assignments[..], 1, mean1, dist);
    SidesPartitionIds(members, side);
    r := Clusters(a, b);
  }

  method SplitInHalves(members: seq<Member>) returns (r: Split)
    requires |members| >= 2
    ensures r.Clusters? && Lists(members, Halves(|members|), 0, r.a) && Lists(members, Halves(|members|), 1, r.b)
    ensures r.a.count > 0 && r.b.count > 0 && TwoSided(Halves(|members|))
    ensures r.a.mean == r.b.mean == members[0].vector && r.a.m2 == r.b.m2 == 0.0
  {
    var mid := |members| / 2;
    var first, second := members[..mid], members[mid..];
    var mean := members[0].vector;
    r := Clusters(Cluster(mean, 0.0, mid, Ids(first), seq(mid, _ => 0.0)),
                  Cluster(mean, 0.0, |members| - mid, Ids(second), seq(|members| - mid, _ => 0.0)));
    FirstHalf(members, Halves(|members|), mid, |members|);
    SecondHalf(members, Halves(|members|), mid, |members|);
    assert members[..|members|] == members && Halves(|members|)[..|members|] == Halves(|members|);
    assert Halves(|members|)[0] == 0 && Halves(|members|)[|members| - 1] == 1;
  }

  lemma {:induction false} FirstHalf(members: seq<Member>, side: seq<nat>, mid: nat, k: nat)
    requires k <= |members| == |side| && mid <= |members| && forall j :: 0 <= j < |side| ==> side[j] == if j < mid then 0 else 1
    ensures PickedIds(members[..k], side[..k], 0) == Ids(members[..Min(k, mid)])
    decreases k
  {
    if k > 0 {
      FirstHalf(members, side, mid, k - 1);
      PickedIdsNext(members, side, 0, k - 1);
      if k <= mid { assert Ids(members[..k]) == Ids(members[..k - 1]) + [members[k - 1].id]; }
    }
  }

  lemma IdsPush(members: seq<Member>, lo: nat, k: nat)
    requires lo < k <= |members|
    ensures Ids(members[lo..k]) == (if k - 1 <= lo then [] else Ids(members[lo..k - 1])) + [members[k - 1].id]
  { }

  lemma {:induction false} SecondHalf(members: seq<Member>, side: seq<nat>, mid: nat, k: nat)
    requires k <= |members| == |side| && mid <= |members| && forall j :: 0 <= j < |side| ==> side[j] == if j < mid then 0 else 1
    ensures PickedIds(members[..k], side[..k], 1) == if k <= mid then [] else Ids(members[mid..k])
    decreases k
  {
    if k > 0 {
      SecondHalf(members, side, mid, k - 1);
      PickedIdsNext(members, side, 1, k - 1);
      if k > mid { IdsPush(members, mid, k); }
    }
  }

  // ---- the degenerate case ----

  lemma {:induction false} NoSpreadAt(vs: seq<Vec>, k: nat, c: real)
    requires DevAt(vs, k, c) == 0.0
    ensures forall v :: v in vs ==> At(v, k) == c
    decreases |vs|
  {
    if vs != [] {
      var n := |vs| - 1;
      DevAtNonNegative(vs[..n], k, c);
      SquareNonNegative(At(vs[n], k) - c);
      NoSpreadAt(vs[..n], k, c);
      ZeroSquare(At(vs[n], k) - c);
      assert vs == vs[..n] + [vs[n]];
    }
  }

  lemma ZeroSquare(x: real)
    requires Sq(x) == 0.0
    ensures x == 0.0
  {
    assert x * x == 0.0;
    if x > 0.0 { ZeroFactor(x, x); } else if x < 0.0 { ZeroFactor(-x, x); }
  }

  lemma ZeroFactor(x: real, y: real)
    requires x > 0.0 && x * y == 0.0
    ensures y == 0.0
  { }

  lemma {:induction false} NoSpread(vs: seq<Vec>, mean: Vec, d: nat)
    requires Dev(vs, mean, d) == 0.0
    ensures forall v, k :: v in vs && 0 <= k < d ==> At(v, k) == At(mean, k)
    decreases d
  {
    if d > 0 {
      DevNonNegative(vs, mean, d - 1);
      DevAtNonNegative(vs, d - 1, At(mean, d - 1));
      NoSpread(vs, mean, d - 1);
      NoSpreadAt(vs, d - 1, At(mean, d - 1));
    }
  }

  lemma {:induction false} ConstantSpread(vs: seq<Vec>, mean: Vec, d: nat)
    requires forall v :: v in vs ==> v == mean
    ensures Dev(vs, mean, d) == 0.0
    decreases d
  {
    if d > 0 {
      ConstantSpread(vs, mean, d - 1);
      ConstantSums(vs, mean, d - 1);
    }
  }

  lemma {:induction false} ConstantSums(vs: seq<Vec>, mean: Vec, k: nat)
    requires forall v :: v in vs ==> v == mean
    ensures DevAt(vs, k, At(mean, k)) == 0.0 && IsMean(vs, k, At(mean, k))
    decreases |vs|
  {
    if vs != [] {
      var n := |vs| - 1;
      assert vs[n] in vs && forall v :: v in vs[..n] ==> v in vs;
      ConstantSums(vs[..n], mean, k);
    }
  }

  /** One vector as mean with no spread is exact only for copies of it. */
  lemma ConstantIsExactIff(vs: seq<Vec>, v0: Vec)
    requires forall v :: v in vs ==> |v| == |v0|
    ensures IsExact(vs, |v0|, v0, 0.0, |vs|) <==> forall v :: v in vs ==> v == v0
  {
    if IsExact(vs, |v0|, v0, 0.0, |vs|) {
      NoSpread(vs, v0, |v0|);
      forall v | v in vs ensures v == v0 {
        forall k | 0 <= k < |v0| ensures v[k] == v0[k] { assert At(v, k) == At(v0, k); }
      }
    } else if forall v :: v in vs ==> v == v0 {
      ConstantSpread(vs, v0, |v0|);
      forall k | 0 <= k < |v0| ensures IsMean(vs, k, At(v0, k)) { ConstantSums(vs, v0, k); }
    }
  }

  /** The vectors on side `a` are the picked ones. */
  lemma {:induction false} PickedCovers(vs: seq<Vec>, side: seq<nat>, a: nat)
    requires |side| == |vs|
    ensures forall k :: 0 <= k < |vs| && side[k] == a ==> vs[k] in Picked(vs, side, a)
    ensures forall v :: v in Picked(vs, side, a) ==> exists k :: 0 <= k < |vs| && side[k] == a && vs[k] == v
    decreases |vs|
  {
    if vs != [] {
      var n := |vs| - 1;
      PickedCovers(vs[..n], side[..n], a);
      assert vs == vs[..n] + [vs[n]];
    }
  }

  /** All vectors in one half of a degenerate split equal the first of all. */
  predicate HalfEqual(members: seq<Member>, a: nat) {
    forall k :: 0 <= k < |members| && Halves(|members|)[k] == a ==> members[k].vector == members[0].vector
  }

  /** In the degenerate case both halves get the first vector as mean and no
      spread. For a half that is exact if and only if its vectors all equal that
      one; the guard looks at distances, and the cosine distance of parallel
      vectors is 0 too. */
  lemma HalfExactIffEqual(members: seq<Member>, a: nat, c: Cluster)
    requires members != [] && SameDim(members) && c.mean == members[0].vector && c.m2 == 0.0
    requires Lists(members, Halves(|members|), a, c)
    ensures ExactFor(members, Halves(|members|), a, c) <==> HalfEqual(members, a)
  {
    var vs, side, v0 := Vectors(members), Halves(|members|), members[0].vector;
    PickedCovers(vs, side, a);
    PickedSameLength(members, side, a);
    ConstantIsExactIff(Picked(vs, side, a), v0);
  }

  predicate AllEqual(members: seq<Member>) {
    forall k :: 0 <= k < |members| ==> members[k].vector == members[0].vector
  }

  /** So the degenerate split is exact if and only if all vectors are equal. */
  lemma HalvesExactIffAllEqual(members: seq<Member>, a: Cluster, b: Cluster)
    requires members != [] && SameDim(members)
    requires a.mean == b.mean == members[0].vector && a.m2 == b.m2 == 0.0
    requires Lists(members, Halves(|members|), 0, a) && Lists(members, Halves(|members|), 1, b)
    ensures ExactFor(members, Halves(|members|), 0, a) && ExactFor(members, Halves(|members|), 1, b) <==> AllEqual(members)
  {
    HalfExactIffEqual(members, 0, a);
    HalfExactIffEqual(members, 1, b);
    assert forall k :: 0 <= k < |members| ==> Halves(|members|)[k] == 0 || Halves(|members|)[k] == 1;
  }
}
