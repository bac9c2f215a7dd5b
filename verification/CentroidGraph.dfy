/** The centroid tables: an incremental index that must agree with a full scan
    of the member rows after every create, attach, split and merge. Who owns what
    holds for any distance function; whether the statistics stay exact depends on
    the splits. */
module CentroidGraph {
  import opened Records
  import opened Statistics
  import opened KMeans

  type Cid = nat
  type Mid = nat

  datatype Centroid = Centroid(mean: Vec, m2: real, count: nat, active: bool, mergedInto: Option<Cid>)

  datatype Config = Config(join: real, splitVariance: real, maxMembers: int)

  type Lookup = Mid -> Vec

  function Vecs(vec: Lookup, ms: seq<Mid>): (vs: seq<Vec>)
    ensures |vs| == |ms| && forall k :: 0 <= k < |vs| ==> vs[k] == vec(ms[k])
  {
    seq(|ms|, k requires 0 <= k < |ms| => vec(ms[k]))
  }

  function StatsOf(c: Centroid): Stats { Stats(c.mean, c.m2, c.count) }

  // ---- the invariant ----

  predicate Distinct(ms: seq<Mid>) { forall i, j :: 0 <= i < j < |ms| ==> ms[i] != ms[j] }

  /** `ms` lists exactly what `owner` gives to `c`, each once. */
  ghost predicate Enumerates(ms: seq<Mid>, owner: map<Mid, Cid>, c: Cid) {
    Distinct(ms) && forall m :: m in ms <==> m in owner && owner[m] == c
  }

  ghost predicate ExactOver(vec: Lookup, dim: nat, ms: seq<Mid>, c: Centroid) {
    IsExact(Vecs(vec, ms), dim, c.mean, c.m2, c.count)
  }

  predicate RowMatches(rows: set<(Cid, Mid)>, owner: map<Mid, Cid>, c: Cid, m: Mid) {
    (c, m) in rows <==> m in owner && owner[m] == c
  }

  /** Member rows say who owns what; owners are active centroids, and each lists
      its members. */
  ghost predicate Owned(rows: set<(Cid, Mid)>, owner: map<Mid, Cid>, lists: map<Cid, seq<Mid>>) {
    && (forall c: Cid, m: Mid {:trigger RowMatches(rows, owner, c, m)} {:trigger (c, m) in rows} :: RowMatches(rows, owner, c, m))
    && (forall m :: m in owner ==> owner[m] in lists)
    && (forall c {:trigger Enumerates(lists[c], owner, c)} :: c in lists ==> lists[c] != [] && Enumerates(lists[c], owner, c))
  }

  predicate Counted(dim: nat, ms: seq<Mid>, c: Centroid) { c.count == |ms| && |c.mean| == dim }

  /** The active centroids are those with members, and count them. */
  ghost predicate Indexed(dim: nat, centroids: map<Cid, Centroid>, lists: map<Cid, seq<Mid>>) {
    && (forall c :: c in lists <==> c in centroids && centroids[c].active)
    && (forall c {:trigger Counted(dim, lists[c], centroids[c])} :: c in lists ==> Counted(dim, lists[c], centroids[c]))
  }

  /** The centroids whose mean and m2 are not those of their members. */
  ghost function BlurredOf(vec: Lookup, dim: nat, centroids: map<Cid, Centroid>, lists: map<Cid, seq<Mid>>): set<Cid> {
    set c | c in lists && c in centroids && !ExactOver(vec, dim, lists[c], centroids[c])
  }

  /** Ids are handed out in order and `merged_into` only points forward. */
  predicate Forward(centroids: map<Cid, Centroid>, nextId: Cid) {
    && (forall c :: c in centroids ==> c < nextId)
    && (forall c :: c in centroids && centroids[c].mergedInto.Some? ==> PointsForward(centroids, c, centroids[c].mergedInto.value))
  }

  predicate PointsForward(centroids: map<Cid, Centroid>, c: Cid, d: Cid)
    requires c in centroids
  {
    !centroids[c].active && c < d && d in centroids
  }

  ghost predicate Good(dim: nat, centroids: map<Cid, Centroid>, rows: set<(Cid, Mid)>, consolidated: set<Mid>,
                       owner: map<Mid, Cid>, lists: map<Cid, seq<Mid>>, nextId: Cid) {
    && owner.Keys == consolidated && Owned(rows, owner, lists)
    && Indexed(dim, centroids, lists) && Forward(centroids, nextId)
  }

  /** No centroid is ever removed, reactivated or, once inactive, changed. */
  predicate Evolves(before: map<Cid, Centroid>, after: map<Cid, Centroid>) {
    forall c :: c in before ==> c in after && (!before[c].active ==> after[c] == before[c])
  }

  // ---- the tables and the code ----

  class Graph {
    var centroids: map<Cid, Centroid>
    var rows: set<(Cid, Mid)>
    var consolidated: set<Mid>
    var nextId: Cid
    ghost var owner: map<Mid, Cid>
    ghost var lists: map<Cid, seq<Mid>>
    const vec: Lookup
    const dim: nat
    const dist: Distance

    /** Ownership, counts and chains: kept for any distance function. */
    ghost predicate Valid()
      reads this
    {
      Good(dim, centroids, rows, consolidated, owner, lists, nextId)
    }

    /** The active centroids whose stored statistics disagree with their members. */
    ghost function Blurred(): set<Cid>
      reads this
    {
      BlurredOf(vec, dim, centroids, lists)
    }

    /** The stored statistics agree with the member rows. */
    ghost predicate Exact()
      reads this
    {
      Blurred() == {}
    }

    /** All vectors have the model's dimension. */
    ghost predicate SameSize() { forall m :: |vec(m)| == dim }

    constructor (vec: Lookup, dim: nat, dist: Distance)
      ensures Valid() && Exact() && centroids == map[] && consolidated == {}
      ensures this.vec == vec && this.dim == dim && this.dist == dist
    {
      centroids, rows, consolidated, nextId := map[], {}, {}, 0;
      owner, lists := map[], map[];
      this.vec, this.dim, this.dist := vec, dim, dist;
    }

    /** `nearest_centroid`: an active centroid no other is nearer than. */
    method NearestCentroid(m: Mid) returns (r: Option<(Cid, real)>)
      ensures r.None? <==> forall c :: c in centroids ==> !centroids[c].active
      ensures r.Some? ==> r.value.0 in centroids && centroids[r.value.0].active && r.value.1 == dist(centroids[r.value.0].mean, vec(m))
      ensures r.Some? ==> forall c :: c in centroids && centroids[c].active ==> r.value.1 <= dist(centroids[c].mean, vec(m))
    {
      r := None;
      var todo := centroids.Keys;
      while todo != {}
        invariant todo <= centroids.Keys
        invariant r.None? ==> forall c :: c in centroids.Keys - todo ==> !centroids[c].active
        invariant r.Some? ==> r.value.0 in centroids && centroids[r.value.0].active && r.value.1 == dist(centroids[r.value.0].mean, vec(m))
        invariant r.Some? ==> forall c :: c in centroids.Keys - todo && centroids[c].active ==> r.value.1 <= dist(centroids[c].mean, vec(m))
        decreases |todo|
      {
        var c :| c in todo;
        if centroids[c].active && (r.None? || dist(centroids[c].mean, vec(m)) < r.value.1) {
          r := Some((c, dist(centroids[c].mean, vec(m))));
        }
        todo := todo - {c};
      }
    }

    /** `create_centroid_from`, then `mark_consolidated`. */
    method CreateCentroidFrom(m: Mid)
      requires Valid() && SameSize() && m !in consolidated
      modifies this
      ensures Valid() && Evolves(old(centroids), centroids) && consolidated == old(consolidated) + {m}
      ensures nextId == old(nextId) + 1 && rows == old(rows) + {(old(nextId), m)}
      ensures Blurred() == old(Blurred())
    {
      CreateExact(vec, dim, centroids, lists, nextId, m);
      CreateKeeps(vec, dim, centroids, rows, consolidated, owner, lists, nextId, m);
      centroids := centroids[nextId := Centroid(vec(m), 0.0, 1, true, None)];
      rows := rows + {(nextId, m)};
      consolidated := consolidated + {m};
      owner := owner[m := nextId];
      lists := lists[nextId := [m]];
      nextId := nextId + 1;
    }

    /** `attach_to_centroid`, then `mark_consolidated`; too wide or too large a
        centroid is split at once. */
    method AttachToCentroid(c: Cid, m: Mid, cfg: Config) returns (ghost cuts: seq<Cut>)
      requires Valid() && SameSize() && m !in consolidated && c in centroids && centroids[c].active
      modifies this
      ensures Valid() && Evolves(old(centroids), centroids) && consolidated == old(consolidated) + {m}
      ensures |cuts| == if TooBig(Attached(old(centroids)[c], vec(m), dim), cfg) then 1 else 0
      ensures cuts != [] ==> cuts[0].parent == c && Fetched(vec, old(rows) + {(c, m)}, c, cuts[0].members)
      ensures CutsDone(vec, cuts, centroids, consolidated)
      ensures Blurred() == Surviving(old(Blurred()), cuts, dist, centroids)
    {
      Update(c, m);
      cuts := [];
      if VarianceFromM2(centroids[c].m2, centroids[c].count) > cfg.splitVariance || centroids[c].count > cfg.maxMembers {
        cuts := SplitCentroid(c);
      } else {
        NothingCut(vec, dim, centroids, lists, dist);
      }
    }

    /** The Welford update of one centroid, its new member row and the mark. */
    method Update(c: Cid, m: Mid)
      requires Valid() && SameSize() && m !in consolidated && c in centroids && centroids[c].active
      modifies this
      ensures Valid() && Evolves(old(centroids), centroids) && consolidated == old(consolidated) + {m}
      ensures centroids == old(centroids)[c := Attached(old(centroids)[c], vec(m), dim)] && centroids[c].count >= 2
      ensures rows == old(rows) + {(c, m)} && Blurred() == old(Blurred())
    {
      AttachKeeps(dim, centroids, rows, consolidated, owner, lists, nextId, c, m, vec(m));
      AttachLeavesBlur(vec, dim, centroids, lists, c, m);
      var cen := Updated(centroids[c], vec(m));
      centroids := centroids[c := cen];
      rows := rows + {(c, m)};
      consolidated := consolidated + {m};
      owner := owner[m := c];
      lists := lists[c := lists[c] + [m]];
    }

    /** The member rows of one centroid, in the order the database returns them. */
    method FetchMembers(c: Cid) returns (members: seq<Member>)
      ensures forall m :: m in Ids(members) <==> (c, m) in rows
      ensures Distinct(Ids(members)) && forall k :: 0 <= k < |members| ==> members[k].vector == vec(members[k].id)
    {
      members := [];
      var todo := set r | r in rows && r.0 == c;
      while todo != {}
        invariant todo <= rows && forall r :: r in todo ==> r.0 == c
        invariant forall m :: m in Ids(members) <==> (c, m) in rows && (c, m) !in todo
        invariant Distinct(Ids(members)) && forall k :: 0 <= k < |members| ==> members[k].vector == vec(members[k].id)
        decreases |todo|
      {
        var r :| r in todo;
        todo := todo - {r};
        assert Ids(members + [Member(r.1, vec(r.1))]) == Ids(members) + [r.1];
        members := members + [Member(r.1, vec(r.1))];
      }
    }

    /** `split_centroid`: the parent is deactivated, never deleted. The new
        centroids' statistics are exact unless the members it fetched are
        degenerate with unequal vectors; no others change. */
    method SplitCentroid(c: Cid) returns (ghost cuts: seq<Cut>)
      requires Valid() && SameSize()
      modifies this
      ensures Valid() && Evolves(old(centroids), centroids) && consolidated == old(consolidated)
      ensures Halved(old(centroids), old(nextId), centroids, c)
      ensures |cuts| == if Splittable(old(centroids), c) then 1 else 0
      ensures cuts != [] ==> cuts[0].parent == c && cuts[0].first == old(nextId) && Fetched(vec, old(rows), c, cuts[0].members)
      ensures CutsDone(vec, cuts, centroids, consolidated)
      ensures Blurred() == Surviving(old(Blurred()), cuts, dist, centroids)
      ensures old(Exact()) ==> (Exact() <==> forall cut :: cut in cuts ==> SplitsExactly(cut.members, dist))
    {
      cuts := [];
      NothingCut(vec, dim, centroids, lists, dist);
      if c !in centroids || !centroids[c].active { return; }
      var members := FetchMembers(c);
      MembersOf(vec, dim, centroids, rows, consolidated, owner, lists, nextId, c, members);
      if |members| < 2 { return; }
      var split := Halve(vec, dim, members, dist);
      cuts := ReplaceByHalves(c, members, split);
    }

    /** The rows of the two halves go in, the parent's go out. */
    method ReplaceByHalves(c: Cid, ghost members: seq<Member>, split: Split) returns (ghost cuts: seq<Cut>)
      requires Valid() && Splittable(centroids, c) && Fetched(vec, rows, c, members) && Listed(vec, members, consolidated)
      requires HalvesOf(vec, dim, members, dist, split)
      modifies this
      ensures Valid() && Evolves(old(centroids), centroids) && consolidated == old(consolidated)
      ensures Halved(old(centroids), old(nextId), centroids, c)
      ensures cuts == [Cut(c, old(nextId), members)] && CutsDone(vec, cuts, centroids, consolidated)
      ensures Blurred() == Surviving(old(Blurred()), cuts, dist, centroids)
      ensures old(Exact()) ==> (Exact() <==> SplitsExactly(members, dist))
    {
      var a, b := nextId, nextId + 1;
      cuts := [Cut(c, a, members)];
      SplitSpoils(vec, dim, centroids, rows, consolidated, owner, lists, a, cuts[0], split, dist);
      ghost var owner', lists' := SplitStructure(dim, centroids, rows, consolidated, owner, lists, a, c, Ids(members), split);
      Replace(SplitCentroids(centroids, c, split, a, b), SplitRows(rows, c, split.a.ids, split.b.ids, a, b), owner', lists', nextId + 2);
    }

    method Replace(centroids': map<Cid, Centroid>, rows': set<(Cid, Mid)>, ghost owner': map<Mid, Cid>,
                   ghost lists': map<Cid, seq<Mid>>, id: Cid)
      requires Good(dim, centroids', rows', consolidated, owner', lists', id)
      modifies `centroids, `rows, `owner, `lists, `nextId
      ensures Valid() && centroids == centroids' && lists == lists'
    {
      centroids, rows, owner, lists, nextId := centroids', rows', owner', lists', id;
    }

    /** One pair of `merge_centroids`: both sources are deactivated and point to
        the new centroid, which takes over all member rows. */
    method MergePair(a: Cid, b: Cid, merged: Stats)
      requires Valid() && SameSize() && a != b
      requires a in centroids && centroids[a].active && b in centroids && centroids[b].active
      requires merged == Combined(StatsOf(centroids[a]), StatsOf(centroids[b]))
      modifies this
      ensures Valid() && Evolves(old(centroids), centroids) && consolidated == old(consolidated) && nextId == old(nextId) + 1
      ensures centroids == MergeCentroid(old(centroids), a, b, merged, old(nextId))
      ensures old(Exact()) ==> Exact()
    {
      MergeKeeps(dim, centroids, rows, consolidated, owner, lists, nextId, a, b, merged);
      if Exact() { MergeKeepsExact(vec, dim, centroids, rows, consolidated, owner, lists, nextId, a, b, merged); }
      owner := Moved(owner, lists[a], nextId, lists[b], nextId);
      lists := MergeLists(lists, a, b, nextId);
      rows := MergeRows(rows, a, b, nextId);
      centroids := MergeCentroid(centroids, a, b, merged, nextId);
      nextId := nextId + 1;
    }

    /** Combines a pair as the query read it, and merges. */
    method MergeQueried(p: Pair)
      requires Valid() && SameSize() && Queried(centroids, p)
      modifies this
      ensures Valid() && Evolves(old(centroids), centroids) && consolidated == old(consolidated) && nextId == old(nextId) + 1
      ensures old(Exact()) ==> Exact()
      ensures forall c :: c in old(centroids) && c != p.a && c != p.b && c < old(nextId) ==> c in centroids && centroids[c] == old(centroids)[c]
    {
      QueriedSameDim(dim, centroids, lists, p);
      var merged := CombineCentroids(p.sa, p.sb);
      MergePair(p.a, p.b, merged);
    }

    /** `merge_centroids` over the pairs its query returned, with the statistics
        the query read. A centroid merged earlier in the pass is skipped. */
    method MergeCentroids(pairs: seq<Pair>) returns (n: nat)
      requires Valid() && SameSize()
      requires forall p :: p in pairs ==> Queried(centroids, p)
      modifies this
      ensures Valid() && Evolves(old(centroids), centroids) && consolidated == old(consolidated) && nextId == old(nextId) + n
      ensures old(Exact()) ==> Exact()
    {
      var mergedIds: set<Cid> := {};
      n := 0;
      for k := 0 to |pairs|
        invariant Valid() && Evolves(old(centroids), centroids) && consolidated == old(consolidated) && nextId == old(nextId) + n
        invariant old(Exact()) ==> Exact()
        invariant forall c :: c in old(centroids) && c !in mergedIds ==> c in centroids && centroids[c] == old(centroids)[c]
        invariant forall c :: c in old(centroids) ==> c < old(nextId)
      {
        var p := pairs[k];
        assert Queried(old(centroids), p);
        if p.a !in mergedIds && p.b !in mergedIds {
          MergeQueried(p);
          mergedIds := mergedIds + {p.a, p.b};
          n := n + 1;
        }
      }
    }

    /** A vector joins its nearest centroid if that is near enough, or seeds one. */
    method Place(m: Mid, cfg: Config) returns (ghost cuts: seq<Cut>)
      requires Valid() && SameSize() && m !in consolidated
      modifies this
      ensures Valid() && Evolves(old(centroids), centroids) && consolidated == old(consolidated) + {m}
      ensures CutsDone(vec, cuts, centroids, consolidated)
      ensures Blurred() == Surviving(old(Blurred()), cuts, dist, centroids)
    {
      var nearest := NearestCentroid(m);
      cuts := [];
      if nearest.Some? && nearest.value.1 <= cfg.join {
        cuts := AttachToCentroid(nearest.value.0, m, cfg);
      } else {
        CreateCentroidFrom(m);
        NothingCut(vec, dim, centroids, lists, dist);
      }
    }

    /** `consolidate_batch`: every vector of the batch is placed, in order. Of the
        centroids active at the end, those and only those have inexact statistics
        that had them before or are the unequal half of a degenerate split. */
    method ConsolidateBatch(batch: seq<Mid>, cfg: Config) returns (n: nat, ghost cuts: seq<Cut>)
      requires Valid() && SameSize() && Distinct(batch) && forall m :: m in batch ==> m !in consolidated
      modifies this
      ensures Valid() && Evolves(old(centroids), centroids)
      ensures n == |batch| && consolidated == old(consolidated) + SetOf(batch)
      ensures CutsDone(vec, cuts, centroids, consolidated)
      ensures Blurred() == Surviving(old(Blurred()), cuts, dist, centroids)
      ensures old(Exact()) && !Blurs(dist) ==> Exact()
    {
      n, cuts := 0, [];
      ghost var before := centroids;
      BlurredExist(vec, dim, centroids, lists);
      NothingCut(vec, dim, centroids, lists, dist);
      for k := 0 to |batch|
        invariant Valid() && Evolves(before, centroids)
        invariant n == k && consolidated == old(consolidated) + SetOf(batch[..k])
        invariant CutsDone(vec, cuts, centroids, consolidated)
        invariant Blurred() == Surviving(old(Blurred()), cuts, dist, centroids)
      {
        assert batch[..k + 1] == batch[..k] + [batch[k]];
        assert batch[k] in batch && batch[k] !in batch[..k];
        ghost var mid := centroids;
        ghost var now := Place(batch[k], cfg);
        CutsFollow(vec, old(Blurred()), cuts, now, dist, before, mid, centroids, consolidated - {batch[k]}, consolidated);
        cuts := cuts + now;
        n := n + 1;
      }
      assert batch[..|batch|] == batch;
      BlurredByDistance(cuts, dist);
    }
  }

  // ---- which centroids end inexact ----

  /** A split: the parent, the first of the two new ids, and the members in the
      order in which they were fetched. */
  datatype Cut = Cut(parent: Cid, first: Cid, members: seq<Member>)

  function Unequal(first: Cid, a: bool, b: bool): set<Cid> { (if a then {} else {first}) + (if b then {} else {first + 1}) }

  /** Half `a` of a split starts out exact unless the members are degenerate and
      it has a vector other than the first of all. */
  predicate BornExact(members: seq<Member>, a: nat, dist: Distance) { !Degenerate(members, dist) || HalfEqual(members, a) }

  /** The new centroids that start out inexact. */
  function Spoilt(cut: Cut, dist: Distance): set<Cid> {
    Unequal(cut.first, BornExact(cut.members, 0, dist), BornExact(cut.members, 1, dist))
  }

  function AllSpoilt(cuts: seq<Cut>, dist: Distance): set<Cid> {
    if cuts == [] then {} else AllSpoilt(cuts[..|cuts| - 1], dist) + Spoilt(cuts[|cuts| - 1], dist)
  }

  /** Inexact before or spoilt by a split, and still active. */
  function Surviving(before: set<Cid>, cuts: seq<Cut>, dist: Distance, centroids: map<Cid, Centroid>): set<Cid> {
    set c | c in before + AllSpoilt(cuts, dist) && c in centroids && centroids[c].active
  }

  predicate Listed(vec: Lookup, members: seq<Member>, consolidated: set<Mid>) {
    |members| >= 2 && Distinct(Ids(members)) &&
    forall k :: 0 <= k < |members| ==> members[k].vector == vec(members[k].id) && members[k].id in consolidated
  }

  /** Each split was one of consolidated vectors; its parent is inactive and the
      two new centroids exist. */
  predicate CutsDone(vec: Lookup, cuts: seq<Cut>, centroids: map<Cid, Centroid>, consolidated: set<Mid>) {
    forall cut :: cut in cuts ==>
      Listed(vec, cut.members, consolidated) && cut.parent in centroids && !centroids[cut.parent].active &&
      cut.first in centroids && cut.first + 1 in centroids
  }

  lemma BlurredExist(vec: Lookup, dim: nat, centroids: map<Cid, Centroid>, lists: map<Cid, seq<Mid>>)
    ensures BlurredOf(vec, dim, centroids, lists) <= centroids.Keys
  { }

  lemma NothingCut(vec: Lookup, dim: nat, centroids: map<Cid, Centroid>, lists: map<Cid, seq<Mid>>, dist: Distance)
    requires Indexed(dim, centroids, lists)
    ensures Surviving(BlurredOf(vec, dim, centroids, lists), [], dist, centroids) == BlurredOf(vec, dim, centroids, lists)
  { }

  lemma SpoiltByCut(cut: Cut, dist: Distance)
    ensures AllSpoilt([cut], dist) == Spoilt(cut, dist) <= {cut.first, cut.first + 1}
    ensures Spoilt(cut, dist) == {} <==> SplitsExactly(cut.members, dist)
  {
    assert [cut][..0] == [];
    assert forall k :: 0 <= k < |cut.members| ==> Halves(|cut.members|)[k] == 0 || Halves(|cut.members|)[k] == 1;
  }

  lemma SurvivingCut(before: set<Cid>, cut: Cut, dist: Distance, centroids: map<Cid, Centroid>, split: Split)
    requires forall c :: c in before ==> c in centroids && centroids[c].active
    requires cut.parent in centroids && cut.parent < cut.first && split.Clusters?
    ensures Surviving(before, [cut], dist, SplitCentroids(centroids, cut.parent, split, cut.first, cut.first + 1)) ==
      before - {cut.parent} + Spoilt(cut, dist)
  {
    SpoiltByCut(cut, dist);
    var centroids' := SplitCentroids(centroids, cut.parent, split, cut.first, cut.first + 1);
    forall c ensures c in Surviving(before, [cut], dist, centroids') <==> c in before - {cut.parent} + Spoilt(cut, dist) {
      assert c in before || c in Spoilt(cut, dist) ==> c in centroids' && (centroids'[c].active <==> c != cut.parent);
    }
  }

  lemma {:induction false} SpoiltExist(vec: Lookup, cuts: seq<Cut>, dist: Distance, centroids: map<Cid, Centroid>, consolidated: set<Mid>)
    requires CutsDone(vec, cuts, centroids, consolidated)
    ensures AllSpoilt(cuts, dist) <= centroids.Keys
    decreases |cuts|
  {
    if cuts != [] {
      assert cuts[|cuts| - 1] in cuts;
      SpoiltExist(vec, cuts[..|cuts| - 1], dist, centroids, consolidated);
    }
  }

  lemma {:induction false} SpoiltAppend(cuts: seq<Cut>, now: seq<Cut>, dist: Distance)
    ensures AllSpoilt(cuts + now, dist) == AllSpoilt(cuts, dist) + AllSpoilt(now, dist)
    decreases |now|
  {
    if now == [] {
      assert cuts + now == cuts;
    } else {
      SpoiltAppend(cuts, now[..|now| - 1], dist);
      assert (cuts + now)[..|cuts + now| - 1] == cuts + now[..|now| - 1];
    }
  }

  /** What is inactive stays so, so the survivors of the survivors are those that
      are active at the end. */
  lemma CutsFollow(vec: Lookup, before: set<Cid>, cuts: seq<Cut>, now: seq<Cut>, dist: Distance, first: map<Cid, Centroid>,
                   mid: map<Cid, Centroid>, last: map<Cid, Centroid>, consolidated: set<Mid>, consolidated': set<Mid>)
    requires before <= first.Keys && Evolves(first, mid) && Evolves(mid, last) && consolidated <= consolidated'
    requires CutsDone(vec, cuts, mid, consolidated) && CutsDone(vec, now, last, consolidated')
    ensures Evolves(first, last) && CutsDone(vec, cuts + now, last, consolidated')
    ensures Surviving(Surviving(before, cuts, dist, mid), now, dist, last) == Surviving(before, cuts + now, dist, last)
  {
    SpoiltExist(vec, cuts, dist, mid, consolidated);
    SpoiltAppend(cuts, now, dist);
  }

  /** The guard of the degenerate split takes equal vectors only, or none. */
  predicate SplitsExactly(members: seq<Member>, dist: Distance) {
    !Degenerate(members, dist) || AllEqual(members)
  }

  /** The distance calls some unequal vectors as close as equal ones. */
  ghost predicate Blurs(dist: Distance) {
    exists u: Vec, v: Vec :: dist(u, v) <= 0.000000001 && u != v
  }

  lemma {:induction false} BlurredByDistance(cuts: seq<Cut>, dist: Distance)
    ensures AllSpoilt(cuts, dist) != {} ==> Blurs(dist)
    decreases |cuts|
  {
    if cuts != [] {
      BlurredByDistance(cuts[..|cuts| - 1], dist);
      var members := cuts[|cuts| - 1].members;
      if Spoilt(cuts[|cuts| - 1], dist) != {} {
        var k :| 0 <= k < |members| && members[k].vector != members[0].vector;
        assert dist(members[0].vector, members[k].vector) <= 0.000000001;
      }
    }
  }

  predicate TooBig(c: Centroid, cfg: Config) { VarianceFromM2(c.m2, c.count) > cfg.splitVariance || c.count > cfg.maxMembers }

  predicate Splittable(centroids: map<Cid, Centroid>, c: Cid) { c in centroids && centroids[c].active && centroids[c].count >= 2 }

  /** `members` are the rows of `c`, each once, with their vectors. */
  ghost predicate Fetched(vec: Lookup, rows: set<(Cid, Mid)>, c: Cid, members: seq<Member>) {
    Distinct(Ids(members)) && (forall m :: m in Ids(members) <==> (c, m) in rows) &&
    forall k :: 0 <= k < |members| ==> members[k].vector == vec(members[k].id)
  }

  /** The centroid row after one more member, by the in-place update. */
  method Updated(cen: Centroid, p: Vec) returns (r: Centroid)
    requires |cen.mean| == |p|
    ensures r == Attached(cen, p, |p|)
  {
    var mean := new real[|cen.mean|](k requires 0 <= k < |cen.mean| => cen.mean[k]);
    assert mean[..] == cen.mean;
    var m2, count := WelfordUpdate(mean, cen.m2, cen.count, p);
    r := cen.(mean := mean[..], m2 := m2, count := count);
  }

  /** A row of the merge query: two centroids and their statistics. */
  datatype Pair = Pair(a: Cid, sa: Stats, b: Cid, sb: Stats)

  predicate Queried(centroids: map<Cid, Centroid>, p: Pair) {
    p.a < p.b && p.a in centroids && centroids[p.a].active && p.sa == StatsOf(centroids[p.a]) &&
    p.b in centroids && centroids[p.b].active && p.sb == StatsOf(centroids[p.b])
  }

  predicate HalfCounted(dim: nat, h: Cluster) { h.count == |h.ids| && |h.mean| == dim }

  ghost predicate HalfExact(vec: Lookup, dim: nat, h: Cluster) {
    IsExact(Vecs(vec, h.ids), dim, h.mean, h.m2, h.count)
  }

  /** Two non-empty halves, counted, and exact unless spoilt. */
  ghost predicate HalvesOf(vec: Lookup, dim: nat, members: seq<Member>, dist: Distance, split: Split) {
    && split.Clusters? && Parts(Ids(members), split.a.ids, split.b.ids)
    && HalfCounted(dim, split.a) && HalfCounted(dim, split.b)
    && (HalfExact(vec, dim, split.a) <==> BornExact(members, 0, dist))
    && (HalfExact(vec, dim, split.b) <==> BornExact(members, 1, dist))
  }

  /** `kmeans2` on the fetched members. */
  method Halve(vec: Lookup, dim: nat, members: seq<Member>, dist: Distance) returns (split: Split)
    requires |members| >= 2 && Distinct(Ids(members)) && (forall m :: |vec(m)| == dim)
    requires forall k :: 0 <= k < |members| ==> members[k].vector == vec(members[k].id)
    ensures HalvesOf(vec, dim, members, dist, split)
  {
    ghost var side;
    split, side := Kmeans2(members, dist);
    ExactWhen(members, dist, split, side);
    SplitParts(vec, dim, members, split, side);
  }

  // ---- why each step keeps the invariant ----

  function Moved(owner: map<Mid, Cid>, xs: seq<Mid>, a: Cid, ys: seq<Mid>, b: Cid): map<Mid, Cid> {
    map m | m in owner :: if m in xs then a else if m in ys then b else owner[m]
  }

  lemma CreateKeeps(vec: Lookup, dim: nat, centroids: map<Cid, Centroid>, rows: set<(Cid, Mid)>, consolidated: set<Mid>,
                    owner: map<Mid, Cid>, lists: map<Cid, seq<Mid>>, id: Cid, m: Mid)
    requires Good(dim, centroids, rows, consolidated, owner, lists, id) && m !in consolidated && |vec(m)| == dim
    ensures var centroids', lists' := centroids[id := Centroid(vec(m), 0.0, 1, true, None)], lists[id := [m]];
      Good(dim, centroids', rows + {(id, m)}, consolidated + {m}, owner[m := id], lists', id + 1) && Evolves(centroids, centroids')
  {
    assert id !in lists && id !in centroids;
    assert Owned(rows + {(id, m)}, owner[m := id], lists[id := [m]]) by {
      var lists', owner' := lists[id := [m]], owner[m := id];
      forall c | c in lists' ensures lists'[c] != [] && Enumerates(lists'[c], owner', c) {
        if c != id { assert Enumerates(lists[c], owner, c); }
      }
    }
  }

  lemma CreateExact(vec: Lookup, dim: nat, centroids: map<Cid, Centroid>, lists: map<Cid, seq<Mid>>, id: Cid, m: Mid)
    requires Indexed(dim, centroids, lists) && Forward(centroids, id) && |vec(m)| == dim
    ensures BlurredOf(vec, dim, centroids[id := Centroid(vec(m), 0.0, 1, true, None)], lists[id := [m]]) ==
      BlurredOf(vec, dim, centroids, lists)
  {
    assert id !in lists && id !in centroids;
    OnePointExact(vec(m));
    assert Vecs(vec, [m]) == [vec(m)];
  }

  /** The centroid row after one more member. */
  function Attached(cen: Centroid, p: Vec, dim: nat): Centroid {
    var n := (cen.count + 1) as real;
    cen.(mean := NewMean(cen.mean, p, n), m2 := cen.m2 + Gain(cen.mean, p, n, dim), count := cen.count + 1)
  }

  lemma AttachKeeps(dim: nat, centroids: map<Cid, Centroid>, rows: set<(Cid, Mid)>, consolidated: set<Mid>,
                    owner: map<Mid, Cid>, lists: map<Cid, seq<Mid>>, nextId: Cid, c: Cid, m: Mid, v: Vec)
    requires Good(dim, centroids, rows, consolidated, owner, lists, nextId)
    requires c in centroids && centroids[c].active && m !in consolidated && |v| == dim
    ensures c in lists && Counted(dim, lists[c], centroids[c]) && centroids[c].count >= 1
    ensures var centroids' := centroids[c := Attached(centroids[c], v, dim)];
      Good(dim, centroids', rows + {(c, m)}, consolidated + {m}, owner[m := c], lists[c := lists[c] + [m]], nextId) &&
      Evolves(centroids, centroids')
  {
    assert c in lists && Counted(dim, lists[c], centroids[c]) && Enumerates(lists[c], owner, c);
    assert Owned(rows + {(c, m)}, owner[m := c], lists[c := lists[c] + [m]]) by {
      var lists', owner' := lists[c := lists[c] + [m]], owner[m := c];
      forall d | d in lists' ensures lists'[d] != [] && Enumerates(lists'[d], owner', d) {
        assert Enumerates(lists[d], owner, d);
      }
    }
  }

  /** Exact or not, a centroid stays so under the update. */
  lemma AttachLeavesBlur(vec: Lookup, dim: nat, centroids: map<Cid, Centroid>, lists: map<Cid, seq<Mid>>, c: Cid, m: Mid)
    requires c in lists && c in centroids && |vec(m)| == dim && Counted(dim, lists[c], centroids[c])
    ensures BlurredOf(vec, dim, centroids[c := Attached(centroids[c], vec(m), dim)], lists[c := lists[c] + [m]]) ==
      BlurredOf(vec, dim, centroids, lists)
  {
    var vs, cen := Vecs(vec, lists[c]), centroids[c];
    assert Vecs(vec, lists[c] + [m]) == vs + [vec(m)];
    if ExactOver(vec, dim, lists[c], cen) {
      WelfordKeepsExact(vs, dim, cen.mean, cen.m2, cen.count, vec(m));
    } else if ExactOver(vec, dim, lists[c] + [m], Attached(cen, vec(m), dim)) {
      WelfordLeavesInexact(vs, dim, cen.mean, cen.m2, cen.count, vec(m));
    }
  }

  /** The fetched rows are the centroid's members, and its count counts them. */
  lemma MembersOf(vec: Lookup, dim: nat, centroids: map<Cid, Centroid>, rows: set<(Cid, Mid)>, consolidated: set<Mid>,
                  owner: map<Mid, Cid>, lists: map<Cid, seq<Mid>>, nextId: Cid, c: Cid, members: seq<Member>)
    requires Good(dim, centroids, rows, consolidated, owner, lists, nextId) && c in centroids && centroids[c].active
    requires Fetched(vec, rows, c, members)
    ensures |members| == centroids[c].count && c in lists && (|members| >= 2 ==> Listed(vec, members, consolidated))
  {
    forall k | 0 <= k < |members| ensures members[k].id in consolidated {
      assert Ids(members)[k] in Ids(members) && RowMatches(rows, owner, c, members[k].id);
    }
    assert c in lists && Enumerates(lists[c], owner, c) && Counted(dim, lists[c], centroids[c]);
    SameLength(Ids(members), lists[c]);
  }

  function SetOf(xs: seq<Mid>): set<Mid> { set m | m in xs }

  lemma SameLength(xs: seq<Mid>, ys: seq<Mid>)
    requires Distinct(xs) && Distinct(ys) && forall m :: m in xs <==> m in ys
    ensures |xs| == |ys|
  {
    SetSize(xs);
    SetSize(ys);
    assert SetOf(xs) == SetOf(ys);
  }

  lemma {:induction false} SetSize(xs: seq<Mid>)
    requires Distinct(xs)
    ensures |SetOf(xs)| == |xs|
    decreases |xs|
  {
    if xs != [] {
      var n := |xs| - 1;
      SetSize(xs[..n]);
      assert xs == xs[..n] + [xs[n]];
      assert SetOf(xs) == SetOf(xs[..n]) + {xs[n]};
      assert xs[n] !in SetOf(xs[..n]);
    } else {
      assert SetOf(xs) == {};
    }
  }

  /** Outside the degenerate case the halves are exact; in it one is exact if and
      only if its vectors all equal the first. */
  lemma ExactWhen(members: seq<Member>, dist: Distance, split: Split, side: seq<nat>)
    requires |members| >= 2 && SameDim(members) && split.Clusters? && |side| == |members|
    requires Lists(members, side, 0, split.a) && Lists(members, side, 1, split.b)
    requires !Degenerate(members, dist) ==> ExactFor(members, side, 0, split.a) && ExactFor(members, side, 1, split.b)
    requires Degenerate(members, dist) ==> side == Halves(|members|)
    requires Degenerate(members, dist) ==> split.a.mean == split.b.mean == members[0].vector && split.a.m2 == split.b.m2 == 0.0
    ensures ExactFor(members, side, 0, split.a) <==> BornExact(members, 0, dist)
    ensures ExactFor(members, side, 1, split.b) <==> BornExact(members, 1, dist)
    ensures |split.a.mean| == |split.b.mean| == |members[0].vector|
  {
    if Degenerate(members, dist) {
      HalfExactIffEqual(members, 0, split.a);
      HalfExactIffEqual(members, 1, split.b);
    }
  }

  lemma {:induction false} PickedIdsPartition(members: seq<Member>, side: seq<nat>)
    requires |side| == |members| && (forall k :: 0 <= k < |side| ==> side[k] == 0 || side[k] == 1) && Distinct(Ids(members))
    ensures var xs, ys := PickedIds(members, side, 0), PickedIds(members, side, 1);
      Distinct(xs) && Distinct(ys) && (forall m :: m in Ids(members) <==> m in xs || m in ys) && (forall m :: m in xs ==> m !in ys)
    decreases |members|
  {
    if members != [] {
      var n := |members| - 1;
      var front, x := members[..n], members[n].id;
      assert Ids(members) == Ids(front) + [x];
      assert x !in Ids(front);
      PickedIdsPartition(front, side[..n]);
    }
  }

  lemma {:induction false} PickedVecs(vec: Lookup, members: seq<Member>, side: seq<nat>, a: nat)
    requires |side| == |members| && forall k :: 0 <= k < |members| ==> members[k].vector == vec(members[k].id)
    ensures Vecs(vec, PickedIds(members, side, a)) == Picked(Vectors(members), side, a)
    decreases |members|
  {
    if members != [] {
      var n := |members| - 1;
      PickedVecs(vec, members[..n], side[..n], a);
      assert Vectors(members)[..n] == Vectors(members[..n]);
      var p := PickedIds(members[..n], side[..n], a);
      assert Vecs(vec, p + [members[n].id]) == Vecs(vec, p) + [vec(members[n].id)];
    }
  }

  /** `xs` and `ys` are the two non-empty halves of `all`. */
  ghost predicate Parts(all: seq<Mid>, xs: seq<Mid>, ys: seq<Mid>) {
    xs != [] && ys != [] && Distinct(xs) && Distinct(ys) &&
    (forall m :: m in all <==> m in xs || m in ys) && (forall m :: m in xs ==> m !in ys)
  }

  lemma SplitParts(vec: Lookup, dim: nat, members: seq<Member>, split: Split, side: seq<nat>)
    requires members != [] && |members[0].vector| == dim && Distinct(Ids(members))
    requires forall k :: 0 <= k < |members| ==> members[k].vector == vec(members[k].id)
    requires split.Clusters? && |side| == |members| && TwoSided(side) && split.a.count > 0 && split.b.count > 0
    requires Lists(members, side, 0, split.a) && Lists(members, side, 1, split.b)
    ensures Parts(Ids(members), split.a.ids, split.b.ids)
    ensures HalfExact(vec, dim, split.a) <==> ExactFor(members, side, 0, split.a)
    ensures HalfExact(vec, dim, split.b) <==> ExactFor(members, side, 1, split.b)
  {
    PickedIdsPartition(members, side);
    PickedVecs(vec, members, side, 0);
    PickedVecs(vec, members, side, 1);
  }

  function SplitRows(rows: set<(Cid, Mid)>, c: Cid, xs: seq<Mid>, ys: seq<Mid>, a: Cid, b: Cid): set<(Cid, Mid)> {
    set r | r in rows + (set m | m in xs :: (a, m)) + (set m | m in ys :: (b, m)) && r.0 != c
  }

  function SplitLists(lists: map<Cid, seq<Mid>>, c: Cid, xs: seq<Mid>, ys: seq<Mid>, a: Cid, b: Cid): map<Cid, seq<Mid>> {
    (lists - {c})[a := xs][b := ys]
  }

  lemma SplitOwned(rows: set<(Cid, Mid)>, owner: map<Mid, Cid>, lists: map<Cid, seq<Mid>>, c: Cid, all: seq<Mid>,
                   xs: seq<Mid>, ys: seq<Mid>, a: Cid, b: Cid)
    requires Owned(rows, owner, lists) && c in lists && a !in lists && b !in lists && a != b
    requires forall m :: m in all <==> (c, m) in rows
    requires Parts(all, xs, ys)
    ensures Owned(SplitRows(rows, c, xs, ys, a, b), Moved(owner, xs, a, ys, b), SplitLists(lists, c, xs, ys, a, b))
  {
    var owner', lists' := Moved(owner, xs, a, ys, b), SplitLists(lists, c, xs, ys, a, b);
    forall d | d in lists' ensures lists'[d] != [] && Enumerates(lists'[d], owner', d) {
      if d == a { assert Enumerates(xs, owner', a); }
      else if d == b { assert Enumerates(ys, owner', b); }
      else { assert Enumerates(lists[d], owner, d); }
    }
  }

  function SplitCentroids(centroids: map<Cid, Centroid>, c: Cid, split: Split, a: Cid, b: Cid): map<Cid, Centroid>
    requires c in centroids && split.Clusters?
  {
    centroids[a := Centroid(split.a.mean, split.a.m2, split.a.count, true, None)]
             [b := Centroid(split.b.mean, split.b.m2, split.b.count, true, None)]
             [c := centroids[c].(active := false)]
  }

  /** A split of two or more members leaves the parent inactive and two new
      active centroids; anything else leaves the table alone. */
  predicate Halved(before: map<Cid, Centroid>, nextId: Cid, after: map<Cid, Centroid>, c: Cid) {
    if c in before && before[c].active && before[c].count >= 2 then
      c in after && !after[c].active && nextId in after && after[nextId].active && nextId + 1 in after && after[nextId + 1].active
    else after == before
  }

  lemma SplitIndexed(dim: nat, centroids: map<Cid, Centroid>, lists: map<Cid, seq<Mid>>, nextId: Cid, c: Cid, split: Split)
    requires Indexed(dim, centroids, lists) && Forward(centroids, nextId) && c in lists && split.Clusters?
    requires HalfCounted(dim, split.a) && HalfCounted(dim, split.b)
    ensures Indexed(dim, SplitCentroids(centroids, c, split, nextId, nextId + 1),
                    SplitLists(lists, c, split.a.ids, split.b.ids, nextId, nextId + 1))
  {
    var centroids' := SplitCentroids(centroids, c, split, nextId, nextId + 1);
    var lists' := SplitLists(lists, c, split.a.ids, split.b.ids, nextId, nextId + 1);
    forall d | d in lists' ensures Counted(dim, lists'[d], centroids'[d]) {
      if d != nextId && d != nextId + 1 { assert Counted(dim, lists[d], centroids[d]); }
    }
  }

  lemma SplitStructure(dim: nat, centroids: map<Cid, Centroid>, rows: set<(Cid, Mid)>, consolidated: set<Mid>,
                       owner: map<Mid, Cid>, lists: map<Cid, seq<Mid>>, nextId: Cid, c: Cid, all: seq<Mid>, split: Split)
    returns (owner': map<Mid, Cid>, lists': map<Cid, seq<Mid>>)
    requires Good(dim, centroids, rows, consolidated, owner, lists, nextId)
    requires c in centroids && centroids[c].active && centroids[c].count >= 2
    requires (forall m :: m in all <==> (c, m) in rows) && split.Clusters? && Parts(all, split.a.ids, split.b.ids)
    requires HalfCounted(dim, split.a) && HalfCounted(dim, split.b)
    ensures Good(dim, SplitCentroids(centroids, c, split, nextId, nextId + 1),
                 SplitRows(rows, c, split.a.ids, split.b.ids, nextId, nextId + 1), consolidated, owner', lists', nextId + 2)
    ensures lists' == SplitLists(lists, c, split.a.ids, split.b.ids, nextId, nextId + 1)
    ensures Evolves(centroids, SplitCentroids(centroids, c, split, nextId, nextId + 1))
    ensures Halved(centroids, nextId, SplitCentroids(centroids, c, split, nextId, nextId + 1), c)
  {
    owner', lists' := SplitOwners(rows, owner, lists, c, all, split.a.ids, split.b.ids, nextId, nextId + 1);
    SplitIndexed(dim, centroids, lists, nextId, c, split);
  }

  lemma SplitOwners(rows: set<(Cid, Mid)>, owner: map<Mid, Cid>, lists: map<Cid, seq<Mid>>, c: Cid, all: seq<Mid>,
                    xs: seq<Mid>, ys: seq<Mid>, a: Cid, b: Cid) returns (owner': map<Mid, Cid>, lists': map<Cid, seq<Mid>>)
    requires Owned(rows, owner, lists) && c in lists && a !in lists && b !in lists && a != b
    requires (forall m :: m in all <==> (c, m) in rows) && Parts(all, xs, ys)
    ensures Owned(SplitRows(rows, c, xs, ys, a, b), owner', lists') && owner'.Keys == owner.Keys
    ensures lists' == SplitLists(lists, c, xs, ys, a, b)
  {
    SplitOwned(rows, owner, lists, c, all, xs, ys, a, b);
    owner', lists' := Moved(owner, xs, a, ys, b), SplitLists(lists, c, xs, ys, a, b);
  }

  /** Which centroids are inexact after a split. */
  lemma SplitSpoils(vec: Lookup, dim: nat, centroids: map<Cid, Centroid>, rows: set<(Cid, Mid)>, consolidated: set<Mid>,
                    owner: map<Mid, Cid>, lists: map<Cid, seq<Mid>>, nextId: Cid, cut: Cut, split: Split, dist: Distance)
    requires Good(dim, centroids, rows, consolidated, owner, lists, nextId) && Splittable(centroids, cut.parent)
    requires cut.first == nextId && Listed(vec, cut.members, consolidated) && HalvesOf(vec, dim, cut.members, dist, split)
    ensures CutsDone(vec, [cut], SplitCentroids(centroids, cut.parent, split, nextId, nextId + 1), consolidated)
    ensures var centroids' := SplitCentroids(centroids, cut.parent, split, nextId, nextId + 1);
      var lists' := SplitLists(lists, cut.parent, split.a.ids, split.b.ids, nextId, nextId + 1);
      && BlurredOf(vec, dim, centroids', lists') == Surviving(BlurredOf(vec, dim, centroids, lists), [cut], dist, centroids')
      && (BlurredOf(vec, dim, centroids, lists) == {} ==>
            (BlurredOf(vec, dim, centroids', lists') == {} <==> SplitsExactly(cut.members, dist)))
  {
    SplitSurvives(vec, dim, centroids, lists, nextId, cut, split, dist);
    if BlurredOf(vec, dim, centroids, lists) == {} { SplitExactIff(vec, dim, centroids, lists, nextId, cut, split, dist); }
  }

  lemma SplitSurvives(vec: Lookup, dim: nat, centroids: map<Cid, Centroid>, lists: map<Cid, seq<Mid>>, nextId: Cid,
                      cut: Cut, split: Split, dist: Distance)
    requires Indexed(dim, centroids, lists) && Forward(centroids, nextId)
    requires Splittable(centroids, cut.parent) && cut.first == nextId && split.Clusters?
    requires HalfExact(vec, dim, split.a) <==> BornExact(cut.members, 0, dist)
    requires HalfExact(vec, dim, split.b) <==> BornExact(cut.members, 1, dist)
    ensures var centroids' := SplitCentroids(centroids, cut.parent, split, nextId, nextId + 1);
      BlurredOf(vec, dim, centroids', SplitLists(lists, cut.parent, split.a.ids, split.b.ids, nextId, nextId + 1)) ==
      Surviving(BlurredOf(vec, dim, centroids, lists), [cut], dist, centroids')
  {
    SplitBlurs(vec, dim, centroids, lists, nextId, cut.parent, split);
    BlurredActive(vec, dim, centroids, lists);
    SurvivingCut(BlurredOf(vec, dim, centroids, lists), cut, dist, centroids, split);
    SpoiltByCut(cut, dist);
  }

  lemma SplitExactIff(vec: Lookup, dim: nat, centroids: map<Cid, Centroid>, lists: map<Cid, seq<Mid>>, nextId: Cid,
                      cut: Cut, split: Split, dist: Distance)
    requires Indexed(dim, centroids, lists) && Forward(centroids, nextId)
    requires Splittable(centroids, cut.parent) && cut.first == nextId && split.Clusters?
    requires HalfExact(vec, dim, split.a) <==> BornExact(cut.members, 0, dist)
    requires HalfExact(vec, dim, split.b) <==> BornExact(cut.members, 1, dist)
    requires BlurredOf(vec, dim, centroids, lists) == {}
    ensures var lists' := SplitLists(lists, cut.parent, split.a.ids, split.b.ids, nextId, nextId + 1);
      BlurredOf(vec, dim, SplitCentroids(centroids, cut.parent, split, nextId, nextId + 1), lists') == {} <==> SplitsExactly(cut.members, dist)
  {
    SplitBlurs(vec, dim, centroids, lists, nextId, cut.parent, split);
    SpoiltByCut(cut, dist);
  }

  lemma BlurredActive(vec: Lookup, dim: nat, centroids: map<Cid, Centroid>, lists: map<Cid, seq<Mid>>)
    requires Indexed(dim, centroids, lists)
    ensures forall c :: c in BlurredOf(vec, dim, centroids, lists) ==> c in centroids && centroids[c].active
  { }

  /** A split changes nothing about the other centroids. */
  lemma SplitBlurs(vec: Lookup, dim: nat, centroids: map<Cid, Centroid>, lists: map<Cid, seq<Mid>>, nextId: Cid, c: Cid, split: Split)
    requires Indexed(dim, centroids, lists) && Forward(centroids, nextId)
    requires c in centroids && centroids[c].active && split.Clusters?
    ensures BlurredOf(vec, dim, SplitCentroids(centroids, c, split, nextId, nextId + 1),
                      SplitLists(lists, c, split.a.ids, split.b.ids, nextId, nextId + 1)) ==
      BlurredOf(vec, dim, centroids, lists) - {c} + Unequal(nextId, HalfExact(vec, dim, split.a), HalfExact(vec, dim, split.b))
  {
    var a, b := nextId, nextId + 1;
    var centroids', lists' := SplitCentroids(centroids, c, split, a, b), SplitLists(lists, c, split.a.ids, split.b.ids, a, b);
    assert ExactOver(vec, dim, lists'[a], centroids'[a]) <==> HalfExact(vec, dim, split.a);
    assert ExactOver(vec, dim, lists'[b], centroids'[b]) <==> HalfExact(vec, dim, split.b);
    assert a !in lists && b !in lists;
  }

  // ---- merging ----

  function MergeCentroid(centroids: map<Cid, Centroid>, a: Cid, b: Cid, merged: Stats, id: Cid): map<Cid, Centroid>
    requires a in centroids && b in centroids
  {
    centroids[id := Centroid(merged.mean, merged.m2, merged.count, true, None)]
             [a := centroids[a].(active := false, mergedInto := Some(id))]
             [b := centroids[b].(active := false, mergedInto := Some(id))]
  }

  function MergeRows(rows: set<(Cid, Mid)>, a: Cid, b: Cid, id: Cid): set<(Cid, Mid)> {
    set r | r in rows :: if r.0 == a || r.0 == b then (id, r.1) else r
  }

  function MergeLists(lists: map<Cid, seq<Mid>>, a: Cid, b: Cid, id: Cid): map<Cid, seq<Mid>>
    requires a in lists && b in lists
  {
    (lists - {a, b})[id := lists[a] + lists[b]]
  }

  lemma QueriedSameDim(dim: nat, centroids: map<Cid, Centroid>, lists: map<Cid, seq<Mid>>, p: Pair)
    requires Indexed(dim, centroids, lists) && Queried(centroids, p)
    ensures |p.sa.mean| == |p.sb.mean|
  {
    assert Counted(dim, lists[p.a], centroids[p.a]) && Counted(dim, lists[p.b], centroids[p.b]);
  }

  lemma MergeKeeps(dim: nat, centroids: map<Cid, Centroid>, rows: set<(Cid, Mid)>, consolidated: set<Mid>,
                   owner: map<Mid, Cid>, lists: map<Cid, seq<Mid>>, nextId: Cid, a: Cid, b: Cid, merged: Stats)
    requires Good(dim, centroids, rows, consolidated, owner, lists, nextId) && a != b
    requires a in centroids && centroids[a].active && b in centroids && centroids[b].active
    requires merged == Combined(StatsOf(centroids[a]), StatsOf(centroids[b]))
    ensures a in lists && b in lists
    ensures Good(dim, MergeCentroid(centroids, a, b, merged, nextId), MergeRows(rows, a, b, nextId), consolidated,
                 Moved(owner, lists[a], nextId, lists[b], nextId), MergeLists(lists, a, b, nextId), nextId + 1)
    ensures Evolves(centroids, MergeCentroid(centroids, a, b, merged, nextId))
  {
    assert a in lists && b in lists && nextId !in lists;
    assert Counted(dim, lists[a], centroids[a]) && Counted(dim, lists[b], centroids[b]);
    assert Enumerates(lists[a], owner, a) && Enumerates(lists[b], owner, b);
    MergeOwned(rows, owner, lists, a, b, nextId);
  }

  lemma MergeKeepsExact(vec: Lookup, dim: nat, centroids: map<Cid, Centroid>, rows: set<(Cid, Mid)>, consolidated: set<Mid>,
                        owner: map<Mid, Cid>, lists: map<Cid, seq<Mid>>, nextId: Cid, a: Cid, b: Cid, merged: Stats)
    requires Good(dim, centroids, rows, consolidated, owner, lists, nextId) && BlurredOf(vec, dim, centroids, lists) == {} && a != b
    requires a in centroids && centroids[a].active && b in centroids && centroids[b].active && a in lists && b in lists
    requires merged == Combined(StatsOf(centroids[a]), StatsOf(centroids[b]))
    ensures BlurredOf(vec, dim, MergeCentroid(centroids, a, b, merged, nextId), MergeLists(lists, a, b, nextId)) == {}
  {
    assert Enumerates(lists[a], owner, a) && Enumerates(lists[b], owner, b);
    MergeExact(vec, dim, centroids, lists, a, b, merged);
    var centroids', lists' := MergeCentroid(centroids, a, b, merged, nextId), MergeLists(lists, a, b, nextId);
    forall d | d in lists' && d in centroids' ensures ExactOver(vec, dim, lists'[d], centroids'[d]) {
      if d != nextId { assert d !in BlurredOf(vec, dim, centroids, lists); }
    }
  }

  lemma MergeOwned(rows: set<(Cid, Mid)>, owner: map<Mid, Cid>, lists: map<Cid, seq<Mid>>, a: Cid, b: Cid, id: Cid)
    requires Owned(rows, owner, lists) && a in lists && b in lists && a != b && id !in lists
    ensures Owned(MergeRows(rows, a, b, id), Moved(owner, lists[a], id, lists[b], id), MergeLists(lists, a, b, id))
  {
    var rows', owner', lists' := MergeRows(rows, a, b, id), Moved(owner, lists[a], id, lists[b], id), MergeLists(lists, a, b, id);
    assert Enumerates(lists[a], owner, a) && Enumerates(lists[b], owner, b);
    forall c: Cid, m: Mid ensures RowMatches(rows', owner', c, m) {
      if m in owner { assert (owner[m], m) in rows; }
    }
    forall d | d in lists' ensures lists'[d] != [] && Enumerates(lists'[d], owner', d) {
      if d == id {
        var ms := lists[a] + lists[b];
        forall i, j | 0 <= i < j < |ms| ensures ms[i] != ms[j] {
          if i < |lists[a]| <= j { assert ms[i] in lists[a] && ms[j] in lists[b]; }
        }
      } else { assert Enumerates(lists[d], owner, d); }
    }
  }

  lemma MergeExact(vec: Lookup, dim: nat, centroids: map<Cid, Centroid>, lists: map<Cid, seq<Mid>>, a: Cid, b: Cid, merged: Stats)
    requires BlurredOf(vec, dim, centroids, lists) == {} && a in lists && b in lists && lists[a] != [] && lists[b] != []
    requires a in centroids && b in centroids && merged == Combined(StatsOf(centroids[a]), StatsOf(centroids[b]))
    ensures IsExact(Vecs(vec, lists[a] + lists[b]), dim, merged.mean, merged.m2, merged.count)
  {
    assert a !in BlurredOf(vec, dim, centroids, lists) && b !in BlurredOf(vec, dim, centroids, lists);
    ConcatExact(Vecs(vec, lists[a]), Vecs(vec, lists[b]), dim, StatsOf(centroids[a]), StatsOf(centroids[b]));
    assert Vecs(vec, lists[a] + lists[b]) == Vecs(vec, lists[a]) + Vecs(vec, lists[b]);
  }

  lemma ConcatExact(us: seq<Vec>, vs: seq<Vec>, dim: nat, a: Stats, b: Stats)
    requires us != [] && vs != []
    requires IsExact(us, dim, a.mean, a.m2, a.count) && IsExact(vs, dim, b.mean, b.m2, b.count)
    ensures var r := Combined(a, b); IsExact(us + vs, dim, r.mean, r.m2, r.count)
  {
    forall k | 0 <= k < dim ensures SumsMatch(us, vs, us + vs, k) { SumsAppend(us, vs, k); }
    CombineIsExact(us, vs, us + vs, dim, a, b);
  }

  // ---- main results ----

  ghost predicate Placed(centroids: map<Cid, Centroid>, rows: set<(Cid, Mid)>, m: Mid, c: Cid) {
    c in centroids && centroids[c].active && (c, m) in rows && forall d :: (d, m) in rows ==> d == c
  }

  /** In every state the operations can reach, a consolidated vector has exactly
      one member row, and that centroid is active; an unconsolidated vector and an
      inactive centroid have none. */
  lemma EveryVectorHasOneActiveCentroid(dim: nat, centroids: map<Cid, Centroid>, rows: set<(Cid, Mid)>, consolidated: set<Mid>,
                                        owner: map<Mid, Cid>, lists: map<Cid, seq<Mid>>, nextId: Cid)
    requires Good(dim, centroids, rows, consolidated, owner, lists, nextId)
    ensures forall m :: m in consolidated ==> exists c :: Placed(centroids, rows, m, c)
    ensures forall c, m :: (c, m) in rows ==> m in consolidated && c in centroids && centroids[c].active
  {
    forall m | m in consolidated ensures exists c :: Placed(centroids, rows, m, c) {
      var c := owner[m];
      assert RowMatches(rows, owner, c, m);
      forall d | (d, m) in rows ensures d == c { assert RowMatches(rows, owner, d, m); }
      assert c in lists;
      assert Placed(centroids, rows, m, c);
    }
    forall c, m | (c, m) in rows ensures m in consolidated && c in centroids && centroids[c].active {
      assert RowMatches(rows, owner, c, m);
      assert c in lists;
    }
  }

  lemma WithoutLast(xs: seq<Mid>, ys: seq<Mid>, j: nat)
    requires Distinct(xs) && Distinct(ys) && (forall m :: m in xs <==> m in ys) && xs != [] && j < |ys| && ys[j] == xs[|xs| - 1]
    ensures var front, rest := xs[..|xs| - 1], ys[..j] + ys[j + 1..];
      Distinct(front) && Distinct(rest) && forall m :: m in front <==> m in rest
  {
    var x, front, rest := ys[j], xs[..|xs| - 1], ys[..j] + ys[j + 1..];
    assert x !in front && x !in ys[..j] && x !in ys[j + 1..];
    forall m ensures m in front <==> m in rest {
      assert xs == front + [x] && ys == ys[..j] + [x] + ys[j + 1..];
      assert m in xs <==> m in front || m == x;
      assert m in ys <==> m in rest || m == x;
    }
  }

  predicate SameSums(vec: Lookup, xs: seq<Mid>, ys: seq<Mid>, k: nat, c: real) {
    SumAt(Vecs(vec, xs), k) == SumAt(Vecs(vec, ys), k) && DevAt(Vecs(vec, xs), k, c) == DevAt(Vecs(vec, ys), k, c)
  }

  lemma {:induction false} SumsPermute(vec: Lookup, xs: seq<Mid>, ys: seq<Mid>, k: nat, c: real)
    requires Distinct(xs) && Distinct(ys) && forall m :: m in xs <==> m in ys
    ensures SameSums(vec, xs, ys, k, c)
    decreases |xs|
  {
    SameLength(xs, ys);
    if xs != [] {
      var j := IndexOf(ys, xs[|xs| - 1]);
      WithoutLast(xs, ys, j);
      SumsPermute(vec, xs[..|xs| - 1], ys[..j] + ys[j + 1..], k, c);
      assert SameSums(vec, xs, ys, k, c) by {
        var front := xs[..|xs| - 1];
        assert xs == front + [ys[j]] + [] && front == front + [];
        assert ys == ys[..j] + [ys[j]] + ys[j + 1..];
        SumsPull(vec, front, ys[j], [], k, c);
        SumsPull(vec, ys[..j], ys[j], ys[j + 1..], k, c);
      }
    }
  }

  lemma IndexOf(ys: seq<Mid>, m: Mid) returns (j: nat)
    requires m in ys
    ensures j < |ys| && ys[j] == m
  {
    j :| 0 <= j < |ys| && ys[j] == m;
  }

  lemma SumsPull(vec: Lookup, xs: seq<Mid>, m: Mid, ys: seq<Mid>, k: nat, c: real)
    ensures SumAt(Vecs(vec, xs + [m] + ys), k) == SumAt(Vecs(vec, xs + ys), k) + SumAt([vec(m)], k)
    ensures DevAt(Vecs(vec, xs + [m] + ys), k, c) == DevAt(Vecs(vec, xs + ys), k, c) + DevAt([vec(m)], k, c)
  {
    var us, vs, one := Vecs(vec, xs), Vecs(vec, ys), [vec(m)];
    assert Vecs(vec, xs + [m] + ys) == us + (one + vs) && Vecs(vec, xs + ys) == us + vs;
    DevAppend(us, one + vs, k, c);
    DevAppend(one, vs, k, c);
    DevAppend(us, vs, k, c);
  }

  lemma {:induction false} DevAppend(us: seq<Vec>, vs: seq<Vec>, k: nat, c: real)
    ensures SumAt(us + vs, k) == SumAt(us, k) + SumAt(vs, k) && DevAt(us + vs, k, c) == DevAt(us, k, c) + DevAt(vs, k, c)
    decreases |vs|
  {
    if vs == [] {
      assert us + vs == us;
    } else {
      DevAppend(us, vs[..|vs| - 1], k, c);
      assert (us + vs)[..|us + vs| - 1] == us + vs[..|vs| - 1];
    }
  }

  lemma {:induction false} DevPermute(vec: Lookup, xs: seq<Mid>, ys: seq<Mid>, mean: Vec, d: nat)
    requires Distinct(xs) && Distinct(ys) && (forall m :: m in xs <==> m in ys)
    ensures Dev(Vecs(vec, xs), mean, d) == Dev(Vecs(vec, ys), mean, d)
    decreases d
  {
    if d > 0 {
      DevPermute(vec, xs, ys, mean, d - 1);
      SumsPermute(vec, xs, ys, d - 1, At(mean, d - 1));
    }
  }

  lemma DimsPermute(vec: Lookup, dim: nat, xs: seq<Mid>, ys: seq<Mid>)
    requires (forall m :: m in xs <==> m in ys) && forall v :: v in Vecs(vec, xs) ==> |v| == dim
    ensures forall v :: v in Vecs(vec, ys) ==> |v| == dim
  {
    forall v | v in Vecs(vec, ys) ensures |v| == dim {
      var j :| 0 <= j < |ys| && Vecs(vec, ys)[j] == v;
      assert ys[j] in xs;
      var i :| 0 <= i < |xs| && xs[i] == ys[j];
      assert Vecs(vec, xs)[i] in Vecs(vec, xs);
    }
  }

  lemma MeansPermute(vec: Lookup, dim: nat, xs: seq<Mid>, ys: seq<Mid>, mean: Vec)
    requires Distinct(xs) && Distinct(ys) && (forall m :: m in xs <==> m in ys) && |xs| == |ys|
    requires forall k :: 0 <= k < dim ==> IsMean(Vecs(vec, xs), k, At(mean, k))
    ensures forall k :: 0 <= k < dim ==> IsMean(Vecs(vec, ys), k, At(mean, k))
  {
    forall k | 0 <= k < dim ensures IsMean(Vecs(vec, ys), k, At(mean, k)) { SumsPermute(vec, xs, ys, k, At(mean, k)); }
  }

  lemma ExactInAnyOrder(vec: Lookup, dim: nat, xs: seq<Mid>, ys: seq<Mid>, c: Centroid)
    requires Distinct(xs) && Distinct(ys) && (forall m :: m in xs <==> m in ys) && ExactOver(vec, dim, xs, c)
    ensures ExactOver(vec, dim, ys, c)
  {
    SameLength(xs, ys);
    DimsPermute(vec, dim, xs, ys);
    DevPermute(vec, xs, ys, c.mean, dim);
    MeansPermute(vec, dim, xs, ys, c.mean);
  }

  /** The stored index agrees with a full scan: however the member rows of an
      active centroid are listed, its count is their number, at least one; and
      unless it is blurred, and only then, its mean and m2 are their average and
      sum of squared deviations. */
  lemma IndexAgreesWithScan(vec: Lookup, dim: nat, centroids: map<Cid, Centroid>, rows: set<(Cid, Mid)>, consolidated: set<Mid>,
                            owner: map<Mid, Cid>, lists: map<Cid, seq<Mid>>, nextId: Cid, c: Cid, scan: seq<Mid>)
    requires Good(dim, centroids, rows, consolidated, owner, lists, nextId) && c in centroids && centroids[c].active
    requires Distinct(scan) && forall m :: m in scan <==> (c, m) in rows
    ensures centroids[c].count == |scan| >= 1
    ensures c !in BlurredOf(vec, dim, centroids, lists) <==> IsExact(Vecs(vec, scan), dim, centroids[c].mean, centroids[c].m2, |scan|)
  {
    assert c in lists && Enumerates(lists[c], owner, c) && Counted(dim, lists[c], centroids[c]);
    forall m ensures m in scan <==> m in lists[c] { assert RowMatches(rows, owner, c, m); }
    SameLength(scan, lists[c]);
    if ExactOver(vec, dim, lists[c], centroids[c]) {
      ExactInAnyOrder(vec, dim, lists[c], scan, centroids[c]);
    } else if ExactOver(vec, dim, scan, centroids[c]) {
      ExactInAnyOrder(vec, dim, scan, lists[c], centroids[c]);
    }
  }

  /** Following `merged_into` from any centroid. */
  function MergeChain(centroids: map<Cid, Centroid>, nextId: Cid, c: Cid): seq<Cid>
    requires Forward(centroids, nextId) && c in centroids
    decreases nextId - c
  {
    match centroids[c].mergedInto
    case None => [c]
    case Some(d) =>
      assert PointsForward(centroids, c, d);
      [c] + MergeChain(centroids, nextId, d)
  }

  /** Every chain is finite: it visits each centroid at most once and ends at one
      that was never merged. */
  lemma {:induction false} MergeChainEnds(centroids: map<Cid, Centroid>, nextId: Cid, c: Cid)
    requires Forward(centroids, nextId) && c in centroids
    ensures var chain := MergeChain(centroids, nextId, c);
      && |chain| >= 1 && chain[0] == c
      && (forall k :: 0 <= k < |chain| ==> chain[k] in centroids)
      && (forall k :: 0 <= k < |chain| - 1 ==> centroids[chain[k]].mergedInto == Some(chain[k + 1]) && !centroids[chain[k]].active)
      && centroids[chain[|chain| - 1]].mergedInto == None
      && (forall j, k :: 0 <= j < k < |chain| ==> chain[j] < chain[k])
    decreases nextId - c
  {
    if centroids[c].mergedInto.Some? {
      var d := centroids[c].mergedInto.value;
      assert PointsForward(centroids, c, d);
      MergeChainEnds(centroids, nextId, d);
    }
  }
}
