/** Merging the two layers of a concept search. */
module TopK {
  import opened Records

  datatype Hit = Hit(id: Uuid, distance: real)

  function IdsOf(hits: seq<Hit>): set<Uuid> { set h | h in hits :: h.id }

  predicate Sorted(hits: seq<Hit>) { forall i, j :: 0 <= i < j < |hits| ==> hits[i].distance <= hits[j].distance }

  predicate DistinctIds(hits: seq<Hit>) { forall i, j :: 0 <= i < j < |hits| ==> hits[i].id != hits[j].id }

  /** `h` is its id's closest hit. */
  predicate Closest(hits: seq<Hit>, h: Hit) { h in hits && forall x :: x in hits && x.id == h.id ==> h.distance <= x.distance }

  /** Sorted, one hit an id, each id at its smallest distance, as many ids as the
      limit allows, and no omitted id closer than a kept one. */
  ghost predicate IsMerge(hits: seq<Hit>, limit: nat, r: seq<Hit>) {
    && Sorted(r) && DistinctIds(r) && (forall j :: 0 <= j < |r| ==> Closest(hits, r[j]))
    && |r| == Min(limit, |IdsOf(hits)|)
    && (forall h, j :: h in hits && h.id !in IdsOf(r) && 0 <= j < |r| ==> r[j].distance <= h.distance)
  }

  // ---- the code ----

  ghost predicate Best(hits: seq<Hit>, best: map<Uuid, Hit>) {
    best.Keys == IdsOf(hits) && forall id :: id in best ==> best[id].id == id && Closest(hits, best[id])
  }

  lemma BestPush(hits: seq<Hit>, best: map<Uuid, Hit>, h: Hit)
    requires Best(hits, best)
    ensures Best(hits + [h], if h.id in best && best[h.id].distance <= h.distance then best else best[h.id := h])
  {
    var best' := if h.id in best && best[h.id].distance <= h.distance then best else best[h.id := h];
    assert IdsOf(hits + [h]) == IdsOf(hits) + {h.id};
    forall id | id in best' ensures Closest(hits + [h], best'[id]) {
      assert h in hits + [h];
      if id in best { assert Closest(hits, best[id]); }
    }
  }

  method Insert(hits: seq<Hit>, h: Hit) returns (r: seq<Hit>)
    requires Sorted(hits) && DistinctIds(hits) && h.id !in IdsOf(hits)
    ensures Sorted(r) && DistinctIds(r) && |r| == |hits| + 1 && forall x :: x in r <==> x in hits || x == h
  {
    var k := 0;
    while k < |hits| && hits[k].distance <= h.distance
      invariant 0 <= k <= |hits|
      invariant forall j :: 0 <= j < k ==> hits[j].distance <= h.distance
    {
      k := k + 1;
    }
    r := hits[..k] + [h] + hits[k..];
    InsertKeeps(hits, h, k);
  }

  lemma InsertKeeps(hits: seq<Hit>, h: Hit, k: nat)
    requires Sorted(hits) && DistinctIds(hits) && h.id !in IdsOf(hits) && k <= |hits|
    requires forall j :: 0 <= j < k ==> hits[j].distance <= h.distance
    requires k < |hits| ==> h.distance < hits[k].distance
    ensures var r := hits[..k] + [h] + hits[k..];
      Sorted(r) && DistinctIds(r) && |r| == |hits| + 1 && forall x :: x in r <==> x in hits || x == h
  {
    var r := hits[..k] + [h] + hits[k..];
    assert hits == hits[..k] + hits[k..];
    forall j | 0 <= j < |hits| ensures hits[j].id != h.id { assert hits[j].id in IdsOf(hits); }
    forall j | 0 <= j < |r| ensures r[j] == Placed(hits, h, k, j) { }
    assert Sorted(r) && DistinctIds(r) by {
      forall i, j | 0 <= i < j < |r| ensures r[i].distance <= r[j].distance && r[i].id != r[j].id {
        assert r[i] == Placed(hits, h, k, i) && r[j] == Placed(hits, h, k, j);
      }
    }
  }

  function Placed(hits: seq<Hit>, h: Hit, k: nat, j: nat): Hit
    requires k <= |hits| && j <= |hits|
  {
    if j < k then hits[j] else if j == k then h else hits[j - 1]
  }

  /** The first loop: each id's closest hit. */
  method BestHits(hits: seq<Hit>) returns (best: map<Uuid, Hit>)
    ensures Best(hits, best)
  {
    best := map[];
    for k := 0 to |hits|
      invariant Best(hits[..k], best)
    {
      var h := hits[k];
      BestPush(hits[..k], best, h);
      assert hits[..k + 1] == hits[..k] + [h];
      if h.id in best {
        if h.distance < best[h.id].distance { best := best[h.id := h]; }
      } else {
        best := best[h.id := h];
      }
    }
    assert hits[..|hits|] == hits;
  }

  /** `into_values` in any order, then the sort. */
  method SortedValues(best: map<Uuid, Hit>) returns (all: seq<Hit>)
    requires forall id :: id in best ==> best[id].id == id
    ensures Sorted(all) && DistinctIds(all) && |all| == |best.Keys|
    ensures forall x :: x in all <==> x.id in best && x == best[x.id]
  {
    all := [];
    var todo := best.Keys;
    while todo != {}
      invariant todo <= best.Keys && Sorted(all) && DistinctIds(all) && |all| == |best.Keys| - |todo|
      invariant forall x :: x in all <==> x.id in best && x.id !in todo && x == best[x.id]
      decreases |todo|
    {
      var id :| id in todo;
      assert best[id].id !in IdsOf(all);
      all := Insert(all, best[id]);
      todo := todo - {id};
    }
  }

  /** `merge_by_similarity`. */
  method MergeBySimilarity(crystallized: seq<Hit>, buffered: seq<Hit>, limit: nat) returns (r: seq<Hit>)
    ensures IsMerge(crystallized + buffered, limit, r)
  {
    var best := BestHits(crystallized + buffered);
    var all := SortedValues(best);
    TruncationIsMerge(crystallized + buffered, limit, best, all);
    r := all[..Min(limit, |all|)];
  }

  lemma PrefixHolds(hits: seq<Hit>, n: nat)
    requires n <= |hits|
    ensures forall i :: 0 <= i < n ==> hits[i] in hits[..n] && hits[i].id in IdsOf(hits[..n])
  {
    forall i | 0 <= i < n ensures hits[i] in hits[..n] && hits[i].id in IdsOf(hits[..n]) { assert hits[..n][i] == hits[i]; }
  }

  lemma TruncationIsMerge(hits: seq<Hit>, limit: nat, best: map<Uuid, Hit>, all: seq<Hit>)
    requires Best(hits, best) && Sorted(all) && DistinctIds(all) && |all| == |best.Keys|
    requires forall x :: x in all <==> x.id in best && x == best[x.id]
    ensures IsMerge(hits, limit, all[..Min(limit, |all|)])
  {
    var n := Min(limit, |all|);
    var r := all[..n];
    forall j | 0 <= j < |r| ensures Closest(hits, r[j]) { assert all[j] in all; }
    forall h, j | h in hits && h.id !in IdsOf(r) && 0 <= j < |r| ensures r[j].distance <= h.distance {
      assert h.id in IdsOf(hits);
      assert Closest(hits, best[h.id]);
    }
  }

  // ---- the distances are determined ----

  /** Ids with a hit within `t`. */
  function Within(hits: seq<Hit>, t: real): set<Uuid> { set h | h in hits && h.distance <= t :: h.id }

  lemma {:induction false} PrefixIds(r: seq<Hit>, k: nat)
    requires DistinctIds(r) && k <= |r|
    ensures |IdsOf(r[..k])| == k
    decreases k
  {
    if k == 0 {
      assert IdsOf(r[..0]) == {};
    } else {
      PrefixIds(r, k - 1);
      assert r[..k] == r[..k - 1] + [r[k - 1]];
      assert IdsOf(r[..k]) == IdsOf(r[..k - 1]) + {r[k - 1].id};
      assert r[k - 1].id !in IdsOf(r[..k - 1]);
    }
  }

  lemma Subset<T>(a: set<T>, b: set<T>)
    requires a <= b
    ensures |a| <= |b|
  {
    assert b == a + (b - a);
  }

  /** The hit kept at place `j` is within `t` exactly when more than `j` ids are. */
  lemma KeptWithin(hits: seq<Hit>, limit: nat, r: seq<Hit>, j: nat, t: real)
    requires IsMerge(hits, limit, r) && j < |r|
    ensures r[j].distance <= t <==> j < |Within(hits, t)|
  {
    if r[j].distance <= t {
      forall id | id in IdsOf(r[..j + 1]) ensures id in Within(hits, t) {
        var h :| h in r[..j + 1] && h.id == id;
        var i :| 0 <= i < j + 1 && r[i] == h;
        assert Closest(hits, r[i]);
      }
      Subset(IdsOf(r[..j + 1]), Within(hits, t));
      PrefixIds(r, j + 1);
    } else {
      forall id | id in Within(hits, t) ensures id in IdsOf(r[..j]) { }
      Subset(Within(hits, t), IdsOf(r[..j]));
      PrefixIds(r, j);
    }
  }

  function Distances(r: seq<Hit>): (ds: seq<real>)
    ensures |ds| == |r| && forall k :: 0 <= k < |ds| ==> ds[k] == r[k].distance
  {
    seq(|r|, k requires 0 <= k < |r| => r[k].distance)
  }

  /** Two sets of hits agree up to the limit on how many ids lie within any distance. */
  ghost predicate SameUpTo(a: seq<Hit>, b: seq<Hit>, limit: nat) {
    Min(limit, |IdsOf(a)|) == Min(limit, |IdsOf(b)|) && forall t: real :: Min(limit, |Within(a, t)|) == Min(limit, |Within(b, t)|)
  }

  lemma MergesAgree(a: seq<Hit>, b: seq<Hit>, limit: nat, r: seq<Hit>, s: seq<Hit>)
    requires IsMerge(a, limit, r) && IsMerge(b, limit, s) && SameUpTo(a, b, limit)
    ensures Distances(r) == Distances(s)
  {
    forall j | 0 <= j < |r| ensures r[j].distance == s[j].distance {
      KeptWithin(a, limit, r, j, s[j].distance);
      KeptWithin(b, limit, s, j, s[j].distance);
      KeptWithin(a, limit, r, j, r[j].distance);
      KeptWithin(b, limit, s, j, r[j].distance);
      assert Min(limit, |Within(a, s[j].distance)|) == Min(limit, |Within(b, s[j].distance)|);
      assert Min(limit, |Within(a, r[j].distance)|) == Min(limit, |Within(b, r[j].distance)|);
    }
  }

  /** The code's result has the same distances whatever order the hash map
      yields its entries in. */
  lemma DistancesAreDetermined(hits: seq<Hit>, limit: nat, r: seq<Hit>, s: seq<Hit>)
    requires IsMerge(hits, limit, r) && IsMerge(hits, limit, s)
    ensures Distances(r) == Distances(s)
  {
    MergesAgree(hits, hits, limit, r, s);
  }

  // ---- truncating the layers first ----

  predicate Layer(hits: seq<Hit>) { Sorted(hits) && DistinctIds(hits) }

  function Cut(hits: seq<Hit>, limit: nat): seq<Hit> { hits[..Min(limit, |hits|)] }

  /** A cut layer that lost a hit still has `limit` ids no farther than it. */
  lemma FullCut(layer: seq<Hit>, limit: nat, i: nat, t: real)
    requires Layer(layer) && limit <= i < |layer| && layer[i].distance <= t
    ensures |Within(Cut(layer, limit), t)| >= limit
  {
    var cut := Cut(layer, limit);
    forall id | id in IdsOf(cut) ensures id in Within(cut, t) {
      var h :| h in cut && h.id == id;
      var j :| 0 <= j < |cut| && cut[j] == h;
      assert layer[j] == h;
    }
    Subset(IdsOf(cut), Within(cut, t));
    PrefixIds(layer, limit);
  }

  lemma WithinCut(a: seq<Hit>, b: seq<Hit>, limit: nat, t: real)
    requires Layer(a) && Layer(b)
    ensures Min(limit, |Within(Cut(a, limit) + Cut(b, limit), t)|) == Min(limit, |Within(a + b, t)|)
  {
    var cut, full := Within(Cut(a, limit) + Cut(b, limit), t), Within(a + b, t);
    assert cut <= full;
    Subset(cut, full);
    if id :| id in full && id !in cut {
      var h :| h in a + b && h.distance <= t && h.id == id;
      LostHit(a, b, limit, t, h);
    } else {
      assert cut == full;
    }
  }

  /** A hit within `t` whose id the cuts lost sits past the limit in its layer. */
  lemma LostHit(a: seq<Hit>, b: seq<Hit>, limit: nat, t: real, h: Hit)
    requires Layer(a) && Layer(b) && h in a + b && h.distance <= t
    requires h.id !in Within(Cut(a, limit) + Cut(b, limit), t)
    ensures |Within(Cut(a, limit) + Cut(b, limit), t)| >= limit
  {
    PrefixHolds(a, Min(limit, |a|));
    PrefixHolds(b, Min(limit, |b|));
    assert h !in Cut(a, limit) + Cut(b, limit);
    if h in a {
      var i :| 0 <= i < |a| && a[i] == h;
      FullCut(a, limit, i, t);
      Subset(Within(Cut(a, limit), t), Within(Cut(a, limit) + Cut(b, limit), t));
    } else {
      var i :| 0 <= i < |b| && b[i] == h;
      FullCut(b, limit, i, t);
      Subset(Within(Cut(b, limit), t), Within(Cut(a, limit) + Cut(b, limit), t));
    }
  }

  lemma IdsCut(a: seq<Hit>, b: seq<Hit>, limit: nat)
    requires Layer(a) && Layer(b)
    ensures Min(limit, |IdsOf(Cut(a, limit) + Cut(b, limit))|) == Min(limit, |IdsOf(a + b)|)
  {
    var cut := Cut(a, limit) + Cut(b, limit);
    assert IdsOf(cut) <= IdsOf(a + b);
    Subset(IdsOf(cut), IdsOf(a + b));
    if |a| > limit {
      PrefixIds(a, limit);
      Subset(IdsOf(Cut(a, limit)), IdsOf(cut));
    } else if |b| > limit {
      PrefixIds(b, limit);
      Subset(IdsOf(Cut(b, limit)), IdsOf(cut));
    } else {
      assert Cut(a, limit) == a && Cut(b, limit) == b;
    }
  }

  /** Layered top-k loses nothing: cutting each sorted layer to the limit before
      merging gives the same distances as merging the full layers. */
  lemma CuttingLayersLosesNothing(a: seq<Hit>, b: seq<Hit>, limit: nat, r: seq<Hit>, s: seq<Hit>)
    requires Layer(a) && Layer(b)
    requires IsMerge(Cut(a, limit) + Cut(b, limit), limit, r) && IsMerge(a + b, limit, s)
    ensures Distances(r) == Distances(s)
  {
    IdsCut(a, b, limit);
    forall t: real ensures Min(limit, |Within(Cut(a, limit) + Cut(b, limit), t)|) == Min(limit, |Within(a + b, t)|) {
      WithinCut(a, b, limit, t);
    }
    MergesAgree(Cut(a, limit) + Cut(b, limit), a + b, limit, r, s);
  }

  /** `search_by_concept` over what its two queries return: each layer sorted, one
      hit an id, and cut to the limit by the query. */
  method SearchByConcept(crystallized: seq<Hit>, buffered: seq<Hit>, limit: nat) returns (r: seq<Hit>)
    requires Layer(crystallized) && Layer(buffered)
    ensures forall s :: IsMerge(crystallized + buffered, limit, s) ==> Distances(r) == Distances(s)
  {
    r := MergeBySimilarity(Cut(crystallized, limit), Cut(buffered, limit), limit);
    forall s | IsMerge(crystallized + buffered, limit, s) ensures Distances(r) == Distances(s) {
      CuttingLayersLosesNothing(crystallized, buffered, limit, r, s);
    }
  }
}
