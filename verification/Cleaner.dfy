/** One pass of the blob garbage collector. */
module Cleaner {
  import opened Records
  import opened Database
  import opened Replay

  datatype CleanReport = CleanReport(candidates: nat, reclaimed: nat, skippedPending: nat, skippedRaced: nat, fileDeleteFailed: nat)

  type Candidate = (Uuid, Hash)

  ghost predicate Removable(db: Db, b: Uuid) { RowExists(db, b) && Unreferenced(db, b) }

  /** What the pass is to leave after its first candidates. */
  ghost function Cleaned(d: Snapshot, protected: set<Hash>, todo: seq<Candidate>, fails: seq<bool>): (Snapshot, CleanReport)
    requires |fails| == |todo|
    decreases |todo|
  {
    if todo == [] then (d, CleanReport(0, 0, 0, 0, 0))
    else
      var k := |todo| - 1;
      var (d1, r0) := Cleaned(d, protected, todo[..k], fails[..k]);
      var r := r0.(candidates := r0.candidates + 1);
      var b := todo[k].0;
      if todo[k].1 in protected then (d1, r.(skippedPending := r.skippedPending + 1))
      else if !Removable(d1.db, b) then (d1, r.(skippedRaced := r.skippedRaced + 1))
      else
        var d2 := d1.(db := RemoveBlobRow(d1.db, b));
        if fails[k] then (d2, r.(fileDeleteFailed := r.fileDeleteFailed + 1))
        else (d2.(store := d2.store - {b}), r.(reclaimed := r.reclaimed + 1))
  }

  /** `delete_blob_if_unreferenced`. */
  method DeleteBlobIfUnreferenced(disk: Disk, b: Uuid) returns (removed: bool)
    modifies disk`db
    ensures removed == Removable(old(disk.db), b)
    ensures disk.db == if removed then RemoveBlobRow(old(disk.db), b) else old(disk.db)
  {
    var db := disk.db;
    var found := b in db.owned || b in db.dedup.Values;
    var used := (b in db.owned && Referenced(db, db.owned[b])) || (exists h :: h in db.dedup && db.dedup[h] == b && Referenced(db, h));
    assert used <==> exists h :: HasRow(db, b, h) && Referenced(db, h) by {
      if h :| HasRow(db, b, h) && Referenced(db, h) { }
      if b in db.owned && Referenced(db, db.owned[b]) { assert HasRow(db, b, db.owned[b]); }
      if h :| h in db.dedup && db.dedup[h] == b && Referenced(db, h) { assert HasRow(db, b, h); }
    }
    removed := found && !used;
    if removed { disk.db := RemoveBlobRow(db, b); }
  }

  /** `clean_once`: the queue is listed first, then each candidate the scan
      proposed loses its row and then its bytes. */
  method CleanOnce(disk: Disk, candidates: seq<Candidate>, fails: seq<bool>) returns (report: CleanReport)
    requires |fails| == |candidates|
    modifies disk`db, disk`store
    ensures (disk.Snap(), report) == Cleaned(old(disk.Snap()), set n | n in old(disk.queue) :: n.hash, candidates, fails)
  {
    var protected := set n | n in disk.queue :: n.hash;
    report := CleanReport(|candidates|, 0, 0, 0, 0);
    for k := 0 to |candidates|
      invariant report.candidates == |candidates| && disk.queue == old(disk.queue)
      invariant (disk.Snap(), report.(candidates := k)) == Cleaned(old(disk.Snap()), protected, candidates[..k], fails[..k])
    {
      assert candidates[..k + 1][..k] == candidates[..k] && fails[..k + 1][..k] == fails[..k];
      var (b, h) := candidates[k];
      if h in protected {
        report := report.(skippedPending := report.skippedPending + 1);
      } else {
        var removed := DeleteBlobIfUnreferenced(disk, b);
        if !removed {
          report := report.(skippedRaced := report.skippedRaced + 1);
        } else if !fails[k] {
          disk.store := disk.store - {b};
          report := report.(reclaimed := report.reclaimed + 1);
        } else {
          report := report.(fileDeleteFailed := report.fileDeleteFailed + 1);
        }
      }
    }
    assert candidates[..|candidates|] == candidates && fails[..|fails|] == fails;
  }

  predicate Proposed(todo: seq<Candidate>, b: Uuid) { exists k :: 0 <= k < |todo| && todo[k].0 == b }

  /** A pass touches garbage only: the queue, the inodes and the versions stay,
      rows of referenced content stay and keep their bytes, and whatever lost its
      row or its bytes was proposed and unreferenced. Every candidate is counted
      in exactly one outcome. */
  lemma {:induction false} CleaningTouchesOnlyGarbage(d: Snapshot, protected: set<Hash>, todo: seq<Candidate>, fails: seq<bool>)
    requires |fails| == |todo|
    ensures var (d', r) := Cleaned(d, protected, todo, fails);
      && d'.queue == d.queue && d'.db.inodes == d.db.inodes && d'.db.versions == d.db.versions
      && (forall b, h :: HasRow(d'.db, b, h) ==> HasRow(d.db, b, h))
      && (forall b, h :: HasRow(d.db, b, h) && !HasRow(d'.db, b, h) ==> Proposed(todo, b) && !Referenced(d.db, h))
      && (forall b :: b in d'.store ==> b in d.store && d'.store[b] == d.store[b])
      && (forall b :: b in d.store && b !in d'.store ==> Removable(d.db, b) && Proposed(todo, b))
      && r.candidates == |todo| == r.reclaimed + r.skippedPending + r.skippedRaced + r.fileDeleteFailed
    decreases |todo|
  {
    if todo != [] {
      var k := |todo| - 1;
      CleaningTouchesOnlyGarbage(d, protected, todo[..k], fails[..k]);
      var d1 := Cleaned(d, protected, todo[..k], fails[..k]).0;
      var d' := Cleaned(d, protected, todo, fails).0;
      forall b | Proposed(todo[..k], b) ensures Proposed(todo, b) {
        var j :| 0 <= j < k && todo[..k][j].0 == b;
        assert todo[j].0 == b;
      }
      assert Proposed(todo, todo[k].0);
      if d' != d1 { OneRowGone(d, d1, d', todo[k].0); }
    }
  }

  lemma OneRowGone(d: Snapshot, d1: Snapshot, d': Snapshot, b0: Uuid)
    requires Removable(d1.db, b0) && d1.db.versions == d.db.versions
    requires d'.db == RemoveBlobRow(d1.db, b0) && (d'.store == d1.store || d'.store == d1.store - {b0})
    requires forall b, h :: HasRow(d1.db, b, h) ==> HasRow(d.db, b, h)
    requires forall b, h :: HasRow(d.db, b, h) && !HasRow(d1.db, b, h) ==> !Referenced(d.db, h)
    ensures Removable(d.db, b0)
    ensures forall b, h :: HasRow(d'.db, b, h) ==> HasRow(d1.db, b, h)
    ensures forall b, h :: HasRow(d1.db, b, h) && !HasRow(d'.db, b, h) ==> b == b0 && !Referenced(d.db, h)
  {
    forall h | HasRow(d.db, b0, h) ensures !Referenced(d.db, h) {
      if HasRow(d1.db, b0, h) { assert Referenced(d.db, h) ==> Referenced(d1.db, h); }
    }
    if b0 in d1.db.owned { assert HasRow(d1.db, b0, d1.db.owned[b0]); }
    else { var h :| h in d1.db.dedup && d1.db.dedup[h] == b0; assert HasRow(d1.db, b0, h); }
  }

  /** And it gets all of it: a proposed blob whose row is unreferenced and whose
      content no queued marker names is gone, row and bytes, if nothing fails. */
  lemma {:induction false} CleaningReclaims(d: Snapshot, protected: set<Hash>, todo: seq<Candidate>, fails: seq<bool>, j: nat)
    requires |fails| == |todo| && j < |todo| && !fails[j]
    requires todo[j].1 !in protected && Removable(d.db, todo[j].0)
    requires forall i :: 0 <= i < |todo| && todo[i].0 == todo[j].0 ==> i == j
    ensures !RowExists(Cleaned(d, protected, todo, fails).0.db, todo[j].0)
    ensures todo[j].0 !in Cleaned(d, protected, todo, fails).0.store
    decreases |todo|
  {
    var k := |todo| - 1;
    var b := todo[j].0;
    var d1 := Cleaned(d, protected, todo[..k], fails[..k]).0;
    if j < k {
      CleaningReclaims(d, protected, todo[..k], fails[..k], j);
      StaysGone(d1, b, todo[k].0);
    } else {
      CleaningTouchesOnlyGarbage(d, protected, todo[..k], fails[..k]);
      StillRemovable(d.db, d1.db, todo[..k], b);
    }
  }

  lemma StaysGone(d: Snapshot, b: Uuid, c: Uuid)
    requires !RowExists(d.db, b)
    ensures !RowExists(RemoveBlobRow(d.db, c), b)
  { }

  lemma StillRemovable(db: Db, db1: Db, todo: seq<Candidate>, b: Uuid)
    requires Removable(db, b) && db1.versions == db.versions && !Proposed(todo, b)
    requires forall b, h :: HasRow(db1, b, h) ==> HasRow(db, b, h)
    requires forall b, h :: HasRow(db, b, h) && !HasRow(db1, b, h) ==> Proposed(todo, b)
    ensures Removable(db1, b)
  {
    if b in db.owned { assert HasRow(db, b, db.owned[b]); }
    else { var h :| h in db.dedup && db.dedup[h] == b; assert HasRow(db, b, h); }
    forall h | HasRow(db1, b, h) ensures !Referenced(db1, h) { assert Referenced(db1, h) ==> Referenced(db, h); }
  }
}
