/** The commit and recovery code in its own imperative form, over the queue
    directory, the blob store and the tables. */
module Replay {
  import opened Records
  import opened Database
  import opened CrashRefinement
  import P = Pipeline

  datatype Snapshot = Snapshot(queue: map<Name, Marker>, store: map<Uuid, Bytes>, db: Db)

  /** Which of one call's I/O operations fail. */
  datatype Faults = Faults(readFails: bool, txFails: bool, lookFails: bool, getFails: bool, putFails: bool,
                           deleteFails: bool, unlinkFails: bool)

  const NoFaults := Faults(false, false, false, false, false, false, false)

  /** `Result<Option<bool>>` of `commit_pending_marker`. */
  datatype Outcome = Failed | Gone | Checkpointed(inserted: bool)

  datatype Report = Report(found: nat, committed: nat, already: nat, failed: nat)

  // ---- what the calls are to do ----

  function Healed(store: map<Uuid, Bytes>, provisional: Uuid, canonical: Uuid, f: Faults): map<Uuid, Bytes> {
    if f.lookFails then store
    else if canonical in store then (if f.deleteFails then store else store - {provisional})
    else if f.getFails || provisional !in store || f.putFails then store
    else
      var healed := store[canonical := store[provisional]];
      if f.deleteFails then healed else healed - {provisional}
  }

  function Reconciled(store: map<Uuid, Bytes>, m: Marker, r: TxResult, f: Faults): map<Uuid, Bytes> {
    if Redundant(m, r) then Healed(store, m.blob.value, r.canonical.value, f) else store
  }

  ghost function Commit(d: Snapshot, n: Name, f: Faults): (Snapshot, Outcome) {
    if f.readFails then (d, Failed)
    else if n !in d.queue then (d, Gone)
    else if f.txFails || CommitTx(d.db, d.queue[n]).None? then (d, Failed)
    else
      var m := d.queue[n];
      var r := CommitTx(d.db, m).value;
      var d1 := d.(db := r.db, store := Reconciled(d.store, m, r, f));
      if f.unlinkFails then (d1, Failed) else (d1.(queue := d1.queue - {n}), Checkpointed(r.inserted))
  }

  function Counted(report: Report, o: Outcome): Report {
    match o
    case Checkpointed(true) => report.(committed := report.committed + 1)
    case Checkpointed(false) => report.(already := report.already + 1)
    case Gone => report
    case Failed => report.(failed := report.failed + 1)
  }

  ghost function ReplayAll(d: Snapshot, names: seq<Name>, faults: seq<Faults>): (Snapshot, Report)
    requires |faults| == |names|
    decreases |names|
  {
    if names == [] then (d, Report(0, 0, 0, 0))
    else
      var k := |names| - 1;
      var (d1, report) := ReplayAll(d, names[..k], faults[..k]);
      var (d2, o) := Commit(d1, names[k], faults[k]);
      (d2, Counted(report.(found := report.found + 1), o))
  }

  // ---- the code ----

  class Disk {
    var queue: map<Name, Marker>
    var store: map<Uuid, Bytes>
    var db: Db

    ghost function Snap(): Snapshot
      reads this
    {
      Snapshot(queue, store, db)
    }

    /** `SELECT id ... ORDER BY version_number DESC LIMIT 1`. */
    method SelectLatest(i: Uuid) returns (r: Option<Uuid>)
      requires Chained(db)
      ensures r == Latest(db, i)
    {
      r := None;
      var todo := db.versions.Keys;
      while todo != {}
        invariant todo <= db.versions.Keys
        invariant r.None? ==> forall u :: u in db.versions.Keys - todo ==> db.versions[u].inode != i
        invariant r.Some? ==> IsTop(db, i, db.versions.Keys - todo, r.value)
        decreases |todo|
      {
        var v :| v in todo;
        if db.versions[v].inode == i && (r.None? || db.versions[r.value].number < db.versions[v].number) { r := Some(v); }
        todo := todo - {v};
      }
      LatestFound(db, i, r);
    }

    /** `cow_commit_tx`, inside the caller's transaction. */
    method CowCommitTx(v: Uuid, i: Uuid, blob: Option<Uuid>, hash: Hash, size: nat) returns (outcome: CowOutcome)
      requires Chained(db)
      modifies `db
      ensures (db, outcome) == CowCommit(old(db), v, i, blob, hash, size)
    {
      if i !in db.inodes { return CowOutcome(0, false); }
      var parent := SelectLatest(i);
      var next := if parent.Some? then db.versions[parent.value].number + 1 else 1;
      if v in db.versions { return CowOutcome(next, false); }
      CowInserts(db, v, i, blob, hash, size);
      db := db.(versions := db.versions[v := VersionRow(i, next, blob, hash, size, parent)]);
      db := db.(inodes := db.inodes[i := InodeRow(blob, size)]);
      return CowOutcome(next, true);
    }

    /** `insert_blob_tx`: `None` is the statement's error. */
    method InsertBlobTx(h: Hash, b: Uuid, shared: bool) returns (r: Option<BlobInsert>)
      modifies `db
      ensures match InsertBlob(old(db), h, b, shared)
        case None => r == None && db == old(db)
        case Some((db', ins)) => r == Some(ins) && db == db'
    {
      if shared && h in db.dedup { return Some(BlobInsert(db.dedup[h], false)); }
      if b in db.owned || b in db.dedup.Values { return None; }
      if shared { db := db.(dedup := db.dedup[h := b]); } else { db := db.(owned := db.owned[b := h]); }
      return Some(BlobInsert(b, true));
    }

    /** `reconcile_provisional_blob`; every failure is swallowed. */
    method ReconcileProvisionalBlob(provisional: Uuid, canonical: Uuid, inserted: bool, f: Faults)
      modifies `store
      ensures store == if inserted || provisional == canonical then old(store) else Healed(old(store), provisional, canonical, f)
    {
      if inserted || provisional == canonical { return; }
      if f.lookFails { return; }
      if canonical in store {
        if !f.deleteFails { store := store - {provisional}; }
      } else if !f.getFails && provisional in store && !f.putFails {
        store := store[canonical := store[provisional]];
        if !f.deleteFails { store := store - {provisional}; }
      }
    }

    /** `commit_pending_marker`. An error drops the open transaction, which
        rolls it back. */
    method CommitPendingMarker(n: Name, f: Faults) returns (outcome: Outcome)
      requires Chained(db)
      modifies this
      ensures (Snap(), outcome) == Commit(old(Snap()), n, f) && Chained(db)
    {
      if f.readFails { return Failed; }
      if n !in queue { return Gone; }
      var m := queue[n];
      ghost var before := db;
      if CommitTx(db, m).Some? { ChainedTx(db, m); }
      if f.txFails { return Failed; }
      var inserted := false;
      if m.blob.Some? {
        var begin := db;
        var dedup := InsertBlobTx(m.hash, m.blob.value, m.shared);
        if dedup.None? { return Failed; }
        ChainedFrame(begin, db);
        var cow := CowCommitTx(m.version, m.inode, Some(dedup.value.blob), m.hash, m.size);
        inserted := cow.inserted;
        if !inserted { db := begin; }
        ReconcileProvisionalBlob(m.blob.value, dedup.value.blob, dedup.value.inserted, f);
      } else {
        var cow := CowCommitTx(m.version, m.inode, None, m.hash, m.size);
        inserted := cow.inserted;
      }
      assert CommitTx(before, m).Some? && db == CommitTx(before, m).value.db;
      if f.unlinkFails { return Failed; }
      queue := queue - {n};
      return Checkpointed(inserted);
    }

    /** The match on one marker's outcome. */
    static method Count(report: Report, outcome: Outcome) returns (r: Report)
      ensures r == Counted(report, outcome)
    {
      match outcome {
        case Checkpointed(inserted) =>
          if inserted { r := report.(committed := report.committed + 1); } else { r := report.(already := report.already + 1); }
        case Gone => r := report;
        case Failed => r := report.(failed := report.failed + 1);
      }
    }

    /** `replay_pending_queue` over the names the directory listing returned. */
    method ReplayPendingQueue(names: seq<Name>, faults: seq<Faults>) returns (report: Report)
      requires Chained(db) && |faults| == |names|
      modifies this
      ensures (Snap(), report) == ReplayAll(old(Snap()), names, faults) && Chained(db)
    {
      report := Report(|names|, 0, 0, 0);
      for k := 0 to |names|
        invariant Chained(db)
        invariant report.found == |names|
        invariant (Snap(), report.(found := k)) == ReplayAll(old(Snap()), names[..k], faults[..k])
      {
        var outcome := CommitPendingMarker(names[k], faults[k]);
        report := Count(report, outcome);
        ReplayOneMore(old(Snap()), names, faults, k);
      }
      assert names[..|names|] == names && faults[..|names|] == faults;
    }
  }

  lemma ReplayOneMore(d: Snapshot, names: seq<Name>, faults: seq<Faults>, k: nat)
    requires k < |names| == |faults|
    ensures var (d1, report) := ReplayAll(d, names[..k], faults[..k]);
      var (d2, o) := Commit(d1, names[k], faults[k]);
      ReplayAll(d, names[..k + 1], faults[..k + 1]) == (d2, Counted(report.(found := report.found + 1), o))
  {
    assert names[..k + 1][..k] == names[..k] && faults[..k + 1][..k] == faults[..k];
  }

  lemma CowInserts(db: Db, v: Uuid, i: Uuid, blob: Option<Uuid>, hash: Hash, size: nat)
    requires i in db.inodes && v !in db.versions
    ensures var parent := Latest(db, i);
      var next := if parent.Some? then db.versions[parent.value].number + 1 else 1;
      CowCommit(db, v, i, blob, hash, size) ==
        (Db(db.inodes[i := InodeRow(blob, size)], db.versions[v := VersionRow(i, next, blob, hash, size, parent)], db.dedup, db.owned),
         CowOutcome(next, true))
  { }

  lemma LatestFound(db: Db, i: Uuid, r: Option<Uuid>)
    requires Chained(db)
    requires r.None? ==> forall u :: u in db.versions ==> db.versions[u].inode != i
    requires r.Some? ==> IsTop(db, i, db.versions.Keys, r.value)
    ensures r == Latest(db, i)
  {
    if r.Some? {
      assert IsLatest(db, i, r.value);
      LatestIs(db, i, r.value);
    }
  }

  // ---- a recovery pass ----

  function MarkersOf(queue: map<Name, Marker>, names: seq<Name>): (ms: seq<Marker>)
    requires forall n :: n in names ==> n in queue
    ensures |ms| == |names| && forall k :: 0 <= k < |ms| ==> ms[k] == queue[names[k]]
  {
    seq(|names|, k requires 0 <= k < |names| => queue[names[k]])
  }

  predicate Faultless(faults: seq<Faults>) { forall k :: 0 <= k < |faults| ==> faults[k] == NoFaults }

  /** A pass over a listing in which no operation fails commits the markers in
      listing order, and takes out of the queue exactly those listed ones whose
      transaction could be made; every listed marker is counted once. */
  lemma {:induction false} RecoveryPassIsCommitAll(d: Snapshot, names: seq<Name>, faults: seq<Faults>)
    requires |faults| == |names| && Faultless(faults)
    requires forall n :: n in names ==> n in d.queue
    requires forall j, k :: 0 <= j < k < |names| ==> names[j] != names[k]
    ensures var (d', report) := ReplayAll(d, names, faults);
      && d'.db == CommitAll(d.db, MarkersOf(d.queue, names))
      && (forall n :: n in d'.queue ==> n in d.queue && d'.queue[n] == d.queue[n])
      && (forall n :: n in d.queue && n !in names ==> n in d'.queue)
      && |d'.queue| == |d.queue| - report.committed - report.already
      && report.found == |names| == report.committed + report.already + report.failed
    decreases |names|
  {
    if names != [] {
      var k := |names| - 1;
      RecoveryPassIsCommitAll(d, names[..k], faults[..k]);
      assert names[k] in names && names[k] !in names[..k];
      assert faults[k] == NoFaults;
      CommitOneOf(ReplayAll(d, names[..k], faults[..k]).0, names[k]);
      MarkersPush(d, names);
    } else {
      assert MarkersOf(d.queue, names) == [];
    }
  }

  lemma MarkersPush(d: Snapshot, names: seq<Name>)
    requires names != [] && forall n :: n in names ==> n in d.queue
    ensures var k := |names| - 1;
      CommitAll(d.db, MarkersOf(d.queue, names)) == CommitOne(CommitAll(d.db, MarkersOf(d.queue, names[..k])), d.queue[names[k]])
  {
    var k := |names| - 1;
    assert MarkersOf(d.queue, names)[..k] == MarkersOf(d.queue, names[..k]);
  }

  lemma CommitOneOf(d: Snapshot, n: Name)
    requires n in d.queue
    ensures var (d', o) := Commit(d, n, NoFaults);
      d'.db == CommitOne(d.db, d.queue[n]) && !o.Gone? && (o.Failed? <==> CommitTx(d.db, d.queue[n]).None?) &&
      d'.queue == (if o.Failed? then d.queue else d.queue - {n}) && |d'.queue| == |d.queue| - (if o.Failed? then 0 else 1)
  {
    assert (d.queue - {n})[n := d.queue[n]] == d.queue;
  }

  /** Recovery on a crash image: when every queued marker can be committed in
      its turn, nothing fails and the queue ends empty. */
  lemma RecoveryEmptiesTheQueue(d: Snapshot, names: seq<Name>, faults: seq<Faults>)
    requires |faults| == |names| && Faultless(faults) && P.Listed(d.queue, names)
    requires forall t :: 0 <= t < |names| ==> CommitTx(CommitAll(d.db, MarkersOf(d.queue, names)[..t]), d.queue[names[t]]).Some?
    ensures ReplayAll(d, names, faults).0.queue == map[] && ReplayAll(d, names, faults).1.failed == 0
  {
    RecoveryPassIsCommitAll(d, names, faults);
    NothingFails(d, names, faults);
    P.ListedAll(d.queue, names);
    var d' := ReplayAll(d, names, faults).0;
    assert |d'.queue| == 0;
  }

  lemma {:induction false} NothingFails(d: Snapshot, names: seq<Name>, faults: seq<Faults>)
    requires |faults| == |names| && Faultless(faults)
    requires forall n :: n in names ==> n in d.queue
    requires forall j, k :: 0 <= j < k < |names| ==> names[j] != names[k]
    requires forall t :: 0 <= t < |names| ==> CommitTx(CommitAll(d.db, MarkersOf(d.queue, names)[..t]), d.queue[names[t]]).Some?
    ensures ReplayAll(d, names, faults).1.failed == 0
    decreases |names|
  {
    if names != [] {
      var k := |names| - 1;
      FrontCommits(d, names);
      NothingFails(d, names[..k], faults[..k]);
      LastOneCommits(d, names, faults);
    }
  }

  lemma FrontCommits(d: Snapshot, names: seq<Name>)
    requires names != [] && forall n :: n in names ==> n in d.queue
    requires forall t :: 0 <= t < |names| ==> CommitTx(CommitAll(d.db, MarkersOf(d.queue, names)[..t]), d.queue[names[t]]).Some?
    ensures var front := names[..|names| - 1];
      forall t :: 0 <= t < |front| ==> CommitTx(CommitAll(d.db, MarkersOf(d.queue, front)[..t]), d.queue[front[t]]).Some?
  {
    var front := names[..|names| - 1];
    forall t | 0 <= t < |front| ensures CommitTx(CommitAll(d.db, MarkersOf(d.queue, front)[..t]), d.queue[front[t]]).Some? {
      assert MarkersOf(d.queue, front)[..t] == MarkersOf(d.queue, names)[..t];
    }
  }

  lemma LastOneCommits(d: Snapshot, names: seq<Name>, faults: seq<Faults>)
    requires names != [] && |faults| == |names| && Faultless(faults)
    requires forall n :: n in names ==> n in d.queue
    requires forall j, k :: 0 <= j < k < |names| ==> names[j] != names[k]
    requires var k := |names| - 1; CommitTx(CommitAll(d.db, MarkersOf(d.queue, names)[..k]), d.queue[names[k]]).Some?
    ensures var k := |names| - 1; ReplayAll(d, names, faults).1.failed == ReplayAll(d, names[..k], faults[..k]).1.failed
  {
    var k := |names| - 1;
    BeforeLast(d, names, faults);
    assert faults[k] == NoFaults;
    CommitOneOf(ReplayAll(d, names[..k], faults[..k]).0, names[k]);
  }

  lemma BeforeLast(d: Snapshot, names: seq<Name>, faults: seq<Faults>)
    requires names != [] && |faults| == |names| && Faultless(faults)
    requires forall n :: n in names ==> n in d.queue
    requires forall j, k :: 0 <= j < k < |names| ==> names[j] != names[k]
    ensures var k := |names| - 1; var d1 := ReplayAll(d, names[..k], faults[..k]).0;
      names[k] in d1.queue && d1.queue[names[k]] == d.queue[names[k]] && d1.db == CommitAll(d.db, MarkersOf(d.queue, names)[..k])
  {
    var k := |names| - 1;
    RecoveryPassIsCommitAll(d, names[..k], faults[..k]);
    assert MarkersOf(d.queue, names)[..k] == MarkersOf(d.queue, names[..k]);
    assert names[k] in names && names[k] !in names[..k];
  }
}
