/** The SQL transactions of the commit path, each as one atomic function. */
module Database {
  import opened Records

  // ---- file_versions ----

  ghost predicate IsLatest(db: Db, i: Uuid, v: Uuid) {
    v in db.versions && db.versions[v].inode == i &&
    forall u :: u in db.versions && db.versions[u].inode == i ==>
      db.versions[u].number <= db.versions[v].number
  }

  /** `ORDER BY version_number DESC LIMIT 1`. */
  ghost function Latest(db: Db, i: Uuid): (r: Option<Uuid>)
    ensures r.Some? ==> IsLatest(db, i, r.value)
  {
    if exists v :: IsLatest(db, i, v) then
      var v :| IsLatest(db, i, v); Some(v)
    else None
  }

  /** `COALESCE(MAX(version_number), 0)`. */
  ghost function MaxNumber(db: Db, i: Uuid): nat {
    match Latest(db, i)
    case None => 0
    case Some(v) => db.versions[v].number
  }

  ghost predicate IsTop(db: Db, i: Uuid, ids: set<Uuid>, v: Uuid)
    requires ids <= db.versions.Keys
  {
    v in ids && db.versions[v].inode == i &&
    forall u :: u in ids && db.versions[u].inode == i ==> db.versions[u].number <= db.versions[v].number
  }

  lemma {:induction false} TopExists(db: Db, i: Uuid, ids: set<Uuid>, v: Uuid) returns (top: Uuid)
    requires ids <= db.versions.Keys && v in ids && db.versions[v].inode == i
    ensures IsTop(db, i, ids, top)
  {
    if w :| w in ids - {v} && db.versions[w].inode == i {
      top := TopExists(db, i, ids - {v}, w);
      if db.versions[top].number < db.versions[v].number { top := v; }
    } else {
      top := v;
    }
  }

  /** MAX over an inode's rows exists as soon as the inode has a row. */
  lemma LatestExists(db: Db, i: Uuid, v: Uuid)
    requires v in db.versions && db.versions[v].inode == i
    ensures Latest(db, i).Some?
    ensures db.versions[v].number <= MaxNumber(db, i)
  {
    var top := TopExists(db, i, db.versions.Keys, v);
    assert IsLatest(db, i, top);
  }

  datatype CowOutcome = CowOutcome(number: nat, inserted: bool)

  /** `cow_commit_tx`: the row lock, MAX+1, the parent, ON CONFLICT DO NOTHING
      and the inode pointer. */
  ghost function CowCommit(db: Db, v: Uuid, i: Uuid, blob: Option<Uuid>, hash: Hash, size: nat): (Db, CowOutcome) {
    if i !in db.inodes then (db, CowOutcome(0, false))
    else
      var next := MaxNumber(db, i) + 1;
      if v in db.versions then (db, CowOutcome(next, false))
      else
        (db.(versions := db.versions[v := VersionRow(i, next, blob, hash, size, Latest(db, i))],
             inodes := db.inodes[i := InodeRow(blob, size)]),
         CowOutcome(next, true))
  }

  // ---- blobs ----

  predicate HasRow(db: Db, b: Uuid, h: Hash) {
    (h in db.dedup && db.dedup[h] == b) || (b in db.owned && db.owned[b] == h)
  }

  predicate RowExists(db: Db, b: Uuid) {
    b in db.owned || b in db.dedup.Values
  }

  datatype BlobInsert = BlobInsert(blob: Uuid, inserted: bool)

  /** `insert_blob_tx`. `None` is the primary-key violation: `blobs` is keyed by
      `blob_id`, and only the shared insert has a conflict clause, on the hash. */
  function InsertBlob(db: Db, h: Hash, b: Uuid, shared: bool): Option<(Db, BlobInsert)> {
    if shared && h in db.dedup then Some((db, BlobInsert(db.dedup[h], false)))
    else if RowExists(db, b) then None
    else if shared then Some((db.(dedup := db.dedup[h := b]), BlobInsert(b, true)))
    else Some((db.(owned := db.owned[b := h]), BlobInsert(b, true)))
  }

  /** What the drain's transaction leaves: the database, the blob the version
      points at, whether the dedup row was new, and whether the version was. */
  datatype TxResult = TxResult(db: Db, canonical: Option<Uuid>, rowInserted: bool, inserted: bool)

  /** The transaction of `commit_pending_marker`: dedup and version insert
      together, rolled back when the version was not new. `None`: SQL error. */
  ghost function CommitTx(db: Db, m: Marker): Option<TxResult> {
    match m.blob
    case None =>
      var (db', out) := CowCommit(db, m.version, m.inode, None, m.hash, m.size);
      Some(TxResult(db', None, false, out.inserted))
    case Some(p) =>
      match InsertBlob(db, m.hash, p, m.shared)
      case None => None
      case Some((db1, ins)) =>
        var (db2, out) := CowCommit(db1, m.version, m.inode, Some(ins.blob), m.hash, m.size);
        Some(TxResult(if out.inserted then db2 else db, Some(ins.blob), ins.inserted, out.inserted))
  }

  /** True exactly when the dedup result calls for reconciling a provisional blob. */
  predicate Redundant(m: Marker, r: TxResult) {
    m.blob.Some? && r.canonical.Some? && !r.rowInserted && m.blob != r.canonical
  }

  predicate RowFields(m: Marker, row: VersionRow, canonical: Option<Uuid>) {
    row.inode == m.inode && row.hash == m.hash && row.size == m.size && row.blob == canonical
  }

  /** Everything the transaction may change, in one place: a fresh version adds
      one version row and at most one blob row; otherwise nothing moves. */
  predicate Shape(db: Db, m: Marker, r: TxResult) {
    if !r.inserted then
      r.db == db && (m.version in db.versions || m.inode !in db.inodes) &&
      (r.canonical.Some? <==> m.blob.Some?) &&
      (Redundant(m, r) ==> m.shared && m.hash in db.dedup && r.canonical == Some(db.dedup[m.hash]))
    else
      && m.inode in db.inodes && m.version !in db.versions && r.db.inodes.Keys == db.inodes.Keys
      && m.version in r.db.versions && RowFields(m, r.db.versions[m.version], r.canonical)
      && r.db.versions == db.versions[m.version := r.db.versions[m.version]]
      && match m.blob
         case None => r.canonical == None && r.db.dedup == db.dedup && r.db.owned == db.owned
         case Some(p) =>
           if m.shared && m.hash in db.dedup then
             !r.rowInserted && r.canonical == Some(db.dedup[m.hash]) && r.db.dedup == db.dedup && r.db.owned == db.owned
           else
             r.rowInserted && r.canonical == Some(p) && !RowExists(db, p) &&
             r.db.dedup == (if m.shared then db.dedup[m.hash := p] else db.dedup) &&
             r.db.owned == (if m.shared then db.owned else db.owned[p := m.hash])
  }

  lemma TxShape(db: Db, m: Marker)
    requires CommitTx(db, m).Some?
    ensures Shape(db, m, CommitTx(db, m).value)
  { }

  /** Replaying a committed marker changes nothing, and it fails exactly for a
      private marker whose blob row exists: that insert has no conflict clause. */
  lemma ReplayIsNoOpUnlessPrivate(db: Db, m: Marker)
    requires m.version in db.versions
    requires m.shared && m.blob.Some? ==> m.hash in db.dedup
    requires !m.shared && m.blob.Some? ==> m.blob.value in db.owned
    ensures CommitTx(db, m).None? <==> m.blob.Some? && !m.shared
    ensures CommitTx(db, m).Some? ==> CommitTx(db, m).value.db == db && !CommitTx(db, m).value.inserted
  { }

  // ---- inode deletion and the cleaner ----

  /** `DELETE FROM inode_registry`; `file_versions` cascades, `blobs` does not. */
  function DeleteInode(db: Db, i: Uuid): Db {
    db.(inodes := db.inodes - {i},
        versions := map v | v in db.versions && db.versions[v].inode != i :: db.versions[v])
  }

  predicate Referenced(db: Db, h: Hash) {
    exists v :: v in db.versions && db.versions[v].hash == h
  }

  ghost predicate Unreferenced(db: Db, b: Uuid) {
    forall h :: HasRow(db, b, h) ==> !Referenced(db, h)
  }

  function RemoveBlobRow(db: Db, b: Uuid): Db {
    db.(dedup := map h | h in db.dedup && db.dedup[h] != b :: db.dedup[h], owned := db.owned - {b})
  }

  // ---- the version chain ----

  ghost predicate ParentIsPrevious(db: Db, v: Uuid)
    requires v in db.versions
  {
    var row := db.versions[v];
    if row.number == 1 then row.parent == None
    else row.parent.Some? && row.parent.value in db.versions &&
         db.versions[row.parent.value].inode == row.inode &&
         db.versions[row.parent.value].number == row.number - 1
  }

  /** The inode row carries the blob and size of the inode's last version. */
  ghost predicate ShowsLatest(db: Db, i: Uuid)
    requires i in db.inodes
  {
    match Latest(db, i)
    case None => db.inodes[i] == InodeRow(None, 0)
    case Some(v) => db.inodes[i] == InodeRow(db.versions[v].blob, db.versions[v].size)
  }

  ghost predicate SameSlot(db: Db, v: Uuid, u: Uuid)
    requires v in db.versions && u in db.versions
  {
    db.versions[v].inode == db.versions[u].inode && db.versions[v].number == db.versions[u].number
  }

  /** Every row belongs to a live inode and has its own number, at least 1; its
      parent is the row numbered one lower; the inode row shows the last one. */
  ghost predicate Chained(db: Db) {
    && (forall v :: v in db.versions ==> 1 <= db.versions[v].number && db.versions[v].inode in db.inodes)
    && (forall v, u :: v in db.versions && u in db.versions && SameSlot(db, v, u) ==> v == u)
    && (forall v {:trigger ParentIsPrevious(db, v)} :: v in db.versions ==> ParentIsPrevious(db, v))
    && (forall i :: i in db.inodes ==> ShowsLatest(db, i))
  }

  lemma LatestIs(db: Db, i: Uuid, v: Uuid)
    requires forall a, b :: a in db.versions && b in db.versions && SameSlot(db, a, b) ==> a == b
    requires IsLatest(db, i, v)
    ensures Latest(db, i) == Some(v)
  {
    LatestExists(db, i, v);
    assert SameSlot(db, v, Latest(db, i).value);
  }

  /** Latest reads only the rows of its inode. */
  lemma LatestFrame(db: Db, db': Db, i: Uuid)
    requires forall a, b :: a in db'.versions && b in db'.versions && SameSlot(db', a, b) ==> a == b
    requires forall v :: v in db.versions && db.versions[v].inode == i ==> v in db'.versions && db'.versions[v] == db.versions[v]
    requires forall v :: v in db'.versions && db'.versions[v].inode == i ==> v in db.versions && db'.versions[v] == db.versions[v]
    ensures Latest(db', i) == Latest(db, i)
  {
    match Latest(db, i)
    case Some(v) =>
      assert IsLatest(db', i, v);
      LatestIs(db', i, v);
    case None =>
      if Latest(db', i).Some? { LatestExists(db, i, Latest(db', i).value); }
  }

  lemma CowOnTop(db: Db, v: Uuid, i: Uuid, blob: Option<Uuid>, hash: Hash, size: nat)
    requires Chained(db) && i in db.inodes && v !in db.versions
    ensures var db' := CowCommit(db, v, i, blob, hash, size).0;
      (forall a, b :: a in db'.versions && b in db'.versions && SameSlot(db', a, b) ==> a == b) && Latest(db', i) == Some(v)
  {
    var db' := CowCommit(db, v, i, blob, hash, size).0;
    forall u | u in db.versions && db.versions[u].inode == i
      ensures db.versions[u].number <= MaxNumber(db, i)
    { LatestExists(db, i, u); }
    forall a, b | a in db'.versions && b in db'.versions && SameSlot(db', a, b) ensures a == b {
      assert a != v && b != v ==> SameSlot(db, a, b);
    }
    assert IsLatest(db', i, v);
    LatestIs(db', i, v);
  }

  /** The commit keeps the chain, whatever it is asked to insert. */
  lemma ChainedCow(db: Db, v: Uuid, i: Uuid, blob: Option<Uuid>, hash: Hash, size: nat)
    requires Chained(db)
    ensures Chained(CowCommit(db, v, i, blob, hash, size).0)
  {
    if i in db.inodes && v !in db.versions {
      var db' := CowCommit(db, v, i, blob, hash, size).0;
      CowOnTop(db, v, i, blob, hash, size);
      forall u | u in db'.versions ensures ParentIsPrevious(db', u) {
        if u != v { assert ParentIsPrevious(db, u); }
        else if Latest(db, i).Some? { assert 1 <= db.versions[Latest(db, i).value].number; }
      }
      forall j | j in db'.inodes ensures ShowsLatest(db', j) {
        if j != i { LatestFrame(db, db', j); assert ShowsLatest(db, j); }
      }
    }
  }

  /** Deleting an inode takes its whole chain and touches no other. */
  lemma ChainedDelete(db: Db, i: Uuid)
    requires Chained(db)
    ensures Chained(DeleteInode(db, i))
  {
    var db' := DeleteInode(db, i);
    forall a, b | a in db'.versions && b in db'.versions && SameSlot(db', a, b) ensures a == b {
      assert SameSlot(db, a, b);
    }
    forall j | j in db'.inodes ensures ShowsLatest(db', j) { LatestFrame(db, db', j); assert ShowsLatest(db, j); }
    forall u | u in db'.versions ensures ParentIsPrevious(db', u) { assert ParentIsPrevious(db, u); }
  }

  lemma ChainedTx(db: Db, m: Marker)
    requires Chained(db) && CommitTx(db, m).Some?
    ensures Chained(CommitTx(db, m).value.db)
  {
    match m.blob
    case None => ChainedCow(db, m.version, m.inode, None, m.hash, m.size);
    case Some(p) =>
      var (db1, ins) := InsertBlob(db, m.hash, p, m.shared).value;
      ChainedFrame(db, db1);
      ChainedCow(db1, m.version, m.inode, Some(ins.blob), m.hash, m.size);
  }

  lemma ChainedFrame(db: Db, db': Db)
    requires Chained(db) && db'.versions == db.versions && db'.inodes == db.inodes
    ensures Chained(db')
  {
    forall a, b | a in db'.versions && b in db'.versions && SameSlot(db', a, b) ensures a == b {
      assert SameSlot(db, a, b);
    }
    forall i | i in db'.inodes ensures ShowsLatest(db', i) { LatestFrame(db, db', i); assert ShowsLatest(db, i); }
    forall u | u in db'.versions ensures ParentIsPrevious(db', u) { assert ParentIsPrevious(db, u); }
  }

  // ---- what the chain means ----

  ghost predicate Numbered(db: Db, i: Uuid, k: nat, v: Uuid) {
    v in db.versions && db.versions[v].inode == i && db.versions[v].number == k
  }

  lemma {:induction false} Downward(db: Db, i: Uuid, k: nat, n: nat, v: Uuid) returns (u: Uuid)
    requires Chained(db) && 1 <= k <= n && Numbered(db, i, n, v)
    ensures Numbered(db, i, k, u)
    decreases n
  {
    if k == n { u := v; }
    else {
      assert ParentIsPrevious(db, v);
      u := Downward(db, i, k, n - 1, db.versions[v].parent.value);
    }
  }

  /** An inode's version numbers are exactly 1..n, one row each, where n is the
      number of the version its inode row shows. */
  lemma VersionNumbersAreOneToN(db: Db, i: Uuid, k: nat)
    requires Chained(db)
    ensures (exists v :: Numbered(db, i, k, v)) <==> 1 <= k <= MaxNumber(db, i)
    ensures forall v, u :: Numbered(db, i, k, v) && Numbered(db, i, k, u) ==> v == u
  {
    if 1 <= k <= MaxNumber(db, i) {
      var u := Downward(db, i, k, MaxNumber(db, i), Latest(db, i).value);
    }
    forall v | Numbered(db, i, k, v) ensures 1 <= k <= MaxNumber(db, i) { LatestExists(db, i, v); }
    forall v, u | Numbered(db, i, k, v) && Numbered(db, i, k, u) ensures v == u { assert SameSlot(db, v, u); }
  }
}
