/** Disk and database under every interleaving: any number of writers, of marker
    consumers (the daemon's drain, the CLI's recovery), of cleaner passes and of
    unlinks, each cut into its atomic steps, and crashes between any two steps. */
module Interleaving {
  import opened Records
  import opened Database

  /** Where one consumer is inside `commit_pending_marker`. */
  datatype Consumer =
    | Loaded(m: Marker)                                    // marker read
    | Settled(m: Marker, canonical: Uuid, redundant: bool) // transaction over
    | Confirmed(m: Marker)                                 // canonical bytes seen
    | Missing(m: Marker, canonical: Uuid)                  // canonical bytes not seen
    | Holding(m: Marker, canonical: Uuid, bytes: Bytes)    // provisional bytes read
    | Reconciled(m: Marker)                                // about to unlink

  /** Where one pass of `clean_once` is. */
  datatype Cleaner =
    | Protecting(protected: set<Hash>)
    | Sweeping(protected: set<Hash>, todo: seq<(Uuid, Hash)>)
    | RowGone(protected: set<Hash>, todo: seq<(Uuid, Hash)>, blob: Uuid)

  /** Where one `unlink` is: private blob looked up, then inode deleted. */
  datatype Unlinker = Looked(inode: Uuid, blob: Option<Uuid>) | InodeGone(doomed: Uuid)

  /** What every participant shares. The last five fields are history: they
      record what happened and no step reads them except to keep ids fresh. */
  datatype World = World(
    queue: map<Name, Marker>, store: map<Uuid, Bytes>, db: Db,
    staged: set<Marker>,            // bytes stored, marker not yet renamed into the queue
    nextSeq: nat,
    known: set<Uuid>,               // inode ids ever created
    made: map<Uuid, Marker>,        // markers ever built, by version id
    madeFor: map<Uuid, Marker>,     // the same, by provisional blob id
    acked: set<Marker>,             // markers ever made durable
    newly: seq<Uuid>)               // version ids reported as newly inserted

  datatype State = State(w: World, consumers: map<nat, Consumer>, cleaners: map<nat, Cleaner>, unlinkers: map<nat, Unlinker>)

  datatype Step =
    | CreateInode(i: Uuid) | DropInode(i: Uuid)
    | Stage(m: Marker, data: Bytes) | Refuse(m: Marker) | Enqueue(m: Marker)
    | Load(c: nat, n: Name) | Transact(c: nat) | CheckCanonical(c: nat)
    | ReadProvisional(c: nat) | PutCanonical(c: nat) | DeleteProvisional(c: nat)
    | GiveUpReconcile(c: nat) | Checkpoint(c: nat) | Abort(c: nat)
    | CleanList(k: nat) | CleanScan(k: nat, todo: seq<(Uuid, Hash)>) | CleanRow(k: nat)
    | CleanBytes(k: nat) | CleanSkip(k: nat) | CleanEnd(k: nat)
    | UnlinkLook(u: nat, i: Uuid) | UnlinkRow(u: nat) | UnlinkBytes(u: nat) | UnlinkEnd(u: nat)
    | Crash(seed: nat) | Restart(seed: nat)

  ghost predicate Settles(s: State, m: Marker) { CommitTx(s.w.db, m).Some? }

  /** `private_blob_of_inode`. */
  function PrivateBlob(db: Db, i: Uuid): Option<Uuid> {
    if i in db.inodes && db.inodes[i].blob.Some? && db.inodes[i].blob.value in db.owned
    then db.inodes[i].blob else None
  }

  /** The sequence counter after a restart: one above everything still queued. */
  ghost predicate Seeds(queue: map<Name, Marker>, seed: nat) {
    (forall n :: n in queue ==> n.seqno < seed) &&
    (seed == 1 || exists n :: n in queue && n.seqno + 1 == seed)
  }

  /** No consumer that outlives the daemon still holds a name the new counter
      could hand out again. */
  ghost predicate HeldBelow(s: State, seed: nat) {
    forall c :: c in s.consumers ==> s.consumers[c].m.seqno < seed
  }

  /** What a restart leaves: recoveries run on beside the new daemon; writers,
      cleaner passes and unlinks were the old one's own. */
  function Restarted(s: State, seed: nat): State {
    State(s.w.(staged := {}, nextSeq := seed), s.consumers, map[], map[])
  }

  /** A writer may store these bytes and build this marker: its ids are fresh. */
  predicate Stageable(w: World, m: Marker, data: Bytes) {
    && m.inode in w.db.inodes && m.seqno == w.nextSeq
    && (m.blob.Some? ==> m.size == |data| && m.blob.value !in w.store)
    && m.version !in w.made && (m.blob.Some? ==> m.blob.value !in w.madeFor)
  }

  function Staged(w: World, m: Marker, data: Bytes): World {
    w.(store := if m.blob.Some? then w.store[m.blob.value := data] else w.store,
       staged := w.staged + {m}, made := w.made[m.version := m],
       madeFor := if m.blob.Some? then w.madeFor[m.blob.value := m] else w.madeFor, nextSeq := w.nextSeq + 1)
  }

  function Enqueued(w: World, m: Marker): World {
    w.(staged := w.staged - {m}, queue := w.queue[NameOf(m) := m], acked := w.acked + {m})
  }

  function Transacted(w: World, m: Marker, r: TxResult): World {
    w.(db := r.db, newly := if r.inserted then w.newly + [m.version] else w.newly)
  }

  /** An external-path marker has no blob of ours to reconcile. */
  function AfterTx(m: Marker, r: TxResult): Consumer {
    if r.canonical.Some? then Settled(m, r.canonical.value, Redundant(m, r)) else Reconciled(m)
  }

  /** What a step leaves, or `None` where it cannot happen. */
  ghost function Next(s: State, step: Step): Option<State> {
    match step
    case CreateInode(i) =>
      if i !in s.w.known
      then Moved(s, s.w.(db := s.w.db.(inodes := s.w.db.inodes[i := InodeRow(None, 0)]), known := s.w.known + {i})) else None
    case DropInode(i) => if i in s.w.db.inodes then Moved(s, s.w.(db := DeleteInode(s.w.db, i))) else None
    case Stage(m, data) => if Stageable(s.w, m, data) then Moved(s, Staged(s.w, m, data)) else None
    case Refuse(m) => if m in s.w.staged then Moved(s, s.w.(staged := s.w.staged - {m})) else None
    case Enqueue(m) => if m in s.w.staged then Moved(s, Enqueued(s.w, m)) else None
    case Load(c, n) => if c !in s.consumers && n in s.w.queue then Holds(s, s.w, c, Loaded(s.w.queue[n])) else None
    case Transact(c) => if c in s.consumers then NextTransact(s, c, s.consumers[c]) else None
    case CheckCanonical(c) => if c in s.consumers then NextCheck(s, c, s.consumers[c]) else None
    case ReadProvisional(c) => if c in s.consumers then NextRead(s, c, s.consumers[c]) else None
    case PutCanonical(c) => if c in s.consumers then NextPut(s, c, s.consumers[c]) else None
    case DeleteProvisional(c) => if c in s.consumers then NextDelete(s, c, s.consumers[c]) else None
    case GiveUpReconcile(c) =>
      if c in s.consumers && !s.consumers[c].Loaded? && !s.consumers[c].Reconciled?
      then Holds(s, s.w, c, Reconciled(s.consumers[c].m)) else None
    case Checkpoint(c) =>
      if c in s.consumers && s.consumers[c].Reconciled?
      then Some(s.(w := s.w.(queue := s.w.queue - {NameOf(s.consumers[c].m)}), consumers := s.consumers - {c})) else None
    case Abort(c) => if c in s.consumers then Some(s.(consumers := s.consumers - {c})) else None
    case CleanList(k) => if k !in s.cleaners then Cleans(s, s.w, k, Protecting(set n | n in s.w.queue :: n.hash)) else None
    case CleanScan(k, todo) => if k in s.cleaners then NextScan(s, k, s.cleaners[k], todo) else None
    case CleanRow(k) => if k in s.cleaners then NextRow(s, k, s.cleaners[k]) else None
    case CleanBytes(k) => if k in s.cleaners then NextBytes(s, k, s.cleaners[k]) else None
    case CleanSkip(k) => if k in s.cleaners then NextSkip(s, k, s.cleaners[k]) else None
    case CleanEnd(k) => if k in s.cleaners then Some(s.(cleaners := s.cleaners - {k})) else None
    case UnlinkLook(u, i) =>
      if u !in s.unlinkers && i in s.w.db.inodes then Some(s.(unlinkers := s.unlinkers[u := Looked(i, PrivateBlob(s.w.db, i))])) else None
    case UnlinkRow(u) => if u in s.unlinkers then NextUnlinkRow(s, u, s.unlinkers[u]) else None
    case UnlinkBytes(u) =>
      if u in s.unlinkers && s.unlinkers[u].InodeGone?
      then Some(s.(w := s.w.(store := s.w.store - {s.unlinkers[u].doomed}), unlinkers := s.unlinkers - {u})) else None
    case UnlinkEnd(u) => if u in s.unlinkers then Some(s.(unlinkers := s.unlinkers - {u})) else None
    case Crash(seed) => if Seeds(s.w.queue, seed) then Some(State(s.w.(staged := {}, nextSeq := seed), map[], map[], map[])) else None
    case Restart(seed) =>
      if Seeds(s.w.queue, seed) && HeldBelow(s, seed) then Some(Restarted(s, seed)) else None
  }

  function Moved(s: State, w: World): Option<State> { Some(s.(w := w)) }

  function Holds(s: State, w: World, c: nat, p: Consumer): Option<State> { Some(s.(w := w, consumers := s.consumers[c := p])) }

  function Cleans(s: State, w: World, k: nat, p: Cleaner): Option<State> { Some(s.(w := w, cleaners := s.cleaners[k := p])) }

  ghost function NextTransact(s: State, c: nat, p: Consumer): Option<State> {
    if p.Loaded? && Settles(s, p.m) then
      var r := CommitTx(s.w.db, p.m).value;
      Holds(s, Transacted(s.w, p.m, r), c, AfterTx(p.m, r))
    else None
  }

  function NextCheck(s: State, c: nat, p: Consumer): Option<State> {
    if !p.Settled? then None
    else
      Holds(s, s.w, c, if !p.redundant then Reconciled(p.m)
                       else if p.canonical in s.w.store then Confirmed(p.m) else Missing(p.m, p.canonical))
  }

  function NextRead(s: State, c: nat, p: Consumer): Option<State> {
    if p.Missing? && p.m.blob.Some? && p.m.blob.value in s.w.store
    then Holds(s, s.w, c, Holding(p.m, p.canonical, s.w.store[p.m.blob.value])) else None
  }

  function NextPut(s: State, c: nat, p: Consumer): Option<State> {
    if p.Holding? then Holds(s, s.w.(store := s.w.store[p.canonical := p.bytes]), c, Confirmed(p.m)) else None
  }

  function NextDelete(s: State, c: nat, p: Consumer): Option<State> {
    if p.Confirmed? && p.m.blob.Some? then Holds(s, s.w.(store := s.w.store - {p.m.blob.value}), c, Reconciled(p.m)) else None
  }

  /** The scan proposes rows whose content no version references. */
  ghost function NextScan(s: State, k: nat, p: Cleaner, todo: seq<(Uuid, Hash)>): Option<State> {
    if p.Protecting? && forall j :: 0 <= j < |todo| ==> HasRow(s.w.db, todo[j].0, todo[j].1) && !Referenced(s.w.db, todo[j].1)
    then Cleans(s, s.w, k, Sweeping(p.protected, todo)) else None
  }

  ghost function NextRow(s: State, k: nat, p: Cleaner): Option<State> {
    if p.Sweeping? && p.todo != [] && p.todo[0].1 !in p.protected && RowExists(s.w.db, p.todo[0].0) && Unreferenced(s.w.db, p.todo[0].0)
    then Cleans(s, s.w.(db := RemoveBlobRow(s.w.db, p.todo[0].0)), k, RowGone(p.protected, p.todo[1..], p.todo[0].0)) else None
  }

  function NextBytes(s: State, k: nat, p: Cleaner): Option<State> {
    if p.RowGone? then Cleans(s, s.w.(store := s.w.store - {p.blob}), k, Sweeping(p.protected, p.todo)) else None
  }

  function NextSkip(s: State, k: nat, p: Cleaner): Option<State> {
    if p.RowGone? then Cleans(s, s.w, k, Sweeping(p.protected, p.todo))
    else if p.Sweeping? && p.todo != [] then Cleans(s, s.w, k, Sweeping(p.protected, p.todo[1..]))
    else None
  }

  function NextUnlinkRow(s: State, u: nat, p: Unlinker): Option<State> {
    if !p.Looked? then None
    else Some(s.(w := s.w.(db := DeleteInode(s.w.db, p.inode)),
                 unlinkers := if p.blob.Some? then s.unlinkers[u := InodeGone(p.blob.value)] else s.unlinkers - {u}))
  }

  /** The marker names the bytes stored for it by their digest. */
  ghost predicate Hashed(digest: Bytes -> Hash, step: Step) { step.Stage? ==> step.m.hash == digest(step.data) }

  ghost predicate Enabled(digest: Bytes -> Hash, s: State, step: Step) { Hashed(digest, step) && Next(s, step).Some? }

  ghost function Apply(s: State, step: Step, digest: Bytes -> Hash): State
    requires Enabled(digest, s, step)
  {
    Next(s, step).value
  }

  const Initial := State(World(map[], map[], Db(map[], map[], map[], map[]), {}, 1, {}, map[], map[], {}, []),
                         map[], map[], map[])

  /** A run applies enabled steps one after the other. */
  ghost predicate Run(digest: Bytes -> Hash, s: State, steps: seq<Step>, t: State)
    decreases |steps|
  {
    if steps == [] then s == t
    else Enabled(digest, s, steps[0]) && Run(digest, Apply(s, steps[0], digest), steps[1..], t)
  }

  lemma Prepend(digest: Bytes -> Hash, s: State, step: Step, rest: seq<Step>, t: State)
    requires Enabled(digest, s, step) && Run(digest, Apply(s, step, digest), rest, t)
    ensures Run(digest, s, [step] + rest, t)
  {
    assert ([step] + rest)[1..] == rest;
  }

  lemma {:induction false} RunAppend(digest: Bytes -> Hash, s: State, a: seq<Step>, t: State, b: seq<Step>, u: State)
    requires Run(digest, s, a, t) && Run(digest, t, b, u)
    ensures Run(digest, s, a + b, u)
    decreases |a|
  {
    if a == [] {
      assert a + b == b;
    } else {
      var s1 := Apply(s, a[0], digest);
      RunAppend(digest, s1, a[1..], t, b, u);
      Prepend(digest, s, a[0], a[1..] + b, u);
      assert a == [a[0]] + a[1..];
      assert a + b == [a[0]] + (a[1..] + b);
    }
  }

  lemma OneStep(digest: Bytes -> Hash, s: State, step: Step) returns (steps: seq<Step>, t: State)
    requires Enabled(digest, s, step)
    ensures Run(digest, s, steps, t) && t == Apply(s, step, digest) && steps == [step]
  {
    t := Apply(s, step, digest);
    assert Run(digest, t, [], t);
    Prepend(digest, s, step, [], t);
    steps := [step] + [];
  }

  lemma AddAndRemove<K, V>(m: map<K, V>, k: K, v: V)
    requires k !in m
    ensures m[k := v] - {k} == m
  { }

  // ---- the invariant ----

  /** The marker's fate is sealed: its version is in the table, or never will be. */
  predicate Decided(s: World, m: Marker) {
    m.version in s.db.versions || m.inode !in s.db.inodes
  }

  predicate Made(s: World, m: Marker) {
    m.version in s.made && s.made[m.version] == m &&
    (m.blob.Some? ==> m.blob.value in s.madeFor && s.madeFor[m.blob.value] == m)
  }

  /** Version and blob ids are fresh: each belongs to one marker. */
  predicate FreshIds(s: World) {
    && s.db.inodes.Keys <= s.known
    && (forall v :: v in s.made ==> s.made[v].version == v && Made(s, s.made[v]) && s.made[v].inode in s.known)
    && (forall b :: b in s.madeFor ==> s.madeFor[b].blob == Some(b) && Made(s, s.madeFor[b]))
    && (forall m :: m in s.staged ==> Made(s, m) && m.inode in s.known)
    && (forall m :: m in s.acked ==> Made(s, m) && m.inode in s.known && m !in s.staged)
  }

  /** Queue file names are the markers' own, below the counter, and no staged
      writer can collide with one. */
  predicate Names(s: World) {
    && (forall n :: n in s.queue ==> n == NameOf(s.queue[n]) && n.seqno < s.nextSeq && s.queue[n] in s.acked)
    && (forall x :: x in s.staged ==> x.seqno < s.nextSeq)
    && (forall x, y :: x in s.staged && y in s.staged && x.seqno == y.seqno ==> x == y)
    && (forall x, n :: x in s.staged && n in s.queue ==> x.seqno != n.seqno)
  }

  /** A version row carries its marker's fields, and its blob is the one the
      `blobs` table keeps for that content. */
  predicate RowOf(s: World, m: Marker, row: VersionRow) {
    row.inode == m.inode && row.hash == m.hash && row.size == m.size &&
    match m.blob
    case None => row.blob == None
    case Some(p) =>
      row.blob.Some? &&
      if m.shared then m.hash in s.db.dedup && s.db.dedup[m.hash] == row.blob.value
      else row.blob.value == p && p in s.db.owned && s.db.owned[p] == m.hash
  }

  predicate VersionRows(s: World) {
    forall v :: v in s.db.versions ==> v in s.made && s.made[v] in s.acked && RowOf(s, s.made[v], s.db.versions[v])
  }

  /** Blob row `b` for content `h` stands for an acknowledged, decided marker. */
  predicate Backed(s: World, b: Uuid, h: Hash, shared: bool) {
    b in s.madeFor && s.madeFor[b] in s.acked && s.madeFor[b].hash == h && s.madeFor[b].shared == shared &&
    Decided(s, s.madeFor[b])
  }

  predicate BlobRows(s: World) {
    && (forall h :: h in s.db.dedup ==> s.db.dedup[h] in s.store && Backed(s, s.db.dedup[h], h, true))
    && (forall b :: b in s.db.owned ==> Backed(s, b, s.db.owned[b], false))
  }

  /** Bytes under a marker's blob id are that marker's content. */
  predicate Intact(digest: Bytes -> Hash, s: World) {
    forall b :: b in s.madeFor && b in s.store ==> digest(s.store[b]) == s.madeFor[b].hash
  }

  /** Bytes a marker still needs, or a private version still shows, are stored. */
  predicate Present(s: World) {
    && (forall m :: m in s.staged && m.blob.Some? && !Decided(s, m) ==> m.blob.value in s.store)
    && (forall m :: m in s.acked && m.blob.Some? && !Decided(s, m) ==> m.blob.value in s.store)
    && (forall b :: b in s.db.owned && b in s.madeFor && s.madeFor[b].version in s.db.versions ==> b in s.store)
  }

  /** No row names `b` and none ever will: its only marker is decided. */
  predicate Retired(s: World, b: Uuid) {
    !RowExists(s.db, b) && b in s.madeFor && Decided(s, s.madeFor[b])
  }

  predicate Discardable(s: World, m: Marker) {
    m.blob.Some? && Retired(s, m.blob.value)
  }

  /** `b` was the shared blob of content `h` when it was looked up. */
  predicate WasCanonical(s: World, b: Uuid, h: Hash) {
    b in s.madeFor && s.madeFor[b].hash == h
  }

  /** A consumer's name still means the marker it read. */
  predicate Held(s: World, m: Marker) {
    m in s.acked && m.seqno < s.nextSeq && (NameOf(m) in s.queue ==> s.queue[NameOf(m)] == m) &&
    forall x :: x in s.staged ==> x.seqno != m.seqno
  }

  predicate ConsumerOk(digest: Bytes -> Hash, s: World, p: Consumer) {
    Held(s, p.m) && (!p.Loaded? ==> Decided(s, p.m)) &&
    match p
    case Loaded(m) => true
    case Settled(m, b, redundant) => redundant ==> Discardable(s, m) && WasCanonical(s, b, m.hash)
    case Confirmed(m) => Discardable(s, m)
    case Missing(m, b) => Discardable(s, m) && WasCanonical(s, b, m.hash)
    case Holding(m, b, bytes) => Discardable(s, m) && WasCanonical(s, b, m.hash) && digest(bytes) == m.hash
    case Reconciled(m) => true
  }

  predicate Consumers(digest: Bytes -> Hash, s: World, cs: map<nat, Consumer>) {
    forall c :: c in cs ==> ConsumerOk(digest, s, cs[c])
  }

  predicate CleanerOk(s: World, p: Cleaner) { p.RowGone? ==> Retired(s, p.blob) }

  predicate UnlinkerOk(s: World, p: Unlinker) {
    match p
    case Looked(i, b) => b.Some? ==> b.value in s.madeFor && !s.madeFor[b.value].shared && s.madeFor[b.value].inode == i
    case InodeGone(b) => b in s.madeFor && !s.madeFor[b].shared && s.madeFor[b].inode !in s.db.inodes
  }

  predicate Sweeps(s: World, cs: map<nat, Cleaner>, us: map<nat, Unlinker>) {
    && (forall k :: k in cs ==> CleanerOk(s, cs[k]))
    && (forall u :: u in us ==> UnlinkerOk(s, us[u]))
  }

  /** Every acknowledged write is queued, committed, or its inode is gone. */
  predicate Survives(s: World) {
    forall m :: m in s.acked ==> Decided(s, m) || (NameOf(m) in s.queue && s.queue[NameOf(m)] == m)
  }

  predicate ReportedOnce(s: World) {
    && (forall j, k :: 0 <= j < k < |s.newly| ==> s.newly[j] != s.newly[k])
    && (forall j :: 0 <= j < |s.newly| ==> s.newly[j] in s.made && Decided(s, s.made[s.newly[j]]))
  }

  ghost predicate Rows(s: World) { VersionRows(s) && BlobRows(s) && Chained(s.db) }

  ghost predicate WorldInv(digest: Bytes -> Hash, s: World) {
    FreshIds(s) && Names(s) && Rows(s) && Intact(digest, s) && Present(s) && Survives(s) && ReportedOnce(s)
  }

  ghost predicate Inv(digest: Bytes -> Hash, s: State) {
    WorldInv(digest, s.w) && Consumers(digest, s.w, s.consumers) && Sweeps(s.w, s.cleaners, s.unlinkers)
  }

  // ---- participants keep their footing while the world moves ----

  predicate DecidedStay(s: World, t: World) {
    && (forall v :: v in s.made ==> v in t.made && t.made[v] == s.made[v] && (Decided(s, s.made[v]) ==> Decided(t, s.made[v])))
    && (forall b :: b in s.madeFor ==> b in t.madeFor && t.madeFor[b] == s.madeFor[b])
  }

  predicate RetiredStay(s: World, t: World) {
    forall b :: b in s.madeFor && !RowExists(s.db, b) && Decided(s, s.madeFor[b]) ==> !RowExists(t.db, b)
  }

  predicate HeldStay(s: World, t: World) {
    t.nextSeq >= s.nextSeq && s.acked <= t.acked &&
    (forall n :: n in t.queue ==> (n in s.queue && t.queue[n] == s.queue[n]) || t.queue[n] in s.staged) &&
    (forall x :: x in t.staged ==> x in s.staged || x.seqno >= s.nextSeq)
  }

  lemma RetiredStays(s: World, t: World, b: Uuid)
    requires FreshIds(s) && DecidedStay(s, t) && RetiredStay(s, t) && Retired(s, b)
    ensures Retired(t, b)
  {
    assert s.made[s.madeFor[b].version] == s.madeFor[b];
  }

  predicate Stays(s: World, t: World) {
    DecidedStay(s, t) && RetiredStay(s, t) && HeldStay(s, t) &&
    (forall n :: n in t.queue ==> n == NameOf(t.queue[n])) &&
    (forall i :: i in s.known && i !in s.db.inodes ==> i !in t.db.inodes)
  }

  /** When the world moves this way, everyone's view of it stays true. */
  lemma OthersStay(digest: Bytes -> Hash, s: State, t: World)
    requires FreshIds(s.w) && Names(s.w) && Stays(s.w, t)
    requires Consumers(digest, s.w, s.consumers) && Sweeps(s.w, s.cleaners, s.unlinkers)
    ensures Consumers(digest, t, s.consumers) && Sweeps(t, s.cleaners, s.unlinkers)
  {
    forall c | c in s.consumers ensures ConsumerOk(digest, t, s.consumers[c]) { }
    forall k | k in s.cleaners ensures CleanerOk(t, s.cleaners[k]) {
      if s.cleaners[k].RowGone? { RetiredStays(s.w, t, s.cleaners[k].blob); }
    }
  }

  // ---- inodes come and go ----

  lemma CreateKeeps(digest: Bytes -> Hash, s: World, i: Uuid)
    requires WorldInv(digest, s) && i !in s.known
    ensures var t := s.(db := s.db.(inodes := s.db.inodes[i := InodeRow(None, 0)]), known := s.known + {i});
      WorldInv(digest, t) && Stays(s, t)
  {
    var t := s.(db := s.db.(inodes := s.db.inodes[i := InodeRow(None, 0)]), known := s.known + {i});
    CreateChained(s.db, i);
    CreateRest(s, i);
    assert DecidedStay(s, t);
  }

  lemma CreateChained(db: Db, i: Uuid)
    requires Chained(db) && i !in db.inodes
    ensures Chained(db.(inodes := db.inodes[i := InodeRow(None, 0)]))
  {
    var db' := db.(inodes := db.inodes[i := InodeRow(None, 0)]);
    forall a, b | a in db'.versions && b in db'.versions && SameSlot(db', a, b) ensures a == b { assert SameSlot(db, a, b); }
    forall j | j in db'.inodes ensures ShowsLatest(db', j) {
      LatestFrame(db, db', j);
      if j != i { assert ShowsLatest(db, j); }
    }
    forall u | u in db'.versions ensures ParentIsPrevious(db', u) { assert ParentIsPrevious(db, u); }
  }

  lemma CreateDecided(s: World, i: Uuid)
    requires FreshIds(s) && BlobRows(s) && Survives(s) && ReportedOnce(s) && i !in s.known
    ensures var t := s.(db := s.db.(inodes := s.db.inodes[i := InodeRow(None, 0)]), known := s.known + {i});
      BlobRows(t) && Survives(t) && ReportedOnce(t)
  { }

  lemma CreateRest(s: World, i: Uuid)
    requires FreshIds(s) && VersionRows(s) && BlobRows(s) && Present(s) && Survives(s) && ReportedOnce(s) && i !in s.known
    ensures var t := s.(db := s.db.(inodes := s.db.inodes[i := InodeRow(None, 0)]), known := s.known + {i});
      FreshIds(t) && VersionRows(t) && BlobRows(t) && Present(t) && Survives(t) && ReportedOnce(t)
  {
    CreateDecided(s, i);
  }

  predicate GoneFacts(s: World, t: World, i: Uuid) {
    && t == s.(db := t.db) && t.db.dedup == s.db.dedup && t.db.owned == s.db.owned
    && t.db.inodes.Keys == s.db.inodes.Keys - {i}
    && (forall v :: v in s.db.versions ==> (v in t.db.versions <==> s.db.versions[v].inode != i))
    && (forall v :: v in t.db.versions ==> v in s.db.versions && t.db.versions[v] == s.db.versions[v])
  }

  lemma DropKeeps(digest: Bytes -> Hash, s: World, i: Uuid)
    requires WorldInv(digest, s)
    ensures var t := s.(db := DeleteInode(s.db, i)); WorldInv(digest, t) && Stays(s, t)
  {
    var t := s.(db := DeleteInode(s.db, i));
    ChainedDelete(s.db, i);
    DropRest(s, t, i);
    assert Present(t) by {
      forall m | Made(s, m) && !Decided(t, m) ensures !Decided(s, m) { assert s.made[m.version] == m; }
    }
  }

  lemma DropRest(s: World, t: World, i: Uuid)
    requires FreshIds(s) && VersionRows(s) && BlobRows(s) && Survives(s) && ReportedOnce(s) && GoneFacts(s, t, i) && DecidedStay(s, t)
    ensures FreshIds(t) && VersionRows(t) && BlobRows(t) && Survives(t) && ReportedOnce(t)
  {
    forall m | m in t.acked ensures Decided(t, m) || (NameOf(m) in t.queue && t.queue[NameOf(m)] == m) {
      assert s.made[m.version] == m;
    }
    forall b, h, shared | Backed(s, b, h, shared) ensures Backed(t, b, h, shared) {
      assert s.made[s.madeFor[b].version] == s.madeFor[b];
    }
  }

  // ---- writers ----

  lemma StageKeeps(digest: Bytes -> Hash, s: World, m: Marker, data: Bytes)
    requires WorldInv(digest, s) && m.hash == digest(data) && Stageable(s, m, data)
    ensures WorldInv(digest, Staged(s, m, data)) && Stays(s, Staged(s, m, data))
  {
    StageIds(s, m, data);
    StageRows(digest, s, m, data);
  }

  lemma StageIds(s: World, m: Marker, data: Bytes)
    requires FreshIds(s) && Names(s) && m.inode in s.db.inodes && m.seqno == s.nextSeq && m.version !in s.made
    requires m.blob.Some? ==> m.blob.value !in s.madeFor
    ensures var t := Staged(s, m, data); FreshIds(t) && Names(t) && Stays(s, t)
  {
    StageMade(s, m, data);
    StageNames(s, m, data);
  }

  lemma StageNames(s: World, m: Marker, data: Bytes)
    requires Names(s) && m.seqno == s.nextSeq && m.version !in s.made && (m.blob.Some? ==> m.blob.value !in s.madeFor)
    ensures var t := Staged(s, m, data); Names(t) && Stays(s, t)
  { }

  lemma StageMade(s: World, m: Marker, data: Bytes)
    requires FreshIds(s) && m.inode in s.db.inodes && m.version !in s.made
    requires m.blob.Some? ==> m.blob.value !in s.madeFor
    ensures FreshIds(Staged(s, m, data))
  { }

  lemma StageRows(digest: Bytes -> Hash, s: World, m: Marker, data: Bytes)
    requires FreshIds(s) && Rows(s) && Intact(digest, s) && Present(s) && Survives(s) && ReportedOnce(s)
    requires m.hash == digest(data) && m.version !in s.made && (m.blob.Some? ==> m.blob.value !in s.madeFor)
    ensures var t := Staged(s, m, data); Rows(t) && Intact(digest, t) && Present(t) && Survives(t) && ReportedOnce(t)
  {
    StageBlobRows(s, m, data);
  }

  lemma StageBlobRows(s: World, m: Marker, data: Bytes)
    requires FreshIds(s) && VersionRows(s) && BlobRows(s) && m.version !in s.made && (m.blob.Some? ==> m.blob.value !in s.madeFor)
    ensures var t := Staged(s, m, data); VersionRows(t) && BlobRows(t)
  { }

  lemma EnqueueNames(s: World, m: Marker)
    requires FreshIds(s) && Names(s) && Survives(s) && m in s.staged
    ensures var t := Enqueued(s, m); FreshIds(t) && Names(t) && Survives(t) && Stays(s, t)
  {
    assert NameOf(m) !in s.queue;
    EnqueueSurvives(s, m);
    assert FreshIds(Enqueued(s, m)) by { assert Made(s, m); }
  }

  lemma EnqueueSurvives(s: World, m: Marker)
    requires Survives(s) && NameOf(m) !in s.queue
    ensures Survives(Enqueued(s, m))
  { }

  lemma EnqueueKeeps(digest: Bytes -> Hash, s: World, m: Marker)
    requires WorldInv(digest, s) && m in s.staged
    ensures WorldInv(digest, Enqueued(s, m)) && Stays(s, Enqueued(s, m))
  {
    EnqueueNames(s, m);
    RowsStay(digest, s, Enqueued(s, m));
  }

  /** Whatever only takes from the staged writers leaves tables and bytes in order. */
  lemma RowsStay(digest: Bytes -> Hash, s: World, t: World)
    requires t.db == s.db && t.store == s.store && t.made == s.made && t.madeFor == s.madeFor && t.newly == s.newly
    requires s.acked <= t.acked <= s.acked + s.staged && t.staged <= s.staged
    requires Rows(s) && Intact(digest, s) && Present(s) && ReportedOnce(s)
    ensures Rows(t) && Intact(digest, t) && Present(t) && ReportedOnce(t)
  { }

  lemma SeedKeeps(digest: Bytes -> Hash, s: World, seed: nat)
    requires WorldInv(digest, s) && forall n :: n in s.queue ==> n.seqno < seed
    ensures WorldInv(digest, s.(staged := {}, nextSeq := seed))
  {
    RowsStay(digest, s, s.(staged := {}, nextSeq := seed));
  }

  // ---- the transaction ----

  lemma TxKeeps(digest: Bytes -> Hash, s: World, m: Marker, r: TxResult)
    requires WorldInv(digest, s) && m in s.acked && Shape(s.db, m, r) && Chained(r.db)
    ensures var t := Transacted(s, m, r); WorldInv(digest, t) && Stays(s, t) && Decided(t, m)
  {
    assert Made(s, m);
    if r.inserted {
      TxIds(s, m, r);
      TxBlobRows(s, m, r);
      TxVersionRows(s, m, r);
      TxReported(s, m, r);
    }
  }

  lemma TxIds(s: World, m: Marker, r: TxResult)
    requires FreshIds(s) && Names(s) && Survives(s) && Made(s, m) && m in s.acked && Shape(s.db, m, r) && r.inserted
    ensures var t := Transacted(s, m, r); FreshIds(t) && Names(t) && Survives(t) && Stays(s, t) && Decided(t, m)
  {
    assert DecidedStay(s, Transacted(s, m, r));
  }

  lemma TxBlobRows(s: World, m: Marker, r: TxResult)
    requires FreshIds(s) && BlobRows(s) && Present(s) && Made(s, m) && m in s.acked && Shape(s.db, m, r) && r.inserted
    ensures BlobRows(Transacted(s, m, r))
  {
    assert m.blob.Some? ==> m.blob.value in s.store;
  }

  lemma TxVersionRows(s: World, m: Marker, r: TxResult)
    requires FreshIds(s) && VersionRows(s) && Made(s, m) && m in s.acked && Shape(s.db, m, r) && r.inserted
    ensures VersionRows(Transacted(s, m, r))
  { }

  lemma TxReported(s: World, m: Marker, r: TxResult)
    requires FreshIds(s) && ReportedOnce(s) && Made(s, m) && Shape(s.db, m, r) && r.inserted
    ensures ReportedOnce(Transacted(s, m, r))
  {
    var t := Transacted(s, m, r);
    forall j | 0 <= j < |s.newly| ensures s.newly[j] != m.version { assert Decided(s, s.made[s.newly[j]]); }
  }

  // ---- the store ----

  /** Nobody needs the bytes of `b`, now or later. */
  predicate Unneeded(s: World, b: Uuid) {
    b in s.madeFor && Decided(s, s.madeFor[b]) && b !in s.db.dedup.Values &&
    (b in s.db.owned ==> s.madeFor[b].version !in s.db.versions)
  }

  lemma DeleteKeeps(digest: Bytes -> Hash, s: World, b: Uuid)
    requires WorldInv(digest, s) && Unneeded(s, b)
    ensures var t := s.(store := s.store - {b}); WorldInv(digest, t) && Stays(s, t)
  {
    DeletePresent(s, b);
    DeleteRows(s, b);
    DeleteIds(digest, s, b);
  }

  lemma DeleteIds(digest: Bytes -> Hash, s: World, b: Uuid)
    requires FreshIds(s) && Names(s) && VersionRows(s) && Intact(digest, s) && Survives(s) && ReportedOnce(s)
    ensures var t := s.(store := s.store - {b});
      FreshIds(t) && Names(t) && VersionRows(t) && Intact(digest, t) && Survives(t) && ReportedOnce(t) && Stays(s, t)
  { }

  lemma DeletePresent(s: World, b: Uuid)
    requires FreshIds(s) && Present(s) && Unneeded(s, b)
    ensures Present(s.(store := s.store - {b}))
  {
    forall m | Made(s, m) && m.blob == Some(b) ensures Decided(s, m) { }
  }

  lemma DeleteRows(s: World, b: Uuid)
    requires BlobRows(s) && Unneeded(s, b)
    ensures BlobRows(s.(store := s.store - {b}))
  {
    forall h | h in s.db.dedup ensures s.db.dedup[h] != b { assert s.db.dedup[h] in s.db.dedup.Values; }
  }

  lemma PutRows(digest: Bytes -> Hash, s: World, b: Uuid, bytes: Bytes)
    requires Rows(s) && Intact(digest, s) && Present(s) && b in s.madeFor && digest(bytes) == s.madeFor[b].hash
    ensures var t := s.(store := s.store[b := bytes]); Rows(t) && Intact(digest, t) && Present(t)
  { }

  lemma PutIds(s: World, b: Uuid, bytes: Bytes)
    requires FreshIds(s) && Names(s) && Survives(s) && ReportedOnce(s)
    ensures var t := s.(store := s.store[b := bytes]); FreshIds(t) && Names(t) && Survives(t) && ReportedOnce(t) && Stays(s, t)
  { }

  lemma CheckpointNames(s: World, m: Marker)
    requires FreshIds(s) && Names(s) && Survives(s) && Decided(s, m) && (NameOf(m) in s.queue ==> s.queue[NameOf(m)] == m)
    ensures var t := s.(queue := s.queue - {NameOf(m)}); FreshIds(t) && Names(t) && Survives(t) && Stays(s, t)
  { }

  predicate RowRemoved(s: World, t: World, b: Uuid) {
    && t == s.(db := t.db) && t.db.versions == s.db.versions && t.db.inodes == s.db.inodes
    && !RowExists(t.db, b)
    && (forall h :: h in s.db.dedup && s.db.dedup[h] != b ==> h in t.db.dedup)
    && (forall h :: h in t.db.dedup ==> h in s.db.dedup && t.db.dedup[h] == s.db.dedup[h])
    && t.db.owned == s.db.owned - {b}
  }

  lemma RemoveRowRows(s: World, t: World, b: Uuid)
    requires VersionRows(s) && BlobRows(s) && RowRemoved(s, t, b) && Unreferenced(s.db, b)
    ensures VersionRows(t) && BlobRows(t)
  {
    forall v | v in t.db.versions ensures RowOf(t, s.made[v], t.db.versions[v]) {
      var m := s.made[v];
      assert Referenced(s.db, m.hash);
      if m.blob.Some? {
        assert HasRow(s.db, s.db.versions[v].blob.value, m.hash);
        assert s.db.versions[v].blob.value != b;
      }
    }
  }

  lemma RemoveRowRest(digest: Bytes -> Hash, s: World, t: World, b: Uuid)
    requires FreshIds(s) && Names(s) && Intact(digest, s) && Present(s) && Survives(s) && ReportedOnce(s) && RowRemoved(s, t, b)
    ensures FreshIds(t) && Names(t) && Intact(digest, t) && Present(t) && Survives(t) && ReportedOnce(t) && Stays(s, t)
  { }

  // ---- every step ----

  lemma WriterStep(digest: Bytes -> Hash, s: State, step: Step)
    requires Inv(digest, s) && Enabled(digest, s, step) && (step.Stage? || step.Refuse? || step.Enqueue?)
    ensures Inv(digest, Apply(s, step, digest))
  {
    var t := if step.Stage? then Staged(s.w, step.m, step.data)
      else if step.Refuse? then s.w.(staged := s.w.staged - {step.m}) else Enqueued(s.w, step.m);
    assert Apply(s, step, digest) == s.(w := t);
    if step.Stage? { StageKeeps(digest, s.w, step.m, step.data); }
    else if step.Refuse? { RowsStay(digest, s.w, t); }
    else { EnqueueKeeps(digest, s.w, step.m); }
    OthersStay(digest, s, t);
  }

  lemma RestartStep(digest: Bytes -> Hash, s: State, step: Step)
    requires Inv(digest, s) && Enabled(digest, s, step) && (step.Crash? || step.Restart?)
    ensures Inv(digest, Apply(s, step, digest))
  {
    SeedKeeps(digest, s.w, step.seed);
    if step.Restart? { SeedOthers(digest, s, step.seed); }
  }

  lemma SeedOthers(digest: Bytes -> Hash, s: State, seed: nat)
    requires Consumers(digest, s.w, s.consumers) && HeldBelow(s, seed)
    ensures Consumers(digest, Restarted(s, seed).w, s.consumers)
  {
    var t := Restarted(s, seed).w;
    forall c | c in s.consumers ensures ConsumerOk(digest, t, s.consumers[c]) {
      assert ConsumerOk(digest, s.w, s.consumers[c]);
    }
  }

  /** Steps that only move one consumer leave the world as it is. */
  lemma ConsumerQuietStep(digest: Bytes -> Hash, s: State, step: Step)
    requires Inv(digest, s) && Enabled(digest, s, step)
    requires step.CheckCanonical? || step.ReadProvisional? || step.GiveUpReconcile?
    ensures Inv(digest, Apply(s, step, digest))
  {
    var p := Apply(s, step, digest).consumers[step.c];
    assert ConsumerOk(digest, s.w, s.consumers[step.c]);
    QuietConsumerOk(digest, s, step);
    OneMoves(digest, s.w, s.consumers, step.c, p);
  }

  lemma QuietConsumerOk(digest: Bytes -> Hash, s: State, step: Step)
    requires FreshIds(s.w) && Intact(digest, s.w) && Enabled(digest, s, step)
    requires step.CheckCanonical? || step.ReadProvisional? || step.GiveUpReconcile?
    requires ConsumerOk(digest, s.w, s.consumers[step.c])
    ensures var t := Apply(s, step, digest);
      step.c in t.consumers && ConsumerOk(digest, s.w, t.consumers[step.c]) &&
      t == s.(consumers := s.consumers[step.c := t.consumers[step.c]])
  { }

  lemma ConsumersAfterLoad(digest: Bytes -> Hash, s: State, step: Step)
    requires Enabled(digest, s, step) && (step.Load? || step.Abort?) && Consumers(digest, s.w, s.consumers)
    requires step.Load? ==> Held(s.w, s.w.queue[step.n])
    ensures Consumers(digest, s.w, Apply(s, step, digest).consumers)
  { }

  predicate SweeperQuiet(step: Step) {
    step.CleanList? || step.CleanScan? || step.CleanSkip? || step.CleanEnd? || step.UnlinkLook? || step.UnlinkEnd?
  }

  lemma SweeperQuietStep(digest: Bytes -> Hash, s: State, step: Step)
    requires Inv(digest, s) && Enabled(digest, s, step) && SweeperQuiet(step)
    ensures Inv(digest, Apply(s, step, digest))
  {
    SweepsQuiet(s, step);
  }

  lemma SweepsQuiet(s: State, step: Step)
    requires Next(s, step).Some? && SweeperQuiet(step) && Sweeps(s.w, s.cleaners, s.unlinkers)
    requires step.UnlinkLook? ==> UnlinkerOk(s.w, Looked(step.i, PrivateBlob(s.w.db, step.i)))
    ensures var t := Next(s, step).value; t.w == s.w && t.consumers == s.consumers && Sweeps(t.w, t.cleaners, t.unlinkers)
  { }

  lemma TransactStep(digest: Bytes -> Hash, s: State, c: nat)
    requires Inv(digest, s) && Enabled(digest, s, Transact(c))
    ensures Inv(digest, Apply(s, Transact(c), digest))
  {
    var m := s.consumers[c].m;
    TxShape(s.w.db, m);
    ChainedTx(s.w.db, m);
    var r := CommitTx(s.w.db, m).value;
    TransactLands(digest, s, c, m, r);
    assert Apply(s, Transact(c), digest) == s.(w := Transacted(s.w, m, r), consumers := s.consumers[c := AfterTx(m, r)]);
  }

  lemma TransactLands(digest: Bytes -> Hash, s: State, c: nat, m: Marker, r: TxResult)
    requires Inv(digest, s) && c in s.consumers && s.consumers[c] == Loaded(m) && Shape(s.w.db, m, r) && Chained(r.db)
    ensures Inv(digest, s.(w := Transacted(s.w, m, r), consumers := s.consumers[c := AfterTx(m, r)]))
  {
    var t := Transacted(s.w, m, r);
    assert ConsumerOk(digest, s.w, s.consumers[c]);
    TxKeeps(digest, s.w, m, r);
    OthersStay(digest, s, t);
    assert ConsumerOk(digest, t, s.consumers[c]);
    AfterTxOk(digest, s.w, m, r);
    OneMoves(digest, t, s.consumers, c, AfterTx(m, r));
  }

  lemma ConsumerStep(digest: Bytes -> Hash, s: State, step: Step)
    requires Inv(digest, s) && Enabled(digest, s, step)
    requires step.Transact? || step.PutCanonical? || step.DeleteProvisional? || step.Checkpoint?
    ensures Inv(digest, Apply(s, step, digest))
  {
    if step.Transact? { TransactStep(digest, s, step.c); }
    else if step.PutCanonical? {
      var p := s.consumers[step.c];
      assert ConsumerOk(digest, s.w, p);
      PutRows(digest, s.w, p.canonical, p.bytes);
      PutIds(s.w, p.canonical, p.bytes);
      StepAside(digest, s, s.w.(store := s.w.store[p.canonical := p.bytes]), step.c, Confirmed(p.m));
    } else if step.DeleteProvisional? { DeleteStep(digest, s, step.c); }
    else { CheckpointStep(digest, s, step.c); }
  }

  lemma SweeperStep(digest: Bytes -> Hash, s: State, step: Step)
    requires Inv(digest, s) && Enabled(digest, s, step)
    requires step.CleanRow? || step.CleanBytes? || step.UnlinkRow? || step.UnlinkBytes?
    ensures Inv(digest, Apply(s, step, digest))
  {
    if step.CleanRow? { CleanRowStep(digest, s, step.k); }
    else if step.CleanBytes? {
      assert CleanerOk(s.w, s.cleaners[step.k]);
      var p := s.cleaners[step.k];
      DeleteKeeps(digest, s.w, p.blob);
      CleanerAside(digest, s, s.w.(store := s.w.store - {p.blob}), step.k, Sweeping(p.protected, p.todo));
    } else if step.UnlinkRow? { UnlinkRowStep(digest, s, step.u); }
    else {
      var b := s.unlinkers[step.u].doomed;
      assert UnlinkerOk(s.w, s.unlinkers[step.u]);
      DeleteKeeps(digest, s.w, b);
      OthersStay(digest, s, Apply(s, UnlinkBytes(step.u), digest).w);
    }
  }

  /** One enabled step of any participant keeps the invariant. */
  lemma StepKeeps(digest: Bytes -> Hash, s: State, step: Step)
    requires Inv(digest, s) && Enabled(digest, s, step)
    ensures Inv(digest, Apply(s, step, digest))
  {
    if step.CreateInode? || step.DropInode? {
      if step.CreateInode? { CreateKeeps(digest, s.w, step.i); } else { DropKeeps(digest, s.w, step.i); }
      OthersStay(digest, s, Apply(s, step, digest).w);
    } else if step.Stage? || step.Refuse? || step.Enqueue? { WriterStep(digest, s, step); }
    else if step.Crash? || step.Restart? { RestartStep(digest, s, step); }
    else if step.CheckCanonical? || step.ReadProvisional? || step.GiveUpReconcile? { ConsumerQuietStep(digest, s, step); }
    else if step.Load? || step.Abort? { ConsumersAfterLoad(digest, s, step); }
    else if step.Transact? || step.PutCanonical? || step.DeleteProvisional? || step.Checkpoint? { ConsumerStep(digest, s, step); }
    else if SweeperQuiet(step) { SweeperQuietStep(digest, s, step); }
    else { SweeperStep(digest, s, step); }
  }

  lemma AfterTxOk(digest: Bytes -> Hash, s: World, m: Marker, r: TxResult)
    requires FreshIds(s) && BlobRows(s) && Made(s, m) && m in s.acked && Shape(s.db, m, r)
    requires FreshIds(Transacted(s, m, r)) && Decided(Transacted(s, m, r), m) && Held(Transacted(s, m, r), m)
    ensures ConsumerOk(digest, Transacted(s, m, r), AfterTx(m, r))
  { }

  lemma OneMoves(digest: Bytes -> Hash, w: World, cs: map<nat, Consumer>, c: nat, p: Consumer)
    requires Consumers(digest, w, cs) && ConsumerOk(digest, w, p)
    ensures Consumers(digest, w, cs[c := p])
  { }

  /** The world moves, everybody stays, and consumer `c` moves on. */
  lemma StepAside(digest: Bytes -> Hash, s: State, t: World, c: nat, p: Consumer)
    requires FreshIds(s.w) && Names(s.w) && Stays(s.w, t)
    requires Consumers(digest, s.w, s.consumers) && Sweeps(s.w, s.cleaners, s.unlinkers)
    requires c in s.consumers && p.m == s.consumers[c].m && !s.consumers[c].Loaded?
    requires p.Reconciled? || (p.Confirmed? && Discardable(s.w, p.m))
    ensures Consumers(digest, t, s.consumers[c := p]) && Sweeps(t, s.cleaners, s.unlinkers)
  {
    OthersStay(digest, s, t);
    assert ConsumerOk(digest, t, s.consumers[c]);
    if p.Confirmed? { RetiredStays(s.w, t, p.m.blob.value); }
  }

  lemma DeleteStep(digest: Bytes -> Hash, s: State, c: nat)
    requires Inv(digest, s) && Enabled(digest, s, DeleteProvisional(c))
    ensures Inv(digest, Apply(s, DeleteProvisional(c), digest))
  {
    var p := s.consumers[c];
    assert ConsumerOk(digest, s.w, p);
    DeleteKeeps(digest, s.w, p.m.blob.value);
    StepAside(digest, s, s.w.(store := s.w.store - {p.m.blob.value}), c, Reconciled(p.m));
  }

  lemma CheckpointStep(digest: Bytes -> Hash, s: State, c: nat)
    requires Inv(digest, s) && Enabled(digest, s, Checkpoint(c))
    ensures Inv(digest, Apply(s, Checkpoint(c), digest))
  {
    assert ConsumerOk(digest, s.w, s.consumers[c]);
    CheckpointNames(s.w, s.consumers[c].m);
    RowsStay(digest, s.w, Apply(s, Checkpoint(c), digest).w);
    OthersStay(digest, s, Apply(s, Checkpoint(c), digest).w);
  }

  lemma CleanRowStep(digest: Bytes -> Hash, s: State, k: nat)
    requires Inv(digest, s) && Enabled(digest, s, CleanRow(k))
    ensures Inv(digest, Apply(s, CleanRow(k), digest))
  {
    var p := s.cleaners[k];
    var b := p.todo[0].0;
    var t := s.w.(db := RemoveBlobRow(s.w.db, b));
    ChainedFrame(s.w.db, t.db);
    RemoveRowRows(s.w, t, b);
    RemoveRowRest(digest, s.w, t, b);
    CleanerAside(digest, s, t, k, RowGone(p.protected, p.todo[1..], b));
  }

  /** The world moves, everybody stays, and cleaner `k` moves on. */
  lemma CleanerAside(digest: Bytes -> Hash, s: State, t: World, k: nat, p: Cleaner)
    requires FreshIds(s.w) && Names(s.w) && Stays(s.w, t) && CleanerOk(t, p)
    requires Consumers(digest, s.w, s.consumers) && Sweeps(s.w, s.cleaners, s.unlinkers)
    ensures Consumers(digest, t, s.consumers) && Sweeps(t, s.cleaners[k := p], s.unlinkers)
  {
    OthersStay(digest, s, t);
  }

  lemma UnlinkRowStep(digest: Bytes -> Hash, s: State, u: nat)
    requires Inv(digest, s) && Enabled(digest, s, UnlinkRow(u))
    ensures Inv(digest, Apply(s, UnlinkRow(u), digest))
  {
    assert UnlinkerOk(s.w, s.unlinkers[u]);
    DropKeeps(digest, s.w, s.unlinkers[u].inode);
    OthersStay(digest, s, Apply(s, UnlinkRow(u), digest).w);
  }

  // ---- main results ----

  lemma InitialInv(digest: Bytes -> Hash)
    ensures Inv(digest, Initial)
  {
    var db := Initial.w.db;
    assert forall i :: i in db.inodes ==> ShowsLatest(db, i);
  }

  lemma {:induction false} RunKeeps(digest: Bytes -> Hash, s: State, steps: seq<Step>, t: State)
    requires Inv(digest, s) && Run(digest, s, steps, t)
    ensures Inv(digest, t)
    decreases |steps|
  {
    if steps != [] {
      StepKeeps(digest, s, steps[0]);
      RunKeeps(digest, Apply(s, steps[0], digest), steps[1..], t);
    }
  }

  /** In every interleaving a committed version's blob has its bytes, the bytes
      are the content its hash names, and the blob row records that hash; every
      shared blob row has its bytes too. No grace window and no queue protection
      is used: the cleaner's candidates are any unreferenced rows. */
  lemma NoDanglingBlob(digest: Bytes -> Hash, steps: seq<Step>, t: State)
    requires Run(digest, Initial, steps, t)
    ensures forall v :: v in t.w.db.versions && t.w.db.versions[v].blob.Some? ==>
      var row := t.w.db.versions[v];
      row.blob.value in t.w.store && digest(t.w.store[row.blob.value]) == row.hash && HasRow(t.w.db, row.blob.value, row.hash)
    ensures forall h :: h in t.w.db.dedup ==> t.w.db.dedup[h] in t.w.store && digest(t.w.store[t.w.db.dedup[h]]) == h
  {
    InitialInv(digest);
    RunKeeps(digest, Initial, steps, t);
    forall v | v in t.w.db.versions && t.w.db.versions[v].blob.Some?
      ensures var row := t.w.db.versions[v];
        row.blob.value in t.w.store && digest(t.w.store[row.blob.value]) == row.hash && HasRow(t.w.db, row.blob.value, row.hash)
    { VersionHasBytes(digest, t.w, v); }
  }

  lemma VersionHasBytes(digest: Bytes -> Hash, w: World, v: Uuid)
    requires WorldInv(digest, w) && v in w.db.versions && w.db.versions[v].blob.Some?
    ensures var row := w.db.versions[v];
      row.blob.value in w.store && digest(w.store[row.blob.value]) == row.hash && HasRow(w.db, row.blob.value, row.hash)
  {
    var row, m := w.db.versions[v], w.made[v];
    assert RowOf(w, m, row) && m.version == v;
    if m.shared { assert Backed(w, w.db.dedup[m.hash], m.hash, true); }
  }

  /** What each kind of step can change of the shared world. */
  lemma WorldFrame(s: State, step: Step)
    requires Next(s, step).Some?
    ensures var w, w' := s.w, Next(s, step).value.w;
      (!step.Stage? ==> w'.made == w.made && w'.madeFor == w.madeFor) &&
      (!step.Enqueue? ==> w'.acked == w.acked) && (!step.CreateInode? ==> w'.known == w.known) &&
      (!step.Enqueue? && !step.Checkpoint? ==> w'.queue == w.queue) &&
      (!step.Transact? && !step.CleanRow? ==> w'.db.owned == w.db.owned && w'.db.dedup == w.db.dedup)
  { }

  /** A consumer's own steps, up to its last. */
  predicate ByConsumer(step: Step) {
    step.Load? || step.Transact? || step.CheckCanonical? || step.ReadProvisional? || step.PutCanonical? || step.DeleteProvisional? ||
    step.GiveUpReconcile?
  }

  lemma ConsumerFrame(s: State, step: Step)
    requires Next(s, step).Some?
    ensures var cs, cs' := s.consumers, Next(s, step).value.consumers;
      if step.Crash? then cs' == map[]
      else if ByConsumer(step) then step.c in cs' && cs' == cs[step.c := cs'[step.c]]
      else if step.Checkpoint? || step.Abort? then cs' == cs - {step.c}
      else cs' == cs
  { }

  /** A pass's own steps, up to its end. */
  predicate SweeperMoves(step: Step) {
    step.CleanList? || step.CleanScan? || step.CleanRow? || step.CleanBytes? || step.CleanSkip?
  }

  lemma CleanerFrame(s: State, step: Step)
    requires Next(s, step).Some?
    ensures var cs, cs' := s.cleaners, Next(s, step).value.cleaners;
      if step.Crash? || step.Restart? then cs' == map[]
      else if SweeperMoves(step) then step.k in cs' && cs' == cs[step.k := cs'[step.k]]
      else if step.CleanEnd? then cs' == cs - {step.k}
      else cs' == cs
  { }

  /** History only grows, and what is newly queued was staged. */
  lemma StepHistory(s: State, step: Step)
    requires Next(s, step).Some?
    ensures s.w.acked <= Next(s, step).value.w.acked && s.w.known <= Next(s, step).value.w.known
    ensures var t := Next(s, step).value.w;
      forall n :: n in t.queue ==> (n in s.w.queue && t.queue[n] == s.w.queue[n]) || t.queue[n] in s.w.staged
  {
    WorldFrame(s, step);
  }

  lemma {:induction false} HistoryGrows(digest: Bytes -> Hash, s: State, steps: seq<Step>, t: State)
    requires Run(digest, s, steps, t)
    ensures s.w.acked <= t.w.acked && s.w.known <= t.w.known
    decreases |steps|
  {
    if steps != [] {
      StepHistory(s, steps[0]);
      HistoryGrows(digest, Apply(s, steps[0], digest), steps[1..], t);
    }
  }

  /** A write whose marker reached the queue is, in every later state, still a
      queued marker or a committed version carrying its hash and size, unless
      its inode was deleted. */
  lemma AcknowledgedWritesSurvive(digest: Bytes -> Hash, before: seq<Step>, s: State, after: seq<Step>, t: State, m: Marker)
    requires Run(digest, Initial, before, s) && m in s.w.acked && Run(digest, s, after, t)
    ensures m.inode !in t.w.db.inodes || (NameOf(m) in t.w.queue && t.w.queue[NameOf(m)] == m) ||
      (m.version in t.w.db.versions && t.w.db.versions[m.version].inode == m.inode &&
       t.w.db.versions[m.version].hash == m.hash && t.w.db.versions[m.version].size == m.size)
  {
    InitialInv(digest);
    RunKeeps(digest, Initial, before, s);
    RunKeeps(digest, s, after, t);
    HistoryGrows(digest, s, after, t);
    assert Made(t.w, m);
    assert m.version in t.w.db.versions ==> RowOf(t.w, m, t.w.db.versions[m.version]);
  }

  /** In every reachable state each inode's versions are numbered 1..n, each
      version's parent is its predecessor, and the inode shows the last one. */
  lemma VersionChain(digest: Bytes -> Hash, steps: seq<Step>, t: State, i: Uuid, k: nat)
    requires Run(digest, Initial, steps, t) && i in t.w.db.inodes
    ensures (exists v :: Numbered(t.w.db, i, k, v)) <==> 1 <= k <= MaxNumber(t.w.db, i)
    ensures forall v, u :: Numbered(t.w.db, i, k, v) && Numbered(t.w.db, i, k, u) ==> v == u
    ensures forall v :: Numbered(t.w.db, i, k, v) ==> ParentIsPrevious(t.w.db, v)
    ensures ShowsLatest(t.w.db, i)
  {
    InitialInv(digest);
    RunKeeps(digest, Initial, steps, t);
    VersionNumbersAreOneToN(t.w.db, i, k);
  }

  /** However many consumers race over one marker, its version is reported as
      freshly inserted at most once in any run. */
  lemma AtMostOneFreshInsert(digest: Bytes -> Hash, steps: seq<Step>, t: State, j: nat, k: nat)
    requires Run(digest, Initial, steps, t) && j < |t.w.newly| && k < |t.w.newly| && t.w.newly[j] == t.w.newly[k]
    ensures j == k
  {
    InitialInv(digest);
    RunKeeps(digest, Initial, steps, t);
  }

  predicate Absent(w: World, m: Marker) {
    m in w.acked && forall n :: n in w.queue ==> w.queue[n] != m
  }

  lemma {:induction false} RunKeepsAbsent(digest: Bytes -> Hash, s: State, steps: seq<Step>, t: State, m: Marker)
    requires Inv(digest, s) && Run(digest, s, steps, t) && Absent(s.w, m)
    ensures Absent(t.w, m)
    decreases |steps|
  {
    if steps != [] {
      StepKeeps(digest, s, steps[0]);
      StepHistory(s, steps[0]);
      RunKeepsAbsent(digest, Apply(s, steps[0], digest), steps[1..], t, m);
    }
  }

  lemma CheckpointRemovesOwn(digest: Bytes -> Hash, s: State, c: nat)
    requires Names(s.w) && Consumers(digest, s.w, s.consumers) && Enabled(digest, s, Checkpoint(c))
    ensures Absent(Apply(s, Checkpoint(c), digest).w, s.consumers[c].m)
    ensures forall n :: n in s.w.queue && s.w.queue[n] != s.consumers[c].m ==> n in Apply(s, Checkpoint(c), digest).w.queue
  {
    assert ConsumerOk(digest, s.w, s.consumers[c]);
  }

  /** Whichever consumer checkpoints first, the marker is gone from the queue for
      good, and the loser's own checkpoint removes nobody else's. */
  lemma CheckpointIsFinal(digest: Bytes -> Hash, before: seq<Step>, s: State, c: nat, after: seq<Step>, t: State)
    requires Run(digest, Initial, before, s) && Enabled(digest, s, Checkpoint(c))
    requires Run(digest, Apply(s, Checkpoint(c), digest), after, t)
    ensures Absent(t.w, s.consumers[c].m)
    ensures forall n :: n in s.w.queue && s.w.queue[n] != s.consumers[c].m ==> n in Apply(s, Checkpoint(c), digest).w.queue
  {
    var m := s.consumers[c].m;
    InitialInv(digest);
    RunKeeps(digest, Initial, before, s);
    StepKeeps(digest, s, Checkpoint(c));
    CheckpointRemovesOwn(digest, s, c);
    RunKeepsAbsent(digest, Apply(s, Checkpoint(c), digest), after, t, m);
  }

  /** A queued marker cannot be committed exactly when it is private and its blob
      row already exists: after a crash between commit and unlink it stays queued. */
  lemma StuckExactlyWhenPrivateRowExists(digest: Bytes -> Hash, steps: seq<Step>, t: State, m: Marker)
    requires Run(digest, Initial, steps, t) && m in t.w.acked
    ensures !Settles(t, m) <==> m.blob.Some? && !m.shared && m.blob.value in t.w.db.owned
  {
    InitialInv(digest);
    RunKeeps(digest, Initial, steps, t);
    StuckIff(t.w, m);
  }

  lemma StuckIff(w: World, m: Marker)
    requires FreshIds(w) && BlobRows(w) && Made(w, m)
    ensures CommitTx(w.db, m).None? <==> m.blob.Some? && !m.shared && m.blob.value in w.db.owned
  {
    if m.blob.Some? && RowExists(w.db, m.blob.value) {
      var p := m.blob.value;
      if p in w.db.owned { assert Backed(w, p, w.db.owned[p], false); }
      else { var h :| h in w.db.dedup && w.db.dedup[h] == p; assert Backed(w, p, h, true); }
    }
  }
}
