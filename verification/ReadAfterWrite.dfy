/** What a reader resolves through the overlay and the inode row, in runs with
    one drain, no failed commit, and no scan between a rename and its publication. */
module ReadAfterWrite {
  import opened Records
  import opened Database
  import opened Pipeline
  import opened Quiescence
  import opened Fifo
  import I = Interleaving

  /** The scanner never hands over a name that `submit` has renamed into the
      queue but not yet published: enqueue and publish count as one step here. */
  predicate Calm(s: Sys, step: Step) {
    step.ScanSend? && s.r.writer.Durable? && s.r.scan != [] ==> s.r.scan[0] != NameOf(s.r.writer.m)
  }

  ghost predicate SteadyRun(digest: Bytes -> Hash, s: Sys, steps: seq<Step>, t: Sys)
    decreases |steps|
  {
    if steps == [] then s == t
    else Enabled(digest, s, steps[0]) && Calm(s, steps[0]) && Orderly(steps[0]) && SteadyRun(digest, Apply(s, steps[0], digest), steps[1..], t)
  }

  // ---- an unpublished write stays out of the drain's hands ----

  /** An unpublished marker is still queued and nobody else has its name. */
  predicate DurableSafe(s: Sys) {
    s.r.writer.Durable? ==>
      var n := NameOf(s.r.writer.m);
      n in s.b.w.queue && s.b.w.queue[n] == s.r.writer.m && n !in s.r.channel &&
      (s.r.drain.Waiting? || s.r.drain.Withdrawn? || s.r.drain.name != n)
  }

  lemma DurableKeeps(s: Sys, step: Step)
    requires I.Names(s.b.w) && Roles(s) && PastNames(s) && DurableSafe(s) && Next(s, step).Some? && Calm(s, step)
    ensures DurableSafe(Next(s, step).value)
  {
    var t := Next(s, step).value;
    if OnDisk(step) { BaseFrame(s, step); }
    else if step.Enqueue? {
      assert NameOf(s.r.writer.m) !in s.b.w.queue;
      assert t.r.drain == s.r.drain && t.r.channel == s.r.channel && t.r.writer == Durable(s.r.writer.m);
    } else {
      assert t.r.writer.Durable? ==> t.r.writer == s.r.writer;
    }
  }

  /** An unpublished write is not committed. */
  predicate Unseen(s: Sys) {
    s.r.writer.Durable? ==> s.r.writer.m.version !in s.b.w.db.versions
  }

  lemma UnseenKeeps(s: Sys, step: Step)
    requires I.FreshIds(s.b.w) && I.VersionRows(s.b.w) && I.Names(s.b.w) && Roles(s) && DurableSafe(s) && Unseen(s)
    requires Next(s, step).Some?
    ensures Unseen(Next(s, step).value)
  {
    VersionsMove(s, step);
    if step == Work(I.Transact(0)) { UnseenTransact(s); }
    else if step.Enqueue? { StagedIsUnseen(s.b.w, s.r.writer.m); }
    else {
      if step.Work? { BaseFrame(s, step); }
      assert Next(s, step).value.r.writer.Durable? ==> Next(s, step).value.r.writer == s.r.writer;
    }
  }

  lemma UnseenTransact(s: Sys)
    requires I.FreshIds(s.b.w) && I.Names(s.b.w) && Roles(s) && DurableSafe(s) && Unseen(s)
    requires Next(s, Work(I.Transact(0))).Some?
    ensures Unseen(Next(s, Work(I.Transact(0))).value)
  {
    TransactLeaves(s);
    TxAddsTop(s.b.w.db, s.b.consumers[0].m);
    if s.r.writer.Durable? {
      var m, x := s.b.consumers[0].m, s.r.writer.m;
      assert NameOf(m) == s.r.drain.name;
      assert I.Made(s.b.w, m) && I.Made(s.b.w, x);
    }
  }

  // ---- the newest write ----

  /** The newest of these writes to inode `i`. */
  function LastWrite(acks: seq<Marker>, i: Uuid): Option<Marker>
    decreases |acks|
  {
    if acks == [] then None
    else if acks[|acks| - 1].inode == i then Some(acks[|acks| - 1])
    else LastWrite(acks[..|acks| - 1], i)
  }

  lemma {:induction false} LastWriteAt(acks: seq<Marker>, i: Uuid) returns (k: nat)
    requires LastWrite(acks, i).Some?
    ensures k < |acks| && acks[k] == LastWrite(acks, i).value && acks[k].inode == i
    ensures forall j :: k < j < |acks| ==> acks[j].inode != i
    decreases |acks|
  {
    if acks[|acks| - 1].inode == i { k := |acks| - 1; }
    else { k := LastWriteAt(acks[..|acks| - 1], i); }
  }

  /** Acknowledged writes; a marker renamed but not yet published is not one. */
  function Visible(r: Ram): seq<Marker> {
    if r.writer.Durable? && r.acks != [] then r.acks[..|r.acks| - 1] else r.acks
  }

  /** `getattr` and `load_current_bytes`: the overlay entry, else the inode row. */
  function Resolved(s: Sys, i: Uuid): InodeRow
    requires i in s.b.w.db.inodes
  {
    if i in s.r.overlay then InodeRow(s.r.overlay[i].blob, s.r.overlay[i].size) else s.b.w.db.inodes[i]
  }

  /** The overlay shows the newest visible write, or that write is committed. */
  predicate Faithful(s: Sys, i: Uuid) {
    var last := LastWrite(Visible(s.r), i);
    if i in s.r.overlay then last.Some? && s.r.overlay[i] == ViewOf(last.value)
    else last.Some? ==> I.Decided(s.b.w, last.value)
  }

  ghost predicate AllFaithful(s: Sys) { forall i :: Faithful(s, i) }

  lemma LastWriteAcked(s: Sys, i: Uuid)
    requires AckIds(s.r.acks, s.b.w.acked) && LastWrite(Visible(s.r), i).Some?
    ensures LastWrite(Visible(s.r), i).value in s.b.w.acked
  {
    var k := LastWriteAt(Visible(s.r), i);
    assert Visible(s.r)[k] == s.r.acks[k];
  }

  lemma FaithfulPublish(s: Sys)
    requires LineOk(s) && AllFaithful(s) && Next(s, Publish).Some?
    ensures AllFaithful(Next(s, Publish).value)
  {
    var t := Next(s, Publish).value;
    var m := s.r.writer.m;
    assert s.r.acks == Visible(s.r) + [m] && Visible(t.r) == s.r.acks;
    forall i ensures Faithful(t, i) { assert Faithful(s, i); }
  }

  lemma FaithfulEnqueue(s: Sys)
    requires AllFaithful(s) && Next(s, Step.Enqueue).Some?
    ensures AllFaithful(Next(s, Step.Enqueue).value)
  {
    var t := Next(s, Step.Enqueue).value;
    assert Visible(t.r) == Visible(s.r);
    forall i ensures Faithful(t, i) { assert Faithful(s, i); }
  }

  /** A checkpointed marker's name is out of the queue, so an entry withdrawn by
      that name shows a committed write, never a newer one. */
  lemma WithdrawnIsDecided(s: Sys, i: Uuid)
    requires Ledger(s) && DoneDecided(s) && DoneIsGone(s) && LineOk(s) && Faithful(s, i)
    requires s.r.drain.Cleared? && s.r.drain.outcome == Done && i in s.r.overlay && s.r.overlay[i].name == s.r.drain.name
    ensures I.Decided(s.b.w, LastWrite(Visible(s.r), i).value)
  {
    var k := LastWriteAt(Visible(s.r), i);
    assert Visible(s.r)[k] == s.r.acks[k];
    assert NameOf(s.r.acks[k]) == s.r.drain.name;
    assert k < s.r.done;
  }

  lemma FaithfulWithdraw(s: Sys)
    requires Ledger(s) && DoneDecided(s) && DoneIsGone(s) && LineOk(s) && AllFaithful(s)
    requires Next(s, Step.Withdraw).Some?
    ensures AllFaithful(Next(s, Step.Withdraw).value)
  {
    var t := Next(s, Step.Withdraw).value;
    forall i ensures Faithful(t, i) {
      assert Faithful(s, i);
      if i in s.r.overlay && i !in t.r.overlay { WithdrawnIsDecided(s, i); }
    }
  }

  // ---- the restart rebuild ----

  /** Rebuilding from the suffix shows each inode's newest write of the suffix,
      and leaves out exactly the inodes the suffix does not write. */
  lemma {:induction false} RebuildLast(queue: map<Name, Marker>, acks: seq<Marker>, done: nat, top: nat, i: Uuid)
    requires done <= top <= |acks|
    requires forall t :: done <= t < top ==> NameOf(acks[t]) in queue && queue[NameOf(acks[t])] == acks[t]
    ensures forall n :: n in NamesOf(acks[..top], done) ==> n in queue
    ensures var o, last := Rebuild(queue, NamesOf(acks[..top], done)), LastWrite(acks[..top], i);
      if i in o then last.Some? && o[i] == ViewOf(last.value) else last == LastWrite(acks[..done], i)
    decreases top
  {
    var names := NamesOf(acks[..top], done);
    if top > done {
      var front := NamesOf(acks[..top - 1], done);
      RebuildLast(queue, acks, done, top - 1, i);
      assert names == front + [NameOf(acks[top - 1])] && acks[..top][..top - 1] == acks[..top - 1];
      assert Rebuild(queue, names) == Rebuild(queue, front)[acks[top - 1].inode := ViewOf(acks[top - 1])];
    } else {
      assert names == [];
    }
  }

  lemma RestartShows(queue: map<Name, Marker>, w: I.World, acks: seq<Marker>, done: nat, i: Uuid)
    requires done <= |acks| && (forall k :: 0 <= k < done ==> I.Decided(w, acks[k]))
    requires forall t :: done <= t < |acks| ==> NameOf(acks[t]) in queue && queue[NameOf(acks[t])] == acks[t]
    ensures forall n :: n in NamesOf(acks, done) ==> n in queue
    ensures var o, last := Rebuild(queue, NamesOf(acks, done)), LastWrite(acks, i);
      if i in o then last.Some? && o[i] == ViewOf(last.value) else last.Some? ==> I.Decided(w, last.value)
  {
    assert acks[..|acks|] == acks;
    RebuildLast(queue, acks, done, |acks|, i);
    if i !in Rebuild(queue, NamesOf(acks, done)) && LastWrite(acks, i).Some? {
      var k := LastWriteAt(acks[..done], i);
      assert acks[..done][k] == acks[k];
    }
  }

  lemma FaithfulBase(digest: Bytes -> Hash, s: Sys, step: Step)
    requires I.Inv(digest, s.b) && Roles(s) && AckIds(s.r.acks, s.b.w.acked) && AllFaithful(s) && Enabled(digest, s, step) && OnDisk(step)
    ensures AllFaithful(Apply(s, step, digest))
  {
    var t := Apply(s, step, digest);
    BaseFrame(s, step);
    DecidedMoves(digest, s, step);
    forall i ensures Faithful(t, i) {
      assert Faithful(s, i);
      if LastWrite(Visible(s.r), i).Some? {
        LastWriteAcked(s, i);
        var m := LastWrite(Visible(s.r), i).value;
        assert I.Made(s.b.w, m) && s.b.w.made[m.version] == m;
      }
    }
  }

  lemma FaithfulRestart(s: Sys, step: Step)
    requires Ledger(s) && DoneDecided(s) && Next(s, step).Some? && step.Restart?
    ensures AllFaithful(Next(s, step).value)
  {
    var t := Next(s, step).value;
    ListedIsSuffix(s.b.w.queue, s.r.acks, s.r.done, Top(s), step.names);
    assert Visible(t.r) == s.r.acks && t.b.w.db == s.b.w.db;
    forall i ensures Faithful(t, i) { RestartShows(s.b.w.queue, s.b.w, s.r.acks, s.r.done, i); }
  }

  lemma FaithfulKeeps(digest: Bytes -> Hash, s: Sys, step: Step)
    requires FifoInv(digest, s) && DoneIsGone(s) && AllFaithful(s) && Enabled(digest, s, step)
    ensures AllFaithful(Apply(s, step, digest))
  {
    if OnDisk(step) { FaithfulBase(digest, s, step); }
    else if step.Publish? { FaithfulPublish(s); }
    else if step.Enqueue? { FaithfulEnqueue(s); }
    else if step.Withdraw? { FaithfulWithdraw(s); }
    else if step.Restart? { FaithfulRestart(s, step); }
    else { FaithfulRest(s, step); }
  }

  lemma FaithfulRest(s: Sys, step: Step)
    requires AllFaithful(s) && Next(s, step).Some? && !OnDisk(step)
    requires !step.Publish? && !step.Enqueue? && !step.Withdraw? && !step.Restart?
    ensures AllFaithful(Next(s, step).value)
  {
    var t := Next(s, step).value;
    assert t.b.w.db == s.b.w.db && t.r.overlay == s.r.overlay && Visible(t.r) == Visible(s.r);
    forall i ensures Faithful(t, i) { assert Faithful(s, i); }
  }

  // ---- what the reconcile takes away ----

  /** The reconcile deletes a provisional copy; nothing else deletes bytes here. */
  ghost function DiscardStep(s: Sys, step: Step, gone: set<Uuid>): set<Uuid> {
    if step == Work(I.DeleteProvisional(0)) && 0 in s.b.consumers && s.b.consumers[0].m.blob.Some?
    then gone + {s.b.consumers[0].m.blob.value} else gone
  }

  /** The blobs whose bytes the drain has deleted in this run, crashes included. */
  ghost function Discards(digest: Bytes -> Hash, s: Sys, steps: seq<Step>, gone: set<Uuid>): set<Uuid>
    decreases |steps|
  {
    if steps == [] || !Enabled(digest, s, steps[0]) then gone
    else Discards(digest, Apply(s, steps[0], digest), steps[1..], DiscardStep(s, steps[0], gone))
  }

  /** The canonical blob of the marker in hand is still canonical, so its bytes
      are stored and the reconcile has nothing to heal. */
  predicate HandCanonical(s: Sys) {
    0 in s.b.consumers ==>
      var p := s.b.consumers[0];
      !p.Missing? && !p.Holding? && (p.Settled? && p.redundant ==> p.canonical in s.b.w.db.dedup.Values)
  }

  lemma HandCanonicalWork(s: Sys, x: I.Step)
    requires I.BlobRows(s.b.w) && HandCanonical(s) && Next(s, Work(x)).Some?
    ensures HandCanonical(Next(s, Work(x)).value)
  {
    if x == I.Transact(0) { TxShape(s.b.w.db, s.b.consumers[0].m); }
  }

  lemma HandCanonicalRest(s: Sys, step: Step)
    requires Roles(s) && HandCanonical(s) && Next(s, step).Some? && !step.Work? && 0 in Next(s, step).value.b.consumers
    ensures HandCanonical(Next(s, step).value)
  { }

  /** Exactly the discarded blobs have lost their bytes, and no row names them. */
  predicate BytesExact(w: I.World, gone: set<Uuid>) {
    (forall b :: b in w.madeFor ==> (b in gone <==> b !in w.store)) && forall b :: b in gone ==> I.Retired(w, b)
  }

  lemma BytesFrame(w: I.World, t: I.World, gone: set<Uuid>)
    requires I.FreshIds(w) && BytesExact(w, gone) && I.DecidedStay(w, t) && I.RetiredStay(w, t)
    requires t.store == w.store && t.madeFor == w.madeFor
    ensures BytesExact(t, gone)
  {
    forall b | b in gone ensures I.Retired(t, b) { I.RetiredStays(w, t, b); }
  }

  lemma BytesDelete(w: I.World, m: Marker, gone: set<Uuid>)
    requires BytesExact(w, gone) && I.Discardable(w, m)
    ensures BytesExact(w.(store := w.store - {m.blob.value}), gone + {m.blob.value})
  { }

  lemma HandHeld(digest: Bytes -> Hash, s: Sys)
    requires I.Inv(digest, s.b) && 0 in s.b.consumers
    ensures I.Made(s.b.w, s.b.consumers[0].m) && s.b.consumers[0].m in s.b.w.acked
    ensures s.b.consumers[0].Confirmed? ==> I.Discardable(s.b.w, s.b.consumers[0].m)
  {
    assert I.ConsumerOk(digest, s.b.w, s.b.consumers[0]);
  }

  lemma BytesPrepare(s: Sys, m: Marker, data: Bytes, gone: set<Uuid>)
    requires BytesExact(s.b.w, gone) && m.version !in s.b.w.made && (m.blob.Some? ==> m.blob.value !in s.b.w.madeFor)
    ensures BytesExact(I.Staged(s.b.w, m, data), gone)
  {
    forall b | b in gone ensures b in s.b.w.madeFor && I.Retired(s.b.w, b) { }
  }

  ghost predicate WorldMoves(w: I.World, t: I.World, m: Marker, x: I.Step) {
    if x == I.Transact(0) then CommitTx(w.db, m).Some? && t == I.Transacted(w, m, CommitTx(w.db, m).value)
    else if x == I.DeleteProvisional(0) then m.blob.Some? && t == w.(store := w.store - {m.blob.value})
    else t == w
  }

  /** What each of the drain's inner steps does to disk and database. */
  lemma WorkWorld(s: Sys, x: I.Step)
    requires HandCanonical(s) && Next(s, Work(x)).Some? && 0 in s.b.consumers
    ensures WorldMoves(s.b.w, Next(s, Work(x)).value.b.w, s.b.consumers[0].m, x)
    ensures x == I.DeleteProvisional(0) ==> s.b.consumers[0].Confirmed?
  { }

  lemma BytesMove(w: I.World, t: I.World, m: Marker, x: I.Step, gone: set<Uuid>)
    requires I.FreshIds(w) && I.Names(w) && I.Survives(w) && BytesExact(w, gone) && I.Made(w, m) && m in w.acked
    requires WorldMoves(w, t, m, x) && (x == I.DeleteProvisional(0) ==> I.Discardable(w, m))
    ensures BytesExact(t, if x == I.DeleteProvisional(0) then gone + {m.blob.value} else gone)
  {
    if x == I.Transact(0) {
      TxShape(w.db, m);
    } else if x == I.DeleteProvisional(0) {
      BytesDelete(w, m, gone);
    }
  }

  lemma BytesInode(digest: Bytes -> Hash, s: Sys, step: Step, gone: set<Uuid>)
    requires I.Inv(digest, s.b) && Roles(s) && BytesExact(s.b.w, gone) && Enabled(digest, s, step) && (step.CreateInode? || step.DropInode?)
    ensures BytesExact(Apply(s, step, digest).b.w, gone)
  {
    if step.CreateInode? { I.CreateKeeps(digest, s.b.w, step.i); } else { I.DropKeeps(digest, s.b.w, step.i); }
    BytesFrame(s.b.w, Apply(s, step, digest).b.w, gone);
  }

  lemma BytesRest(s: Sys, step: Step, gone: set<Uuid>)
    requires BytesExact(s.b.w, gone) && Next(s, step).Some? && !OnDisk(step) && !step.Prepare?
    ensures BytesExact(Next(s, step).value.b.w, gone)
  {
    DiskFrame(s, step);
  }

  lemma BytesKeep(digest: Bytes -> Hash, s: Sys, step: Step, gone: set<Uuid>)
    requires I.Inv(digest, s.b) && Roles(s) && HandCanonical(s) && BytesExact(s.b.w, gone) && Enabled(digest, s, step)
    ensures BytesExact(Apply(s, step, digest).b.w, DiscardStep(s, step, gone))
  {
    if step.Work? {
      HandHeld(digest, s);
      WorkWorld(s, step.x);
      BytesMove(s.b.w, Apply(s, step, digest).b.w, s.b.consumers[0].m, step.x, gone);
    } else if step.CreateInode? || step.DropInode? { BytesInode(digest, s, step, gone); }
    else if step.Prepare? { BytesPrepare(s, step.m, step.data, gone); }
    else { BytesRest(s, step, gone); }
  }

  // ---- together ----

  ghost predicate ViewInv(digest: Bytes -> Hash, s: Sys) {
    && FifoInv(digest, s) && DoneIsGone(s) && WriterQueued(s) && DurableSafe(s) && Unseen(s)
    && HandCanonical(s) && AllFaithful(s)
  }

  lemma {:induction false} ViewRun(digest: Bytes -> Hash, s: Sys, steps: seq<Step>, t: Sys, gone: set<Uuid>)
    requires ViewInv(digest, s) && BytesExact(s.b.w, gone) && SteadyRun(digest, s, steps, t)
    ensures ViewInv(digest, t) && BytesExact(t.b.w, Discards(digest, s, steps, gone))
    decreases |steps|
  {
    if steps != [] {
      BytesKeep(digest, s, steps[0], gone);
      assert ViewInv(digest, Apply(s, steps[0], digest)) by {
        FifoStepKeeps(digest, s, steps[0]);
        DoneKept(s, steps[0]);
        WriterKept(s, steps[0]);
        DurableKeeps(s, steps[0]);
        UnseenKeeps(s, steps[0]);
        assert HandCanonical(Next(s, steps[0]).value) by {
          if steps[0].Work? { HandCanonicalWork(s, steps[0].x); }
          else if 0 in Next(s, steps[0]).value.b.consumers { HandCanonicalRest(s, steps[0]); }
        }
        FaithfulKeeps(digest, s, steps[0]);
      }
      ViewRun(digest, Apply(s, steps[0], digest), steps[1..], t, DiscardStep(s, steps[0], gone));
    }
  }

  // ---- what a reader gets ----

  /** A committed newest write is the version its inode row shows. */
  lemma LastCommittedIsLatest(s: Sys, i: Uuid)
    requires I.FreshIds(s.b.w) && I.VersionRows(s.b.w) && Chained(s.b.w.db) && AckIds(s.r.acks, s.b.w.acked) && LineOk(s)
    requires Unseen(s) && NumbersFollow(s.b.w.db.versions, s.r.acks)
    requires i in s.b.w.db.inodes && LastWrite(Visible(s.r), i).Some?
    requires I.Decided(s.b.w, LastWrite(Visible(s.r), i).value)
    ensures Latest(s.b.w.db, i) == Some(LastWrite(Visible(s.r), i).value.version)
  {
    var db := s.b.w.db;
    var k := LastWriteAt(Visible(s.r), i);
    assert forall j :: 0 <= j < |Visible(s.r)| ==> Visible(s.r)[j] == s.r.acks[j];
    LastCommittedRow(s, i, k);
    LatestIs(db, i, s.r.acks[k].version);
  }

  lemma LastCommittedRow(s: Sys, i: Uuid, k: nat)
    requires I.FreshIds(s.b.w) && I.VersionRows(s.b.w) && AckIds(s.r.acks, s.b.w.acked) && LineOk(s)
    requires Unseen(s) && NumbersFollow(s.b.w.db.versions, s.r.acks)
    requires k < |s.r.acks| && s.r.acks[k].inode == i && s.r.acks[k].version in s.b.w.db.versions
    requires forall j :: k < j < |Visible(s.r)| ==> s.r.acks[j].inode != i
    ensures IsLatest(s.b.w.db, i, s.r.acks[k].version)
  {
    RowsMatchAcks(s.b.w, s.r.acks);
    forall u | u in s.b.w.db.versions && s.b.w.db.versions[u].inode == i
      ensures s.b.w.db.versions[u].number <= s.b.w.db.versions[s.r.acks[k].version].number
    { }
  }

  /** The content of write `m` is stored under the blob its version row names,
      which is not the one the marker named. */
  predicate Elsewhere(digest: Bytes -> Hash, w: I.World, m: Marker) {
    m.shared && m.version in w.db.versions &&
    var b := w.db.versions[m.version].blob;
    b.Some? && b != m.blob && b.value in w.store && digest(w.store[b.value]) == m.hash
  }

  /** A reader of `i` resolves write `m`: its size, and its content whenever bytes
      are found. Bytes are missing exactly while an entry still names a blob the
      drain has deleted, and then the content is stored elsewhere. */
  predicate Served(digest: Bytes -> Hash, s: Sys, i: Uuid, m: Marker, gone: set<Uuid>)
    requires i in s.b.w.db.inodes
  {
    var shown := Resolved(s, i);
    && shown.size == m.size
    && (shown.blob.Some? <==> m.blob.Some?)
    && (shown.blob.Some? ==>
          var b := shown.blob.value;
          (b in s.b.w.store ==> digest(s.b.w.store[b]) == m.hash) &&
          (b !in s.b.w.store <==> i in s.r.overlay && b in gone) &&
          (b !in s.b.w.store ==> m.blob == Some(b) && Elsewhere(digest, s.b.w, m)))
  }

  lemma ServedByOverlay(digest: Bytes -> Hash, s: Sys, i: Uuid, gone: set<Uuid>)
    requires I.WorldInv(digest, s.b.w) && AckIds(s.r.acks, s.b.w.acked) && BytesExact(s.b.w, gone)
    requires Faithful(s, i) && i in s.b.w.db.inodes && i in s.r.overlay
    ensures Served(digest, s, i, LastWrite(Visible(s.r), i).value, gone)
  {
    LastWriteAcked(s, i);
    var m := LastWrite(Visible(s.r), i).value;
    var k := LastWriteAt(Visible(s.r), i);
    assert I.Made(s.b.w, m);
  }

  lemma ServedByRow(digest: Bytes -> Hash, s: Sys, i: Uuid, gone: set<Uuid>)
    requires I.WorldInv(digest, s.b.w) && AckIds(s.r.acks, s.b.w.acked)
    requires i in s.b.w.db.inodes && i !in s.r.overlay && LastWrite(Visible(s.r), i).Some?
    requires Latest(s.b.w.db, i) == Some(LastWrite(Visible(s.r), i).value.version)
    ensures Served(digest, s, i, LastWrite(Visible(s.r), i).value, gone)
  {
    LastWriteAcked(s, i);
    var m := LastWrite(Visible(s.r), i).value;
    assert I.Made(s.b.w, m) && ShowsLatest(s.b.w.db, i);
    assert I.RowOf(s.b.w, m, s.b.w.db.versions[m.version]);
    if m.blob.Some? { I.VersionHasBytes(digest, s.b.w, m.version); }
  }

  /** Read-after-write: with the drain as only consumer and no failed commit, in
      every reachable state and across restarts, what a reader resolves for a
      live inode is its last acknowledged write: the size, and the content if any
      bytes are found. Bytes are missing if and only if the drain has deleted the
      provisional copy, at any time before or after a restart, and the overlay
      still names it; the content is then stored under the canonical blob. */
  lemma ReadersSeeTheLastWrite(digest: Bytes -> Hash, limit: nat, inodes: set<Uuid>, steps: seq<Step>, t: Sys, i: Uuid)
    requires SteadyRun(digest, Begin(limit, inodes), steps, t)
    requires i in t.b.w.db.inodes && LastWrite(Visible(t.r), i).Some?
    ensures Served(digest, t, i, LastWrite(Visible(t.r), i).value, Discards(digest, Begin(limit, inodes), steps, {}))
    ensures i in t.r.overlay ==> t.r.overlay[i] == ViewOf(LastWrite(Visible(t.r), i).value)
    ensures i !in t.r.overlay ==> Latest(t.b.w.db, i) == Some(LastWrite(Visible(t.r), i).value.version)
  {
    assert ViewInv(digest, Begin(limit, inodes)) && BytesExact(Begin(limit, inodes).b.w, {}) by {
      BeginFifo(digest, limit, inodes);
      var s := Begin(limit, inodes);
      forall j ensures Faithful(s, j) { }
    }
    ViewRun(digest, Begin(limit, inodes), steps, t, {});
    assert Faithful(t, i);
    var gone := Discards(digest, Begin(limit, inodes), steps, {});
    if i in t.r.overlay { ServedByOverlay(digest, t, i, gone); }
    else { LastCommittedIsLatest(t, i); ServedByRow(digest, t, i, gone); }
  }
}
