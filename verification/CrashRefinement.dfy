/** Crashes between rename, transaction, reconcile and unlink, any number of
    them, leave the database one crash-free pass would have produced. */
module CrashRefinement {
  import opened Records
  import opened Database
  import opened Pipeline
  import opened Quiescence
  import opened Fifo
  import opened ReadAfterWrite
  import I = Interleaving

  ghost function CommitOne(db: Db, m: Marker): Db {
    match CommitTx(db, m)
    case None => db
    case Some(r) => r.db
  }

  /** One pass over the markers, in order, with nothing going wrong. */
  ghost function CommitAll(db: Db, ms: seq<Marker>): Db
    decreases |ms|
  {
    if ms == [] then db else CommitOne(CommitAll(db, ms[..|ms| - 1]), ms[|ms| - 1])
  }

  /** Orderly steps that leave the inode set alone. */
  predicate FixedInodes(step: Step) { Orderly(step) && !step.CreateInode? && !step.DropInode? }

  ghost predicate FixedRun(digest: Bytes -> Hash, s: Sys, steps: seq<Step>, t: Sys)
    decreases |steps|
  {
    if steps == [] then s == t
    else Enabled(digest, s, steps[0]) && FixedInodes(steps[0]) && FixedRun(digest, Apply(s, steps[0], digest), steps[1..], t)
  }

  /** How many acknowledged writes are committed: those checkpointed, and the
      oldest queued one if a crash or the drain is between its two halves. */
  function Committed(s: Sys): (k: nat)
    requires s.r.done <= |s.r.acks|
    ensures k <= |s.r.acks|
  {
    if s.r.done < |s.r.acks| && s.r.acks[s.r.done].version in s.b.w.db.versions then s.r.done + 1 else s.r.done
  }

  ghost predicate Refines(db0: Db, s: Sys) {
    s.b.w.known <= s.b.w.db.inodes.Keys && s.r.done <= |s.r.acks| && s.b.w.db == CommitAll(db0, s.r.acks[..Committed(s)])
  }

  /** Committing the oldest queued write extends the pass by it, or is a replay. */
  lemma CommitExtends(db0: Db, db: Db, acks: seq<Marker>, done: nat)
    requires done < |acks| && acks[done].inode in db.inodes && CommitTx(db, acks[done]).Some?
    requires db == CommitAll(db0, if acks[done].version in db.versions then acks[..done + 1] else acks[..done])
    ensures var r := CommitTx(db, acks[done]).value;
      r.db == CommitAll(db0, acks[..done + 1]) && acks[done].version in r.db.versions && r.db.inodes.Keys == db.inodes.Keys
  {
    TxShape(db, acks[done]);
    assert acks[..done + 1][..done] == acks[..done];
  }

  lemma CheckpointRefines(db0: Db, s: Sys)
    requires I.FreshIds(s.b.w) && Roles(s) && AckIds(s.r.acks, s.b.w.acked) && NotYet(s) && Refines(db0, s)
    requires s.r.drain.Working? && s.r.done < |s.r.acks| && s.b.consumers[0].m == s.r.acks[s.r.done]
    requires I.Decided(s.b.w, s.b.consumers[0].m) && Next(s, Step.Checkpoint).Some?
    ensures Refines(db0, Next(s, Step.Checkpoint).value)
  {
    var t := Next(s, Step.Checkpoint).value;
    assert s.r.acks[s.r.done] in s.b.w.acked;
    assert t.b.w.db == s.b.w.db && t.r.acks == s.r.acks && t.r.done == s.r.done + 1;
    assert Committed(s) == Committed(t);
  }

  lemma EnqueueRefines(db0: Db, s: Sys)
    requires I.FreshIds(s.b.w) && I.VersionRows(s.b.w) && Roles(s) && Refines(db0, s) && Next(s, Step.Enqueue).Some?
    ensures Refines(db0, Next(s, Step.Enqueue).value)
  {
    var t := Next(s, Step.Enqueue).value;
    StagedIsUnseen(s.b.w, s.r.writer.m);
    assert t.b.w.db == s.b.w.db && t.b.w.known == s.b.w.known && t.r.done == s.r.done && t.r.acks == s.r.acks + [s.r.writer.m];
    assert Committed(t) == Committed(s);
    assert t.r.acks[..Committed(s)] == s.r.acks[..Committed(s)];
  }

  lemma RestRefines(db0: Db, s: Sys, step: Step)
    requires Refines(db0, s) && Next(s, step).Some? && FixedInodes(step)
    requires step != Work(I.Transact(0)) && !step.Checkpoint? && !step.Enqueue?
    ensures Refines(db0, Next(s, step).value)
  {
    var t := Next(s, step).value;
    if OnDisk(step) { BaseFrame(s, step); } else { DiskFrame(s, step); }
    RamFrame(s, step);
    assert t.b.w.db == s.b.w.db && t.b.w.known == s.b.w.known && t.r.acks == s.r.acks && t.r.done == s.r.done;
  }

  lemma WorkingHolds(digest: Bytes -> Hash, s: Sys)
    requires FifoInv(digest, s) && s.r.drain.Working?
    ensures s.r.done < |s.r.acks| && s.b.consumers[0].m == s.r.acks[s.r.done]
    ensures s.b.consumers[0].Loaded? || I.Decided(s.b.w, s.b.consumers[0].m)
  {
    HandIsOldest(s);
    HandMarker(s);
    assert I.ConsumerOk(digest, s.b.w, s.b.consumers[0]);
  }

  lemma WorkingRefines(db0: Db, s: Sys, step: Step)
    requires I.FreshIds(s.b.w) && Roles(s) && AckIds(s.r.acks, s.b.w.acked) && NotYet(s) && Refines(db0, s)
    requires s.r.drain.Working? && s.r.done < |s.r.acks| && s.b.consumers[0].m == s.r.acks[s.r.done]
    requires s.b.consumers[0].Loaded? || I.Decided(s.b.w, s.b.consumers[0].m)
    requires Next(s, step).Some? && (step == Work(I.Transact(0)) || step == Step.Checkpoint)
    ensures Refines(db0, Next(s, step).value)
  {
    if step.Checkpoint? { CheckpointRefines(db0, s); } else { TransactRefines(db0, s); }
  }

  lemma TransactRefines(db0: Db, s: Sys)
    requires I.FreshIds(s.b.w) && AckIds(s.r.acks, s.b.w.acked) && NotYet(s) && Refines(db0, s)
    requires s.r.done < |s.r.acks| && 0 in s.b.consumers && s.b.consumers[0].m == s.r.acks[s.r.done]
    requires Next(s, Work(I.Transact(0))).Some?
    ensures Refines(db0, Next(s, Work(I.Transact(0))).value)
  {
    var m, t := s.r.acks[s.r.done], Next(s, Work(I.Transact(0))).value;
    TransactLeaves(s);
    assert t.r == s.r && t.b.w.db == CommitTx(s.b.w.db, m).value.db && t.b.w.known == s.b.w.known;
    OldestCommits(db0, s);
    assert Committed(t) == s.r.done + 1;
  }

  lemma OldestCommits(db0: Db, s: Sys)
    requires I.FreshIds(s.b.w) && AckIds(s.r.acks, s.b.w.acked) && Refines(db0, s)
    requires s.r.done < |s.r.acks| && CommitTx(s.b.w.db, s.r.acks[s.r.done]).Some?
    ensures var m := s.r.acks[s.r.done];
      var r := CommitTx(s.b.w.db, m).value;
      r.db == CommitAll(db0, s.r.acks[..s.r.done + 1]) && m.version in r.db.versions && r.db.inodes.Keys == s.b.w.db.inodes.Keys
  {
    assert s.r.acks[s.r.done] in s.b.w.acked;
    CommitExtends(db0, s.b.w.db, s.r.acks, s.r.done);
  }

  lemma StepRefines(digest: Bytes -> Hash, db0: Db, s: Sys, step: Step)
    requires FifoInv(digest, s) && Refines(db0, s) && Enabled(digest, s, step) && FixedInodes(step)
    ensures Refines(db0, Apply(s, step, digest))
  {
    if step == Work(I.Transact(0)) || step.Checkpoint? { DrainRefines(digest, db0, s, step); }
    else if step.Enqueue? { EnqueueRefines(db0, s); }
    else { RestRefines(db0, s, step); }
  }

  lemma DrainRefines(digest: Bytes -> Hash, db0: Db, s: Sys, step: Step)
    requires FifoInv(digest, s) && Refines(db0, s) && Next(s, step).Some?
    requires step == Work(I.Transact(0)) || step == Step.Checkpoint
    ensures Refines(db0, Next(s, step).value)
  {
    if step.Work? { TransactLeaves(s); } else { CheckpointLeaves(s); }
    WorkingHolds(digest, s);
    WorkingRefines(db0, s, step);
  }

  lemma {:induction false} RunRefines(digest: Bytes -> Hash, db0: Db, s: Sys, steps: seq<Step>, t: Sys)
    requires FifoInv(digest, s) && Refines(db0, s) && FixedRun(digest, s, steps, t)
    ensures FifoInv(digest, t) && Refines(db0, t)
    decreases |steps|
  {
    if steps != [] {
      StepRefines(digest, db0, s, steps[0]);
      FifoStepKeeps(digest, s, steps[0]);
      RunRefines(digest, db0, Apply(s, steps[0], digest), steps[1..], t);
    }
  }

  lemma EmptyMeansAllDone(queue: map<Name, Marker>, acks: seq<Marker>, done: nat)
    requires Suffix(queue, acks, done) && queue == map[]
    ensures done == |acks|
  {
    var n := if done < |acks| then NameOf(acks[done]) else Name(0, "");
    assert done < |acks| ==> n in queue;
  }

  /** With a fixed inode set and no failed commit, whatever crashes and restarts
      a run contains, inodes, version rows and blob rows are at all times those
      of one crash-free pass over a prefix of the acknowledged writes: all that
      are checkpointed, and at most one more. Once the queue is empty they are
      those of the whole pass. */
  lemma CrashesLeaveWhatOnePassWould(digest: Bytes -> Hash, limit: nat, inodes: set<Uuid>, steps: seq<Step>, t: Sys)
    requires FixedRun(digest, Begin(limit, inodes), steps, t)
    ensures t.r.done <= |t.r.acks| && t.r.done <= Committed(t) <= t.r.done + 1
    ensures t.b.w.db == CommitAll(Begin(limit, inodes).b.w.db, t.r.acks[..Committed(t)])
    ensures t.b.w.queue == map[] ==> t.b.w.db == CommitAll(Begin(limit, inodes).b.w.db, t.r.acks)
  {
    BeginFifo(digest, limit, inodes);
    RunRefines(digest, Begin(limit, inodes).b.w.db, Begin(limit, inodes), steps, t);
    if t.b.w.queue == map[] {
      EmptyMeansAllDone(t.b.w.queue, t.r.acks, t.r.done);
      assert t.r.acks[..|t.r.acks|] == t.r.acks;
    }
  }

  // ---- which write a pass leaves on top ----

  /** Every marker is for a live inode, has a version id of its own that is not
      in the table yet, and its blob can be inserted when its turn comes. */
  ghost predicate Committable(db: Db, ms: seq<Marker>) {
    && (forall t :: 0 <= t < |ms| ==> ms[t].inode in db.inodes && ms[t].version !in db.versions)
    && (forall t, u :: 0 <= t < u < |ms| ==> ms[t].version != ms[u].version)
    && (forall t :: 0 <= t < |ms| ==> CommitTx(CommitAll(db, ms[..t]), ms[t]).Some?)
  }

  /** After a pass, in whatever order, each inode shows the write that was
      committed last. So a failed commit retried after its successors brings the
      older content back: order of commit, not of acknowledgement, decides. */
  lemma {:induction false} LastCommittedIsCurrent(db: Db, ms: seq<Marker>, i: Uuid)
    requires Chained(db) && Committable(db, ms)
    ensures Chained(CommitAll(db, ms)) && CommitAll(db, ms).inodes.Keys == db.inodes.Keys
    ensures Latest(CommitAll(db, ms), i) ==
      if LastWrite(ms, i).Some? then Some(LastWrite(ms, i).value.version) else Latest(db, i)
    decreases |ms|
  {
    if ms != [] {
      var front, m := ms[..|ms| - 1], ms[|ms| - 1];
      assert Committable(db, ms[..|ms| - 1]) by {
        var front := ms[..|ms| - 1];
        forall t | 0 <= t < |front| ensures CommitTx(CommitAll(db, front[..t]), front[t]).Some? {
          assert front[..t] == ms[..t] && front[t] == ms[t];
        }
      }
      LastCommittedIsCurrent(db, front, i);
      CommitAllAddsOnly(db, front, m.version);
      ChainedTx(CommitAll(db, front), m);
      TxOnTop(CommitAll(db, front), m, i);
    }
  }

  lemma {:induction false} CommitAllAddsOnly(db: Db, ms: seq<Marker>, v: Uuid)
    requires v !in db.versions && forall t :: 0 <= t < |ms| ==> ms[t].version != v
    ensures v !in CommitAll(db, ms).versions
    decreases |ms|
  {
    if ms != [] {
      var front, m := ms[..|ms| - 1], ms[|ms| - 1];
      CommitAllAddsOnly(db, front, v);
      if CommitTx(CommitAll(db, front), m).Some? { TxShape(CommitAll(db, front), m); }
    }
  }

  lemma TxOnTop(db: Db, m: Marker, i: Uuid)
    requires Chained(db) && m.inode in db.inodes && m.version !in db.versions && CommitTx(db, m).Some?
    ensures var r := CommitTx(db, m).value;
      r.inserted && r.db.inodes.Keys == db.inodes.Keys && r.db.versions.Keys == db.versions.Keys + {m.version} &&
      Latest(r.db, i) == if m.inode == i then Some(m.version) else Latest(db, i)
  {
    TxShape(db, m);
    ChainedTx(db, m);
    TxAddsTop(db, m);
    var db' := CommitTx(db, m).value.db;
    if m.inode == i {
      assert IsLatest(db', i, m.version);
      LatestIs(db', i, m.version);
    } else {
      LatestFrame(db, db', i);
    }
  }

  /** Two writes to one inode: when the first one's commit fails and a later scan
      retries it, the inode ends on the first write; committed in the order they
      were acknowledged, it ends on the second. */
  lemma RetryAfterSuccessorRevertsTheFile(db: Db, first: Marker, second: Marker)
    requires Chained(db) && first.inode == second.inode
    requires Committable(db, [first, second]) && Committable(db, [second, first])
    ensures Latest(CommitAll(db, [first, second]), first.inode) == Some(second.version)
    ensures Latest(CommitAll(db, [second, first]), first.inode) == Some(first.version)
    ensures first.version != second.version
  {
    LastCommittedIsCurrent(db, [first, second], first.inode);
    LastCommittedIsCurrent(db, [second, first], first.inode);
  }
}
