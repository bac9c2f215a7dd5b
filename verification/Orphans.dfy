/** Stored bytes that nothing accounts for: where they come from, and that once
    nobody holds them they stay for good, cleaner or no cleaner. */
module Orphans {
  import opened Records
  import opened Database
  import opened Interleaving

  /** No row names `b`, no queued marker does, and no writer is about to. */
  predicate Unclaimed(w: World, b: Uuid) {
    !RowExists(w.db, b) && (forall n :: n in w.queue ==> w.queue[n].blob != Some(b)) && forall m :: m in w.staged ==> m.blob != Some(b)
  }

  predicate Orphan(w: World, b: Uuid) { b in w.store && Unclaimed(w, b) }

  // ---- where orphans come from ----

  /** The blob a step lets go of: a writer is refused or the daemon dies, a marker
      leaves the queue that has no row for its blob, a cleaner takes the row of a
      blob no queued marker names, or a heal writes under such a blob. */
  predicate LetGo(s: State, step: Step, b: Uuid) {
    match step
    case Refuse(m) => m.blob == Some(b)
    case Crash(_) => exists m :: m in s.w.staged && m.blob == Some(b)
    case Restart(_) => exists m :: m in s.w.staged && m.blob == Some(b)
    case Checkpoint(c) => c in s.consumers && s.consumers[c].m.blob == Some(b) && !RowExists(s.w.db, b)
    case CleanRow(k) =>
      k in s.cleaners && s.cleaners[k].Sweeping? && s.cleaners[k].todo != [] && s.cleaners[k].todo[0].0 == b &&
      forall n :: n in s.w.queue ==> s.w.queue[n].blob != Some(b)
    case PutCanonical(c) => c in s.consumers && s.consumers[c].Holding? && s.consumers[c].canonical == b && Unclaimed(s.w, b)
    case _ => false
  }

  /** Orphans so far: what was let go of and whose bytes are still stored. */
  ghost predicate Abandoned(digest: Bytes -> Hash, s: State, steps: seq<Step>, b: Uuid, before: bool)
    decreases |steps|
  {
    if steps == [] || !Enabled(digest, s, steps[0]) then before
    else
      var t := Apply(s, steps[0], digest);
      Abandoned(digest, t, steps[1..], b, b in t.w.store && (before || LetGo(s, steps[0], b)))
  }

  /** What leaves bytes, writers and their markers alone. */
  lemma BytesFrame(s: State, step: Step)
    requires Next(s, step).Some?
    ensures var w, w' := s.w, Next(s, step).value.w;
      (!step.Stage? && !step.PutCanonical? && !step.DeleteProvisional? && !step.CleanBytes? && !step.UnlinkBytes? ==> w'.store == w.store) &&
      (!step.Stage? && !step.Refuse? && !step.Enqueue? && !step.Crash? && !step.Restart? ==> w'.staged == w.staged)
  { }

  predicate ByWriter(step: Step) { step.Stage? || step.Refuse? || step.Enqueue? || step.Crash? || step.Restart? }

  lemma StageLetsGo(s: State, m: Marker, data: Bytes, b: Uuid)
    requires Next(s, Stage(m, data)).Some?
    ensures var t := Next(s, Stage(m, data)).value; Orphan(t.w, b) <==> b in t.w.store && Orphan(s.w, b)
  {
    var t := Next(s, Stage(m, data)).value.w;
    assert t == Staged(s.w, m, data) && Stageable(s.w, m, data);
    assert m in t.staged;
  }

  lemma EnqueueLetsGo(s: State, m: Marker, b: Uuid)
    requires Names(s.w) && Next(s, Enqueue(m)).Some?
    ensures var t := Next(s, Enqueue(m)).value; Orphan(t.w, b) <==> b in t.w.store && Orphan(s.w, b)
  {
    var t := Next(s, Enqueue(m)).value.w;
    assert t == Enqueued(s.w, m) && NameOf(m) !in s.w.queue && m in s.w.staged;
    assert forall n :: n in s.w.queue ==> n in t.queue && t.queue[n] == s.w.queue[n];
    assert t.queue[NameOf(m)] == m;
  }

  lemma WriterLetsGo(s: State, step: Step, b: Uuid)
    requires FreshIds(s.w) && BlobRows(s.w) && Names(s.w) && Next(s, step).Some? && (step.Refuse? || step.Crash? || step.Restart?)
    ensures var t := Next(s, step).value; Orphan(t.w, b) <==> b in t.w.store && (Orphan(s.w, b) || LetGo(s, step, b))
  {
    WorldFrame(s, step);
    BytesFrame(s, step);
    forall m | m in s.w.staged && m.blob == Some(b)
      ensures !RowExists(s.w.db, b) && (forall n :: n in s.w.queue ==> s.w.queue[n].blob != Some(b))
      ensures forall x :: x in s.w.staged && x.blob == Some(b) ==> x == m
    { StagedUnclaimed(s.w, m, b); }
  }

  /** A staged marker is the only one with its blob, and has no row. */
  lemma StagedUnclaimed(w: World, m: Marker, b: Uuid)
    requires FreshIds(w) && BlobRows(w) && Names(w) && m in w.staged && m.blob == Some(b)
    ensures !RowExists(w.db, b) && (forall n :: n in w.queue ==> w.queue[n].blob != Some(b))
    ensures forall x :: x in w.staged && x.blob == Some(b) ==> x == m
  {
    assert Made(w, m);
    assert b in w.db.owned ==> Backed(w, b, w.db.owned[b], false);
    assert forall h :: h in w.db.dedup ==> Backed(w, w.db.dedup[h], h, true);
  }

  lemma TransactLetsGo(s: State, c: nat, b: Uuid)
    requires FreshIds(s.w) && Survives(s.w) && Next(s, Transact(c)).Some? && s.consumers[c].m in s.w.acked
    ensures var t := Next(s, Transact(c)).value; Orphan(t.w, b) <==> b in t.w.store && Orphan(s.w, b)
  {
    var m := s.consumers[c].m;
    var r := CommitTx(s.w.db, m).value;
    TxShape(s.w.db, m);
    WorldFrame(s, Transact(c));
    BytesFrame(s, Transact(c));
    if r.rowInserted && r.inserted { RowAdded(s.w.db, r.db, m); }
  }

  lemma RowAdded(db: Db, db': Db, m: Marker)
    requires m.blob.Some? && (m.shared ==> m.hash !in db.dedup)
    requires db'.dedup == (if m.shared then db.dedup[m.hash := m.blob.value] else db.dedup)
    requires db'.owned == (if m.shared then db.owned else db.owned[m.blob.value := m.hash])
    ensures forall b: Uuid :: RowExists(db', b) <==> RowExists(db, b) || m.blob == Some(b)
  {
    assert m.shared ==> m.hash in db'.dedup && db'.dedup[m.hash] == m.blob.value;
    forall b | b in db.dedup.Values ensures b in db'.dedup.Values {
      var h :| h in db.dedup && db.dedup[h] == b;
      assert h in db'.dedup && db'.dedup[h] == b;
    }
  }

  lemma CheckpointLetsGo(s: State, c: nat, b: Uuid)
    requires FreshIds(s.w) && Names(s.w) && Next(s, Checkpoint(c)).Some? && Held(s.w, s.consumers[c].m)
    ensures var t := Next(s, Checkpoint(c)).value; Orphan(t.w, b) <==> b in t.w.store && (Orphan(s.w, b) || LetGo(s, Checkpoint(c), b))
  {
    var m := s.consumers[c].m;
    assert Made(s.w, m);
    var t := Next(s, Checkpoint(c)).value.w;
    assert t == s.w.(queue := s.w.queue - {NameOf(m)});
    assert forall n :: n in s.w.queue && n != NameOf(m) ==> n in t.queue && t.queue[n] == s.w.queue[n];
    forall n | n in s.w.queue && s.w.queue[n].blob == m.blob && m.blob.Some? ensures n == NameOf(m) { assert Made(s.w, s.w.queue[n]); }
    forall x | x in s.w.staged ensures x.blob != m.blob || m.blob.None? { assert Made(s.w, x); }
  }

  lemma RowLetsGo(s: State, k: nat, b: Uuid)
    requires FreshIds(s.w) && BlobRows(s.w) && Names(s.w) && Next(s, CleanRow(k)).Some?
    ensures var t := Next(s, CleanRow(k)).value; Orphan(t.w, b) <==> b in t.w.store && (Orphan(s.w, b) || LetGo(s, CleanRow(k), b))
  {
    var p := s.cleaners[k].todo[0].0;
    WorldFrame(s, CleanRow(k));
    BytesFrame(s, CleanRow(k));
    RowRemoved(s.w.db, p);
    RowIsUnstaged(s.w, p);
  }

  lemma RowIsUnstaged(w: World, b: Uuid)
    requires FreshIds(w) && BlobRows(w) && Names(w) && RowExists(w.db, b)
    ensures forall m :: m in w.staged ==> m.blob != Some(b)
  {
    if m :| m in w.staged && m.blob == Some(b) { StagedUnclaimed(w, m, b); }
  }

  lemma RowRemoved(db: Db, p: Uuid)
    ensures forall b: Uuid :: RowExists(RemoveBlobRow(db, p), b) <==> RowExists(db, b) && b != p
  {
    var db' := RemoveBlobRow(db, p);
    forall b | b in db.dedup.Values && b != p ensures b in db'.dedup.Values {
      var h :| h in db.dedup && db.dedup[h] == b;
      assert h in db'.dedup && db'.dedup[h] == b;
    }
  }

  /** A row, marker or writer for an orphan never comes back, and a blob becomes
      one exactly when it is let go of. */
  lemma OrphanStep(digest: Bytes -> Hash, s: State, step: Step, b: Uuid)
    requires Inv(digest, s) && Enabled(digest, s, step)
    ensures var t := Apply(s, step, digest); Orphan(t.w, b) <==> b in t.w.store && (Orphan(s.w, b) || LetGo(s, step, b))
  {
    if step.Stage? { StageLetsGo(s, step.m, step.data, b); }
    else if step.Enqueue? { EnqueueLetsGo(s, step.m, b); }
    else if ByWriter(step) { WriterLetsGo(s, step, b); }
    else if step.Transact? || step.Checkpoint? {
      assert ConsumerOk(digest, s.w, s.consumers[step.c]);
      if step.Transact? { TransactLetsGo(s, step.c, b); } else { CheckpointLetsGo(s, step.c, b); }
    } else if step.CleanRow? { RowLetsGo(s, step.k, b); }
    else { BytesLetGo(s, step, b); }
  }

  lemma BytesLetGo(s: State, step: Step, b: Uuid)
    requires Next(s, step).Some? && !ByWriter(step) && !step.Transact? && !step.Checkpoint? && !step.CleanRow?
    ensures var t := Next(s, step).value; Orphan(t.w, b) <==> b in t.w.store && (Orphan(s.w, b) || LetGo(s, step, b))
  {
    WorldFrame(s, step);
    BytesFrame(s, step);
  }

  lemma {:induction false} OrphansRun(digest: Bytes -> Hash, s: State, steps: seq<Step>, t: State, b: Uuid)
    requires Inv(digest, s) && Run(digest, s, steps, t)
    ensures Orphan(t.w, b) <==> Abandoned(digest, s, steps, b, Orphan(s.w, b))
    decreases |steps|
  {
    if steps != [] {
      StepKeeps(digest, s, steps[0]);
      OrphanStep(digest, s, steps[0], b);
      OrphansRun(digest, Apply(s, steps[0], digest), steps[1..], t, b);
    }
  }

  /** In every reachable state a stored blob has neither row, marker nor writer if
      and only if one of the run's steps let go of it and none has deleted it since. */
  lemma OrphansAreAbandoned(digest: Bytes -> Hash, steps: seq<Step>, t: State, b: Uuid)
    requires Run(digest, Initial, steps, t)
    ensures Orphan(t.w, b) <==> Abandoned(digest, Initial, steps, b, false)
  {
    InitialInv(digest);
    OrphansRun(digest, Initial, steps, t, b);
  }

  // ---- nobody takes them away ----

  /** An orphan no consumer, cleaner or unlink has in hand. */
  predicate Forgotten(s: State, b: Uuid) {
    && Orphan(s.w, b)
    && (forall c :: c in s.consumers ==> s.consumers[c].m.blob != Some(b))
    && (forall k :: k in s.cleaners ==> !s.cleaners[k].RowGone? || s.cleaners[k].blob != b)
    && (forall u :: u in s.unlinkers ==>
          if s.unlinkers[u].Looked? then s.unlinkers[u].blob != Some(b) else s.unlinkers[u].doomed != b)
  }

  lemma UnlinkerFrame(s: State, step: Step)
    requires Next(s, step).Some?
    ensures var us, us' := s.unlinkers, Next(s, step).value.unlinkers;
      if step.Crash? || step.Restart? then us' == map[]
      else if step.UnlinkLook? then us' == us[step.u := Looked(step.i, PrivateBlob(s.w.db, step.i))]
      else if step.UnlinkRow? then
        us' == if us[step.u].blob.Some? then us[step.u := InodeGone(us[step.u].blob.value)] else us - {step.u}
      else if step.UnlinkBytes? || step.UnlinkEnd? then us' == us - {step.u}
      else us' == us
  { }

  lemma NoConsumerTakesIt(s: State, step: Step, b: Uuid)
    requires Next(s, step).Some? && Forgotten(s, b)
    ensures var cs := Next(s, step).value.consumers; forall c :: c in cs ==> cs[c].m.blob != Some(b)
  {
    ConsumerFrame(s, step);
  }

  lemma NoCleanerTakesIt(s: State, step: Step, b: Uuid)
    requires Next(s, step).Some? && Forgotten(s, b)
    ensures var cs := Next(s, step).value.cleaners; forall k :: k in cs ==> !cs[k].RowGone? || cs[k].blob != b
  {
    CleanerFrame(s, step);
  }

  lemma BytesAreLeft(s: State, step: Step, b: Uuid)
    requires Next(s, step).Some? && Forgotten(s, b)
    ensures b in Next(s, step).value.w.store
  {
    BytesFrame(s, step);
  }

  lemma ForgottenStays(digest: Bytes -> Hash, s: State, step: Step, b: Uuid)
    requires Inv(digest, s) && Enabled(digest, s, step) && Forgotten(s, b)
    ensures Forgotten(Apply(s, step, digest), b)
  {
    BytesAreLeft(s, step, b);
    OrphanStep(digest, s, step, b);
    NoConsumerTakesIt(s, step, b);
    NoCleanerTakesIt(s, step, b);
    UnlinkerFrame(s, step);
  }

  /** The cleaner proposes rows only, so no pass ever takes such bytes: they are
      still stored, and still nobody's, after any run. */
  lemma {:induction false} ForgottenForGood(digest: Bytes -> Hash, s: State, steps: seq<Step>, t: State, b: Uuid)
    requires Inv(digest, s) && Run(digest, s, steps, t) && Forgotten(s, b)
    ensures Forgotten(t, b)
    decreases |steps|
  {
    if steps != [] {
      StepKeeps(digest, s, steps[0]);
      ForgottenStays(digest, s, steps[0], b);
      ForgottenForGood(digest, Apply(s, steps[0], digest), steps[1..], t, b);
    }
  }

  // ---- a refused submit ----

  predicate IsAcked(w: World, b: Uuid) { b in w.madeFor && w.madeFor[b] in w.acked }

  /** What cleaners and unlinks have in hand once had a row, and what writers have
      in hand is stored. */
  predicate HandsAcked(s: State) {
    && (forall m :: m in s.w.staged && m.blob.Some? ==> m.blob.value in s.w.store)
    && (forall k :: k in s.cleaners && s.cleaners[k].RowGone? ==> IsAcked(s.w, s.cleaners[k].blob))
    && (forall u :: u in s.unlinkers ==> UnlinkerAcked(s.w, s.unlinkers[u]))
  }

  lemma RowsAcked(w: World)
    requires BlobRows(w)
    ensures forall b: Uuid :: RowExists(w.db, b) ==> IsAcked(w, b)
  {
    forall b: Uuid | RowExists(w.db, b) ensures IsAcked(w, b) {
      if b in w.db.owned { assert Backed(w, b, w.db.owned[b], false); }
      else { var h :| h in w.db.dedup && w.db.dedup[h] == b; assert Backed(w, b, h, true); }
    }
  }

  lemma CleanersAcked(s: State, step: Step)
    requires BlobRows(s.w) && HandsAcked(s) && Next(s, step).Some?
    ensures var cs := Next(s, step).value.cleaners; forall k :: k in cs && cs[k].RowGone? ==> IsAcked(s.w, cs[k].blob)
  {
    RowsAcked(s.w);
    CleanerFrame(s, step);
  }

  predicate UnlinkerAcked(w: World, p: Unlinker) {
    if p.Looked? then p.blob.Some? ==> IsAcked(w, p.blob.value) else IsAcked(w, p.doomed)
  }

  lemma UnlinkersAcked(s: State, step: Step)
    requires BlobRows(s.w) && HandsAcked(s) && Next(s, step).Some?
    ensures var us := Next(s, step).value.unlinkers; forall u :: u in us ==> UnlinkerAcked(s.w, us[u])
  {
    RowsAcked(s.w);
    UnlinkerFrame(s, step);
  }

  lemma AckedStays(s: State, step: Step)
    requires Next(s, step).Some?
    ensures forall b: Uuid :: IsAcked(s.w, b) ==> IsAcked(Next(s, step).value.w, b)
  {
    WorldFrame(s, step);
    StepHistory(s, step);
  }

  lemma StagedStored(digest: Bytes -> Hash, s: State, step: Step)
    requires FreshIds(s.w) && Consumers(digest, s.w, s.consumers) && HandsAcked(s) && Next(s, step).Some?
    ensures var t := Next(s, step).value.w; forall m :: m in t.staged && m.blob.Some? ==> m.blob.value in t.store
  {
    BytesFrame(s, step);
    if step.DeleteProvisional? {
      assert ConsumerOk(digest, s.w, s.consumers[step.c]) && Made(s.w, s.consumers[step.c].m);
      StagedSpared(s.w, s.consumers[step.c].m.blob.value);
    } else if step.CleanBytes? { StagedSpared(s.w, s.cleaners[step.k].blob); }
    else if step.UnlinkBytes? { StagedSpared(s.w, s.unlinkers[step.u].doomed); }
  }

  lemma StagedSpared(w: World, b: Uuid)
    requires FreshIds(w) && IsAcked(w, b)
    ensures forall m :: m in w.staged ==> m.blob != Some(b)
  {
    forall m | m in w.staged ensures m.blob != Some(b) { assert Made(w, m); }
  }

  lemma HandsStep(digest: Bytes -> Hash, s: State, step: Step)
    requires Inv(digest, s) && HandsAcked(s) && Next(s, step).Some?
    ensures HandsAcked(Next(s, step).value)
  {
    StagedStored(digest, s, step);
    CleanersAcked(s, step);
    UnlinkersAcked(s, step);
    AckedStays(s, step);
  }

  lemma {:induction false} HandsRun(digest: Bytes -> Hash, s: State, steps: seq<Step>, t: State)
    requires Inv(digest, s) && HandsAcked(s) && Run(digest, s, steps, t)
    ensures Inv(digest, t) && HandsAcked(t)
    decreases |steps|
  {
    if steps != [] {
      StepKeeps(digest, s, steps[0]);
      HandsStep(digest, s, steps[0]);
      HandsRun(digest, Apply(s, steps[0], digest), steps[1..], t);
    }
  }

  lemma RefusedIsForgotten(digest: Bytes -> Hash, s: State, m: Marker, b: Uuid)
    requires Inv(digest, s) && HandsAcked(s) && m in s.w.staged && m.blob == Some(b)
    ensures Forgotten(Apply(s, Refuse(m), digest), b)
  {
    assert Made(s.w, m) && !IsAcked(s.w, b);
    OrphanStep(digest, s, Refuse(m), b);
    forall c | c in s.consumers ensures s.consumers[c].m.blob != Some(b) {
      assert ConsumerOk(digest, s.w, s.consumers[c]) && Made(s.w, s.consumers[c].m);
    }
  }

  /** The bytes of a refused submit stay stored, in every later state. */
  lemma RefusedBytesStay(digest: Bytes -> Hash, before: seq<Step>, s: State, m: Marker, after: seq<Step>, t: State)
    requires Run(digest, Initial, before, s) && m in s.w.staged && m.blob.Some?
    requires Run(digest, Apply(s, Refuse(m), digest), after, t)
    ensures Orphan(t.w, m.blob.value)
  {
    InitialInv(digest);
    HandsRun(digest, Initial, before, s);
    StepKeeps(digest, s, Refuse(m));
    RefusedIsForgotten(digest, s, m, m.blob.value);
    ForgottenForGood(digest, Apply(s, Refuse(m), digest), after, t, m.blob.value);
  }

  /** Orphans and the bytes of unfinished submits survive the daemon's death, and
      everything after it. */
  lemma CrashedBytesStay(digest: Bytes -> Hash, before: seq<Step>, s: State, seed: nat, b: Uuid, after: seq<Step>, t: State)
    requires Run(digest, Initial, before, s) && Enabled(digest, s, Crash(seed)) && b in s.w.store
    requires Orphan(s.w, b) || exists m :: m in s.w.staged && m.blob == Some(b)
    requires Run(digest, Apply(s, Crash(seed), digest), after, t)
    ensures Orphan(t.w, b)
  {
    InitialInv(digest);
    RunKeeps(digest, Initial, before, s);
    StepKeeps(digest, s, Crash(seed));
    CrashForgets(digest, s, seed, b);
    ForgottenForGood(digest, Apply(s, Crash(seed), digest), after, t, b);
  }

  /** A crash leaves nobody with anything in hand. */
  lemma CrashForgets(digest: Bytes -> Hash, s: State, seed: nat, b: Uuid)
    requires Inv(digest, s) && Enabled(digest, s, Crash(seed)) && b in s.w.store
    requires Orphan(s.w, b) || exists m :: m in s.w.staged && m.blob == Some(b)
    ensures Forgotten(Apply(s, Crash(seed), digest), b)
  {
    OrphanStep(digest, s, Crash(seed), b);
  }
}
