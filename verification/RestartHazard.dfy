/** The daemon restarts while the CLI's recovery still runs. The new daemon seeds
    its counter from the queue directory alone, so it can reuse a file name the
    recovery process is still going to unlink. */
module RestartHazard {
  import opened Records
  import opened Database
  import opened Interleaving

  /** An acknowledged write to a live inode that is neither queued nor committed. */
  predicate Lost(w: World, m: Marker) {
    m in w.acked && m.inode in w.db.inodes && m.version !in w.db.versions && forall n :: n in w.queue ==> w.queue[n] != m
  }

  ghost predicate CanLose(digest: Bytes -> Hash, s: State) {
    exists steps, t, m :: Run(digest, s, steps, t) && Lost(t.w, m)
  }

  lemma {:induction false} FreshId(used: set<Uuid>) returns (id: Uuid)
    ensures forall x :: x in used ==> x < id
  {
    if used == {} { id := 0; }
    else {
      var x :| x in used;
      var rest := FreshId(used - {x});
      id := if x < rest then rest else x + 1;
      assert used == (used - {x}) + {x};
    }
  }

  predicate Waiting(s: State, c: nat, m: Marker) {
    c in s.consumers && s.consumers[c] == Reconciled(m)
  }

  lemma StageEffect(s: State, m: Marker, data: Bytes)
    requires Next(s, Stage(m, data)).Some?
    ensures Next(s, Stage(m, data)).value == s.(w := Staged(s.w, m, data))
  { }

  lemma CheckpointEffect(s: State, c: nat, m: Marker)
    requires Waiting(s, c, m)
    ensures Next(s, Checkpoint(c)).Some?
    ensures Next(s, Checkpoint(c)).value == s.(w := s.w.(queue := s.w.queue - {NameOf(m)}), consumers := s.consumers - {c})
  { }

  /** A consumer is about to unlink a name the counter has not passed yet. */
  predicate Hazard(digest: Bytes -> Hash, s: State, c: nat, m: Marker, i: Uuid, data: Bytes) {
    && Waiting(s, c, m) && s.w.nextSeq <= m.seqno && NameOf(m) !in s.w.queue
    && i in s.w.db.inodes && digest(data) == m.hash && s.w.staged == {}
    && s.w.db.versions.Keys <= s.w.made.Keys
    && (forall n :: n in s.w.queue ==> n == NameOf(s.w.queue[n]))
  }

  /** Same sequence number, same content: the new marker is unlinked unread. */
  lemma ReuseLoses(digest: Bytes -> Hash, s: State, c: nat, m: Marker, i: Uuid, data: Bytes)
    requires Hazard(digest, s, c, m, i, data) && s.w.nextSeq == m.seqno
    ensures CanLose(digest, s)
  {
    var v := FreshId(s.w.made.Keys);
    var p := FreshId(s.w.madeFor.Keys + s.w.store.Keys);
    var x := Marker(m.seqno, i, v, m.hash, Some(p), |data|, true);
    assert v !in s.w.made.Keys && p !in s.w.madeFor.Keys + s.w.store.Keys;
    StageEffect(s, x, data);
    var s1 := Apply(s, Stage(x, data), digest);
    var s2 := Apply(s1, Enqueue(x), digest);
    CheckpointEffect(s2, c, m);
    var s3 := Apply(s2, Checkpoint(c), digest);
    assert Run(digest, s3, [], s3);
    Prepend(digest, s2, Checkpoint(c), [], s3);
    Prepend(digest, s1, Enqueue(x), [Checkpoint(c)] + [], s3);
    Prepend(digest, s, Stage(x, data), [Enqueue(x)] + ([Checkpoint(c)] + []), s3);
    assert Lost(s3.w, x);
  }

  lemma {:induction false} HazardLoses(digest: Bytes -> Hash, s: State, c: nat, m: Marker, i: Uuid, data: Bytes)
    requires Hazard(digest, s, c, m, i, data)
    ensures CanLose(digest, s)
    decreases m.seqno - s.w.nextSeq
  {
    if s.w.nextSeq == m.seqno { ReuseLoses(digest, s, c, m, i, data); }
    else {
      var v := FreshId(s.w.made.Keys);
      assert v !in s.w.made.Keys;
      var x := Marker(s.w.nextSeq, i, v, m.hash, None, 0, true);
      StageEffect(s, x, data);
      var s1 := Apply(s, Stage(x, data), digest);
      var s2 := Apply(s1, Refuse(x), digest);
      HazardLoses(digest, s2, c, m, i, data);
      var steps, t, y :| Run(digest, s2, steps, t) && Lost(t.w, y);
      Prepend(digest, s1, Refuse(x), steps, t);
      Prepend(digest, s, Stage(x, data), [Refuse(x)] + steps, t);
    }
  }

  // ---- from any consumer to the hazard ----

  /** Every marker ever built carries the hash of some content. */
  ghost predicate Sourced(digest: Bytes -> Hash, w: World) {
    forall v :: v in w.made ==> exists data: Bytes :: digest(data) == w.made[v].hash
  }

  lemma SourcedStep(digest: Bytes -> Hash, s: State, step: Step)
    requires Sourced(digest, s.w) && Enabled(digest, s, step)
    ensures Sourced(digest, Apply(s, step, digest).w)
  {
    var t := Apply(s, step, digest);
    WorldFrame(s, step);
    if step.Stage? {
      forall v | v in t.w.made ensures exists data: Bytes :: digest(data) == t.w.made[v].hash {
        if v == step.m.version { assert digest(step.data) == t.w.made[v].hash; }
      }
    }
  }

  lemma {:induction false} SourcedRun(digest: Bytes -> Hash, s: State, steps: seq<Step>, t: State)
    requires Sourced(digest, s.w) && Run(digest, s, steps, t)
    ensures Sourced(digest, t.w)
    decreases |steps|
  {
    if steps != [] {
      SourcedStep(digest, s, steps[0]);
      SourcedRun(digest, Apply(s, steps[0], digest), steps[1..], t);
    }
  }

  lemma LoseLater(digest: Bytes -> Hash, s: State, step: Step)
    requires Enabled(digest, s, step) && CanLose(digest, Apply(s, step, digest))
    ensures CanLose(digest, s)
  {
    var steps, t, m :| Run(digest, Apply(s, step, digest), steps, t) && Lost(t.w, m);
    Prepend(digest, s, step, steps, t);
  }

  /** What the restarted daemon's tables and queue promise, whoever else runs. */
  predicate Restarting(w: World, m: Marker) {
    && w.staged == {} && w.nextSeq <= m.seqno && w.db.versions.Keys <= w.made.Keys && w.db.inodes.Keys <= w.known
    && m.version in w.made
    && (forall n :: n in w.queue ==> n == NameOf(w.queue[n]) && n.seqno < w.nextSeq)
  }

  lemma WaitingLoses(digest: Bytes -> Hash, s: State, c: nat, m: Marker, data: Bytes)
    requires Waiting(s, c, m) && Restarting(s.w, m) && digest(data) == m.hash
    ensures CanLose(digest, s)
  {
    var i := FreshId(s.w.known);
    assert i !in s.w.known;
    HazardLoses(digest, Apply(s, CreateInode(i), digest), c, m, i, data);
    LoseLater(digest, s, CreateInode(i));
  }

  lemma PastTransactionLoses(digest: Bytes -> Hash, s: State, c: nat, data: Bytes)
    requires c in s.consumers && !s.consumers[c].Loaded? && Restarting(s.w, s.consumers[c].m) && digest(data) == s.consumers[c].m.hash
    ensures CanLose(digest, s)
  {
    if s.consumers[c].Reconciled? { WaitingLoses(digest, s, c, s.consumers[c].m, data); }
    else {
      WaitingLoses(digest, Apply(s, GiveUpReconcile(c), digest), c, s.consumers[c].m, data);
      LoseLater(digest, s, GiveUpReconcile(c));
    }
  }

  /** Whatever phase a consumer is in, it can go on to its unlink. */
  lemma ConsumerLoses(digest: Bytes -> Hash, s: State, c: nat, data: Bytes)
    requires c in s.consumers && Restarting(s.w, s.consumers[c].m) && digest(data) == s.consumers[c].m.hash
    requires s.consumers[c].Loaded? ==> Settles(s, s.consumers[c].m)
    ensures CanLose(digest, s)
  {
    if !s.consumers[c].Loaded? { PastTransactionLoses(digest, s, c, data); }
    else {
      PastTransactionLoses(digest, Apply(s, Transact(c), digest), c, data);
      LoseLater(digest, s, Transact(c));
    }
  }

  // ---- a marker that cannot be committed ----

  /** The step by which a cleaner deletes the blob row of `b`. */
  predicate CleansRow(s: State, step: Step, b: Uuid) {
    step.CleanRow? && step.k in s.cleaners && s.cleaners[step.k].Sweeping? && s.cleaners[step.k].todo != [] &&
    s.cleaners[step.k].todo[0].0 == b
  }

  predicate Stuck(s: State, c: nat, m: Marker) {
    c in s.consumers && s.consumers[c] == Loaded(m) && m.blob.Some? && !m.shared && m.blob.value in s.w.db.owned
  }

  /** Only a cleaner takes a private blob row away. */
  lemma RowStays(s: State, step: Step, b: Uuid)
    requires b in s.w.db.owned && Next(s, step).Some? && !CleansRow(s, step, b)
    ensures var db := Next(s, step).value.w.db; b in db.owned && db.owned[b] == s.w.db.owned[b]
  {
    if step.Transact? { TxShape(s.w.db, s.consumers[step.c].m); }
    else if !step.CleanRow? { WorldFrame(s, step); }
  }

  lemma StuckStays(s: State, step: Step, c: nat, m: Marker)
    requires Stuck(s, c, m) && Next(s, step).Some? && !CleansRow(s, step, m.blob.value)
    ensures var t := Next(s, step).value; c !in t.consumers || Stuck(t, c, m)
    ensures step != Transact(c) && step != Checkpoint(c)
  {
    var t := Next(s, step).value;
    assert CommitTx(s.w.db, m).None?;
    assert c in t.consumers ==> t.consumers[c] == s.consumers[c];
    RowStays(s, step, m.blob.value);
  }

  ghost predicate LeavesAlone(digest: Bytes -> Hash, s: State, steps: seq<Step>, c: nat, b: Uuid)
    decreases |steps|
  {
    steps == [] ||
    (Enabled(digest, s, steps[0]) && !CleansRow(s, steps[0], b) && c in Apply(s, steps[0], digest).consumers &&
     LeavesAlone(digest, Apply(s, steps[0], digest), steps[1..], c, b))
  }

  /** A recovery holding a private marker whose blob row exists gets no further
      while a cleaner leaves that row alone: it never checkpoints, so a name of
      its own is no threat until the row is gone and the marker settles. */
  lemma {:induction false} StuckConsumerGetsNowhere(digest: Bytes -> Hash, s: State, steps: seq<Step>, t: State, c: nat, m: Marker)
    requires Stuck(s, c, m) && Run(digest, s, steps, t) && LeavesAlone(digest, s, steps, c, m.blob.value)
    ensures Stuck(t, c, m) && Transact(c) !in steps && Checkpoint(c) !in steps
    decreases |steps|
  {
    if steps != [] {
      StuckStays(s, steps[0], c, m);
      StuckConsumerGetsNowhere(digest, Apply(s, steps[0], digest), steps[1..], t, c, m);
      assert steps == [steps[0]] + steps[1..];
    }
  }

  // ---- a way past a private row ----

  /** Private marker `n` is queued and cannot leave: its blob row exists, and every
      consumer that has read it is still before its transaction. Being queued, it
      protects its content from the cleaner. */
  predicate Pinned(s: State, n: Name, h: Hash) {
    n in s.w.queue && s.w.queue[n].hash == h && s.w.queue[n].blob.Some? && !s.w.queue[n].shared &&
    s.w.queue[n].blob.value in s.w.db.owned &&
    forall c :: c in s.consumers && s.consumers[c].m == s.w.queue[n] ==> s.consumers[c].Loaded?
  }

  /** Rows and queued markers name the markers they come from. */
  predicate Typed(w: World) {
    && (forall h :: h in w.db.dedup ==> w.db.dedup[h] in w.madeFor && w.madeFor[w.db.dedup[h]].shared && w.madeFor[w.db.dedup[h]].hash == h)
    && (forall b :: b in w.db.owned ==> b in w.madeFor && !w.madeFor[b].shared && w.madeFor[b].hash == w.db.owned[b])
    && (forall n :: n in w.queue ==> n == NameOf(w.queue[n]) && Made(w, w.queue[n]))
    && (forall v :: v in w.db.versions ==> w.db.versions[v].inode in w.db.inodes)
  }

  /** Consumer `c` stands before a private row that nothing pins down. */
  ghost predicate Blocked(s: State, c: nat, m: Marker) {
    && Stuck(s, c, m) && Made(s.w, m) && Restarting(s.w, m) && Typed(s.w) && s.cleaners == map[]
    && forall n :: !Pinned(s, n, m.hash)
  }

  /** Nothing gets pinned by what only takes from the queue and its consumers. */
  lemma PinsFade(s: State, t: State, h: Hash)
    requires t.w.db.owned == s.w.db.owned && forall n :: n in t.w.queue ==> n in s.w.queue && t.w.queue[n] == s.w.queue[n]
    requires forall c :: c in s.consumers ==>
      (c in t.consumers && t.consumers[c] == s.consumers[c]) || forall n :: n in t.w.queue ==> t.w.queue[n] != s.consumers[c].m
    ensures forall n :: Pinned(t, n, h) ==> Pinned(s, n, h)
  { }

  /** A queued marker whose consumer is past the transaction goes. */
  lemma FinishLeaves(digest: Bytes -> Hash, s: State, d: nat, n: Name) returns (t: State)
    requires n in s.w.queue && n == NameOf(s.w.queue[n]) && d in s.consumers && !s.consumers[d].Loaded? && s.consumers[d].m == s.w.queue[n]
    ensures t == s.(w := s.w.(queue := s.w.queue - {n}), consumers := s.consumers - {d})
    ensures CanLose(digest, t) ==> CanLose(digest, s)
  {
    var s1 := s;
    if !s.consumers[d].Reconciled? { s1 := Apply(s, GiveUpReconcile(d), digest); }
    CheckpointEffect(s1, d, s.w.queue[n]);
    t := Apply(s1, Checkpoint(d), digest);
    assert s1.consumers - {d} == s.consumers - {d};
    if CanLose(digest, t) {
      LoseLater(digest, s1, Checkpoint(d));
      if s1 != s { LoseLater(digest, s, GiveUpReconcile(d)); }
    }
  }

  /** With its inode gone and no row in its way, a queued marker's transaction
      changes nothing. */
  lemma DeadCommits(s: State, c: nat, m: Marker, y: Marker)
    requires Blocked(s, c, m) && s.w.db.inodes == map[] && Made(s.w, y) && (y.blob.Some? && !y.shared ==> y.blob.value !in s.w.db.owned)
    ensures CommitTx(s.w.db, y).Some? && Transacted(s.w, y, CommitTx(s.w.db, y).value) == s.w
  { }

  /** A new consumer reads the marker and gets past the transaction. */
  lemma MarkerIsTaken(digest: Bytes -> Hash, s: State, c: nat, m: Marker, n: Name) returns (d: nat, t: State)
    requires Blocked(s, c, m) && s.w.db.inodes == map[] && n in s.w.queue && s.w.queue[n].hash == m.hash
    requires forall e :: e in s.consumers && s.consumers[e].m == s.w.queue[n] ==> s.consumers[e].Loaded?
    ensures d !in s.consumers && t.w == s.w && t.cleaners == s.cleaners && t.unlinkers == s.unlinkers
    ensures t.consumers.Keys == s.consumers.Keys + {d} && t.consumers - {d} == s.consumers
    ensures !t.consumers[d].Loaded? && t.consumers[d].m == s.w.queue[n]
    ensures CanLose(digest, t) ==> CanLose(digest, s)
  {
    assert !Pinned(s, n, m.hash);
    DeadCommits(s, c, m, s.w.queue[n]);
    d := FreshId(s.consumers.Keys);
    assert d !in s.consumers.Keys;
    var s1 := Apply(s, Load(d, n), digest);
    t := Apply(s1, Transact(d), digest);
    AddAndRemove(s.consumers, d, t.consumers[d]);
    assert t.consumers == s.consumers[d := t.consumers[d]];
    if CanLose(digest, t) {
      LoseLater(digest, s1, Transact(d));
      LoseLater(digest, s, Load(d, n));
    }
  }

  lemma StaysBlocked(s: State, t: State, c: nat, m: Marker, n: Name)
    requires Blocked(s, c, m) && n in s.w.queue && t.w == s.w.(queue := s.w.queue - {n}) && t.cleaners == map[]
    requires forall e :: e in s.consumers && s.consumers[e].m != s.w.queue[n] ==> e in t.consumers && t.consumers[e] == s.consumers[e]
    requires c in t.consumers && t.consumers[c] == s.consumers[c]
    ensures Blocked(t, c, m)
  {
    PinsFade(s, t, m.hash);
  }

  /** Any queued marker of that content can be made to leave. */
  lemma MarkerLeaves(digest: Bytes -> Hash, s: State, c: nat, m: Marker, n: Name) returns (t: State)
    requires Blocked(s, c, m) && s.w.db.inodes == map[] && n in s.w.queue && s.w.queue[n].hash == m.hash
    ensures Blocked(t, c, m) && t.w == s.w.(queue := s.w.queue - {n})
    ensures CanLose(digest, t) ==> CanLose(digest, s)
  {
    var d, s1;
    if e :| e in s.consumers && s.consumers[e].m == s.w.queue[n] && !s.consumers[e].Loaded? { d, s1 := e, s; }
    else { d, s1 := MarkerIsTaken(digest, s, c, m, n); }
    t := FinishLeaves(digest, s1, d, n);
    StaysBlocked(s, t, c, m, n);
  }

  /** With nothing queued to protect its content, the row can be cleaned away. */
  lemma RowIsCleaned(digest: Bytes -> Hash, s: State, c: nat, m: Marker, data: Bytes)
    requires Blocked(s, c, m) && s.w.db.inodes == map[] && digest(data) == m.hash
    requires forall n :: n in s.w.queue ==> s.w.queue[n].hash != m.hash
    ensures CanLose(digest, s)
  {
    var p, h := m.blob.value, m.hash;
    var s1 := Apply(s, CleanList(0), digest);
    var s2 := Apply(s1, CleanScan(0, [(p, h)]), digest);
    var s3 := Apply(s2, CleanRow(0), digest);
    assert s3.w == s.w.(db := RemoveBlobRow(s.w.db, p)) && s3.consumers == s.consumers;
    ConsumerLoses(digest, s3, c, data);
    LoseLater(digest, s2, CleanRow(0));
    LoseLater(digest, s1, CleanScan(0, [(p, h)]));
    LoseLater(digest, s, CleanList(0));
  }

  lemma DropBlocked(s: State, c: nat, m: Marker, i: Uuid)
    requires Blocked(s, c, m) && i in s.w.db.inodes
    ensures Next(s, DropInode(i)).Some? && Blocked(Next(s, DropInode(i)).value, c, m)
  {
    PinsFade(s, Next(s, DropInode(i)).value, m.hash);
  }

  /** Delete every inode, let every marker of that content leave the queue, clean
      the row away: the consumer can go on. */
  lemma {:induction false} BlockedLoses(digest: Bytes -> Hash, s: State, c: nat, m: Marker, data: Bytes)
    requires Blocked(s, c, m) && digest(data) == m.hash
    ensures CanLose(digest, s)
    decreases |s.w.db.inodes|, |s.w.queue|
  {
    if i :| i in s.w.db.inodes {
      var s1 := Apply(s, DropInode(i), digest);
      DropBlocked(s, c, m, i);
      BlockedLoses(digest, s1, c, m, data);
      LoseLater(digest, s, DropInode(i));
    } else if n :| n in s.w.queue && s.w.queue[n].hash == m.hash {
      var s1 := MarkerLeaves(digest, s, c, m, n);
      BlockedLoses(digest, s1, c, m, data);
    } else {
      RowIsCleaned(digest, s, c, m, data);
    }
  }

  /** Consumer `c` can get past its transaction, now or in the end. */
  ghost predicate CanGoOn(s: State, c: nat)
    requires c in s.consumers
  {
    !s.consumers[c].Loaded? || Settles(s, s.consumers[c].m) || forall n :: !Pinned(s, n, s.consumers[c].m.hash)
  }

  ghost predicate Threatened(s: State, seed: nat) {
    exists c :: c in s.consumers && s.consumers[c].m.seqno >= seed && CanGoOn(s, c)
  }

  // ---- consumers that stay where they are ----

  /** The state without these consumers. */
  function Without(s: State, stuck: set<nat>): State { s.(consumers := s.consumers - stuck) }

  /** A pass that protects content `h` and knows every candidate's content. */
  predicate Respects(w: World, p: Cleaner, h: Hash) {
    h in p.protected &&
    (p.Protecting? || forall j :: 0 <= j < |p.todo| ==> p.todo[j].0 in w.madeFor && w.madeFor[p.todo[j].0].hash == p.todo[j].1)
  }

  predicate AllRespect(s: State, h: Hash) { forall k :: k in s.cleaners ==> Respects(s.w, s.cleaners[k], h) }

  /** These consumers stand before private rows, and each row's content is pinned. */
  ghost predicate Jammed(s: State, stuck: set<nat>) {
    forall c :: c in stuck ==> c in s.consumers && IsJammed(s, c, s.consumers[c].m)
  }

  ghost predicate IsJammed(s: State, c: nat, m: Marker) {
    Stuck(s, c, m) && m in s.w.acked && AllRespect(s, m.hash) && exists n :: Pinned(s, n, m.hash)
  }

  function StillStuck(step: Step, stuck: set<nat>): set<nat> {
    if step.Crash? then {} else if step.Abort? then stuck - {step.c} else stuck
  }

  /** Consumers that cannot move make no difference to what the others do. */
  lemma MovesWithout(s: State, step: Step, stuck: set<nat>)
    requires Next(s, step).Some? && forall c :: c in stuck ==> c in s.consumers && Stuck(s, c, s.consumers[c].m)
    ensures var t := Without(Next(s, step).value, StillStuck(step, stuck));
      if step.Abort? && step.c in stuck then t == Without(s, stuck) else Next(Without(s, stuck), step) == Some(t)
  {
    if ByConsumer(step) {
      ConsumerMovesWithout(s, step, stuck);
    } else {
      if step.Abort? || step.Checkpoint? { TwiceRemoved(s.consumers, step.c, stuck); }
      OthersMoveWithout(s, step, stuck);
    }
  }

  lemma ConsumerMovesWithout(s: State, step: Step, stuck: set<nat>)
    requires Next(s, step).Some? && ByConsumer(step) && forall c :: c in stuck ==> c in s.consumers && Stuck(s, c, s.consumers[c].m)
    ensures Next(Without(s, stuck), step) == Some(Without(Next(s, step).value, stuck))
  {
    assert step.c !in stuck;
    ConsumerFrame(s, step);
    RemovedThenSet(s.consumers, step.c, Next(s, step).value.consumers[step.c], stuck);
  }

  lemma OthersMoveWithout(s: State, step: Step, stuck: set<nat>)
    requires Next(s, step).Some? && !ByConsumer(step) && forall c :: c in stuck ==> c in s.consumers && s.consumers[c].Loaded?
    requires step.Abort? || step.Checkpoint? ==>
      (s.consumers - {step.c}) - stuck == (s.consumers - stuck) - {step.c} &&
      (s.consumers - {step.c}) - (stuck - {step.c}) == (s.consumers - stuck) - {step.c} &&
      (step.c in stuck ==> (s.consumers - stuck) - {step.c} == s.consumers - stuck)
    ensures var t := Without(Next(s, step).value, StillStuck(step, stuck));
      if step.Abort? && step.c in stuck then t == Without(s, stuck) else Next(Without(s, stuck), step) == Some(t)
  { }

  lemma TwiceRemoved<K, V>(m: map<K, V>, k: K, ks: set<K>)
    ensures (m - {k}) - ks == (m - ks) - {k} && (m - {k}) - (ks - {k}) == (m - ks) - {k} && (k in ks ==> (m - ks) - {k} == m - ks)
  { }

  lemma RemovedThenSet<K, V>(m: map<K, V>, k: K, v: V, ks: set<K>)
    requires k !in ks
    ensures m[k := v] - ks == (m - ks)[k := v]
  { }

  /** A pass that respects the content cannot take its row. */
  lemma RespectedRow(s: State, step: Step, b: Uuid)
    requires Next(s, step).Some? && b in s.w.madeFor && AllRespect(s, s.w.madeFor[b].hash)
    ensures !CleansRow(s, step, b)
  { }

  /** Passes begun while a marker of that content is queued respect it. */
  lemma RespectStays(s: State, step: Step, n: Name)
    requires BlobRows(s.w) && Next(s, step).Some? && n in s.w.queue && AllRespect(s, n.hash)
    ensures AllRespect(Next(s, step).value, n.hash)
  {
    WorldFrame(s, step);
    CleanerFrame(s, step);
    if SweeperMoves(step) { PassRespects(s, step, n); }
    RespectGrows(s.w, Next(s, step).value.w, s.cleaners, Next(s, step).value.cleaners, n.hash);
  }

  lemma RespectGrows(w: World, t: World, cs: map<nat, Cleaner>, cs': map<nat, Cleaner>, h: Hash)
    requires forall k :: k in cs ==> Respects(w, cs[k], h)
    requires forall k :: k in cs' ==> (k in cs && cs'[k] == cs[k]) || Respects(w, cs'[k], h)
    requires forall b :: b in w.madeFor ==> b in t.madeFor && t.madeFor[b] == w.madeFor[b]
    ensures forall k :: k in cs' ==> Respects(t, cs'[k], h)
  { }

  lemma PassRespects(s: State, step: Step, n: Name)
    requires BlobRows(s.w) && Next(s, step).Some? && SweeperMoves(step) && n in s.w.queue && AllRespect(s, n.hash)
    ensures step.k in Next(s, step).value.cleaners && Respects(s.w, Next(s, step).value.cleaners[step.k], n.hash)
  {
    if step.CleanScan? {
      forall j | 0 <= j < |step.todo| ensures step.todo[j].0 in s.w.madeFor && s.w.madeFor[step.todo[j].0].hash == step.todo[j].1 {
        assert HasRow(s.w.db, step.todo[j].0, step.todo[j].1);
      }
    }
  }

  lemma QueuedStays(s: State, step: Step, n: Name)
    requires Names(s.w) && Next(s, step).Some? && n in s.w.queue
    requires step.Checkpoint? ==> s.consumers[step.c].m != s.w.queue[n] && Held(s.w, s.consumers[step.c].m)
    ensures n in Next(s, step).value.w.queue && Next(s, step).value.w.queue[n] == s.w.queue[n]
  {
    WorldFrame(s, step);
    if step.Checkpoint? { CheckpointEffect(s, step.c, s.consumers[step.c].m); }
    else if step.Enqueue? { assert Next(s, step).value.w == Enqueued(s.w, step.m); }
  }

  /** Whoever has read a marker that cannot be committed is still where it was. */
  lemma ReadersStay(s: State, step: Step, y: Marker)
    requires Next(s, step).Some? && CommitTx(s.w.db, y).None?
    requires forall c :: c in s.consumers && s.consumers[c].m == y ==> s.consumers[c].Loaded?
    ensures forall c :: c in Next(s, step).value.consumers && Next(s, step).value.consumers[c].m == y ==> Next(s, step).value.consumers[c].Loaded?
  {
    ConsumerFrame(s, step);
  }

  /** A pinned marker stays where it is. */
  lemma PinStays(digest: Bytes -> Hash, s: State, step: Step, stuck: set<nat>, n: Name, h: Hash)
    requires FreshIds(s.w) && Names(s.w) && Consumers(digest, s.w, s.consumers - stuck) && Next(s, step).Some?
    requires forall c :: c in stuck ==> c in s.consumers && s.consumers[c].Loaded?
    requires Pinned(s, n, h) && AllRespect(s, h)
    ensures Pinned(Next(s, step).value, n, h)
  {
    var y := s.w.queue[n];
    assert Made(s.w, y) && n == NameOf(y);
    RespectedRow(s, step, y.blob.value);
    RowStays(s, step, y.blob.value);
    if step.Checkpoint? { assert ConsumerOk(digest, s.w, (s.consumers - stuck)[step.c]); }
    QueuedStays(s, step, n);
    ReadersStay(s, step, y);
  }

  lemma JamStays(digest: Bytes -> Hash, s: State, step: Step, stuck: set<nat>)
    requires Inv(digest, Without(s, stuck)) && Jammed(s, stuck) && Enabled(digest, s, step)
    ensures var t, rest := Apply(s, step, digest), StillStuck(step, stuck);
      Inv(digest, Without(t, rest)) && Jammed(t, rest)
  {
    var t, rest := Apply(s, step, digest), StillStuck(step, stuck);
    MovesWithout(s, step, stuck);
    if !(step.Abort? && step.c in stuck) { StepKeeps(digest, Without(s, stuck), step); }
    forall c | c in rest ensures c in t.consumers && IsJammed(t, c, t.consumers[c].m) { JammedStays(digest, s, step, stuck, c); }
  }

  lemma JammedStays(digest: Bytes -> Hash, s: State, step: Step, stuck: set<nat>, c: nat)
    requires FreshIds(s.w) && Names(s.w) && BlobRows(s.w) && Consumers(digest, s.w, s.consumers - stuck) && Jammed(s, stuck)
    requires Next(s, step).Some? && c in StillStuck(step, stuck)
    ensures var t := Next(s, step).value; c in t.consumers && IsJammed(t, c, t.consumers[c].m)
  {
    var m := s.consumers[c].m;
    var n :| Pinned(s, n, m.hash);
    assert n == NameOf(s.w.queue[n]);
    PinStays(digest, s, step, stuck, n, m.hash);
    RespectStays(s, step, n);
    StuckOneStays(s, step, c, m);
  }

  lemma StuckOneStays(s: State, step: Step, c: nat, m: Marker)
    requires FreshIds(s.w) && Next(s, step).Some? && Stuck(s, c, m) && m in s.w.acked && AllRespect(s, m.hash)
    requires !step.Crash? && step != Abort(c)
    ensures var t := Next(s, step).value; Stuck(t, c, m) && m in t.w.acked
  {
    assert Made(s.w, m);
    RespectedRow(s, step, m.blob.value);
    StuckStays(s, step, c, m);
    ConsumerFrame(s, step);
    StepHistory(s, step);
  }

  lemma {:induction false} JamRun(digest: Bytes -> Hash, s: State, steps: seq<Step>, t: State, stuck: set<nat>)
    requires Inv(digest, Without(s, stuck)) && Jammed(s, stuck) && Run(digest, s, steps, t)
    ensures WorldInv(digest, t.w)
    decreases |steps|
  {
    if steps != [] {
      JamStays(digest, s, steps[0], stuck);
      JamRun(digest, Apply(s, steps[0], digest), steps[1..], t, StillStuck(steps[0], stuck));
    }
  }

  // ---- the equivalence ----

  lemma JammedAtRestart(digest: Bytes -> Hash, s: State, seed: nat, stuck: set<nat>)
    requires FreshIds(s.w) && BlobRows(s.w) && Consumers(digest, s.w, s.consumers) && !Threatened(s, seed)
    requires forall c :: c in stuck ==> c in s.consumers && s.consumers[c].m.seqno >= seed
    ensures Jammed(Restarted(s, seed), stuck)
  {
    var r := Restarted(s, seed);
    forall c | c in stuck ensures IsJammed(r, c, r.consumers[c].m) {
      var m := s.consumers[c].m;
      assert !CanGoOn(s, c) && ConsumerOk(digest, s.w, s.consumers[c]);
      StuckIff(s.w, m);
      var n :| Pinned(s, n, m.hash);
      assert Pinned(r, n, m.hash);
    }
  }

  lemma InvAtRestart(digest: Bytes -> Hash, s: State, seed: nat, stuck: set<nat>)
    requires Inv(digest, s) && Seeds(s.w.queue, seed) && HeldBelow(Without(s, stuck), seed)
    ensures Inv(digest, Without(Restarted(s, seed), stuck))
  {
    SeedKeeps(digest, s.w, seed);
    SeedOthers(digest, Without(s, stuck), seed);
  }

  lemma UnthreatenedRestart(digest: Bytes -> Hash, s: State, seed: nat)
    requires Inv(digest, s) && Seeds(s.w.queue, seed) && !Threatened(s, seed)
    ensures !CanLose(digest, Restarted(s, seed))
  {
    var r, stuck := Restarted(s, seed), set c | c in s.consumers && s.consumers[c].m.seqno >= seed;
    JammedAtRestart(digest, s, seed, stuck);
    InvAtRestart(digest, s, seed, stuck);
    forall steps, t, m | Run(digest, r, steps, t) ensures !Lost(t.w, m) { JamRun(digest, r, steps, t, stuck); }
  }

  lemma TypedRows(digest: Bytes -> Hash, w: World)
    requires FreshIds(w) && Names(w) && BlobRows(w) && Chained(w.db)
    ensures Typed(w)
  {
    assert forall h :: h in w.db.dedup ==> Backed(w, w.db.dedup[h], h, true);
    assert forall b :: b in w.db.owned ==> Backed(w, b, w.db.owned[b], false);
  }

  lemma BlockedAtRestart(digest: Bytes -> Hash, s: State, seed: nat, c: nat, m: Marker)
    requires WorldInv(digest, s.w) && Seeds(s.w.queue, seed) && m.seqno >= seed && Stuck(s, c, m) && Made(s.w, m)
    requires forall n :: !Pinned(s, n, m.hash)
    ensures Blocked(Restarted(s, seed), c, m)
  {
    TypedRows(digest, s.w);
    PinsFade(s, Restarted(s, seed), m.hash);
  }

  lemma ThreatenedRestart(digest: Bytes -> Hash, s: State, seed: nat, c: nat)
    requires Inv(digest, s) && Sourced(digest, s.w) && Seeds(s.w.queue, seed)
    requires c in s.consumers && s.consumers[c].m.seqno >= seed && CanGoOn(s, c)
    ensures CanLose(digest, Restarted(s, seed))
  {
    var r, m := Restarted(s, seed), s.consumers[c].m;
    assert ConsumerOk(digest, s.w, s.consumers[c]);
    assert Made(s.w, m) && s.w.made[m.version] == m;
    var data: Bytes :| digest(data) == m.hash;
    assert s.w.db.versions.Keys <= s.w.made.Keys;
    if s.consumers[c].Loaded? && !Settles(s, m) {
      StuckIff(s.w, m);
      BlockedAtRestart(digest, s, seed, c, m);
      BlockedLoses(digest, r, c, m, data);
    } else {
      ConsumerLoses(digest, r, c, data);
    }
  }

  /** The daemon restarts beside any number of recoveries in any phase. Some
      acknowledged write can be lost if and only if one of them holds a name the
      new counter can reach and is able to get past its transaction. That is so if
      it has, or if the marker it read can be committed, or if the private row in
      the way is of content that no queued marker pins down. */
  lemma RestartLosesWritesIffNameReusable(digest: Bytes -> Hash, before: seq<Step>, s: State, seed: nat)
    requires Run(digest, Initial, before, s) && Seeds(s.w.queue, seed)
    ensures CanLose(digest, Restarted(s, seed)) <==> Threatened(s, seed)
  {
    InitialInv(digest);
    RunKeeps(digest, Initial, before, s);
    SourcedRun(digest, Initial, before, s);
    if Threatened(s, seed) {
      var c :| c in s.consumers && s.consumers[c].m.seqno >= seed && CanGoOn(s, c);
      ThreatenedRestart(digest, s, seed, c);
    } else {
      UnthreatenedRestart(digest, s, seed);
    }
  }

  // ---- the hazard is reachable ----

  /** Committing an external-path marker of a live inode leaves nothing to reconcile. */
  lemma TransactExternal(s: State, c: nat, m: Marker)
    requires c in s.consumers && s.consumers[c] == Loaded(m) && m.blob.None? && m.inode in s.w.db.inodes
    ensures Next(s, Transact(c)).Some?
    ensures var t := Next(s, Transact(c)).value;
      t.consumers == s.consumers[c := Reconciled(m)] && t.w.queue == s.w.queue && m.inode in t.w.db.inodes &&
      t.cleaners == s.cleaners && t.unlinkers == s.unlinkers
  { }

  /** Two consumers read one marker, both commit it, and one checkpoints. */
  lemma OneCheckpoints(digest: Bytes -> Hash, s: State, m: Marker) returns (t: State)
    requires s.consumers == map[] && m.blob.None? && m.inode in s.w.db.inodes && s.w.queue == map[NameOf(m) := m]
    ensures var n := NameOf(m); Run(digest, s, [Load(0, n), Load(1, n), Transact(0), Transact(1), Checkpoint(1)], t)
    ensures t.consumers == map[0 := Reconciled(m)] && t.w.queue == map[] && m.inode in t.w.db.inodes
  {
    var n := NameOf(m);
    var s1 := Apply(s, Load(0, n), digest);
    var s2 := Apply(s1, Load(1, n), digest);
    t := CommitBoth(digest, s2, m);
    Prepend(digest, s1, Load(1, n), [Transact(0), Transact(1), Checkpoint(1)], t);
    Prepend(digest, s, Load(0, n), [Load(1, n), Transact(0), Transact(1), Checkpoint(1)], t);
  }

  lemma CommitBoth(digest: Bytes -> Hash, s: State, m: Marker) returns (t: State)
    requires s.consumers == map[0 := Loaded(m), 1 := Loaded(m)] && m.blob.None? && m.inode in s.w.db.inodes
    requires s.w.queue == map[NameOf(m) := m]
    ensures Run(digest, s, [Transact(0), Transact(1), Checkpoint(1)], t)
    ensures t.consumers == map[0 := Reconciled(m)] && t.w.queue == map[] && m.inode in t.w.db.inodes
  {
    TransactExternal(s, 0, m);
    t := CommitSecond(digest, Apply(s, Transact(0), digest), m);
    Prepend(digest, s, Transact(0), [Transact(1), Checkpoint(1)], t);
  }

  lemma CommitSecond(digest: Bytes -> Hash, s: State, m: Marker) returns (t: State)
    requires s.consumers == map[0 := Reconciled(m), 1 := Loaded(m)] && m.blob.None? && m.inode in s.w.db.inodes
    requires s.w.queue == map[NameOf(m) := m]
    ensures Run(digest, s, [Transact(1), Checkpoint(1)], t)
    ensures t.consumers == map[0 := Reconciled(m)] && t.w.queue == map[] && m.inode in t.w.db.inodes
  {
    TransactExternal(s, 1, m);
    var s1 := Apply(s, Transact(1), digest);
    CheckpointEffect(s1, 1, m);
    t := Apply(s1, Checkpoint(1), digest);
    assert Run(digest, t, [], t);
    Prepend(digest, s1, Checkpoint(1), [], t);
    Prepend(digest, s, Transact(1), [Checkpoint(1)], t);
  }

  /** The state in question is reached with two consumers and one write: the
      queue is empty, so the counter restarts at 1, below the name still held. */
  lemma HazardIsReachable(digest: Bytes -> Hash, data: Bytes) returns (before: seq<Step>, s: State, m: Marker)
    ensures Run(digest, Initial, before, s) && Seeds(s.w.queue, 1) && !HeldBelow(s, 1)
    ensures s.consumers == map[0 := Reconciled(m)] && m.inode in s.w.db.inodes && digest(data) == m.hash
  {
    m := Marker(1, 0, 0, digest(data), None, 0, true);
    var n := NameOf(m);
    var s1 := Apply(Initial, CreateInode(0), digest);
    StageEffect(s1, m, data);
    var s2 := Apply(s1, Stage(m, data), digest);
    var s3 := Apply(s2, Enqueue(m), digest);
    s := OneCheckpoints(digest, s3, m);
    before := [Load(0, n), Load(1, n), Transact(0), Transact(1), Checkpoint(1)];
    Prepend(digest, s2, Enqueue(m), before, s);
    before := [Enqueue(m)] + before;
    Prepend(digest, s1, Stage(m, data), before, s);
    before := [Stage(m, data)] + before;
    Prepend(digest, Initial, CreateInode(0), before, s);
    before := [CreateInode(0)] + before;
    assert 0 in s.consumers;
  }
}
