/** The states the counterexamples start from are reached: each by an explicit
    run from a fresh file system. */
module Reachability {
  import opened Records
  import opened Database
  import opened Pipeline
  import opened Quiescence
  import opened Fifo
  import R = ReadAfterWrite
  import C = CrashRefinement
  import D = DrainRefinement
  import I = Interleaving
  import P = Replay
  import X = ReplayRefinement

  // ---- one submission ----

  /** What writing, renaming, publishing and handing over a marker leaves. */
  function Written(s: Sys, m: Marker, data: Bytes): Sys { Submitted(RenamedTo(s, m, data), m) }

  /** The same, up to the rename. */
  function RenamedTo(s: Sys, m: Marker, data: Bytes): Sys {
    Sys(s.b.(w := I.Enqueued(I.Staged(s.b.w, m, data), m)),
        s.r.(outstanding := s.r.outstanding + 1, writer := Durable(m), acks := s.r.acks + [m]))
  }

  lemma Rename(digest: Bytes -> Hash, s: Sys, m: Marker, data: Bytes) returns (steps: seq<Step>)
    requires Enabled(digest, s, Prepare(m, data)) && s.r.outstanding < s.r.limit
    ensures Run(digest, s, steps, RenamedTo(s, m, data)) && Plain(steps)
  {
    var a, s1 := OneStep(digest, s, Prepare(m, data));
    var b, s2 := OneStep(digest, s1, Admit);
    var c, s3 := OneStep(digest, s2, Step.Enqueue);
    RunAppend(digest, s1, b, s2, c, s3);
    RunAppend(digest, s, a, s1, b + c, s3);
    assert s3 == RenamedTo(s, m, data);
    steps := a + (b + c);
  }

  lemma Write(digest: Bytes -> Hash, s: Sys, m: Marker, data: Bytes) returns (steps: seq<Step>)
    requires Enabled(digest, s, Prepare(m, data)) && s.r.outstanding < s.r.limit
    ensures Run(digest, s, steps, Written(s, m, data)) && Plain(steps)
  {
    var a := Rename(digest, s, m, data);
    var t := Written(s, m, data);
    assert Run(digest, t, [], t);
    PublishAndSend(digest, RenamedTo(s, m, data), m, [], t);
    RunAppend(digest, s, a, RenamedTo(s, m, data), [Publish] + ([Send] + []), t);
    steps := a + ([Publish] + ([Send] + []));
  }

  /** An external-path write to inode 0, with the given number and version id. */
  function ExternalWrite(digest: Bytes -> Hash, data: Bytes, seqno: nat, version: Uuid): Marker {
    Marker(seqno, 0, version, digest(data), None, 0, true)
  }

  /** A shared write to inode `k`, with blob `k` for its provisional copy. */
  function SharedWrite(digest: Bytes -> Hash, data: Bytes, k: nat): Marker {
    Marker(k + 1, k, k, digest(data), Some(k), |data|, true)
  }

  /** Two submitted markers and nothing else going on. */
  predicate TwoQueued(t: Sys, m: Marker, x: Marker) {
    t.r.acks == [m, x] && t.r.writer.Idle? && t.r.drain.Waiting? && t.r.channel == [NameOf(m), NameOf(x)] && t.r.scan == [] &&
    t.r.inflight == {NameOf(m), NameOf(x)} && Committing(t, m) && Committing(t, x) && t.b.w.queue.Keys == {NameOf(m), NameOf(x)}
  }

  /** A marker the first two writes of a fresh file system may carry. */
  predicate Writable(digest: Bytes -> Hash, inodes: set<Uuid>, m: Marker, data: Bytes) {
    m.inode in inodes && m.hash == digest(data) && (m.blob.Some? ==> m.size == |data|)
  }

  lemma TwoWrites(digest: Bytes -> Hash, inodes: set<Uuid>, m: Marker, one: Bytes, x: Marker, two: Bytes) returns (steps: seq<Step>, t: Sys)
    requires Writable(digest, inodes, m, one) && Writable(digest, inodes, x, two) && m.seqno == 1 && x.seqno == 2
    requires m.version != x.version && (m.blob.Some? ==> m.blob != x.blob)
    ensures Run(digest, Begin(2, inodes), steps, t) && Plain(steps) && TwoQueued(t, m, x) && t.b.w.db == Begin(2, inodes).b.w.db
    ensures t.r.overlay == map[m.inode := ViewOf(m)][x.inode := ViewOf(x)]
    ensures t.b.w.store == var store := if m.blob.Some? then map[m.blob.value := one] else map[];
                           if x.blob.Some? then store[x.blob.value := two] else store
  {
    var s0 := Begin(2, inodes);
    var a := Write(digest, s0, m, one);
    var s1 := Written(s0, m, one);
    var b := Write(digest, s1, x, two);
    t := Written(s1, x, two);
    RunAppend(digest, s0, a, s1, b, t);
    steps := a + b;
  }

  // ---- the drain takes a name ----

  predicate Committing(s: Sys, m: Marker) {
    s.b.consumers == map[] && NameOf(m) in s.b.w.queue && s.b.w.queue[NameOf(m)] == m && m.inode in s.b.w.db.inodes
  }

  /** From the channel to the marker's contents. */
  lemma TakeAndOpen(digest: Bytes -> Hash, s: Sys, m: Marker, rest: seq<Name>) returns (steps: seq<Step>, t: Sys)
    requires s.r.drain.Waiting? && s.r.channel == [NameOf(m)] + rest && Committing(s, m)
    ensures Run(digest, s, steps, t) && Plain(steps)
    ensures t == Sys(s.b.(consumers := map[0 := I.Loaded(m)]), s.r.(channel := rest, drain := Working(NameOf(m), Some(m.inode))))
  {
    var a := D.Take(digest, s, NameOf(m), rest, false);
    var s1 := s.(r := s.r.(channel := rest, drain := Known(NameOf(m), Some(m.inode))));
    var b, s2 := D.OpenStep(digest, s1, NameOf(m), Some(m.inode));
    RunAppend(digest, s, a, s1, b, s2);
    steps, t := a + b, s2;
  }

  lemma ExternalCommits(db: Db, m: Marker)
    requires m.blob.None?
    ensures CommitTx(db, m).Some? && C.CommitOne(db, m).inodes.Keys == db.inodes.Keys
  {
    TxShape(db, m);
  }

  /** One whole turn for an external-path marker, the owner read or not. */
  lemma ExternalTurn(digest: Bytes -> Hash, s: Sys, m: Marker, rest: seq<Name>, looks: bool) returns (steps: seq<Step>, t: Sys)
    requires s.r.drain.Waiting? && s.r.channel == [NameOf(m)] + rest && Committing(s, m) && m.blob.None?
    ensures Run(digest, s, steps, t)
    ensures t.b.consumers == map[] && t.b.w.queue == s.b.w.queue - {NameOf(m)} && t.b.w.db == C.CommitOne(s.b.w.db, m)
    ensures var o := if looks then Some(m.inode) else None;
      t.r == s.r.(channel := rest, inflight := s.r.inflight - {NameOf(m)}, overlay := Retracted(s.r.overlay, o, NameOf(m)),
                  outstanding := Given(s.r.outstanding), done := s.r.done + 1)
  {
    ExternalCommits(s.b.w.db, m);
    steps, t := D.DrainTurnIsARun(digest, s, NameOf(m), rest, !looks, P.NoFaults);
  }

  lemma ScanAndSend(digest: Bytes -> Hash, s: Sys, n: Name) returns (steps: seq<Step>, t: Sys)
    requires s.r.scan == [] && s.b.w.queue.Keys == {n} && n !in s.r.inflight
    ensures Run(digest, s, steps, t)
    ensures t == s.(r := s.r.(inflight := s.r.inflight + {n}, channel := s.r.channel + [n]))
  {
    assert Listed(s.b.w.queue, [n]);
    var a, s1 := OneStep(digest, s, ScanList([n]));
    var b, s2 := OneStep(digest, s1, ScanSend);
    RunAppend(digest, s, a, s1, b, s2);
    steps, t := a + b, s2;
  }

  // ---- a failure that is still being recorded ----

  lemma FailAndMiss(digest: Bytes -> Hash, s: Sys, m: Marker) returns (steps: seq<Step>, t: Sys)
    requires s.r.drain.Waiting? && s.r.channel == [NameOf(m)] + [] && Committing(s, m) && s.b.w.queue.Keys == {NameOf(m)}
    requires s.r.scan == [] && NameOf(m) in s.r.inflight
    ensures Run(digest, s, steps, t) && Quiet(t) && NameOf(m) in t.b.w.queue
  {
    var a, s1 := TakeAndOpen(digest, s, m, []);
    var b, s2 := OneStep(digest, s1, Fail);
    assert Listed(s2.b.w.queue, [NameOf(m)]);
    var c, s3 := OneStep(digest, s2, ScanList([NameOf(m)]));
    t := RescanMissesAFailureBeingRecorded(digest, s3, NameOf(m));
    RunAppend(digest, s2, c, s3, [ScanSkip, Clear, Withdraw], t);
    RunAppend(digest, s1, b, s2, c + [ScanSkip, Clear, Withdraw], t);
    steps := a + (b + (c + [ScanSkip, Clear, Withdraw]));
    RunAppend(digest, s, a, s1, b + (c + [ScanSkip, Clear, Withdraw]), t);
  }

  /** One write, one failed commit and one scan in between: after draining, the
      marker is still queued and nobody is going to look at it. */
  lemma MissedFailureIsReachable(digest: Bytes -> Hash, data: Bytes) returns (steps: seq<Step>, t: Sys)
    ensures Run(digest, Begin(1, {0}), steps, t) && Quiet(t)
    ensures NameOf(ExternalWrite(digest, data, 1, 0)) in t.b.w.queue
  {
    var m := ExternalWrite(digest, data, 1, 0);
    var s0 := Begin(1, {0});
    var a := Write(digest, s0, m, data);
    var s1 := Written(s0, m, data);
    var b, s2 := FailAndMiss(digest, s1, m);
    RunAppend(digest, s0, a, s1, b, s2);
    steps, t := a + b, s2;
  }

  // ---- a marker drained before it is published ----

  lemma DrainThenPublish(digest: Bytes -> Hash, s: Sys, m: Marker) returns (steps: seq<Step>, t: Sys)
    requires s.r.drain.Waiting? && s.r.channel == [NameOf(m)] && s.r.scan == [] && s.r.inflight == {NameOf(m)}
    requires Committing(s, m) && m.blob.None? && s.r.writer == Durable(m) && s.b.w.queue.Keys == {NameOf(m)}
    ensures Run(digest, s, steps, t) && Quiet(t) && t.r.writer.Idle? && t.r.inflight == {} && t.b.w.queue == map[]
    ensures m.inode in t.r.overlay && t.r.overlay[m.inode] == ViewOf(m)
  {
    var a, s1 := ExternalTurn(digest, s, m, [], true);
    t := PublishAfterDrainLeavesStaleView(digest, s1, m);
    var c := [Publish, Send, Receive, ReadOwner, Open, Clear, Withdraw];
    RunAppend(digest, s, a, s1, c, t);
    steps := a + c;
  }

  /** One write and one scan between its rename and its publication: in the end
      everything is drained, yet the overlay shows a marker that is gone. */
  lemma StaleViewIsReachable(digest: Bytes -> Hash, data: Bytes) returns (steps: seq<Step>, t: Sys)
    ensures Run(digest, Begin(1, {0}), steps, t) && Quiet(t) && t.r.writer.Idle? && t.r.inflight == {} && t.b.w.queue == map[]
    ensures 0 in t.r.overlay && t.r.overlay[0] == ViewOf(ExternalWrite(digest, data, 1, 0))
  {
    var m := ExternalWrite(digest, data, 1, 0);
    var s0 := Begin(1, {0});
    var a := Rename(digest, s0, m, data);
    var s1 := RenamedTo(s0, m, data);
    var b, s2 := ScanAndSend(digest, s1, NameOf(m));
    RunAppend(digest, s0, a, s1, b, s2);
    var c, s3 := DrainThenPublish(digest, s2, m);
    RunAppend(digest, s0, a + b, s2, c, s3);
    steps, t := a + b + c, s3;
  }

  // ---- a commit whose owner could not be read ----

  /** One write whose inode the drain fails to read up front: no commit fails, all
      is drained, and the overlay keeps the entry. */
  lemma OwnerlessViewIsReachable(digest: Bytes -> Hash, data: Bytes) returns (steps: seq<Step>, t: Sys)
    ensures Run(digest, Begin(1, {0}), steps, t) && Quiet(t) && t.r.writer.Idle? && t.r.inflight == {} && t.b.w.queue == map[]
    ensures 0 in t.r.overlay && t.r.overlay[0] == ViewOf(ExternalWrite(digest, data, 1, 0))
  {
    var m := ExternalWrite(digest, data, 1, 0);
    var s0 := Begin(1, {0});
    var a := Write(digest, s0, m, data);
    var s1 := Written(s0, m, data);
    assert s1.r.channel == [NameOf(m)] + [];
    var b, s2 := ExternalTurn(digest, s1, m, [], false);
    RunAppend(digest, s0, a, s1, b, s2);
    steps, t := a + b, s2;
  }

  // ---- a failed commit retried after its successor ----

  lemma FirstFailsSecondCommits(digest: Bytes -> Hash, s: Sys, m: Marker, x: Marker) returns (steps: seq<Step>, t: Sys)
    requires s.r.drain.Waiting? && s.r.channel == [NameOf(m), NameOf(x)] && s.r.scan == [] && s.r.inflight == {NameOf(m), NameOf(x)}
    requires Committing(s, m) && Committing(s, x) && m.blob.None? && x.blob.None? && NameOf(m) != NameOf(x)
    requires s.b.w.queue.Keys == {NameOf(m), NameOf(x)} && s.r.writer.Idle?
    ensures Run(digest, s, steps, t) && t.r.acks == s.r.acks && t.r.writer.Idle?
    ensures t.r.drain.Waiting? && t.r.channel == [] && t.r.scan == [] && t.r.inflight == {}
    ensures t.b.consumers == map[] && t.b.w.queue == map[NameOf(m) := m] && t.b.w.db == C.CommitOne(s.b.w.db, x)
  {
    assert s.r.channel == [NameOf(m)] + [NameOf(x)];
    var a, s1 := D.DrainTurnIsARun(digest, s, NameOf(m), [NameOf(x)], false, P.NoFaults.(txFails := true));
    assert s1.r.channel == [NameOf(x)] + [];
    var b, s2 := ExternalTurn(digest, s1, x, [], true);
    RunAppend(digest, s, a, s1, b, s2);
    steps, t := a + b, s2;
  }

  lemma Retry(digest: Bytes -> Hash, s: Sys, m: Marker) returns (steps: seq<Step>, t: Sys)
    requires s.r.drain.Waiting? && s.r.channel == [] && s.r.scan == [] && s.r.inflight == {} && s.r.writer.Idle?
    requires s.b.consumers == map[] && s.b.w.queue == map[NameOf(m) := m] && m.inode in s.b.w.db.inodes && m.blob.None?
    ensures Run(digest, s, steps, t) && Quiet(t) && t.r.acks == s.r.acks && t.b.w.queue == map[]
    ensures t.b.w.db == C.CommitOne(s.b.w.db, m)
  {
    var a, s1 := ScanAndSend(digest, s, NameOf(m));
    assert s1.r.channel == [NameOf(m)] + [];
    var b, s2 := ExternalTurn(digest, s1, m, [], true);
    RunAppend(digest, s, a, s1, b, s2);
    steps, t := a + b, s2;
  }

  lemma TwoInReverse(db: Db, m: Marker, x: Marker)
    requires Chained(db) && m.inode == x.inode && m.inode in db.inodes && m.version != x.version
    requires m.blob.None? && x.blob.None? && m.version !in db.versions && x.version !in db.versions
    ensures Latest(C.CommitOne(C.CommitOne(db, x), m), m.inode) == Some(m.version)
  {
    var ms := [x, m];
    assert ms[..1] == [x] && [x][..0] == [] && ms[..0] == [];
    assert C.CommitAll(db, [x]) == C.CommitOne(db, x);
    assert C.CommitAll(db, ms) == C.CommitOne(C.CommitOne(db, x), m);
    ExternalCommits(db, x);
    ExternalCommits(C.CommitOne(db, x), m);
    forall t | 0 <= t < |ms| ensures CommitTx(C.CommitAll(db, ms[..t]), ms[t]).Some? {
      ExternalCommits(C.CommitAll(db, ms[..t]), ms[t]);
    }
    C.LastCommittedIsCurrent(db, ms, m.inode);
  }

  /** Two writes to one file, the first one's commit failing once: after the scan
      has retried it all is drained, both are committed, and the file shows the
      write that was acknowledged first. */
  lemma RetryRevertsTheFile(digest: Bytes -> Hash, one: Bytes, two: Bytes) returns (steps: seq<Step>, t: Sys)
    ensures Run(digest, Begin(2, {0}), steps, t) && Quiet(t) && t.b.w.queue == map[]
    ensures t.r.acks == [ExternalWrite(digest, one, 1, 0), ExternalWrite(digest, two, 2, 1)]
    ensures Latest(t.b.w.db, 0) == Some(0)
  {
    var m, x := ExternalWrite(digest, one, 1, 0), ExternalWrite(digest, two, 2, 1);
    var s0 := Begin(2, {0});
    var a, s2 := TwoWrites(digest, {0}, m, one, x, two);
    var b, s3 := FirstFailsSecondCommits(digest, s2, m, x);
    RunAppend(digest, s0, a, s2, b, s3);
    ExternalCommits(s0.b.w.db, x);
    var c, s4 := Retry(digest, s3, m);
    RunAppend(digest, s0, a + b, s3, c, s4);
    BeginFifo(digest, 2, {0});
    TwoInReverse(s0.b.w.db, m, x);
    steps, t := a + b + c, s4;
  }

  // ---- bytes deleted under a reader ----

  /** A turn that creates the shared row. */
  lemma FirstTurn(digest: Bytes -> Hash, s: Sys, m: Marker, rest: seq<Name>) returns (steps: seq<Step>, t: Sys)
    requires s.r.drain.Waiting? && s.r.channel == [NameOf(m)] + rest && Committing(s, m) && m.shared && m.blob.Some?
    requires m.hash !in s.b.w.db.dedup && !RowExists(s.b.w.db, m.blob.value) && m.version !in s.b.w.db.versions
    ensures Run(digest, s, steps, t) && Plain(steps)
    ensures t.r.drain.Waiting? && t.r.channel == rest && t.r.overlay == Retracted(s.r.overlay, Some(m.inode), NameOf(m)) && t.r.acks == s.r.acks
    ensures t.b.consumers == map[] && t.b.w.queue == s.b.w.queue - {NameOf(m)} && t.b.w.store == s.b.w.store
    ensures t.b.w.db.dedup == s.b.w.db.dedup[m.hash := m.blob.value] && t.b.w.db.inodes.Keys == s.b.w.db.inodes.Keys
  {
    assert CommitTx(s.b.w.db, m).Some?;
    TxShape(s.b.w.db, m);
    steps, t := D.DrainTurnIsARun(digest, s, NameOf(m), rest, false, P.NoFaults);
  }

  lemma WorkStep(digest: Bytes -> Hash, s: Sys, x: I.Step) returns (steps: seq<Step>, t: Sys)
    requires s.r.drain.Working? && X.Inner(x, 0) && I.Enabled(digest, s.b, x)
    ensures Run(digest, s, steps, t) && Plain(steps) && t == s.(b := I.Apply(s.b, x, digest))
  {
    D.InnerStep(s, x);
    steps, t := OneStep(digest, s, Step.Work(x));
  }

  /** A marker that finds its content's row, from reading it to deleting its copy. */
  lemma DiscardCopy(digest: Bytes -> Hash, s: Sys, m: Marker) returns (steps: seq<Step>, t: Sys)
    requires s.r.drain.Working? && X.At(s.b, 0, I.Loaded(m)) && m.blob.Some? && CommitTx(s.b.w.db, m).Some?
    requires var r := CommitTx(s.b.w.db, m).value; Redundant(m, r) && r.canonical.value in s.b.w.store
    ensures Run(digest, s, steps, t) && Plain(steps) && t.r == s.r
    ensures t.b.w.store == s.b.w.store - {m.blob.value} && t.b.w.db == CommitTx(s.b.w.db, m).value.db
  {
    X.TransactState(s.b, 0, m);
    var a, s1 := WorkStep(digest, s, I.Transact(0));
    X.CheckState(s1.b, 0, m, CommitTx(s.b.w.db, m).value.canonical.value, true);
    var b, s2 := WorkStep(digest, s1, I.CheckCanonical(0));
    var c, s3 := WorkStep(digest, s2, I.DeleteProvisional(0));
    RunAppend(digest, s1, b, s2, c, s3);
    RunAppend(digest, s, a, s1, b + c, s3);
    steps, t := a + (b + c), s3;
  }

  /** A turn that finds the row, up to deleting its own copy. */
  lemma SecondTurn(digest: Bytes -> Hash, s: Sys, m: Marker, rest: seq<Name>) returns (steps: seq<Step>, t: Sys)
    requires s.r.drain.Waiting? && s.r.channel == [NameOf(m)] + rest && Committing(s, m) && m.shared && m.blob.Some?
    requires m.hash in s.b.w.db.dedup && s.b.w.db.dedup[m.hash] != m.blob.value && s.b.w.db.dedup[m.hash] in s.b.w.store
    ensures Run(digest, s, steps, t) && Plain(steps)
    ensures t.r.overlay == s.r.overlay && t.r.acks == s.r.acks
    ensures t.b.w.store == s.b.w.store - {m.blob.value} && t.b.w.db.inodes.Keys == s.b.w.db.inodes.Keys
  {
    assert CommitTx(s.b.w.db, m).Some?;
    TxShape(s.b.w.db, m);
    var a, s1 := TakeAndOpen(digest, s, m, rest);
    var b, s2 := DiscardCopy(digest, s1, m);
    RunAppend(digest, s, a, s1, b, s2);
    steps, t := a + b, s2;
  }

  lemma DrainBoth(digest: Bytes -> Hash, s: Sys, m: Marker, x: Marker) returns (steps: seq<Step>, t: Sys)
    requires TwoQueued(s, m, x) && NameOf(m) != NameOf(x) && m.inode != x.inode
    requires m.shared && x.shared && m.hash == x.hash && m.blob.Some? && x.blob.Some? && m.blob != x.blob && m.blob.value in s.b.w.store
    requires s.b.w.db.dedup == map[] && s.b.w.db.owned == map[] && s.b.w.db.versions == map[]
    ensures Run(digest, s, steps, t) && Plain(steps) && t.r.acks == s.r.acks
    ensures t.r.overlay == Retracted(s.r.overlay, Some(m.inode), NameOf(m))
    ensures t.b.w.store == s.b.w.store - {x.blob.value} && t.b.w.db.inodes.Keys == s.b.w.db.inodes.Keys
  {
    assert s.r.channel == [NameOf(m)] + [NameOf(x)];
    var a, s1 := FirstTurn(digest, s, m, [NameOf(x)]);
    assert s1.r.channel == [NameOf(x)] + [];
    var b, s2 := SecondTurn(digest, s1, x, []);
    RunAppend(digest, s, a, s1, b, s2);
    steps, t := a + b, s2;
  }

  lemma {:induction false} PlainIsSteady(digest: Bytes -> Hash, s: Sys, steps: seq<Step>, t: Sys)
    requires Plain(steps) && Run(digest, s, steps, t)
    ensures R.SteadyRun(digest, s, steps, t)
    decreases |steps|
  {
    if steps != [] { PlainIsSteady(digest, Apply(s, steps[0], digest), steps[1..], t); }
  }

  /** Two equal writes to two files: while the drain commits the second, a reader
      of the second file is sent to bytes that are gone, in a steady run. */
  lemma LostCopyIsReachable(digest: Bytes -> Hash, data: Bytes) returns (steps: seq<Step>, t: Sys)
    ensures R.SteadyRun(digest, Begin(2, {0, 1}), steps, t) && 1 in t.b.w.db.inodes
    ensures t.r.acks == [SharedWrite(digest, data, 0), SharedWrite(digest, data, 1)]
    ensures 1 in t.r.overlay && R.Resolved(t, 1).blob == Some(1) && 1 !in t.b.w.store
  {
    var m, x := SharedWrite(digest, data, 0), SharedWrite(digest, data, 1);
    var s0 := Begin(2, {0, 1});
    var a, s1 := TwoWrites(digest, {0, 1}, m, data, x, data);
    var b, s2 := DrainBoth(digest, s1, m, x);
    RunAppend(digest, s0, a, s1, b, s2);
    steps, t := a + b, s2;
    PlainIsSteady(digest, s0, steps, t);
  }

  // ---- a private marker that can never be committed ----

  /** A private write committed by a recovery that crashes before its unlink:
      the marker is still queued and can no longer be committed. */
  lemma StuckMarkerIsReachable(digest: Bytes -> Hash, data: Bytes) returns (steps: seq<I.Step>, t: I.State, m: Marker)
    ensures I.Run(digest, I.Initial, steps, t) && m in t.w.acked && NameOf(m) in t.w.queue && t.w.queue[NameOf(m)] == m
    ensures !I.Settles(t, m) && m.version in t.w.db.versions && m.inode in t.w.db.inodes
  {
    m := Marker(1, 0, 0, digest(data), Some(0), |data|, false);
    var a, s1 := I.OneStep(digest, I.Initial, I.CreateInode(0));
    var b, s2 := I.OneStep(digest, s1, I.Stage(m, data));
    var c, s3 := I.OneStep(digest, s2, I.Enqueue(m));
    var d, s4 := CommitAndCrash(digest, s3, m);
    I.RunAppend(digest, s2, c, s3, d, s4);
    I.RunAppend(digest, s1, b, s2, c + d, s4);
    I.RunAppend(digest, I.Initial, a, s1, b + (c + d), s4);
    steps, t := a + (b + (c + d)), s4;
  }

  lemma PrivateCommits(db: Db, m: Marker)
    requires !m.shared && m.blob.Some? && !RowExists(db, m.blob.value) && m.inode in db.inodes && m.version !in db.versions
    ensures CommitTx(db, m).Some?
    ensures var db' := CommitTx(db, m).value.db;
      m.blob.value in db'.owned && m.version in db'.versions && m.inode in db'.inodes && CommitTx(db', m).None?
  {
    TxShape(db, m);
  }

  lemma CommitAndCrash(digest: Bytes -> Hash, s: I.State, m: Marker) returns (steps: seq<I.Step>, t: I.State)
    requires s.consumers == map[] && s.w.queue == map[NameOf(m) := m] && m in s.w.acked && !m.shared && m.blob.Some?
    requires !RowExists(s.w.db, m.blob.value) && m.inode in s.w.db.inodes && m.version !in s.w.db.versions
    ensures I.Run(digest, s, steps, t) && t.w.queue == s.w.queue && m in t.w.acked
    ensures !I.Settles(t, m) && m.version in t.w.db.versions && m.inode in t.w.db.inodes
  {
    PrivateCommits(s.w.db, m);
    var a, s1 := I.OneStep(digest, s, I.Load(0, NameOf(m)));
    X.TransactState(s1, 0, m);
    var b, s2 := I.OneStep(digest, s1, I.Transact(0));
    assert I.Seeds(s2.w.queue, m.seqno + 1);
    var c, s3 := I.OneStep(digest, s2, I.Crash(m.seqno + 1));
    I.RunAppend(digest, s1, b, s2, c, s3);
    I.RunAppend(digest, s, a, s1, b + c, s3);
    steps, t := a + (b + c), s3;
  }
}
