/** Runs in which no commit fails: the queue is a suffix of the acknowledged
    writes, the version table covers the rest, and the drain works in between. */
module Fifo {
  import opened Records
  import opened Database
  import opened Pipeline
  import opened Quiescence
  import I = Interleaving

  /** No commit fails; anything else may happen, restarts included. */
  predicate Orderly(step: Step) { !step.Fail? }

  ghost predicate OrderlyRun(digest: Bytes -> Hash, s: Sys, steps: seq<Step>, t: Sys)
    decreases |steps|
  {
    if steps == [] then s == t
    else Enabled(digest, s, steps[0]) && Orderly(steps[0]) && OrderlyRun(digest, Apply(s, steps[0], digest), steps[1..], t)
  }

  /** A fresh file system with the given inodes and an empty queue. */
  ghost function Begin(limit: nat, inodes: set<Uuid>): Sys {
    var s := Initial(limit);
    s.(b := s.b.(w := s.b.w.(known := inodes, db := s.b.w.db.(inodes := map i | i in inodes :: InodeRow(None, 0)))))
  }

  // ---- the queue is a suffix of what was acknowledged ----

  predicate IsAck(acks: seq<Marker>, done: nat, t: int, n: Name) { done <= t < |acks| && NameOf(acks[t]) == n }

  /** The queue holds exactly the acknowledged writes from `done` on. */
  ghost predicate Suffix(queue: map<Name, Marker>, acks: seq<Marker>, done: nat) {
    && done <= |acks|
    && (forall t :: done <= t < |acks| ==> NameOf(acks[t]) in queue && queue[NameOf(acks[t])] == acks[t])
    && (forall n :: n in queue ==> exists t :: IsAck(acks, done, t, n))
  }

  /** Queued writes are numbered in the order they were acknowledged. */
  predicate Rising(acks: seq<Marker>, done: nat, top: nat) {
    && (forall t, u :: done <= t < u < |acks| ==> acks[t].seqno < acks[u].seqno)
    && (forall t :: done <= t < |acks| ==> acks[t].seqno < top)
  }

  /** The number the next enqueued marker carries, or a bound below it. */
  function Top(s: Sys): nat {
    if s.r.writer.Prepared? || s.r.writer.Admitted? then s.r.writer.m.seqno else s.b.w.nextSeq
  }

  ghost predicate Ledger(s: Sys) {
    Suffix(s.b.w.queue, s.r.acks, s.r.done) && Rising(s.r.acks, s.r.done, Top(s))
  }

  predicate LedgerStep(step: Step) {
    step.Prepare? || step.RefuseFull? || step.Enqueue? || step.EnqueueFails? || step.Checkpoint? || step.Restart?
  }

  lemma LedgerFrame(s: Sys, step: Step)
    requires Next(s, step).Some? && !LedgerStep(step)
    ensures var t := Next(s, step).value;
      t.b.w.queue == s.b.w.queue && t.r.acks == s.r.acks && t.r.done == s.r.done && Top(t) == Top(s)
  {
    if OnDisk(step) { BaseFrame(s, step); }
  }

  lemma SuffixPush(queue: map<Name, Marker>, acks: seq<Marker>, done: nat, m: Marker, top: nat)
    requires Suffix(queue, acks, done) && Rising(acks, done, m.seqno) && m.seqno < top
    ensures Suffix(queue[NameOf(m) := m], acks + [m], done) && Rising(acks + [m], done, top)
  {
    var queue', acks' := queue[NameOf(m) := m], acks + [m];
    forall n | n in queue' ensures exists t :: IsAck(acks', done, t, n) {
      if n == NameOf(m) { assert IsAck(acks', done, |acks|, n); }
      else { var t :| IsAck(acks, done, t, n); assert IsAck(acks', done, t, n); }
    }
    forall t | done <= t < |acks'| ensures NameOf(acks'[t]) in queue' && queue'[NameOf(acks'[t])] == acks'[t] {
      assert t < |acks| ==> acks'[t] == acks[t];
    }
  }

  lemma SuffixPop(queue: map<Name, Marker>, acks: seq<Marker>, done: nat, top: nat)
    requires Suffix(queue, acks, done) && Rising(acks, done, top) && done < |acks|
    ensures Suffix(queue - {NameOf(acks[done])}, acks, done + 1) && Rising(acks, done + 1, top)
  {
    var rest, next := queue - {NameOf(acks[done])}, done + 1;
    forall n | n in rest ensures exists t :: IsAck(acks, next, t, n) {
      var t :| IsAck(acks, done, t, n);
      assert IsAck(acks, next, t, n);
    }
  }

  lemma LedgerPop(s: Sys)
    requires I.Names(s.b.w) && Roles(s) && Ledger(s) && OldestInHand(s) && Next(s, Step.Checkpoint).Some?
    ensures Ledger(Next(s, Step.Checkpoint).value)
  {
    CheckpointLeaves(s);
    SuffixPop(s.b.w.queue, s.r.acks, s.r.done, Top(s));
  }

  lemma LedgerRestart(s: Sys, step: Step)
    requires I.Names(s.b.w) && Ledger(s) && Next(s, step).Some? && step.Restart?
    ensures Ledger(Next(s, step).value)
  {
    var t := Next(s, step).value;
    assert t.r.acks == s.r.acks && t.r.done == s.r.done && t.b.w.queue == s.b.w.queue && Top(t) == step.seed;
    QueuedBelow(s.b.w.queue, s.r.acks, s.r.done, Top(s), step.seed);
  }

  lemma QueuedBelow(queue: map<Name, Marker>, acks: seq<Marker>, done: nat, top: nat, seed: nat)
    requires Suffix(queue, acks, done) && Rising(acks, done, top) && forall n :: n in queue ==> n.seqno < seed
    ensures Rising(acks, done, seed)
  {
    forall t | done <= t < |acks| ensures acks[t].seqno < seed { assert NameOf(acks[t]) in queue; }
  }

  lemma LedgerWriter(s: Sys, step: Step)
    requires I.Names(s.b.w) && Roles(s) && Ledger(s) && Next(s, step).Some?
    requires step.Prepare? || step.RefuseFull? || step.EnqueueFails?
    ensures Ledger(Next(s, step).value)
  {
    var t := Next(s, step).value;
    assert t.b.w.queue == s.b.w.queue && t.r.acks == s.r.acks && t.r.done == s.r.done && Top(s) <= Top(t);
  }

  lemma LedgerKeeps(s: Sys, step: Step)
    requires I.Names(s.b.w) && Roles(s) && Ledger(s) && OldestInHand(s) && Next(s, step).Some?
    ensures Ledger(Next(s, step).value)
  {
    if !LedgerStep(step) { LedgerFrame(s, step); }
    else if step.Enqueue? { SuffixPush(s.b.w.queue, s.r.acks, s.r.done, s.r.writer.m, s.b.w.nextSeq); }
    else if step.Checkpoint? { LedgerPop(s); }
    else if step.Restart? { LedgerRestart(s, step); }
    else { LedgerWriter(s, step); }
  }

  // ---- the line: the name in the drain's hand, then the channel ----

  function Hand(d: Drain): seq<Name> {
    if d.Got? || d.Known? || d.Working? then [d.name] else []
  }

  function Line(r: Ram): seq<Name> { Hand(r.drain) + r.channel }

  /** In the line, a queued name comes after its predecessor. */
  predicate InOrder(line: seq<Name>, acks: seq<Marker>, done: nat) {
    forall p, t :: 0 <= p < |line| && done < t < |acks| && line[p] == NameOf(acks[t]) ==> NameOf(acks[t - 1]) in line[..p]
  }

  /** Every queued name is in the line, save the one still being submitted. */
  predicate AllInLine(line: seq<Name>, acks: seq<Marker>, done: nat, unsent: bool) {
    forall t :: done <= t < |acks| && (t < |acks| - 1 || !unsent) ==> NameOf(acks[t]) in line
  }

  predicate Unsent(w: Writer) { w.Durable? || w.Published? }

  predicate LineOk(s: Sys) {
    && InOrder(Line(s.r), s.r.acks, s.r.done)
    && AllInLine(Line(s.r), s.r.acks, s.r.done, Unsent(s.r.writer))
    && (Unsent(s.r.writer) ==> |s.r.acks| > 0 && s.r.acks[|s.r.acks| - 1] == s.r.writer.m)
  }

  predicate OldestInHand(s: Sys) {
    Hand(s.r.drain) != [] && s.r.drain.name in s.b.w.queue ==>
      s.r.done < |s.r.acks| && s.r.drain.name == NameOf(s.r.acks[s.r.done])
  }

  /** The first name in line, if queued, is the oldest acknowledged write. */
  lemma HandIsOldest(s: Sys)
    requires Ledger(s) && LineOk(s)
    ensures OldestInHand(s)
  {
    if Hand(s.r.drain) != [] && s.r.drain.name in s.b.w.queue {
      var n, line := s.r.drain.name, Line(s.r);
      assert line[0] == n;
      var t :| IsAck(s.r.acks, s.r.done, t, n);
      assert t == s.r.done by {
        var before := line[..0];
        assert before == [];
        var prior := if t > s.r.done then NameOf(s.r.acks[t - 1]) else line[0];
        assert t > s.r.done ==> prior in before;
      }
    }
  }

  lemma LineAppend(line: seq<Name>, acks: seq<Marker>, done: nat, unsent: bool, n: Name)
    requires InOrder(line, acks, done) && AllInLine(line, acks, done, unsent)
    ensures InOrder(line + [n], acks, done) && AllInLine(line + [n], acks, done, unsent)
  {
    var line' := line + [n];
    forall p, t | 0 <= p < |line'| && done < t < |acks| && line'[p] == NameOf(acks[t]) ensures NameOf(acks[t - 1]) in line'[..p] {
      assert line'[..p] == line[..p];
      if p == |line| { assert line[..p] == line; }
    }
  }

  /** The head may leave the line once no queued write has its name. */
  lemma LineDrop(line: seq<Name>, acks: seq<Marker>, done: nat, done': nat, unsent: bool)
    requires InOrder(line, acks, done) && AllInLine(line, acks, done, unsent) && line != [] && done <= done'
    requires forall t :: done' <= t < |acks| ==> NameOf(acks[t]) != line[0]
    ensures InOrder(line[1..], acks, done') && AllInLine(line[1..], acks, done', unsent)
  {
    var line' := line[1..];
    forall p, t | 0 <= p < |line'| && done' < t < |acks| && line'[p] == NameOf(acks[t]) ensures NameOf(acks[t - 1]) in line'[..p] {
      assert line[p + 1] == line'[p];
      assert line[..p + 1] == [line[0]] + line'[..p];
    }
    assert line == [line[0]] + line';
  }

  lemma LineSend(s: Sys)
    requires LineOk(s) && Next(s, Step.Send).Some?
    ensures LineOk(Next(s, Step.Send).value)
  {
    var n := NameOf(s.r.writer.m);
    LineAppend(Line(s.r), s.r.acks, s.r.done, true, n);
    assert Line(Next(s, Step.Send).value.r) == Line(s.r) + [n];
    assert n in Line(s.r) + [n];
  }

  lemma LineScanSend(s: Sys)
    requires LineOk(s) && Next(s, ScanSend).Some?
    ensures LineOk(Next(s, ScanSend).value)
  {
    LineAppend(Line(s.r), s.r.acks, s.r.done, Unsent(s.r.writer), s.r.scan[0]);
    assert Line(Next(s, ScanSend).value.r) == Line(s.r) + [s.r.scan[0]];
  }

  lemma LineOpen(s: Sys)
    requires Ledger(s) && LineOk(s) && Next(s, Open).Some?
    ensures LineOk(Next(s, Open).value)
  {
    var acks, done, n := s.r.acks, s.r.done, s.r.drain.name;
    var r' := Next(s, Open).value.r;
    assert r'.acks == acks && r'.done == done && r'.writer == s.r.writer && r'.channel == s.r.channel;
    if n !in s.b.w.queue {
      LineDrop(Line(s.r), acks, done, done, Unsent(s.r.writer));
      assert Line(s.r)[1..] == r'.channel == Line(r');
    } else {
      assert Line(r') == Line(s.r);
    }
  }

  lemma CheckpointRam(s: Sys)
    requires Roles(s) && OldestInHand(s) && Next(s, Step.Checkpoint).Some?
    ensures !s.r.drain.Waiting? && !s.r.drain.Withdrawn? && Line(s.r) == [s.r.drain.name] + s.r.channel
    ensures s.r.done < |s.r.acks| && s.r.drain.name == NameOf(s.r.acks[s.r.done])
    ensures var r' := Next(s, Step.Checkpoint).value.r;
      r'.acks == s.r.acks && r'.done == s.r.done + 1 && r'.writer == s.r.writer && Line(r') == s.r.channel
  { }

  // ---- a restart lists the queue in order ----

  function NamesOf(acks: seq<Marker>, done: nat): (r: seq<Name>)
    requires done <= |acks|
    ensures |r| == |acks| - done && forall k :: 0 <= k < |r| ==> r[k] == NameOf(acks[done + k])
  {
    seq(|acks| - done, k requires 0 <= k < |acks| - done => NameOf(acks[done + k]))
  }

  predicate Ascending(names: seq<Name>) {
    forall p, q :: 0 <= p < q < |names| ==> names[p].seqno < names[q].seqno
  }

  lemma {:induction false} SortedUnique(a: seq<Name>, b: seq<Name>)
    requires Ascending(a) && Ascending(b) && forall n :: n in a <==> n in b
    ensures a == b
    decreases |a|
  {
    assert (a != [] ==> a[0] in a) && (b != [] ==> b[0] in b);
    if a != [] && b != [] {
      assert a[0] in b && b[0] in a;
      var p :| 0 <= p < |b| && b[p] == a[0];
      var q :| 0 <= q < |a| && a[q] == b[0];
      assert a[0] == b[0];
      assert a == [a[0]] + a[1..] && b == [b[0]] + b[1..];
      forall n ensures n in a[1..] <==> n in b[1..] {
        assert n in a <==> n == a[0] || n in a[1..];
        assert n in b <==> n == b[0] || n in b[1..];
        assert n in a[1..] ==> n.seqno > a[0].seqno;
        assert n in b[1..] ==> n.seqno > b[0].seqno;
      }
      SortedUnique(a[1..], b[1..]);
    }
  }

  /** The listing is the acknowledged, uncheckpointed writes, oldest first. */
  lemma ListedIsSuffix(queue: map<Name, Marker>, acks: seq<Marker>, done: nat, top: nat, names: seq<Name>)
    requires Suffix(queue, acks, done) && Rising(acks, done, top) && Listed(queue, names)
    ensures names == NamesOf(acks, done)
  {
    forall n ensures n in names <==> n in NamesOf(acks, done) { SuffixNames(queue, acks, done, n); }
    forall p, q | 0 <= p < q < |names| ensures names[p].seqno < names[q].seqno {
      assert names[p] in names && names[q] in names;
      var t :| IsAck(acks, done, t, names[p]);
      var u :| IsAck(acks, done, u, names[q]);
      assert t != u;
    }
    SortedUnique(names, NamesOf(acks, done));
  }

  lemma SuffixNames(queue: map<Name, Marker>, acks: seq<Marker>, done: nat, n: Name)
    requires Suffix(queue, acks, done)
    ensures n in queue <==> n in NamesOf(acks, done)
  {
    var ns := NamesOf(acks, done);
    if n in queue { var t :| IsAck(acks, done, t, n); assert ns[t - done] == n; }
    if n in ns { var k :| 0 <= k < |ns| && ns[k] == n; assert NameOf(acks[done + k]) in queue; }
  }

  lemma LineRestart(s: Sys, step: Step)
    requires Ledger(s) && Next(s, step).Some? && step.Restart?
    ensures LineOk(Next(s, step).value)
  {
    var r' := Next(s, step).value.r;
    assert r'.acks == s.r.acks && r'.done == s.r.done && r'.writer.Idle? && Line(r') == step.names;
    ListedIsSuffix(s.b.w.queue, s.r.acks, s.r.done, Top(s), step.names);
    SuffixLine(s.r.acks, s.r.done, Top(s));
  }

  lemma SuffixLine(acks: seq<Marker>, done: nat, top: nat)
    requires done <= |acks| && Rising(acks, done, top)
    ensures InOrder(NamesOf(acks, done), acks, done) && AllInLine(NamesOf(acks, done), acks, done, false)
  {
    var line := NamesOf(acks, done);
    forall p, t | 0 <= p < |line| && done < t < |acks| && line[p] == NameOf(acks[t]) ensures NameOf(acks[t - 1]) in line[..p] {
      assert acks[done + p].seqno == acks[t].seqno;
      assert line[..p][p - 1] == NameOf(acks[t - 1]);
    }
    forall t | done <= t < |acks| ensures NameOf(acks[t]) in line { assert line[t - done] == NameOf(acks[t]); }
  }

  predicate LineStep(step: Step) {
    step.Enqueue? || step.Send? || step.ScanSend? || step.Open? || step.Checkpoint? || step.Restart?
  }

  lemma LineFrame(s: Sys, step: Step)
    requires LineOk(s) && Next(s, step).Some? && !LineStep(step) && !step.Fail?
    ensures LineOk(Next(s, step).value)
  {
    var t := Next(s, step).value;
    if OnDisk(step) { BaseFrame(s, step); }
    assert Line(t.r) == Line(s.r);
  }

  lemma LineKeeps(s: Sys, step: Step)
    requires Roles(s) && PastNames(s) && Ledger(s) && LineOk(s) && OldestInHand(s) && Next(s, step).Some? && !step.Fail?
    ensures LineOk(Next(s, step).value)
  {
    if !LineStep(step) { LineFrame(s, step); }
    else if step.Enqueue? { LineEnqueue(s); }
    else if step.Send? { LineSend(s); }
    else if step.ScanSend? { LineScanSend(s); }
    else { LineKeepsRest(s, step); }
  }

  lemma LineEnqueue(s: Sys)
    requires Roles(s) && PastNames(s) && Ledger(s) && LineOk(s) && Next(s, Step.Enqueue).Some?
    ensures LineOk(Next(s, Step.Enqueue).value)
  {
    assert s.r.writer.m in s.b.w.staged;
    assert NameOf(s.r.writer.m) !in Line(s.r);
  }

  lemma LineKeepsRest(s: Sys, step: Step)
    requires Roles(s) && Ledger(s) && LineOk(s) && OldestInHand(s) && Next(s, step).Some?
    requires step.Open? || step.Checkpoint? || step.Restart?
    ensures LineOk(Next(s, step).value)
  {
    if step.Open? { LineOpen(s); }
    else if step.Checkpoint? { LineCheckpoint(s); }
    else { LineRestart(s, step); }
  }

  lemma LineCheckpoint(s: Sys)
    requires Roles(s) && Ledger(s) && LineOk(s) && OldestInHand(s) && Next(s, Step.Checkpoint).Some?
    ensures LineOk(Next(s, Step.Checkpoint).value)
  {
    CheckpointRam(s);
    LinePop(s.r.drain.name, s.r.channel, s.r.acks, s.r.done, Top(s), Unsent(s.r.writer));
  }

  lemma LinePop(n: Name, rest: seq<Name>, acks: seq<Marker>, done: nat, top: nat, unsent: bool)
    requires InOrder([n] + rest, acks, done) && AllInLine([n] + rest, acks, done, unsent) && Rising(acks, done, top)
    requires done < |acks| && n == NameOf(acks[done])
    ensures InOrder(rest, acks, done + 1) && AllInLine(rest, acks, done + 1, unsent)
  {
    LineDrop([n] + rest, acks, done, done + 1, unsent);
    assert ([n] + rest)[1..] == rest;
  }

  // ---- the version table covers what is done ----

  type Versions = map<Uuid, VersionRow>

  predicate Shrinks(vs: Versions, vs': Versions) {
    forall v :: v in vs' ==> v in vs && vs'[v] == vs[v]
  }

  /** One row is new, and it is numbered above every other row of its inode. */
  predicate AddsTop(vs: Versions, vs': Versions, m: Marker) {
    && m.version !in vs && vs'.Keys == vs.Keys + {m.version} && vs'[m.version].inode == m.inode
    && (forall v :: v in vs ==> vs'[v] == vs[v])
    && (forall v :: v in vs && vs[v].inode == m.inode ==> vs[v].number < vs'[m.version].number)
  }

  lemma TxAddsTop(db: Db, m: Marker)
    requires CommitTx(db, m).Some?
    ensures var r := CommitTx(db, m).value;
      if r.inserted then AddsTop(db.versions, r.db.versions, m) else r.db == db
  {
    TxShape(db, m);
    var r := CommitTx(db, m).value;
    if r.inserted {
      forall v | v in db.versions && db.versions[v].inode == m.inode ensures db.versions[v].number < r.db.versions[m.version].number {
        LatestExists(db, m.inode, v);
        if m.blob.Some? { LatestExists(InsertBlob(db, m.hash, m.blob.value, m.shared).value.0, m.inode, v); }
      }
    }
  }

  /** Only the drain's transaction adds a row: the row of the marker in hand. */
  lemma VersionsMove(s: Sys, step: Step)
    requires Roles(s) && Next(s, step).Some?
    ensures var vs, vs' := s.b.w.db.versions, Next(s, step).value.b.w.db.versions;
      Shrinks(vs, vs') || (step == Work(I.Transact(0)) && AddsTop(vs, vs', s.b.consumers[0].m))
  {
    if step == Work(I.Transact(0)) { TxAddsTop(s.b.w.db, s.b.consumers[0].m); }
    else if OnDisk(step) { BaseFrame(s, step); }
    else { DiskFrame(s, step); }
  }

  predicate AckIds(acks: seq<Marker>, acked: set<Marker>) {
    && (forall t :: 0 <= t < |acks| ==> acks[t] in acked)
    && (forall m :: m in acked ==> m in acks)
    && (forall t, u :: 0 <= t < u < |acks| ==> acks[t].version != acks[u].version)
  }

  lemma AckIdsKeep(s: Sys, step: Step)
    requires I.FreshIds(s.b.w) && Roles(s) && AckIds(s.r.acks, s.b.w.acked) && Next(s, step).Some?
    ensures var t := Next(s, step).value; AckIds(t.r.acks, t.b.w.acked)
  {
    if OnDisk(step) { BaseFrame(s, step); }
  }

  predicate Later(vs: Versions, acks: seq<Marker>, done: nat) {
    forall t :: done < t < |acks| ==> acks[t].version !in vs
  }

  /** Nothing after the oldest queued write is committed. */
  predicate NotYet(s: Sys) {
    Later(s.b.w.db.versions, s.r.acks, s.r.done)
  }

  predicate Follows(vs: Versions, a: Marker, b: Marker) {
    a.version in vs && b.version in vs && a.inode == b.inode ==> vs[a.version].number < vs[b.version].number
  }

  predicate NumbersFollow(vs: Versions, acks: seq<Marker>) {
    forall t, u :: 0 <= t < u < |acks| ==> Follows(vs, acks[t], acks[u])
  }

  predicate RowsMatch(vs: Versions, acks: seq<Marker>) {
    forall t :: 0 <= t < |acks| && acks[t].version in vs ==> vs[acks[t].version].inode == acks[t].inode
  }

  lemma RowsMatchAcks(w: I.World, acks: seq<Marker>)
    requires I.FreshIds(w) && I.VersionRows(w) && forall t :: 0 <= t < |acks| ==> acks[t] in w.acked
    ensures RowsMatch(w.db.versions, acks)
  {
    forall t | 0 <= t < |acks| && acks[t].version in w.db.versions ensures w.db.versions[acks[t].version].inode == acks[t].inode {
      assert I.Made(w, acks[t]);
    }
  }

  /** The marker in hand is the oldest queued write. */
  lemma HandMarker(s: Sys)
    requires I.Names(s.b.w) && Roles(s) && Ledger(s) && OldestInHand(s) && s.r.drain.Working?
    ensures s.r.done < |s.r.acks| && s.b.consumers[0].m == s.r.acks[s.r.done]
  { }

  /** The oldest queued write gets the highest number and leaves the rest uncommitted. */
  lemma OrderAdds(vs: Versions, vs': Versions, acks: seq<Marker>, done: nat)
    requires Later(vs, acks, done) && NumbersFollow(vs, acks) && RowsMatch(vs, acks) && done < |acks|
    requires Shrinks(vs, vs') || AddsTop(vs, vs', acks[done])
    requires forall t, u :: 0 <= t < u < |acks| ==> acks[t].version != acks[u].version
    ensures Later(vs', acks, done) && NumbersFollow(vs', acks)
  {
    forall t, u | 0 <= t < u < |acks| ensures Follows(vs', acks[t], acks[u]) {
      assert Follows(vs, acks[t], acks[u]);
      assert t == done ==> acks[u].version !in vs';
    }
  }

  lemma OrderStays(vs: Versions, vs': Versions, acks: seq<Marker>, more: seq<Marker>, done: nat, done': nat)
    requires Later(vs, acks, done) && NumbersFollow(vs, acks) && Shrinks(vs, vs') && done <= done'
    requires |more| <= 1 && (more != [] ==> more[0].version !in vs')
    ensures Later(vs', acks + more, done') && NumbersFollow(vs', acks + more)
  {
    var acks' := acks + more;
    forall t, u | 0 <= t < u < |acks'| ensures Follows(vs', acks'[t], acks'[u]) {
      if u < |acks| { assert Follows(vs, acks[t], acks[u]); }
    }
  }

  lemma StagedIsUnseen(w: I.World, m: Marker)
    requires I.FreshIds(w) && I.VersionRows(w) && m in w.staged
    ensures m.version !in w.db.versions
  {
    assert I.Made(w, m);
  }

  lemma OrderKeeps(s: Sys, step: Step)
    requires I.FreshIds(s.b.w) && I.VersionRows(s.b.w) && I.Names(s.b.w) && Roles(s) && Ledger(s) && OldestInHand(s)
    requires AckIds(s.r.acks, s.b.w.acked) && NotYet(s) && NumbersFollow(s.b.w.db.versions, s.r.acks) && Next(s, step).Some?
    ensures var t := Next(s, step).value; NotYet(t) && NumbersFollow(t.b.w.db.versions, t.r.acks)
  {
    var t := Next(s, step).value;
    VersionsMove(s, step);
    if step.Work? {
      RowsMatchAcks(s.b.w, s.r.acks);
      HandMarker(s);
      BaseFrame(s, step);
      OrderAdds(s.b.w.db.versions, t.b.w.db.versions, s.r.acks, s.r.done);
    } else {
      OrderRest(s, step);
    }
  }

  lemma OrderRest(s: Sys, step: Step)
    requires I.FreshIds(s.b.w) && I.VersionRows(s.b.w) && Roles(s) && Next(s, step).Some?
    requires NotYet(s) && NumbersFollow(s.b.w.db.versions, s.r.acks) && Shrinks(s.b.w.db.versions, Next(s, step).value.b.w.db.versions)
    ensures var t := Next(s, step).value; NotYet(t) && NumbersFollow(t.b.w.db.versions, t.r.acks)
  {
    var t := Next(s, step).value;
    var more := if step.Enqueue? then [s.r.writer.m] else [];
    if step.Enqueue? { StagedIsUnseen(s.b.w, s.r.writer.m); } else { RamFrame(s, step); }
    OrderStays(s.b.w.db.versions, t.b.w.db.versions, s.r.acks, more, s.r.done, t.r.done);
    assert t.r.acks == s.r.acks + more;
  }

  /** What is checkpointed is committed, or its inode is gone. */
  predicate DoneDecided(s: Sys) {
    forall t :: 0 <= t < s.r.done && t < |s.r.acks| ==> I.Decided(s.b.w, s.r.acks[t])
  }

  lemma DecidedMoves(digest: Bytes -> Hash, s: Sys, step: Step)
    requires I.Inv(digest, s.b) && Roles(s) && Enabled(digest, s, step)
    requires OnDisk(step)
    ensures I.DecidedStay(s.b.w, Apply(s, step, digest).b.w)
  {
    match step
    case CreateInode(i) => I.CreateKeeps(digest, s.b.w, i);
    case DropInode(i) => I.DropKeeps(digest, s.b.w, i);
    case Work(x) => if x == I.Transact(0) { DecidedTx(s); } else { BaseFrame(s, step); }
  }

  lemma DecidedTx(s: Sys)
    requires Next(s, Work(I.Transact(0))).Some?
    ensures I.DecidedStay(s.b.w, Next(s, Work(I.Transact(0))).value.b.w)
  {
    var m := s.b.consumers[0].m;
    var r := CommitTx(s.b.w.db, m).value;
    TxShape(s.b.w.db, m);
  }

  lemma DoneKeeps(digest: Bytes -> Hash, s: Sys, step: Step)
    requires I.Inv(digest, s.b) && Roles(s) && Ledger(s) && LineOk(s) && OldestInHand(s)
    requires AckIds(s.r.acks, s.b.w.acked) && DoneDecided(s) && Enabled(digest, s, step)
    ensures DoneDecided(Apply(s, step, digest))
  {
    if OnDisk(step) {
      DecidedMoves(digest, s, step);
      BaseFrame(s, step);
      DoneStays(s, Apply(s, step, digest));
    } else {
      if step.Checkpoint? { HandMarker(s); }
      DoneRest(s, step);
    }
  }

  lemma DoneStays(s: Sys, t: Sys)
    requires I.FreshIds(s.b.w) && AckIds(s.r.acks, s.b.w.acked) && DoneDecided(s) && I.DecidedStay(s.b.w, t.b.w) && t.r == s.r
    ensures DoneDecided(t)
  {
    forall k | 0 <= k < t.r.done && k < |t.r.acks| ensures I.Decided(t.b.w, t.r.acks[k]) {
      assert I.Made(s.b.w, s.r.acks[k]);
      assert s.b.w.made[s.r.acks[k].version] == s.r.acks[k];
    }
  }

  lemma DoneRest(s: Sys, step: Step)
    requires s.r.done <= |s.r.acks| && DoneDecided(s) && Next(s, step).Some? && !OnDisk(step)
    requires step.Checkpoint? ==> s.r.done < |s.r.acks| && I.Decided(s.b.w, s.r.acks[s.r.done])
    ensures DoneDecided(Next(s, step).value)
  {
    var t := Next(s, step).value;
    assert t.b.w.db == s.b.w.db && s.r.acks <= t.r.acks && (t.r.done == s.r.done || (step.Checkpoint? && t.r.done == s.r.done + 1));
    forall k | 0 <= k < t.r.done && k < |t.r.acks| ensures I.Decided(t.b.w, t.r.acks[k]) {
      assert I.Decided(s.b.w, s.r.acks[k]);
    }
  }

  // ---- together ----

  ghost predicate FifoInv(digest: Bytes -> Hash, s: Sys) {
    && Inv(digest, s) && Ledger(s) && LineOk(s) && AckIds(s.r.acks, s.b.w.acked)
    && NotYet(s) && NumbersFollow(s.b.w.db.versions, s.r.acks) && DoneDecided(s)
  }

  lemma FifoStepKeeps(digest: Bytes -> Hash, s: Sys, step: Step)
    requires FifoInv(digest, s) && Enabled(digest, s, step) && Orderly(step)
    ensures FifoInv(digest, Apply(s, step, digest))
  {
    HandIsOldest(s);
    StepKeeps(digest, s, step);
    LedgerKeeps(s, step);
    LineKeeps(s, step);
    AckIdsKeep(s, step);
    OrderKeeps(s, step);
    DoneKeeps(digest, s, step);
  }

  lemma {:induction false} FifoRunKeeps(digest: Bytes -> Hash, s: Sys, steps: seq<Step>, t: Sys)
    requires FifoInv(digest, s) && OrderlyRun(digest, s, steps, t)
    ensures FifoInv(digest, t)
    decreases |steps|
  {
    if steps != [] {
      FifoStepKeeps(digest, s, steps[0]);
      FifoRunKeeps(digest, Apply(s, steps[0], digest), steps[1..], t);
    }
  }

  lemma BeginFifo(digest: Bytes -> Hash, limit: nat, inodes: set<Uuid>)
    ensures FifoInv(digest, Begin(limit, inodes))
  {
    var s := Begin(limit, inodes);
    assert Chained(s.b.w.db) by { forall i | i in s.b.w.db.inodes ensures ShowsLatest(s.b.w.db, i) { } }
    assert I.Inv(digest, s.b);
  }

  /** Version numbers follow write order: with the drain as only consumer and no
      failed commit, of two writes to one inode the one acknowledged first has
      the lower version number, across any number of restarts. The queue is at
      all times the acknowledged writes not yet checkpointed, and everything
      checkpointed is committed unless its inode is gone. */
  lemma VersionNumbersFollowWriteOrder(digest: Bytes -> Hash, limit: nat, inodes: set<Uuid>, steps: seq<Step>, t: Sys)
    requires OrderlyRun(digest, Begin(limit, inodes), steps, t)
    ensures NumbersFollow(t.b.w.db.versions, t.r.acks)
    ensures Suffix(t.b.w.queue, t.r.acks, t.r.done)
    ensures forall k :: 0 <= k < t.r.done ==> I.Decided(t.b.w, t.r.acks[k])
    ensures forall k :: t.r.done < k < |t.r.acks| ==> t.r.acks[k].version !in t.b.w.db.versions
  {
    BeginFifo(digest, limit, inodes);
    FifoRunKeeps(digest, Begin(limit, inodes), steps, t);
  }
}
