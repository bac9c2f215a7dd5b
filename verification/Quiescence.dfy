/** What one rescan and an undisturbed drain leave behind. */
module Quiescence {
  import opened Records
  import opened Database
  import opened Pipeline
  import I = Interleaving

  predicate Current(d: Drain, n: Name) {
    (d.Got? || d.Known? || d.Working?) && d.name == n
  }

  // ---- what every run keeps ----

  /** A checkpointed or vanished name is out of the queue. */
  predicate DoneIsGone(s: Sys) {
    (s.r.drain.Finished? || s.r.drain.Cleared?) && s.r.drain.outcome != Failed ==> s.r.drain.name !in s.b.w.queue
  }

  /** Every inflight name is in the channel or in the drain's hands. */
  predicate InflightBacked(s: Sys) {
    forall n :: n in s.r.inflight ==>
      n in s.r.channel || Current(s.r.drain, n) || (s.r.drain.Finished? && s.r.drain.name == n)
  }

  /** What is queued under an unpublished marker's name is that marker. */
  predicate WriterQueued(s: Sys) {
    s.r.writer.Durable? && NameOf(s.r.writer.m) in s.b.w.queue ==> s.b.w.queue[NameOf(s.r.writer.m)] == s.r.writer.m
  }

  /** No staged writer is going to use a name the overlay shows. */
  predicate OverlayPast(s: Sys) {
    forall i :: i in s.r.overlay ==> Past(s.b.w, s.r.overlay[i].name)
  }

  ghost predicate TidyInv(digest: Bytes -> Hash, s: Sys) {
    Inv(digest, s) && DoneIsGone(s) && InflightBacked(s) && WriterQueued(s) && OverlayPast(s)
  }

  lemma DoneKept(s: Sys, step: Step)
    requires I.Names(s.b.w) && Roles(s) && PastNames(s) && DoneIsGone(s) && Next(s, step).Some?
    ensures DoneIsGone(Next(s, step).value)
  {
    if OnDisk(step) { BaseFrame(s, step); }
    else if step.Checkpoint? { CheckpointLeaves(s); }
    else if ByDrain(step) { DoneByDrain(s, step); }
    else {
      RamFrame(s, step);
      assert step.Enqueue? ==> s.r.writer.m in s.b.w.staged;
    }
  }

  lemma DoneByDrain(s: Sys, step: Step)
    requires DoneIsGone(s) && Next(s, step).Some? && ByDrain(step) && !step.Checkpoint?
    ensures DoneIsGone(Next(s, step).value)
  {
    DiskFrame(s, step);
  }

  lemma WriterKept(s: Sys, step: Step)
    requires I.Names(s.b.w) && Roles(s) && WriterQueued(s) && Next(s, step).Some?
    ensures WriterQueued(Next(s, step).value)
  {
    RamFrame(s, step);
    if OnDisk(step) { BaseFrame(s, step); }
    else if !step.Enqueue? && !step.Checkpoint? { DiskFrame(s, step); }
  }

  lemma InflightKeeps(s: Sys, step: Step)
    requires InflightBacked(s) && Next(s, step).Some?
    ensures InflightBacked(Next(s, step).value)
  {
    if OnDisk(step) { BaseFrame(s, step); }
  }

  predicate Shows(queue: map<Name, Marker>, i: Uuid, v: View) {
    v.name in queue && queue[v.name].inode == i && v == ViewOf(queue[v.name])
  }

  lemma {:induction false} RebuildShows(queue: map<Name, Marker>, names: seq<Name>)
    requires forall n :: n in names ==> n in queue
    requires forall n :: n in queue ==> n == NameOf(queue[n])
    ensures forall i :: i in Rebuild(queue, names) ==> Shows(queue, i, Rebuild(queue, names)[i])
    decreases |names|
  {
    if names != [] {
      var n, front := names[|names| - 1], names[..|names| - 1];
      assert n in names && forall x :: x in front ==> x in names;
      RebuildShows(queue, front);
      assert Rebuild(queue, names) == Rebuild(queue, front)[queue[n].inode := ViewOf(queue[n])];
      assert Shows(queue, queue[n].inode, ViewOf(queue[n]));
    }
  }

  lemma OverlayPastRestart(s: Sys, step: Step)
    requires I.Names(s.b.w) && Next(s, step).Some? && step.Restart?
    ensures OverlayPast(Next(s, step).value)
  {
    RebuildShows(s.b.w.queue, step.names);
    var t := Next(s, step).value;
    forall i | i in t.r.overlay ensures Past(t.b.w, t.r.overlay[i].name) {
      assert Shows(s.b.w.queue, i, Rebuild(s.b.w.queue, step.names)[i]);
    }
  }

  lemma OverlayPastRest(s: Sys, step: Step)
    requires PastNames(s) && OverlayPast(s) && Next(s, step).Some?
    requires !OnDisk(step) && !step.Prepare? && !step.Restart?
    ensures OverlayPast(Next(s, step).value)
  { }

  lemma TidyStepKeeps(digest: Bytes -> Hash, s: Sys, step: Step)
    requires TidyInv(digest, s) && Enabled(digest, s, step)
    ensures TidyInv(digest, Apply(s, step, digest))
  {
    StepKeeps(digest, s, step);
    DoneKept(s, step);
    WriterKept(s, step);
    InflightKeeps(s, step);
    assert OverlayPast(Next(s, step).value) by {
      if OnDisk(step) { BaseFrame(s, step); }
      else if step.Prepare? { PastStage(s, step.m, step.data); }
      else if step.Restart? { OverlayPastRestart(s, step); }
      else { OverlayPastRest(s, step); }
    }
  }

  lemma InitialTidy(digest: Bytes -> Hash, limit: nat)
    ensures TidyInv(digest, Initial(limit))
  {
    I.InitialInv(digest);
  }

  // ---- which overlay entries outlive their markers ----

  /** The drain has checkpointed this name for inode `i` and will withdraw it. */
  predicate Owes(d: Drain, n: Name, i: Uuid) {
    (d.Finished? || d.Cleared?) && d.outcome == Done && d.owner == Some(i) && d.name == n
  }

  /** The entry's marker is queued for that inode, or about to be withdrawn. */
  predicate EntryBacked(s: Sys, i: Uuid, v: View) {
    (v.name in s.b.w.queue && s.b.w.queue[v.name].inode == i) || Owes(s.r.drain, v.name, i)
  }

  /** An inode's entry goes astray in two ways: it is published after its marker's
      withdrawal was due, or the checkpoint that should lead to the withdrawal does
      not know the inode. The next publication in time, or a restart, mends it. */
  ghost function StrayStep(s: Sys, step: Step, strays: set<Uuid>): set<Uuid> {
    if step.Publish? && s.r.writer.Durable? then
      var m := s.r.writer.m;
      if NameOf(m) in s.b.w.queue || Owes(s.r.drain, NameOf(m), m.inode) then strays - {m.inode} else strays + {m.inode}
    else if step.Checkpoint? && s.r.drain.Working? && s.r.drain.owner.None? && 0 in s.b.consumers then
      var i := s.b.consumers[0].m.inode;
      if i in s.r.overlay && s.r.overlay[i].name == s.r.drain.name then strays + {i} else strays
    else if step.Restart? then {}
    else strays
  }

  ghost function Strays(digest: Bytes -> Hash, s: Sys, steps: seq<Step>, strays: set<Uuid>): set<Uuid>
    decreases |steps|
  {
    if steps == [] || !Enabled(digest, s, steps[0]) then strays
    else Strays(digest, Apply(s, steps[0], digest), steps[1..], StrayStep(s, steps[0], strays))
  }

  predicate StraysExact(s: Sys, strays: set<Uuid>) {
    (forall i :: i in strays ==> i in s.r.overlay) &&
    (forall i :: i in s.r.overlay ==> (i in strays <==> !EntryBacked(s, i, s.r.overlay[i])))
  }

  lemma StrayCheckpoint(s: Sys, strays: set<Uuid>)
    requires I.Names(s.b.w) && Roles(s) && StraysExact(s, strays) && Next(s, Step.Checkpoint).Some?
    ensures StraysExact(Next(s, Step.Checkpoint).value, StrayStep(s, Step.Checkpoint, strays))
  {
    CheckpointLeaves(s);
    var t := Next(s, Step.Checkpoint).value;
    forall i | i in t.r.overlay ensures i in StrayStep(s, Step.Checkpoint, strays) <==> !EntryBacked(t, i, t.r.overlay[i]) {
      assert i in strays <==> !EntryBacked(s, i, s.r.overlay[i]);
    }
  }

  lemma StrayWithdraw(s: Sys, strays: set<Uuid>)
    requires DoneIsGone(s) && StraysExact(s, strays) && Next(s, Step.Withdraw).Some?
    ensures StraysExact(Next(s, Step.Withdraw).value, strays)
  {
    var t := Next(s, Step.Withdraw).value;
    forall i | i in s.r.overlay ensures i in strays <==> !EntryBacked(s, i, s.r.overlay[i]) { }
    forall i | i in t.r.overlay ensures i in strays <==> !EntryBacked(t, i, t.r.overlay[i]) {
      assert i in strays <==> !EntryBacked(s, i, s.r.overlay[i]);
    }
  }

  lemma StrayFrame(s: Sys, t: Sys, strays: set<Uuid>)
    requires StraysExact(s, strays) && t.b.w.queue == s.b.w.queue && t.r.overlay == s.r.overlay
    requires forall n, i :: Owes(t.r.drain, n, i) <==> Owes(s.r.drain, n, i)
    ensures StraysExact(t, strays)
  {
    forall i | i in t.r.overlay ensures i in strays <==> !EntryBacked(t, i, t.r.overlay[i]) {
      assert i in strays <==> !EntryBacked(s, i, s.r.overlay[i]);
    }
  }

  lemma StrayRest(s: Sys, step: Step, strays: set<Uuid>)
    requires Roles(s) && StraysExact(s, strays) && Next(s, step).Some?
    requires !step.Publish? && !step.Checkpoint? && !step.Restart? && !step.Enqueue? && !step.Withdraw?
    ensures StraysExact(Next(s, step).value, strays)
  {
    var t := Next(s, step).value;
    if OnDisk(step) { BaseFrame(s, step); }
    assert t.b.w.queue == s.b.w.queue && t.r.overlay == s.r.overlay;
    StrayFrame(s, t, strays);
  }

  lemma StrayKeeps(s: Sys, step: Step, strays: set<Uuid>)
    requires I.Names(s.b.w) && Roles(s) && DoneIsGone(s) && WriterQueued(s) && OverlayPast(s)
    requires StraysExact(s, strays) && Next(s, step).Some?
    ensures StraysExact(Next(s, step).value, StrayStep(s, step, strays))
  {
    if step.Publish? {
      var t := Next(s, Publish).value;
      forall i | i in t.r.overlay ensures i in StrayStep(s, Publish, strays) <==> !EntryBacked(t, i, t.r.overlay[i]) {
        assert i != s.r.writer.m.inode ==> (i in strays <==> !EntryBacked(s, i, s.r.overlay[i]));
      }
    } else if step.Checkpoint? { StrayCheckpoint(s, strays); }
    else if step.Restart? {
      RebuildShows(s.b.w.queue, step.names);
      var t := Next(s, step).value;
      forall i | i in t.r.overlay ensures EntryBacked(t, i, t.r.overlay[i]) {
        assert Shows(s.b.w.queue, i, Rebuild(s.b.w.queue, step.names)[i]);
      }
    } else if step.Enqueue? {
      var t := Next(s, Step.Enqueue).value;
      assert s.r.writer.m in s.b.w.staged;
      forall i | i in t.r.overlay ensures i in strays <==> !EntryBacked(t, i, t.r.overlay[i]) {
        assert i in strays <==> !EntryBacked(s, i, s.r.overlay[i]);
        assert Past(s.b.w, s.r.overlay[i].name);
      }
    } else if step.Withdraw? { StrayWithdraw(s, strays); }
    else { StrayRest(s, step, strays); }
  }

  lemma {:induction false} StraysRun(digest: Bytes -> Hash, s: Sys, steps: seq<Step>, t: Sys, strays: set<Uuid>)
    requires TidyInv(digest, s) && StraysExact(s, strays) && Run(digest, s, steps, t)
    ensures TidyInv(digest, t) && StraysExact(t, Strays(digest, s, steps, strays))
    decreases |steps|
  {
    if steps != [] {
      StrayKeeps(s, steps[0], strays);
      TidyStepKeeps(digest, s, steps[0]);
      StraysRun(digest, Apply(s, steps[0], digest), steps[1..], t, StrayStep(s, steps[0], strays));
    }
  }

  /** In every run, whatever fails: once the queue is empty and nothing awaits its
      withdrawal, the overlay shows exactly the inodes gone astray. */
  lemma EmptyQueueLeavesStrays(digest: Bytes -> Hash, limit: nat, steps: seq<Step>, t: Sys)
    requires Run(digest, Initial(limit), steps, t) && t.b.w.queue == map[] && !Owing(t.r.drain)
    ensures t.r.overlay.Keys == Strays(digest, Initial(limit), steps, {})
  {
    InitialTidy(digest, limit);
    StraysRun(digest, Initial(limit), steps, t, {});
    OnlyStrays(t, Strays(digest, Initial(limit), steps, {}));
  }

  lemma OnlyStrays(t: Sys, strays: set<Uuid>)
    requires StraysExact(t, strays) && t.b.w.queue == map[] && !Owing(t.r.drain)
    ensures t.r.overlay.Keys == strays
  {
    forall i | i in t.r.overlay ensures i in strays { assert !EntryBacked(t, i, t.r.overlay[i]); }
  }

  // ---- runs in which none does ----

  /** Every publication comes before its marker's withdrawal is due, and the
      drain can always read the inode it works for. */
  predicate Timely(s: Sys, step: Step) {
    !step.ReadOwnerFails? &&
    (step.Publish? && s.r.writer.Durable? ==>
       var m := s.r.writer.m; NameOf(m) in s.b.w.queue || Owes(s.r.drain, NameOf(m), m.inode))
  }

  ghost predicate TimelyRun(digest: Bytes -> Hash, s: Sys, steps: seq<Step>, t: Sys)
    decreases |steps|
  {
    if steps == [] then s == t
    else Enabled(digest, s, steps[0]) && Timely(s, steps[0]) && TimelyRun(digest, Apply(s, steps[0], digest), steps[1..], t)
  }

  predicate OwnerKnown(s: Sys) {
    (s.r.drain.Known? || s.r.drain.Working?) && s.r.drain.name in s.b.w.queue ==> s.r.drain.owner.Some?
  }

  lemma OwnerKnownKeeps(s: Sys, step: Step)
    requires I.Names(s.b.w) && Roles(s) && PastNames(s) && OwnerKnown(s) && Next(s, step).Some? && !step.ReadOwnerFails?
    ensures OwnerKnown(Next(s, step).value)
  {
    if OnDisk(step) { BaseFrame(s, step); }
    else if step.Enqueue? { assert s.r.writer.m in s.b.w.staged; }
  }

  lemma {:induction false} TimelyRunHasNoStrays(digest: Bytes -> Hash, s: Sys, steps: seq<Step>, t: Sys)
    requires TidyInv(digest, s) && OwnerKnown(s) && TimelyRun(digest, s, steps, t)
    ensures Run(digest, s, steps, t) && Strays(digest, s, steps, {}) == {}
    decreases |steps|
  {
    if steps != [] {
      TidyStepKeeps(digest, s, steps[0]);
      OwnerKnownKeeps(s, steps[0]);
      assert StrayStep(s, steps[0], {}) == {};
      TimelyRunHasNoStrays(digest, Apply(s, steps[0], digest), steps[1..], t);
    }
  }

  /** In a timely run, commits failing or not, an empty queue means an empty overlay. */
  lemma TimelyRunsEmptyTheOverlay(digest: Bytes -> Hash, limit: nat, steps: seq<Step>, t: Sys)
    requires TimelyRun(digest, Initial(limit), steps, t) && t.b.w.queue == map[] && !Owing(t.r.drain)
    ensures t.r.overlay == map[]
  {
    InitialTidy(digest, limit);
    TimelyRunHasNoStrays(digest, Initial(limit), steps, t);
    EmptyQueueLeavesStrays(digest, limit, steps, t);
    assert t.r.overlay.Keys == {};
  }

  // ---- scanning and draining without commit errors ----

  /** The scanner's and the drain's own steps, commit failures excluded. */
  predicate Advances(step: Step) {
    step.ScanSkip? || step.ScanSend? || step.Receive? || step.ReadOwner? || step.ReadOwnerFails? || step.Open? || step.Work? ||
    step.Checkpoint? || step.Clear? || step.Withdraw? || step.Release?
  }

  predicate AllAdvance(steps: seq<Step>) { forall k :: 0 <= k < |steps| ==> Advances(steps[k]) }

  /** No failed commit, and no hand-over by the scanner. */
  predicate Plain(steps: seq<Step>) { forall k :: 0 <= k < |steps| ==> !steps[k].Fail? && !steps[k].ScanSend? }

  predicate Quiet(s: Sys) { s.r.scan == [] && s.r.channel == [] && s.r.drain.Waiting? }

  /** A run of the scanner and the drain that leaves them nothing to do. */
  ghost predicate Drains(digest: Bytes -> Hash, s: Sys, steps: seq<Step>, t: Sys) {
    AllAdvance(steps) && Run(digest, s, steps, t) && Quiet(t)
  }

  predicate FailurePending(s: Sys) { s.r.drain.Finished? && s.r.drain.outcome == Failed }

  /** A failed commit is still being recorded, and nothing but its own inflight
      entry stands for the marker: a scan that comes now may pass it over. */
  predicate Overlooked(s: Sys) {
    FailurePending(s) && s.r.drain.name in s.b.w.queue && s.r.drain.name in s.r.inflight && s.r.drain.name !in s.r.channel
  }

  predicate Covered(s: Sys) {
    (FailurePending(s) ==> var n := s.r.drain.name;
       n in s.r.channel || n !in s.b.w.queue || (n in s.r.scan && n !in s.r.inflight)) &&
    forall n :: n in s.b.w.queue ==> n in s.r.scan || n in s.r.channel || Current(s.r.drain, n)
  }

  lemma CoveredKeeps(s: Sys, step: Step)
    requires I.Names(s.b.w) && Roles(s) && DoneIsGone(s) && InflightBacked(s) && Covered(s) && Next(s, step).Some? && Advances(step)
    ensures var t := Next(s, step).value; Covered(t) && t.r.writer == s.r.writer
  {
    if step.Work? { BaseFrame(s, step); }
    else if step.ScanSkip? || step.ScanSend? { CoveredScan(s, step); }
    else if step.Checkpoint? { CheckpointLeaves(s); }
    else {
      DiskFrame(s, step);
      RamFrame(s, step);
      assert Next(s, step).value.r.scan == s.r.scan;
    }
  }

  lemma CoveredScan(s: Sys, step: Step)
    requires DoneIsGone(s) && InflightBacked(s) && Covered(s) && Next(s, step).Some? && (step.ScanSkip? || step.ScanSend?)
    ensures var t := Next(s, step).value; Covered(t) && t.r.writer == s.r.writer
  {
    var t := Next(s, step).value;
    assert s.r.scan == [s.r.scan[0]] + t.r.scan && t.b == s.b && t.r.drain == s.r.drain && s.r.channel <= t.r.channel;
  }

  lemma QuietIsEmpty(t: Sys)
    requires Roles(t) && GateExact(t) && InflightBacked(t) && Covered(t) && t.r.writer.Idle? && Quiet(t)
    ensures t.b.w.queue == map[] && t.r.inflight == {} && t.r.outstanding == 0
  {
    assert t.b.w.queue.Keys == {};
  }

  lemma {:induction false} DrainedRun(digest: Bytes -> Hash, s: Sys, steps: seq<Step>, t: Sys)
    requires TidyInv(digest, s) && Covered(s) && s.r.writer.Idle? && Drains(digest, s, steps, t)
    ensures t.b.w.queue == map[] && t.r.inflight == {} && t.r.outstanding == 0
    decreases |steps|
  {
    if steps == [] { QuietIsEmpty(s); }
    else {
      TidyStepKeeps(digest, s, steps[0]);
      CoveredKeeps(s, steps[0]);
      DrainedRun(digest, Apply(s, steps[0], digest), steps[1..], t);
    }
  }

  /** From any reachable state with no submit in progress, one rescan and an
      error-free drain, interleaved any way, end with queue and inflight set empty
      and every slot given back, unless the scan came while a failure was being
      recorded. The overlay keeps exactly the inodes gone astray. */
  lemma RescanThenDrainEmptiesEverything(digest: Bytes -> Hash, limit: nat, before: seq<Step>, s: Sys,
                                         names: seq<Name>, steps: seq<Step>, t: Sys)
    requires Run(digest, Initial(limit), before, s) && s.r.writer.Idle? && !Overlooked(s)
    requires Enabled(digest, s, ScanList(names)) && Drains(digest, Apply(s, ScanList(names), digest), steps, t)
    ensures t.b.w.queue == map[] && t.r.inflight == {} && t.r.outstanding == 0
    ensures t.r.overlay.Keys ==
      Strays(digest, Apply(s, ScanList(names), digest), steps, Strays(digest, Initial(limit), before, {}))
  {
    var s1, strays := Apply(s, ScanList(names), digest), Strays(digest, Initial(limit), before, {});
    InitialTidy(digest, limit);
    StraysRun(digest, Initial(limit), before, s, {});
    RescanFrom(digest, s, names, strays);
    DrainedRun(digest, s1, steps, t);
    StraysRun(digest, s1, steps, t, strays);
    OnlyStrays(t, Strays(digest, s1, steps, strays));
  }

  lemma RescanFrom(digest: Bytes -> Hash, s: Sys, names: seq<Name>, strays: set<Uuid>)
    requires TidyInv(digest, s) && StraysExact(s, strays) && Enabled(digest, s, ScanList(names)) && !Overlooked(s)
    ensures var t := Apply(s, ScanList(names), digest);
      TidyInv(digest, t) && StraysExact(t, strays) && Covered(t) && t.r.writer == s.r.writer
  {
    assert Apply(s, ScanList(names), digest) == s.(r := s.r.(scan := names));
    TidyStepKeeps(digest, s, ScanList(names));
    StrayKeeps(s, ScanList(names), strays);
    assert Covered(Next(s, ScanList(names)).value);
  }

  // ---- the exception is exact ----

  /** Name `n` is queued, and nothing will hand it to the drain. */
  predicate PassedOver(s: Sys, n: Name) {
    n in s.b.w.queue && n !in s.r.channel && s.r.scan == [] && !Current(s.r.drain, n)
  }

  /** Every other queued marker can be committed, or the drain has just done so. */
  ghost predicate OthersSettle(s: Sys, n: Name) {
    forall x :: x in s.b.w.queue && x != n ==>
      I.Settles(s.b, s.b.w.queue[x]) || (s.r.drain.Working? && s.r.drain.name == x && 0 in s.b.consumers && !s.b.consumers[0].Loaded?)
  }

  lemma OthersSettleTransact(s: Sys, n: Name)
    requires I.FreshIds(s.b.w) && I.BlobRows(s.b.w) && I.Names(s.b.w) && Roles(s) && OthersSettle(s, n)
    requires s.r.drain.Working? && s.r.drain.name != n && Next(s, Step.Work(I.Transact(0))).Some?
    ensures OthersSettle(Next(s, Step.Work(I.Transact(0))).value, n)
  {
    TransactLeaves(s);
    var t, m := Next(s, Step.Work(I.Transact(0))).value, s.b.consumers[0].m;
    forall x | x in t.b.w.queue && x != n && x != s.r.drain.name ensures I.Settles(t.b, t.b.w.queue[x]) {
      assert NameOf(m) == s.r.drain.name && NameOf(s.b.w.queue[x]) == x;
      assert CommitTx(CommitTx(s.b.w.db, m).value.db, s.b.w.queue[x]).Some? by {
        TxShape(s.b.w.db, m);
        assert I.Made(s.b.w, m) && I.Made(s.b.w, s.b.w.queue[x]);
        I.StuckIff(s.b.w, s.b.w.queue[x]);
        var db := CommitTx(s.b.w.db, m).value.db;
        if s.b.w.queue[x].blob.Some? && RowExists(db, s.b.w.queue[x].blob.value) {
          var p := s.b.w.queue[x].blob.value;
          assert m.blob != Some(p);
          if p !in db.owned {
            var h :| h in db.dedup && db.dedup[h] == p;
            assert h in s.b.w.db.dedup && s.b.w.db.dedup[h] == p;
            assert I.Backed(s.b.w, p, h, true);
          }
        }
      }
    }
  }

  /** What the drain does next when nothing fails and reconciling is given up. */
  predicate Hastens(step: Step) {
    Advances(step) && !step.ScanSkip? && !step.ScanSend? && !step.ReadOwnerFails? &&
    (step.Work? ==> step.x == I.Transact(0) || step.x == I.GiveUpReconcile(0))
  }

  lemma OthersSettleKeeps(s: Sys, step: Step, n: Name)
    requires I.FreshIds(s.b.w) && I.BlobRows(s.b.w) && I.Names(s.b.w) && Roles(s) && OthersSettle(s, n) && PassedOver(s, n)
    requires Next(s, step).Some? && Hastens(step)
    ensures OthersSettle(Next(s, step).value, n)
  {
    if step == Step.Work(I.Transact(0)) { OthersSettleTransact(s, n); }
    else if step.Work? { OthersSettleGiveUp(s, n); }
    else { OthersSettleRest(s, step, n); }
  }

  lemma OthersSettleGiveUp(s: Sys, n: Name)
    requires Roles(s) && OthersSettle(s, n) && Next(s, Step.Work(I.GiveUpReconcile(0))).Some?
    ensures OthersSettle(Next(s, Step.Work(I.GiveUpReconcile(0))).value, n)
  {
    var t := Next(s, Step.Work(I.GiveUpReconcile(0))).value;
    assert t.b.w == s.b.w && t.r == s.r;
  }

  lemma OthersSettleRest(s: Sys, step: Step, n: Name)
    requires I.Names(s.b.w) && Roles(s) && OthersSettle(s, n) && Next(s, step).Some? && Hastens(step) && !step.Work?
    ensures OthersSettle(Next(s, step).value, n)
  {
    var t := Next(s, step).value;
    if step.Checkpoint? { assert NameOf(s.b.consumers[0].m) == s.r.drain.name; }
    assert t.b.w.db == s.b.w.db && forall x :: x in t.b.w.queue ==> x in s.b.w.queue && t.b.w.queue[x] == s.b.w.queue[x];
  }

  lemma PassedOverKeeps(s: Sys, step: Step, n: Name)
    requires I.Names(s.b.w) && Roles(s) && PassedOver(s, n) && Next(s, step).Some? && Hastens(step)
    ensures PassedOver(Next(s, step).value, n)
  {
    if step.Work? { BaseFrame(s, step); }
    else if step.Checkpoint? { CheckpointLeaves(s); }
  }

  predicate Idling(s: Sys) { s.r.drain.Waiting? && s.r.channel == [] }

  /** The drain holds a marker whose transaction cannot succeed: a committed private one. */
  ghost predicate HoldsUnsettled(s: Sys)
    requires Roles(s)
  {
    s.r.drain.Working? && s.b.consumers[0].Loaded? && !I.Settles(s.b, s.b.consumers[0].m)
  }

  lemma NextHastening(s: Sys) returns (step: Step)
    requires Roles(s) && !Idling(s) && !HoldsUnsettled(s)
    ensures Next(s, step).Some? && Hastens(step)
  {
    match s.r.drain
    case Waiting => return Receive;
    case Got(_) => return ReadOwner;
    case Known(_, _) => return Open;
    case Finished(_, _, _) => return Clear;
    case Cleared(_, _, _) => return Withdraw;
    case Withdrawn => return Release;
    case Working(_, _) => step := NextOnMarker(s);
  }

  lemma NextOnMarker(s: Sys) returns (step: Step)
    requires Roles(s) && s.r.drain.Working? && !HoldsUnsettled(s)
    ensures Next(s, step).Some? && Hastens(step)
  {
    if s.b.consumers[0].Reconciled? { return Step.Checkpoint; }
    if s.b.consumers[0].Loaded? { return Step.Work(I.Transact(0)); }
    return Step.Work(I.GiveUpReconcile(0));
  }

  lemma HastenOnce(digest: Bytes -> Hash, s: Sys, n: Name) returns (step: Step, t: Sys)
    requires Inv(digest, s) && PassedOver(s, n) && OthersSettle(s, n) && !Quiet(s)
    ensures Advances(step) && Enabled(digest, s, step) && t == Apply(s, step, digest)
    ensures Inv(digest, t) && PassedOver(t, n) && OthersSettle(t, n) && Work(t) < Work(s)
  {
    step := NextHastening(s);
    t := Apply(s, step, digest);
    StepKeeps(digest, s, step);
    PassedOverKeeps(s, step, n);
    OthersSettleKeeps(s, step, n);
    AdvanceShrinksWork(digest, s, step);
  }

  /** The drain can finish everything else and leave `n` where it is. */
  lemma {:induction false} DrainPassesOver(digest: Bytes -> Hash, s: Sys, n: Name) returns (steps: seq<Step>, t: Sys)
    requires Inv(digest, s) && PassedOver(s, n) && OthersSettle(s, n)
    ensures Drains(digest, s, steps, t) && n in t.b.w.queue
    decreases Work(s)
  {
    if Quiet(s) {
      steps, t := [], s;
    } else {
      var step, s1 := HastenOnce(digest, s, n);
      var rest;
      rest, t := DrainPassesOver(digest, s1, n);
      AdvanceThen(digest, s, step, rest, t);
      steps := [step] + rest;
    }
  }

  lemma AdvanceThen(digest: Bytes -> Hash, s: Sys, step: Step, rest: seq<Step>, t: Sys)
    requires Advances(step) && Enabled(digest, s, step) && AllAdvance(rest) && Run(digest, Apply(s, step, digest), rest, t)
    ensures AllAdvance([step] + rest) && Run(digest, s, [step] + rest, t)
  {
    Prepend(digest, s, step, rest, t);
  }

  lemma ScanOnce(s: Sys) returns (step: Step, t: Sys)
    requires s.r.scan != []
    ensures Advances(step) && Next(s, step).Some? && t == Next(s, step).value
    ensures t.b == s.b && t.r.drain == s.r.drain && |t.r.scan| < |s.r.scan| && s.r.inflight <= t.r.inflight
    ensures forall n :: n in s.r.inflight && n !in s.r.channel ==> n !in t.r.channel
  {
    step := if s.r.scan[0] in s.r.inflight then ScanSkip else ScanSend;
    t := Next(s, step).value;
  }

  /** The scanner can finish while the drain stands still. */
  lemma {:induction false} ScanAll(digest: Bytes -> Hash, s: Sys) returns (steps: seq<Step>, t: Sys)
    requires Inv(digest, s)
    ensures AllAdvance(steps) && Run(digest, s, steps, t) && Inv(digest, t)
    ensures t.b == s.b && t.r.drain == s.r.drain && t.r.scan == []
    ensures forall n :: n in s.r.inflight && n !in s.r.channel ==> n !in t.r.channel
    decreases |s.r.scan|
  {
    if s.r.scan == [] {
      steps, t := [], s;
    } else {
      var step, s1 := ScanOnce(s);
      StepKeeps(digest, s, step);
      var rest;
      rest, t := ScanAll(digest, s1);
      AdvanceThen(digest, s, step, rest, t);
      steps := [step] + rest;
    }
  }

  lemma ListedCanStay(digest: Bytes -> Hash, s: Sys, n: Name) returns (steps: seq<Step>, t: Sys)
    requires Inv(digest, s) && OthersSettle(s, n) && FailurePending(s) && s.r.drain.name == n
    requires n in s.b.w.queue && n in s.r.inflight && n !in s.r.channel
    ensures Drains(digest, s, steps, t) && n in t.b.w.queue
  {
    var a, s1 := ScanAll(digest, s);
    var b, s2 := DrainPassesOver(digest, s1, n);
    RunAppend(digest, s, a, s1, b, s2);
    steps, t := a + b, s2;
  }

  lemma OverlookedCanStay(digest: Bytes -> Hash, s: Sys, names: seq<Name>) returns (steps: seq<Step>, t: Sys)
    requires Inv(digest, s) && Overlooked(s) && OthersSettle(s, s.r.drain.name) && Enabled(digest, s, ScanList(names))
    ensures Drains(digest, Apply(s, ScanList(names), digest), steps, t) && s.r.drain.name in t.b.w.queue
  {
    var s1 := Apply(s, ScanList(names), digest);
    assert s1 == s.(r := s.r.(scan := names));
    StepKeeps(digest, s, ScanList(names));
    steps, t := ListedCanStay(digest, s1, s.r.drain.name);
  }

  ghost predicate CanStayQueued(digest: Bytes -> Hash, s: Sys) {
    exists steps, t :: Drains(digest, s, steps, t) && t.b.w.queue != map[]
  }

  /** One scan is not enough exactly when it comes while a failed commit is being
      recorded: provided the other markers can be committed, some error-free drain
      after it leaves a marker queued if and only if the state is overlooked. */
  lemma ScanMissesIffOverlooked(digest: Bytes -> Hash, limit: nat, before: seq<Step>, s: Sys, names: seq<Name>)
    requires Run(digest, Initial(limit), before, s) && s.r.writer.Idle? && Enabled(digest, s, ScanList(names))
    requires FailurePending(s) ==> OthersSettle(s, s.r.drain.name)
    ensures CanStayQueued(digest, Apply(s, ScanList(names), digest)) <==> Overlooked(s)
  {
    InitialTidy(digest, limit);
    StraysRun(digest, Initial(limit), before, s, {});
    if Overlooked(s) {
      var steps, t := OverlookedCanStay(digest, s, names);
    } else {
      forall steps, t | Drains(digest, Apply(s, ScanList(names), digest), steps, t) ensures t.b.w.queue == map[] {
        RescanThenDrainEmptiesEverything(digest, limit, before, s, names, steps, t);
      }
    }
  }

  /** A rescan that runs between a failed commit and `clear_inflight` skips the
      marker, and draining leaves it queued. */
  lemma RescanMissesAFailureBeingRecorded(digest: Bytes -> Hash, s: Sys, n: Name) returns (t: Sys)
    requires FailurePending(s) && s.r.drain.name == n && s.r.scan == [n] && n in s.r.inflight && s.r.channel == [] && n in s.b.w.queue
    ensures Run(digest, s, [ScanSkip, Clear, Withdraw], t) && Quiet(t) && n in t.b.w.queue
  {
    var s1 := Apply(s, ScanSkip, digest);
    t := ClearAndReturn(digest, s1, n);
    Prepend(digest, s, ScanSkip, [Clear, Withdraw], t);
  }

  /** An attempt that checkpointed nothing only leaves the inflight set. */
  lemma ClearAndReturn(digest: Bytes -> Hash, s: Sys, n: Name) returns (t: Sys)
    requires s.r.drain.Finished? && s.r.drain.name == n && s.r.drain.outcome != Done
    ensures Run(digest, s, [Clear, Withdraw], t)
    ensures t == s.(r := s.r.(drain := Waiting, inflight := s.r.inflight - {n}))
  {
    var s1 := Apply(s, Clear, digest);
    t := Apply(s1, Withdraw, digest);
    assert Run(digest, t, [], t);
    Prepend(digest, s1, Withdraw, [], t);
    Prepend(digest, s, Clear, [Withdraw], t);
  }

  /** A name that is no longer queued is dropped after one look. */
  lemma DrainGoneName(digest: Bytes -> Hash, s: Sys, n: Name) returns (t: Sys)
    requires s.r.drain == Got(n) && n !in s.b.w.queue && 0 !in s.b.consumers
    ensures Run(digest, s, [ReadOwner, Open, Clear, Withdraw], t)
    ensures t == s.(r := s.r.(drain := Waiting, inflight := s.r.inflight - {n}))
  {
    var s1 := Apply(s, ReadOwner, digest);
    var s2 := Apply(s1, Open, digest);
    t := ClearAndReturn(digest, s2, n);
    Prepend(digest, s1, Open, [Clear, Withdraw], t);
    Prepend(digest, s, ReadOwner, [Open, Clear, Withdraw], t);
  }

  lemma ReceiveGoneName(digest: Bytes -> Hash, s: Sys, n: Name) returns (t: Sys)
    requires s.r.drain.Waiting? && s.r.channel == [n] && n !in s.b.w.queue && 0 !in s.b.consumers
    ensures Run(digest, s, [Receive, ReadOwner, Open, Clear, Withdraw], t)
    ensures t == s.(r := s.r.(channel := [], inflight := s.r.inflight - {n}))
  {
    t := DrainGoneName(digest, Apply(s, Receive, digest), n);
    Prepend(digest, s, Receive, [ReadOwner, Open, Clear, Withdraw], t);
  }

  function Submitted(s: Sys, m: Marker): Sys {
    s.(r := s.r.(overlay := s.r.overlay[m.inode := ViewOf(m)], writer := Idle,
                 inflight := s.r.inflight + {NameOf(m)}, channel := s.r.channel + [NameOf(m)]))
  }

  lemma PublishAndSend(digest: Bytes -> Hash, s: Sys, m: Marker, rest: seq<Step>, t: Sys)
    requires s.r.writer == Durable(m) && Run(digest, Submitted(s, m), rest, t)
    ensures Run(digest, s, [Publish] + ([Send] + rest), t)
  {
    var s1 := Apply(s, Publish, digest);
    assert Apply(s1, Send, digest) == Submitted(s, m);
    Prepend(digest, s1, Send, rest, t);
    Prepend(digest, s, Publish, [Send] + rest, t);
  }

  /** One way to go astray: once a scan has handed over a marker that `submit` has not
      published yet and the drain has finished with it, publishing leaves an entry
      for a name that is gone, which no further draining takes away. */
  lemma PublishAfterDrainLeavesStaleView(digest: Bytes -> Hash, s: Sys, m: Marker) returns (t: Sys)
    requires s.r.writer == Durable(m) && NameOf(m) !in s.b.w.queue && Quiet(s) && s.r.inflight == {} && 0 !in s.b.consumers
    ensures Run(digest, s, [Publish, Send, Receive, ReadOwner, Open, Clear, Withdraw], t)
    ensures Quiet(t) && t.r.inflight == {} && t.r.writer.Idle? && t.b == s.b
    ensures m.inode in t.r.overlay && t.r.overlay[m.inode] == ViewOf(m)
  {
    var s2 := Submitted(s, m);
    assert s2.r.channel == [NameOf(m)];
    t := ReceiveGoneName(digest, s2, NameOf(m));
    PublishAndSend(digest, s, m, [Receive, ReadOwner, Open, Clear, Withdraw], t);
  }

  // ---- the drain does not loop or stall ----

  function ConsumerRank(p: I.Consumer): nat {
    match p
    case Reconciled(_) => 4
    case Confirmed(_) => 5
    case Holding(_, _, _) => 6
    case Missing(_, _) => 7
    case Settled(_, _, _) => 8
    case Loaded(_) => 9
  }

  function Rank(s: Sys): nat {
    match s.r.drain
    case Waiting => 0
    case Withdrawn => 1
    case Cleared(_, _, _) => 2
    case Finished(_, _, _) => 3
    case Working(_, _) => if 0 in s.b.consumers then ConsumerRank(s.b.consumers[0]) else 4
    case Known(_, _) => 10
    case Got(_) => 11
  }

  /** Work left: each listed name may be sent, each sent name may be drained. */
  function Work(s: Sys): nat { 24 * |s.r.scan| + 12 * |s.r.channel| + Rank(s) }

  lemma AdvanceShrinksWork(digest: Bytes -> Hash, s: Sys, step: Step)
    requires Roles(s) && Enabled(digest, s, step) && Advances(step)
    ensures Work(Apply(s, step, digest)) < Work(s)
  {
    if step.Work? { BaseFrame(s, step); ConsumerShrinks(s.b, step.x); }
  }

  lemma ConsumerShrinks(b: I.State, x: I.Step)
    requires DrainWork(x) && I.Next(b, x).Some? && 0 in b.consumers
    ensures var t := I.Next(b, x).value; 0 in t.consumers && ConsumerRank(t.consumers[0]) < ConsumerRank(b.consumers[0])
  { }

  ghost predicate CanAdvance(digest: Bytes -> Hash, s: Sys) {
    exists step :: Advances(step) && Enabled(digest, s, step)
  }

  /** Until it is quiet, something can advance, unless the drain holds a marker
      whose transaction cannot succeed: a committed private one. */
  lemma DrainCannotStall(digest: Bytes -> Hash, s: Sys)
    requires Roles(s) && !Quiet(s)
    ensures CanAdvance(digest, s) || (s.r.drain.Working? && s.b.consumers[0].Loaded? && !I.Settles(s.b, s.b.consumers[0].m))
  {
    if Idling(s) {
      var step := if s.r.scan[0] in s.r.inflight then ScanSkip else ScanSend;
      assert Advances(step) && Enabled(digest, s, step);
    } else if !HoldsUnsettled(s) {
      var step := NextHastening(s);
      assert Advances(step) && Enabled(digest, s, step);
    }
  }
}
