/** The daemon's RAM on top of disk and database: the gate, the drain's channel,
    the inflight set and the read overlay, with one FUSE writer, one scanner and
    one drain as the only consumer. Every step moves the disk and the database by
    steps of module Interleaving, so its invariant holds here too. */
module Pipeline {
  import opened Records
  import opened Database
  import I = Interleaving

  /** `PendingView`. */
  datatype View = View(blob: Option<Uuid>, size: nat, hash: Hash, name: Name)

  function ViewOf(m: Marker): View { View(m.blob, m.size, m.hash, NameOf(m)) }

  /** Where `release` and `submit` are. */
  datatype Writer =
    | Idle
    | Prepared(m: Marker)   // bytes stored, marker built
    | Admitted(m: Marker)   // slot taken
    | Durable(m: Marker)    // renamed into the queue, not yet in the overlay
    | Published(m: Marker)  // in the overlay, not yet handed to the drain

  datatype Outcome = Done | Gone | Failed

  /** Where one turn of `drain_loop` is; `owner` is the inode read up front, `None`
      if that read fails: `.ok().flatten()` drops the error. */
  datatype Drain =
    | Waiting
    | Got(name: Name)
    | Known(name: Name, owner: Option<Uuid>)
    | Working(name: Name, owner: Option<Uuid>)
    | Finished(name: Name, owner: Option<Uuid>, outcome: Outcome)
    | Cleared(name: Name, owner: Option<Uuid>, outcome: Outcome)
    | Withdrawn

  datatype Ram = Ram(
    outstanding: nat, limit: nat, channel: seq<Name>, inflight: set<Name>, overlay: map<Uuid, View>,
    writer: Writer, scan: seq<Name>, drain: Drain,
    backlog: nat,          // history: markers found by the last start
    acks: seq<Marker>,     // history: markers made durable, in order
    done: nat)             // history: how many the drain has checkpointed

  datatype Sys = Sys(b: I.State, r: Ram)

  datatype Step =
    | CreateInode(i: Uuid) | DropInode(i: Uuid)
    | Prepare(m: Marker, data: Bytes) | Admit | RefuseFull | Enqueue | EnqueueFails | Publish | Send
    | ScanList(names: seq<Name>) | ScanSkip | ScanSend
    | Receive | ReadOwner | ReadOwnerFails | Open | Work(x: I.Step) | Fail | Checkpoint | Clear | Withdraw | Release
    | Restart(seed: nat, names: seq<Name>)

  /** `PendingQueue::list`: every queued name once, in file-name order. */
  predicate Listed(queue: map<Name, Marker>, names: seq<Name>) {
    (forall n :: n in names ==> n in queue) && (forall n :: n in queue ==> n in names) &&
    (forall p, q :: 0 <= p < q < |names| ==> names[p] != names[q] && names[p].seqno <= names[q].seqno)
  }

  /** `rebuild_overlay`: publish every listed marker, later ones on top. */
  function Rebuild(queue: map<Name, Marker>, names: seq<Name>): map<Uuid, View>
    requires forall n :: n in names ==> n in queue
  {
    if names == [] then map[]
    else
      var m := queue[names[|names| - 1]];
      Rebuild(queue, names[..|names| - 1])[m.inode := ViewOf(m)]
  }

  predicate DrainWork(x: I.Step) {
    x == I.Transact(0) || x == I.CheckCanonical(0) || x == I.ReadProvisional(0) || x == I.PutCanonical(0) ||
    x == I.DeleteProvisional(0) || x == I.GiveUpReconcile(0)
  }

  /** What a step leaves, or `None` where it cannot happen. */
  ghost function Next(s: Sys, step: Step): Option<Sys> {
    var w, r := s.b.w, s.r;
    match step
    case CreateInode(i) => OnBase(s, I.Next(s.b, I.CreateInode(i)))
    case DropInode(i) => OnBase(s, I.Next(s.b, I.DropInode(i)))
    case Prepare(m, data) =>
      if r.writer.Idle? && I.Stageable(w, m, data) then Writes(s, I.Staged(w, m, data), Prepared(m)) else None
    case Admit =>
      if r.writer.Prepared? && r.outstanding < r.limit
      then InRam(s, r.(outstanding := r.outstanding + 1, writer := Admitted(r.writer.m))) else None
    case RefuseFull =>
      if r.writer.Prepared? && r.outstanding >= r.limit
      then Writes(s, w.(staged := w.staged - {r.writer.m}), Idle) else None
    case Enqueue =>
      if r.writer.Admitted?
      then Some(Sys(s.b.(w := I.Enqueued(w, r.writer.m)), r.(writer := Durable(r.writer.m), acks := r.acks + [r.writer.m]))) else None
    case EnqueueFails =>
      if r.writer.Admitted?
      then Some(Sys(s.b.(w := w.(staged := w.staged - {r.writer.m})), r.(outstanding := Given(r.outstanding), writer := Idle))) else None
    case Publish =>
      if r.writer.Durable?
      then InRam(s, r.(overlay := r.overlay[r.writer.m.inode := ViewOf(r.writer.m)], writer := Published(r.writer.m))) else None
    case Send =>
      if r.writer.Published?
      then
        var n := NameOf(r.writer.m);
        InRam(s, r.(inflight := r.inflight + {n}, channel := r.channel + [n], writer := Idle))
      else None
    case ScanList(names) => if r.scan == [] && Listed(w.queue, names) then InRam(s, r.(scan := names)) else None
    case ScanSkip => if r.scan != [] && r.scan[0] in r.inflight then InRam(s, r.(scan := r.scan[1..])) else None
    case ScanSend =>
      if r.scan != [] && r.scan[0] !in r.inflight
      then InRam(s, r.(inflight := r.inflight + {r.scan[0]}, channel := r.channel + [r.scan[0]], scan := r.scan[1..])) else None
    case Receive =>
      if r.drain.Waiting? && r.channel != [] then InRam(s, r.(drain := Got(r.channel[0]), channel := r.channel[1..])) else None
    case ReadOwner =>
      if r.drain.Got?
      then
        var n := r.drain.name;
        Drains(s, Known(n, if n in w.queue then Some(w.queue[n].inode) else None))
      else None
    case ReadOwnerFails => if r.drain.Got? then Drains(s, Known(r.drain.name, None)) else None
    case Open =>
      if r.drain.Known? && 0 !in s.b.consumers
      then
        var n, o := r.drain.name, r.drain.owner;
        if n in w.queue then Drains(s.(b := s.b.(consumers := s.b.consumers[0 := I.Loaded(w.queue[n])])), Working(n, o))
        else Drains(s, Finished(n, o, Gone))
      else None
    case Work(x) => if r.drain.Working? && DrainWork(x) then OnBase(s, I.Next(s.b, x)) else None
    case Fail =>
      if r.drain.Working?
      then Drains(s.(b := s.b.(consumers := s.b.consumers - {0})), Finished(r.drain.name, r.drain.owner, Failed)) else None
    case Checkpoint =>
      if r.drain.Working? && 0 in s.b.consumers && s.b.consumers[0].Reconciled?
      then Some(Sys(s.b.(w := w.(queue := w.queue - {NameOf(s.b.consumers[0].m)}), consumers := s.b.consumers - {0}),
                    r.(drain := Finished(r.drain.name, r.drain.owner, Done), done := r.done + 1)))
      else None
    case Clear =>
      if r.drain.Finished?
      then InRam(s, r.(inflight := r.inflight - {r.drain.name}, drain := Cleared(r.drain.name, r.drain.owner, r.drain.outcome))) else None
    case Withdraw =>
      if r.drain.Cleared?
      then
        if r.drain.outcome != Done then Drains(s, Waiting)
        else InRam(s, r.(overlay := Retracted(r.overlay, r.drain.owner, r.drain.name), drain := Withdrawn))
      else None
    case Release => if r.drain.Withdrawn? then InRam(s, r.(outstanding := Given(r.outstanding), drain := Waiting)) else None
    case Restart(seed, names) =>
      if I.Seeds(w.queue, seed) && Listed(w.queue, names)
      then Some(Sys(I.State(w.(staged := {}, nextSeq := seed), map[], map[], map[]),
          r.(outstanding := |names|, channel := names, inflight := (set n: Name | n in names), overlay := Rebuild(w.queue, names),
             writer := Idle, scan := [], drain := Waiting, backlog := |names|)))
      else None
  }

  function Drains(s: Sys, d: Drain): Option<Sys> { Some(s.(r := s.r.(drain := d))) }

  function Writes(s: Sys, w: I.World, x: Writer): Option<Sys> { Some(Sys(s.b.(w := w), s.r.(writer := x))) }

  function InRam(s: Sys, r: Ram): Option<Sys> { Some(s.(r := r)) }

  function OnBase(s: Sys, b: Option<I.State>): Option<Sys> { if b.Some? then Some(s.(b := b.value)) else None }

  ghost predicate Enabled(digest: Bytes -> Hash, s: Sys, step: Step) {
    (step.Prepare? ==> step.m.hash == digest(step.data)) && Next(s, step).Some?
  }

  ghost function Apply(s: Sys, step: Step, digest: Bytes -> Hash): Sys
    requires Enabled(digest, s, step)
  {
    Next(s, step).value
  }

  /** `saturating_sub(1)`. */
  function Given(n: nat): nat { if n == 0 then 0 else n - 1 }

  /** `withdraw`: only if the entry still refers to that marker. */
  function Retracted(overlay: map<Uuid, View>, owner: Option<Uuid>, n: Name): map<Uuid, View> {
    if owner.Some? && owner.value in overlay && overlay[owner.value].name == n then overlay - {owner.value} else overlay
  }

  ghost function Initial(limit: nat): Sys {
    Sys(I.Initial, Ram(0, limit, [], {}, map[], Idle, [], Waiting, 0, [], 0))
  }

  ghost predicate Run(digest: Bytes -> Hash, s: Sys, steps: seq<Step>, t: Sys)
    decreases |steps|
  {
    if steps == [] then s == t
    else Enabled(digest, s, steps[0]) && Run(digest, Apply(s, steps[0], digest), steps[1..], t)
  }

  lemma Prepend(digest: Bytes -> Hash, s: Sys, step: Step, rest: seq<Step>, t: Sys)
    requires Enabled(digest, s, step) && Run(digest, Apply(s, step, digest), rest, t)
    ensures Run(digest, s, [step] + rest, t)
  {
    assert ([step] + rest)[1..] == rest;
  }

  lemma {:induction false} RunAppend(digest: Bytes -> Hash, s: Sys, a: seq<Step>, t: Sys, b: seq<Step>, u: Sys)
    requires Run(digest, s, a, t) && Run(digest, t, b, u)
    ensures Run(digest, s, a + b, u)
    decreases |a|
  {
    if a == [] {
      assert a + b == b;
    } else {
      var s1 := Apply(s, a[0], digest);
      RunAppend(digest, s1, a[1..], t, b, u);
      Prepend(digest, s, a[0], a[1..] + b, u);
      assert a == [a[0]] + a[1..];
      assert a + b == [a[0]] + (a[1..] + b);
    }
  }

  lemma OneStep(digest: Bytes -> Hash, s: Sys, step: Step) returns (steps: seq<Step>, t: Sys)
    requires Enabled(digest, s, step)
    ensures Run(digest, s, steps, t) && t == Apply(s, step, digest) && steps == [step]
  {
    t := Apply(s, step, digest);
    assert Run(digest, t, [], t);
    Prepend(digest, s, step, [], t);
    steps := [step] + [];
  }

  // ---- disk and database under the pipeline ----

  /** The step of module Interleaving a pipeline step performs, if any. */
  function BaseStep(s: Sys, step: Step): Option<I.Step> {
    match step
    case CreateInode(i) => Some(I.CreateInode(i))
    case DropInode(i) => Some(I.DropInode(i))
    case Prepare(m, data) => Some(I.Stage(m, data))
    case RefuseFull => if s.r.writer.Idle? then None else Some(I.Refuse(s.r.writer.m))
    case Enqueue => if s.r.writer.Idle? then None else Some(I.Enqueue(s.r.writer.m))
    case EnqueueFails => if s.r.writer.Idle? then None else Some(I.Refuse(s.r.writer.m))
    case Open => if s.r.drain.Known? && s.r.drain.name in s.b.w.queue then Some(I.Load(0, s.r.drain.name)) else None
    case Work(x) => Some(x)
    case Fail => Some(I.Abort(0))
    case Checkpoint => Some(I.Checkpoint(0))
    case Restart(seed, names) => Some(I.Crash(seed))
    case _ => None
  }

  function StagedBy(w: Writer): set<Marker> {
    if w.Prepared? || w.Admitted? then {w.m} else {}
  }

  /** A name no staged writer is going to use. */
  predicate Past(w: I.World, n: Name) {
    n.seqno < w.nextSeq && forall x :: x in w.staged ==> x.seqno != n.seqno
  }

  predicate PastNames(s: Sys) {
    && (forall n :: n in s.r.channel ==> Past(s.b.w, n))
    && (forall n :: n in s.r.scan ==> Past(s.b.w, n))
    && (s.r.drain.Waiting? || s.r.drain.Withdrawn? || Past(s.b.w, s.r.drain.name))
    && (s.r.writer.Durable? || s.r.writer.Published? ==> Past(s.b.w, NameOf(s.r.writer.m)))
  }

  /** The drain is the only consumer and the writer the only writer. */
  predicate Roles(s: Sys) {
    && s.b.cleaners == map[] && s.b.unlinkers == map[] && s.b.consumers.Keys <= {0}
    && s.b.w.staged == StagedBy(s.r.writer)
    && (0 in s.b.consumers <==> s.r.drain.Working?)
    && (s.r.drain.Working? ==> s.r.drain.name in s.b.w.queue && s.b.consumers[0].m == s.b.w.queue[s.r.drain.name])
    && ((s.r.drain.Known? || s.r.drain.Working?) && s.r.drain.name in s.b.w.queue && s.r.drain.owner.Some? ==>
          s.r.drain.owner == Some(s.b.w.queue[s.r.drain.name].inode))
  }

  lemma RefinesStep(digest: Bytes -> Hash, s: Sys, step: Step)
    requires Roles(s) && Enabled(digest, s, step)
    ensures match BaseStep(s, step)
      case None => Apply(s, step, digest).b == s.b
      case Some(x) => I.Enabled(digest, s.b, x) && Apply(s, step, digest).b == I.Apply(s.b, x, digest)
  { }

  /** Steps of the database and of the consumer, which leave the RAM alone. */
  predicate OnDisk(step: Step) { step.CreateInode? || step.DropInode? || step.Work? }

  /** What all other steps leave of disk and database. */
  lemma DiskFrame(s: Sys, step: Step)
    requires Next(s, step).Some? && !OnDisk(step)
    ensures var w, w' := s.b.w, Next(s, step).value.b.w;
      w'.db == w.db && w'.known == w.known &&
      (!step.Prepare? ==> w'.store == w.store && w'.made == w.made && w'.madeFor == w.madeFor) &&
      (!step.Enqueue? ==> w'.acked == w.acked) && (!step.Enqueue? && !step.Checkpoint? ==> w'.queue == w.queue)
  { }

  /** The writer's own steps. */
  predicate ByWriter(step: Step) {
    step.Prepare? || step.Admit? || step.RefuseFull? || step.Enqueue? || step.EnqueueFails? || step.Publish? || step.Send?
  }

  lemma RamFrame(s: Sys, step: Step)
    requires Next(s, step).Some?
    ensures var r, r' := s.r, Next(s, step).value.r;
      (!ByWriter(step) && !step.Restart? ==> r'.writer == r.writer) &&
      (!step.Publish? && !step.Withdraw? && !step.Restart? ==> r'.overlay == r.overlay) &&
      (!step.Enqueue? ==> r'.acks == r.acks) && r'.done == r.done + Slot(step.Checkpoint?) &&
      (!ByDrain(step) && !step.Restart? ==> r'.drain == r.drain)
  { }

  lemma TransactLeaves(s: Sys)
    requires Next(s, Work(I.Transact(0))).Some?
    ensures 0 in s.b.consumers && s.b.consumers[0].Loaded? && s.r.drain.Working? && CommitTx(s.b.w.db, s.b.consumers[0].m).Some?
    ensures var m := s.b.consumers[0].m;
      var r := CommitTx(s.b.w.db, m).value;
      Next(s, Work(I.Transact(0))).value ==
        s.(b := s.b.(w := I.Transacted(s.b.w, m, r), consumers := s.b.consumers[0 := I.AfterTx(m, r)]))
  { }

  /** The checkpoint takes the name in the drain's hands. */
  lemma CheckpointLeaves(s: Sys)
    requires I.Names(s.b.w) && Roles(s) && Next(s, Checkpoint).Some?
    ensures s.r.drain.Working? && Next(s, Checkpoint).value ==
      Sys(s.b.(w := s.b.w.(queue := s.b.w.queue - {s.r.drain.name}), consumers := s.b.consumers - {0}),
          s.r.(drain := Finished(s.r.drain.name, s.r.drain.owner, Done), done := s.r.done + 1))
  {
    assert NameOf(s.b.consumers[0].m) == s.r.drain.name;
  }

  predicate BaseSame(s: Sys, t: Sys) {
    && t.r == s.r && t.b.w.queue == s.b.w.queue && t.b.w.staged == s.b.w.staged && t.b.w.nextSeq == s.b.w.nextSeq
    && t.b.w.acked == s.b.w.acked && t.b.w.made == s.b.w.made && t.b.w.madeFor == s.b.w.madeFor
    && t.b.cleaners == s.b.cleaners && t.b.unlinkers == s.b.unlinkers && t.b.consumers.Keys == s.b.consumers.Keys
    && (0 in s.b.consumers && 0 in t.b.consumers ==> t.b.consumers[0].m == s.b.consumers[0].m)
  }

  /** Draining a marker's blob moves the database and the store, nothing else. */
  lemma WorkFrame(b: I.State, x: I.Step)
    requires DrainWork(x) && I.Next(b, x).Some?
    ensures var t := I.Next(b, x).value;
      t.w.queue == b.w.queue && t.w.staged == b.w.staged && t.w.nextSeq == b.w.nextSeq && t.w.acked == b.w.acked &&
      t.w.made == b.w.made && t.w.madeFor == b.w.madeFor && t.w.known == b.w.known &&
      t.cleaners == b.cleaners && t.unlinkers == b.unlinkers && t.consumers.Keys == b.consumers.Keys && 0 in b.consumers &&
      t.consumers[0].m == b.consumers[0].m && (x != I.Transact(0) ==> t.w.db == b.w.db)
  { }

  /** What these steps leave of disk, database and consumers. */
  lemma BaseFrame(s: Sys, step: Step)
    requires Next(s, step).Some? && OnDisk(step)
    ensures var t := Next(s, step).value;
      BaseSame(s, t) &&
      (step.Work? ==> 0 in s.b.consumers && t.b.w.known == s.b.w.known && (step.x != I.Transact(0) ==> t.b.w.db == s.b.w.db))
  {
    if step.Work? { WorkFrame(s.b, step.x); }
  }

  /** The drain's own steps, its work on a marker aside. */
  predicate ByDrain(step: Step) {
    step.Receive? || step.ReadOwner? || step.ReadOwnerFails? || step.Open? || step.Fail? || step.Checkpoint? ||
    step.Clear? || step.Withdraw? || step.Release?
  }

  lemma RolesDrain(s: Sys, step: Step)
    requires I.Names(s.b.w) && Roles(s) && Next(s, step).Some? && ByDrain(step)
    ensures Roles(Next(s, step).value)
  { }

  lemma RolesRest(s: Sys, step: Step)
    requires I.Names(s.b.w) && Roles(s) && PastNames(s) && Next(s, step).Some?
    requires !OnDisk(step) && !ByDrain(step)
    ensures Roles(Next(s, step).value)
  {
    if step.Enqueue? { assert NameOf(s.r.writer.m) !in s.b.w.queue; }
  }

  lemma PastKeeps(s: Sys, step: Step)
    requires I.Names(s.b.w) && Roles(s) && PastNames(s) && Next(s, step).Some?
    ensures PastNames(Next(s, step).value)
  {
    if OnDisk(step) { BaseFrame(s, step); }
    else if step.Prepare? { PastStage(s, step.m, step.data); }
    else if step.RefuseFull? || step.Enqueue? || step.EnqueueFails? { PastWriter(s, step); }
    else if step.Restart? { PastRestart(s, step); }
    else if ByDrain(step) { PastDrain(s, step); }
    else { assert PastNames(Next(s, step).value); }
  }

  lemma PastWriter(s: Sys, step: Step)
    requires I.Names(s.b.w) && Roles(s) && PastNames(s) && Next(s, step).Some?
    requires step.RefuseFull? || step.Enqueue? || step.EnqueueFails?
    ensures PastNames(Next(s, step).value)
  { }

  lemma PastRestart(s: Sys, step: Step)
    requires Next(s, step).Some? && step.Restart?
    ensures PastNames(Next(s, step).value)
  { }

  lemma PastDrain(s: Sys, step: Step)
    requires PastNames(s) && Next(s, step).Some? && ByDrain(step)
    ensures PastNames(Next(s, step).value)
  {
    DrainFrame(s, step);
    assert step.Receive? ==> s.r.channel[0] in s.r.channel;
  }

  /** The drain leaves the writer's side and the scanner alone. */
  lemma DrainFrame(s: Sys, step: Step)
    requires Next(s, step).Some? && ByDrain(step)
    ensures var t := Next(s, step).value;
      t.b.w.nextSeq == s.b.w.nextSeq && t.b.w.staged == s.b.w.staged && t.r.writer == s.r.writer && t.r.scan == s.r.scan &&
      (t.r.drain.Waiting? || t.r.drain.Withdrawn? || step.Receive? || t.r.drain.name == s.r.drain.name) &&
      (if step.Receive? then t.r.drain == Got(s.r.channel[0]) && t.r.channel == s.r.channel[1..] else t.r.channel == s.r.channel)
  { }

  lemma PastStage(s: Sys, m: Marker, data: Bytes)
    requires PastNames(s) && m.seqno == s.b.w.nextSeq
    ensures forall n :: Past(s.b.w, n) ==> Past(I.Staged(s.b.w, m, data), n)
  { }

  // ---- the gate ----

  function Slot(b: bool): nat { if b then 1 else 0 }

  /** A checkpointed marker whose slot the drain has not given back yet. */
  predicate Owing(d: Drain) {
    d.Withdrawn? || ((d.Finished? || d.Cleared?) && d.outcome == Done)
  }

  function Max(a: nat, b: nat): nat { if a < b then b else a }

  /** Slots taken are exactly the queued markers, the writer between admission
      and rename, and the checkpoint in progress. */
  predicate GateExact(s: Sys) {
    s.r.outstanding == |s.b.w.queue| + Slot(s.r.writer.Admitted?) + Slot(Owing(s.r.drain)) &&
    s.r.outstanding <= Max(s.r.limit, s.r.backlog)
  }

  lemma RemoveOne<K, V>(m: map<K, V>, k: K)
    requires k in m
    ensures |m - {k}| == |m| - 1
  {
    assert (m - {k})[k := m[k]] == m;
  }

  lemma {:induction false} ListedAll(queue: map<Name, Marker>, names: seq<Name>)
    requires Listed(queue, names)
    ensures |names| == |queue|
    decreases |names|
  {
    if names == [] {
      assert queue.Keys == {};
    } else {
      var n, front := names[|names| - 1], names[..|names| - 1];
      var rest := queue - {n};
      assert n in names;
      forall x | x in rest ensures x in front { assert x in names; }
      ListedAll(rest, front);
      RemoveOne(queue, n);
    }
  }

  lemma GateCheckpoint(s: Sys)
    requires I.Names(s.b.w) && Roles(s) && GateExact(s) && Next(s, Checkpoint).Some?
    ensures GateExact(Next(s, Checkpoint).value)
  {
    CheckpointLeaves(s);
    RemoveOne(s.b.w.queue, s.r.drain.name);
  }

  lemma GateRest(s: Sys, step: Step)
    requires GateExact(s) && Next(s, step).Some? && !OnDisk(step)
    requires !step.Enqueue? && !step.Checkpoint?
    ensures GateExact(Next(s, step).value)
  {
    if step.Restart? { ListedAll(s.b.w.queue, step.names); } else { assert Next(s, step).value.b.w.queue == s.b.w.queue; }
  }

  ghost predicate Inv(digest: Bytes -> Hash, s: Sys) {
    I.Inv(digest, s.b) && Roles(s) && PastNames(s) && GateExact(s)
  }

  lemma StepKeeps(digest: Bytes -> Hash, s: Sys, step: Step)
    requires Inv(digest, s) && Enabled(digest, s, step)
    ensures Inv(digest, Apply(s, step, digest))
  {
    assert I.Inv(digest, Apply(s, step, digest).b) by {
      RefinesStep(digest, s, step);
      match BaseStep(s, step)
      case None =>
      case Some(x) => I.StepKeeps(digest, s.b, x);
    }
    assert Roles(Next(s, step).value) by {
      if OnDisk(step) { BaseFrame(s, step); }
      else if ByDrain(step) { RolesDrain(s, step); }
      else { RolesRest(s, step); }
    }
    PastKeeps(s, step);
    assert GateExact(Next(s, step).value) by {
      if OnDisk(step) { BaseFrame(s, step); }
      else if step.Enqueue? { assert NameOf(s.r.writer.m) !in s.b.w.queue; }
      else if step.Checkpoint? { GateCheckpoint(s); }
      else { GateRest(s, step); }
    }
  }

  lemma {:induction false} RunKeeps(digest: Bytes -> Hash, s: Sys, steps: seq<Step>, t: Sys)
    requires Inv(digest, s) && Run(digest, s, steps, t)
    ensures Inv(digest, t)
    decreases |steps|
  {
    if steps != [] {
      StepKeeps(digest, s, steps[0]);
      RunKeeps(digest, Apply(s, steps[0], digest), steps[1..], t);
    }
  }

  /** In every interleaving of submit, drain, rescan and restart, with stale and
      duplicate names in the channel and failing commits: the gate counts exactly
      what is outstanding and never exceeds the larger of the limit and the
      backlog the last start found. */
  lemma GateCountsOutstanding(digest: Bytes -> Hash, limit: nat, steps: seq<Step>, t: Sys)
    requires Run(digest, Initial(limit), steps, t)
    ensures t.r.outstanding == |t.b.w.queue| + Slot(t.r.writer.Admitted?) + Slot(Owing(t.r.drain))
    ensures t.r.outstanding <= Max(t.r.limit, t.r.backlog)
  {
    I.InitialInv(digest);
    RunKeeps(digest, Initial(limit), steps, t);
  }
}
