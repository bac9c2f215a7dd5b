/** `commit_pending_marker`, `clean_once` and `unlink`, faults and all, are runs of
    the atomic steps of module Interleaving: what is proved of every interleaving
    holds of the code. */
module ReplayRefinement {
  import opened Records
  import opened Database
  import opened Interleaving
  import C = Cleaner
  import R = Replay

  function Snap(w: World): R.Snapshot { R.Snapshot(w.queue, w.store, w.db) }

  /** The consumer is gone and only these parts of the world have moved. */
  predicate Left(s: State, t: State, c: nat, d: R.Snapshot) {
    t.consumers == s.consumers - {c} && t.cleaners == s.cleaners && t.unlinkers == s.unlinkers && Snap(t.w) == d &&
    t.w.staged == s.w.staged && t.w.acked == s.w.acked && t.w.made == s.w.made && t.w.nextSeq == s.w.nextSeq
  }

  predicate At(s: State, c: nat, p: Consumer) { c in s.consumers && s.consumers[c] == p }

  /** A step between reading a marker and letting go of it. */
  predicate Inner(x: Step, c: nat) {
    x == Transact(c) || x == CheckCanonical(c) || x == ReadProvisional(c) || x == PutCanonical(c) || x == DeleteProvisional(c) ||
    x == GiveUpReconcile(c)
  }

  /** Inner steps of one consumer, and at last its checkpoint or its giving up. */
  predicate Turn(steps: seq<Step>, c: nat, done: bool) {
    |steps| >= 1 && (forall k :: 0 <= k < |steps| - 1 ==> Inner(steps[k], c)) &&
    steps[|steps| - 1] == if done then Checkpoint(c) else Abort(c)
  }

  lemma FromReconciled(digest: Bytes -> Hash, s: State, c: nat, m: Marker, f: R.Faults) returns (steps: seq<Step>, t: State)
    requires At(s, c, Reconciled(m))
    ensures Run(digest, s, steps, t)
    ensures Left(s, t, c, Snap(s.w).(queue := if f.unlinkFails then s.w.queue else s.w.queue - {NameOf(m)}))
    ensures Turn(steps, c, !f.unlinkFails)
  {
    var step := if f.unlinkFails then Abort(c) else Checkpoint(c);
    t := Apply(s, step, digest);
    assert Run(digest, t, [], t);
    Prepend(digest, s, step, [], t);
    steps := [step] + [];
  }

  function Deleted(store: map<Uuid, Bytes>, p: Uuid, f: R.Faults): map<Uuid, Bytes> {
    if f.deleteFails then store else store - {p}
  }

  function Unlinked(w: World, m: Marker, store: map<Uuid, Bytes>, f: R.Faults): R.Snapshot {
    R.Snapshot(if f.unlinkFails then w.queue else w.queue - {NameOf(m)}, store, w.db)
  }

  lemma FromConfirmed(digest: Bytes -> Hash, s: State, c: nat, m: Marker, f: R.Faults) returns (steps: seq<Step>, t: State)
    requires At(s, c, Confirmed(m)) && m.blob.Some?
    ensures Run(digest, s, steps, t) && Left(s, t, c, Unlinked(s.w, m, Deleted(s.w.store, m.blob.value, f), f))
    ensures Turn(steps, c, !f.unlinkFails)
  {
    var step := if f.deleteFails then GiveUpReconcile(c) else DeleteProvisional(c);
    var s1 := Apply(s, step, digest);
    steps, t := FromReconciled(digest, s1, c, m, f);
    Prepend(digest, s, step, steps, t);
    steps := [step] + steps;
  }

  lemma GivingUp(digest: Bytes -> Hash, s: State, c: nat, f: R.Faults) returns (steps: seq<Step>, t: State)
    requires c in s.consumers && !s.consumers[c].Loaded? && !s.consumers[c].Reconciled?
    ensures Run(digest, s, steps, t) && Left(s, t, c, Unlinked(s.w, s.consumers[c].m, s.w.store, f))
    ensures Turn(steps, c, !f.unlinkFails)
  {
    var s1 := Apply(s, GiveUpReconcile(c), digest);
    steps, t := FromReconciled(digest, s1, c, s.consumers[c].m, f);
    Prepend(digest, s, GiveUpReconcile(c), steps, t);
    steps := [GiveUpReconcile(c)] + steps;
  }

  lemma FromHolding(digest: Bytes -> Hash, s: State, c: nat, m: Marker, b: Uuid, bytes: Bytes, f: R.Faults)
    returns (steps: seq<Step>, t: State)
    requires At(s, c, Holding(m, b, bytes)) && m.blob.Some?
    ensures Run(digest, s, steps, t)
    ensures Left(s, t, c, Unlinked(s.w, m, if f.putFails then s.w.store else Deleted(s.w.store[b := bytes], m.blob.value, f), f))
    ensures Turn(steps, c, !f.unlinkFails)
  {
    if f.putFails { steps, t := GivingUp(digest, s, c, f); }
    else {
      var s1 := Apply(s, PutCanonical(c), digest);
      steps, t := FromConfirmed(digest, s1, c, m, f);
      Prepend(digest, s, PutCanonical(c), steps, t);
      steps := [PutCanonical(c)] + steps;
    }
  }

  lemma FromMissing(digest: Bytes -> Hash, s: State, c: nat, m: Marker, b: Uuid, f: R.Faults) returns (steps: seq<Step>, t: State)
    requires At(s, c, Missing(m, b)) && m.blob.Some? && b !in s.w.store && !f.lookFails
    ensures Run(digest, s, steps, t) && Left(s, t, c, Unlinked(s.w, m, R.Healed(s.w.store, m.blob.value, b, f), f))
    ensures Turn(steps, c, !f.unlinkFails)
  {
    if f.getFails || m.blob.value !in s.w.store { steps, t := GivingUp(digest, s, c, f); }
    else {
      var s1 := Apply(s, ReadProvisional(c), digest);
      steps, t := FromHolding(digest, s1, c, m, b, s.w.store[m.blob.value], f);
      Prepend(digest, s, ReadProvisional(c), steps, t);
      steps := [ReadProvisional(c)] + steps;
    }
  }

  lemma CheckState(s: State, c: nat, m: Marker, b: Uuid, redundant: bool)
    requires At(s, c, Settled(m, b, redundant))
    ensures Next(s, CheckCanonical(c)).Some?
    ensures Next(s, CheckCanonical(c)).value == s.(consumers := s.consumers[c := Checked(s, m, b, redundant)])
  { }

  function Checked(s: State, m: Marker, b: Uuid, redundant: bool): Consumer {
    if !redundant then Reconciled(m) else if b in s.w.store then Confirmed(m) else Missing(m, b)
  }

  lemma FromSettled(digest: Bytes -> Hash, s: State, c: nat, m: Marker, b: Uuid, redundant: bool, f: R.Faults)
    returns (steps: seq<Step>, t: State)
    requires At(s, c, Settled(m, b, redundant)) && m.blob.Some?
    ensures Run(digest, s, steps, t)
    ensures Left(s, t, c, Unlinked(s.w, m, if redundant then R.Healed(s.w.store, m.blob.value, b, f) else s.w.store, f))
    ensures Turn(steps, c, !f.unlinkFails)
  {
    if redundant && f.lookFails { steps, t := GivingUp(digest, s, c, f); }
    else {
      CheckState(s, c, m, b, redundant);
      var s1 := s.(consumers := s.consumers[c := Checked(s, m, b, redundant)]);
      steps, t := FromChecked(digest, s1, c, m, b, redundant, f);
      Prepend(digest, s, CheckCanonical(c), steps, t);
      steps := [CheckCanonical(c)] + steps;
    }
  }

  lemma FromChecked(digest: Bytes -> Hash, s: State, c: nat, m: Marker, b: Uuid, redundant: bool, f: R.Faults)
    returns (steps: seq<Step>, t: State)
    requires At(s, c, Checked(s, m, b, redundant)) && m.blob.Some? && (redundant ==> !f.lookFails)
    ensures Run(digest, s, steps, t)
    ensures Left(s, t, c, Unlinked(s.w, m, if redundant then R.Healed(s.w.store, m.blob.value, b, f) else s.w.store, f))
    ensures Turn(steps, c, !f.unlinkFails)
  {
    if !redundant { steps, t := FromReconciled(digest, s, c, m, f); }
    else if b in s.w.store { steps, t := FromConfirmed(digest, s, c, m, f); }
    else { steps, t := FromMissing(digest, s, c, m, b, f); }
  }

  lemma TransactState(s: State, c: nat, m: Marker)
    requires At(s, c, Loaded(m)) && CommitTx(s.w.db, m).Some?
    ensures Next(s, Transact(c)).Some?
    ensures var r := CommitTx(s.w.db, m).value;
      Next(s, Transact(c)).value == s.(w := Transacted(s.w, m, r), consumers := s.consumers[c := AfterTx(m, r)])
  { }

  lemma FromLoaded(digest: Bytes -> Hash, s: State, c: nat, m: Marker, f: R.Faults) returns (steps: seq<Step>, t: State)
    requires At(s, c, Loaded(m)) && CommitTx(s.w.db, m).Some?
    ensures var r := CommitTx(s.w.db, m).value;
      Run(digest, s, steps, t) && Left(s, t, c, Unlinked(s.w, m, R.Reconciled(s.w.store, m, r, f), f).(db := r.db))
    ensures Turn(steps, c, !f.unlinkFails)
  {
    var r := CommitTx(s.w.db, m).value;
    TransactState(s, c, m);
    var s1 := s.(w := Transacted(s.w, m, r), consumers := s.consumers[c := AfterTx(m, r)]);
    var rest;
    rest, t := FromTransacted(digest, s1, c, m, r, f);
    Prepend(digest, s, Transact(c), rest, t);
    steps := [Transact(c)] + rest;
  }

  lemma FromTransacted(digest: Bytes -> Hash, s: State, c: nat, m: Marker, r: TxResult, f: R.Faults) returns (steps: seq<Step>, t: State)
    requires At(s, c, AfterTx(m, r)) && (r.canonical.Some? <==> m.blob.Some?)
    ensures Run(digest, s, steps, t) && Left(s, t, c, Unlinked(s.w, m, R.Reconciled(s.w.store, m, r, f), f))
    ensures Turn(steps, c, !f.unlinkFails)
  {
    if r.canonical.Some? { steps, t := FromSettled(digest, s, c, m, r.canonical.value, Redundant(m, r), f); }
    else { steps, t := FromReconciled(digest, s, c, m, f); }
  }

  /** The rest of the call once the marker is read. */
  lemma LoadedTurn(digest: Bytes -> Hash, s: State, c: nat, n: Name, f: R.Faults) returns (steps: seq<Step>, t: State)
    requires c in s.consumers && n in s.w.queue && n == NameOf(s.w.queue[n]) && s.consumers[c] == Loaded(s.w.queue[n])
    ensures var (d, o) := R.Commit(Snap(s.w), n, f);
      Run(digest, s, steps, t) && Turn(steps, c, o.Checkpointed?) && Left(s, t, c, d)
  {
    var m := s.w.queue[n];
    if f.readFails || f.txFails || CommitTx(s.w.db, m).None? {
      steps, t := OneStep(digest, s, Abort(c));
    } else {
      steps, t := FromLoaded(digest, s, c, m, f);
    }
  }

  /** Whatever fails inside it, one call of `commit_pending_marker` is a run of
      one consumer, ending in the snapshot the call is specified to leave. */
  lemma CommitIsARun(digest: Bytes -> Hash, s: State, c: nat, n: Name, f: R.Faults) returns (steps: seq<Step>, t: State)
    requires Names(s.w) && c !in s.consumers
    ensures Run(digest, s, steps, t) && Snap(t.w) == R.Commit(Snap(s.w), n, f).0
    ensures t.consumers == s.consumers && t.cleaners == s.cleaners && t.unlinkers == s.unlinkers && t.w.acked == s.w.acked
  {
    if f.readFails || n !in s.w.queue { steps, t := [], s; }
    else {
      var m := s.w.queue[n];
      var s1 := Apply(s, Load(c, n), digest);
      assert s1 == s.(consumers := s.consumers[c := Loaded(m)]);
      assert s1.consumers - {c} == s.consumers;
      if f.txFails || CommitTx(s.w.db, m).None? {
        t := Apply(s1, Abort(c), digest);
        assert Run(digest, t, [], t);
        Prepend(digest, s1, Abort(c), [], t);
        steps := [Abort(c)] + [];
      } else {
        steps, t := FromLoaded(digest, s1, c, m, f);
      }
      Prepend(digest, s, Load(c, n), steps, t);
      steps := [Load(c, n)] + steps;
    }
  }

  /** So the code keeps the invariant of all interleavings, whatever fails. */
  lemma CommitKeepsInv(digest: Bytes -> Hash, s: State, c: nat, n: Name, f: R.Faults) returns (t: State)
    requires Inv(digest, s) && c !in s.consumers
    ensures Inv(digest, t) && Snap(t.w) == R.Commit(Snap(s.w), n, f).0 && t.consumers == s.consumers
  {
    var steps;
    steps, t := CommitIsARun(digest, s, c, n, f);
    RunKeeps(digest, s, steps, t);
  }

  // ---- one pass of the cleaner ----

  /** Cleaner `k` is where it is to be, and only disk and database have moved. */
  ghost predicate Swept(s: State, t: State, k: nat, p: Cleaner, d: R.Snapshot) {
    t.cleaners == s.cleaners[k := p] && t.consumers == s.consumers && t.unlinkers == s.unlinkers &&
    t.w == s.w.(store := d.store, db := d.db) && d.queue == s.w.queue
  }

  /** What one candidate costs. */
  ghost function CleanedOne(d: R.Snapshot, protected: set<Hash>, x: C.Candidate, fails: bool): R.Snapshot {
    if x.1 in protected || !C.Removable(d.db, x.0) then d
    else R.Snapshot(d.queue, if fails then d.store else d.store - {x.0}, RemoveBlobRow(d.db, x.0))
  }

  lemma BytesState(s: State, k: nat, protected: set<Hash>, todo: seq<C.Candidate>, b: Uuid, fails: bool)
    requires k in s.cleaners && s.cleaners[k] == RowGone(protected, todo, b)
    ensures var step := if fails then CleanSkip(k) else CleanBytes(k);
      Next(s, step).Some? && Next(s, step).value ==
        s.(w := s.w.(store := if fails then s.w.store else s.w.store - {b}), cleaners := s.cleaners[k := Sweeping(protected, todo)])
  { }

  lemma CandidateIsARun(digest: Bytes -> Hash, s: State, k: nat, protected: set<Hash>, todo: seq<C.Candidate>, fails: bool)
    returns (steps: seq<Step>, t: State)
    requires k in s.cleaners && s.cleaners[k] == Sweeping(protected, todo) && todo != []
    ensures Run(digest, s, steps, t) && Swept(s, t, k, Sweeping(protected, todo[1..]), CleanedOne(Snap(s.w), protected, todo[0], fails))
  {
    if todo[0].1 in protected || !C.Removable(s.w.db, todo[0].0) {
      steps, t := OneStep(digest, s, CleanSkip(k));
    } else {
      var a, s1 := OneStep(digest, s, CleanRow(k));
      BytesState(s1, k, protected, todo[1..], todo[0].0, fails);
      var b, s2 := OneStep(digest, s1, if fails then CleanSkip(k) else CleanBytes(k));
      RunAppend(digest, s, a, s1, b, s2);
      steps, t := a + b, s2;
    }
  }

  lemma CleanedNext(d: R.Snapshot, protected: set<Hash>, todo: seq<C.Candidate>, fails: seq<bool>, j: nat)
    requires |fails| == |todo| && j < |todo|
    ensures C.Cleaned(d, protected, todo[..j + 1], fails[..j + 1]).0 ==
      CleanedOne(C.Cleaned(d, protected, todo[..j], fails[..j]).0, protected, todo[j], fails[j])
  {
    assert todo[..j + 1][..j] == todo[..j] && fails[..j + 1][..j] == fails[..j];
  }

  lemma {:induction false} SweepIsARun(digest: Bytes -> Hash, s: State, k: nat, protected: set<Hash>, todo: seq<C.Candidate>,
                                       fails: seq<bool>, j: nat)
    returns (steps: seq<Step>, t: State)
    requires |fails| == |todo| && j <= |todo| && k in s.cleaners && s.cleaners[k] == Sweeping(protected, todo)
    ensures Run(digest, s, steps, t)
    ensures Swept(s, t, k, Sweeping(protected, todo[j..]), C.Cleaned(Snap(s.w), protected, todo[..j], fails[..j]).0)
    decreases j
  {
    if j == 0 {
      steps, t := [], s;
      assert todo[0..] == todo && s.cleaners[k := s.cleaners[k]] == s.cleaners;
    } else {
      var a, s1 := SweepIsARun(digest, s, k, protected, todo, fails, j - 1);
      var b, s2 := CandidateIsARun(digest, s1, k, protected, todo[j - 1..], fails[j - 1]);
      CleanedNext(Snap(s.w), protected, todo, fails, j - 1);
      assert todo[j - 1..][1..] == todo[j..];
      RunAppend(digest, s, a, s1, b, s2);
      steps, t := a + b, s2;
    }
  }

  /** One call of `clean_once`, over the candidates its query returned, is a run
      of one cleaner, ending in the snapshot the call is specified to leave. */
  lemma CleaningIsARun(digest: Bytes -> Hash, s: State, k: nat, todo: seq<C.Candidate>, fails: seq<bool>)
    returns (steps: seq<Step>, t: State)
    requires k !in s.cleaners && |fails| == |todo|
    requires forall j :: 0 <= j < |todo| ==> HasRow(s.w.db, todo[j].0, todo[j].1) && !Referenced(s.w.db, todo[j].1)
    ensures Run(digest, s, steps, t)
    ensures Snap(t.w) == C.Cleaned(Snap(s.w), set n | n in s.w.queue :: n.hash, todo, fails).0
    ensures t.consumers == s.consumers && t.cleaners == s.cleaners && t.unlinkers == s.unlinkers
  {
    var protected := set n | n in s.w.queue :: n.hash;
    var a, s1 := StartCleaning(digest, s, k, protected, todo);
    var b, s2 := SweepAndEnd(digest, s1, k, protected, todo, fails);
    RunAppend(digest, s, a, s1, b, s2);
    steps, t := a + b, s2;
  }

  lemma SweepAndEnd(digest: Bytes -> Hash, s: State, k: nat, protected: set<Hash>, todo: seq<C.Candidate>, fails: seq<bool>)
    returns (steps: seq<Step>, t: State)
    requires |fails| == |todo| && k in s.cleaners && s.cleaners[k] == Sweeping(protected, todo)
    ensures Run(digest, s, steps, t) && Snap(t.w) == C.Cleaned(Snap(s.w), protected, todo, fails).0
    ensures t.consumers == s.consumers && t.cleaners == s.cleaners - {k} && t.unlinkers == s.unlinkers
  {
    var a, s1 := SweepIsARun(digest, s, k, protected, todo, fails, |todo|);
    assert todo[..|todo|] == todo && fails[..|fails|] == fails;
    var b, s2 := OneStep(digest, s1, CleanEnd(k));
    RunAppend(digest, s, a, s1, b, s2);
    steps, t := a + b, s2;
  }

  lemma StartCleaning(digest: Bytes -> Hash, s: State, k: nat, protected: set<Hash>, todo: seq<C.Candidate>)
    returns (steps: seq<Step>, t: State)
    requires k !in s.cleaners && protected == set n | n in s.w.queue :: n.hash
    requires forall j :: 0 <= j < |todo| ==> HasRow(s.w.db, todo[j].0, todo[j].1) && !Referenced(s.w.db, todo[j].1)
    ensures Run(digest, s, steps, t) && t == s.(cleaners := s.cleaners[k := Sweeping(protected, todo)])
  {
    var a, s1 := OneStep(digest, s, CleanList(k));
    var b, s2 := OneStep(digest, s1, CleanScan(k, todo));
    assert s2.cleaners == s.cleaners[k := Sweeping(protected, todo)];
    RunAppend(digest, s, a, s1, b, s2);
    steps, t := a + b, s2;
  }

}
