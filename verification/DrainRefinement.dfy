/** One turn of `drain_loop`, faults and all, is a run of the pipeline's atomic
    steps, and `submit` is another: what is proved of every pipeline run holds of
    the daemon's code. */
module DrainRefinement {
  import opened Records
  import opened Database
  import opened Pipeline
  import opened Quiescence
  import I = Interleaving
  import R = Replay
  import X = ReplayRefinement

  // ---- the consumer's steps as steps of the pipeline ----

  lemma InnerStep(s: Sys, x: I.Step)
    requires s.r.drain.Working? && X.Inner(x, 0) && I.Next(s.b, x).Some?
    ensures Next(s, Step.Work(x)).Some? && Next(s, Step.Work(x)).value == s.(b := I.Next(s.b, x).value)
  { }

  /** Where the drain stands after its last step on a marker. */
  function Ended(s: Sys, b: I.State, done: bool): Sys
    requires s.r.drain.Working?
  {
    Sys(b, s.r.(drain := Finished(s.r.drain.name, s.r.drain.owner, if done then Done else Failed), done := s.r.done + Slot(done)))
  }

  lemma {:induction false} LiftTurn(digest: Bytes -> Hash, s: Sys, xs: seq<I.Step>, b: I.State, done: bool) returns (steps: seq<Step>)
    requires s.r.drain.Working? && X.Turn(xs, 0, done) && I.Run(digest, s.b, xs, b)
    ensures Run(digest, s, steps, Ended(s, b, done)) && (done ==> Plain(steps))
    decreases |xs|
  {
    assert I.Enabled(digest, s.b, xs[0]) && I.Run(digest, I.Apply(s.b, xs[0], digest), xs[1..], b);
    if |xs| == 1 {
      assert xs[1..] == [];
      steps := LiftLast(digest, s, done);
    } else {
      steps := LiftTurn(digest, s.(b := I.Apply(s.b, xs[0], digest)), xs[1..], b, done);
      steps := LiftInner(digest, s, xs[0], b, done, steps);
    }
  }

  lemma LiftLast(digest: Bytes -> Hash, s: Sys, done: bool) returns (steps: seq<Step>)
    requires s.r.drain.Working? && I.Enabled(digest, s.b, if done then I.Checkpoint(0) else I.Abort(0))
    ensures Run(digest, s, steps, Ended(s, I.Apply(s.b, if done then I.Checkpoint(0) else I.Abort(0), digest), done)) && (done ==> Plain(steps))
  {
    var step := if done then Step.Checkpoint else Fail;
    var t := Apply(s, step, digest);
    assert Run(digest, t, [], t);
    Prepend(digest, s, step, [], t);
    steps := [step] + [];
  }

  lemma LiftInner(digest: Bytes -> Hash, s: Sys, x: I.Step, b: I.State, done: bool, rest: seq<Step>) returns (steps: seq<Step>)
    requires s.r.drain.Working? && X.Inner(x, 0) && I.Enabled(digest, s.b, x)
    requires var s1 := s.(b := I.Apply(s.b, x, digest)); Run(digest, s1, rest, Ended(s1, b, done)) && (done ==> Plain(rest))
    ensures Run(digest, s, steps, Ended(s, b, done)) && (done ==> Plain(steps))
  {
    InnerStep(s, x);
    Prepend(digest, s, Step.Work(x), rest, Ended(s, b, done));
    steps := [Step.Work(x)] + rest;
  }

  // ---- the rest of the turn ----

  /** What `drain_loop` does with an outcome. */
  function Concluded(r: Ram, n: Name, o: Option<Uuid>, outcome: Outcome): Ram {
    var cleared := r.(drain := Drain.Waiting, inflight := r.inflight - {n});
    if outcome == Done then cleared.(overlay := Retracted(r.overlay, o, n), outstanding := Given(r.outstanding)) else cleared
  }

  lemma Conclude(digest: Bytes -> Hash, s: Sys, n: Name, o: Option<Uuid>, outcome: Outcome) returns (steps: seq<Step>)
    requires s.r.drain == Finished(n, o, outcome)
    ensures Run(digest, s, steps, s.(r := Concluded(s.r, n, o, outcome))) && Plain(steps)
  {
    if outcome == Done {
      steps := ConcludeDone(digest, s, n, o);
    } else {
      var t := ClearAndReturn(digest, s, n);
      steps := [Clear, Withdraw];
    }
  }

  lemma ConcludeDone(digest: Bytes -> Hash, s: Sys, n: Name, o: Option<Uuid>) returns (steps: seq<Step>)
    requires s.r.drain == Finished(n, o, Done)
    ensures Run(digest, s, steps, s.(r := Concluded(s.r, n, o, Done))) && Plain(steps)
  {
    var s1 := Apply(s, Clear, digest);
    var t := s.(r := Concluded(s.r, n, o, Done));
    steps := WithdrawThenRelease(digest, s1, n, o);
    Prepend(digest, s, Clear, steps, t);
    steps := [Clear] + steps;
  }

  lemma WithdrawThenRelease(digest: Bytes -> Hash, s: Sys, n: Name, o: Option<Uuid>) returns (steps: seq<Step>)
    requires s.r.drain == Cleared(n, o, Done)
    ensures Plain(steps) && Run(digest, s, steps,
      s.(r := s.r.(drain := Drain.Waiting, overlay := Retracted(s.r.overlay, o, n), outstanding := Given(s.r.outstanding))))
  {
    var s1 := Apply(s, Withdraw, digest);
    var t := Apply(s1, Step.Release, digest);
    assert Run(digest, t, [], t);
    Prepend(digest, s1, Step.Release, [], t);
    Prepend(digest, s, Withdraw, [Step.Release] + [], t);
    steps := [Withdraw] + ([Step.Release] + []);
  }

  // ---- one turn ----

  function OwnerOf(queue: map<Name, Marker>, n: Name, ownerReadFails: bool): Option<Uuid> {
    if n in queue && !ownerReadFails then Some(queue[n].inode) else None
  }

  lemma Take(digest: Bytes -> Hash, s: Sys, n: Name, rest: seq<Name>, ownerReadFails: bool) returns (steps: seq<Step>)
    requires s.r.drain.Waiting? && s.r.channel == [n] + rest
    ensures Plain(steps)
    ensures Run(digest, s, steps, s.(r := s.r.(channel := rest, drain := Known(n, OwnerOf(s.b.w.queue, n, ownerReadFails)))))
  {
    var step := if ownerReadFails then ReadOwnerFails else ReadOwner;
    var s1 := Apply(s, Receive, digest);
    assert s1 == s.(r := s.r.(channel := rest, drain := Got(n)));
    var t := Apply(s1, step, digest);
    assert Run(digest, t, [], t);
    Prepend(digest, s1, step, [], t);
    Prepend(digest, s, Receive, [step] + [], t);
    steps := [Receive] + ([step] + []);
  }

  lemma OpenStep(digest: Bytes -> Hash, s: Sys, n: Name, o: Option<Uuid>) returns (steps: seq<Step>, t: Sys)
    requires s.r.drain == Known(n, o) && 0 !in s.b.consumers
    ensures Run(digest, s, steps, t) && Plain(steps)
    ensures t == if n in s.b.w.queue
                 then Sys(s.b.(consumers := s.b.consumers[0 := I.Loaded(s.b.w.queue[n])]), s.r.(drain := Working(n, o)))
                 else s.(r := s.r.(drain := Finished(n, o, Gone)))
  {
    t := Apply(s, Open, digest);
    assert Run(digest, t, [], t);
    Prepend(digest, s, Open, [], t);
    steps := [Open] + [];
  }

  /** The pipeline's outcome for a result of `commit_pending_marker`. */
  ghost function Drained(w: I.World, n: Name, f: R.Faults): Outcome {
    if n !in w.queue then Gone else if Checkpoints(w, n, f) then Done else Failed
  }

  ghost function Result(w: I.World, n: Name, f: R.Faults): R.Snapshot { R.Commit(X.Snap(w), n, f).0 }

  ghost predicate Checkpoints(w: I.World, n: Name, f: R.Faults) { R.Commit(X.Snap(w), n, f).1.Checkpointed? }

  /** The call once the marker is in the drain's hands. */
  lemma CallInTurn(digest: Bytes -> Hash, s: Sys, n: Name, f: R.Faults) returns (steps: seq<Step>, b: I.State)
    requires s.r.drain.Working? && n in s.b.w.queue && n == NameOf(s.b.w.queue[n])
    requires 0 in s.b.consumers && s.b.consumers[0] == I.Loaded(s.b.w.queue[n])
    ensures Run(digest, s, steps, Ended(s, b, Checkpoints(s.b.w, n, f))) && (Checkpoints(s.b.w, n, f) ==> Plain(steps))
    ensures X.Snap(b.w) == Result(s.b.w, n, f) && b.consumers == s.b.consumers - {0}
  {
    var xs;
    xs, b := X.LoadedTurn(digest, s.b, 0, n, f);
    steps := LiftTurn(digest, s, xs, b, Checkpoints(s.b.w, n, f));
  }

  /** The call inside the turn: from the owner's read to the outcome. */
  lemma Process(digest: Bytes -> Hash, s: Sys, n: Name, o: Option<Uuid>, f: R.Faults) returns (steps: seq<Step>, t: Sys)
    requires s.r.drain == Known(n, o) && 0 !in s.b.consumers && (n in s.b.w.queue ==> n == NameOf(s.b.w.queue[n]))
    ensures Run(digest, s, steps, t) && (Checkpoints(s.b.w, n, f) ==> Plain(steps))
    ensures X.Snap(t.b.w) == Result(s.b.w, n, f) && t.b.consumers == s.b.consumers
    ensures t.r == s.r.(drain := Finished(n, o, Drained(s.b.w, n, f)), done := s.r.done + Slot(Checkpoints(s.b.w, n, f)))
  {
    var a, s1 := OpenStep(digest, s, n, o);
    if n !in s.b.w.queue {
      steps, t := a, s1;
    } else {
      var c, b := CallInTurn(digest, s1, n, f);
      t := Ended(s1, b, Checkpoints(s.b.w, n, f));
      RunAppend(digest, s, a, s1, c, t);
      steps := a + c;
      I.AddAndRemove(s.b.consumers, 0, I.Loaded(s.b.w.queue[n]));
    }
  }

  lemma ProcessAndConclude(digest: Bytes -> Hash, s: Sys, n: Name, o: Option<Uuid>, f: R.Faults) returns (steps: seq<Step>, t: Sys)
    requires s.r.drain == Known(n, o) && 0 !in s.b.consumers && (n in s.b.w.queue ==> n == NameOf(s.b.w.queue[n]))
    ensures Run(digest, s, steps, t) && (Checkpoints(s.b.w, n, f) ==> Plain(steps))
    ensures X.Snap(t.b.w) == Result(s.b.w, n, f) && t.b.consumers == s.b.consumers
    ensures t.r == Concluded(s.r.(done := s.r.done + Slot(Checkpoints(s.b.w, n, f))), n, o, Drained(s.b.w, n, f))
  {
    var b, s2 := Process(digest, s, n, o, f);
    var c := Conclude(digest, s2, n, o, Drained(s.b.w, n, f));
    t := s2.(r := Concluded(s2.r, n, o, Drained(s.b.w, n, f)));
    RunAppend(digest, s, b, s2, c, t);
    steps := b + c;
  }

  /** Whatever fails in it, one turn of the drain is a run of the pipeline that
      leaves disk, database, channel, inflight set, overlay and gate as `DrainOne`
      is specified to leave them. */
  lemma DrainTurnIsARun(digest: Bytes -> Hash, s: Sys, n: Name, rest: seq<Name>, ownerReadFails: bool, f: R.Faults)
    returns (steps: seq<Step>, t: Sys)
    requires s.r.drain.Waiting? && s.r.channel == [n] + rest && 0 !in s.b.consumers && (n in s.b.w.queue ==> n == NameOf(s.b.w.queue[n]))
    ensures Run(digest, s, steps, t) && (Checkpoints(s.b.w, n, f) ==> Plain(steps))
    ensures X.Snap(t.b.w) == R.Commit(X.Snap(s.b.w), n, f).0 && t.b.consumers == s.b.consumers
    ensures var done := R.Commit(X.Snap(s.b.w), n, f).1.Checkpointed?;
      t.r == s.r.(channel := rest, inflight := s.r.inflight - {n},
        overlay := if done then Retracted(s.r.overlay, OwnerOf(s.b.w.queue, n, ownerReadFails), n) else s.r.overlay,
        outstanding := if done then Given(s.r.outstanding) else s.r.outstanding,
        done := s.r.done + Slot(done))
  {
    var o := OwnerOf(s.b.w.queue, n, ownerReadFails);
    var a := Take(digest, s, n, rest, ownerReadFails);
    var s1 := s.(r := s.r.(channel := rest, drain := Known(n, o)));
    var b, s2 := ProcessAndConclude(digest, s1, n, o, f);
    RunAppend(digest, s, a, s1, b, s2);
    steps, t := a + b, s2;
  }
}
