/** The daemon's write pipeline and the file-system calls on it, as objects that
    update their fields in place. */
module Daemon {
  import opened Records
  import opened Database
  import opened Replay
  import P = Pipeline
  import I = Interleaving

  type View = P.View

  class Gate {
    var outstanding: nat
    const max: nat

    constructor (max: nat, seeded: nat)
      ensures this.max == max && outstanding == seeded
    {
      this.max := max;
      outstanding := seeded;
    }

    method TryAdmit() returns (admitted: bool)
      modifies this
      ensures admitted <==> old(outstanding) < max
      ensures outstanding == old(outstanding) + (if admitted then 1 else 0)
    {
      admitted := outstanding < max;
      if admitted { outstanding := outstanding + 1; }
    }

    method Release()
      modifies this
      ensures outstanding == P.Given(old(outstanding))
    {
      if outstanding > 0 { outstanding := outstanding - 1; }
    }
  }

  class PendingOverlay {
    var byInode: map<Uuid, View>

    constructor ()
      ensures byInode == map[]
    {
      byInode := map[];
    }

    method Publish(i: Uuid, view: View)
      modifies this
      ensures byInode == old(byInode)[i := view]
    {
      byInode := byInode[i := view];
    }

    method Get(i: Uuid) returns (view: Option<View>)
      ensures view == if i in byInode then Some(byInode[i]) else None
    {
      if i in byInode { return Some(byInode[i]); }
      return None;
    }

    /** An entry goes only if it still stems from that marker. */
    method Withdraw(i: Uuid, n: Name)
      modifies this
      ensures byInode == P.Retracted(old(byInode), Some(i), n)
      ensures forall j :: j in old(byInode) && old(byInode)[j].name != n ==> j in byInode && byInode[j] == old(byInode)[j]
    {
      if i in byInode && byInode[i].name == n { byInode := byInode - {i}; }
    }
  }

  /** Names the scan hands over: listed, not inflight, each once, in order. */
  function Fresh(inflight: set<Name>, names: seq<Name>): seq<Name>
    decreases |names|
  {
    if names == [] then []
    else
      var front, n := names[..|names| - 1], names[|names| - 1];
      if n in inflight || n in front then Fresh(inflight, front) else Fresh(inflight, front) + [n]
  }

  lemma {:induction false} FreshIs(inflight: set<Name>, names: seq<Name>)
    ensures forall n :: n in Fresh(inflight, names) <==> n in names && n !in inflight
    ensures forall p, q :: 0 <= p < q < |Fresh(inflight, names)| ==> Fresh(inflight, names)[p] != Fresh(inflight, names)[q]
    decreases |names|
  {
    if names != [] {
      var front, n := names[..|names| - 1], names[|names| - 1];
      FreshIs(inflight, front);
      assert names == front + [n];
    }
  }

  datatype Submitted = Accepted | QueueFull | EnqueueFailed | DrainGone

  class PendingPipeline {
    const disk: Disk
    const gate: Gate
    const overlay: PendingOverlay
    var nextSeqno: nat
    var inflight: set<Name>
    var channel: seq<Name>

    /** Between calls every queued marker holds one slot, and none is free twice. */
    ghost predicate Exact()
      reads this, gate, disk
    {
      gate.outstanding == |disk.queue| && forall n :: n in disk.queue ==> n.seqno < nextSeqno
    }

    /** `start`, over the names the directory listing returned. */
    constructor (disk: Disk, max: nat, names: seq<Name>)
      requires P.Listed(disk.queue, names)
      ensures this.disk == disk && gate.max == max && fresh(gate) && fresh(overlay)
      ensures I.Seeds(disk.queue, nextSeqno) && gate.outstanding == |names|
      ensures channel == names && inflight == (set n | n in names)
      ensures overlay.byInode == P.Rebuild(disk.queue, names)
      ensures Exact()
    {
      this.disk := disk;
      gate := new Gate(max, |names|);
      overlay := new PendingOverlay();
      nextSeqno := if names == [] then 1 else names[|names| - 1].seqno + 1;
      inflight := {};
      channel := [];
      new;
      RebuildOverlay(names);
      var requeued := Rescan(names);
      FreshOfListing(disk.queue, names);
      P.ListedAll(disk.queue, names);
      assert names != [] ==> names[|names| - 1] in names;
    }

    method NextSeq() returns (s: nat)
      modifies `nextSeqno
      ensures s == old(nextSeqno) && nextSeqno == s + 1
    {
      s := nextSeqno;
      nextSeqno := nextSeqno + 1;
    }

    /** `submit`. A refusal changes nothing at all. */
    method Submit(m: Marker, enqueueFails: bool, drainGone: bool) returns (r: Submitted)
      modifies `inflight, `channel, gate, overlay, disk`queue
      ensures r.QueueFull? <==> old(gate.outstanding) >= gate.max
      ensures r.QueueFull? || r.EnqueueFailed? ==>
        disk.queue == old(disk.queue) && overlay.byInode == old(overlay.byInode) && inflight == old(inflight) &&
        channel == old(channel) && gate.outstanding == old(gate.outstanding)
      ensures r.Accepted? || r.DrainGone? ==>
        disk.queue == old(disk.queue)[NameOf(m) := m] && gate.outstanding == old(gate.outstanding) + 1 &&
        overlay.byInode == old(overlay.byInode)[m.inode := P.ViewOf(m)]
      ensures r.Accepted? ==> inflight == old(inflight) + {NameOf(m)} && channel == old(channel) + [NameOf(m)]
      ensures r.DrainGone? ==> inflight == old(inflight) - {NameOf(m)} && channel == old(channel)
      ensures old(Exact()) && NameOf(m) !in old(disk.queue) && m.seqno < nextSeqno ==> Exact()
      ensures r.Accepted? <==> !enqueueFails && !drainGone && old(gate.outstanding) < gate.max
    {
      var admitted := gate.TryAdmit();
      if !admitted { return QueueFull; }
      if enqueueFails {
        gate.Release();
        return EnqueueFailed;
      }
      disk.queue := disk.queue[NameOf(m) := m];
      overlay.Publish(m.inode, P.ViewOf(m));
      inflight := inflight + {NameOf(m)};
      if drainGone {
        inflight := inflight - {NameOf(m)};
        return DrainGone;
      }
      channel := channel + [NameOf(m)];
      return Accepted;
    }

    /** `rebuild_overlay`: later markers overwrite earlier ones. */
    method RebuildOverlay(names: seq<Name>)
      requires (forall n :: n in names ==> n in disk.queue) && overlay.byInode == map[]
      modifies overlay
      ensures overlay.byInode == P.Rebuild(disk.queue, names)
    {
      for k := 0 to |names|
        invariant forall n :: n in names[..k] ==> n in names
        invariant overlay.byInode == P.Rebuild(disk.queue, names[..k])
      {
        var m := disk.queue[names[k]];
        overlay.Publish(m.inode, P.ViewOf(m));
        assert names[..k + 1][..k] == names[..k];
      }
      assert names[..|names|] == names;
    }

    /** `rescan`, over the names the directory listing returned. */
    method Rescan(names: seq<Name>) returns (requeued: nat)
      modifies `inflight, `channel
      ensures channel == old(channel) + Fresh(old(inflight), names) && requeued == |Fresh(old(inflight), names)|
      ensures inflight == old(inflight) + set n | n in names
    {
      requeued := 0;
      for k := 0 to |names|
        invariant channel == old(channel) + Fresh(old(inflight), names[..k]) && requeued == |Fresh(old(inflight), names[..k])|
        invariant inflight == old(inflight) + set n | n in names[..k]
      {
        var n := names[k];
        assert names[..k + 1] == names[..k] + [n];
        assert names[..k + 1][..k] == names[..k];
        if n !in inflight {
          inflight := inflight + {n};
          channel := channel + [n];
          requeued := requeued + 1;
        }
      }
      assert names[..|names|] == names;
    }

    /** One turn of `drain_loop`. */
    method DrainOne(ownerReadFails: bool, f: Faults) returns (outcome: Outcome)
      requires channel != [] && Chained(disk.db)
      modifies `inflight, `channel, gate, overlay, disk
      ensures (disk.Snap(), outcome) == Commit(old(disk.Snap()), old(channel)[0], f) && Chained(disk.db)
      ensures channel == old(channel)[1..] && inflight == old(inflight) - {old(channel)[0]}
      ensures var n := old(channel)[0];
        var owner := if n in old(disk.queue) && !ownerReadFails then Some(old(disk.queue)[n].inode) else None;
        overlay.byInode == if outcome.Checkpointed? then P.Retracted(old(overlay.byInode), owner, n) else old(overlay.byInode)
      ensures gate.outstanding == if outcome.Checkpointed? then P.Given(old(gate.outstanding)) else old(gate.outstanding)
      ensures old(Exact()) ==> Exact()
    {
      var n := channel[0];
      channel := channel[1..];
      var owner: Option<Uuid> := None;
      if n in disk.queue && !ownerReadFails { owner := Some(disk.queue[n].inode); }
      outcome := disk.CommitPendingMarker(n, f);
      inflight := inflight - {n};
      if outcome.Checkpointed? {
        P.RemoveOne(old(disk.queue), n);
        if owner.Some? { overlay.Withdraw(owner.value, n); }
        gate.Release();
      }
    }
  }

  lemma {:induction false} FreshOfListing(queue: map<Name, Marker>, names: seq<Name>)
    requires forall p, q :: 0 <= p < q < |names| ==> names[p] != names[q]
    ensures Fresh({}, names) == names
    decreases |names|
  {
    if names != [] {
      FreshOfListing(queue, names[..|names| - 1]);
      assert names == names[..|names| - 1] + [names[|names| - 1]];
    }
  }
}
