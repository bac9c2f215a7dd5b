/** The file-system calls that write, read and remove file contents. */
module Filesystem {
  import opened Records
  import opened Database
  import opened Replay
  import opened Daemon
  import F = Fifo
  import H = Handles
  import I = Interleaving
  import P = Pipeline
  import Q = Quiescence
  import W = ReadAfterWrite

  datatype Content = NoInode | NoBytes | Content(data: Bytes)

  datatype Reply = Done | NotFound | IoError | Refused(why: Submitted)

  /** Which of the calls inside `release` fail. */
  datatype ReleaseFaults = ReleaseFaults(lookup: bool, store: bool, enqueue: bool, drainGone: bool, delete: bool)

  /** Which of the calls inside `unlink` fail. */
  datatype UnlinkFaults = UnlinkFaults(look: bool, row: bool, bytes: bool)

  /** What a reader gets for an inode: the blob its newest queued write names, or
      else the one its row names. */
  function ContentOf(db: Db, store: map<Uuid, Bytes>, overlay: map<Uuid, View>, i: Uuid): Content {
    if i !in db.inodes then NoInode
    else
      match (if i in overlay then overlay[i].blob else db.inodes[i].blob)
      case None => Content([])
      case Some(b) => if b in store then Content(store[b]) else NoBytes
  }

  class Mount {
    const disk: Disk
    const pending: PendingPipeline
    const handles: H.FuseStateManager

    constructor (pending: PendingPipeline, handles: H.FuseStateManager)
      ensures this.pending == pending && disk == pending.disk && this.handles == handles
    {
      this.pending := pending;
      this.disk := pending.disk;
      this.handles := handles;
    }

    ghost predicate Valid() { pending.disk == disk }

    ghost function Current(i: Uuid): Content
      reads disk, pending.overlay
    {
      ContentOf(disk.db, disk.store, pending.overlay.byInode, i)
    }

    method LoadCurrentBytes(i: Uuid) returns (r: Content)
      ensures r == Current(i)
    {
      if i !in disk.db.inodes { return NoInode; }
      var view := pending.overlay.Get(i);
      var blob := if view.Some? then view.value.blob else disk.db.inodes[i].blob;
      if blob.None? { return Content([]); }
      if blob.value in disk.store { return Content(disk.store[blob.value]); }
      return NoBytes;
    }

    /** Queues the bytes of a closed handle. */
    method QueueWrite(i: Uuid, data: Bytes, version: Uuid, blob: Uuid, shared: bool, f: ReleaseFaults, digest: Bytes -> Hash)
      returns (reply: Reply)
      requires Valid()
      modifies disk`queue, disk`store, pending`inflight, pending`channel, pending`nextSeqno, pending.gate, pending.overlay
      ensures !f.lookup ==> (reply.NotFound? <==> i !in disk.db.inodes)
      ensures reply.NotFound? || reply.IoError? ==> disk.store == old(disk.store)
      ensures reply != Done && reply != Refused(DrainGone) ==>
        disk.queue == old(disk.queue) && pending.overlay.byInode == old(pending.overlay.byInode) &&
        pending.gate.outstanding == old(pending.gate.outstanding)
      ensures reply == Done || reply == Refused(DrainGone) ==>
        var m := Marker(old(pending.nextSeqno), i, version, digest(data), Some(blob), |data|, shared);
        disk.queue == old(disk.queue)[NameOf(m) := m] && disk.store == old(disk.store)[blob := data] &&
        pending.overlay.byInode == old(pending.overlay.byInode)[i := P.ViewOf(m)]
      ensures reply == Done ==> Current(i) == Content(data)
      ensures f.lookup || f.store || f.enqueue || f.drainGone || i !in disk.db.inodes || old(pending.gate.outstanding) >= pending.gate.max
        <==> reply != Done
      ensures old(pending.Exact()) ==> pending.Exact()
    {
      var seqno := pending.NextSeq();
      if f.lookup { return IoError; }
      if i !in disk.db.inodes { return NotFound; }
      if f.store { return IoError; }
      disk.store := disk.store[blob := data];
      var m := Marker(seqno, i, version, digest(data), Some(blob), |data|, shared);
      var r := pending.Submit(m, f.enqueue, f.drainGone);
      if !r.Accepted? { return Refused(r); }
      return Done;
    }

    /** `release`. The handle is closed first. A write that cannot be queued ends
        the call, so a deletion its close called for is skipped, and the mark that
        asked for it is gone with the handle. */
    method Release(fh: nat, version: Uuid, blob: Uuid, shared: bool, f: ReleaseFaults, digest: Bytes -> Hash)
      returns (reply: Reply)
      requires Valid()
      modifies disk, pending`inflight, pending`channel, pending`nextSeqno, pending.gate, pending.overlay, handles
      ensures fh !in old(handles.handles) ==> reply == Done && handles.Snap() == old(handles.Snap()) && disk.Snap() == old(disk.Snap())
      ensures fh in old(handles.handles) ==>
        var h, last := old(handles.handles)[fh], H.Closed(old(handles.Snap()), fh).1;
        handles.Snap() == H.Closed(old(handles.Snap()), fh).0 &&
        disk.db == (if last && reply == Done && !f.delete then DeleteInode(old(disk.db), h.inode) else old(disk.db)) &&
        (last ==> !H.Marked(handles.Snap(), h.inode)) &&
        (!Writes(h) ==> reply == Done && disk.queue == old(disk.queue) && disk.store == old(disk.store) &&
                        pending.overlay.byInode == old(pending.overlay.byInode)) &&
        (Writes(h) && !f.lookup ==> (reply.NotFound? <==> h.inode !in old(disk.db).inodes)) &&
        (Writes(h) && (reply == Done || reply == Refused(DrainGone)) ==>
           var data := h.buffer.value;
           var m := Marker(old(pending.nextSeqno), h.inode, version, digest(data), Some(blob), |data|, shared);
           disk.queue == old(disk.queue)[NameOf(m) := m] && disk.store == old(disk.store)[blob := data] &&
           pending.overlay.byInode == old(pending.overlay.byInode)[h.inode := P.ViewOf(m)]) &&
        (Writes(h) && reply == Done && !last ==> Current(h.inode) == Content(h.buffer.value))
      ensures reply != Done && reply != Refused(DrainGone) ==>
        disk.queue == old(disk.queue) && disk.db == old(disk.db) && pending.overlay.byInode == old(pending.overlay.byInode) &&
        pending.gate.outstanding == old(pending.gate.outstanding)
      ensures old(pending.Exact()) ==> pending.Exact()
    {
      var closed := handles.CloseHandle(fh);
      if closed.None? { return Done; }
      var (h, shouldDelete) := closed.value;
      if h.modified && h.buffer.Some? {
        reply := QueueWrite(h.inode, h.buffer.value, version, blob, shared, f, digest);
        if reply != Done { return; }
      }
      if shouldDelete && !f.delete { disk.db := DeleteInode(disk.db, h.inode); }
      return Done;
    }

    /** `unlink` of a file that exists: the private blob is looked up before the
        row goes, and deleted after it. An open file is only marked. */
    method Unlink(i: Uuid, f: UnlinkFaults) returns (reply: Reply)
      modifies disk`db, disk`store, handles`inodes
      ensures reply.NotFound? <==> i !in old(disk.db.inodes)
      ensures reply.NotFound? ==> handles.Snap() == old(handles.Snap())
      ensures !reply.NotFound? ==> handles.Snap() == H.MarkedFor(old(handles.Snap()), i).0
      ensures var now := i in old(disk.db.inodes) && H.OpenCount(old(handles.Snap()), i) == 0;
        (reply.IoError? <==> now && f.row) && (reply == Done || reply == NotFound || reply == IoError) &&
        disk.db == (if now && !f.row then DeleteInode(old(disk.db), i) else old(disk.db)) &&
        disk.store == (if now && !f.row then Unlinked(old(disk.db), old(disk.store), i, f) else old(disk.store))
    {
      if i !in disk.db.inodes { return NotFound; }
      var mine := if f.look then None else I.PrivateBlob(disk.db, i);
      var now := handles.MarkForDeletion(i);
      if now {
        if f.row { return IoError; }
        disk.db := DeleteInode(disk.db, i);
        if mine.Some? && !f.bytes { disk.store := disk.store - {mine.value}; }
      }
      return Done;
    }
  }

  predicate Writes(h: H.Handle) { h.modified && h.buffer.Some? }

  function Unlinked(db: Db, store: map<Uuid, Bytes>, i: Uuid, f: UnlinkFaults): map<Uuid, Bytes> {
    match I.PrivateBlob(db, i)
    case None => store
    case Some(b) => if f.look || f.bytes then store else store - {b}
  }

  /** Read-after-write at the reader's end: in a steady run, what a reader of a
      live inode is given has the hash of its last acknowledged write, or nothing
      if that write has no blob; its bytes are reported missing exactly while the
      overlay names a copy the drain has deleted. */
  lemma LoadReturnsTheLastWrite(digest: Bytes -> Hash, limit: nat, inodes: set<Uuid>, steps: seq<P.Step>, t: P.Sys, i: Uuid)
    requires W.SteadyRun(digest, F.Begin(limit, inodes), steps, t)
    requires i in t.b.w.db.inodes && W.LastWrite(W.Visible(t.r), i).Some?
    ensures var m := W.LastWrite(W.Visible(t.r), i).value;
      match ContentOf(t.b.w.db, t.b.w.store, t.r.overlay, i)
      case NoInode => false
      case Content(data) => if m.blob.Some? then digest(data) == m.hash else data == []
      case NoBytes => m.blob.Some? && i in t.r.overlay && m.blob.value in W.Discards(digest, F.Begin(limit, inodes), steps, {})
    ensures var m := W.LastWrite(W.Visible(t.r), i).value;
      i in t.r.overlay && m.blob.Some? && m.blob.value in W.Discards(digest, F.Begin(limit, inodes), steps, {})
      ==> ContentOf(t.b.w.db, t.b.w.store, t.r.overlay, i) == NoBytes
  {
    W.ReadersSeeTheLastWrite(digest, limit, inodes, steps, t, i);
  }

  /** `submit` by a writer that got its slot is the four pipeline steps in a row,
      with nothing in between. */
  lemma SubmitIsFourSteps(digest: Bytes -> Hash, s: P.Sys, m: Marker) returns (t: P.Sys)
    requires s.r.writer == P.Prepared(m) && s.r.outstanding < s.r.limit
    ensures P.Run(digest, s, [P.Admit, P.Step.Enqueue, P.Publish, P.Send], t)
    ensures t.b.w.queue == s.b.w.queue[NameOf(m) := m] && t.r.overlay == s.r.overlay[m.inode := P.ViewOf(m)]
    ensures t.r.outstanding == s.r.outstanding + 1 && t.r.writer == P.Idle
    ensures t.r.inflight == s.r.inflight + {NameOf(m)} && t.r.channel == s.r.channel + [NameOf(m)]
  {
    var a, s1 := P.OneStep(digest, s, P.Admit);
    var b, s2 := P.OneStep(digest, s1, P.Step.Enqueue);
    t := Q.Submitted(s2, m);
    assert P.Run(digest, t, [], t);
    Q.PublishAndSend(digest, s2, m, [], t);
    P.Prepend(digest, s1, P.Step.Enqueue, [P.Publish] + ([P.Send] + []), t);
    P.Prepend(digest, s, P.Admit, [P.Step.Enqueue] + ([P.Publish] + ([P.Send] + [])), t);
  }

  // ---- one unlink ----

  lemma LookAndDelete(digest: Bytes -> Hash, s: I.State, u: nat, i: Uuid) returns (steps: seq<I.Step>, t: I.State)
    requires u !in s.unlinkers && i in s.w.db.inodes
    ensures I.Run(digest, s, steps, t)
    ensures var mine := I.PrivateBlob(s.w.db, i);
      t == s.(w := s.w.(db := DeleteInode(s.w.db, i)), unlinkers := if mine.Some? then s.unlinkers[u := I.InodeGone(mine.value)] else s.unlinkers)
  {
    var a, s1 := I.OneStep(digest, s, I.UnlinkLook(u, i));
    var b, s2 := I.OneStep(digest, s1, I.UnlinkRow(u));
    I.RunAppend(digest, s, a, s1, b, s2);
    steps, t := a + b, s2;
  }

  /** One `unlink` that deletes at once is a run of one unlinker, ending in the
      tables and the store the call is specified to leave. */
  lemma UnlinkIsARun(digest: Bytes -> Hash, s: I.State, u: nat, i: Uuid, f: UnlinkFaults) returns (steps: seq<I.Step>, t: I.State)
    requires u !in s.unlinkers && i in s.w.db.inodes && !f.row
    ensures I.Run(digest, s, steps, t)
    ensures t == s.(w := s.w.(db := DeleteInode(s.w.db, i), store := Unlinked(s.w.db, s.w.store, i, f)))
  {
    if f.look {
      steps, t := I.OneStep(digest, s, I.DropInode(i));
    } else {
      steps, t := LookAndDelete(digest, s, u, i);
      var mine := I.PrivateBlob(s.w.db, i);
      if mine.Some? {
        I.AddAndRemove(s.unlinkers, u, I.InodeGone(mine.value));
        var a, s1 := steps, t;
        var b, s2 := I.OneStep(digest, s1, if f.bytes then I.UnlinkEnd(u) else I.UnlinkBytes(u));
        I.RunAppend(digest, s, a, s1, b, s2);
        steps, t := a + b, s2;
      }
    }
  }
}
