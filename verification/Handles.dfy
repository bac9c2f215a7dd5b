/** Open handles: descriptor counts, delayed deletion and per-handle buffers. */
module Handles {
  import opened Records

  const LIMIT: nat := 2147483648
  const USIZE_MAX: nat := 18446744073709551615

  datatype Handle = Handle(inode: Uuid, buffer: Option<Bytes>, modified: bool)

  datatype InodeState = InodeState(open: nat, marked: bool)

  datatype Table = Table(nextFh: nat, handles: map<nat, Handle>, inodes: map<Uuid, InodeState>)

  datatype Outcome = Done | NotFound | TooBig

  // ---- one buffer as a file ----

  /** A byte of a file of unbounded extent: zero past the end. */
  function ByteAt(buf: Bytes, k: nat): nat { if k < |buf| then buf[k] else 0 }

  function Zeros(n: nat): (z: Bytes)
    ensures |z| == n && forall k :: 0 <= k < n ==> z[k] == 0
  {
    seq(n, _ => 0)
  }

  /** `Vec::resize(n, 0)`. */
  function Resized(buf: Bytes, n: nat): Bytes {
    if n <= |buf| then buf[..n] else buf + Zeros(n - |buf|)
  }

  function SaturatingAdd(a: nat, b: nat): nat { if a + b > USIZE_MAX then USIZE_MAX else a + b }

  /** `write_to_handle` on the bytes: grow to the end of the write, then copy. */
  function Written(buf: Bytes, offset: nat, data: Bytes): Bytes {
    var grown := if offset + |data| > |buf| then Resized(buf, offset + |data|) else buf;
    grown[..offset] + data + grown[offset + |data|..]
  }

  /** The buffer is the file: a write sets exactly its own bytes and makes the
      file long enough, a gap reads as zeros; a truncation sets the length, and
      growing again reads zeros, not the old bytes. */
  lemma BufferIsFile(buf: Bytes, offset: nat, data: Bytes, n: nat, k: nat)
    ensures |Written(buf, offset, data)| == if offset + |data| > |buf| then offset + |data| else |buf|
    ensures ByteAt(Written(buf, offset, data), k) ==
      if offset <= k < offset + |data| then data[k - offset] else ByteAt(buf, k)
    ensures |Resized(buf, n)| == n
    ensures ByteAt(Resized(buf, n), k) == if k < n then ByteAt(buf, k) else 0
  { }

  /** So the order of writes to disjoint ranges does not matter, and a later write
      to the same range hides an earlier one. */
  lemma WritesCompose(buf: Bytes, o1: nat, d1: Bytes, o2: nat, d2: Bytes)
    ensures o1 + |d1| <= o2 || o2 + |d2| <= o1 ==>
      Written(Written(buf, o1, d1), o2, d2) == Written(Written(buf, o2, d2), o1, d1)
    ensures o1 == o2 && |d1| == |d2| ==> Written(Written(buf, o1, d1), o2, d2) == Written(buf, o2, d2)
  {
    if o1 + |d1| <= o2 || o2 + |d2| <= o1 {
      SameFile(Written(Written(buf, o1, d1), o2, d2), Written(Written(buf, o2, d2), o1, d1)) by {
        forall k: nat ensures ByteAt(Written(Written(buf, o1, d1), o2, d2), k) == ByteAt(Written(Written(buf, o2, d2), o1, d1), k) {
          TwoWrites(buf, o1, d1, o2, d2, k);
          TwoWrites(buf, o2, d2, o1, d1, k);
        }
      }
    }
    if o1 == o2 && |d1| == |d2| {
      SameFile(Written(Written(buf, o1, d1), o2, d2), Written(buf, o2, d2)) by {
        forall k: nat ensures ByteAt(Written(Written(buf, o1, d1), o2, d2), k) == ByteAt(Written(buf, o2, d2), k) {
          TwoWrites(buf, o1, d1, o2, d2, k);
          BufferIsFile(buf, o2, d2, 0, k);
        }
      }
    }
  }

  lemma TwoWrites(buf: Bytes, o1: nat, d1: Bytes, o2: nat, d2: Bytes, k: nat)
    ensures ByteAt(Written(Written(buf, o1, d1), o2, d2), k) ==
      if o2 <= k < o2 + |d2| then d2[k - o2] else if o1 <= k < o1 + |d1| then d1[k - o1] else ByteAt(buf, k)
  {
    BufferIsFile(buf, o1, d1, 0, k);
    BufferIsFile(Written(buf, o1, d1), o2, d2, 0, k);
  }

  lemma SameFile(a: Bytes, b: Bytes)
    requires |a| == |b| && forall k: nat :: ByteAt(a, k) == ByteAt(b, k)
    ensures a == b
  {
    forall k | 0 <= k < |a| ensures a[k] == b[k] { assert ByteAt(a, k) == ByteAt(b, k); }
  }

  // ---- descriptor counts ----

  function FdsOf(handles: map<nat, Handle>, i: Uuid): set<nat> {
    set fh | fh in handles && handles[fh].inode == i
  }

  /** Handle ids are below the counter; each inode entry counts its inode's live
      handles, and there is an entry exactly while there is a handle. */
  ghost predicate Counted(t: Table) {
    && (forall fh :: fh in t.handles ==> fh < t.nextFh)
    && (forall i :: i in t.inodes ==> t.inodes[i].open == |FdsOf(t.handles, i)| >= 1)
    && (forall fh :: fh in t.handles ==> t.handles[fh].inode in t.inodes)
  }

  function OpenCount(t: Table, i: Uuid): nat { if i in t.inodes then t.inodes[i].open else 0 }

  predicate Marked(t: Table, i: Uuid) { i in t.inodes && t.inodes[i].marked }

  function Opened(t: Table, i: Uuid, buffer: Option<Bytes>): Table {
    var entry := if i in t.inodes then t.inodes[i] else InodeState(0, false);
    Table(t.nextFh + 1, t.handles[t.nextFh := Handle(i, buffer, buffer.Some?)],
          t.inodes[i := entry.(open := entry.open + 1)])
  }

  /** The table after closing, and whether the inode is to be deleted now. */
  function Closed(t: Table, fh: nat): (Table, bool)
    requires fh in t.handles
  {
    var i := t.handles[fh].inode;
    var rest := t.(handles := t.handles - {fh});
    if i !in t.inodes then (rest, false)
    else
      var left := if t.inodes[i].open == 0 then 0 else t.inodes[i].open - 1;
      if left == 0 then (rest.(inodes := t.inodes - {i}), t.inodes[i].marked)
      else (rest.(inodes := t.inodes[i := t.inodes[i].(open := left)]), false)
  }

  /** The table after `unlink`, and whether the inode may be deleted at once. */
  function MarkedFor(t: Table, i: Uuid): (Table, bool) {
    if OpenCount(t, i) == 0 then (t.(inodes := t.inodes - {i}), true)
    else (t.(inodes := t.inodes[i := t.inodes[i].(marked := true)]), false)
  }

  lemma OpenKeeps(t: Table, i: Uuid, buffer: Option<Bytes>)
    requires Counted(t)
    ensures Counted(Opened(t, i, buffer))
    ensures forall j :: OpenCount(Opened(t, i, buffer), j) == OpenCount(t, j) + (if j == i then 1 else 0)
  {
    var t' := Opened(t, i, buffer);
    if i !in t.inodes { assert FdsOf(t.handles, i) == {}; }
    forall j | j in t'.inodes ensures t'.inodes[j].open == |FdsOf(t'.handles, j)| >= 1 { OpenFds(t, i, buffer, j); }
  }

  lemma OpenFds(t: Table, i: Uuid, buffer: Option<Bytes>, j: Uuid)
    requires forall fh :: fh in t.handles ==> fh < t.nextFh
    ensures |FdsOf(Opened(t, i, buffer).handles, j)| == |FdsOf(t.handles, j)| + (if j == i then 1 else 0)
  {
    assert FdsOf(Opened(t, i, buffer).handles, j) == if j == i then FdsOf(t.handles, j) + {t.nextFh} else FdsOf(t.handles, j);
  }

  lemma CloseKeeps(t: Table, fh: nat)
    requires Counted(t) && fh in t.handles
    ensures Counted(Closed(t, fh).0)
    ensures forall j :: OpenCount(Closed(t, fh).0, j) == OpenCount(t, j) - (if j == t.handles[fh].inode then 1 else 0)
  {
    var i := t.handles[fh].inode;
    var t' := Closed(t, fh).0;
    CloseFds(t.handles, fh);
    forall j | j in t'.inodes ensures t'.inodes[j].open == |FdsOf(t'.handles, j)| >= 1 { }
    if t.inodes[i].open == 1 {
      forall g | g in t'.handles ensures t'.handles[g].inode != i { assert g !in FdsOf(t'.handles, i); }
    }
  }

  lemma CloseFds(handles: map<nat, Handle>, fh: nat)
    requires fh in handles
    ensures forall j :: |FdsOf(handles - {fh}, j)| == |FdsOf(handles, j)| - (if j == handles[fh].inode then 1 else 0)
    ensures |FdsOf(handles, handles[fh].inode)| == 1 ==> FdsOf(handles - {fh}, handles[fh].inode) == {}
  {
    forall j ensures |FdsOf(handles - {fh}, j)| == |FdsOf(handles, j)| - (if j == handles[fh].inode then 1 else 0) {
      assert FdsOf(handles - {fh}, j) == if j == handles[fh].inode then FdsOf(handles, j) - {fh} else FdsOf(handles, j);
      assert fh in FdsOf(handles, handles[fh].inode);
    }
  }

  lemma MarkKeeps(t: Table, i: Uuid)
    requires Counted(t)
    ensures Counted(MarkedFor(t, i).0)
  {
    if i in t.inodes { assert t.inodes[i].open >= 1; }
  }

  // ---- the manager ----

  class FuseStateManager {
    var nextFh: nat
    var handles: map<nat, Handle>
    var inodes: map<Uuid, InodeState>

    ghost function Snap(): Table
      reads this
    {
      Table(nextFh, handles, inodes)
    }

    constructor ()
      ensures Snap() == Table(1, map[], map[]) && Counted(Snap())
    {
      nextFh, handles, inodes := 1, map[], map[];
    }

    method AllocateFh(i: Uuid, buffer: Option<Bytes>) returns (fh: nat)
      modifies this
      ensures fh == old(nextFh) && Snap() == Opened(old(Snap()), i, buffer)
      ensures old(Counted(Snap())) ==> Counted(Snap())
    {
      if Counted(Snap()) { OpenKeeps(Snap(), i, buffer); }
      fh := nextFh;
      nextFh := nextFh + 1;
      handles := handles[fh := Handle(i, buffer, buffer.Some?)];
      var entry := if i in inodes then inodes[i] else InodeState(0, false);
      inodes := inodes[i := entry.(open := entry.open + 1)];
    }

    method NeedsBuffer(fh: nat) returns (r: Option<bool>)
      ensures r == if fh in handles then Some(handles[fh].buffer.None?) else None
    {
      if fh !in handles { return None; }
      return Some(handles[fh].buffer.None?);
    }

    /** The first of two racing loads wins. */
    method SetBufferIfAbsent(fh: nat, data: Bytes) returns (o: Outcome)
      modifies this`handles
      ensures o == (if fh in old(handles) then Done else NotFound)
      ensures handles == if fh in old(handles) && old(handles)[fh].buffer.None?
                         then old(handles)[fh := old(handles)[fh].(buffer := Some(data))] else old(handles)
    {
      if fh !in handles { return NotFound; }
      if handles[fh].buffer.None? { handles := handles[fh := handles[fh].(buffer := Some(data))]; }
      return Done;
    }

    /** Looks the handle up first, then checks the 2 GiB limit; a refusal leaves
        every handle as it was, an absent buffer included. */
    method WriteToHandle(fh: nat, offset: nat, data: Bytes) returns (o: Outcome, n: nat)
      requires offset <= USIZE_MAX && |data| <= USIZE_MAX
      modifies this`handles
      ensures o.NotFound? <==> fh !in old(handles)
      ensures o.TooBig? <==> fh in old(handles) && offset + |data| > LIMIT
      ensures !o.Done? ==> handles == old(handles) && n == 0
      ensures o.Done? ==> n == |data| && handles == old(handles)[fh :=
        Handle(old(handles)[fh].inode, Some(Written(Loaded(old(handles)[fh]), offset, data)), true)]
    {
      n := 0;
      if fh !in handles { return NotFound, n; }
      var end := SaturatingAdd(offset, |data|);
      if end > LIMIT { return TooBig, n; }
      var h := handles[fh];
      var buffer := if h.buffer.Some? then h.buffer.value else [];
      if end > |buffer| { buffer := Resized(buffer, end); }
      buffer := buffer[..offset] + data + buffer[end..];
      handles := handles[fh := h.(buffer := Some(buffer), modified := true)];
      return Done, |data|;
    }

    /** Checks the limit before it looks the handle up. */
    method TruncateHandle(fh: nat, n: nat) returns (o: Outcome)
      modifies this`handles
      ensures o.TooBig? <==> n > LIMIT
      ensures o.NotFound? <==> n <= LIMIT && fh !in old(handles)
      ensures !o.Done? ==> handles == old(handles)
      ensures o.Done? ==> handles == old(handles)[fh := Cut(old(handles)[fh], n)]
    {
      if n > LIMIT { return TooBig; }
      if fh !in handles { return NotFound; }
      var h := handles[fh];
      var buffer := if h.buffer.Some? then h.buffer.value else [];
      handles := handles[fh := h.(buffer := Some(Resized(buffer, n)), modified := true)];
      return Done;
    }

    /** Every handle of the inode is cut, no other is touched. */
    method TruncateInodeHandles(i: Uuid, n: nat)
      modifies this`handles
      ensures handles.Keys == old(handles).Keys
      ensures forall fh :: fh in handles ==> handles[fh] == if old(handles)[fh].inode == i then Cut(old(handles)[fh], n) else old(handles)[fh]
    {
      var todo := handles.Keys;
      while todo != {}
        invariant todo <= handles.Keys == old(handles).Keys
        invariant forall fh :: fh in todo ==> handles[fh] == old(handles)[fh]
        invariant forall fh :: fh in handles.Keys - todo ==>
          handles[fh] == if old(handles)[fh].inode == i then Cut(old(handles)[fh], n) else old(handles)[fh]
        decreases |todo|
      {
        var fh :| fh in todo;
        if handles[fh].inode == i { handles := handles[fh := Cut(handles[fh], n)]; }
        todo := todo - {fh};
      }
    }

    method CloseHandle(fh: nat) returns (r: Option<(Handle, bool)>)
      modifies this
      ensures fh !in old(handles) ==> r == None && Snap() == old(Snap())
      ensures fh in old(handles) ==> (Snap(), r) == (Closed(old(Snap()), fh).0, Some((old(handles)[fh], Closed(old(Snap()), fh).1)))
      ensures old(Counted(Snap())) ==> Counted(Snap())
    {
      if fh !in handles { return None; }
      if Counted(Snap()) { CloseKeeps(Snap(), fh); }
      var h := handles[fh];
      handles := handles - {fh};
      var shouldDelete := false;
      if h.inode in inodes {
        var s := inodes[h.inode];
        s := s.(open := if s.open == 0 then 0 else s.open - 1);
        if s.open == 0 {
          shouldDelete := s.marked;
          inodes := inodes - {h.inode};
        } else {
          inodes := inodes[h.inode := s];
        }
      }
      return Some((h, shouldDelete));
    }

    method MarkForDeletion(i: Uuid) returns (now: bool)
      modifies this`inodes
      ensures (Snap(), now) == MarkedFor(old(Snap()), i)
      ensures old(Counted(Snap())) ==> Counted(Snap())
    {
      if Counted(Snap()) { MarkKeeps(Snap(), i); }
      var s := if i in inodes then inodes[i] else InodeState(0, false);
      if s.open == 0 {
        inodes := inodes - {i};
        return true;
      }
      inodes := inodes[i := s.(marked := true)];
      return false;
    }
  }

  function Loaded(h: Handle): Bytes { if h.buffer.Some? then h.buffer.value else [] }

  function Cut(h: Handle, n: nat): Handle { h.(buffer := Some(Resized(Loaded(h), n)), modified := true) }

  // ---- whole runs ----

  datatype Op = Open(i: Uuid, buffer: Option<Bytes>) | Close(fh: nat) | Mark(i: Uuid)

  function Next(t: Table, op: Op): Table {
    match op
    case Open(i, buffer) => Opened(t, i, buffer)
    case Close(fh) => if fh in t.handles then Closed(t, fh).0 else t
    case Mark(i) => MarkedFor(t, i).0
  }

  function Run(ops: seq<Op>): Table {
    if ops == [] then Table(1, map[], map[]) else Next(Run(ops[..|ops| - 1]), ops[|ops| - 1])
  }

  /** This operation tells its caller to delete `i` now, as a last close. */
  predicate Signals(t: Table, op: Op, i: Uuid) {
    op.Close? && op.fh in t.handles && t.handles[op.fh].inode == i && Closed(t, op.fh).1
  }

  /** This operation unlinks `i` while it is open and not yet marked. */
  predicate Defers(t: Table, op: Op, i: Uuid) { op == Mark(i) && OpenCount(t, i) > 0 && !Marked(t, i) }

  function SignalCount(ops: seq<Op>, i: Uuid): nat {
    if ops == [] then 0
    else SignalCount(ops[..|ops| - 1], i) + (if Signals(Run(ops[..|ops| - 1]), ops[|ops| - 1], i) then 1 else 0)
  }

  function DeferCount(ops: seq<Op>, i: Uuid): nat {
    if ops == [] then 0
    else DeferCount(ops[..|ops| - 1], i) + (if Defers(Run(ops[..|ops| - 1]), ops[|ops| - 1], i) then 1 else 0)
  }

  lemma {:induction false} RunCounts(ops: seq<Op>)
    ensures Counted(Run(ops))
    decreases |ops|
  {
    if ops != [] {
      var t, op := Run(ops[..|ops| - 1]), ops[|ops| - 1];
      RunCounts(ops[..|ops| - 1]);
      match op
      case Open(i, buffer) => OpenKeeps(t, i, buffer);
      case Close(fh) => if fh in t.handles { CloseKeeps(t, fh); }
      case Mark(i) => MarkKeeps(t, i);
    }
  }

  /** Over every run an inode's descriptor count is the number of its live
      handles, and none is left over once the last one closes. */
  lemma CountIsLiveHandles(ops: seq<Op>, i: Uuid)
    ensures OpenCount(Run(ops), i) == |FdsOf(Run(ops).handles, i)|
  {
    RunCounts(ops);
    var t := Run(ops);
    if i !in t.inodes { assert FdsOf(t.handles, i) == {}; }
  }

  /** Every deferred deletion is signalled exactly once: at any point the signals
      so far, plus one if the inode is marked, are the deferred unlinks so far. An
      inode never unlinked while open is never signalled. */
  lemma {:induction false} EachDeferralSignalsOnce(ops: seq<Op>, i: Uuid)
    ensures SignalCount(ops, i) + (if Marked(Run(ops), i) then 1 else 0) == DeferCount(ops, i)
    decreases |ops|
  {
    if ops != [] {
      EachDeferralSignalsOnce(ops[..|ops| - 1], i);
      RunCounts(ops[..|ops| - 1]);
    }
  }

  /** The signal comes with the close of the last handle, never earlier. */
  lemma SignalIsLastClose(ops: seq<Op>, op: Op, i: Uuid)
    requires Signals(Run(ops), op, i)
    ensures Marked(Run(ops), i) && FdsOf(Run(ops).handles, i) == {op.fh} && FdsOf(Next(Run(ops), op).handles, i) == {}
  {
    RunCounts(ops);
    var t := Run(ops);
    var fds := FdsOf(t.handles, i);
    assert op.fh in fds && |fds| == 1;
    assert |fds - {op.fh}| == 0;
    assert fds == (fds - {op.fh}) + {op.fh};
    assert FdsOf(Next(t, op).handles, i) == fds - {op.fh};
  }
}
