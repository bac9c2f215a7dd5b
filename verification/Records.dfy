/** The rows, markers and identifiers the two-stage commit passes around. */
module Records {

  datatype Option<+T> = None | Some(value: T)

  type Uuid = nat
  type Hash = string
  type Bytes = seq<nat>

  /** The fields of a pending marker that the drain acts on. */
  datatype Marker = Marker(seqno: nat, inode: Uuid, version: Uuid, hash: Hash,
                           blob: Option<Uuid>, size: nat, shared: bool)

  /** What a printed queue file name says; module QueueNames shows that printing
      and parsing lose nothing, so the protocol modules use the pair itself. */
  datatype Name = Name(seqno: nat, hash: Hash)

  function NameOf(m: Marker): Name { Name(m.seqno, m.hash) }

  datatype InodeRow = InodeRow(blob: Option<Uuid>, size: nat)

  datatype VersionRow = VersionRow(inode: Uuid, number: nat, blob: Option<Uuid>,
                                   hash: Hash, size: nat, parent: Option<Uuid>)

  /** `dedup` holds the shared rows of `blobs`, which the partial unique index
      makes a function of the content hash; `owned` holds the private rows. */
  datatype Db = Db(inodes: map<Uuid, InodeRow>, versions: map<Uuid, VersionRow>,
                   dedup: map<Hash, Uuid>, owned: map<Uuid, Hash>)

  function Min(a: nat, b: nat): nat { if a < b then a else b }
}
