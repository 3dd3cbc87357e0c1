/** The gateway's tables, the files on the workers, and the join that leads from a chunk
    row to the bytes. */
module Catalog {
  import opened Wrappers
  import opened Gf256

  type Id = nat
  type Digest = seq<Byte>
  type Hash = seq<Byte> -> Digest

  datatype MachineType = Block | Inline

  datatype Worker = Worker(name: string, address: string, capacityMB: int, usedMB: int, usedBytes: int,
    active: bool, deleted: bool)

  datatype Machine = Machine(namespace: string, kind: MachineType, worker: Id, deleted: bool)

  datatype Disc = Disc(serial: string, machine: Id, capacityMB: int, usedMB: int, usedBytes: int, active: bool)

  datatype Topology = Topology(workers: map<Id, Worker>, machines: map<Id, Machine>, discs: map<Id, Disc>)
  {
    predicate Linked() {
      && (forall d :: d in discs ==> discs[d].machine in machines)
      && (forall m :: m in machines ==> machines[m].worker in workers)
    }
  }

  /** A file below a machine's directory: chunks/<id>.dat or volume_01.dat. */
  datatype Path = ChunkFile(id: Id) | Volume

  datatype FileKey = FileKey(address: string, namespace: string, path: Path)

  type Files = map<FileKey, seq<Byte>>

  /** A row of blob_chunks. */
  datatype Row = Row(
    id: Id,
    blob: Id,
    disc: Id,
    worker: Id,
    checksum: Digest,
    size: nat,
    logicalOffset: nat,
    logicalSize: nat,
    blockIndex: int,
    shardIndex: int,
    path: Path,
    offset: nat)

  datatype Blob = Blob(size: nat, checksum: Digest, deleted: bool)

  /** A row joined with what is needed to reach its bytes. */
  datatype Location = Location(row: Row, namespace: string, address: string)
  {
    function Key(): FileKey {
      FileKey(address, namespace, row.path)
    }
  }

  predicate Resolvable(top: Topology, row: Row) {
    && row.disc in top.discs
    && top.discs[row.disc].machine in top.machines
    && row.worker in top.workers
  }

  /** The machine by way of the disc, the address by way of the row's worker. */
  function Resolve(top: Topology, row: Row): Location
    requires Resolvable(top, row)
  {
    Location(row, top.machines[top.discs[row.disc].machine].namespace, top.workers[row.worker].address)
  }

  /** The inner join over the rows of one blob. */
  function Locations(top: Topology, rows: seq<Row>, blob: Id): (r: seq<Location>)
    ensures |r| <= |rows|
  {
    if rows == [] then []
    else
      var rest := Locations(top, rows[..|rows| - 1], blob);
      var row := rows[|rows| - 1];
      if row.blob == blob && Resolvable(top, row) then rest + [Resolve(top, row)] else rest
  }

  /** What a worker answers to a read: a positive number of bytes, all of them present. */
  function Fetch(files: Files, loc: Location): (r: Option<seq<Byte>>)
    ensures r.Some? ==> |r.value| == loc.row.size
  {
    var key := loc.Key();
    if key in files && 0 < loc.row.size && loc.row.offset + loc.row.size <= |files[key]|
    then Some(files[key][loc.row.offset..loc.row.offset + loc.row.size])
    else None
  }
}
