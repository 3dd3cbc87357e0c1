/** The files that a worker keeps below its cluster root, which both engines share. */
module ClusterRoot {
  import opened Gf256
  import opened Catalog
  import O = Outages

  /** The file volume_01.dat of each machine that has one. */
  type Volumes = map<string, seq<Byte>>

  /** The file chunks/<id>.dat of a machine. */
  datatype ChunkKey = ChunkKey(namespace: string, id: Id)

  type Chunks = map<ChunkKey, seq<Byte>>

  /** All the files of a worker, by the names that the catalog knows them by. */
  function FilesOf(address: string, volumes: Volumes, chunks: Chunks): Files {
    (map n | n in volumes :: FileKey(address, n, Volume) := volumes[n]) +
    (map c | c in chunks :: FileKey(address, c.namespace, ChunkFile(c.id)) := chunks[c])
  }

  predicate HasFile(volumes: Volumes, chunks: Chunks, namespace: string, path: Path) {
    if path.Volume? then namespace in volumes else ChunkKey(namespace, path.id) in chunks
  }

  function FileAt(volumes: Volumes, chunks: Chunks, namespace: string, path: Path): seq<Byte>
    requires HasFile(volumes, chunks, namespace, path)
  {
    if path.Volume? then volumes[namespace] else chunks[ChunkKey(namespace, path.id)]
  }

  lemma FilesOfAt(address: string, volumes: Volumes, chunks: Chunks, key: FileKey)
    ensures key in FilesOf(address, volumes, chunks) <==>
      key.address == address && HasFile(volumes, chunks, key.namespace, key.path)
    ensures key in FilesOf(address, volumes, chunks) ==>
      FilesOf(address, volumes, chunks)[key] == FileAt(volumes, chunks, key.namespace, key.path)
  {
    assert key == FileKey(key.address, key.namespace, key.path);
    if key.path.ChunkFile? {
      assert ChunkKey(key.namespace, key.path.id).id == key.path.id;
    }
  }

  class ClusterRoot {
    const address: string
    const outages: O.Outages
    var volumes: Volumes
    var chunks: Chunks

    constructor (address: string, outages: O.Outages, volumes: Volumes, chunks: Chunks)
      ensures this.address == address && this.outages == outages && this.volumes == volumes && this.chunks == chunks
    {
      this.address, this.outages, this.volumes, this.chunks := address, outages, volumes, chunks;
    }

    function Files(): Files
      reads this
    {
      FilesOf(address, volumes, chunks)
    }
  }
}
