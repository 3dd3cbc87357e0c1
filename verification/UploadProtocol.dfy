/** Uploads as a concurrent protocol: the steps that StoreFile takes, interleaved with
    those of any number of other uploads, with failures anywhere. */
module UploadProtocol {
  import opened Gf256
  import opened Catalog
  import opened Tiling
  import opened Placement
  import opened Ledger
  import RS = ReedSolomon

  datatype Status = Running | Committed | Aborted

  /** One execution of StoreFile: the file, the rows of the chunks shipped so far, and
      the targets selected for the block that is being shipped. */
  datatype Upload = Upload(data: seq<Byte>, rows: seq<Row>, targets: seq<Target>, status: Status)

  /** The database, the workers' files, and the local state of every upload that was
      started. An upload is known by the identifier of its blob; identifiers are drawn
      from a counter, which stands for fresh UUIDs. */
  datatype World = World(
    top: Topology,
    blobs: map<Id, Blob>,
    rows: seq<Row>,
    files: Files,
    uploads: map<Id, Upload>,
    nextId: Id)

  datatype Step =
    | Start(data: seq<Byte>)
    | Select(u: Id, targets: seq<Target>)
    | Push(u: Id)
    | PushFails(u: Id, written: nat)
    | Commit(u: Id)
    | Abort(u: Id)
    | Delete(blob: Id)

  predicate IsRunning(w: World, u: Id) {
    u in w.uploads && w.uploads[u].status == Running
  }

  /** Chunks remain to be shipped. */
  predicate HasNext(w: World, u: Id) {
    IsRunning(w, u) && |w.uploads[u].rows| < PieceCount(|w.uploads[u].data|)
  }

  function NextPiece(w: World, u: Id): Piece
    requires HasNext(w, u)
  {
    PieceAt(w.uploads[u].data, |w.uploads[u].rows|)
  }

  /** The targets chosen for a block suit it. */
  ghost predicate Suits(top: Topology, p: Piece, targets: seq<Target>) {
    if p.shardIndex == SHARD_INDEX_WHOLE then
      |targets| == 1 && IsBest(top, p.kind, RequiredMB(|p.bytes|), targets[0])
    else
      IsSelection(top, Block, RequiredMB(|p.bytes|), RS.TOTAL_SHARDS, targets)
  }

  function TargetIndex(p: Piece): nat
  {
    if p.shardIndex >= 0 then p.shardIndex else 0
  }

  predicate CanPush(w: World, u: Id) {
    HasNext(w, u) && TargetIndex(NextPiece(w, u)) < |w.uploads[u].targets|
  }

  function NextTarget(w: World, u: Id): Target
    requires CanPush(w, u)
  {
    w.uploads[u].targets[TargetIndex(NextPiece(w, u))]
  }

  function KeyFor(t: Target, id: Id): FileKey {
    FileKey(t.address, t.namespace, if t.kind == Inline then Volume else ChunkFile(id))
  }

  /** The engines: a chunk file is created or overwritten, a volume is appended to. */
  function Written(files: Files, key: FileKey, bytes: seq<Byte>): Files {
    if key.path == Volume && key in files then files[key := files[key] + bytes] else files[key := bytes]
  }

  function OffsetOf(files: Files, key: FileKey): nat {
    if key.path == Volume && key in files then |files[key]| else 0
  }

  /** The row that pushChunk builds. */
  function RowFor(h: Hash, files: Files, u: Id, id: Id, p: Piece, t: Target): Row {
    var key := KeyFor(t, id);
    Row(id, u, t.disc, t.worker, h(p.bytes), |p.bytes|, p.logicalOffset, p.logicalSize, p.blockIndex, p.shardIndex,
      key.path, OffsetOf(files, key))
  }

  ghost predicate Enabled(w: World, step: Step) {
    match step
    case Start(data) => data != []
    case Select(u, targets) => HasNext(w, u) && w.uploads[u].targets == [] && Suits(w.top, NextPiece(w, u), targets)
    case Push(u) => CanPush(w, u)
    case PushFails(u, written) => CanPush(w, u) && written <= |NextPiece(w, u).bytes|
    case Commit(u) => IsRunning(w, u) && |w.uploads[u].rows| == PieceCount(|w.uploads[u].data|)
    case Abort(u) => IsRunning(w, u)
    case Delete(blob) => blob in w.blobs
  }

  function Apply(h: Hash, w: World, step: Step): World
    requires Enabled(w, step)
  {
    match step
    case Start(data) =>
      w.(uploads := w.uploads[w.nextId := Upload(data, [], [], Running)], nextId := w.nextId + 1)
    case Select(u, targets) =>
      w.(uploads := w.uploads[u := w.uploads[u].(targets := targets)])
    case Push(u) =>
      var p, t, up := NextPiece(w, u), NextTarget(w, u), w.uploads[u];
      w.(files := Written(w.files, KeyFor(t, w.nextId), p.bytes),
         uploads := w.uploads[u := up.(
           rows := up.rows + [RowFor(h, w.files, u, w.nextId, p, t)],
           targets := if EndsBlock(p) then [] else up.targets)],
         nextId := w.nextId + 1)
    case PushFails(u, written) =>
      var p, t := NextPiece(w, u), NextTarget(w, u);
      w.(files := Written(w.files, KeyFor(t, w.nextId), p.bytes[..written]),
         uploads := w.uploads[u := w.uploads[u].(status := Aborted)],
         nextId := w.nextId + 1)
    case Commit(u) =>
      var up := w.uploads[u];
      w.(top := Charge(w.top, up.rows),
         blobs := w.blobs[u := Blob(|up.data|, h(up.data), false)],
         rows := w.rows + up.rows,
         uploads := w.uploads[u := up.(status := Committed)])
    case Abort(u) =>
      w.(uploads := w.uploads[u := w.uploads[u].(status := Aborted)])
    case Delete(blob) =>
      w.(blobs := w.blobs[blob := w.blobs[blob].(deleted := true)])
  }

  /** The chunk is the last of its block. */
  predicate EndsBlock(p: Piece) {
    p.shardIndex == SHARD_INDEX_WHOLE || p.shardIndex == RS.TOTAL_SHARDS - 1
  }

  ghost predicate Legal(h: Hash, w: World, steps: seq<Step>)
    decreases |steps|
  {
    steps == [] || (Enabled(w, steps[0]) && Legal(h, Apply(h, w, steps[0]), steps[1..]))
  }

  ghost function Run(h: Hash, w: World, steps: seq<Step>): World
    requires Legal(h, w, steps)
    decreases |steps|
  {
    if steps == [] then w else Run(h, Apply(h, w, steps[0]), steps[1..])
  }

  /** The steps can be taken from w, one after the other, and lead to w'. */
  ghost predicate Leads(h: Hash, w: World, steps: seq<Step>, w': World) {
    Legal(h, w, steps) && Run(h, w, steps) == w'
  }

  /** Some steps lead from w to w'. */
  ghost predicate Evolves(h: Hash, w: World, w': World) {
    exists steps :: Leads(h, w, steps, w')
  }

  /** The step is taken by another upload than u. */
  predicate ByOther(step: Step, u: Id) {
    match step
    case Start(_) => true
    case Delete(_) => true
    case _ => step.u != u
  }

  /** Other uploads than u may lead from w to w'. */
  ghost predicate OthersEvolve(h: Hash, w: World, w': World, u: Id) {
    exists steps :: Leads(h, w, steps, w') && forall i :: 0 <= i < |steps| ==> ByOther(steps[i], u)
  }

  lemma {:induction false} LeadsOn(h: Hash, w: World, a: seq<Step>, w': World, b: seq<Step>, w'': World)
    requires Leads(h, w, a, w') && Leads(h, w', b, w'')
    ensures Leads(h, w, a + b, w'')
    decreases |a|
  {
    hide Enabled, Apply;
    if a == [] {
      assert a + b == b;
    } else {
      LeadsOn(h, Apply(h, w, a[0]), a[1..], w', b, w'');
      assert (a + b)[0] == a[0] && (a + b)[1..] == a[1..] + b;
    }
  }

  lemma EvolvesOn(h: Hash, w: World, w': World, w'': World)
    requires Evolves(h, w, w') && Evolves(h, w', w'')
    ensures Evolves(h, w, w'')
  {
    hide Leads;
    var a :| Leads(h, w, a, w');
    var b :| Leads(h, w', b, w'');
    LeadsOn(h, w, a, w', b, w'');
  }

  lemma EvolvesByStep(h: Hash, w: World, w': World, step: Step)
    requires Evolves(h, w, w') && Enabled(w', step)
    ensures Evolves(h, w, Apply(h, w', step))
  {
    hide Enabled, Apply;
    var next := Apply(h, w', step);
    assert Leads(h, next, [], next);
    assert [step][1..] == [];
    assert Leads(h, w', [step], next);
    EvolvesOn(h, w, w', Apply(h, w', step));
  }

  lemma NothingHappens(h: Hash, w: World, u: Id)
    ensures Evolves(h, w, w) && OthersEvolve(h, w, w, u)
  {
    assert Leads(h, w, [], w);
  }

  lemma OthersLeaveUpload(h: Hash, w: World, step: Step, u: Id)
    requires Enabled(w, step) && ByOther(step, u) && u in w.uploads && u < w.nextId
    ensures var w' := Apply(h, w, step);
      u in w'.uploads && w'.uploads[u] == w.uploads[u] && u < w'.nextId && (u in w'.blobs <==> u in w.blobs)
  {}

  lemma {:induction false} OthersLeaveUploadInRun(h: Hash, w: World, steps: seq<Step>, u: Id)
    requires Legal(h, w, steps) && u in w.uploads && u < w.nextId
    requires forall i :: 0 <= i < |steps| ==> ByOther(steps[i], u)
    ensures var w' := Run(h, w, steps);
      u in w'.uploads && w'.uploads[u] == w.uploads[u] && u < w'.nextId && (u in w'.blobs <==> u in w.blobs)
    decreases |steps|
  {
    hide Enabled, Apply, ByOther;
    if steps != [] {
      OthersLeaveUpload(h, w, steps[0], u);
      OthersLeaveUploadInRun(h, Apply(h, w, steps[0]), steps[1..], u);
    }
  }
}
