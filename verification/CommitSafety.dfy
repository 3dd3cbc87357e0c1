/** What every step of every upload keeps: catalogued rows lead to the bytes shipped. */
module CommitSafety {
  import opened Wrappers
  import opened Gf256
  import opened Catalog
  import opened Tiling
  import opened Placement
  import opened Ledger
  import opened ReadPath
  import opened UploadProtocol
  import RS = ReedSolomon

  /** Only the ledger differs. */
  ghost predicate SameShape(a: Topology, b: Topology) {
    && a.machines == b.machines
    && a.discs.Keys == b.discs.Keys && a.workers.Keys == b.workers.Keys
    && (forall d :: d in a.discs ==>
          b.discs[d] == a.discs[d].(usedMB := b.discs[d].usedMB, usedBytes := b.discs[d].usedBytes))
    && (forall w :: w in a.workers ==>
          b.workers[w] == a.workers[w].(usedMB := b.workers[w].usedMB, usedBytes := b.workers[w].usedBytes))
  }

  /** Files are created and extended, never changed where they have bytes. */
  ghost predicate Grows(a: Files, b: Files) {
    forall key :: key in a ==> key in b && a[key] <= b[key]
  }

  /** The row's machine is of the chunk's kind, and inline chunks are in volumes. */
  predicate OnItsKind(top: Topology, row: Row, kind: MachineType) {
    && row.disc in top.discs && top.discs[row.disc].machine in top.machines
    && top.machines[top.discs[row.disc].machine].kind == kind
    && (row.path.Volume? <==> kind.Inline?)
  }

  /** The row, as the read side resolves it, leads to the bytes of the chunk. */
  ghost predicate RowStored(h: Hash, top: Topology, files: Files, u: Id, row: Row, p: Piece) {
    && row.blob == u
    && RowMatches(h, row, p)
    && Resolvable(top, row) && OnItsKind(top, row, p.kind)
    && row.worker == top.machines[top.discs[row.disc].machine].worker
    && Fetch(files, Resolve(top, row)) == Some(p.bytes)
  }

  ghost predicate RowsStored(h: Hash, top: Topology, files: Files, u: Id, data: seq<Byte>, rows: seq<Row>) {
    && |rows| <= PieceCount(|data|)
    && forall i :: 0 <= i < |rows| ==> RowStored(h, top, files, u, rows[i], PieceAt(data, i))
  }

  predicate SameStripe(size: nat, i: nat, j: nat) {
    && i < j < RS.TOTAL_SHARDS * FullBlocks(size)
    && i / RS.TOTAL_SHARDS == j / RS.TOTAL_SHARDS
  }

  /** The shards of one stripe are on different discs. */
  ghost predicate StripesApart(data: seq<Byte>, rows: seq<Row>) {
    forall i, j :: 0 <= i < j < |rows| && SameStripe(|data|, i, j) ==> rows[i].disc != rows[j].disc
  }

  /** The target is a row of the candidates join; its free space may be out of date. */
  ghost predicate Linked(top: Topology, t: Target) {
    Joins(top, t.disc) && t == TargetOf(top, t.disc).(freeMB := t.freeMB)
  }

  function StripeStart(n: nat): (start: nat)
    ensures start <= n < start + RS.TOTAL_SHARDS && n - start == n % RS.TOTAL_SHARDS
  {
    n - n % RS.TOTAL_SHARDS
  }

  /** The shards of the stripe begun last went to the first targets, one each. */
  ghost predicate OneTargetEach(rows: seq<Row>, targets: seq<Target>) {
    && |targets| == RS.TOTAL_SHARDS
    && (forall i, j :: 0 <= i < j < RS.TOTAL_SHARDS ==> targets[i].disc != targets[j].disc)
    && (forall i :: StripeStart(|rows|) <= i < |rows| ==> rows[i].disc == targets[i - StripeStart(|rows|)].disc)
  }

  /** The targets selected for the block that is being shipped, and their use so far. */
  ghost predicate TargetsOk(top: Topology, up: Upload) {
    var n, full := |up.rows|, RS.TOTAL_SHARDS * FullBlocks(|up.data|);
    && (forall t :: t in up.targets ==> Linked(top, t) && t.kind == KindOf(|up.data|))
    && (n < full && n % RS.TOTAL_SHARDS > 0 ==> up.targets != [])
    && (n < full && up.targets != [] ==> OneTargetEach(up.rows, up.targets))
  }

  ghost predicate UploadOk(h: Hash, top: Topology, files: Files, nextId: Id, u: Id, up: Upload) {
    && u < nextId && up.data != []
    && RowsStored(h, top, files, u, up.data, up.rows)
    && StripesApart(up.data, up.rows)
    && (up.status == Running ==> TargetsOk(top, up))
  }

  ghost predicate FilesOk(files: Files, nextId: Id) {
    forall key :: key in files && key.path.ChunkFile? ==> key.path.id < nextId
  }

  function RowsOf(rows: seq<Row>, b: Id): (r: seq<Row>)
    ensures forall x :: x in r ==> x in rows
  {
    if rows == [] then []
    else
      var rest := RowsOf(rows[..|rows| - 1], b);
      if rows[|rows| - 1].blob == b then rest + [rows[|rows| - 1]] else rest
  }

  /** A blob is catalogued exactly if its upload committed; then it has all its rows,
      and no row belongs to anything else. */
  ghost predicate CatalogOk(h: Hash, w: World) {
    && (forall b :: b in w.blobs ==> b in w.uploads && w.uploads[b].status == Committed)
    && (forall u :: u in w.uploads && w.uploads[u].status == Committed ==>
          && u in w.blobs
          && |w.uploads[u].rows| == PieceCount(|w.uploads[u].data|)
          && w.blobs[u].size == |w.uploads[u].data| && w.blobs[u].checksum == h(w.uploads[u].data)
          && RowsOf(w.rows, u) == w.uploads[u].rows)
    && (forall i :: 0 <= i < |w.rows| ==> w.rows[i].blob in w.blobs)
  }

  ghost predicate UploadsOk(h: Hash, w: World) {
    forall u :: u in w.uploads ==> UploadOk(h, w.top, w.files, w.nextId, u, w.uploads[u])
  }

  /** The identifier was drawn before, and a chunk file bears that of its row. */
  predicate KeyOk(row: Row, nextId: Id) {
    row.id < nextId && (row.path.ChunkFile? ==> row.path.id == row.id)
  }

  ghost predicate RowsKeyed(rows: seq<Row>, nextId: Id) {
    && (forall i :: 0 <= i < |rows| ==> KeyOk(rows[i], nextId))
    && DistinctIds(rows)
  }

  ghost predicate DistinctIds(rows: seq<Row>) {
    forall i, j :: 0 <= i < j < |rows| ==> rows[i].id != rows[j].id
  }

  ghost predicate IdsApart(a: seq<Row>, b: seq<Row>) {
    forall i, j :: 0 <= i < |a| && 0 <= j < |b| ==> a[i].id != b[j].id
  }

  /** No two rows have the same identifier, be they catalogued or not. */
  ghost predicate KeysOk(w: World) {
    && (forall u :: u in w.uploads ==> RowsKeyed(w.uploads[u].rows, w.nextId))
    && (forall u, v :: u in w.uploads && v in w.uploads && u != v ==> IdsApart(w.uploads[u].rows, w.uploads[v].rows))
    && DistinctIds(w.rows)
  }

  ghost predicate Consistent(h: Hash, w: World) {
    && KeysOk(w)
    && IsCluster(w.top)
    && FilesOk(w.files, w.nextId)
    && UploadsOk(h, w)
    && CatalogOk(h, w)
    && Balanced(w.top, w.rows)
  }

  /** A cluster as BuildTopology leaves it, with any files of earlier ones. */
  ghost predicate Fresh(w: World) {
    && IsCluster(w.top) && Balanced(w.top, [])
    && w.blobs == map[] && w.rows == [] && w.uploads == map[] && FilesOk(w.files, w.nextId)
  }

  lemma FreshIsConsistent(h: Hash, w: World)
    requires Fresh(w)
    ensures Consistent(h, w)
  {}

  // Growth of the files and changes of the ledger disturb nothing.

  lemma FetchStable(a: Files, b: Files, loc: Location)
    requires Grows(a, b) && Fetch(a, loc).Some?
    ensures Fetch(b, loc) == Fetch(a, loc)
  {
    var key, lo, hi := loc.Key(), loc.row.offset, loc.row.offset + loc.row.size;
    assert a[key] == b[key][..|a[key]|];
    assert a[key][lo..hi] == b[key][lo..hi];
  }

  lemma RowStaysStored(h: Hash, top: Topology, top': Topology, files: Files, files': Files, u: Id, row: Row, p: Piece)
    requires RowStored(h, top, files, u, row, p) && SameShape(top, top') && Grows(files, files')
    ensures RowStored(h, top', files', u, row, p)
  {
    hide Fetch, Grows, RowMatches;
    assert Resolve(top, row) == Resolve(top', row);
    FetchStable(files, files', Resolve(top, row));
  }

  lemma UploadStaysOk(h: Hash, top: Topology, top': Topology, files: Files, files': Files, nextId: Id, nextId': Id,
      u: Id, up: Upload)
    requires UploadOk(h, top, files, nextId, u, up)
    requires SameShape(top, top') && Grows(files, files') && nextId <= nextId'
    ensures UploadOk(h, top', files', nextId', u, up)
  {
    forall i | 0 <= i < |up.rows| ensures RowStored(h, top', files', u, up.rows[i], PieceAt(up.data, i)) {
      hide PieceAt, RowStored, PieceCount;
      RowStaysStored(h, top, top', files, files', u, up.rows[i], PieceAt(up.data, i));
    }
    hide PieceAt, RowStored, PieceCount, FullBlocks, StripesApart;
    hide KindOf;
    forall t | t in up.targets && Linked(top, t) ensures Linked(top', t) {}
  }

  lemma WritingGrows(files: Files, nextId: Id, t: Target, bytes: seq<Byte>)
    requires FilesOk(files, nextId)
    ensures Grows(files, Written(files, KeyFor(t, nextId), bytes))
    ensures FilesOk(Written(files, KeyFor(t, nextId), bytes), nextId + 1)
  {}

  lemma ChargeKeepsShape(top: Topology, rows: seq<Row>)
    ensures SameShape(top, Charge(top, rows))
  {}

  lemma ShapeKeepsCluster(a: Topology, b: Topology)
    requires SameShape(a, b) && IsCluster(a)
    ensures IsCluster(b)
  {}

  lemma OthersStayOk(h: Hash, w: World, w': World, u: Id)
    requires UploadsOk(h, w) && SameShape(w.top, w'.top) && Grows(w.files, w'.files) && w.nextId <= w'.nextId
    requires u in w'.uploads && w'.uploads == w.uploads[u := w'.uploads[u]]
    requires UploadOk(h, w'.top, w'.files, w'.nextId, u, w'.uploads[u])
    ensures UploadsOk(h, w')
  {
    hide UploadOk, SameShape, Grows;
    forall v | v in w'.uploads ensures UploadOk(h, w'.top, w'.files, w'.nextId, v, w'.uploads[v]) {
      if v != u {
        UploadStaysOk(h, w.top, w'.top, w.files, w'.files, w.nextId, w'.nextId, v, w.uploads[v]);
      }
    }
  }

  // Identifiers of rows.

  /** One upload gets a new identifier and one more row, or no row. */
  lemma OneMoreKey(w: World, w': World, u: Id, added: seq<Row>)
    requires KeysOk(w) && w'.rows == w.rows && w.nextId <= w'.nextId
    requires u in w'.uploads && w'.uploads == w.uploads[u := w'.uploads[u]]
    requires w'.uploads[u].rows == (if u in w.uploads then w.uploads[u].rows else []) + added
    requires |added| <= 1 && forall i :: 0 <= i < |added| ==> KeyOk(added[i], w'.nextId) && added[i].id >= w.nextId
    ensures KeysOk(w')
  {
    var before := if u in w.uploads then w.uploads[u].rows else [];
    assert RowsKeyed(before, w.nextId);
    forall v | v in w.uploads && v != u
      ensures RowsKeyed(w.uploads[v].rows, w'.nextId)
      ensures IdsApart(w.uploads[v].rows, before + added) && IdsApart(before + added, w.uploads[v].rows)
    {
      assert RowsKeyed(w.uploads[v].rows, w.nextId) && IdsApart(w.uploads[v].rows, before);
    }
    hide IdsApart;
    assert RowsKeyed(before + added, w'.nextId);
  }

  lemma SameKeys(w: World, w': World, u: Id)
    requires KeysOk(w) && w'.rows == w.rows && w.nextId <= w'.nextId
    requires u in w.uploads && u in w'.uploads && w'.uploads == w.uploads[u := w'.uploads[u]]
    requires w'.uploads[u].rows == w.uploads[u].rows
    ensures KeysOk(w')
  {
    hide KeysOk;
    assert w.uploads[u].rows + [] == w.uploads[u].rows;
    OneMoreKey(w, w', u, []);
  }

  lemma SelectKeepsKeys(h: Hash, w: World, u: Id, targets: seq<Target>)
    requires KeysOk(w) && Enabled(w, Select(u, targets))
    ensures KeysOk(Apply(h, w, Select(u, targets)))
  {
    hide KeysOk, Suits;
    SameKeys(w, Apply(h, w, Select(u, targets)), u);
  }

  lemma PushKeepsKeys(h: Hash, w: World, u: Id)
    requires KeysOk(w) && CanPush(w, u)
    ensures KeysOk(Apply(h, w, Push(u)))
  {
    hide KeysOk, PieceAt, PieceCount, Written, OffsetOf, TargetIndex, EndsBlock;
    OneMoreKey(w, Apply(h, w, Push(u)), u, [RowFor(h, w.files, u, w.nextId, NextPiece(w, u), NextTarget(w, u))]);
  }

  /** A catalogued row belongs to an upload that has committed. */
  lemma CataloguedRowIsOfUpload(h: Hash, w: World, k: nat)
    requires CatalogOk(h, w) && k < |w.rows|
    ensures var u := w.rows[k].blob;
      u in w.uploads && w.uploads[u].status == Committed && w.rows[k] in w.uploads[u].rows
  {
    hide PieceCount;
    RowsOfHas(w.rows, k);
  }

  lemma CommitKeepsKeys(h: Hash, w: World, u: Id)
    requires KeysOk(w) && CatalogOk(h, w) && Enabled(w, Commit(u))
    ensures KeysOk(Apply(h, w, Commit(u)))
  {
    hide CatalogOk, PieceCount, Charge, IdsApart, RowsKeyed;
    var up := w.uploads[u];
    assert IdsApart(w.rows, up.rows) by {
      forall k, j | 0 <= k < |w.rows| && 0 <= j < |up.rows| ensures w.rows[k].id != up.rows[j].id {
        CataloguedRowIsOfUpload(h, w, k);
        KeysDiffer(w, w.rows[k].blob, w.rows[k], u, j);
      }
      AreApart(w.rows, up.rows);
    }
    assert RowsKeyed(up.rows, w.nextId);
    ConcatKeys(w.rows, up.rows, w.nextId);
  }

  lemma AreApart(a: seq<Row>, b: seq<Row>)
    requires forall i, j :: 0 <= i < |a| && 0 <= j < |b| ==> a[i].id != b[j].id
    ensures IdsApart(a, b)
  {}

  lemma KeysDiffer(w: World, v: Id, row: Row, u: Id, j: nat)
    requires KeysOk(w) && v in w.uploads && u in w.uploads && u != v && row in w.uploads[v].rows
    requires j < |w.uploads[u].rows|
    ensures row.id != w.uploads[u].rows[j].id
  {
    assert IdsApart(w.uploads[v].rows, w.uploads[u].rows);
  }

  lemma ConcatKeys(a: seq<Row>, b: seq<Row>, nextId: Id)
    requires DistinctIds(a) && RowsKeyed(b, nextId) && IdsApart(a, b)
    ensures DistinctIds(a + b)
  {}

  // The steps.

  lemma EmptyUploadOk(h: Hash, top: Topology, files: Files, nextId: Id, u: Id, data: seq<Byte>)
    requires u < nextId && data != []
    ensures UploadOk(h, top, files, nextId, u, Upload(data, [], [], Running))
  {}

  lemma StartKeepsConsistent(h: Hash, w: World, data: seq<Byte>)
    requires Consistent(h, w) && data != []
    ensures Consistent(h, Apply(h, w, Start(data)))
  {
    hide PieceAt, PieceCount, UploadOk, KeysOk, IsCluster, Balanced, SameShape, Grows;
    var w' := Apply(h, w, Start(data));
    EmptyUploadOk(h, w'.top, w'.files, w'.nextId, w.nextId, data);
    NothingChanges(w.top, w.files);
    UploadIsOld(h, w);
    OneMoreKey(w, w', w.nextId, []);
    OthersStayOk(h, w, w', w.nextId);
  }

  lemma UploadIsOld(h: Hash, w: World)
    requires UploadsOk(h, w)
    ensures w.nextId !in w.uploads
  {}

  lemma NextIsNew(h: Hash, w: World)
    requires Consistent(h, w)
    ensures w.nextId !in w.uploads
  {
    hide UploadsOk, CatalogOk, KeysOk, IsCluster, FilesOk, Balanced;
    UploadIsOld(h, w);
  }

  lemma NothingChanges(top: Topology, files: Files)
    ensures SameShape(top, top) && Grows(files, files)
  {}

  /** A step of an upload that is running, other than the commit. */
  ghost predicate Local(w: World, w': World, u: Id) {
    && w'.top == w.top && w'.blobs == w.blobs && w'.rows == w.rows && w.nextId <= w'.nextId
    && IsRunning(w, u) && u in w'.uploads && w'.uploads[u].status != Committed
    && w'.uploads == w.uploads[u := w'.uploads[u]]
    && Grows(w.files, w'.files) && FilesOk(w'.files, w'.nextId)
  }

  lemma LocalStepKeepsConsistent(h: Hash, w: World, w': World, u: Id)
    requires Consistent(h, w) && Local(w, w', u) && UploadOk(h, w'.top, w'.files, w'.nextId, u, w'.uploads[u])
    requires KeysOk(w')
    ensures Consistent(h, w')
  {
    NothingChanges(w.top, w.files);
    hide PieceCount, UploadOk, KeysOk, IsCluster, Balanced, SameShape, Grows, FilesOk;
    OthersStayOk(h, w, w', u);
  }

  lemma SelectIsLocal(h: Hash, w: World, u: Id, targets: seq<Target>)
    requires Enabled(w, Select(u, targets)) && FilesOk(w.files, w.nextId)
    ensures Local(w, Apply(h, w, Select(u, targets)), u)
  {}

  lemma PushIsLocal(h: Hash, w: World, u: Id)
    requires CanPush(w, u) && FilesOk(w.files, w.nextId)
    ensures Local(w, Apply(h, w, Push(u)), u)
  {
    hide PieceAt, PieceCount, Linked, Grows, FilesOk, Written, RowFor;
    WritingGrows(w.files, w.nextId, NextTarget(w, u), NextPiece(w, u).bytes);
  }

  lemma PushFailsIsLocal(h: Hash, w: World, u: Id, written: nat)
    requires Enabled(w, PushFails(u, written)) && FilesOk(w.files, w.nextId)
    ensures Local(w, Apply(h, w, PushFails(u, written)), u)
    ensures Apply(h, w, PushFails(u, written)).uploads[u] == w.uploads[u].(status := Aborted)
  {
    hide PieceAt, PieceCount, Linked, Grows, FilesOk, Written;
    WritingGrows(w.files, w.nextId, NextTarget(w, u), NextPiece(w, u).bytes[..written]);
  }

  lemma AbortIsLocal(h: Hash, w: World, u: Id)
    requires IsRunning(w, u) && FilesOk(w.files, w.nextId)
    ensures Local(w, Apply(h, w, Abort(u)), u)
    ensures Apply(h, w, Abort(u)).uploads[u] == w.uploads[u].(status := Aborted)
  {}

  lemma StatusIsLoose(h: Hash, top: Topology, files: Files, nextId: Id, u: Id, up: Upload, status: Status)
    requires UploadOk(h, top, files, nextId, u, up) && status != Running
    ensures UploadOk(h, top, files, nextId, u, up.(status := status))
  {}

  /** Selected targets are rows of the join, of the kind. */
  lemma SelectedAreLinked(top: Topology, p: Piece, targets: seq<Target>)
    requires Suits(top, p, targets) && (p.shardIndex != SHARD_INDEX_WHOLE ==> p.kind == Block)
    ensures forall t :: t in targets ==> Linked(top, t) && t.kind == p.kind
  {
    hide NoneEmptier, Eligible, RequiredMB;
    if p.shardIndex == SHARD_INDEX_WHOLE {
      assert targets == [targets[0]];
    }
  }

  /** What an upload selects serves at that moment: the disc is switched on and has the
      space, the machine is of the chunk's kind and not deleted, the worker is active. */
  lemma SelectedServe(w: World, u: Id, targets: seq<Target>)
    requires Enabled(w, Select(u, targets)) && w.uploads[u].data != []
    ensures var p := NextPiece(w, u);
      forall t :: t in targets ==> Qualifies(w.top, p.kind, RequiredMB(|p.bytes|), t)
  {
    PiecePlace(w.uploads[u].data, |w.uploads[u].rows|);
    hide PieceAt, PieceCount, FullBlocks, KindOf, Qualifies, Suits;
    SuitableServe(w.top, NextPiece(w, u), targets);
  }

  lemma SuitableServe(top: Topology, p: Piece, targets: seq<Target>)
    requires Suits(top, p, targets) && (p.shardIndex != SHARD_INDEX_WHOLE ==> p.kind == Block)
    ensures forall t :: t in targets ==> Qualifies(top, p.kind, RequiredMB(|p.bytes|), t)
  {
    hide NoneEmptier, Eligible, Qualifies, Draws, RequiredMB;
    if p.shardIndex == SHARD_INDEX_WHOLE {
      assert targets == [targets[0]];
    }
    DrawnQualify(top, p.kind, RequiredMB(|p.bytes|), targets);
  }

  lemma SelectKeepsTargets(w: World, u: Id, targets: seq<Target>)
    requires Enabled(w, Select(u, targets)) && TargetsOk(w.top, w.uploads[u]) && w.uploads[u].data != []
    ensures TargetsOk(w.top, w.uploads[u].(targets := targets))
  {
    PiecePlace(w.uploads[u].data, |w.uploads[u].rows|);
    hide PieceAt, PieceCount, FullBlocks, NoneEmptier, Eligible, Linked, TargetOf, Joins, KindOf;
    SelectedAreLinked(w.top, NextPiece(w, u), targets);
  }

  lemma SelectKeepsUpload(h: Hash, w: World, u: Id, targets: seq<Target>)
    requires Enabled(w, Select(u, targets)) && UploadOk(h, w.top, w.files, w.nextId, u, w.uploads[u])
    ensures var w' := Apply(h, w, Select(u, targets)); UploadOk(h, w'.top, w'.files, w'.nextId, u, w'.uploads[u])
  {
    hide PieceAt, PieceCount, RowsStored, StripesApart, TargetsOk, Suits;
    SelectKeepsTargets(w, u, targets);
  }

  /** An upload that ends without committing keeps its rows. */
  lemma EndKeepsUpload(h: Hash, w: World, w': World, u: Id)
    requires UploadsOk(h, w) && Local(w, w', u)
    requires w'.uploads[u] == w.uploads[u].(status := Aborted)
    ensures UploadOk(h, w'.top, w'.files, w'.nextId, u, w'.uploads[u])
  {
    hide UploadOk, SameShape, Grows, FilesOk;
    NothingChanges(w.top, w.files);
    UploadStaysOk(h, w.top, w'.top, w.files, w'.files, w.nextId, w'.nextId, u, w.uploads[u]);
    StatusIsLoose(h, w'.top, w'.files, w'.nextId, u, w.uploads[u], Aborted);
  }

  /** The row of a chunk that was just shipped leads to its bytes. */
  lemma PushedRowStored(h: Hash, top: Topology, files: Files, u: Id, id: Id, p: Piece, t: Target)
    requires FilesOk(files, id) && Linked(top, t) && t.kind == p.kind && p.bytes != []
    ensures RowStored(h, top, Written(files, KeyFor(t, id), p.bytes), u, RowFor(h, files, u, id, p, t), p)
  {
    var key, row := KeyFor(t, id), RowFor(h, files, u, id, p, t);
    var files' := Written(files, key, p.bytes);
    assert Resolve(top, row).Key() == key;
    assert files'[key][row.offset..row.offset + row.size] == p.bytes;
  }

  /** The next shard of a stripe goes to a disc of its own. */
  lemma PushKeepsApart(data: seq<Byte>, rows: seq<Row>, targets: seq<Target>, row: Row)
    requires StripesApart(data, rows)
    requires |rows| < RS.TOTAL_SHARDS * FullBlocks(|data|) ==>
      OneTargetEach(rows, targets) && row.disc == targets[|rows| - StripeStart(|rows|)].disc
    ensures StripesApart(data, rows + [row])
  {}

  lemma StripeEnds(n: nat)
    ensures (n + 1) % RS.TOTAL_SHARDS == 0 <==> n % RS.TOTAL_SHARDS == RS.TOTAL_SHARDS - 1
  {}

  lemma NextTargetUsed(rows: seq<Row>, targets: seq<Target>, row: Row)
    requires OneTargetEach(rows, targets) && row.disc == targets[|rows| - StripeStart(|rows|)].disc
    requires |rows| % RS.TOTAL_SHARDS < RS.TOTAL_SHARDS - 1
    ensures OneTargetEach(rows + [row], targets)
  {}

  lemma PushedTargetsOk(top: Topology, up: Upload, row: Row, p: Piece)
    requires TargetsOk(top, up) && up.data != []
    requires |up.rows| < PieceCount(|up.data|) && p == PieceAt(up.data, |up.rows|)
    requires TargetIndex(p) < |up.targets| && row.disc == up.targets[TargetIndex(p)].disc
    ensures TargetsOk(top, up.(rows := up.rows + [row], targets := if EndsBlock(p) then [] else up.targets))
  {
    hide PieceAt, PieceCount, FullBlocks, Linked, OneTargetEach;
    PiecePlace(up.data, |up.rows|);
    StripeEnds(|up.rows|);
    hide StripeStart;
    if !EndsBlock(p) && |up.rows| < RS.TOTAL_SHARDS * FullBlocks(|up.data|) {
      NextTargetUsed(up.rows, up.targets, row);
    }
  }

  lemma PushKeepsTargets(h: Hash, w: World, u: Id)
    requires CanPush(w, u) && TargetsOk(w.top, w.uploads[u]) && w.uploads[u].data != []
    ensures TargetsOk(w.top, Apply(h, w, Push(u)).uploads[u])
  {
    hide PieceAt, PieceCount, TargetsOk, Written, OffsetOf, TargetIndex, EndsBlock;
    var p := NextPiece(w, u);
    PushedTargetsOk(w.top, w.uploads[u], RowFor(h, w.files, u, w.nextId, p, NextTarget(w, u)), p);
  }

  lemma PushedStripesOk(top: Topology, up: Upload, row: Row, p: Piece)
    requires TargetsOk(top, up) && StripesApart(up.data, up.rows)
    requires up.data != [] && |up.rows| < PieceCount(|up.data|) && p == PieceAt(up.data, |up.rows|)
    requires TargetIndex(p) < |up.targets| && row.disc == up.targets[TargetIndex(p)].disc
    ensures StripesApart(up.data, up.rows + [row])
  {
    PiecePlace(up.data, |up.rows|);
    hide PieceAt, PieceCount, FullBlocks, StripesApart, Linked, OneTargetEach;
    PushKeepsApart(up.data, up.rows, up.targets, row);
  }

  lemma PushKeepsStripes(h: Hash, w: World, u: Id)
    requires CanPush(w, u) && w.uploads[u].data != []
    requires TargetsOk(w.top, w.uploads[u]) && StripesApart(w.uploads[u].data, w.uploads[u].rows)
    ensures StripesApart(w.uploads[u].data, Apply(h, w, Push(u)).uploads[u].rows)
  {
    hide PieceAt, PieceCount, TargetsOk, StripesApart, Written, OffsetOf, TargetIndex;
    var p := NextPiece(w, u);
    PushedStripesOk(w.top, w.uploads[u], RowFor(h, w.files, u, w.nextId, p, NextTarget(w, u)), p);
  }

  /** Rows that are stored stay so while the next one is added. */
  lemma RowsGrow(h: Hash, top: Topology, files: Files, files': Files, u: Id, data: seq<Byte>, rows: seq<Row>, row: Row)
    requires RowsStored(h, top, files, u, data, rows) && |rows| < PieceCount(|data|) && Grows(files, files')
    requires RowStored(h, top, files', u, row, PieceAt(data, |rows|))
    ensures RowsStored(h, top, files', u, data, rows + [row])
  {
    hide PieceAt, PieceCount, RowStored, SameShape, Grows;
    NothingChanges(top, files);
    forall i | 0 <= i < |rows| + 1 ensures RowStored(h, top, files', u, (rows + [row])[i], PieceAt(data, i)) {
      if i < |rows| {
        RowStaysStored(h, top, top, files, files', u, rows[i], PieceAt(data, i));
      }
    }
  }

  lemma PushKeepsRows(h: Hash, w: World, u: Id)
    requires CanPush(w, u) && w.uploads[u].data != [] && FilesOk(w.files, w.nextId)
    requires RowsStored(h, w.top, w.files, u, w.uploads[u].data, w.uploads[u].rows)
    requires Linked(w.top, NextTarget(w, u)) && NextTarget(w, u).kind == KindOf(|w.uploads[u].data|)
    ensures var w' := Apply(h, w, Push(u));
      RowsStored(h, w.top, w'.files, u, w.uploads[u].data, w'.uploads[u].rows)
  {
    hide PieceAt, PieceCount, FullBlocks, RowsStored, RowStored, Written, RowFor, Linked, FilesOk, Grows, TargetIndex;
    var up, p, t := w.uploads[u], NextPiece(w, u), NextTarget(w, u);
    var w', row := Apply(h, w, Push(u)), RowFor(h, w.files, u, w.nextId, p, t);
    PiecePlace(up.data, |up.rows|);
    WritingGrows(w.files, w.nextId, t, p.bytes);
    PushedRowStored(h, w.top, w.files, u, w.nextId, p, t);
    RowsGrow(h, w.top, w.files, w'.files, u, up.data, up.rows, row);
  }

  lemma PushKeepsUpload(h: Hash, w: World, u: Id)
    requires CanPush(w, u) && FilesOk(w.files, w.nextId)
    requires UploadOk(h, w.top, w.files, w.nextId, u, w.uploads[u])
    ensures var w' := Apply(h, w, Push(u));
      UploadOk(h, w'.top, w'.files, w'.nextId, u, w'.uploads[u])
  {
    hide PieceAt, PieceCount, FullBlocks, RowsStored, StripesApart, TargetsOk, Written, OffsetOf, FilesOk, Linked;
    PushKeepsTargets(h, w, u);
    PushKeepsStripes(h, w, u);
    NextTargetLinked(w, u);
    PushKeepsRows(h, w, u);
  }

  lemma NextTargetLinked(w: World, u: Id)
    requires CanPush(w, u) && TargetsOk(w.top, w.uploads[u])
    ensures Linked(w.top, NextTarget(w, u)) && NextTarget(w, u).kind == KindOf(|w.uploads[u].data|)
  {}

  lemma {:induction false} RowsOfHas(rows: seq<Row>, k: nat)
    requires k < |rows|
    ensures rows[k] in RowsOf(rows, rows[k].blob)
  {
    var n := |rows| - 1;
    if k < n {
      RowsOfHas(rows[..n], k);
    }
  }

  lemma {:induction false} RowsOfConcat(a: seq<Row>, b: seq<Row>, u: Id)
    ensures RowsOf(a + b, u) == RowsOf(a, u) + RowsOf(b, u)
  {
    if b == [] {
      assert a + b == a;
    } else {
      assert (a + b)[..|a + b| - 1] == a + b[..|b| - 1];
      RowsOfConcat(a, b[..|b| - 1], u);
    }
  }

  lemma {:induction false} RowsOfOne(rows: seq<Row>, u: Id, v: Id)
    requires forall i :: 0 <= i < |rows| ==> rows[i].blob == u
    ensures RowsOf(rows, v) == if u == v then rows else []
  {
    if rows != [] {
      RowsOfOne(rows[..|rows| - 1], u, v);
    }
  }

  lemma {:induction false} RowsOfNobody(rows: seq<Row>, u: Id)
    requires forall i :: 0 <= i < |rows| ==> rows[i].blob != u
    ensures RowsOf(rows, u) == []
  {
    if rows != [] {
      RowsOfNobody(rows[..|rows| - 1], u);
    }
  }

  lemma RowsAfterCommit(rows: seq<Row>, added: seq<Row>, u: Id, v: Id)
    requires forall i :: 0 <= i < |rows| ==> rows[i].blob != u
    requires forall i :: 0 <= i < |added| ==> added[i].blob == u
    ensures RowsOf(rows + added, v) == if v == u then added else RowsOf(rows, v)
  {
    hide RowsOf;
    RowsOfConcat(rows, added, v);
    RowsOfOne(added, u, v);
    if v == u {
      RowsOfNobody(rows, u);
    }
  }

  lemma CommitKeepsCatalog(h: Hash, w: World, u: Id)
    requires Enabled(w, Commit(u)) && CatalogOk(h, w)
    requires forall i :: 0 <= i < |w.uploads[u].rows| ==> w.uploads[u].rows[i].blob == u
    ensures var w' := Apply(h, w, Commit(u));
      && CatalogOk(h, w')
      && u in w'.blobs && !w'.blobs[u].deleted
      && forall b :: b in w.blobs && b != u ==> b in w'.blobs && w'.blobs[b] == w.blobs[b]
  {
    hide PieceCount, Charge, RowsOf;
    var w', up := Apply(h, w, Commit(u)), w.uploads[u];
    forall v: Id ensures RowsOf(w'.rows, v) == if v == u then up.rows else RowsOf(w.rows, v) {
      RowsAfterCommit(w.rows, up.rows, u, v);
    }
  }

  lemma CommitKeepsUpload(h: Hash, w: World, u: Id)
    requires UploadsOk(h, w) && Enabled(w, Commit(u)) && SameShape(w.top, Charge(w.top, w.uploads[u].rows))
    ensures var w' := Apply(h, w, Commit(u)); UploadOk(h, w'.top, w'.files, w'.nextId, u, w'.uploads[u])
  {
    hide PieceAt, PieceCount, UploadOk, Charge, SameShape, Grows;
    NothingChanges(w.top, w.files);
    UploadStaysOk(h, w.top, Charge(w.top, w.uploads[u].rows), w.files, w.files, w.nextId, w.nextId, u, w.uploads[u]);
    StatusIsLoose(h, Charge(w.top, w.uploads[u].rows), w.files, w.nextId, u, w.uploads[u], Committed);
  }

  lemma OwnRows(h: Hash, top: Topology, files: Files, nextId: Id, u: Id, up: Upload)
    requires UploadOk(h, top, files, nextId, u, up)
    ensures forall i :: 0 <= i < |up.rows| ==> up.rows[i].blob == u
  {}

  lemma CommitKeepsConsistent(h: Hash, w: World, u: Id)
    requires Consistent(h, w) && Enabled(w, Commit(u))
    ensures Consistent(h, Apply(h, w, Commit(u)))
  {
    hide PieceAt, PieceCount, UploadOk, IsCluster, Balanced, FilesOk, Charge, SameShape, KeysOk, CatalogOk, Grows;
    var w', up := Apply(h, w, Commit(u)), w.uploads[u];
    OwnRows(h, w.top, w.files, w.nextId, u, up);
    CommitKeepsCatalog(h, w, u);
    CommitKeepsKeys(h, w, u);
    ChargeKeepsBalance(w.top, w.rows, up.rows);
    ChargeKeepsShape(w.top, up.rows);
    ShapeKeepsCluster(w.top, w'.top);
    CommitKeepsUpload(h, w, u);
    NothingChanges(w.top, w.files);
    OthersStayOk(h, w, w', u);
  }

  lemma DeleteKeepsConsistent(h: Hash, w: World, b: Id)
    requires Consistent(h, w) && b in w.blobs
    ensures Consistent(h, Apply(h, w, Delete(b)))
  {
    hide PieceCount, UploadOk, IsCluster, Balanced, FilesOk, RowsKeyed, IdsApart, DistinctIds, RowsOf;
  }

  lemma SelectKeepsConsistent(h: Hash, w: World, u: Id, targets: seq<Target>)
    requires Consistent(h, w) && Enabled(w, Select(u, targets))
    ensures Consistent(h, Apply(h, w, Select(u, targets)))
  {
    hide UploadOk, IsCluster, Balanced, KeysOk, CatalogOk, FilesOk, Local, Suits, Apply, PieceAt, PieceCount;
    SelectIsLocal(h, w, u, targets);
    SelectKeepsUpload(h, w, u, targets);
    SelectKeepsKeys(h, w, u, targets);
    LocalStepKeepsConsistent(h, w, Apply(h, w, Select(u, targets)), u);
  }

  lemma PushKeepsConsistent(h: Hash, w: World, u: Id)
    requires Consistent(h, w) && CanPush(w, u)
    ensures Consistent(h, Apply(h, w, Push(u)))
  {
    hide UploadOk, IsCluster, Balanced, KeysOk, CatalogOk, FilesOk, Local, Apply, PieceAt, PieceCount, TargetIndex;
    PushIsLocal(h, w, u);
    PushKeepsUpload(h, w, u);
    PushKeepsKeys(h, w, u);
    LocalStepKeepsConsistent(h, w, Apply(h, w, Push(u)), u);
  }

  /** An upload that ends without committing. */
  lemma EndKeepsConsistent(h: Hash, w: World, w': World, u: Id)
    requires Consistent(h, w) && Local(w, w', u) && w'.uploads[u] == w.uploads[u].(status := Aborted)
    ensures Consistent(h, w')
  {
    hide UploadsOk, UploadOk, IsCluster, Balanced, KeysOk, CatalogOk, FilesOk, Grows;
    EndKeepsUpload(h, w, w', u);
    SameKeys(w, w', u);
    LocalStepKeepsConsistent(h, w, w', u);
  }

  lemma StepKeepsConsistent(h: Hash, w: World, step: Step)
    requires Consistent(h, w) && Enabled(w, step)
    ensures Consistent(h, Apply(h, w, step))
  {
    hide UploadsOk, IsCluster, Balanced, KeysOk, CatalogOk, FilesOk, Local, CanPush, Suits, Apply;
    match step
    case Start(data) =>
      StartKeepsConsistent(h, w, data);
    case Select(u, targets) =>
      SelectKeepsConsistent(h, w, u, targets);
    case Push(u) =>
      PushKeepsConsistent(h, w, u);
    case PushFails(u, written) =>
      PushFailsIsLocal(h, w, u, written);
      EndKeepsConsistent(h, w, Apply(h, w, step), u);
    case Commit(u) =>
      CommitKeepsConsistent(h, w, u);
    case Abort(u) =>
      AbortIsLocal(h, w, u);
      EndKeepsConsistent(h, w, Apply(h, w, step), u);
    case Delete(blob) =>
      DeleteKeepsConsistent(h, w, blob);
  }

  /** The invariant holds in every reachable world. */
  lemma {:induction false} RunKeepsConsistent(h: Hash, w: World, steps: seq<Step>)
    requires Consistent(h, w) && Legal(h, w, steps)
    ensures Consistent(h, Run(h, w, steps))
    decreases |steps|
  {
    hide Consistent, Apply, Enabled;
    if steps != [] {
      StepKeepsConsistent(h, w, steps[0]);
      RunKeepsConsistent(h, Apply(h, w, steps[0]), steps[1..]);
    }
  }
}
