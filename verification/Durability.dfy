/** What the invariant is for: a listed blob can be read, now and later, and after the
    loss of up to four machines. */
module Durability {
  import opened Wrappers
  import opened Gf256
  import opened Catalog
  import opened Sequences
  import opened Tiling
  import opened Placement
  import opened Ledger
  import opened Retrieval
  import opened ReadPath
  import opened UploadProtocol
  import opened CommitSafety
  import RS = ReedSolomon

  function ResolveAll(top: Topology, rows: seq<Row>): (r: seq<Location>)
    requires forall i :: 0 <= i < |rows| ==> Resolvable(top, rows[i])
    ensures |r| == |rows| && forall i :: 0 <= i < |rows| ==> r[i] == Resolve(top, rows[i])
  {
    seq(|rows|, i requires 0 <= i < |rows| => Resolve(top, rows[i]))
  }

  lemma {:induction false} JoinOfRows(top: Topology, rows: seq<Row>, b: Id)
    requires forall i :: 0 <= i < |RowsOf(rows, b)| ==> Resolvable(top, RowsOf(rows, b)[i])
    ensures Locations(top, rows, b) == ResolveAll(top, RowsOf(rows, b))
  {
    if rows != [] {
      var n := |rows| - 1;
      var before := RowsOf(rows[..n], b);
      forall i | 0 <= i < |before| ensures Resolvable(top, before[i]) {
        assert before[i] == RowsOf(rows, b)[i];
      }
      JoinOfRows(top, rows[..n], b);
      assert rows[n].blob == b ==> RowsOf(rows, b)[|before|] == rows[n];
    }
  }

  /** The join over a catalogued blob lists the file's chunks, each of which leads to
      its bytes. */
  lemma CataloguedBlob(h: Hash, w: World, b: Id)
    requires Consistent(h, w) && b in w.blobs
    ensures var up, base := w.uploads[b], Locations(w.top, w.rows, b);
      && up.data != [] && Describes(h, up.data, base) && StripesApart(up.data, up.rows)
      && w.blobs[b].size == |up.data| && w.blobs[b].checksum == h(up.data)
      && |up.rows| == |base|
      && forall i :: 0 <= i < |base| ==>
          && Resolvable(w.top, up.rows[i]) && base[i] == Resolve(w.top, up.rows[i])
          && Fetch(w.files, base[i]) == Some(PieceAt(up.data, i).bytes)
  {
    hide PieceAt, PieceCount, KeysOk, IsCluster, Fetch, StripesApart, TargetsOk, RowMatches;
    var up := w.uploads[b];
    assert UploadOk(h, w.top, w.files, w.nextId, b, up);
    forall i | 0 <= i < |up.rows| ensures RowStored(h, w.top, w.files, b, up.rows[i], PieceAt(up.data, i)) {}
    JoinOfRows(w.top, w.rows, b);
  }

  // A run only adds.

  lemma StepGrows(h: Hash, w: World, step: Step)
    requires Consistent(h, w) && Enabled(w, step)
    ensures Grows(w.files, Apply(h, w, step).files)
  {
    hide PieceAt, PieceCount, UploadsOk, IsCluster, KeysOk, CatalogOk, Suits, Charge, KeyFor, Written;
    match step
    case Push(u) => WritingGrows(w.files, w.nextId, NextTarget(w, u), NextPiece(w, u).bytes);
    case PushFails(u, written) =>
      WritingGrows(w.files, w.nextId, NextTarget(w, u), NextPiece(w, u).bytes[..written]);
    case _ =>
  }

  /** The location of a chunk and the file it belongs to never change. */
  ghost predicate StillListed(w: World, w': World, b: Id) {
    && b in w.blobs && b in w'.blobs && b in w.uploads && b in w'.uploads
    && w'.uploads[b] == w.uploads[b]
    && SameShape(w.top, w'.top)
  }

  lemma StepKeepsListed(h: Hash, w: World, step: Step, b: Id)
    requires Consistent(h, w) && Enabled(w, step) && b in w.blobs
    ensures StillListed(w, Apply(h, w, step), b)
  {
    hide PieceAt, PieceCount, KeysOk, IsCluster, Suits, Charge, Written, RowsStored, StripesApart, TargetsOk, RowFor,
      SameShape;
    NothingChanges(w.top, w.files);
    UploadIsOld(h, w);
    if step.Commit? {
      ChargeKeepsShape(w.top, w.uploads[step.u].rows);
    }
  }

  lemma ShapesCompose(a: Topology, b: Topology, c: Topology)
    requires SameShape(a, b) && SameShape(b, c)
    ensures SameShape(a, c)
  {}

  lemma GrowthComposes(a: Files, b: Files, c: Files)
    requires Grows(a, b) && Grows(b, c)
    ensures Grows(a, c)
  {}

  lemma {:induction false} RunOnlyAdds(h: Hash, w: World, steps: seq<Step>)
    requires Consistent(h, w) && Legal(h, w, steps)
    ensures Grows(w.files, Run(h, w, steps).files)
    ensures forall b :: b in w.blobs ==> StillListed(w, Run(h, w, steps), b)
    decreases |steps|
  {
    hide Consistent, Apply, Enabled, Grows, SameShape;
    if steps == [] {
      NothingChanges(w.top, w.files);
      forall b | b in w.blobs ensures b in w.uploads {
        ListedIsUpload(h, w, b);
      }
    } else {
      var w1, w2 := Apply(h, w, steps[0]), Run(h, w, steps);
      StepKeepsConsistent(h, w, steps[0]);
      StepGrows(h, w, steps[0]);
      RunOnlyAdds(h, w1, steps[1..]);
      GrowthComposes(w.files, w1.files, w2.files);
      forall b | b in w.blobs ensures StillListed(w, w2, b) {
        StepKeepsListed(h, w, steps[0], b);
        ShapesCompose(w.top, w1.top, w2.top);
      }
    }
  }

  lemma ListedIsUpload(h: Hash, w: World, b: Id)
    requires Consistent(h, w) && b in w.blobs
    ensures b in w.uploads
  {}

  // Reading.

  /** The worker answers from its files as they are, or as they will be after any more
      uploads. */
  ghost predicate AnswersFromFiles(files: Files, ans: Answers, loc: Location) {
    exists later: Files :: Grows(files, later) && ans(loc) == Fetch(later, loc)
  }

  /** The machines in lost may answer anything; all the others answer from their files. */
  ghost predicate OnlyLost(files: Files, lost: set<string>, ans: Answers, base: seq<Location>) {
    forall i :: 0 <= i < |base| && base[i].namespace !in lost ==> AnswersFromFiles(files, ans, base[i])
  }

  /** All the chunks that were not on lost machines are answered. */
  ghost predicate IntactUnlessLost(lost: set<string>, ans: Answers, data: seq<Byte>, base: seq<Location>) {
    && |base| == PieceCount(|data|)
    && forall i :: 0 <= i < |base| && base[i].namespace !in lost ==> ans(base[i]) == Some(PieceAt(data, i).bytes)
  }

  lemma OnlyLostAreMissing(h: Hash, w: World, b: Id, lost: set<string>, ans: Answers)
    requires Consistent(h, w) && b in w.blobs && b in w.uploads
    requires OnlyLost(w.files, lost, ans, Locations(w.top, w.rows, b))
    ensures IntactUnlessLost(lost, ans, w.uploads[b].data, Locations(w.top, w.rows, b))
  {
    hide Consistent, PieceAt, PieceCount, Locations, Fetch, Grows, RowMatches, StripesApart;
    CataloguedBlob(h, w, b);
    var data, base := w.uploads[b].data, Locations(w.top, w.rows, b);
    forall i | 0 <= i < |base| && base[i].namespace !in lost ensures ans(base[i]) == Some(PieceAt(data, i).bytes) {
      var later: Files :| Grows(w.files, later) && ans(base[i]) == Fetch(later, base[i]);
      FetchStable(w.files, later, base[i]);
    }
  }

  /** Some worker answered with bytes that are not the chunk but have its checksum. */
  ghost predicate Forged(h: Hash, ans: Answers, data: seq<Byte>, base: seq<Location>) {
    exists i :: 0 <= i < |base| && i < PieceCount(|data|) && ForgedChunk(h, ans(base[i]), PieceAt(data, i).bytes)
  }

  predicate ForgedChunk(h: Hash, answer: Option<seq<Byte>>, bytes: seq<Byte>) {
    answer.Some? && answer.value != bytes && h(answer.value) == h(bytes)
  }

  /** A result of RetrieveBlob for blob b in world w: the rows of the join came in some
      order, and the workers gave the answers. */
  ghost predicate IsReadResult(h: Hash, ans: Answers, w: World, b: Id, blob: Blob, r: Result<seq<Byte>, ReadError>) {
    exists locs: seq<Location>, idx: seq<int> ::
      IsReadOf(w, b, locs, idx) && Retrieve(h, ans, locs, idx, blob) == r
  }

  ghost predicate IsReadOf(w: World, b: Id, locs: seq<Location>, idx: seq<int>) {
    multiset(locs) == multiset(Locations(w.top, w.rows, b)) && Enumerates(idx, BlockIndexes(locs))
  }

  /** The file is in the catalog. */
  ghost predicate Listed(h: Hash, w: World, b: Id, data: seq<Byte>) {
    && b in w.blobs && w.blobs[b].size == |data| && w.blobs[b].checksum == h(data)
    && b in w.uploads && w.uploads[b].data == data && w.uploads[b].status == Committed
  }

  /** The file is shown to its owner: in the catalog, and not marked as deleted. */
  predicate Visible(w: World, b: Id) {
    b in w.blobs && !w.blobs[b].deleted
  }

  /** All the chunks are there to be asked for, and enough of them survive. */
  ghost predicate Rebuildable(ans: Answers, data: seq<Byte>, base: seq<Location>) {
    |base| == PieceCount(|data|) && Survives(ans, data, base)
  }

  /** The error is that of the first block that cannot be rebuilt. */
  ghost predicate TellsLoss(ans: Answers, data: seq<Byte>, base: seq<Location>, e: ReadError) {
    |base| == PieceCount(|data|) && IsFirstLoss(ans, data, base, BlockCount(|data|), e)
  }

  lemma UnforgedMeansNoCollision(h: Hash, ans: Answers, data: seq<Byte>, base: seq<Location>)
    requires |base| == PieceCount(|data|) && !Forged(h, ans, data, base)
    ensures NoCollision(h, ans, data, base)
  {}

  /** For any listed file and any answers that are no forgeries: RetrieveBlob returns the
      file if enough chunks survive, and in all other cases an error. */
  lemma ReadResult(h: Hash, ans: Answers, w: World, b: Id, data: seq<Byte>)
    requires Consistent(h, w) && Listed(h, w, b, data) && !Forged(h, ans, data, Locations(w.top, w.rows, b))
    ensures forall r :: IsReadResult(h, ans, w, b, w.blobs[b], r) ==>
      if Rebuildable(ans, data, Locations(w.top, w.rows, b)) then r == Success(data)
      else r.Failure? && TellsLoss(ans, data, Locations(w.top, w.rows, b), r.error)
  {
    hide Consistent, PieceAt, PieceCount, BlockCount, Locations, Fetch, Survives, NoCollision, RowMatches, StripesApart,
      Forged;
    CataloguedBlob(h, w, b);
    var base := Locations(w.top, w.rows, b);
    UnforgedMeansNoCollision(h, ans, data, base);
    forall r | IsReadResult(h, ans, w, b, w.blobs[b], r)
      ensures if Rebuildable(ans, data, base) then r == Success(data)
              else r.Failure? && TellsLoss(ans, data, base, r.error)
    {
      var locs: seq<Location>, idx: seq<int> :|
        IsReadOf(w, b, locs, idx) && Retrieve(h, ans, locs, idx, w.blobs[b]) == r;
      ReadIsExact(h, ans, data, base, locs, idx, w.blobs[b]);
    }
  }

  /** In a consistent world, a listed file reads back while no machine is lost. */
  lemma ListedReadsBack(h: Hash, w: World, b: Id, data: seq<Byte>, ans: Answers)
    requires Consistent(h, w) && Listed(h, w, b, data) && OnlyLost(w.files, {}, ans, Locations(w.top, w.rows, b))
    ensures forall r :: IsReadResult(h, ans, w, b, w.blobs[b], r) ==> r == Success(data)
  {
    hide Consistent, PieceAt, PieceCount, BlockCount, Locations, Fetch, Survives, RowMatches, StripesApart,
      IsReadResult, OnlyLost;
    CataloguedBlob(h, w, b);
    OnlyLostAreMissing(h, w, b, {}, ans);
    AllIntact(h, ans, data, Locations(w.top, w.rows, b));
    ReadResult(h, ans, w, b, data);
  }

  // What every run keeps of rows and blobs.

  lemma StepDeletes(h: Hash, w: World, step: Step, b: Id)
    requires CatalogOk(h, w) && Enabled(w, step)
    ensures var w' := Apply(h, w, step);
      if b in w.blobs then b in w'.blobs && (Visible(w', b) <==> Visible(w, b) && step != Delete(b))
      else step != Delete(b) && (b in w'.blobs ==> step == Commit(b) && Visible(w', b))
  {
    hide PieceAt, PieceCount, Charge, RowsOf, Written, RowFor, Suits;
  }

  /** A blob is visible exactly as long as it was not deleted. */
  lemma {:induction false} RunDeletes(h: Hash, w: World, steps: seq<Step>, b: Id)
    requires Consistent(h, w) && Legal(h, w, steps) && b in Run(h, w, steps).blobs
    ensures Visible(Run(h, w, steps), b) <==> (b in w.blobs ==> Visible(w, b)) && Delete(b) !in steps
    decreases |steps|
  {
    hide Apply, Enabled, KeysOk, CatalogOk, UploadsOk, IsCluster, FilesOk, Balanced;
    if steps != [] {
      StepKeepsConsistent(h, w, steps[0]);
      StepDeletes(h, w, steps[0], b);
      RunDeletes(h, Apply(h, w, steps[0]), steps[1..], b);
      assert Delete(b) in steps <==> steps[0] == Delete(b) || Delete(b) in steps[1..];
    }
  }

  /** After any run a blob is marked as deleted exactly if it was deleted in the run. */
  lemma DeletedExactlyIfDeleted(h: Hash, w0: World, steps: seq<Step>, w: World, b: Id)
    requires Fresh(w0) && Leads(h, w0, steps, w) && b in w.blobs
    ensures w.blobs[b].deleted <==> Delete(b) in steps
  {
    hide Run, Legal, Consistent, IsCluster;
    FreshIsConsistent(h, w0);
    RunDeletes(h, w0, steps, b);
  }

  /** After any run, the rows of all uploads have different identifiers, and so have the
      catalogued rows; a chunk file bears the identifier of its row. */
  lemma IdentifiersAreUnique(h: Hash, w0: World, steps: seq<Step>, w: World)
    requires Fresh(w0) && Leads(h, w0, steps, w)
    ensures forall k, l :: 0 <= k < l < |w.rows| ==> w.rows[k].id != w.rows[l].id
    ensures forall u, v, i, j ::
      (u in w.uploads && v in w.uploads && 0 <= i < |w.uploads[u].rows| && 0 <= j < |w.uploads[v].rows|) ==>
      (u != v || i != j ==> w.uploads[u].rows[i].id != w.uploads[v].rows[j].id)
    ensures forall u, i :: u in w.uploads && 0 <= i < |w.uploads[u].rows| ==>
      && w.uploads[u].rows[i].id < w.nextId
      && forall k :: w.uploads[u].rows[i].path == ChunkFile(k) ==> w.uploads[u].rows[i].id == k
  {
    hide Run, Legal, UploadsOk, CatalogOk, IsCluster, FilesOk, Balanced, Fresh;
    FreshIsConsistent(h, w0);
    RunKeepsConsistent(h, w0, steps);
    forall u, v, i, j | u in w.uploads && v in w.uploads && (u != v || i != j) &&
      0 <= i < |w.uploads[u].rows| && 0 <= j < |w.uploads[v].rows|
      ensures w.uploads[u].rows[i].id != w.uploads[v].rows[j].id
    {
      assert RowsKeyed(w.uploads[u].rows, w.nextId);
      assert u != v ==> IdsApart(w.uploads[u].rows, w.uploads[v].rows);
    }
    assert forall u :: u in w.uploads ==> RowsKeyed(w.uploads[u].rows, w.nextId);
  }

  /** After any run, every chunk of a file below 128KB is in a volume of an inline machine,
      every other chunk in a file of its own on a block machine. */
  lemma ChunksAreOnTheirKind(h: Hash, w0: World, steps: seq<Step>, w: World, u: Id, i: nat)
    requires Fresh(w0) && Leads(h, w0, steps, w) && u in w.uploads && i < |w.uploads[u].rows|
    ensures var up := w.uploads[u]; var row := up.rows[i];
      && row.disc in w.top.discs && w.top.discs[row.disc].machine in w.top.machines
      && i < PieceCount(|up.data|)
      && var kind := w.top.machines[w.top.discs[row.disc].machine].kind;
      && kind == PieceAt(up.data, i).kind == (if |up.data| < 131_072 then Inline else Block)
      && (row.path.Volume? <==> kind == Inline)
  {
    hide Run, Legal, CatalogOk, KeysOk, IsCluster, FilesOk, Balanced, Fresh, StripesApart, TargetsOk, PieceAt;
    FreshIsConsistent(h, w0);
    RunKeepsConsistent(h, w0, steps);
    var up := w.uploads[u];
    assert UploadOk(h, w.top, w.files, w.nextId, u, up);
    assert RowStored(h, w.top, w.files, u, up.rows[i], PieceAt(up.data, i));
    Routing(up.data, i);
  }

  /** Once a blob is listed, every read of the catalog in that world or a later one, with
      every chunk fetched then or later still, returns its file, whatever other uploads
      do or leave behind. */
  lemma ListedBlobIsReadable(h: Hash, w0: World, steps: seq<Step>, w: World, later: seq<Step>, w': World, b: Id,
      data: seq<Byte>, ans: Answers)
    requires Fresh(w0) && Leads(h, w0, steps, w) && Leads(h, w, later, w')
    requires Listed(h, w, b, data) && OnlyLost(w'.files, {}, ans, Locations(w'.top, w'.rows, b))
    ensures Listed(h, w', b, data)
    ensures Visible(w', b) <==> Visible(w, b) && Delete(b) !in later
    ensures forall r :: IsReadResult(h, ans, w', b, w'.blobs[b], r) ==> r == Success(data)
  {
    hide Consistent, Run, Legal, Fresh, SameShape, Grows, IsReadResult, OnlyLost, Locations;
    FreshIsConsistent(h, w0);
    RunKeepsConsistent(h, w0, steps);
    RunKeepsConsistent(h, w, later);
    RunOnlyAdds(h, w, later);
    RunDeletes(h, w, later, b);
    assert StillListed(w, w', b);
    CatalogMatches(h, w', b);
    ListedReadsBack(h, w', b, data, ans);
  }

  lemma CatalogMatches(h: Hash, w: World, b: Id)
    requires Consistent(h, w) && b in w.blobs
    ensures b in w.uploads && Listed(h, w, b, w.uploads[b].data)
  {
    hide UploadsOk, KeysOk, IsCluster, FilesOk, Balanced, PieceCount;
  }

  lemma AllIntact(h: Hash, ans: Answers, data: seq<Byte>, base: seq<Location>)
    requires data != [] && Describes(h, data, base) && IntactUnlessLost({}, ans, data, base)
    ensures NoCollision(h, ans, data, base) && Survives(ans, data, base)
  {
    hide PieceAt, RowMatches;
    forall k | 0 <= k < FullBlocks(|data|) ensures BlockSurvives(ans, data, base, k) {
      StripeIntact(ans, data, base, k, {});
    }
  }

  function Below(n: nat): (r: set<nat>)
    ensures |r| == n && forall s: nat :: s in r <==> s < n
  {
    if n == 0 then {} else Below(n - 1) + {n - 1}
  }

  /** A stripe of which all shards but those in gone are intact. */
  lemma StripeIntact(ans: Answers, data: seq<Byte>, base: seq<Location>, k: nat, gone: set<nat>)
    requires |base| == PieceCount(|data|) && k < FullBlocks(|data|)
    requires forall s: nat :: s < RS.TOTAL_SHARDS && s !in gone ==> IntactShard(ans, data, base, k, s)
    ensures |IntactShards(ans, data, base, k)| >= RS.TOTAL_SHARDS - |gone|
  {
    hide IntactShard, PieceCount, FullBlocks;
    var intact := IntactShards(ans, data, base, k);
    assert Below(RS.TOTAL_SHARDS) <= intact + gone;
    SubsetCardinality(Below(RS.TOTAL_SHARDS), intact + gone);
  }

  // Losing machines.

  /** Of names that are all different, at most |lost| are lost. */
  lemma {:induction false} LostCount(names: seq<string>, lost: set<string>)
    requires forall i, j :: 0 <= i < j < |names| ==> names[i] != names[j]
    ensures |set s: nat | s < |names| && names[s] in lost| <= |lost|
  {
    var gone := set s: nat | s < |names| && names[s] in lost;
    if names == [] {
      assert gone == {};
    } else {
      var n := |names| - 1;
      var before, rest := names[..n], lost - {names[n]};
      LostCount(before, rest);
      var goneBefore := set s: nat | s < |before| && before[s] in rest;
      assert gone == goneBefore + if names[n] in lost then {n} else {};
    }
  }

  lemma DifferentDiscs(top: Topology, a: Row, b: Row)
    requires IsCluster(top) && Resolvable(top, a) && Resolvable(top, b) && a.disc != b.disc
    ensures Resolve(top, a).namespace != Resolve(top, b).namespace
  {}

  lemma StripeOnDifferentDiscs(data: seq<Byte>, rows: seq<Row>, k: nat, s: nat, t: nat)
    requires StripesApart(data, rows) && |rows| == PieceCount(|data|)
    requires k < FullBlocks(|data|) && s < t < RS.TOTAL_SHARDS
    ensures var first := RS.TOTAL_SHARDS * k; first + t < |rows| && rows[first + s].disc != rows[first + t].disc
  {}

  /** The shards of a stripe are on machines with different namespaces. */
  lemma StripeOnDistinctMachines(h: Hash, w: World, b: Id, k: nat, s: nat, t: nat)
    requires Consistent(h, w) && b in w.blobs && k < FullBlocks(|w.uploads[b].data|) && s < t < RS.TOTAL_SHARDS
    ensures var base, first := Locations(w.top, w.rows, b), RS.TOTAL_SHARDS * k;
      first + t < |base| && base[first + s].namespace != base[first + t].namespace
  {
    hide PieceAt, PieceCount, FullBlocks, Locations, Fetch, UploadsOk, KeysOk, CatalogOk, FilesOk, Balanced, IsCluster,
      Resolve, Resolvable, StripesApart;
    CataloguedBlob(h, w, b);
    ListedIsUpload(h, w, b);
    var rows, first := w.uploads[b].rows, RS.TOTAL_SHARDS * k;
    StripeOnDifferentDiscs(w.uploads[b].data, rows, k, s, t);
    DifferentDiscs(w.top, rows[first + s], rows[first + t]);
  }

  function ShardAt(base: seq<Location>, k: nat, s: nat): Location
    requires RS.TOTAL_SHARDS * k + s < |base|
  {
    base[RS.TOTAL_SHARDS * k + s]
  }

  /** The shards of stripe k that were on lost machines. */
  ghost function Gone(base: seq<Location>, k: nat, lost: set<string>): (g: set<nat>)
    requires RS.TOTAL_SHARDS * k + RS.TOTAL_SHARDS <= |base|
  {
    set s: nat | s < RS.TOTAL_SHARDS && ShardAt(base, k, s).namespace in lost
  }

  lemma FewAreGone(h: Hash, w: World, b: Id, k: nat, lost: set<string>)
    requires Consistent(h, w) && b in w.blobs && k < FullBlocks(|w.uploads[b].data|)
    ensures RS.TOTAL_SHARDS * k + RS.TOTAL_SHARDS <= |Locations(w.top, w.rows, b)|
    ensures |Gone(Locations(w.top, w.rows, b), k, lost)| <= |lost|
  {
    hide Consistent, FullBlocks, Locations;
    var base, first := Locations(w.top, w.rows, b), RS.TOTAL_SHARDS * k;
    StripeOnDistinctMachines(h, w, b, k, 0, RS.TOTAL_SHARDS - 1);
    var names: seq<string> := seq(RS.TOTAL_SHARDS, s requires 0 <= s < RS.TOTAL_SHARDS => base[first + s].namespace);
    forall s, t | 0 <= s < t < |names| ensures names[s] != names[t] {
      StripeOnDistinctMachines(h, w, b, k, s, t);
    }
    LostCount(names, lost);
    assert Gone(base, k, lost) == set s: nat | s < |names| && names[s] in lost;
  }

  /** No whole chunk was on a lost machine. */
  predicate WholeChunksSafe(base: seq<Location>, lost: set<string>) {
    forall i :: 0 <= i < |base| && base[i].row.shardIndex == SHARD_INDEX_WHOLE ==> base[i].namespace !in lost
  }

  lemma SurvivesLoss(h: Hash, w: World, b: Id, lost: set<string>, ans: Answers)
    requires Consistent(h, w) && b in w.blobs && |lost| <= RS.TOTAL_SHARDS - RS.DATA_SHARDS
    requires var base := Locations(w.top, w.rows, b);
      OnlyLost(w.files, lost, ans, base) && WholeChunksSafe(base, lost)
    ensures var data, base := w.uploads[b].data, Locations(w.top, w.rows, b);
      |base| == PieceCount(|data|) && Survives(ans, data, base)
  {
    hide Consistent, PieceAt, PieceCount, BlockCount, FullBlocks, Locations, Fetch, RowMatches, IntactShards, Gone,
      StripesApart, OnlyLost, IntactUnlessLost;
    ListedIsUpload(h, w, b);
    CataloguedBlob(h, w, b);
    OnlyLostAreMissing(h, w, b, lost, ans);
    var data, base := w.uploads[b].data, Locations(w.top, w.rows, b);
    forall k | 0 <= k < BlockCount(|data|) ensures BlockSurvives(ans, data, base, k) {
      if k < FullBlocks(|data|) {
        FewAreGone(h, w, b, k, lost);
        StripeSurvives(lost, ans, data, base, k);
      } else {
        WholeSurvives(h, lost, ans, data, base, k);
      }
    }
  }

  lemma StripeSurvives(lost: set<string>, ans: Answers, data: seq<Byte>, base: seq<Location>, k: nat)
    requires IntactUnlessLost(lost, ans, data, base) && k < FullBlocks(|data|)
    requires RS.TOTAL_SHARDS * k + RS.TOTAL_SHARDS <= |base|
    requires |Gone(base, k, lost)| <= RS.TOTAL_SHARDS - RS.DATA_SHARDS
    ensures |IntactShards(ans, data, base, k)| >= RS.DATA_SHARDS
  {
    hide PieceAt, PieceCount, FullBlocks, IntactShards;
    StripeIntact(ans, data, base, k, Gone(base, k, lost));
  }

  lemma WholeSurvives(h: Hash, lost: set<string>, ans: Answers, data: seq<Byte>, base: seq<Location>, k: nat)
    requires data != [] && Describes(h, data, base) && IntactUnlessLost(lost, ans, data, base)
    requires WholeChunksSafe(base, lost) && FullBlocks(|data|) <= k < BlockCount(|data|)
    ensures BlockSurvives(ans, data, base, k)
  {
    var i := RS.TOTAL_SHARDS * k;
    PiecePlace(data, i);
    hide PieceAt;
    assert RowMatches(h, base[i].row, PieceAt(data, i));
  }

  /** The main result, for any consistent world: if at most four machines are lost or
      rewritten, none of which holds a whole chunk of the blob, reading returns exactly
      the bytes that were stored, or else some answer is a forgery, an explicit collision
      of the hash. */
  lemma StoredFileSurvives(h: Hash, w: World, b: Id, data: seq<Byte>, lost: set<string>, ans: Answers)
    requires Consistent(h, w) && Listed(h, w, b, data) && |lost| <= 4
    requires OnlyLost(w.files, lost, ans, Locations(w.top, w.rows, b))
    requires WholeChunksSafe(Locations(w.top, w.rows, b), lost)
    ensures forall r :: IsReadResult(h, ans, w, b, w.blobs[b], r) ==>
      r == Success(data) || Forged(h, ans, data, Locations(w.top, w.rows, b))
  {
    hide Consistent, PieceAt, PieceCount, BlockCount, Locations, Fetch, OnlyLost, WholeChunksSafe, Survives, Forged,
      IsReadResult;
    SurvivesLoss(h, w, b, lost, ans);
    if !Forged(h, ans, data, Locations(w.top, w.rows, b)) {
      ReadResult(h, ans, w, b, data);
    }
  }

  /** The same for every world that any interleaving of uploads, with any failures, leads
      to from a fresh cluster. */
  lemma SurvivesFourMachines(h: Hash, w0: World, steps: seq<Step>, w: World, b: Id, data: seq<Byte>, lost: set<string>,
      ans: Answers)
    requires Fresh(w0) && Leads(h, w0, steps, w) && Listed(h, w, b, data) && |lost| <= 4
    requires OnlyLost(w.files, lost, ans, Locations(w.top, w.rows, b))
    requires WholeChunksSafe(Locations(w.top, w.rows, b), lost)
    ensures forall r :: IsReadResult(h, ans, w, b, w.blobs[b], r) ==>
      r == Success(data) || Forged(h, ans, data, Locations(w.top, w.rows, b))
  {
    hide Consistent, Run, Legal, Fresh, PieceCount, Locations, OnlyLost, WholeChunksSafe, Forged, IsReadResult, Listed;
    FreshIsConsistent(h, w0);
    RunKeepsConsistent(h, w0, steps);
    StoredFileSurvives(h, w, b, data, lost, ans);
  }
}
