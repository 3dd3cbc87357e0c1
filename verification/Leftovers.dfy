/** What an upload that fails leaves behind: bytes that no catalogued row refers to. */
module Leftovers {
  import opened Catalog
  import opened Tiling
  import opened Placement
  import opened Ledger
  import opened ReadPath
  import opened UploadProtocol
  import opened CommitSafety
  import opened Durability

  /** A stretch of a file. */
  datatype Extent = Extent(key: FileKey, lo: nat, hi: nat)

  predicate Overlaps(top: Topology, row: Row, e: Extent) {
    && Resolvable(top, row) && Resolve(top, row).Key() == e.key
    && row.offset < e.hi && e.lo < row.offset + row.size
  }

  predicate Ships(step: Step) {
    step.Push? || step.PushFails?
  }

  /** The bytes that a push, complete or not, adds. */
  ghost function Shipped(w: World, step: Step): Extent
    requires Enabled(w, step) && Ships(step)
  {
    var key := KeyFor(NextTarget(w, step.u), w.nextId);
    var size := if step.Push? then |NextPiece(w, step.u).bytes| else step.written;
    Extent(key, OffsetOf(w.files, key), OffsetOf(w.files, key) + size)
  }

  /** The extent is part of a file that is there and that no later chunk will get. */
  ghost predicate InThePast(files: Files, nextId: Id, e: Extent) {
    && e.key in files && e.hi <= |files[e.key]|
    && (e.key.path.ChunkFile? ==> e.key.path.id < nextId)
  }

  ghost predicate RowsAvoid(top: Topology, rows: seq<Row>, e: Extent) {
    forall i :: 0 <= i < |rows| ==> !Overlaps(top, rows[i], e)
  }

  /** No upload but u has a row for any of these bytes. */
  ghost predicate OnlyFor(w: World, u: Id, e: Extent) {
    && InThePast(w.files, w.nextId, e)
    && forall v :: v in w.uploads && v != u ==> RowsAvoid(w.top, w.uploads[v].rows, e)
  }

  /** What a push adds lies beyond all stored rows. */
  lemma ShippedIsNew(h: Hash, w: World, step: Step, v: Id)
    requires Consistent(h, w) && Enabled(w, step) && Ships(step) && v in w.uploads
    ensures RowsAvoid(w.top, w.uploads[v].rows, Shipped(w, step))
  {
    hide PieceAt, PieceCount, IsCluster, KeysOk, CatalogOk, StripesApart, TargetsOk, RowMatches, CanPush;
    assert UploadOk(h, w.top, w.files, w.nextId, v, w.uploads[v]);
    forall i | 0 <= i < |w.uploads[v].rows| ensures !Overlaps(w.top, w.uploads[v].rows[i], Shipped(w, step)) {
      assert RowStored(h, w.top, w.files, v, w.uploads[v].rows[i], PieceAt(w.uploads[v].data, i));
    }
  }

  lemma AvoidStays(top: Topology, top': Topology, rows: seq<Row>, e: Extent)
    requires SameShape(top, top') && RowsAvoid(top, rows, e)
    ensures RowsAvoid(top', rows, e)
  {}

  lemma PastStays(files: Files, files': Files, nextId: Id, nextId': Id, e: Extent)
    requires InThePast(files, nextId, e) && Grows(files, files') && nextId <= nextId'
    ensures InThePast(files', nextId', e)
  {}

  lemma ShippedOnlyForOne(h: Hash, w: World, step: Step)
    requires Consistent(h, w) && Enabled(w, step) && Ships(step)
    ensures OnlyFor(Apply(h, w, step), step.u, Shipped(w, step))
  {
    hide PieceAt, PieceCount, IsCluster, KeysOk, CatalogOk, UploadsOk, RowsAvoid, RowFor, TargetIndex, Balanced;
    forall v | v in w.uploads ensures RowsAvoid(w.top, w.uploads[v].rows, Shipped(w, step)) {
      ShippedIsNew(h, w, step, v);
    }
  }

  lemma OnlyForStays(h: Hash, w: World, step: Step, u: Id, e: Extent)
    requires Consistent(h, w) && Enabled(w, step) && OnlyFor(w, u, e)
    ensures OnlyFor(Apply(h, w, step), u, e)
  {
    hide Consistent, PieceAt, PieceCount, Suits, Charge, Grows, SameShape, RowsAvoid, InThePast, Written, TargetIndex,
      RowFor;
    var w' := Apply(h, w, step);
    StepGrows(h, w, step);
    PastStays(w.files, w'.files, w.nextId, w'.nextId, e);
    NothingChanges(w.top, w.files);
    if step.Commit? {
      ChargeKeepsShape(w.top, w.uploads[step.u].rows);
    }
    forall v | v in w'.uploads && v != u ensures RowsAvoid(w'.top, w'.uploads[v].rows, e) {
      if step.Start? && v == w.nextId {
        NoRows(w'.top, e);
      } else {
        AvoidStays(w.top, w'.top, w.uploads[v].rows, e);
        if step.Push? && step.u == v {
          PushAvoids(h, w, v, e);
        }
      }
    }
  }

  lemma NoRows(top: Topology, e: Extent)
    ensures RowsAvoid(top, [], e)
  {}

  lemma PushAvoids(h: Hash, w: World, v: Id, e: Extent)
    requires CanPush(w, v) && Consistent(h, w)
    requires InThePast(w.files, w.nextId, e) && RowsAvoid(w.top, w.uploads[v].rows, e)
    ensures RowsAvoid(w.top, Apply(h, w, Push(v)).uploads[v].rows, e)
  {
    hide PieceAt, PieceCount, IsCluster, KeysOk, CatalogOk, FilesOk, RowsStored, StripesApart, TargetIndex, Linked,
      InThePast,
      Overlaps, KeyFor, Balanced;
    assert UploadOk(h, w.top, w.files, w.nextId, v, w.uploads[v]);
    NextTargetLinked(w, v);
    NewRowAvoids(h, w.top, w.files, v, w.nextId, NextPiece(w, v), NextTarget(w, v), e);
  }

  lemma NewRowAvoids(h: Hash, top: Topology, files: Files, u: Id, id: Id, p: Piece, t: Target, e: Extent)
    requires Linked(top, t) && InThePast(files, id, e)
    ensures !Overlaps(top, RowFor(h, files, u, id, p, t), e)
  {}

  lemma {:induction false} OnlyForStaysInRun(h: Hash, w: World, steps: seq<Step>, u: Id, e: Extent)
    requires Consistent(h, w) && Legal(h, w, steps) && OnlyFor(w, u, e)
    ensures OnlyFor(Run(h, w, steps), u, e)
    decreases |steps|
  {
    hide Consistent, Apply, Enabled, OnlyFor;
    if steps != [] {
      StepKeepsConsistent(h, w, steps[0]);
      OnlyForStays(h, w, steps[0], u, e);
      OnlyForStaysInRun(h, Apply(h, w, steps[0]), steps[1..], u, e);
    }
  }

  /** Whatever an upload that has not committed shipped, completely or in part, whether it
      failed, goes on or was left hanging, no row of the catalog refers to a byte of it. */
  lemma LeftoversAreUnreferenced(h: Hash, w0: World, steps: seq<Step>, w: World, step: Step, w1: World,
      later: seq<Step>, w2: World)
    requires Fresh(w0) && Leads(h, w0, steps, w)
    requires Enabled(w, step) && Ships(step) && w1 == Apply(h, w, step) && Leads(h, w1, later, w2)
    requires step.u in w2.uploads && w2.uploads[step.u].status != Committed
    ensures RowsAvoid(w2.top, w2.rows, Shipped(w, step))
  {
    hide Apply, Run, Legal, Enabled, Fresh, Shipped, UploadsOk, KeysOk, IsCluster, Overlaps, FilesOk, Balanced,
      PieceCount;
    var e, u := Shipped(w, step), step.u;
    FreshIsConsistent(h, w0);
    RunKeepsConsistent(h, w0, steps);
    StepKeepsConsistent(h, w, step);
    RunKeepsConsistent(h, w1, later);
    ShippedOnlyForOne(h, w, step);
    OnlyForStaysInRun(h, w1, later, u, e);
    forall k | 0 <= k < |w2.rows| ensures !Overlaps(w2.top, w2.rows[k], e) {
      var v := w2.rows[k].blob;
      RowsOfHas(w2.rows, k);
      var i :| 0 <= i < |w2.uploads[v].rows| && w2.uploads[v].rows[i] == w2.rows[k];
    }
  }
}
