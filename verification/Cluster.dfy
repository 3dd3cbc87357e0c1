/** Gateways and workers together. An append takes many steps on a worker, among those of
    other requests, and reads take no lock. Every run of the whole is a run of the upload
    protocol, in which a push is one step, so what holds of the protocol holds here. */
module Cluster {
  import opened Wrappers
  import opened Gf256
  import opened Catalog
  import opened ClusterRoot
  import opened Tiling
  import opened Placement
  import opened WorkerRefinement
  import UP = UploadProtocol
  import WP = WorkerProtocol
  import CS = CommitSafety
  import Retrieval
  import opened Durability

  /** An append that a gateway has sent to a worker, where it is call t. */
  datatype Pending = Pending(address: string, t: WP.Tid)

  /** What the gateways and their database know, which is no file; the workers by their
      addresses; and the appends that gateways wait for. */
  datatype System = System(gateway: UP.World, workers: map<string, WP.State>, pending: map<Id, Pending>)

  datatype Event =
    /** A step that no worker takes part in. */
    | Gateway(step: UP.Step)
    /** The request to append the next chunk arrives, as far as it was sent. */
    | Send(u: Id, t: WP.Tid, sent: nat)
    /** Something happens on a worker: a call waits, locks, opens, copies or unlocks. */
    | Inside(address: string, action: WP.Step)
    /** A copy ends, and the reply reaches the gateway or gets lost. */
    | Reply(u: Id, ok: bool, received: bool)
    /** The call fails before it copies. */
    | Refused(u: Id)
    /** The next chunk is written to a file of its own, as far as it was sent. */
    | Deliver(u: Id, sent: nat, received: bool)

  predicate IsLocal(step: UP.Step) {
    !step.Push? && !step.PushFails?
  }

  function ByUpload(step: UP.Step): set<Id> {
    match step
    case Select(u, _) => {u}
    case Commit(u) => {u}
    case Abort(u) => {u}
    case _ => {}
  }

  predicate IsInside(step: WP.Step) {
    !step.Begin? && !step.Finish? && !step.WriteChunk?
  }

  /** The next chunk of the upload goes to a worker that is there, of this kind. */
  predicate CanSend(s: System, u: Id, kind: MachineType) {
    && UP.CanPush(s.gateway, u) && UP.NextTarget(s.gateway, u).kind == kind
    && UP.NextTarget(s.gateway, u).address in s.workers
  }

  predicate IsPending(s: System, u: Id) {
    && u in s.pending && s.pending[u].address in s.workers && s.pending[u].t in s.workers[s.pending[u].address].calls
    && UP.CanPush(s.gateway, u)
  }

  ghost predicate Enabled(s: System, e: Event) {
    match e
    case Gateway(step) => IsLocal(step) && UP.Enabled(s.gateway, step) && ByUpload(step) !! s.pending.Keys
    case Send(u, t, sent) =>
      && u !in s.pending && CanSend(s, u, Inline) && sent <= |UP.NextPiece(s.gateway, u).bytes|
      && t !in s.workers[UP.NextTarget(s.gateway, u).address].calls
    case Inside(a, step) => a in s.workers && IsInside(step) && WP.Enabled(s.workers[a], step)
    case Reply(u, ok, _) =>
      IsPending(s, u) && WP.Enabled(s.workers[s.pending[u].address], WP.Finish(s.pending[u].t, ok))
    case Refused(u) =>
      && IsPending(s, u)
      && var c := s.workers[s.pending[u].address].calls[s.pending[u].t];
      (c.phase.Closing? || c.phase.Returned?) && c.result.None?
    case Deliver(u, sent, _) => u !in s.pending && CanSend(s, u, Block) && sent <= |UP.NextPiece(s.gateway, u).bytes|
  }

  /** pushChunk notes the row, with the offset that the worker replied. */
  function Recorded(h: Hash, g: UP.World, u: Id, offset: nat): UP.World
    requires UP.CanPush(g, u)
  {
    var p, t, up := UP.NextPiece(g, u), UP.NextTarget(g, u), g.uploads[u];
    var row := Row(g.nextId, u, t.disc, t.worker, h(p.bytes), |p.bytes|, p.logicalOffset, p.logicalSize, p.blockIndex,
      p.shardIndex, UP.KeyFor(t, g.nextId).path, offset);
    g.(uploads := g.uploads[u := up.(rows := up.rows + [row], targets := if UP.EndsBlock(p) then [] else up.targets)],
       nextId := g.nextId + 1)
  }

  function Failed(g: UP.World, u: Id): UP.World
    requires u in g.uploads
  {
    g.(uploads := g.uploads[u := g.uploads[u].(status := UP.Aborted)], nextId := g.nextId + 1)
  }

  /** The worker's end of an append, and its result. */
  function Finished(s: System, u: Id, ok: bool): (WP.State, WP.Call)
    requires IsPending(s, u) && WP.Enabled(s.workers[s.pending[u].address], WP.Finish(s.pending[u].t, ok))
  {
    var worker := s.workers[s.pending[u].address];
    (WP.Apply(worker, WP.Finish(s.pending[u].t, ok)), WP.After(worker, WP.Finish(s.pending[u].t, ok)))
  }

  /** The client reports success: the engine succeeded, as much arrived as was declared,
      and so did the reply. */
  predicate Succeeds(s: System, u: Id, ok: bool, received: bool)
    requires IsPending(s, u)
  {
    var c := s.workers[s.pending[u].address].calls[s.pending[u].t];
    ok && received && |c.payload| == |UP.NextPiece(s.gateway, u).bytes|
  }

  function Apply(h: Hash, s: System, e: Event): System
    requires Enabled(s, e)
  {
    match e
    case Gateway(step) => s.(gateway := UP.Apply(h, s.gateway, step))
    case Send(u, t, sent) =>
      var target := UP.NextTarget(s.gateway, u);
      var call := WP.Begin(t, target.namespace, UP.NextPiece(s.gateway, u).bytes[..sent]);
      s.(workers := s.workers[target.address := WP.Apply(s.workers[target.address], call)],
         pending := s.pending[u := Pending(target.address, t)])
    case Inside(a, step) => s.(workers := s.workers[a := WP.Apply(s.workers[a], step)])
    case Reply(u, ok, received) =>
      var (worker, call) := Finished(s, u, ok);
      System(
        if Succeeds(s, u, ok, received) then Recorded(h, s.gateway, u, call.result.value.offset)
        else Failed(s.gateway, u),
        s.workers[s.pending[u].address := worker],
        s.pending - {u})
    case Refused(u) => s.(gateway := UP.Apply(h, s.gateway, UP.Abort(u)), pending := s.pending - {u})
    case Deliver(u, sent, received) =>
      var target, bytes := UP.NextTarget(s.gateway, u), UP.NextPiece(s.gateway, u).bytes;
      var worker := s.workers[target.address];
      var chunks := worker.chunks[ChunkKey(target.namespace, s.gateway.nextId) := bytes[..sent]];
      s.(gateway :=
           if received && sent == |bytes| then Recorded(h, s.gateway, u, 0) else Failed(s.gateway, u),
         workers := s.workers[target.address := worker.(chunks := chunks)])
  }

  ghost predicate Legal(h: Hash, s: System, events: seq<Event>)
    decreases |events|
  {
    events == [] || (Enabled(s, events[0]) && Legal(h, Apply(h, s, events[0]), events[1..]))
  }

  ghost function Run(h: Hash, s: System, events: seq<Event>): System
    requires Legal(h, s, events)
    decreases |events|
  {
    if events == [] then s else Run(h, Apply(h, s, events[0]), events[1..])
  }

  ghost predicate Leads(h: Hash, s: System, events: seq<Event>, s': System) {
    Legal(h, s, events) && Run(h, s, events) == s'
  }

  // What the protocol sees of the whole.

  /** A copy has ended, after so many bytes. */
  ghost function StepOfReply(s: System, u: Id, ok: bool, received: bool): UP.Step
    requires IsPending(s, u)
  {
    var c := s.workers[s.pending[u].address].calls[s.pending[u].t];
    if Succeeds(s, u, ok, received) then UP.Push(u)
    else UP.PushFails(u, if c.phase.Copying? then c.phase.copied else 0)
  }

  /** The steps of the protocol that an event amounts to. */
  ghost function StepsOf(s: System, e: Event): seq<UP.Step>
    requires Enabled(s, e)
  {
    match e
    case Gateway(step) => [step]
    case Reply(u, ok, received) => [StepOfReply(s, u, ok, received)]
    case Refused(u) => [UP.Abort(u)]
    case Deliver(u, sent, received) =>
      if received && sent == |UP.NextPiece(s.gateway, u).bytes| then [UP.Push(u)] else [UP.PushFails(u, sent)]
    case _ => []
  }

  /** A pending append is of the upload's next chunk, to the target of that chunk. */
  ghost predicate PendingOk(g: UP.World, workers: map<string, WP.State>, u: Id, p: Pending) {
    && UP.CanPush(g, u)
    && var t := UP.NextTarget(g, u);
    && t.kind == Inline && t.address == p.address && p.address in workers && p.t in workers[p.address].calls
    && var c := workers[p.address].calls[p.t];
    c.namespace == t.namespace && c.payload <= UP.NextPiece(g, u).bytes
  }

  ghost predicate WorkersOk(files: Files, workers: map<string, WP.State>) {
    forall a :: a in workers ==> WorkerOk(files, a, workers[a])
  }

  /** Without the copies that are going on, the worker's files are those of the protocol. */
  ghost predicate WorkerOk(files: Files, a: string, worker: WP.State) {
    WP.Valid(worker) && HasLocal(files, a, SettledFiles(a, worker))
  }

  ghost predicate AllPendingOk(s: System) {
    forall u :: u in s.pending ==> PendingOk(s.gateway, s.workers, u, s.pending[u])
  }

  /** The protocol's world w is the state of the system. */
  ghost predicate Represents(s: System, w: UP.World) {
    && w.(files := map[]) == s.gateway
    && WorkersOk(w.files, s.workers)
    && AllPendingOk(s)
  }

  // Each event is no step or one.

  lemma FilesDoNotMatter(h: Hash, w: UP.World, g: UP.World, step: UP.Step)
    requires w.(files := map[]) == g
    ensures UP.Enabled(w, step) <==> UP.Enabled(g, step)
    ensures IsLocal(step) && UP.Enabled(g, step) ==>
      UP.Apply(h, w, step).files == w.files && UP.Apply(h, w, step).(files := map[]) == UP.Apply(h, g, step)
  {
    hide PieceAt, PieceCount, UP.Suits;
    assert forall u :: UP.CanPush(w, u) <==> UP.CanPush(g, u);
  }

  lemma PendingStays(g: UP.World, g': UP.World, workers: map<string, WP.State>, workers': map<string, WP.State>, u: Id,
      p: Pending)
    requires PendingOk(g, workers, u, p) && u in g'.uploads && g'.uploads[u] == g.uploads[u]
    requires forall a, t :: a in workers && t in workers[a].calls ==>
      && a in workers' && t in workers'[a].calls
      && workers'[a].calls[t].namespace == workers[a].calls[t].namespace
      && workers'[a].calls[t].payload == workers[a].calls[t].payload
    ensures PendingOk(g', workers', u, p)
  {
    hide PieceAt, PieceCount;
  }

  /** Everything about the upload stays as it is. */
  predicate SameUpload(g: UP.World, g': UP.World, u: Id) {
    u in g.uploads && u in g'.uploads && g'.uploads[u] == g.uploads[u]
  }

  /** Calls go on, with the namespace and the payload they were made with. */
  predicate CallsGoOn(workers: map<string, WP.State>, workers': map<string, WP.State>) {
    forall a, t :: a in workers && t in workers[a].calls ==>
      && a in workers' && t in workers'[a].calls
      && workers'[a].calls[t].namespace == workers[a].calls[t].namespace
      && workers'[a].calls[t].payload == workers[a].calls[t].payload
  }

  lemma AllPendingStay(s: System, s': System)
    requires AllPendingOk(s) && CallsGoOn(s.workers, s'.workers)
    requires forall u :: u in s'.pending ==>
      u in s.pending && s'.pending[u] == s.pending[u] && SameUpload(s.gateway, s'.gateway, u)
    ensures AllPendingOk(s')
  {
    hide PendingOk;
    forall u | u in s'.pending ensures PendingOk(s'.gateway, s'.workers, u, s'.pending[u]) {
      PendingStays(s.gateway, s'.gateway, s.workers, s'.workers, u, s.pending[u]);
    }
  }

  lemma CallsOfStep(workers: map<string, WP.State>, a: string, step: WP.Step)
    requires a in workers && WP.Enabled(workers[a], step)
    ensures CallsGoOn(workers, workers[a := WP.Apply(workers[a], step)])
  {
    hide WP.Apply, WP.Enabled;
    forall t | t in workers[a].calls ensures t in WP.Apply(workers[a], step).calls {
      WP.StepContinues(workers[a], step, t);
    }
    forall t | t in workers[a].calls
      ensures WP.Continues(workers[a].calls[t], WP.Apply(workers[a], step).calls[t])
    {
      WP.StepContinues(workers[a], step, t);
    }
  }

  lemma LocalOpened(files: Files, a: string, local: Files, key: FileKey)
    requires HasLocal(files, a, local) && key.path.Volume?
    ensures HasLocal(files, a, UP.Written(local, key, []))
  {
    var local' := UP.Written(local, key, []);
    forall k: FileKey | k.address == a ensures Content(files, k) == Content(local', k) && (k in files ==> k in local') {
      assert Content(files, k) == Content(local, k);
    }
  }

  /** What is written for the protocol is written on the worker. */
  lemma LocalWritten(files: Files, a: string, local: Files, key: FileKey, bytes: seq<Byte>)
    requires HasLocal(files, a, local)
    ensures HasLocal(UP.Written(files, key, bytes), a,
      if key.address == a then UP.Written(local, key, bytes) else local)
  {
    var files' := UP.Written(files, key, bytes);
    var local' := if key.address == a then UP.Written(local, key, bytes) else local;
    forall k: FileKey | k.address == a
      ensures Content(files', k) == Content(local', k) && (k in files' ==> k in local')
    {
      assert Content(files, k) == Content(local, k) && (k in files ==> k in local);
    }
  }

  lemma WrittenEverywhere(files: Files, workers: map<string, WP.State>, a: string, worker: WP.State, key: FileKey,
      bytes: seq<Byte>)
    requires WorkersOk(files, workers) && a in workers && key.address == a && WP.Valid(worker)
    requires SettledFiles(a, worker) == UP.Written(SettledFiles(a, workers[a]), key, bytes)
    ensures WorkersOk(UP.Written(files, key, bytes), workers[a := worker])
  {
    hide UP.Written, HasLocal, SettledFiles, WP.Valid;
    forall b | b in workers ensures WorkerOk(UP.Written(files, key, bytes), b, workers[a := worker][b]) {
      assert WorkerOk(files, b, workers[b]);
      LocalWritten(files, b, SettledFiles(b, workers[b]), key, bytes);
    }
  }

  lemma InsideKeepsWorker(files: Files, a: string, worker: WP.State, step: WP.Step)
    requires WorkerOk(files, a, worker) && WP.Enabled(worker, step) && (IsInside(step) || step.Begin?)
    ensures WorkerOk(files, a, WP.Apply(worker, step))
  {
    hide WP.Valid, WP.Apply, SettledFiles, HasLocal, UP.Written;
    WP.StepKeepsValid(worker, step);
    StepIsPush(a, worker, step);
    if step.Open? && step.ok {
      var key := VolumeKey(a, worker.calls[step.t].namespace);
      assert PushOf(a, worker, step) == [Push(step.t, key, [])];
      OnePush(SettledFiles(a, worker), Push(step.t, key, []));
      LocalOpened(files, a, SettledFiles(a, worker), key);
    } else {
      assert PushOf(a, worker, step) == [];
    }
  }

  lemma OnePush(files: Files, push: Push)
    ensures PushAll(files, [push]) == UP.Written(files, push.key, push.bytes)
  {
    hide UP.Written;
    assert [push][1..] == [];
  }

  lemma InsideKeepsWorkers(files: Files, workers: map<string, WP.State>, a: string, step: WP.Step)
    requires WorkersOk(files, workers) && a in workers && WP.Enabled(workers[a], step)
    requires IsInside(step) || step.Begin?
    ensures WorkersOk(files, workers[a := WP.Apply(workers[a], step)])
  {
    hide WorkerOk, WP.Apply, WP.Enabled;
    InsideKeepsWorker(files, a, workers[a], step);
  }

  lemma LocalStepLeaves(h: Hash, g: UP.World, step: UP.Step, u: Id)
    requires IsLocal(step) && UP.Enabled(g, step) && u !in ByUpload(step) && g.nextId !in g.uploads && u in g.uploads
    ensures SameUpload(g, UP.Apply(h, g, step), u)
  {}

  /** What is left to show of an event, once the files are right. */
  lemma RepresentsAfter(s: System, s': System, w': UP.World)
    requires AllPendingOk(s) && CallsGoOn(s.workers, s'.workers)
    requires forall u :: u in s'.pending ==>
      u in s.pending && s'.pending[u] == s.pending[u] && SameUpload(s.gateway, s'.gateway, u)
    requires w'.(files := map[]) == s'.gateway && WorkersOk(w'.files, s'.workers)
    ensures Represents(s', w')
  {
    hide AllPendingOk, CallsGoOn, WorkersOk, SameUpload;
    AllPendingStay(s, s');
  }

  lemma GatewaySimulates(h: Hash, s: System, w: UP.World, step: UP.Step)
    requires Represents(s, w) && CS.Consistent(h, w) && Enabled(s, Gateway(step))
    ensures UP.Enabled(w, step) && Represents(Apply(h, s, Gateway(step)), UP.Apply(h, w, step))
  {
    hide UP.Apply, UP.Enabled, WorkersOk, PendingOk, AllPendingOk, CS.Consistent, SameUpload, UP.CanPush, CallsGoOn;
    FilesDoNotMatter(h, w, s.gateway, step);
    CS.NextIsNew(h, w);
    AllPendingOf(s);
    var s' := Apply(h, s, Gateway(step));
    forall u | u in s.pending ensures SameUpload(s.gateway, s'.gateway, u) {
      LocalStepLeaves(h, s.gateway, step, u);
    }
    AllGoOn(s.workers);
    RepresentsAfter(s, s', UP.Apply(h, w, step));
  }

  lemma AllGoOn(workers: map<string, WP.State>)
    ensures CallsGoOn(workers, workers)
  {}

  lemma CanAbort(g: UP.World, u: Id)
    requires UP.CanPush(g, u)
    ensures UP.Enabled(g, UP.Abort(u))
  {}

  lemma RefusedSimulates(h: Hash, s: System, w: UP.World, u: Id)
    requires Represents(s, w) && CS.Consistent(h, w) && Enabled(s, Refused(u))
    ensures UP.Enabled(w, UP.Abort(u)) && Represents(Apply(h, s, Refused(u)), UP.Apply(h, w, UP.Abort(u)))
  {
    hide UP.Apply, UP.Enabled, WorkersOk, PendingOk, AllPendingOk, CS.Consistent, SameUpload, UP.CanPush, CallsGoOn;
    CanAbort(s.gateway, u);
    FilesDoNotMatter(h, w, s.gateway, UP.Abort(u));
    CS.NextIsNew(h, w);
    AllPendingOf(s);
    var s' := Apply(h, s, Refused(u));
    forall v | v in s'.pending ensures SameUpload(s.gateway, s'.gateway, v) {
      LocalStepLeaves(h, s.gateway, UP.Abort(u), v);
    }
    AllGoOn(s.workers);
    RepresentsAfter(s, s', UP.Apply(h, w, UP.Abort(u)));
  }

  lemma AllPendingOf(s: System)
    requires AllPendingOk(s)
    ensures forall u :: u in s.pending ==> u in s.gateway.uploads && UP.CanPush(s.gateway, u)
  {
    hide PieceAt, PieceCount;
    forall u | u in s.pending ensures u in s.gateway.uploads && UP.CanPush(s.gateway, u) {
      assert PendingOk(s.gateway, s.workers, u, s.pending[u]);
    }
  }

  lemma InsideSimulates(h: Hash, s: System, w: UP.World, a: string, step: WP.Step)
    requires Represents(s, w) && Enabled(s, Inside(a, step))
    ensures Represents(Apply(h, s, Inside(a, step)), w)
  {
    hide WP.Apply, WP.Enabled, WorkersOk, PendingOk, CallsGoOn;
    InsideKeepsWorkers(w.files, s.workers, a, step);
    CallsOfStep(s.workers, a, step);
    AllPendingOf(s);
    AllPendingStay(s, Apply(h, s, Inside(a, step)));
  }

  lemma SendSimulates(h: Hash, s: System, w: UP.World, u: Id, t: WP.Tid, sent: nat)
    requires Represents(s, w) && Enabled(s, Send(u, t, sent))
    ensures Represents(Apply(h, s, Send(u, t, sent)), w)
  {
    hide PieceAt, PieceCount, WorkersOk, PendingOk, CallsGoOn;
    var target, s' := UP.NextTarget(s.gateway, u), Apply(h, s, Send(u, t, sent));
    var call := WP.Begin(t, target.namespace, UP.NextPiece(s.gateway, u).bytes[..sent]);
    InsideKeepsWorkers(w.files, s.workers, target.address, call);
    CallsOfStep(s.workers, target.address, call);
    AllPendingOf(s);
    var before := s'.(pending := s.pending);
    AllPendingStay(s, before);
    assert PendingOk(s'.gateway, s'.workers, u, s'.pending[u]) by {
      NewPendingOk(s, u, t, sent);
    }
  }

  lemma NewPendingOk(s: System, u: Id, t: WP.Tid, sent: nat)
    requires Enabled(s, Send(u, t, sent))
    ensures var target := UP.NextTarget(s.gateway, u);
      var call := WP.Begin(t, target.namespace, UP.NextPiece(s.gateway, u).bytes[..sent]);
      PendingOk(s.gateway, s.workers[target.address := WP.Apply(s.workers[target.address], call)], u,
        Pending(target.address, t))
  {
    hide PieceAt, PieceCount;
  }

  /** Recording a row is the protocol's push, if the offset replied is the end of the file. */
  lemma RecordedIsPush(h: Hash, w: UP.World, g: UP.World, u: Id, offset: nat)
    requires w.(files := map[]) == g && UP.CanPush(g, u)
    requires offset == UP.OffsetOf(w.files, UP.KeyFor(UP.NextTarget(g, u), g.nextId))
    ensures UP.CanPush(w, u)
    ensures var w' := UP.Apply(h, w, UP.Push(u));
      && w'.(files := map[]) == Recorded(h, g, u, offset)
      && w'.files == UP.Written(w.files, UP.KeyFor(UP.NextTarget(g, u), g.nextId), UP.NextPiece(g, u).bytes)
  {
    hide PieceAt, PieceCount, UP.Written, UP.OffsetOf, UP.EndsBlock;
  }

  lemma FailedIsPushFails(h: Hash, w: UP.World, g: UP.World, u: Id, written: nat)
    requires w.(files := map[]) == g && UP.CanPush(g, u) && written <= |UP.NextPiece(g, u).bytes|
    ensures UP.CanPush(w, u) && written <= |UP.NextPiece(w, u).bytes|
    ensures var w' := UP.Apply(h, w, UP.PushFails(u, written));
      && w'.(files := map[]) == Failed(g, u)
      && w'.files ==
           UP.Written(w.files, UP.KeyFor(UP.NextTarget(g, u), g.nextId), UP.NextPiece(g, u).bytes[..written])
  {
    hide PieceAt, PieceCount, UP.Written;
  }

  /** Call t of the worker is copying, and ends, having added the bytes at the offset. */
  predicate Ends(worker: WP.State, t: WP.Tid, ok: bool, namespace: string, offset: nat, bytes: seq<Byte>,
      worker': WP.State)
  {
    && WP.Enabled(worker, WP.Finish(t, ok)) && worker.calls[t].namespace == namespace
    && worker.calls[t].phase.offset == offset
    && worker.calls[t].phase.copied <= |worker.calls[t].payload|
    && worker.calls[t].payload[..worker.calls[t].phase.copied] == bytes
    && WP.Apply(worker, WP.Finish(t, ok)) == worker'
  }

  lemma CopiedFits(worker: WP.State, t: WP.Tid)
    requires WP.Valid(worker) && t in worker.calls && worker.calls[t].phase.Copying?
    ensures worker.calls[t].phase.copied <= |worker.calls[t].payload|
  {
    assert WP.CopyOk(worker.volumes, worker.calls[t]);
  }

  /** The end of an append, as the worker's own files see it. */
  lemma EndWrites(a: string, worker: WP.State, t: WP.Tid, ok: bool, namespace: string, offset: nat, bytes: seq<Byte>,
      worker': WP.State)
    requires Ends(worker, t, ok, namespace, offset, bytes, worker') && WP.Valid(worker)
    ensures WP.Valid(worker')
    ensures SettledFiles(a, worker') == UP.Written(SettledFiles(a, worker), VolumeKey(a, namespace), bytes)
    ensures offset == UP.OffsetOf(SettledFiles(a, worker), VolumeKey(a, namespace))
  {
    hide WP.Valid, SettledFiles, UP.Written, UP.OffsetOf, WP.Settled, WP.Apply;
    var step, key := WP.Finish(t, ok), VolumeKey(a, namespace);
    WP.StepKeepsValid(worker, step);
    WP.SettledByFinish(worker, t, ok);
    SettledOffset(a, worker, namespace);
    StepIsPush(a, worker, step);
    OnePush(SettledFiles(a, worker), Push(t, key, bytes));
  }

  /** And as the protocol's files see it. */
  lemma FinishWrites(files: Files, workers: map<string, WP.State>, a: string, t: WP.Tid, ok: bool, namespace: string,
      offset: nat, bytes: seq<Byte>, worker': WP.State)
    requires a in workers && Ends(workers[a], t, ok, namespace, offset, bytes, worker') && WorkersOk(files, workers)
    ensures WorkersOk(UP.Written(files, VolumeKey(a, namespace), bytes), workers[a := worker'])
    ensures offset == UP.OffsetOf(files, VolumeKey(a, namespace))
  {
    hide WP.Valid, Ends, SettledFiles, UP.Written;
    var key := VolumeKey(a, namespace);
    assert WorkerOk(files, a, workers[a]);
    EndWrites(a, workers[a], t, ok, namespace, offset, bytes, worker');
    assert Content(files, key) == Content(SettledFiles(a, workers[a]), key);
    hide HasLocal, WorkersOk;
    WrittenEverywhere(files, workers, a, worker', key, bytes);
  }

  lemma ReplySimulates(h: Hash, s: System, w: UP.World, u: Id, ok: bool, received: bool)
    requires Represents(s, w) && Enabled(s, Reply(u, ok, received))
    ensures var step := StepsOf(s, Reply(u, ok, received))[0];
      UP.Enabled(w, step) && Represents(Apply(h, s, Reply(u, ok, received)), UP.Apply(h, w, step))
  {
    hide PieceAt, PieceCount, WorkersOk, CallsGoOn, UP.Written, UP.OffsetOf, UP.Apply, PendingOk, AllPendingOk, Ends,
      WP.Apply, UP.HasNext, UP.NextTarget, UP.KeyFor;
    var g, a, t := s.gateway, s.pending[u].address, s.pending[u].t;
    var c, bytes, worker' := s.workers[a].calls[t], UP.NextPiece(g, u).bytes, Finished(s, u, ok).0;
    PendingIs(s, u);
    CopiedFitsOn(w.files, s.workers, a, t);
    var added := c.payload[..c.phase.copied];
    assert Ends(s.workers[a], t, ok, c.namespace, c.phase.offset, added, worker') by {
      EndsIf(s.workers[a], t, ok);
    }
    FinishWrites(w.files, s.workers, a, t, ok, c.namespace, c.phase.offset, added, worker');
    CallsOfStep(s.workers, a, WP.Finish(t, ok));
    AllPendingOf(s);
    assert added == bytes[..c.phase.copied];
    if Succeeds(s, u, ok, received) {
      assert added == bytes;
      RecordedIsPush(h, w, g, u, c.phase.offset);
      RepresentsAfter(s, Apply(h, s, Reply(u, ok, received)), UP.Apply(h, w, UP.Push(u)));
    } else {
      FailedIsPushFails(h, w, g, u, c.phase.copied);
      RepresentsAfter(s, Apply(h, s, Reply(u, ok, received)), UP.Apply(h, w, UP.PushFails(u, c.phase.copied)));
    }
  }

  lemma EndsIf(worker: WP.State, t: WP.Tid, ok: bool)
    requires WP.Enabled(worker, WP.Finish(t, ok)) && worker.calls[t].phase.copied <= |worker.calls[t].payload|
    ensures var c := worker.calls[t];
      Ends(worker, t, ok, c.namespace, c.phase.offset, c.payload[..c.phase.copied], WP.Apply(worker, WP.Finish(t, ok)))
  {
    hide WP.Apply;
  }

  lemma CopiedFitsOn(files: Files, workers: map<string, WP.State>, a: string, t: WP.Tid)
    requires a in workers && t in workers[a].calls && workers[a].calls[t].phase.Copying? && WorkersOk(files, workers)
    ensures workers[a].calls[t].phase.copied <= |workers[a].calls[t].payload|
  {
    hide WP.Valid, HasLocal;
    assert WorkerOk(files, a, workers[a]);
    CopiedFits(workers[a], t);
  }

  lemma PendingIs(s: System, u: Id)
    requires IsPending(s, u) && AllPendingOk(s)
    ensures var p := s.pending[u]; var c := s.workers[p.address].calls[p.t];
      && c.payload <= UP.NextPiece(s.gateway, u).bytes
      && UP.KeyFor(UP.NextTarget(s.gateway, u), s.gateway.nextId) == VolumeKey(p.address, c.namespace)
  {
    hide PieceAt, PieceCount;
    assert PendingOk(s.gateway, s.workers, u, s.pending[u]);
  }

  /** A chunk file of one worker, as the protocol's files see it. */
  lemma DeliveryWrites(files: Files, workers: map<string, WP.State>, a: string, chunk: ChunkKey, bytes: seq<Byte>)
    requires WorkersOk(files, workers) && a in workers
    ensures var worker := workers[a].(chunks := workers[a].chunks[chunk := bytes]);
      && WorkersOk(UP.Written(files, FileKey(a, chunk.namespace, ChunkFile(chunk.id)), bytes), workers[a := worker])
      && CallsGoOn(workers, workers[a := worker])
  {
    var worker, chunks := workers[a], workers[a].chunks[chunk := bytes];
    assert WorkerOk(files, a, worker);
    hide WP.Valid, HasLocal, UP.Written, WorkersOk;
    WP.ChunksDoNotMatter(worker, chunks);
    SettledIgnoresChunks(worker, chunks);
    ChunkWritten(a, SettledVolumes(worker), worker.chunks, chunk, bytes);
    WrittenEverywhere(files, workers, a, worker.(chunks := chunks),
      FileKey(a, chunk.namespace, ChunkFile(chunk.id)), bytes);
    ChunksGoOn(workers, a, chunks);
  }

  lemma DeliverSimulates(h: Hash, s: System, w: UP.World, u: Id, sent: nat, received: bool)
    requires Represents(s, w) && Enabled(s, Deliver(u, sent, received))
    ensures var step := StepsOf(s, Deliver(u, sent, received))[0];
      UP.Enabled(w, step) && Represents(Apply(h, s, Deliver(u, sent, received)), UP.Apply(h, w, step))
  {
    hide PieceAt, PieceCount, CallsGoOn, UP.Written, UP.Apply, PendingOk, AllPendingOk, WorkersOk, UP.NextTarget,
      UP.HasNext;
    var g, target, bytes := s.gateway, UP.NextTarget(s.gateway, u), UP.NextPiece(s.gateway, u).bytes;
    DeliveryWrites(w.files, s.workers, target.address, ChunkKey(target.namespace, g.nextId), bytes[..sent]);
    AllPendingOf(s);
    if received && sent == |bytes| {
      assert bytes[..sent] == bytes;
      RecordedIsPush(h, w, g, u, 0);
      RepresentsAfter(s, Apply(h, s, Deliver(u, sent, received)), UP.Apply(h, w, UP.Push(u)));
    } else {
      FailedIsPushFails(h, w, g, u, sent);
      RepresentsAfter(s, Apply(h, s, Deliver(u, sent, received)), UP.Apply(h, w, UP.PushFails(u, sent)));
    }
  }

  lemma ChunksGoOn(workers: map<string, WP.State>, a: string, chunks: Chunks)
    requires a in workers
    ensures CallsGoOn(workers, workers[a := workers[a].(chunks := chunks)])
  {}

  lemma OneStepRun(h: Hash, w: UP.World, step: UP.Step)
    requires UP.Enabled(w, step)
    ensures UP.Leads(h, w, [step], UP.Apply(h, w, step))
  {
    hide UP.Enabled, UP.Apply;
    var w' := UP.Apply(h, w, step);
    assert UP.Leads(h, w', [], w');
    assert [step][1..] == [];
  }

  /** Every event is no step of the protocol, or one. */
  lemma Simulates(h: Hash, s: System, w: UP.World, e: Event) returns (w': UP.World)
    requires Represents(s, w) && CS.Consistent(h, w) && Enabled(s, e)
    ensures UP.Leads(h, w, StepsOf(s, e), w') && Represents(Apply(h, s, e), w') && CS.Consistent(h, w')
  {
    hide Represents, CS.Consistent, UP.Apply, UP.Enabled, Enabled, Apply;
    match e
    case Send(u, t, sent) =>
      w' := w;
      SendSimulates(h, s, w, u, t, sent);
    case Inside(a, step) =>
      w' := w;
      InsideSimulates(h, s, w, a, step);
    case _ =>
      match e {
        case Gateway(step) => GatewaySimulates(h, s, w, step);
        case Reply(u, ok, received) => ReplySimulates(h, s, w, u, ok, received);
        case Refused(u) => RefusedSimulates(h, s, w, u);
        case Deliver(u, sent, received) => DeliverSimulates(h, s, w, u, sent, received);
      }
      var step := StepsOf(s, e)[0];
      w' := UP.Apply(h, w, step);
      CS.StepKeepsConsistent(h, w, step);
      OneStepRun(h, w, step);
  }

  ghost function StepsOfRun(h: Hash, s: System, events: seq<Event>): seq<UP.Step>
    requires Legal(h, s, events)
    decreases |events|
  {
    if events == [] then [] else StepsOf(s, events[0]) + StepsOfRun(h, Apply(h, s, events[0]), events[1..])
  }

  /** Every run of gateways and workers, whatever is interleaved and whatever fails, is a
      run of the upload protocol. */
  lemma {:induction false} RunIsProtocolRun(h: Hash, s: System, w: UP.World, events: seq<Event>) returns (w': UP.World)
    requires Represents(s, w) && CS.Consistent(h, w) && Legal(h, s, events)
    ensures UP.Leads(h, w, StepsOfRun(h, s, events), w') && Represents(Run(h, s, events), w') && CS.Consistent(h, w')
    decreases |events|
  {
    hide Represents, CS.Consistent, Enabled, Apply, StepsOf, UP.Legal, UP.Run;
    if events == [] {
      w' := w;
      UP.NothingHappens(h, w, 0);
      NoStep(h, w);
    } else {
      var w1 := Simulates(h, s, w, events[0]);
      var s1 := Apply(h, s, events[0]);
      w' := RunIsProtocolRun(h, s1, w1, events[1..]);
      UP.LeadsOn(h, w, StepsOf(s, events[0]), w1, StepsOfRun(h, s1, events[1..]), w');
    }
  }

  lemma NoStep(h: Hash, w: UP.World)
    ensures UP.Leads(h, w, [], w)
  {}

  // Where a system starts.

  /** A built topology and daemons that have just started, over any old files. */
  ghost predicate IsStart(s: System) {
    && CS.Fresh(s.gateway) && s.gateway.files == map[] && s.pending == map[]
    && forall a :: a in s.workers ==> StartsWell(s.workers[a], s.gateway.nextId)
  }

  ghost predicate StartsWell(worker: WP.State, nextId: Id) {
    && worker == WP.Started(worker.volumes, worker.chunks)
    && forall c :: c in worker.chunks ==> c.id < nextId
  }

  function ActualFiles(a: string, worker: WP.State): Files {
    FilesOf(a, worker.volumes, worker.chunks)
  }

  ghost predicate IsUnion(files: Files, workers: map<string, WP.State>) {
    forall key: FileKey ::
      && (key in files <==> key.address in workers && key in ActualFiles(key.address, workers[key.address]))
      && (key in files ==> files[key] == ActualFiles(key.address, workers[key.address])[key])
  }

  lemma {:induction false} UnionExists(workers: map<string, WP.State>) returns (files: Files)
    ensures IsUnion(files, workers)
    decreases |workers|
  {
    hide FilesOf;
    if workers == map[] {
      files := map[];
    } else {
      var a :| a in workers;
      var rest := UnionExists(workers - {a});
      FilesAreLocal(a, workers[a].volumes, workers[a].chunks);
      files := rest + ActualFiles(a, workers[a]);
    }
  }

  lemma StartIsSettled(a: string, worker: WP.State, nextId: Id)
    requires StartsWell(worker, nextId)
    ensures WP.Valid(worker) && SettledFiles(a, worker) == ActualFiles(a, worker)
  {
    hide SettledVolumes, FilesOf, WP.Valid;
    WP.StartedIsValid(worker.volumes, worker.chunks);
    StartedVolumes(worker.volumes, worker.chunks);
  }

  lemma StartedVolumes(volumes: Volumes, chunks: Chunks)
    ensures SettledVolumes(WP.Started(volumes, chunks)) == volumes
  {}

  lemma StartIsRepresented(s: System) returns (w: UP.World)
    requires IsStart(s)
    ensures CS.Fresh(w) && Represents(s, w)
  {
    hide IsCluster, FilesOf, WP.Valid, WP.Started, SettledFiles;
    var files := UnionExists(s.workers);
    w := s.gateway.(files := files);
    forall a | a in s.workers ensures WorkerOk(files, a, s.workers[a]) {
      StartIsSettled(a, s.workers[a], s.gateway.nextId);
    }
    forall key | key in files && key.path.ChunkFile? ensures key.path.id < s.gateway.nextId {
      var worker := s.workers[key.address];
      FilesOfAt(key.address, worker.volumes, worker.chunks, key);
      assert StartsWell(worker, s.gateway.nextId);
    }
  }

  // What holds of the whole.

  /** A worker answered the read at some time from now on, from its files as they were
      then, with whatever copies were going on. */
  ghost predicate AnswersLater(h: Hash, s: System, ans: Retrieval.Answers, loc: Location) {
    exists events: seq<Event>, s': System :: Leads(h, s, events, s') && AnswersNow(s', ans, loc)
  }

  predicate AnswersNow(s: System, ans: Retrieval.Answers, loc: Location) {
    loc.address in s.workers && ans(loc) == Fetch(ActualFiles(loc.address, s.workers[loc.address]), loc)
  }

  lemma AnswerNowIsFromFiles(s: System, w: UP.World, ans: Retrieval.Answers, loc: Location)
    requires Represents(s, w) && AnswersNow(s, ans, loc)
    ensures AnswersFromFiles(w.files, ans, loc)
  {
    hide WP.Valid, HasLocal, FilesOf, SettledFiles, Fetch;
    var a := loc.address;
    var worker := s.workers[a];
    assert WorkerOk(w.files, a, worker);
    assert WP.Leads(worker, [], worker);
    ReadsAnswerFromFiles(a, worker, [], worker, w.files, ans, loc);
  }

  lemma AnswerIsFromFiles(h: Hash, s: System, w: UP.World, ans: Retrieval.Answers, loc: Location)
    requires Represents(s, w) && CS.Consistent(h, w) && AnswersLater(h, s, ans, loc)
    ensures AnswersFromFiles(w.files, ans, loc)
  {
    hide Represents, CS.Consistent, CS.Grows, AnswersNow, Legal, Run, UP.Run, UP.Legal, Fetch;
    var events: seq<Event>, s': System :| Leads(h, s, events, s') && AnswersNow(s', ans, loc);
    var w' := RunIsProtocolRun(h, s, w, events);
    RunOnlyAdds(h, w, StepsOfRun(h, s, events));
    AnswerNowIsFromFiles(s', w', ans, loc);
    var later: Files :| CS.Grows(w'.files, later) && ans(loc) == Fetch(later, loc);
    GrowthComposes(w.files, w'.files, later);
  }

  /** Every machine that is not lost answers its reads. */
  ghost predicate OnlyLostFail(h: Hash, s: System, lost: set<string>, ans: Retrieval.Answers, base: seq<Location>) {
    forall i :: 0 <= i < |base| && base[i].namespace !in lost ==> AnswersLater(h, s, ans, base[i])
  }

  /** The main result for the whole: gateways and workers run at the same time, appends
      are copied in parts and reads take no lock. A file that is listed at some point is
      returned by every later read, also if up to four machines are lost or answer
      anything at all, none of which holds a whole chunk of it, unless an answer is a
      collision of the hash. */
  lemma ClusterSurvivesFourMachines(h: Hash, s0: System, events: seq<Event>, s: System, b: Id, data: seq<Byte>,
      lost: set<string>, ans: Retrieval.Answers)
    requires IsStart(s0) && Leads(h, s0, events, s) && Listed(h, s.gateway, b, data) && |lost| <= 4
    requires OnlyLostFail(h, s, lost, ans, Locations(s.gateway.top, s.gateway.rows, b))
    requires WholeChunksSafe(Locations(s.gateway.top, s.gateway.rows, b), lost)
    ensures forall r :: IsReadResult(h, ans, s.gateway, b, s.gateway.blobs[b], r) ==>
      r == Success(data) || Forged(h, ans, data, Locations(s.gateway.top, s.gateway.rows, b))
  {
    hide CS.Consistent, CS.Fresh, IsStart, Legal, Run, AnswersLater, AnswersFromFiles, Locations, Forged, WorkersOk,
      AllPendingOk, WholeChunksSafe, UP.Run, UP.Legal, PieceCount;
    var w0 := StartIsRepresented(s0);
    CS.FreshIsConsistent(h, w0);
    var w := RunIsProtocolRun(h, s0, w0, events);
    var base := Locations(s.gateway.top, s.gateway.rows, b);
    forall i | 0 <= i < |base| && base[i].namespace !in lost ensures AnswersFromFiles(w.files, ans, base[i]) {
      AnswerIsFromFiles(h, s, w, ans, base[i]);
    }
    StoredFileSurvives(h, w, b, data, lost, ans);
    forall r | IsReadResult(h, ans, s.gateway, b, s.gateway.blobs[b], r)
      ensures IsReadResult(h, ans, w, b, w.blobs[b], r)
    {
      var locs: seq<Location>, idx: seq<int> :|
        IsReadOf(s.gateway, b, locs, idx) && Retrieval.Retrieve(h, ans, locs, idx, s.gateway.blobs[b]) == r;
      assert IsReadOf(w, b, locs, idx);
    }
  }
}
