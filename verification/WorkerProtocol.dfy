/** The files below a worker's cluster root, written by any number of requests at once.

    Every call of the inline engine's StreamWrite is a thread of its own. A step is one
    atomic action of one call: LoadOrStore, Lock, open, stat, one write of a part of the
    payload, the end of the copy, Unlock. Chunk files have one writer each; a step of the
    block engine creates or extends one. Reads take no lock. */
module WorkerProtocol {
  import opened Wrappers
  import opened Gf256
  import opened ClusterRoot

  type Tid = nat
  type Mutex = nat

  datatype Phase =
    | Called
    | Waiting(mu: Mutex)
    | Locked(mu: Mutex)
    | Opened(mu: Mutex)
    | Copying(mu: Mutex, offset: nat, copied: nat)
    | Closing(mu: Mutex)
    | Returned

  /** Where the bytes of a call that succeeded are. */
  datatype Range = Range(offset: nat, written: nat)

  datatype Call = Call(namespace: string, payload: seq<Byte>, phase: Phase, result: Option<Range>)

  datatype State = State(
    mutexes: map<string, Mutex>,
    nextMutex: Mutex,
    owner: map<Mutex, Tid>,
    volumes: Volumes,
    chunks: Chunks,
    calls: map<Tid, Call>)

  datatype Step =
    | Begin(t: Tid, namespace: string, payload: seq<Byte>)
    | GetMutex(t: Tid)
    | Lock(t: Tid)
    | Open(t: Tid, ok: bool)
    | Stat(t: Tid, ok: bool)
    | Copy(t: Tid, n: nat)
    | Finish(t: Tid, ok: bool)
    | Unlock(t: Tid)
    | WriteChunk(t: Tid, chunk: ChunkKey, bytes: seq<Byte>)

  /** A daemon that has just started, over whatever files its cluster root holds. */
  function Started(volumes: Volumes, chunks: Chunks): State {
    State(map[], 0, map[], volumes, chunks, map[])
  }

  /** Between Lock and Unlock. */
  predicate IsCritical(p: Phase) {
    p.Locked? || p.Opened? || p.Copying? || p.Closing?
  }

  predicate Enabled(s: State, step: Step) {
    match step
    case Begin(t, _, _) => t !in s.calls
    case GetMutex(t) => t in s.calls && s.calls[t].phase.Called?
    case Lock(t) => t in s.calls && s.calls[t].phase.Waiting? && s.calls[t].phase.mu !in s.owner
    case Open(t, _) => t in s.calls && s.calls[t].phase.Locked?
    case Stat(t, _) => t in s.calls && s.calls[t].phase.Opened? && s.calls[t].namespace in s.volumes
    case Copy(t, n) =>
      && t in s.calls && s.calls[t].phase.Copying? && s.calls[t].namespace in s.volumes
      && 0 < n && s.calls[t].phase.copied + n <= |s.calls[t].payload|
    case Finish(t, ok) =>
      t in s.calls && s.calls[t].phase.Copying? && (ok ==> s.calls[t].phase.copied == |s.calls[t].payload|)
    case Unlock(t) => t in s.calls && s.calls[t].phase.Closing?
    case WriteChunk(_, chunk, bytes) => chunk in s.chunks ==> s.chunks[chunk] <= bytes
  }

  function Move(s: State, t: Tid, p: Phase): State
    requires t in s.calls
  {
    s.(calls := s.calls[t := s.calls[t].(phase := p)])
  }

  function Apply(s: State, step: Step): State
    requires Enabled(s, step)
  {
    match step
    case Begin(t, namespace, payload) =>
      s.(calls := s.calls[t := Call(namespace, payload, Called, None)])
    case GetMutex(t) =>
      // LoadOrStore: the mutex that is there, or else a new one.
      var namespace := s.calls[t].namespace;
      if namespace in s.mutexes then Move(s, t, Waiting(s.mutexes[namespace]))
      else
        Move(s.(mutexes := s.mutexes[namespace := s.nextMutex], nextMutex := s.nextMutex + 1), t, Waiting(s.nextMutex))
    case Lock(t) =>
      var mu := s.calls[t].phase.mu;
      Move(s.(owner := s.owner[mu := t]), t, Locked(mu))
    case Open(t, ok) =>
      var mu, namespace := s.calls[t].phase.mu, s.calls[t].namespace;
      if !ok then Move(s, t, Closing(mu))
      else if namespace in s.volumes then Move(s, t, Opened(mu))
      else Move(s.(volumes := s.volumes[namespace := []]), t, Opened(mu))
    case Stat(t, ok) =>
      var mu := s.calls[t].phase.mu;
      Move(s, t, if ok then Copying(mu, |s.volumes[s.calls[t].namespace]|, 0) else Closing(mu))
    case Copy(t, n) =>
      // The file is open for appending: the bytes go to its end, wherever that is.
      var c := s.calls[t];
      var part := c.payload[c.phase.copied..c.phase.copied + n];
      Move(s.(volumes := s.volumes[c.namespace := s.volumes[c.namespace] + part]), t,
        c.phase.(copied := c.phase.copied + n))
    case Finish(t, ok) =>
      var c := s.calls[t];
      var result := if ok then Some(Range(c.phase.offset, c.phase.copied)) else None;
      s.(calls := s.calls[t := c.(phase := Closing(c.phase.mu), result := result)])
    case Unlock(t) =>
      Move(s.(owner := s.owner - {s.calls[t].phase.mu}), t, Returned)
    case WriteChunk(_, chunk, bytes) =>
      s.(chunks := s.chunks[chunk := bytes])
  }

  // The invariant.

  ghost predicate MutexesOk(s: State) {
    && (forall n :: n in s.mutexes ==> s.mutexes[n] < s.nextMutex)
    && (forall m, n :: m in s.mutexes && n in s.mutexes && s.mutexes[m] == s.mutexes[n] ==> m == n)
    && (forall mu :: mu in s.owner ==>
          && s.owner[mu] in s.calls && IsCritical(s.calls[s.owner[mu]].phase) && s.calls[s.owner[mu]].phase.mu == mu)
  }

  /** The call uses the mutex of its namespace, and owns it between Lock and Unlock. */
  ghost predicate LockOk(s: State, t: Tid, c: Call) {
    && (!c.phase.Called? && !c.phase.Returned? ==> c.namespace in s.mutexes && s.mutexes[c.namespace] == c.phase.mu)
    && (IsCritical(c.phase) ==> c.phase.mu in s.owner && s.owner[c.phase.mu] == t)
  }

  /** While a call copies, the volume ends in what it has copied. */
  ghost predicate CopyOk(volumes: Volumes, c: Call) {
    && (c.phase.Opened? || c.phase.Copying? ==> c.namespace in volumes)
    && (c.phase.Copying? ==>
          && c.phase.copied <= |c.payload|
          && c.phase.offset + c.phase.copied == |volumes[c.namespace]|
          && volumes[c.namespace][c.phase.offset..] == c.payload[..c.phase.copied])
  }

  /** The range of a call that succeeded holds its payload. */
  ghost predicate ResultOk(volumes: Volumes, c: Call) {
    c.result.Some? ==>
      && (c.phase.Closing? || c.phase.Returned?)
      && c.namespace in volumes && c.result.value.written == |c.payload|
      && c.result.value.offset + c.result.value.written <= |volumes[c.namespace]|
      && volumes[c.namespace][c.result.value.offset..c.result.value.offset + c.result.value.written] == c.payload
  }

  predicate Before(a: Range, b: Range) {
    a.offset + a.written <= b.offset
  }

  /** Ranges of the same volume do not overlap, and a copy goes on after all of them. */
  ghost predicate ApartOk(c: Call, d: Call) {
    c.namespace == d.namespace && c.result.Some? ==>
      && (d.result.Some? ==> Before(c.result.value, d.result.value) || Before(d.result.value, c.result.value))
      && (d.phase.Copying? ==> c.result.value.offset + c.result.value.written <= d.phase.offset)
  }

  ghost predicate Valid(s: State) {
    && MutexesOk(s)
    && (forall t :: t in s.calls ==>
          LockOk(s, t, s.calls[t]) && CopyOk(s.volumes, s.calls[t]) && ResultOk(s.volumes, s.calls[t]))
    && (forall t, u :: t in s.calls && u in s.calls && t != u ==> ApartOk(s.calls[t], s.calls[u]))
  }

  /** At most one call per namespace is between Lock and Unlock. */
  lemma MutualExclusion(s: State, t: Tid, u: Tid)
    requires Valid(s) && t in s.calls && u in s.calls && s.calls[t].namespace == s.calls[u].namespace
    requires IsCritical(s.calls[t].phase) && IsCritical(s.calls[u].phase)
    ensures t == u
  {}

  /** Volumes only grow, and only at their ends. */
  ghost predicate Grows(a: Volumes, b: Volumes) {
    forall n :: n in a ==> n in b && a[n] <= b[n]
  }

  lemma StepGrows(s: State, step: Step)
    requires Enabled(s, step)
    ensures Grows(s.volumes, Apply(s, step).volumes)
  {}

  lemma ResultStays(a: Volumes, b: Volumes, c: Call)
    requires Grows(a, b) && ResultOk(a, c)
    ensures ResultOk(b, c)
  {}

  /** What has to be shown of a step of call t. */
  lemma StepKeepsOthers(s: State, s': State, t: Tid)
    requires Valid(s) && MutexesOk(s') && Grows(s.volumes, s'.volumes)
    requires t in s'.calls && s'.calls == s.calls[t := s'.calls[t]]
    requires LockOk(s', t, s'.calls[t]) && CopyOk(s'.volumes, s'.calls[t]) && ResultOk(s'.volumes, s'.calls[t])
    requires forall u :: u in s.calls && u != t ==> LockOk(s', u, s.calls[u]) && CopyOk(s'.volumes, s.calls[u])
    requires forall u :: u in s.calls && u != t ==> ApartOk(s'.calls[t], s.calls[u]) && ApartOk(s.calls[u], s'.calls[t])
    ensures Valid(s')
  {
    hide MutexesOk, LockOk, CopyOk, ApartOk, ResultOk, Grows;
    forall u | u in s.calls && u != t ensures ResultOk(s'.volumes, s.calls[u]) {
      ResultStays(s.volumes, s'.volumes, s.calls[u]);
    }
  }

  /** A step that writes no bytes, returns no range and starts no copy. */
  lemma QuietStep(s: State, s': State, t: Tid)
    requires Valid(s) && t in s.calls && t in s'.calls && s'.volumes == s.volumes
    requires s'.calls == s.calls[t := s.calls[t].(phase := s'.calls[t].phase)]
    requires !s'.calls[t].phase.Copying? && !s'.calls[t].phase.Opened?
    requires s.calls[t].result.Some? ==> s'.calls[t].phase.Returned?
    requires MutexesOk(s') && LockOk(s', t, s'.calls[t])
    requires forall u :: u in s.calls && u != t ==> LockOk(s', u, s.calls[u])
    ensures Valid(s')
  {
    hide MutexesOk, LockOk;
    StepKeepsOthers(s, s', t);
  }

  lemma BeginKeepsValid(s: State, t: Tid, namespace: string, payload: seq<Byte>)
    requires Valid(s) && Enabled(s, Begin(t, namespace, payload))
    ensures Valid(Apply(s, Begin(t, namespace, payload)))
  {
    hide CopyOk, ResultOk;
    var s' := Apply(s, Begin(t, namespace, payload));
    assert CopyOk(s'.volumes, s'.calls[t]) && ResultOk(s'.volumes, s'.calls[t]) by {
      NewCallOk(s.volumes, s'.calls[t]);
    }
    StepKeepsOthers(s, s', t);
  }

  lemma NewCallOk(volumes: Volumes, c: Call)
    requires c.phase == Called && c.result == None
    ensures CopyOk(volumes, c) && ResultOk(volumes, c)
  {}

  lemma NoResultYet(s: State, t: Tid)
    requires Valid(s) && t in s.calls && !s.calls[t].phase.Closing? && !s.calls[t].phase.Returned?
    ensures s.calls[t].result == None
  {}

  lemma LockStays(s: State, s': State, u: Tid, c: Call)
    requires LockOk(s, u, c)
    requires forall n :: n in s.mutexes ==> n in s'.mutexes && s'.mutexes[n] == s.mutexes[n]
    requires forall mu :: mu in s.owner && s.owner[mu] == u ==> mu in s'.owner && s'.owner[mu] == u
    ensures LockOk(s', u, c)
  {}

  lemma NewMutexOk(s: State, namespace: string)
    requires MutexesOk(s) && namespace !in s.mutexes
    ensures MutexesOk(s.(mutexes := s.mutexes[namespace := s.nextMutex], nextMutex := s.nextMutex + 1))
  {}

  lemma MoveKeepsMutexes(s: State, t: Tid, p: Phase)
    requires MutexesOk(s) && t in s.calls
    requires IsCritical(s.calls[t].phase) ==> IsCritical(p) && p.mu == s.calls[t].phase.mu
    ensures MutexesOk(Move(s, t, p))
  {}

  lemma MutexAdded(s: State, t: Tid)
    requires MutexesOk(s) && Enabled(s, GetMutex(t))
    ensures var s' := Apply(s, GetMutex(t)); MutexesOk(s') && LockOk(s', t, s'.calls[t])
  {
    hide MutexesOk;
    var namespace := s.calls[t].namespace;
    if namespace in s.mutexes {
      MoveKeepsMutexes(s, t, Waiting(s.mutexes[namespace]));
    } else {
      NewMutexOk(s, namespace);
      MoveKeepsMutexes(s.(mutexes := s.mutexes[namespace := s.nextMutex], nextMutex := s.nextMutex + 1), t,
        Waiting(s.nextMutex));
    }
  }

  lemma GetMutexKeepsValid(s: State, t: Tid)
    requires Valid(s) && Enabled(s, GetMutex(t))
    ensures Valid(Apply(s, GetMutex(t)))
  {
    NoResultYet(s, t);
    MutexAdded(s, t);
    hide MutexesOk, LockOk, CopyOk, ApartOk, ResultOk;
    var s' := Apply(s, GetMutex(t));
    forall u | u in s.calls && u != t ensures LockOk(s', u, s.calls[u]) {
      LockStays(s, s', u, s.calls[u]);
    }
    QuietStep(s, s', t);
  }

  lemma LockKeepsValid(s: State, t: Tid)
    requires Valid(s) && Enabled(s, Lock(t))
    ensures Valid(Apply(s, Lock(t)))
  {
    NoResultYet(s, t);
    hide CopyOk, ApartOk, ResultOk;
    assert LockOk(s, t, s.calls[t]);
    QuietStep(s, Apply(s, Lock(t)), t);
  }

  lemma Unlocked(s: State, t: Tid)
    requires MutexesOk(s) && Enabled(s, Unlock(t)) && LockOk(s, t, s.calls[t])
    ensures var s' := Apply(s, Unlock(t)); MutexesOk(s') && LockOk(s', t, s'.calls[t])
  {}

  lemma UnlockKeepsValid(s: State, t: Tid)
    requires Valid(s) && Enabled(s, Unlock(t))
    ensures Valid(Apply(s, Unlock(t)))
  {
    var s' := Apply(s, Unlock(t));
    assert s.owner[s.calls[t].phase.mu] == t by {
      assert LockOk(s, t, s.calls[t]);
    }
    Unlocked(s, t);
    hide MutexesOk, LockOk, CopyOk, ApartOk, ResultOk;
    forall u | u in s.calls && u != t ensures LockOk(s', u, s.calls[u]) {
      LockStays(s, s', u, s.calls[u]);
    }
    QuietStep(s, s', t);
  }

  lemma OpenedOk(s: State, t: Tid, ok: bool)
    requires Enabled(s, Open(t, ok)) && MutexesOk(s) && LockOk(s, t, s.calls[t])
    ensures var s' := Apply(s, Open(t, ok));
      && MutexesOk(s') && LockOk(s', t, s'.calls[t]) && CopyOk(s'.volumes, s'.calls[t])
      && (s.calls[t].result == None ==> ResultOk(s'.volumes, s'.calls[t]))
  {}

  lemma CopyStays(a: Volumes, b: Volumes, c: Call)
    requires CopyOk(a, c) && (c.namespace in a ==> c.namespace in b && b[c.namespace] == a[c.namespace])
    ensures CopyOk(b, c)
  {}

  lemma OpenKeepsValid(s: State, t: Tid, ok: bool)
    requires Valid(s) && Enabled(s, Open(t, ok))
    ensures Valid(Apply(s, Open(t, ok)))
  {
    NoResultYet(s, t);
    OpenedOk(s, t, ok);
    StepGrows(s, Open(t, ok));
    hide MutexesOk, LockOk, CopyOk, ApartOk, ResultOk, Grows;
    var s' := Apply(s, Open(t, ok));
    SameApart(s, s', t);
    forall u | u in s.calls && u != t ensures LockOk(s', u, s.calls[u]) && CopyOk(s'.volumes, s.calls[u]) {
      LockStays(s, s', u, s.calls[u]);
      CopyStays(s.volumes, s'.volumes, s.calls[u]);
    }
    StepKeepsOthers(s, s', t);
  }

  lemma SameApart(s: State, s': State, t: Tid)
    requires Valid(s) && t in s.calls && t in s'.calls
    requires s'.calls[t].namespace == s.calls[t].namespace && s'.calls[t].result == s.calls[t].result
    requires s'.calls[t].phase.Copying? ==>
      s.calls[t].phase.Copying? && s.calls[t].phase.offset == s'.calls[t].phase.offset
    ensures forall u :: u in s.calls && u != t ==> ApartOk(s'.calls[t], s.calls[u]) && ApartOk(s.calls[u], s'.calls[t])
  {}

  lemma StatMoves(s: State, t: Tid, ok: bool)
    requires MutexesOk(s) && Enabled(s, Stat(t, ok)) && LockOk(s, t, s.calls[t])
    ensures var s' := Apply(s, Stat(t, ok));
      MutexesOk(s') && LockOk(s', t, s'.calls[t]) && CopyOk(s'.volumes, s'.calls[t])
  {}

  lemma StatApart(s: State, t: Tid, ok: bool, d: Call)
    requires Enabled(s, Stat(t, ok)) && s.calls[t].result == None && ResultOk(s.volumes, d)
    ensures var c := Apply(s, Stat(t, ok)).calls[t]; ApartOk(c, d) && ApartOk(d, c) && c.result == None
  {}

  /** A copy starts where the volume ends, after every range in it. */
  lemma StatKeepsValid(s: State, t: Tid, ok: bool)
    requires Valid(s) && Enabled(s, Stat(t, ok))
    ensures Valid(Apply(s, Stat(t, ok)))
  {
    NoResultYet(s, t);
    StatMoves(s, t, ok);
    var s' := Apply(s, Stat(t, ok));
    assert ResultOk(s'.volumes, s'.calls[t]);
    hide MutexesOk, LockOk, CopyOk, ApartOk, ResultOk;
    forall u | u in s.calls && u != t
      ensures ApartOk(s'.calls[t], s.calls[u]) && ApartOk(s.calls[u], s'.calls[t]) && LockOk(s', u, s.calls[u])
    {
      StatApart(s, t, ok, s.calls[u]);
      LockStays(s, s', u, s.calls[u]);
    }
    StepGrows(s, Stat(t, ok));
    StepKeepsOthers(s, s', t);
  }

  /** Nobody else copies to the volume. */
  lemma CopyKeepsValid(s: State, t: Tid, n: nat)
    requires Valid(s) && Enabled(s, Copy(t, n))
    ensures Valid(Apply(s, Copy(t, n)))
  {
    var s', c := Apply(s, Copy(t, n)), s.calls[t];
    assert LockOk(s, t, c) && CopyOk(s.volumes, c) && ResultOk(s.volumes, c);
    StepGrows(s, Copy(t, n));
    CopiedOk(s, t, n);
    SameApart(s, s', t);
    hide ApartOk, ResultOk;
    forall u | u in s.calls && u != t ensures CopyOk(s'.volumes, s.calls[u]) {
      if s.calls[u].phase.Copying? && s.calls[u].namespace == c.namespace {
        MutualExclusion(s, t, u);
      }
    }
    StepKeepsOthers(s, s', t);
  }

  lemma CopiedOk(s: State, t: Tid, n: nat)
    requires Enabled(s, Copy(t, n)) && CopyOk(s.volumes, s.calls[t])
    ensures var s' := Apply(s, Copy(t, n)); CopyOk(s'.volumes, s'.calls[t])
  {}

  lemma FinishKeepsValid(s: State, t: Tid, ok: bool)
    requires Valid(s) && Enabled(s, Finish(t, ok))
    ensures Valid(Apply(s, Finish(t, ok)))
  {
    var s', c := Apply(s, Finish(t, ok)), s.calls[t];
    assert LockOk(s, t, c) && CopyOk(s.volumes, c) && ResultOk(s.volumes, c);
    FinishedOk(s.volumes, c, s'.calls[t]);
    forall u | u in s.calls && u != t
      ensures ApartOk(s'.calls[t], s.calls[u]) && ApartOk(s.calls[u], s'.calls[t])
    {
      assert ApartOk(s.calls[u], c);
      if s.calls[u].phase.Copying? && s.calls[u].namespace == c.namespace {
        MutualExclusion(s, t, u);
      }
    }
    hide ApartOk, ResultOk;
    StepKeepsOthers(s, s', t);
  }

  lemma FinishedOk(volumes: Volumes, c: Call, c': Call)
    requires CopyOk(volumes, c) && c.phase.Copying? && c'.phase.Closing?
    requires c' == c.(phase := c'.phase, result := c'.result)
    requires c'.result.Some? ==>
      c'.result.value == Range(c.phase.offset, c.phase.copied) && c.phase.copied == |c.payload|
    ensures ResultOk(volumes, c') && CopyOk(volumes, c')
  {}

  lemma WriteChunkKeepsValid(s: State, t: Tid, chunk: ChunkKey, bytes: seq<Byte>)
    requires Valid(s) && Enabled(s, WriteChunk(t, chunk, bytes))
    ensures Valid(Apply(s, WriteChunk(t, chunk, bytes)))
  {
    hide Valid;
    ChunksDoNotMatter(s, s.chunks[chunk := bytes]);
  }

  lemma StepKeepsValid(s: State, step: Step)
    requires Valid(s) && Enabled(s, step)
    ensures Valid(Apply(s, step))
  {
    hide Valid, Apply;
    match step
    case Begin(t, namespace, payload) => BeginKeepsValid(s, t, namespace, payload);
    case GetMutex(t) => GetMutexKeepsValid(s, t);
    case Lock(t) => LockKeepsValid(s, t);
    case Open(t, ok) => OpenKeepsValid(s, t, ok);
    case Stat(t, ok) => StatKeepsValid(s, t, ok);
    case Copy(t, n) => CopyKeepsValid(s, t, n);
    case Finish(t, ok) => FinishKeepsValid(s, t, ok);
    case Unlock(t) => UnlockKeepsValid(s, t);
    case WriteChunk(t, chunk, bytes) => WriteChunkKeepsValid(s, t, chunk, bytes);
  }

  // Runs.

  ghost predicate Legal(s: State, steps: seq<Step>)
    decreases |steps|
  {
    steps == [] || (Enabled(s, steps[0]) && Legal(Apply(s, steps[0]), steps[1..]))
  }

  ghost function Run(s: State, steps: seq<Step>): State
    requires Legal(s, steps)
    decreases |steps|
  {
    if steps == [] then s else Run(Apply(s, steps[0]), steps[1..])
  }

  ghost predicate Leads(s: State, steps: seq<Step>, s': State) {
    Legal(s, steps) && Run(s, steps) == s'
  }

  lemma StartedIsValid(volumes: Volumes, chunks: Chunks)
    ensures Valid(Started(volumes, chunks))
  {}

  lemma {:induction false} RunKeepsValid(s: State, steps: seq<Step>)
    requires Valid(s) && Legal(s, steps)
    ensures Valid(Run(s, steps))
    decreases |steps|
  {
    hide Valid, Apply, Enabled;
    if steps != [] {
      StepKeepsValid(s, steps[0]);
      RunKeepsValid(Apply(s, steps[0]), steps[1..]);
    }
  }

  /** What a call was made with never changes, nor does its result once it is closing. */
  ghost predicate Continues(c: Call, d: Call) {
    && d.namespace == c.namespace && d.payload == c.payload
    && (c.phase.Closing? || c.phase.Returned? ==> d.result == c.result && (d.phase.Closing? || d.phase.Returned?))
  }

  /** What a step makes of its call. */
  function After(s: State, step: Step): Call
    requires Enabled(s, step) && !step.WriteChunk?
  {
    match step
    case Begin(_, namespace, payload) => Call(namespace, payload, Called, None)
    case GetMutex(t) =>
      var c := s.calls[t];
      c.(phase := Waiting(if c.namespace in s.mutexes then s.mutexes[c.namespace] else s.nextMutex))
    case Lock(t) => s.calls[t].(phase := Locked(s.calls[t].phase.mu))
    case Open(t, ok) => s.calls[t].(phase := if ok then Opened(s.calls[t].phase.mu) else Closing(s.calls[t].phase.mu))
    case Stat(t, ok) =>
      var c := s.calls[t];
      c.(phase := if ok then Copying(c.phase.mu, |s.volumes[c.namespace]|, 0) else Closing(c.phase.mu))
    case Copy(t, n) => s.calls[t].(phase := s.calls[t].phase.(copied := s.calls[t].phase.copied + n))
    case Finish(t, ok) =>
      var c := s.calls[t];
      c.(phase := Closing(c.phase.mu), result := if ok then Some(Range(c.phase.offset, c.phase.copied)) else None)
    case Unlock(t) => s.calls[t].(phase := Returned)
  }

  lemma CallsAfter(s: State, step: Step)
    requires Enabled(s, step)
    ensures Apply(s, step).calls == if step.WriteChunk? then s.calls else s.calls[step.t := After(s, step)]
  {}

  lemma StepContinues(s: State, step: Step, t: Tid)
    requires Enabled(s, step) && t in s.calls
    ensures var s' := Apply(s, step);
      t in s'.calls && Continues(s.calls[t], s'.calls[t]) && (step.t != t ==> s'.calls[t] == s.calls[t])
  {
    CallsAfter(s, step);
    hide Apply;
  }

  lemma {:induction false} RunContinues(s: State, steps: seq<Step>, t: Tid)
    requires Legal(s, steps) && t in s.calls
    ensures t in Run(s, steps).calls && Continues(s.calls[t], Run(s, steps).calls[t])
    decreases |steps|
  {
    hide Apply, Enabled;
    if steps != [] {
      StepContinues(s, steps[0], t);
      RunContinues(Apply(s, steps[0]), steps[1..], t);
    }
  }

  lemma {:induction false} RunGrows(s: State, steps: seq<Step>)
    requires Legal(s, steps)
    ensures Grows(s.volumes, Run(s, steps).volumes)
    decreases |steps|
  {
    hide Apply, Enabled;
    if steps != [] {
      StepGrows(s, steps[0]);
      RunGrows(Apply(s, steps[0]), steps[1..]);
    }
  }

  /** A daemon starts over any volumes. In every interleaving, the bytes that were there
      stay, at most one call per namespace is between Lock and Unlock, the ranges of calls
      that succeeded do not overlap, and each holds its payload. */
  lemma AppendsAreIsolated(volumes: Volumes, chunks: Chunks, steps: seq<Step>, s: State, t: Tid, u: Tid)
    requires Leads(Started(volumes, chunks), steps, s) && t in s.calls && u in s.calls && t != u
    requires s.calls[t].namespace == s.calls[u].namespace
    ensures Grows(volumes, s.volumes)
    ensures !(IsCritical(s.calls[t].phase) && IsCritical(s.calls[u].phase))
    ensures s.calls[t].result.Some? && s.calls[u].result.Some? ==>
      || Before(s.calls[t].result.value, s.calls[u].result.value)
      || Before(s.calls[u].result.value, s.calls[t].result.value)
    ensures s.calls[t].result.Some? ==>
      ReadRange(s.volumes, s.calls[t].namespace, s.calls[t].result.value) == s.calls[t].payload
  {
    hide MutexesOk, LockOk, CopyOk, Run, Legal, Grows;
    StartedIsValid(volumes, chunks);
    RunKeepsValid(Started(volumes, chunks), steps);
    RunGrows(Started(volumes, chunks), steps);
    assert ApartOk(s.calls[t], s.calls[u]) && ResultOk(s.volumes, s.calls[t]);
    if IsCritical(s.calls[t].phase) && IsCritical(s.calls[u].phase) {
      MutualExclusion(s, t, u);
    }
  }

  /** An unlocked read: what is there of the range. */
  function ReadRange(volumes: Volumes, namespace: string, r: Range): seq<Byte> {
    var volume := if namespace in volumes then volumes[namespace] else [];
    var lo := if r.offset <= |volume| then r.offset else |volume|;
    volume[lo..if r.offset + r.written <= |volume| then r.offset + r.written else |volume|]
  }

  /** Once a call has its range, every later read of the range gives its payload, also
      while other calls are copying and after they have failed. */
  lemma ReadsAreStable(volumes: Volumes, chunks: Chunks, steps: seq<Step>, s: State, later: seq<Step>, s': State,
      t: Tid)
    requires Leads(Started(volumes, chunks), steps, s) && Leads(s, later, s') && t in s.calls && s.calls[t].result.Some?
    ensures ReadRange(s'.volumes, s.calls[t].namespace, s.calls[t].result.value) == s.calls[t].payload
  {
    hide MutexesOk, LockOk, CopyOk, ApartOk, Run, Legal;
    StartedIsValid(volumes, chunks);
    RunKeepsValid(Started(volumes, chunks), steps);
    RunKeepsValid(s, later);
    assert ResultOk(s.volumes, s.calls[t]);
    RunContinues(s, later, t);
    assert ResultOk(s'.volumes, s'.calls[t]);
  }

  // Refinement: appends are atomic.

  /** The call that is copying to the volume, if there is one. */
  predicate IsCopiedTo(s: State, namespace: string) {
    && namespace in s.mutexes && s.mutexes[namespace] in s.owner
    && var t := s.owner[s.mutexes[namespace]];
    && t in s.calls && s.calls[t].phase.Copying?
  }

  /** The volume without the bytes of a copy that is still going on. */
  function Settled(s: State, namespace: string): seq<Byte> {
    var volume := if namespace in s.volumes then s.volumes[namespace] else [];
    if !IsCopiedTo(s, namespace) then volume
    else
      var offset := s.calls[s.owner[s.mutexes[namespace]]].phase.offset;
      if offset <= |volume| then volume[..offset] else volume
  }

  /** The bytes that a call leaves behind when it ends: its payload if it succeeds, some
      part of it if it fails. */
  function Added(s: State, step: Step, namespace: string): seq<Byte>
    requires Enabled(s, step)
  {
    if step.Finish? && s.calls[step.t].namespace == namespace
      && s.calls[step.t].phase.copied <= |s.calls[step.t].payload|
    then s.calls[step.t].payload[..s.calls[step.t].phase.copied]
    else []
  }

  lemma SettledIf(s: State, namespace: string, t: Tid)
    requires Valid(s) && t in s.calls && s.calls[t].phase.Copying? && s.calls[t].namespace == namespace
    ensures namespace in s.volumes && s.calls[t].phase.offset <= |s.volumes[namespace]|
    ensures Settled(s, namespace) == s.volumes[namespace][..s.calls[t].phase.offset]
    ensures s.volumes[namespace] == Settled(s, namespace) + s.calls[t].payload[..s.calls[t].phase.copied]
  {}

  lemma SettledUnless(s: State, namespace: string)
    requires Valid(s)
    requires forall t :: t in s.calls && s.calls[t].namespace == namespace ==> !s.calls[t].phase.Copying?
    ensures Settled(s, namespace) == if namespace in s.volumes then s.volumes[namespace] else []
  {}

  /** Nothing that matters to the volume happens. */
  lemma SettledSame(s: State, s': State, namespace: string)
    requires Valid(s) && Valid(s')
    requires (namespace in s.volumes && s.volumes[namespace] != [])
      || (namespace in s'.volumes && s'.volumes[namespace] != [])
      ==> namespace in s.volumes && namespace in s'.volumes && s.volumes[namespace] == s'.volumes[namespace]
    requires forall t :: t in s.calls && s.calls[t].namespace == namespace && s.calls[t].phase.Copying? ==>
      t in s'.calls && s'.calls[t] == s.calls[t]
    requires forall t :: t in s'.calls && s'.calls[t].namespace == namespace && s'.calls[t].phase.Copying? ==>
      t in s.calls && s'.calls[t] == s.calls[t]
    ensures Settled(s', namespace) == Settled(s, namespace)
  {
    hide Valid, Settled;
    if t :| t in s.calls && s.calls[t].namespace == namespace && s.calls[t].phase.Copying? {
      SettledIf(s, namespace, t);
      SettledIf(s', namespace, t);
    } else {
      SettledUnless(s, namespace);
      SettledUnless(s', namespace);
    }
  }

  lemma NoOtherCopier(s: State, t: Tid)
    requires Valid(s) && t in s.calls && IsCritical(s.calls[t].phase)
    ensures forall u :: u in s.calls && u != t && s.calls[u].namespace == s.calls[t].namespace ==>
      !s.calls[u].phase.Copying?
  {}

  lemma SettledByStat(s: State, t: Tid, ok: bool)
    requires Valid(s) && Enabled(s, Stat(t, ok)) && Valid(Apply(s, Stat(t, ok)))
    ensures Settled(Apply(s, Stat(t, ok)), s.calls[t].namespace) == Settled(s, s.calls[t].namespace)
  {}

  lemma SettledByCopy(s: State, t: Tid, n: nat)
    requires Valid(s) && Enabled(s, Copy(t, n)) && Valid(Apply(s, Copy(t, n)))
    ensures Settled(Apply(s, Copy(t, n)), s.calls[t].namespace) == Settled(s, s.calls[t].namespace)
  {}

  lemma SettledByFinish(s: State, t: Tid, ok: bool)
    requires Valid(s) && Enabled(s, Finish(t, ok)) && Valid(Apply(s, Finish(t, ok)))
    ensures s.calls[t].phase.copied <= |s.calls[t].payload|
    ensures s.calls[t].phase.offset == |Settled(s, s.calls[t].namespace)|
    ensures Settled(Apply(s, Finish(t, ok)), s.calls[t].namespace) ==
      Settled(s, s.calls[t].namespace) + s.calls[t].payload[..s.calls[t].phase.copied]
    ensures t in Apply(s, Finish(t, ok)).calls
    ensures ok ==>
      Apply(s, Finish(t, ok)).calls[t].result == Some(Range(|Settled(s, s.calls[t].namespace)|, |s.calls[t].payload|))
  {
    assert CopyOk(s.volumes, s.calls[t]);
    hide Valid, Settled;
    NoOtherCopier(s, t);
    SettledIf(s, s.calls[t].namespace, t);
    SettledUnless(Apply(s, Finish(t, ok)), s.calls[t].namespace);
  }

  lemma VolumeAfter(s: State, step: Step, namespace: string)
    requires Enabled(s, step) && ((step.Stat? || step.Copy? || step.Finish?) ==> s.calls[step.t].namespace != namespace)
    ensures var s' := Apply(s, step);
      if namespace in s.volumes then namespace in s'.volumes && s'.volumes[namespace] == s.volumes[namespace]
      else namespace !in s'.volumes || s'.volumes[namespace] == []
  {}

  lemma SettledByOthers(s: State, step: Step, namespace: string)
    requires Valid(s) && Enabled(s, step) && Valid(Apply(s, step))
    requires (step.Stat? || step.Copy? || step.Finish?) ==> s.calls[step.t].namespace != namespace
    ensures Settled(Apply(s, step), namespace) == Settled(s, namespace)
  {
    hide Valid, Settled, Apply;
    CallsAfter(s, step);
    VolumeAfter(s, step, namespace);
    SettledSame(s, Apply(s, step), namespace);
  }

  /** Leaving out copies that are still going on, an append is one step: a call that
      succeeds adds its payload at the offset it returns, a call that fails adds some
      part of its payload, and no other step changes anything. */
  lemma AppendsAreAtomic(s: State, step: Step, namespace: string)
    requires Valid(s) && Enabled(s, step)
    ensures Settled(Apply(s, step), namespace) == Settled(s, namespace) + Added(s, step, namespace)
    ensures step.Finish? && step.ok && s.calls[step.t].namespace == namespace ==>
      && Added(s, step, namespace) == s.calls[step.t].payload
      && step.t in Apply(s, step).calls
      && Apply(s, step).calls[step.t].result == Some(Range(|Settled(s, namespace)|, |s.calls[step.t].payload|))
  {
    hide Valid, Settled, Apply;
    StepKeepsValid(s, step);
    if (step.Stat? || step.Copy? || step.Finish?) && s.calls[step.t].namespace == namespace {
      match step
      case Stat(t, ok) => SettledByStat(s, t, ok);
      case Copy(t, n) => SettledByCopy(s, t, n);
      case Finish(t, ok) => SettledByFinish(s, t, ok);
    } else {
      SettledByOthers(s, step, namespace);
    }
  }

  // What a request may assume of the others.

  /** Some steps lead from s to s'. */
  ghost predicate Evolves(s: State, s': State) {
    exists steps: seq<Step> :: Leads(s, steps, s')
  }

  /** Some steps of other requests than t lead from s to s'. */
  ghost predicate OthersEvolve(s: State, s': State, t: Tid) {
    exists steps: seq<Step> :: Leads(s, steps, s') && forall i :: 0 <= i < |steps| ==> steps[i].t != t
  }

  lemma NothingHappens(s: State, t: Tid)
    ensures Evolves(s, s) && OthersEvolve(s, s, t)
  {
    assert Leads(s, [], s);
  }

  lemma {:induction false} LeadsOn(s: State, a: seq<Step>, s': State, b: seq<Step>, s'': State)
    requires Leads(s, a, s') && Leads(s', b, s'')
    ensures Leads(s, a + b, s'')
    decreases |a|
  {
    hide Enabled, Apply;
    if a == [] {
      assert a + b == b;
    } else {
      LeadsOn(Apply(s, a[0]), a[1..], s', b, s'');
      assert (a + b)[0] == a[0] && (a + b)[1..] == a[1..] + b;
    }
  }

  lemma EvolvesOn(s: State, s': State, s'': State)
    requires Evolves(s, s') && Evolves(s', s'')
    ensures Evolves(s, s'')
  {
    hide Leads;
    var a: seq<Step> :| Leads(s, a, s');
    var b: seq<Step> :| Leads(s', b, s'');
    LeadsOn(s, a, s', b, s'');
  }

  lemma OneStep(s: State, step: Step)
    requires Enabled(s, step)
    ensures Evolves(s, Apply(s, step))
  {
    hide Enabled, Apply;
    var next := Apply(s, step);
    assert Leads(next, [], next);
    assert [step][1..] == [];
    assert Leads(s, [step], next);
  }

  lemma {:induction false} OthersLeaveCall(s: State, steps: seq<Step>, t: Tid)
    requires Legal(s, steps) && Valid(s) && t in s.calls
    requires forall i :: 0 <= i < |steps| ==> steps[i].t != t
    ensures var s' := Run(s, steps); Valid(s') && t in s'.calls && s'.calls[t] == s.calls[t]
    decreases |steps|
  {
    hide Valid, Apply, Enabled;
    if steps != [] {
      StepKeepsValid(s, steps[0]);
      StepContinues(s, steps[0], t);
      OthersLeaveCall(Apply(s, steps[0]), steps[1..], t);
    }
  }

  lemma OthersEvolution(s: State, s': State, t: Tid)
    requires Valid(s) && t in s.calls && OthersEvolve(s, s', t)
    ensures Evolves(s, s') && Valid(s') && t in s'.calls && s'.calls[t] == s.calls[t]
  {
    hide Valid, Legal, Run;
    var steps: seq<Step> :| Leads(s, steps, s') && forall i :: 0 <= i < |steps| ==> steps[i].t != t;
    OthersLeaveCall(s, steps, t);
  }

  lemma WaitingForIts(s: State, t: Tid)
    requires Valid(s) && t in s.calls && s.calls[t].phase.Waiting?
    ensures s.calls[t].namespace in s.mutexes && s.mutexes[s.calls[t].namespace] == s.calls[t].phase.mu
  {
    hide CopyOk, ResultOk, ApartOk;
    assert LockOk(s, t, s.calls[t]);
  }

  lemma OpenedVolumeExists(s: State, t: Tid)
    requires Valid(s) && t in s.calls && (s.calls[t].phase.Opened? || s.calls[t].phase.Copying?)
    ensures s.calls[t].namespace in s.volumes
  {}

  lemma RangeHoldsPayload(s: State, t: Tid)
    requires Valid(s) && t in s.calls
    ensures s.calls[t].result.Some? ==>
      ReadRange(s.volumes, s.calls[t].namespace, s.calls[t].result.value) == s.calls[t].payload
  {}

  lemma ChunksDoNotMatter(s: State, chunks: Chunks)
    requires Valid(s)
    ensures Valid(s.(chunks := chunks))
  {
    hide CopyOk, ResultOk, ApartOk;
    var s' := s.(chunks := chunks);
    forall u | u in s.calls ensures LockOk(s', u, s.calls[u]) {
      LockStays(s, s', u, s.calls[u]);
    }
  }
}
