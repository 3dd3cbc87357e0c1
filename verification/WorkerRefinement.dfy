/** What the gateway sees of a worker: leaving out copies that are still going on, its
    files change by pushes, one after the other, as in the upload protocol. */
module WorkerRefinement {
  import opened Wrappers
  import opened Gf256
  import opened Catalog
  import opened ClusterRoot
  import opened WorkerProtocol
  import UP = UploadProtocol
  import CS = CommitSafety
  import Retrieval
  import Durability

  /** The files without the bytes of copies that are still going on. */
  function SettledVolumes(s: State): Volumes {
    map n | n in s.volumes :: Settled(s, n)
  }

  function SettledFiles(address: string, s: State): Files {
    FilesOf(address, SettledVolumes(s), s.chunks)
  }

  /** Request `from` adds the bytes to a file, as the protocol's push does. */
  datatype Push = Push(from: Tid, key: FileKey, bytes: seq<Byte>)

  function PushAll(files: Files, ps: seq<Push>): Files
    decreases |ps|
  {
    if ps == [] then files else PushAll(UP.Written(files, ps[0].key, ps[0].bytes), ps[1..])
  }

  function VolumeKey(address: string, namespace: string): FileKey {
    FileKey(address, namespace, Volume)
  }

  /** The push that a step amounts to. Opening a volume creates it if need be; the end of
      a copy adds what was copied. */
  function PushOf(address: string, s: State, step: Step): seq<Push>
    requires Enabled(s, step)
  {
    match step
    case Open(t, ok) => if ok then [Push(t, VolumeKey(address, s.calls[t].namespace), [])] else []
    case Finish(t, _) =>
      var namespace := s.calls[t].namespace;
      [Push(t, VolumeKey(address, namespace), Added(s, step, namespace))]
    case WriteChunk(t, chunk, bytes) => [Push(t, FileKey(address, chunk.namespace, ChunkFile(chunk.id)), bytes)]
    case _ => []
  }

  ghost function Pushes(address: string, s: State, steps: seq<Step>): seq<Push>
    requires Legal(s, steps)
    decreases |steps|
  {
    if steps == [] then [] else PushOf(address, s, steps[0]) + Pushes(address, Apply(s, steps[0]), steps[1..])
  }

  function Extended(volumes: Volumes, namespace: string, bytes: seq<Byte>): Volumes {
    volumes[namespace := (if namespace in volumes then volumes[namespace] else []) + bytes]
  }

  lemma VolumeWritten(address: string, volumes: Volumes, chunks: Chunks, namespace: string, bytes: seq<Byte>)
    ensures FilesOf(address, Extended(volumes, namespace, bytes), chunks) ==
      UP.Written(FilesOf(address, volumes, chunks), VolumeKey(address, namespace), bytes)
  {
    hide FilesOf;
    var a, b := FilesOf(address, Extended(volumes, namespace, bytes), chunks),
      UP.Written(FilesOf(address, volumes, chunks), VolumeKey(address, namespace), bytes);
    FilesOfAt(address, volumes, chunks, VolumeKey(address, namespace));
    forall key ensures key in a <==> key in b
      ensures key in a ==> a[key] == b[key]
    {
      FilesOfAt(address, volumes, chunks, key);
      FilesOfAt(address, Extended(volumes, namespace, bytes), chunks, key);
    }
  }

  lemma ChunkWritten(address: string, volumes: Volumes, chunks: Chunks, chunk: ChunkKey, bytes: seq<Byte>)
    ensures FilesOf(address, volumes, chunks[chunk := bytes]) ==
      UP.Written(FilesOf(address, volumes, chunks), FileKey(address, chunk.namespace, ChunkFile(chunk.id)), bytes)
  {
    hide FilesOf;
    var a, b := FilesOf(address, volumes, chunks[chunk := bytes]),
      UP.Written(FilesOf(address, volumes, chunks), FileKey(address, chunk.namespace, ChunkFile(chunk.id)), bytes);
    forall key ensures key in a <==> key in b
      ensures key in a ==> a[key] == b[key]
    {
      FilesOfAt(address, volumes, chunks, key);
      FilesOfAt(address, volumes, chunks[chunk := bytes], key);
    }
  }

  lemma SettledByStep(s: State, step: Step)
    requires Valid(s) && Enabled(s, step)
    ensures SettledVolumes(Apply(s, step)) ==
      if step.Open? && step.ok then Extended(SettledVolumes(s), s.calls[step.t].namespace, [])
      else if step.Finish? then
        Extended(SettledVolumes(s), s.calls[step.t].namespace, Added(s, step, s.calls[step.t].namespace))
      else SettledVolumes(s)
  {
    hide Valid, Settled, Apply;
    var s' := Apply(s, step);
    forall n
      ensures Settled(s', n) == Settled(s, n) + Added(s, step, n)
      ensures !(step.Finish? && s.calls[step.t].namespace == n) ==> Settled(s', n) == Settled(s, n)
    {
      AppendsAreAtomic(s, step, n);
      assert Settled(s, n) + [] == Settled(s, n);
    }
    VolumesOfStep(s, step);
    AbsentIsEmpty(s);
    forall n ensures n in s'.volumes <==> n in s.volumes || (step.Open? && step.ok && n == s.calls[step.t].namespace) {
      assert n in s'.volumes <==> n in s'.volumes.Keys;
    }
    if step.Open? && step.ok {
      var namespace := s.calls[step.t].namespace;
      assert Settled(s, namespace) + [] == Settled(s, namespace);
    }
  }

  lemma VolumesOfStep(s: State, step: Step)
    requires Valid(s) && Enabled(s, step)
    ensures Apply(s, step).volumes.Keys ==
      s.volumes.Keys + if step.Open? && step.ok then {s.calls[step.t].namespace} else {}
    ensures step.Finish? ==> s.calls[step.t].namespace in s.volumes
  {
    if step.Finish? {
      assert CopyOk(s.volumes, s.calls[step.t]);
    }
    hide Valid;
  }

  lemma AbsentIsEmpty(s: State)
    ensures forall n :: n !in s.volumes ==> Settled(s, n) == []
  {}

  lemma StepIsPush(address: string, s: State, step: Step)
    requires Valid(s) && Enabled(s, step)
    ensures SettledFiles(address, Apply(s, step)) == PushAll(SettledFiles(address, s), PushOf(address, s, step))
  {
    hide Valid, Settled, SettledVolumes, Extended, FilesOf, UP.Written;
    SettledByStep(s, step);
    match step
    case Open(t, ok) =>
      VolumeWritten(address, SettledVolumes(s), s.chunks, s.calls[t].namespace, []);
    case Finish(t, _) =>
      VolumeWritten(address, SettledVolumes(s), s.chunks, s.calls[t].namespace, Added(s, step, s.calls[t].namespace));
    case WriteChunk(_, chunk, bytes) =>
      ChunkWritten(address, SettledVolumes(s), s.chunks, chunk, bytes);
    case _ =>
  }

  lemma {:induction false} PushAllConcat(files: Files, a: seq<Push>, b: seq<Push>)
    ensures PushAll(files, a + b) == PushAll(PushAll(files, a), b)
    decreases |a|
  {
    hide UP.Written;
    if a == [] {
      assert a + b == b;
    } else {
      assert (a + b)[0] == a[0] && (a + b)[1..] == a[1..] + b;
      PushAllConcat(UP.Written(files, a[0].key, a[0].bytes), a[1..], b);
    }
  }

  /** Every run of a worker is a run of pushes: without copies that are still going on,
      its files are those it had, with the pushes made one after the other. */
  lemma {:induction false} RunIsPushes(address: string, s: State, steps: seq<Step>)
    requires Valid(s) && Legal(s, steps)
    ensures SettledFiles(address, Run(s, steps)) == PushAll(SettledFiles(address, s), Pushes(address, s, steps))
    decreases |steps|
  {
    hide Valid, Apply, Enabled, SettledFiles, PushOf;
    if steps != [] {
      var s1 := Apply(s, steps[0]);
      StepKeepsValid(s, steps[0]);
      StepIsPush(address, s, steps[0]);
      RunIsPushes(address, s1, steps[1..]);
      PushAllConcat(SettledFiles(address, s), PushOf(address, s, steps[0]), Pushes(address, s1, steps[1..]));
    }
  }

  // The pushes of one call.

  /** The pushes of call t to volumes. */
  function Own(ps: seq<Push>, t: Tid): seq<seq<Byte>>
    decreases |ps|
  {
    if ps == [] then []
    else (if ps[0].from == t && ps[0].key.path.Volume? then [ps[0].bytes] else []) + Own(ps[1..], t)
  }

  lemma {:induction false} OwnConcat(a: seq<Push>, b: seq<Push>, t: Tid)
    ensures Own(a + b, t) == Own(a, t) + Own(b, t)
    decreases |a|
  {
    if a == [] {
      assert a + b == b;
    } else {
      assert (a + b)[0] == a[0] && (a + b)[1..] == a[1..] + b;
      OwnConcat(a[1..], b, t);
    }
  }

  /** What a call pushes, from some point on: it may still create its volume, and it may
      add its payload if it succeeds, some beginning of it if it fails. */
  ghost predicate IsOwn(own: seq<seq<Byte>>, mayOpen: bool, mayFinish: bool, c: Call) {
    || own == []
    || (mayOpen && own == [[]])
    || (mayFinish && IsEnd(own, c))
    || (mayOpen && |own| == 2 && own[0] == [] && IsEnd(own[1..], c))
  }

  ghost predicate IsEnd(own: seq<seq<Byte>>, c: Call) {
    |own| == 1 && own[0] <= c.payload && (c.result.Some? ==> own[0] == c.payload)
  }

  predicate MayOpen(s: State, t: Tid) {
    t !in s.calls || s.calls[t].phase.Called? || s.calls[t].phase.Waiting? || s.calls[t].phase.Locked?
  }

  predicate MayFinish(s: State, t: Tid) {
    t in s.calls && (s.calls[t].phase.Opened? || s.calls[t].phase.Copying?)
  }

  lemma OwnIs(address: string, s: State, step: Step, t: Tid)
    requires Enabled(s, step)
    ensures Own(PushOf(address, s, step), t) ==
      if step.t != t then []
      else if step.Open? && step.ok then [[]]
      else if step.Finish? then [Added(s, step, s.calls[step.t].namespace)]
      else []
  {}

  lemma FinishEnds(s: State, t: Tid, ok: bool)
    requires Valid(s) && Enabled(s, Finish(t, ok))
    ensures IsEnd([Added(s, Finish(t, ok), s.calls[t].namespace)], After(s, Finish(t, ok)))
  {
    assert CopyOk(s.volumes, s.calls[t]);
    hide Valid;
  }

  lemma OwnOfStep(address: string, s: State, step: Step, t: Tid)
    requires Valid(s) && Enabled(s, step)
    ensures var own, s' := Own(PushOf(address, s, step), t), Apply(s, step);
      if step.t != t then own == [] && (MayOpen(s', t) <==> MayOpen(s, t)) && (MayFinish(s', t) <==> MayFinish(s, t))
      else if step.Open? && step.ok then own == [[]] && MayOpen(s, t) && MayFinish(s', t)
      else if step.Finish? then
        MayFinish(s, t) && t in s'.calls && s'.calls[t].phase.Closing? && IsEnd(own, s'.calls[t])
      else own == [] && (MayOpen(s', t) ==> MayOpen(s, t)) && (MayFinish(s', t) ==> MayFinish(s, t))
  {
    hide Valid, Apply, PushOf, Own, IsEnd, Added;
    OwnIs(address, s, step, t);
    if step.Finish? {
      FinishEnds(s, step.t, step.ok);
    }
    CallsAfter(s, step);
  }

  lemma {:induction false} OwnOfRun(address: string, s: State, steps: seq<Step>, t: Tid)
    requires Valid(s) && Legal(s, steps) && t in Run(s, steps).calls
    ensures IsOwn(Own(Pushes(address, s, steps), t), MayOpen(s, t), MayFinish(s, t), Run(s, steps).calls[t])
    decreases |steps|
  {
    hide Valid, Apply, Enabled, PushOf;
    if steps != [] {
      var s1, s2 := Apply(s, steps[0]), Run(s, steps);
      StepKeepsValid(s, steps[0]);
      OwnOfStep(address, s, steps[0], t);
      OwnOfRun(address, s1, steps[1..], t);
      OwnConcat(PushOf(address, s, steps[0]), Pushes(address, s1, steps[1..]), t);
      if t in s1.calls {
        RunContinues(s1, steps[1..], t);
      }
    }
  }

  /** A call that is not under way yet pushes at most twice: nothing, to create its
      volume, and then its payload, or some beginning of it if it fails. */
  lemma CallPushesOnce(address: string, s: State, steps: seq<Step>, t: Tid)
    requires Valid(s) && Legal(s, steps) && t !in s.calls && t in Run(s, steps).calls
    ensures IsOwn(Own(Pushes(address, s, steps), t), true, false, Run(s, steps).calls[t])
  {
    OwnOfRun(address, s, steps, t);
  }

  /** A call that succeeds in the course of a run is one of its pushes, of the whole
      payload, to the end of the file, which is the offset that the call returns. */
  ghost predicate IsPushedAt(files: Files, ps: seq<Push>, k: nat, push: Push, offset: nat) {
    k < |ps| && ps[k] == push && UP.OffsetOf(PushAll(files, ps[..k]), push.key) == offset
  }

  lemma {:induction false} ResultIsPush(address: string, s: State, steps: seq<Step>, t: Tid) returns (k: nat)
    requires Valid(s) && Legal(s, steps) && t in Run(s, steps).calls && Run(s, steps).calls[t].result.Some?
    requires t in s.calls ==> s.calls[t].result.None?
    ensures var c := Run(s, steps).calls[t];
      IsPushedAt(SettledFiles(address, s), Pushes(address, s, steps), k,
        Push(t, VolumeKey(address, c.namespace), c.payload), c.result.value.offset)
    decreases |steps|
  {
    hide Valid, Apply, Enabled, PushOf, SettledFiles, UP.OffsetOf;
    var s1, s2 := Apply(s, steps[0]), Run(s, steps);
    var first, rest := PushOf(address, s, steps[0]), Pushes(address, s1, steps[1..]);
    StepKeepsValid(s, steps[0]);
    if t in s1.calls && s1.calls[t].result.Some? {
      FirstResult(address, s, steps[0], t);
      RunContinues(s1, steps[1..], t);
      k := 0;
      assert Pushes(address, s, steps)[..0] == [];
    } else {
      var j := ResultIsPush(address, s1, steps[1..], t);
      StepIsPush(address, s, steps[0]);
      PushAllConcat(SettledFiles(address, s), first, rest[..j]);
      k := |first| + j;
      assert (first + rest)[..k] == first + rest[..j];
    }
  }

  lemma ResultsComeFromFinish(s: State, step: Step, t: Tid)
    requires Enabled(s, step) && (t in s.calls ==> s.calls[t].result.None?)
    requires t in Apply(s, step).calls && Apply(s, step).calls[t].result.Some?
    ensures step == Finish(t, true) && Apply(s, step).calls[t] == After(s, step)
  {
    hide Apply;
    CallsAfter(s, step);
  }

  lemma SettledOffset(address: string, s: State, namespace: string)
    ensures UP.OffsetOf(SettledFiles(address, s), VolumeKey(address, namespace)) == |Settled(s, namespace)|
  {
    AbsentIsEmpty(s);
    hide Settled, FilesOf;
    FilesOfAt(address, SettledVolumes(s), s.chunks, VolumeKey(address, namespace));
  }

  lemma FirstResult(address: string, s: State, step: Step, t: Tid)
    requires Valid(s) && Enabled(s, step) && (t in s.calls ==> s.calls[t].result.None?)
    requires t in Apply(s, step).calls && Apply(s, step).calls[t].result.Some?
    ensures var c := Apply(s, step).calls[t];
      && c.phase.Closing?
      && PushOf(address, s, step) == [Push(t, VolumeKey(address, c.namespace), c.payload)]
      && UP.OffsetOf(SettledFiles(address, s), VolumeKey(address, c.namespace)) == c.result.value.offset
  {
    hide Valid, Apply, Settled, SettledFiles, UP.OffsetOf, Added;
    ResultsComeFromFinish(s, step, t);
    AppendsAreAtomic(s, step, s.calls[t].namespace);
    SettledOffset(address, s, s.calls[t].namespace);
  }

  // Creating a volume is a push of nothing, which nobody sees.

  function Content(files: Files, key: FileKey): seq<Byte> {
    if key in files then files[key] else []
  }

  ghost predicate SameContent(a: Files, b: Files) {
    forall key: FileKey :: Content(a, key) == Content(b, key)
  }

  function WithoutOpenings(ps: seq<Push>): seq<Push>
    decreases |ps|
  {
    if ps == [] then []
    else (if ps[0].key.path.Volume? && ps[0].bytes == [] then [] else [ps[0]]) + WithoutOpenings(ps[1..])
  }

  lemma WrittenContent(a: Files, b: Files, push: Push)
    requires SameContent(a, b)
    ensures SameContent(UP.Written(a, push.key, push.bytes), UP.Written(b, push.key, push.bytes))
    ensures push.key.path.Volume? && push.bytes == [] ==> SameContent(UP.Written(a, push.key, push.bytes), b)
  {
    var a', b' := UP.Written(a, push.key, push.bytes), UP.Written(b, push.key, push.bytes);
    assert Content(a, push.key) == Content(b, push.key);
    forall key ensures Content(a', key) == Content(b', key)
      ensures push.key.path.Volume? && push.bytes == [] ==> Content(a', key) == Content(b, key)
    {
      assert Content(a, key) == Content(b, key);
    }
  }

  /** Leaving out the creation of volumes changes no read and no offset. */
  lemma {:induction false} OpeningsDoNotMatter(files: Files, files': Files, ps: seq<Push>, loc: Location, key: FileKey)
    requires SameContent(files, files')
    ensures var a, b := PushAll(files, ps), PushAll(files', WithoutOpenings(ps));
      SameContent(a, b) && Fetch(a, loc) == Fetch(b, loc) && UP.OffsetOf(a, key) == UP.OffsetOf(b, key)
    decreases |ps|
  {
    hide UP.Written;
    if ps == [] {
      assert Content(files, loc.Key()) == Content(files', loc.Key()) && Content(files, key) == Content(files', key);
    } else {
      WrittenContent(files, files', ps[0]);
      var files1 := UP.Written(files, ps[0].key, ps[0].bytes);
      if ps[0].key.path.Volume? && ps[0].bytes == [] {
        OpeningsDoNotMatter(files1, files', ps[1..], loc, key);
        assert [] + WithoutOpenings(ps[1..]) == WithoutOpenings(ps[1..]);
      } else {
        var rest := WithoutOpenings(ps[1..]);
        OpeningsDoNotMatter(files1, UP.Written(files', ps[0].key, ps[0].bytes), ps[1..], loc, key);
        assert ([ps[0]] + rest)[0] == ps[0] && ([ps[0]] + rest)[1..] == rest;
      }
    }
  }

  // Reading.

  lemma SettledIsBeginning(s: State)
    ensures Grows(SettledVolumes(s), s.volumes)
  {}

  lemma FilesGrow(address: string, volumes: Volumes, volumes': Volumes, chunks: Chunks, chunks': Chunks)
    requires Grows(volumes, volumes') && forall c :: c in chunks ==> c in chunks' && chunks[c] <= chunks'[c]
    ensures CS.Grows(FilesOf(address, volumes, chunks), FilesOf(address, volumes', chunks'))
  {
    hide FilesOf;
    var a, b := FilesOf(address, volumes, chunks), FilesOf(address, volumes', chunks');
    forall key | key in a ensures key in b && a[key] <= b[key] {
      FilesOfAt(address, volumes, chunks, key);
      FilesOfAt(address, volumes', chunks', key);
    }
  }

  lemma ExtendedGrows(volumes: Volumes, namespace: string, bytes: seq<Byte>)
    ensures Grows(volumes, Extended(volumes, namespace, bytes))
  {}

  lemma StepExtends(address: string, s: State, step: Step)
    requires Valid(s) && Enabled(s, step)
    ensures CS.Grows(SettledFiles(address, s), SettledFiles(address, Apply(s, step)))
  {
    hide Valid, Apply, SettledVolumes, FilesOf, Added, Extended;
    SettledByStep(s, step);
    ChunksAfter(s, step);
    if step.Open? || step.Finish? {
      var namespace := s.calls[step.t].namespace;
      ExtendedGrows(SettledVolumes(s), namespace, Added(s, step, namespace));
      ExtendedGrows(SettledVolumes(s), namespace, []);
    }
    FilesGrow(address, SettledVolumes(s), SettledVolumes(Apply(s, step)), s.chunks, Apply(s, step).chunks);
  }

  lemma ChunksAfter(s: State, step: Step)
    requires Enabled(s, step)
    ensures forall c :: c in s.chunks ==> c in Apply(s, step).chunks && s.chunks[c] <= Apply(s, step).chunks[c]
  {}

  lemma {:induction false} RunExtends(address: string, s: State, steps: seq<Step>)
    requires Valid(s) && Legal(s, steps)
    ensures CS.Grows(SettledFiles(address, s), SettledFiles(address, Run(s, steps)))
    decreases |steps|
  {
    hide Valid, Apply, Enabled, SettledFiles;
    if steps != [] {
      hide CS.Grows;
      var s1 := Apply(s, steps[0]);
      StepKeepsValid(s, steps[0]);
      StepExtends(address, s, steps[0]);
      RunExtends(address, s1, steps[1..]);
      Durability.GrowthComposes(SettledFiles(address, s), SettledFiles(address, s1),
        SettledFiles(address, Run(s, steps)));
    }
  }

  /** Among all files, those of one worker have the given contents. A volume that an
      append has created but not filled yet may be missing. */
  ghost predicate HasLocal(files: Files, address: string, local: Files) {
    forall key: FileKey :: key.address == address ==>
      Content(files, key) == Content(local, key) && (key in files ==> key in local)
  }

  lemma LocalGrowth(files: Files, address: string, local: Files, actual: Files, loc: Location)
    requires HasLocal(files, address, local) && CS.Grows(local, actual) && loc.address == address
    requires forall key :: key in actual ==> key.address == address
    ensures CS.Grows(files, files + actual)
    ensures Fetch(files + actual, loc) == Fetch(actual, loc)
  {
    forall key | key in files ensures files[key] <= (files + actual)[key] {
      assert key.address == address ==> Content(files, key) == Content(local, key) && key in local;
    }
    var key := loc.Key();
    assert key in files + actual <==> key in actual;
  }

  lemma FilesAreLocal(address: string, volumes: Volumes, chunks: Chunks)
    ensures forall key :: key in FilesOf(address, volumes, chunks) ==> key.address == address
  {
    hide FilesOf;
    forall key | key in FilesOf(address, volumes, chunks) ensures key.address == address {
      FilesOfAt(address, volumes, chunks, key);
    }
  }

  /** A read takes no lock and may see bytes of copies that are going on. All the same it
      answers from the files that the protocol knows, as they are or will be. */
  lemma ReadsAnswerFromFiles(address: string, s: State, steps: seq<Step>, s': State, files: Files,
      ans: Retrieval.Answers, loc: Location)
    requires Valid(s) && Leads(s, steps, s') && loc.address == address
    requires HasLocal(files, address, SettledFiles(address, s))
    requires ans(loc) == Fetch(FilesOf(address, s'.volumes, s'.chunks), loc)
    ensures Durability.AnswersFromFiles(files, ans, loc)
  {
    hide Valid, SettledFiles, FilesOf, HasLocal, Fetch, CS.Grows, Settled, Run, Legal;
    var settled, actual := SettledFiles(address, s'), FilesOf(address, s'.volumes, s'.chunks);
    RunExtends(address, s, steps);
    SettledIsLess(address, s');
    Durability.GrowthComposes(SettledFiles(address, s), settled, actual);
    FilesAreLocal(address, s'.volumes, s'.chunks);
    LocalGrowth(files, address, SettledFiles(address, s), actual, loc);
  }

  lemma SettledIsLess(address: string, s: State)
    ensures CS.Grows(SettledFiles(address, s), FilesOf(address, s.volumes, s.chunks))
  {
    SettledIsBeginning(s);
    hide FilesOf, SettledVolumes;
    FilesGrow(address, SettledVolumes(s), s.volumes, s.chunks, s.chunks);
  }

  // One request.

  /** What a request to append may push: nothing, its volume's creation, and then some
      beginning of the data. */
  ghost predicate IsAppend(own: seq<seq<Byte>>, data: seq<Byte>) {
    own == [] || own == [[]] || (|own| == 2 && own[0] == [] && own[1] <= data)
  }

  /** Among pushes of others, request t pushed the data to the end of the file. */
  ghost predicate IsPushed(before: Files, after: Files, t: Tid, key: FileKey, data: seq<Byte>, offset: nat) {
    exists ps: seq<Push>, k: nat ::
      && PushAll(before, ps) == after && IsPushedAt(before, ps, k, Push(t, key, data), offset)
      && IsAppend(Own(ps, t), data)
  }

  /** Among pushes of others, request t pushed some beginning of the data, or nothing. */
  ghost predicate IsPushedInPart(before: Files, after: Files, t: Tid, data: seq<Byte>) {
    exists ps: seq<Push> :: PushAll(before, ps) == after && IsAppend(Own(ps, t), data)
  }

  lemma CallIsPush(address: string, s: State, s': State, t: Tid, data: seq<Byte>)
    requires Valid(s) && Evolves(s, s') && t !in s.calls && t in s'.calls && s'.calls[t].payload <= data
    ensures IsPushedInPart(SettledFiles(address, s), SettledFiles(address, s'), t, data)
    ensures var c := s'.calls[t];
      c.result.Some? && c.payload == data ==>
        IsPushed(SettledFiles(address, s), SettledFiles(address, s'), t, VolumeKey(address, c.namespace), data,
          c.result.value.offset)
  {
    hide Valid, Legal, Run, SettledFiles, PushAll, IsPushedAt, Own;
    var steps: seq<Step> :| Leads(s, steps, s');
    var ps := Pushes(address, s, steps);
    RunIsPushes(address, s, steps);
    CallPushesOnce(address, s, steps, t);
    assert IsAppend(Own(ps, t), data);
    if s'.calls[t].result.Some? {
      var k := ResultIsPush(address, s, steps, t);
    }
  }

  lemma PushedBytesAreThere(before: Files, ps: seq<Push>, k: nat, push: Push, offset: nat)
    requires IsPushedAt(before, ps, k, push, offset) && push.key.path.Volume?
    ensures Holds(PushAll(before, ps[..k + 1]), push.key, offset, push.bytes)
  {
    assert ps[..k + 1] == ps[..k] + [push];
    PushAllConcat(before, ps[..k], [push]);
    var files := PushAll(before, ps[..k]);
    assert [push][1..] == [];
    assert PushAll(files, [push]) == UP.Written(files, push.key, push.bytes);
  }

  ghost predicate Holds(files: Files, key: FileKey, offset: nat, data: seq<Byte>) {
    key in files && offset + |data| <= |files[key]| && files[key][offset..offset + |data|] == data
  }

  /** Pushes to a volume never take away from it. */
  lemma {:induction false} HeldStays(files: Files, ps: seq<Push>, key: FileKey, offset: nat, data: seq<Byte>)
    requires Holds(files, key, offset, data) && key.path.Volume?
    ensures Holds(PushAll(files, ps), key, offset, data)
    decreases |ps|
  {
    if ps != [] {
      HeldStays(UP.Written(files, ps[0].key, ps[0].bytes), ps[1..], key, offset, data);
    }
  }

  /** What was pushed to a volume is there, at its offset. */
  lemma PushedIsHeld(before: Files, after: Files, t: Tid, key: FileKey, data: seq<Byte>, offset: nat)
    requires IsPushed(before, after, t, key, data, offset) && key.path.Volume?
    ensures Holds(after, key, offset, data)
  {
    hide Own, IsAppend;
    var ps: seq<Push>, k: nat :|
      && PushAll(before, ps) == after && IsPushedAt(before, ps, k, Push(t, key, data), offset)
      && IsAppend(Own(ps, t), data);
    PushedBytesAreThere(before, ps, k, Push(t, key, data), offset);
    hide UP.Written, UP.OffsetOf;
    assert ps == ps[..k + 1] + ps[k + 1..];
    PushAllConcat(before, ps[..k + 1], ps[k + 1..]);
    HeldStays(PushAll(before, ps[..k + 1]), ps[k + 1..], key, offset, data);
  }

  lemma HeldInMore(files: Files, files': Files, key: FileKey, offset: nat, data: seq<Byte>)
    requires Holds(files, key, offset, data) && CS.Grows(files, files')
    ensures Holds(files', key, offset, data)
  {
    assert files[key] == files'[key][..|files[key]|];
    assert files'[key][offset..offset + |data|] == files[key][offset..offset + |data|];
  }

  lemma NothingIsPushed(files: Files, t: Tid, data: seq<Byte>)
    ensures IsPushedInPart(files, files, t, data)
  {
    assert PushAll(files, []) == files && IsAppend(Own([], t), data);
  }

  lemma BeginningIsPushedInPart(before: Files, after: Files, t: Tid, sent: seq<Byte>, data: seq<Byte>)
    requires IsPushedInPart(before, after, t, sent) && sent <= data
    ensures IsPushedInPart(before, after, t, data)
  {}

  lemma SettledIgnoresChunks(s: State, chunks: Chunks)
    ensures SettledVolumes(s.(chunks := chunks)) == SettledVolumes(s)
  {}
}
