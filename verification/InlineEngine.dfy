/** The append-only volumes of the inline engine. */
module InlineEngine {
  import opened Wrappers
  import opened Gf256
  import opened ClusterRoot
  import opened WorkerProtocol

  datatype WriteError = StillWaiting | OpenFailed | StatFailed | StreamFailed

  class InlineEngine {
    /** The files, which are shared with the block engine and with all requests. */
    const root: ClusterRoot
    /** The mutex of each namespace, who holds which, and the calls that were made. */
    var mutexes: map<string, Mutex>
    var nextMutex: Mutex
    var owner: map<Mutex, Tid>
    var calls: map<Tid, Call>

    constructor (root: ClusterRoot)
      ensures this.root == root && State() == Started(root.volumes, root.chunks) && Valid(State())
    {
      this.root := root;
      mutexes, nextMutex, owner, calls := map[], 0, map[], map[];
      new;
      StartedIsValid(root.volumes, root.chunks);
    }

    function State(): State
      reads this, root
    {
      WorkerProtocol.State(mutexes, nextMutex, owner, root.volumes, root.chunks, calls)
    }

    /** Call t waits for the namespace's mutex, which another call holds. */
    predicate Waits(t: Tid, namespace: string)
      reads this
    {
      && namespace in mutexes && mutexes[namespace] in owner
      && t in calls && calls[t].phase == Waiting(mutexes[namespace])
    }

    /** The place of any steps of other requests, to either engine. Only what it ensures
        is known to its callers; the body is the quiet case. */
    method Others(t: Tid)
      modifies this, root
      ensures OthersEvolve(old(State()), State(), t)
    {
      NothingHappens(State(), t);
    }

    /** Whatever the other requests do while call t does nothing. */
    method Wait(t: Tid, ghost start: State)
      requires Valid(State()) && Evolves(start, State()) && t in calls
      modifies this, root
      ensures Valid(State()) && Evolves(start, State()) && t in calls && calls[t] == old(calls[t])
    {
      hide Valid, Evolves, OthersEvolve;
      ghost var before := State();
      Others(t);
      OthersEvolution(before, State(), t);
      EvolvesOn(start, before, State());
    }

    /** One atomic action, and whatever the other requests do before the next. */
    method Act(step: Step, ghost after: Call, ghost start: State)
      requires Valid(State()) && Evolves(start, State()) && Enabled(State(), step)
      requires step.t in Apply(State(), step).calls && Apply(State(), step).calls[step.t] == after
      modifies this, root
      ensures Valid(State()) && Evolves(start, State()) && step.t in calls && calls[step.t] == after
    {
      hide Valid, Apply, Enabled, Evolves;
      ghost var before := State();
      StepKeepsValid(before, step);
      OneStep(before, step);
      var s := Apply(State(), step);
      mutexes, nextMutex, owner, calls := s.mutexes, s.nextMutex, s.owner, s.calls;
      root.volumes, root.chunks := s.volumes, s.chunks;
      assert State() == s;
      EvolvesOn(start, before, s);
      Wait(step.t, start);
    }

    /** getMutex and Lock. Lock waits while the mutex is taken; the others go on
        meanwhile, for any number of rounds. */
    method Acquire(t: Tid, namespace: string, reader: seq<Byte>, ghost start: State) returns (mu: Mutex, acquired: bool)
      requires Valid(State()) && Evolves(start, State()) && t !in calls
      modifies this, root
      ensures Valid(State()) && Evolves(start, State()) && t in calls
      ensures calls[t] == Call(namespace, reader, if acquired then Locked(mu) else Waiting(mu), None)
      ensures acquired || Waits(t, namespace)
    {
      hide Valid, Evolves;
      Act(Begin(t, namespace, reader), Call(namespace, reader, Called, None), start);
      mu := if namespace in mutexes then mutexes[namespace] else nextMutex;
      Act(GetMutex(t), Call(namespace, reader, Waiting(mu), None), start);
      var rounds: nat := *;
      while mu in owner && rounds > 0
        invariant Valid(State()) && Evolves(start, State()) && t in calls
        invariant calls[t] == Call(namespace, reader, Waiting(mu), None)
        decreases rounds
      {
        Wait(t, start);
        rounds := rounds - 1;
      }
      acquired := mu !in owner;
      WaitingForIts(State(), t);
      if acquired {
        Act(Lock(t), Call(namespace, reader, Locked(mu), None), start);
      }
    }

    /** StreamWrite, as call t. On success the range returned is the call's own and has
        the length of everything that was read; a failure leaves no range. A call that
        is never let in by Lock does not return, which shows here as StillWaiting. */
    method StreamWrite(t: Tid, namespace: string, reader: seq<Byte>) returns (r: Result<Range, WriteError>)
      requires Valid(State()) && t !in calls
      modifies this, root, root.outages
      ensures root.outages.attempts >= old(root.outages.attempts)
      ensures root.outages.Calm(old(root.outages.attempts)) ==> r.Success? || r == Failure(StillWaiting)
      ensures r == Failure(StillWaiting) ==> Waits(t, namespace)
      ensures Valid(State()) && Evolves(old(State()), State()) && t in calls
      ensures calls[t].namespace == namespace && calls[t].payload == reader
      ensures r.Success? ==> calls[t].result == Some(r.value) && r.value.written == |reader|
      ensures r.Success? ==> ReadRange(root.volumes, namespace, r.value) == reader
      ensures r.Failure? ==> calls[t].result == None
      ensures if r == Failure(StillWaiting) then calls[t].phase.Waiting? else calls[t].phase.Returned?
    {
      hide Valid, Evolves;
      ghost var start := State();
      NothingHappens(start, t);
      var mu, acquired := Acquire(t, namespace, reader, start);
      if !acquired {
        return Failure(StillWaiting);
      }
      var ok := root.outages.Attempt();
      Act(Open(t, ok), Call(namespace, reader, if ok then Opened(mu) else Closing(mu), None), start);
      if !ok {
        Act(Unlock(t), Call(namespace, reader, Returned, None), start);
        return Failure(OpenFailed);
      }
      OpenedVolumeExists(State(), t);
      ok := root.outages.Attempt();
      var offset := |root.volumes[namespace]|;
      Act(Stat(t, ok), Call(namespace, reader, if ok then Copying(mu, offset, 0) else Closing(mu), None), start);
      if !ok {
        Act(Unlock(t), Call(namespace, reader, Returned, None), start);
        return Failure(StatFailed);
      }
      r := CopyAll(t, namespace, reader, mu, offset, start);
    }

    /** io.Copy, Sync and the deferred Unlock. */
    method CopyAll(t: Tid, namespace: string, reader: seq<Byte>, mu: Mutex, offset: nat, ghost start: State)
      returns (r: Result<Range, WriteError>)
      requires Valid(State()) && Evolves(start, State()) && t in calls
      requires calls[t] == Call(namespace, reader, Copying(mu, offset, 0), None)
      modifies this, root, root.outages
      ensures root.outages.attempts >= old(root.outages.attempts)
      ensures root.outages.Calm(old(root.outages.attempts)) ==> r.Success?
      ensures Valid(State()) && Evolves(start, State()) && t in calls && calls[t].phase.Returned?
      ensures calls[t].namespace == namespace && calls[t].payload == reader
      ensures r.Success? ==> calls[t].result == Some(r.value) && r.value == Range(offset, |reader|)
      ensures r.Success? ==> ReadRange(root.volumes, namespace, r.value) == reader
      ensures r.Failure? ==> calls[t].result == None && r.error == StreamFailed
    {
      hide Valid, Evolves;
      var written := 0;
      var ok := true;
      while ok && written < |reader|
        invariant Valid(State()) && Evolves(start, State()) && t in calls && written <= |reader|
        invariant calls[t] == Call(namespace, reader, Copying(mu, offset, written), None)
        invariant root.outages.attempts >= old(root.outages.attempts)
        invariant root.outages.Calm(old(root.outages.attempts)) ==> ok
        decreases |reader| - written, ok
      {
        ok := root.outages.Attempt();
        if ok {
          var n: nat :| 0 < n <= |reader| - written;
          OpenedVolumeExists(State(), t);
          Act(Copy(t, n), Call(namespace, reader, Copying(mu, offset, written + n), None), start);
          written := written + n;
        }
      }
      var synced := root.outages.Attempt();
      ok := ok && synced;
      var result := if ok then Some(Range(offset, written)) else None;
      Act(Finish(t, ok), Call(namespace, reader, Closing(mu), result), start);
      Act(Unlock(t), Call(namespace, reader, Returned, result), start);
      RangeHoldsPayload(State(), t);
      return if ok then Success(Range(offset, written)) else Failure(StreamFailed);
    }
  }
}
