/** Choosing the machines that take a chunk. */
module Placement {
  import opened Wrappers
  import opened Catalog
  import opened Sequences
  import opened Shuffling

  /** A machine, the disc behind it and the worker that serves it. */
  datatype Target = Target(machine: Id, namespace: string, kind: MachineType, disc: Id, worker: Id,
    address: string, freeMB: int)

  function FreeMB(top: Topology, d: Id): int
    requires d in top.discs
  {
    top.discs[d].capacityMB - top.discs[d].usedMB
  }

  /** The inner join of a disc with its machine and that machine's worker. */
  predicate Joins(top: Topology, d: Id) {
    && d in top.discs
    && top.discs[d].machine in top.machines
    && top.machines[top.discs[d].machine].worker in top.workers
  }

  function TargetOf(top: Topology, d: Id): Target
    requires Joins(top, d)
  {
    var m := top.discs[d].machine;
    var machine := top.machines[m];
    Target(m, machine.namespace, machine.kind, d, machine.worker, top.workers[machine.worker].address, FreeMB(top, d))
  }

  /** The WHERE clause of the candidates query. */
  predicate IsEligible(top: Topology, kind: MachineType, requiredMB: int, d: Id) {
    && Joins(top, d)
    && var machine := top.machines[top.discs[d].machine];
    && !machine.deleted
    && !top.workers[machine.worker].deleted
    && top.workers[machine.worker].active
    && top.discs[d].active
    && machine.kind == kind
    && FreeMB(top, d) >= requiredMB
  }

  function Eligible(top: Topology, kind: MachineType, requiredMB: int): (s: set<Id>)
    ensures forall d :: d in s <==> IsEligible(top, kind, requiredMB, d)
  {
    set d | d in top.discs && IsEligible(top, kind, requiredMB, d)
  }

  /** Targets drawn from a set of discs, each disc at most once. */
  ghost predicate Draws(top: Topology, ts: seq<Target>, ds: set<Id>) {
    && (forall i :: 0 <= i < |ts| ==> ts[i].disc in ds && Joins(top, ts[i].disc) && ts[i] == TargetOf(top, ts[i].disc))
    && (forall i, j :: 0 <= i < j < |ts| ==> ts[i].disc != ts[j].disc)
  }

  ghost predicate IsChosen(ts: seq<Target>, d: Id) {
    exists i :: 0 <= i < |ts| && ts[i].disc == d
  }

  ghost predicate EmptiestFirst(ts: seq<Target>) {
    forall i, j :: 0 <= i < j < |ts| ==> ts[i].freeMB >= ts[j].freeMB
  }

  /** A result of the candidates query: all eligible discs, the emptiest first, with ties
      in any order. */
  ghost predicate IsCandidateList(top: Topology, kind: MachineType, requiredMB: int, ts: seq<Target>) {
    && Draws(top, ts, Eligible(top, kind, requiredMB))
    && (forall d :: d in Eligible(top, kind, requiredMB) ==> IsChosen(ts, d))
    && EmptiestFirst(ts)
  }

  /** No eligible disc that was passed over has more free space. */
  ghost predicate NoneEmptier(top: Topology, kind: MachineType, requiredMB: int, ts: seq<Target>, t: Target) {
    forall d :: d in Eligible(top, kind, requiredMB) && !IsChosen(ts, d) ==> FreeMB(top, d) <= t.freeMB
  }

  /** What SelectMachinesForEC returns: count eligible targets on different discs, the
      first half of which are the emptiest. */
  ghost predicate IsSelection(top: Topology, kind: MachineType, requiredMB: int, count: nat, ts: seq<Target>) {
    && |ts| == count
    && Draws(top, ts, Eligible(top, kind, requiredMB))
    && forall i :: 0 <= i < count / 2 ==> NoneEmptier(top, kind, requiredMB, ts, ts[i])
  }

  /** What SelectMachine returns: an eligible target, and none is emptier. */
  ghost predicate IsBest(top: Topology, kind: MachineType, requiredMB: int, t: Target) {
    IsSelection(top, kind, requiredMB, 1, [t]) && NoneEmptier(top, kind, requiredMB, [t], t)
  }

  /** The target names a disc that is switched on and has the space, its machine, which is
      of the kind and not deleted, and the machine's worker, which is active and not
      deleted. */
  ghost predicate Qualifies(top: Topology, kind: MachineType, requiredMB: int, t: Target) {
    && t.disc in top.discs && t.machine in top.machines && t.worker in top.workers
    && var disc, machine, worker := top.discs[t.disc], top.machines[t.machine], top.workers[t.worker];
    && disc.machine == t.machine && machine.worker == t.worker
    && t.kind == machine.kind == kind && t.namespace == machine.namespace && t.address == worker.address
    && disc.active && worker.active && !machine.deleted && !worker.deleted
    && t.freeMB == disc.capacityMB - disc.usedMB >= requiredMB
  }

  /** The discs that a chunk of so many megabytes can go to, on the tables. */
  ghost function Serving(top: Topology, kind: MachineType, requiredMB: int): set<Id> {
    set d |
      && d in top.discs && top.discs[d].active && top.discs[d].machine in top.machines
      && var machine := top.machines[top.discs[d].machine];
      && machine.kind == kind && !machine.deleted && machine.worker in top.workers
      && top.workers[machine.worker].active && !top.workers[machine.worker].deleted
      && top.discs[d].capacityMB - top.discs[d].usedMB >= requiredMB
  }

  lemma QueryFindsServing(top: Topology, kind: MachineType, requiredMB: int)
    ensures Eligible(top, kind, requiredMB) == Serving(top, kind, requiredMB)
  {}

  lemma DrawnQualify(top: Topology, kind: MachineType, requiredMB: int, ts: seq<Target>)
    requires Draws(top, ts, Eligible(top, kind, requiredMB))
    ensures forall t :: t in ts ==> Qualifies(top, kind, requiredMB, t)
  {}

  predicate OneDiscPerMachine(top: Topology) {
    forall d, e :: d in top.discs && e in top.discs && top.discs[d].machine == top.discs[e].machine ==> d == e
  }

  predicate NamespacesUnique(top: Topology) {
    forall m, n :: m in top.machines && n in top.machines && top.machines[m].namespace == top.machines[n].namespace ==>
      m == n
  }

  /** What BuildTopology establishes. */
  predicate IsCluster(top: Topology) {
    top.Linked() && OneDiscPerMachine(top) && NamespacesUnique(top)
  }

  /** With one disc per machine, different discs are on different machines. */
  lemma SelectionOnDistinctMachines(top: Topology, kind: MachineType, requiredMB: int, count: nat, ts: seq<Target>)
    requires OneDiscPerMachine(top) && IsSelection(top, kind, requiredMB, count, ts)
    ensures forall i, j :: 0 <= i < j < |ts| ==> ts[i].machine != ts[j].machine
  {}

  // The queries.

  datatype PlacementError = NotEnoughMachines(need: nat, have: nat)

  lemma {:induction false} HasEmptiest(top: Topology, ds: set<Id>) returns (m: Id)
    requires ds != {} && forall d :: d in ds ==> d in top.discs
    ensures m in ds && forall d :: d in ds ==> FreeMB(top, d) <= FreeMB(top, m)
  {
    m :| m in ds;
    if ds != {m} {
      var n := HasEmptiest(top, ds - {m});
      m := if FreeMB(top, n) > FreeMB(top, m) then n else m;
    }
  }

  lemma EligibleJoin(top: Topology, kind: MachineType, requiredMB: int)
    ensures forall d :: d in Eligible(top, kind, requiredMB) ==> Joins(top, d)
  {}

  /** The candidates query; discs with the same free space come in any order. */
  method Candidates(top: Topology, kind: MachineType, requiredMB: int) returns (out: seq<Target>)
    ensures IsCandidateList(top, kind, requiredMB, out)
    ensures forall t :: t in out ==> Qualifies(top, kind, requiredMB, t)
    ensures |out| == |Serving(top, kind, requiredMB)|
    ensures forall d :: d in Serving(top, kind, requiredMB) ==> IsChosen(out, d)
  {
    EligibleJoin(top, kind, requiredMB);
    hide Serving, Qualifies, Eligible, IsEligible;
    var rest := Eligible(top, kind, requiredMB);
    out := [];
    while rest != {}
      invariant rest <= Eligible(top, kind, requiredMB)
      invariant Draws(top, out, Eligible(top, kind, requiredMB) - rest)
      invariant forall d :: d in Eligible(top, kind, requiredMB) && d !in rest ==> IsChosen(out, d)
      invariant EmptiestFirst(out)
      invariant forall i, d :: 0 <= i < |out| && d in rest ==> FreeMB(top, d) <= out[i].freeMB
      decreases |rest|
    {
      ghost var m := HasEmptiest(top, rest);
      var d :| d in rest && forall e :: e in rest ==> FreeMB(top, e) <= FreeMB(top, d);
      ghost var before := out;
      out := out + [TargetOf(top, d)];
      rest := rest - {d};
      assert out[|before|].disc == d;
      forall e | e in Eligible(top, kind, requiredMB) && e !in rest ensures IsChosen(out, e) {
        if e != d {
          var i :| 0 <= i < |before| && before[i].disc == e;
          assert out[i].disc == e;
        }
      }
    }
    DrawnQualify(top, kind, requiredMB, out);
    CandidateCount(top, kind, requiredMB, out);
    QueryFindsServing(top, kind, requiredMB);
  }

  ghost predicate DistinctDiscs(ts: seq<Target>) {
    forall i, j :: 0 <= i < j < |ts| ==> ts[i].disc != ts[j].disc
  }

  lemma {:induction false} DiscCount(ts: seq<Target>)
    requires DistinctDiscs(ts)
    ensures |set i | 0 <= i < |ts| :: ts[i].disc| == |ts|
  {
    if ts != [] {
      var n := |ts| - 1;
      var init := ts[..n];
      DiscCount(init);
      assert (set i | 0 <= i < |ts| :: ts[i].disc) == (set i | 0 <= i < |init| :: init[i].disc) + {ts[n].disc};
    }
  }

  lemma CandidateCount(top: Topology, kind: MachineType, requiredMB: int, ts: seq<Target>)
    requires IsCandidateList(top, kind, requiredMB, ts)
    ensures |ts| == |Eligible(top, kind, requiredMB)|
  {
    DiscCount(ts);
    forall d ensures d in Eligible(top, kind, requiredMB) <==> d in set i | 0 <= i < |ts| :: ts[i].disc {
      if d in Eligible(top, kind, requiredMB) {
        assert IsChosen(ts, d);
      }
    }
    assert Eligible(top, kind, requiredMB) == set i | 0 <= i < |ts| :: ts[i].disc;
  }

  /** Shuffling in place, by the random draws. */
  method Shuffle(tail: array<Target>, draws: nat -> nat)
    modifies tail
    ensures tail[..] == Shuffled(old(tail[..]), tail.Length, draws)
  {
    hide Swap, Pick;
    var i := tail.Length - 1;
    while i > 0
      invariant -1 <= i < tail.Length
      invariant Shuffled(tail[..], i + 1, draws) == Shuffled(old(tail[..]), tail.Length, draws)
    {
      var j := Pick(draws, i + 1);
      ghost var before := tail[..];
      tail[i], tail[j] := tail[j], tail[i];
      SwapInPlace(before, tail[..], i, j);
      i := i - 1;
    }
  }

  /** A permutation of targets on different discs is on different discs. */
  lemma ShuffledStayDistinct(a: seq<Target>, b: seq<Target>)
    requires multiset(a) == multiset(b) && DistinctDiscs(a)
    ensures DistinctDiscs(b)
  {
    PermutationStaysDistinct(a, b);
    forall i, j | 0 <= i < j < |b| ensures b[i].disc != b[j].disc {
      var k := SameElements(b, a, i);
      var l := SameElements(b, a, j);
    }
  }

  ghost predicate IsFrom(cs: seq<Target>, lo: nat, t: Target) {
    exists k :: lo <= k < |cs| && cs[k] == t
  }

  lemma ShuffledAreFromTail(cs: seq<Target>, head: nat, tail: seq<Target>)
    requires head <= |cs| && multiset(tail) == multiset(cs[head..])
    ensures |tail| == |cs| - head
    ensures forall i :: 0 <= i < |tail| ==> IsFrom(cs, head, tail[i])
  {
    assert |tail| == |multiset(tail)| == |cs[head..]|;
    forall i | 0 <= i < |tail| ensures IsFrom(cs, head, tail[i]) {
      var k := SameElements(tail, cs[head..], i);
      assert cs[head + k] == tail[i];
    }
  }

  lemma HeadAndTailDistinct(cs: seq<Target>, head: nat, tail: seq<Target>)
    requires head <= |cs| && DistinctDiscs(cs) && DistinctDiscs(tail)
    requires forall i :: 0 <= i < |tail| ==> IsFrom(cs, head, tail[i])
    ensures DistinctDiscs(cs[..head] + tail)
  {}

  lemma HeadIsEmptiest(top: Topology, kind: MachineType, requiredMB: int, cs: seq<Target>, ts: seq<Target>, i: nat)
    requires IsCandidateList(top, kind, requiredMB, cs)
    requires i < |ts| && i < |cs| && ts[i] == cs[i]
    requires forall k :: 0 <= k <= i ==> ts[k] == cs[k]
    ensures NoneEmptier(top, kind, requiredMB, ts, ts[i])
  {}

  /** The emptiest half and any part of a shuffled rest make a selection. */
  lemma HeadAndTail(top: Topology, kind: MachineType, requiredMB: int, cs: seq<Target>, tail: seq<Target>, count: nat)
    requires IsCandidateList(top, kind, requiredMB, cs) && count <= |cs|
    requires multiset(tail) == multiset(cs[count / 2..])
    ensures count - count / 2 <= |tail|
    ensures IsSelection(top, kind, requiredMB, count, cs[..count / 2] + tail[..count - count / 2])
  {
    hide NoneEmptier, Eligible;
    var head := count / 2;
    ShuffledAreFromTail(cs, head, tail);
    ShuffledStayDistinct(cs[head..], tail);
    var part := tail[..count - head];
    var ts := cs[..head] + part;
    HeadAndTailDistinct(cs, head, part);
    forall i | 0 <= i < count ensures IsFrom(cs, 0, ts[i]) {
      if i < head {
        assert cs[i] == ts[i];
      } else {
        assert IsFrom(cs, head, tail[i - head]);
      }
    }
    forall i | 0 <= i < head ensures NoneEmptier(top, kind, requiredMB, ts, ts[i]) {
      HeadIsEmptiest(top, kind, requiredMB, cs, ts, i);
    }
  }

  /** What a selection is, on the tables. */
  lemma SelectionMeans(top: Topology, kind: MachineType, requiredMB: int, count: nat, ts: seq<Target>)
    requires IsSelection(top, kind, requiredMB, count, ts)
    ensures |ts| == count && DistinctDiscs(ts)
    ensures forall t :: t in ts ==> Qualifies(top, kind, requiredMB, t)
    ensures forall i, d :: 0 <= i < count / 2 && d in Serving(top, kind, requiredMB) && !IsChosen(ts, d) ==>
      top.discs[d].capacityMB - top.discs[d].usedMB <= ts[i].freeMB
  {
    DrawnQualify(top, kind, requiredMB, ts);
    QueryFindsServing(top, kind, requiredMB);
    hide Qualifies, Serving, Eligible, Draws, IsChosen;
    forall i, d | 0 <= i < count / 2 && d in Serving(top, kind, requiredMB) && !IsChosen(ts, d)
      ensures FreeMB(top, d) <= ts[i].freeMB
    {
      assert NoneEmptier(top, kind, requiredMB, ts, ts[i]);
    }
  }

  /** SelectMachinesForEC succeeds exactly if enough discs are eligible. The emptiest half
      is taken, and if there is a choice the draws decide about the rest. */
  method SelectMachinesForEC(top: Topology, count: nat, requiredMB: int, draws: nat -> nat)
    returns (r: Result<seq<Target>, PlacementError>, ghost cs: seq<Target>)
    ensures IsCandidateList(top, Block, requiredMB, cs)
    ensures r.Success? <==> |Serving(top, Block, requiredMB)| >= count
    ensures r.Failure? ==> r.error == NotEnoughMachines(count, |Serving(top, Block, requiredMB)|)
    ensures r.Success? ==> IsSelection(top, Block, requiredMB, count, r.value)
    ensures r.Success? ==> |r.value| == count && DistinctDiscs(r.value)
    ensures r.Success? ==> forall t :: t in r.value ==> Qualifies(top, Block, requiredMB, t)
    ensures r.Success? ==> |cs| >= count && r.value[..count / 2] == cs[..count / 2]
    ensures r.Success? && |cs| == count ==> r.value == cs
    ensures r.Success? && |cs| > count ==>
      r.value[count / 2..] == Shuffled(cs[count / 2..], |cs| - count / 2, draws)[..count - count / 2]
    ensures r.Success? ==> forall i, d ::
      0 <= i < count / 2 && d in Serving(top, Block, requiredMB) && !IsChosen(r.value, d) ==>
        top.discs[d].capacityMB - top.discs[d].usedMB <= r.value[i].freeMB
  {
    hide Eligible, Serving, Qualifies, EmptiestFirst, IsChosen, IsSelection, NoneEmptier, Draws, Shuffled;
    var candidates := Candidates(top, Block, requiredMB);
    cs := candidates;
    if |candidates| < count {
      return Failure(NotEnoughMachines(count, |candidates|)), cs;
    }
    if |candidates| == count {
      HeadAndTail(top, Block, requiredMB, candidates, candidates[count / 2..], count);
      assert candidates == candidates[..count / 2] + candidates[count / 2..][..count - count / 2];
      SelectionMeans(top, Block, requiredMB, count, candidates);
      return Success(candidates), cs;
    }
    var head := count / 2;
    var selected := candidates[..head];
    var tail := new Target[|candidates| - head](i requires 0 <= i < |candidates| - head => candidates[head + i]);
    assert tail[..] == candidates[head..];
    Shuffle(tail, draws);
    HeadAndTail(top, Block, requiredMB, candidates, tail[..], count);
    assert tail[..count - head] == tail[..][..count - head];
    SelectionMeans(top, Block, requiredMB, count, selected + tail[..count - head]);
    return Success(selected + tail[..count - head]), cs;
  }

  /** SelectMachine succeeds exactly if some disc is eligible, and returns an emptiest. */
  method SelectMachine(top: Topology, kind: MachineType, requiredMB: int) returns (r: Result<Target, PlacementError>)
    ensures r.Success? <==> Serving(top, kind, requiredMB) != {}
    ensures r.Failure? ==> r.error == NotEnoughMachines(1, 0)
    ensures r.Success? ==> IsBest(top, kind, requiredMB, r.value) && Qualifies(top, kind, requiredMB, r.value)
    ensures r.Success? ==> forall d :: d in Serving(top, kind, requiredMB) ==>
      top.discs[d].capacityMB - top.discs[d].usedMB <= r.value.freeMB
  {
    hide Serving, Qualifies;
    QueryFindsServing(top, kind, requiredMB);
    var candidates := Candidates(top, kind, requiredMB);
    if candidates == [] {
      return Failure(NotEnoughMachines(1, 0));
    }
    var t := candidates[0];
    forall d | d in Eligible(top, kind, requiredMB) && !IsChosen([t], d) ensures FreeMB(top, d) <= t.freeMB {
      assert IsChosen(candidates, d);
    }
    return Success(t);
  }
}
