/** Booking the bytes of a blob against the discs and workers that took them. */
module Ledger {
  import opened Catalog
  import opened Tiling

  /** requiredMB: whole megabytes, rounded up. */
  function RequiredMB(size: nat): (mb: nat)
    ensures (mb - 1) * BYTES_PER_MB < size <= mb * BYTES_PER_MB
  {
    (size + BYTES_PER_MB - 1) / BYTES_PER_MB
  }

  function DiscSum(rows: seq<Row>, d: Id): nat {
    if rows == [] then 0
    else DiscSum(rows[..|rows| - 1], d) + if rows[|rows| - 1].disc == d then rows[|rows| - 1].size else 0
  }

  function WorkerSum(rows: seq<Row>, w: Id): nat {
    if rows == [] then 0
    else WorkerSum(rows[..|rows| - 1], w) + if rows[|rows| - 1].worker == w then rows[|rows| - 1].size else 0
  }

  function DiscsOf(rows: seq<Row>): set<Id> {
    set r | r in rows :: r.disc
  }

  function WorkersOf(rows: seq<Row>): set<Id> {
    set r | r in rows :: r.worker
  }

  /** The UPDATE of one disc: both expressions read the old row. */
  function ChargeDisc(disc: Disc, size: nat): Disc {
    disc.(usedBytes := disc.usedBytes + size, usedMB := (disc.usedBytes + size) / BYTES_PER_MB)
  }

  function ChargeWorker(worker: Worker, size: nat): Worker {
    worker.(usedBytes := worker.usedBytes + size, usedMB := (worker.usedBytes + size) / BYTES_PER_MB)
  }

  /** The tables after chargeUsage. */
  function Charge(top: Topology, rows: seq<Row>): Topology {
    top.(
      discs := map d | d in top.discs ::
        if d in DiscsOf(rows) then ChargeDisc(top.discs[d], DiscSum(rows, d)) else top.discs[d],
      workers := map w | w in top.workers ::
        if w in WorkersOf(rows) then ChargeWorker(top.workers[w], WorkerSum(rows, w)) else top.workers[w])
  }

  /** The books agree with the catalog. */
  ghost predicate Balanced(top: Topology, rows: seq<Row>) {
    && (forall d :: d in top.discs ==>
          top.discs[d].usedBytes == DiscSum(rows, d) && top.discs[d].usedMB == DiscSum(rows, d) / BYTES_PER_MB)
    && (forall w :: w in top.workers ==>
          top.workers[w].usedBytes == WorkerSum(rows, w) && top.workers[w].usedMB == WorkerSum(rows, w) / BYTES_PER_MB)
  }

  lemma {:induction false} DiscSumConcat(a: seq<Row>, b: seq<Row>, d: Id)
    ensures DiscSum(a + b, d) == DiscSum(a, d) + DiscSum(b, d)
  {
    if b == [] {
      assert a + b == a;
    } else {
      assert (a + b)[..|a + b| - 1] == a + b[..|b| - 1];
      DiscSumConcat(a, b[..|b| - 1], d);
    }
  }

  lemma {:induction false} WorkerSumConcat(a: seq<Row>, b: seq<Row>, w: Id)
    ensures WorkerSum(a + b, w) == WorkerSum(a, w) + WorkerSum(b, w)
  {
    if b == [] {
      assert a + b == a;
    } else {
      assert (a + b)[..|a + b| - 1] == a + b[..|b| - 1];
      WorkerSumConcat(a, b[..|b| - 1], w);
    }
  }

  lemma {:induction false} UntouchedSums(rows: seq<Row>, x: Id)
    ensures x !in DiscsOf(rows) ==> DiscSum(rows, x) == 0
    ensures x !in WorkersOf(rows) ==> WorkerSum(rows, x) == 0
  {
    if rows != [] {
      var n := |rows| - 1;
      UntouchedSums(rows[..n], x);
      assert rows[n] in rows && forall r :: r in rows[..n] ==> r in rows;
    }
  }

  /** Charging the rows that a transaction adds keeps the books balanced. */
  lemma ChargeKeepsBalance(top: Topology, rows: seq<Row>, added: seq<Row>)
    requires Balanced(top, rows)
    ensures Balanced(Charge(top, added), rows + added)
  {
    hide DiscSum, WorkerSum, DiscsOf, WorkersOf;
    forall x: Id
      ensures DiscSum(rows + added, x) == DiscSum(rows, x) + DiscSum(added, x)
      ensures WorkerSum(rows + added, x) == WorkerSum(rows, x) + WorkerSum(added, x)
      ensures x !in DiscsOf(added) ==> DiscSum(added, x) == 0
      ensures x !in WorkersOf(added) ==> WorkerSum(added, x) == 0
    {
      DiscSumConcat(rows, added, x);
      WorkerSumConcat(rows, added, x);
      UntouchedSums(added, x);
    }
  }

  // Workers against discs.

  ghost function SumOver(f: Id -> int, s: set<Id>): int {
    if s == {} then 0
    else
      var x :| x in s;
      f(x) + SumOver(f, s - {x})
  }

  lemma {:induction false} SumOverSplit(f: Id -> int, s: set<Id>, x: Id)
    requires x in s
    ensures SumOver(f, s) == f(x) + SumOver(f, s - {x})
    decreases s
  {
    var y :| y in s && SumOver(f, s) == f(y) + SumOver(f, s - {y});
    if y != x {
      SumOverSplit(f, s - {y}, x);
      SumOverSplit(f, s - {x}, y);
      assert s - {x} - {y} == s - {y} - {x};
    }
  }

  /** Where one value grows, so does the sum. */
  lemma {:induction false} SumOverBump(f: Id -> int, g: Id -> int, s: set<Id>, x: Id, n: int)
    requires forall y :: y in s ==> g(y) == f(y) + if y == x then n else 0
    ensures SumOver(g, s) == SumOver(f, s) + if x in s then n else 0
    decreases s
  {
    if s != {} {
      var y :| y in s;
      SumOverSplit(f, s, y);
      SumOverSplit(g, s, y);
      SumOverBump(f, g, s - {y}, x, n);
    }
  }

  /** The discs behind the machines of a worker. */
  function DiscsBehind(top: Topology, w: Id): set<Id> {
    set d | d in top.discs && top.discs[d].machine in top.machines && top.machines[top.discs[d].machine].worker == w
  }

  /** The row names the worker that serves its disc. */
  predicate Served(top: Topology, row: Row) {
    && row.disc in top.discs && top.discs[row.disc].machine in top.machines
    && row.worker == top.machines[top.discs[row.disc].machine].worker
  }

  lemma {:induction false} WorkerIsSumOfDiscs(top: Topology, rows: seq<Row>, w: Id)
    requires forall i :: 0 <= i < |rows| ==> Served(top, rows[i])
    ensures WorkerSum(rows, w) == SumOver((d: Id) => DiscSum(rows, d), DiscsBehind(top, w))
  {
    var behind := DiscsBehind(top, w);
    if rows == [] {
      SumOverZero((d: Id) => DiscSum([], d), behind);
    } else {
      var n := |rows| - 1;
      WorkerIsSumOfDiscs(top, rows[..n], w);
      SumOverBump((d: Id) => DiscSum(rows[..n], d), (d: Id) => DiscSum(rows, d), behind, rows[n].disc, rows[n].size);
      assert Served(top, rows[n]);
    }
  }

  lemma {:induction false} SumOverZero(f: Id -> int, s: set<Id>)
    requires forall x :: x in s ==> f(x) == 0
    ensures SumOver(f, s) == 0
  {
    if s != {} {
      var x :| x in s;
      SumOverSplit(f, s, x);
      SumOverZero(f, s - {x});
    }
  }

  lemma {:induction false} SumOverSame(f: Id -> int, g: Id -> int, s: set<Id>)
    requires forall x :: x in s ==> f(x) == g(x)
    ensures SumOver(f, s) == SumOver(g, s)
  {
    SumOverBump(f, g, s, 0, 0);
  }

  function UsedBytes(top: Topology, d: Id): int {
    if d in top.discs then top.discs[d].usedBytes else 0
  }

  /** In balanced books a worker's bytes are those of the discs of its machines. */
  lemma WorkersBalanceDiscs(top: Topology, rows: seq<Row>, w: Id)
    requires Balanced(top, rows) && w in top.workers
    requires forall i :: 0 <= i < |rows| ==> Served(top, rows[i])
    ensures top.workers[w].usedBytes == SumOver((d: Id) => UsedBytes(top, d), DiscsBehind(top, w))
  {
    WorkerIsSumOfDiscs(top, rows, w);
    SumOverSame((d: Id) => DiscSum(rows, d), (d: Id) => UsedBytes(top, d), DiscsBehind(top, w));
  }

  // chargeUsage.

  lemma {:induction false} DiscsSoFar(rows: seq<Row>, k: nat)
    requires k < |rows|
    ensures DiscsOf(rows[..k + 1]) == DiscsOf(rows[..k]) + {rows[k].disc}
    ensures WorkersOf(rows[..k + 1]) == WorkersOf(rows[..k]) + {rows[k].worker}
    ensures forall d ::
      DiscSum(rows[..k + 1], d) == DiscSum(rows[..k], d) + if rows[k].disc == d then rows[k].size else 0
    ensures forall w ::
      WorkerSum(rows[..k + 1], w) == WorkerSum(rows[..k], w) + if rows[k].worker == w then rows[k].size else 0
  {
    assert rows[..k + 1] == rows[..k] + [rows[k]];
    assert rows[..k + 1][..k] == rows[..k];
  }

  function Add(m: map<Id, nat>, x: Id, n: nat): map<Id, nat> {
    m[x := (if x in m then m[x] else 0) + n]
  }

  /** Bytes per disc and per worker. */
  method Tally(chunks: seq<Row>) returns (perDisc: map<Id, nat>, perWorker: map<Id, nat>)
    ensures perDisc == map d | d in DiscsOf(chunks) :: DiscSum(chunks, d)
    ensures perWorker == map w | w in WorkersOf(chunks) :: WorkerSum(chunks, w)
  {
    hide DiscsOf, WorkersOf, DiscSum, WorkerSum;
    perDisc, perWorker := map[], map[];
    NothingTallied();
    for k := 0 to |chunks|
      invariant perDisc == map d | d in DiscsOf(chunks[..k]) :: DiscSum(chunks[..k], d)
      invariant perWorker == map w | w in WorkersOf(chunks[..k]) :: WorkerSum(chunks[..k], w)
    {
      DiscsSoFar(chunks, k);
      UntouchedSums(chunks[..k], chunks[k].disc);
      UntouchedSums(chunks[..k], chunks[k].worker);
      perDisc := Add(perDisc, chunks[k].disc, chunks[k].size);
      perWorker := Add(perWorker, chunks[k].worker, chunks[k].size);
    }
    assert chunks[..|chunks|] == chunks;
  }

  lemma NothingTallied()
    ensures DiscsOf([]) == {} && WorkersOf([]) == {}
  {}

  function ChargedDiscs(discs: map<Id, Disc>, sizes: map<Id, nat>): map<Id, Disc> {
    map d | d in discs :: if d in sizes then ChargeDisc(discs[d], sizes[d]) else discs[d]
  }

  function ChargedWorkers(workers: map<Id, Worker>, sizes: map<Id, nat>): map<Id, Worker> {
    map w | w in workers :: if w in sizes then ChargeWorker(workers[w], sizes[w]) else workers[w]
  }

  /** The infra tables as a transaction sees them. */
  class Tables {
    var top: Topology

    constructor (top: Topology)
      ensures this.top == top
    {
      this.top := top;
    }

    /** One UPDATE for every disc that took bytes; an UPDATE may match no row. The keys
        of the map are visited in any order. */
    method ChargeDiscs(perDisc: map<Id, nat>)
      modifies this
      ensures top == old(top).(discs := ChargedDiscs(old(top.discs), perDisc))
    {
      var rest := perDisc.Keys;
      while rest != {}
        invariant rest <= perDisc.Keys
        invariant top == old(top).(discs := ChargedDiscs(old(top.discs), perDisc - rest))
        decreases |rest|
      {
        var d :| d in rest;
        if d in top.discs {
          top := top.(discs := top.discs[d := ChargeDisc(top.discs[d], perDisc[d])]);
        }
        rest := rest - {d};
      }
      assert perDisc - {} == perDisc;
    }

    method ChargeWorkers(perWorker: map<Id, nat>)
      modifies this
      ensures top == old(top).(workers := ChargedWorkers(old(top.workers), perWorker))
    {
      var rest := perWorker.Keys;
      while rest != {}
        invariant rest <= perWorker.Keys
        invariant top == old(top).(workers := ChargedWorkers(old(top.workers), perWorker - rest))
        decreases |rest|
      {
        var w :| w in rest;
        if w in top.workers {
          top := top.(workers := top.workers[w := ChargeWorker(top.workers[w], perWorker[w])]);
        }
        rest := rest - {w};
      }
      assert perWorker - {} == perWorker;
    }

    /** chargeUsage. */
    method ChargeUsage(chunks: seq<Row>)
      modifies this
      ensures top == Charge(old(top), chunks)
    {
      hide DiscsOf, WorkersOf, DiscSum, WorkerSum;
      var perDisc, perWorker := Tally(chunks);
      ChargeDiscs(perDisc);
      ChargeWorkers(perWorker);
    }
  }
}
