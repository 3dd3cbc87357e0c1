/** Building and wiping the cluster's topology, one statement at a time. */
module Management {
  import opened Wrappers
  import opened Catalog
  import opened Placement
  import opened Ledger
  import opened CommitSafety
  import UP = UploadProtocol
  import O = Outages

  datatype WorkerConfig = WorkerConfig(name: string, address: string, kind: MachineType, machineCount: int,
    machineCapacity: int)

  datatype DbError = ForeignKey | Duplicate | Unavailable | Filesystem

  datatype Done = Done

  datatype Table = Chunks | Blobs | Discs | Machines | Workers

  /** The tables, and the source of fresh identifiers. */
  datatype Db = Db(top: Topology, blobs: map<Id, Blob>, rows: seq<Row>, nextId: Id)

  predicate ForeignKeysHold(db: Db) {
    && db.top.Linked()
    && (forall i :: 0 <= i < |db.rows| ==>
          db.rows[i].blob in db.blobs && db.rows[i].disc in db.top.discs && db.rows[i].worker in db.top.workers)
  }

  predicate IdsAreOld(db: Db) {
    && (forall d :: d in db.top.discs ==> d < db.nextId)
    && (forall m :: m in db.top.machines ==> m < db.nextId)
    && (forall w :: w in db.top.workers ==> w < db.nextId)
  }

  /** Some row of another table refers to the table. */
  predicate IsReferenced(db: Db, t: Table) {
    match t
    case Chunks => false
    case Blobs => db.rows != []
    case Discs => db.rows != []
    case Machines => db.top.discs != map[]
    case Workers => db.rows != [] || db.top.machines != map[]
  }

  function Cleared(db: Db, t: Table): Db {
    match t
    case Chunks => db.(rows := [])
    case Blobs => db.(blobs := map[])
    case Discs => db.(top := db.top.(discs := map[]))
    case Machines => db.(top := db.top.(machines := map[]))
    case Workers => db.(top := db.top.(workers := map[]))
  }

  /** The small letters, the capital letters and the digits. */
  const CHARSET: string := seq(62, i requires 0 <= i < 62 =>
    if i < 26 then 'a' + i as char else if i < 52 then 'A' + (i - 26) as char else '0' + (i - 52) as char)

  const WIPE_ORDER := [Chunks, Blobs, Discs, Machines, Workers]

  predicate IsWiped(db: Db) {
    db.top == Topology(map[], map[], map[]) && db.blobs == map[] && db.rows == []
  }

  predicate SerialTaken(top: Topology, serial: string) {
    exists d :: d in top.discs && top.discs[d].serial == serial
  }

  predicate NamespaceTaken(top: Topology, namespace: string) {
    exists m :: m in top.machines && top.machines[m].namespace == namespace
  }

  predicate NameTaken(top: Topology, name: string) {
    exists w :: w in top.workers && top.workers[w].name == name
  }

  predicate HasDisc(top: Topology, m: Id) {
    exists d :: d in top.discs && top.discs[d].machine == m
  }

  /** What holds of any tables. */
  predicate Intact(db: Db) {
    ForeignKeysHold(db) && IdsAreOld(db)
  }

  /** In addition, machines have one disc at most, and namespaces of their own. */
  predicate Sound(db: Db) {
    Intact(db) && IsCluster(db.top)
  }

  lemma WipedIsSound(db: Db)
    requires IsWiped(db)
    ensures Sound(db)
  {}

  /** A worker as its configuration describes it, with its machines and their discs. */
  ghost predicate IsBuilt(top: Topology, w: Id, cfg: WorkerConfig, machines: nat) {
    && w in top.workers
    && top.workers[w] == Worker(cfg.name, cfg.address, cfg.machineCapacity * cfg.machineCount, 0, 0, true, false)
    && |DiscsBehind(top, w)| == machines
    && forall d :: d in DiscsBehind(top, w) ==>
        && top.discs[d] == Disc(top.discs[d].serial, top.discs[d].machine, cfg.machineCapacity, 0, 0, true)
        && top.machines[top.discs[d].machine].kind == cfg.kind && !top.machines[top.discs[d].machine].deleted
  }

  ghost predicate AllBuilt(top: Topology, ids: seq<Id>, configs: seq<WorkerConfig>) {
    && |ids| <= |configs|
    && (forall w :: w in top.workers <==> w in ids)
    && (forall k :: 0 <= k < |ids| ==> IsBuilt(top, ids[k], configs[k], MachinesOf(configs[k])))
    && (forall m :: m in top.machines ==> HasDisc(top, m))
  }

  function MachinesOf(cfg: WorkerConfig): nat {
    if cfg.machineCount > 0 then cfg.machineCount else 0
  }

  // Random names.

  const NAME_LENGTH := 8

  function Draw(draws: nat -> nat, k: nat, i: nat): nat {
    draws(k + i) % |CHARSET|
  }

  /** The name made of eight draws, beginning with draw k. */
  function NameOf(draws: nat -> nat, k: nat): string {
    seq(NAME_LENGTH, i requires 0 <= i < NAME_LENGTH => CHARSET[Draw(draws, k, i)])
  }

  /** Every letter and digit can be drawn, so names are the same exactly if the draws are. */
  lemma NamesTellDraws(draws: nat -> nat, j: nat, k: nat)
    ensures NameOf(draws, j) == NameOf(draws, k) <==>
      forall i :: 0 <= i < 8 ==> Draw(draws, j, i) == Draw(draws, k, i)
    ensures forall i :: 0 <= i < 8 ==> Draw(draws, j, i) == draws(j + i) % 62
  {
    if NameOf(draws, j) == NameOf(draws, k) {
      forall i | 0 <= i < 8 ensures Draw(draws, j, i) == Draw(draws, k, i) {
        assert NameOf(draws, j)[i] == NameOf(draws, k)[i];
      }
    }
  }

  /** Two names that were drawn, of those that begin with draw lo, are the same. */
  ghost predicate NamesCollide(draws: nat -> nat, lo: nat, hi: nat) {
    exists j: nat, k: nat :: j < k && IsDrawn(draws, lo, hi, NameOf(draws, lo + NAME_LENGTH * k), k)
      && NameOf(draws, lo + NAME_LENGTH * j) == NameOf(draws, lo + NAME_LENGTH * k)
  }

  /** Name number k of those that begin with draw lo was drawn. */
  predicate IsDrawn(draws: nat -> nat, lo: nat, hi: nat, name: string, k: nat) {
    lo + NAME_LENGTH * k + NAME_LENGTH <= hi && name == NameOf(draws, lo + NAME_LENGTH * k)
  }

  ghost predicate WasDrawn(draws: nat -> nat, lo: nat, hi: nat, name: string) {
    exists k: nat :: IsDrawn(draws, lo, hi, name, k)
  }

  function SerialOf(namespace: string): string {
    "SN-R10-LOCAL-" + namespace
  }

  lemma SerialTellsNamespace(a: string, b: string)
    ensures SerialOf(a) == SerialOf(b) <==> a == b
  {
    assert SerialOf(a)[|"SN-R10-LOCAL-"|..] == a && SerialOf(b)[|"SN-R10-LOCAL-"|..] == b;
  }

  /** All namespaces and serial numbers are made of names that were drawn. */
  ghost predicate AllDrawn(top: Topology, draws: nat -> nat, lo: nat, hi: nat) {
    && (forall m :: m in top.machines ==> WasDrawn(draws, lo, hi, top.machines[m].namespace))
    && (forall d :: d in top.discs ==> SerialIsDrawn(draws, lo, hi, top.discs[d].serial))
  }

  ghost predicate SerialIsDrawn(draws: nat -> nat, lo: nat, hi: nat, serial: string) {
    exists name :: WasDrawn(draws, lo, hi, name) && serial == SerialOf(name)
  }

  /** The draws are whole names. */
  predicate WholeNames(lo: nat, hi: nat) {
    lo <= hi && (hi - lo) % NAME_LENGTH == 0
  }

  lemma StillDrawn(top: Topology, draws: nat -> nat, lo: nat, hi: nat)
    requires AllDrawn(top, draws, lo, hi)
    ensures AllDrawn(top, draws, lo, hi + NAME_LENGTH)
  {
    forall name | WasDrawn(draws, lo, hi, name) ensures WasDrawn(draws, lo, hi + NAME_LENGTH, name) {
      var k: nat :| IsDrawn(draws, lo, hi, name, k);
      assert IsDrawn(draws, lo, hi + NAME_LENGTH, name, k);
    }
    hide WasDrawn;
    forall d | d in top.discs ensures SerialIsDrawn(draws, lo, hi + NAME_LENGTH, top.discs[d].serial) {
      assert SerialIsDrawn(draws, lo, hi, top.discs[d].serial);
    }
  }

  lemma NextIsDrawn(draws: nat -> nat, lo: nat, hi: nat)
    requires WholeNames(lo, hi)
    ensures WasDrawn(draws, lo, hi + NAME_LENGTH, NameOf(draws, hi))
  {
    var k := (hi - lo) / NAME_LENGTH;
    assert IsDrawn(draws, lo, hi + NAME_LENGTH, NameOf(draws, hi), k);
  }

  /** A name that was drawn before collides with the next one if it is the same. */
  lemma DrawnAgain(draws: nat -> nat, lo: nat, hi: nat)
    requires WholeNames(lo, hi) && WasDrawn(draws, lo, hi, NameOf(draws, hi))
    ensures NamesCollide(draws, lo, hi + NAME_LENGTH)
  {
    var j: nat :| IsDrawn(draws, lo, hi, NameOf(draws, hi), j);
    var k := (hi - lo) / NAME_LENGTH;
    assert lo + NAME_LENGTH * k == hi;
    assert IsDrawn(draws, lo, hi + NAME_LENGTH, NameOf(draws, hi), k);
  }

  /** Two workers are configured with one name. */
  predicate NameRepeats(configs: seq<WorkerConfig>) {
    exists i, j :: 0 <= i < j < |configs| && configs[i].name == configs[j].name
  }

  /** The only reasons for which a build may fail. */
  ghost predicate IsExcused(e: DbError, calm: bool, configs: seq<WorkerConfig>, draws: nat -> nat, lo: nat, hi: nat) {
    match e
    case ForeignKey => false
    case Duplicate => NameRepeats(configs) || NamesCollide(draws, lo, hi)
    case _ => !calm
  }

  /** A statement that changes a table. */
  datatype Statement =
    | Delete(table: Table)
    | InsertWorker(worker: Worker)
    | InsertMachine(machine: Machine)
    | InsertDisc(disc: Disc)

  function Execute(db: Db, st: Statement): Db {
    match st
    case Delete(t) => Cleared(db, t)
    case InsertWorker(worker) =>
      db.(top := db.top.(workers := db.top.workers[db.nextId := worker]), nextId := db.nextId + 1)
    case InsertMachine(machine) =>
      db.(top := db.top.(machines := db.top.machines[db.nextId := machine]), nextId := db.nextId + 1)
    case InsertDisc(disc) =>
      db.(top := db.top.(discs := db.top.discs[db.nextId := disc]), nextId := db.nextId + 1)
  }

  /** The statement meets no missing and no remaining reference. */
  predicate KeepsReferences(db: Db, st: Statement) {
    match st
    case Delete(t) => !IsReferenced(db, t)
    case InsertWorker(_) => true
    case InsertMachine(machine) => machine.worker in db.top.workers
    case InsertDisc(disc) => disc.machine in db.top.machines
  }

  function ExecuteAll(db: Db, log: seq<Statement>): Db {
    if log == [] then db else Execute(ExecuteAll(db, log[..|log| - 1]), log[|log| - 1])
  }

  /** The tables after n statements. Those that were not sound to begin with are sound
      from the end of the wipe on. */
  predicate IsSoundAfter(was: Db, n: nat, db: Db) {
    Intact(db) && (Sound(was) || n >= |WIPE_ORDER| ==> Sound(db))
  }

  /** The statements lead from one state to the other, one after the other; before, between
      and after them the tables are sound, and none is refused for a reference. */
  ghost predicate SoundlyLeads(was: Db, log: seq<Statement>, db: Db) {
    && ExecuteAll(was, log) == db
    && (forall i :: 0 <= i <= |log| ==> IsSoundAfter(was, i, ExecuteAll(was, log[..i])))
    && (forall i :: 0 <= i < |log| ==> KeepsReferences(ExecuteAll(was, log[..i]), log[i]))
  }

  lemma NoStatement(db: Db)
    requires Intact(db)
    ensures SoundlyLeads(db, [], db)
  {}

  lemma NextStatement(was: Db, log: seq<Statement>, db: Db, st: Statement)
    requires SoundlyLeads(was, log, db) && KeepsReferences(db, st) && IsSoundAfter(was, |log| + 1, Execute(db, st))
    ensures SoundlyLeads(was, log + [st], Execute(db, st))
  {
    hide IsSoundAfter, KeepsReferences, Execute;
    var log' := log + [st];
    assert log'[..|log|] == log;
    assert ExecuteAll(was, log') == Execute(db, st);
    hide ExecuteAll;
    forall i | 0 <= i <= |log'| ensures IsSoundAfter(was, i, ExecuteAll(was, log'[..i])) {
      assert log'[..i] == if i <= |log| then log[..i] else log';
    }
    forall i | 0 <= i < |log'| ensures KeepsReferences(ExecuteAll(was, log'[..i]), log'[i]) {
      assert log'[..i] == if i < |log| then log[..i] else log;
    }
  }

  class ManagementService {
    const outages: O.Outages
    /** The random numbers, in the order in which they are drawn, and how many were. */
    const draws: nat -> nat
    var drawn: nat
    var db: Db

    constructor (outages: O.Outages, draws: nat -> nat, db: Db)
      ensures this.outages == outages && this.draws == draws && drawn == 0 && this.db == db
    {
      this.outages, this.draws, drawn, this.db := outages, draws, 0, db;
    }

    /** DELETE of a whole table. It is refused while the table is referred to. */
    method DeleteAll(t: Table) returns (r: Result<Done, DbError>)
      requires Intact(db)
      modifies this`db, outages
      ensures outages.attempts >= old(outages.attempts)
      ensures r == Failure(Unavailable) ==> !outages.Calm(old(outages.attempts))
      ensures Intact(db) && (Sound(old(db)) ==> Sound(db))
      ensures r == Failure(ForeignKey) <==> !KeepsReferences(old(db), Delete(t))
      ensures db == if r.Success? then Execute(old(db), Delete(t)) else old(db)
      ensures r.Failure? ==> r.error in {ForeignKey, Unavailable}
    {
      if IsReferenced(db, t) {
        return Failure(ForeignKey);
      }
      var ok := outages.Attempt();
      if !ok {
        return Failure(Unavailable);
      }
      db := Cleared(db, t);
      return Success(Done);
    }

    /** wipeTopology, of any tables, also of a machine with several discs. No statement
        meets a row that still refers to its table. */
    method WipeTopology() returns (r: Result<Done, DbError>, ghost log: seq<Statement>)
      requires Intact(db)
      modifies this`db, outages
      ensures outages.attempts >= old(outages.attempts)
      ensures r.Failure? ==> r == Failure(Unavailable) && !outages.Calm(old(outages.attempts))
      ensures SoundlyLeads(old(db), log, db)
      ensures Intact(db)
      ensures r.Success? ==> IsWiped(db) && |log| == |WIPE_ORDER|
    {
      hide SoundlyLeads, IsCluster, IdsAreOld;
      log := [];
      NoStatement(db);
      for i := 0 to |WIPE_ORDER|
        invariant Intact(db) && (Sound(old(db)) ==> Sound(db)) && SoundlyLeads(old(db), log, db) && |log| == i
        invariant outages.attempts >= old(outages.attempts)
        invariant i > 0 ==> db.rows == []
        invariant i > 1 ==> db.blobs == map[]
        invariant i > 2 ==> db.top.discs == map[]
        invariant i > 3 ==> db.top.machines == map[]
        invariant i > 4 ==> db.top.workers == map[]
      {
        ghost var before := db;
        r := DeleteAll(WIPE_ORDER[i]);
        if r.Failure? {
          return;
        }
        if i == |WIPE_ORDER| - 1 {
          WipedIsSound(db);
        }
        NextStatement(old(db), log, before, Delete(WIPE_ORDER[i]));
        log := log + [Delete(WIPE_ORDER[i])];
      }
      return Success(Done), log;
    }

    method CreateWorker(worker: Worker) returns (r: Result<Id, DbError>)
      requires Sound(db)
      modifies this`db, outages
      ensures outages.attempts >= old(outages.attempts)
      ensures r == Failure(Unavailable) ==> !outages.Calm(old(outages.attempts))
      ensures Sound(db)
      ensures r.Success? ==> r.value == old(db).nextId
      ensures db == if r.Success? then Execute(old(db), InsertWorker(worker)) else old(db)
      ensures r.Failure? ==> r.error in {Duplicate, Unavailable}
      ensures r == Failure(Duplicate) <==> NameTaken(old(db).top, worker.name)
    {
      if NameTaken(db.top, worker.name) {
        return Failure(Duplicate);
      }
      var ok := outages.Attempt();
      if !ok {
        return Failure(Unavailable);
      }
      var id := db.nextId;
      db := db.(top := db.top.(workers := db.top.workers[id := worker]), nextId := id + 1);
      return Success(id);
    }

    method CreateMachine(machine: Machine) returns (r: Result<Id, DbError>)
      requires Sound(db)
      modifies this`db, outages
      ensures outages.attempts >= old(outages.attempts)
      ensures r == Failure(Unavailable) ==> !outages.Calm(old(outages.attempts))
      ensures Sound(db)
      ensures r == Failure(ForeignKey) <==> !KeepsReferences(old(db), InsertMachine(machine))
      ensures r.Success? ==> r.value == old(db).nextId
      ensures db == if r.Success? then Execute(old(db), InsertMachine(machine)) else old(db)
      ensures r.Failure? ==> r.error in {ForeignKey, Duplicate, Unavailable}
      ensures r == Failure(Duplicate) ==> NamespaceTaken(old(db).top, machine.namespace)
      ensures NamespaceTaken(old(db).top, machine.namespace) ==> r.Failure?
    {
      if machine.worker !in db.top.workers {
        return Failure(ForeignKey);
      }
      if NamespaceTaken(db.top, machine.namespace) {
        return Failure(Duplicate);
      }
      var ok := outages.Attempt();
      if !ok {
        return Failure(Unavailable);
      }
      var id := db.nextId;
      db := db.(top := db.top.(machines := db.top.machines[id := machine]), nextId := id + 1);
      return Success(id);
    }

    method CreateDisc(disc: Disc) returns (r: Result<Id, DbError>)
      requires Sound(db) && !HasDisc(db.top, disc.machine)
      modifies this`db, outages
      ensures outages.attempts >= old(outages.attempts)
      ensures r == Failure(Unavailable) ==> !outages.Calm(old(outages.attempts))
      ensures Sound(db)
      ensures r == Failure(ForeignKey) <==> !KeepsReferences(old(db), InsertDisc(disc))
      ensures r.Success? ==> r.value == old(db).nextId
      ensures db == if r.Success? then Execute(old(db), InsertDisc(disc)) else old(db)
      ensures r.Failure? ==> r.error in {ForeignKey, Duplicate, Unavailable}
      ensures r == Failure(Duplicate) ==> SerialTaken(old(db).top, disc.serial)
      ensures SerialTaken(old(db).top, disc.serial) ==> r.Failure?
    {
      if disc.machine !in db.top.machines {
        return Failure(ForeignKey);
      }
      if SerialTaken(db.top, disc.serial) {
        return Failure(Duplicate);
      }
      var ok := outages.Attempt();
      if !ok {
        return Failure(Unavailable);
      }
      var id := db.nextId;
      db := db.(top := db.top.(discs := db.top.discs[id := disc]), nextId := id + 1);
      return Success(id);
    }

    /** One machine with its disc, under a random namespace, and its directory. */
    method AddMachine(cfg: WorkerConfig, w: Id, ghost ids: seq<Id>, ghost configs: seq<WorkerConfig>, ghost n: nat,
        ghost was: Db, ghost before: seq<Statement>, ghost lo: nat)
      returns (r: Result<Done, DbError>, ghost log: seq<Statement>)
      requires SoundlyLeads(was, before, db)
      requires Sound(db) && db.rows == [] && db.blobs == map[] && Growing(db.top, ids, configs, w, cfg, n)
      requires AllDrawn(db.top, draws, lo, drawn) && WholeNames(lo, drawn)
      modifies this, outages
      ensures outages.attempts >= old(outages.attempts) && drawn >= old(drawn)
      ensures r.Failure? ==> IsExcused(r.error, outages.Calm(old(outages.attempts)), configs, draws, lo, drawn)
      ensures r.Success? ==> AllDrawn(db.top, draws, lo, drawn) && WholeNames(lo, drawn)
      ensures SoundlyLeads(was, log, db)
      ensures Sound(db)
      ensures r.Success? ==> db.rows == [] && db.blobs == map[] && Growing(db.top, ids, configs, w, cfg, n + 1)
    {
      hide Sound, Intact, IsBuilt, SoundlyLeads, AllDrawn, WasDrawn, NamesCollide, NameOf, Growing, NameRepeats,
        HasDisc,
        KeepsReferences, SerialTaken, NamespaceTaken, SerialOf;
      ghost var db0, hi := db, drawn;
      var namespace := RandomName();
      NextIsDrawn(draws, lo, hi);
      StillDrawn(db.top, draws, lo, hi);
      MachinesAreOld(db);
      GrowingHas(db.top, ids, configs, w, cfg, n);
      var m;
      m, log := AddMachineRow(Machine(namespace, cfg.kind, w, false), was, before);
      if m.Failure? {
        if m.error == Duplicate {
          NamespaceWasDrawn(db0.top, draws, lo, hi);
        }
        return Failure(m.error), log;
      }
      NoDiscYet(db0.top, db.top, m.value);
      var d;
      d, log := AddDiscRow(Disc(SerialOf(namespace), m.value, cfg.machineCapacity, 0, 0, true), was, log);
      if d.Failure? {
        if d.error == Duplicate {
          SerialWasDrawn(db0.top, db.top, draws, lo, hi);
        }
        return Failure(d.error), log;
      }
      var made := outages.Attempt();
      if !made {
        return Failure(Filesystem), log;
      }
      OneMoreDrawn(db0.top, db.top, draws, lo, drawn, m.value, d.value, namespace);
      MachineAdded(db0.top, db.top, ids, configs, w, cfg, n, m.value, d.value);
      return Success(Done), log;
    }

    method AddMachineRow(machine: Machine, ghost was: Db, ghost before: seq<Statement>)
      returns (r: Result<Id, DbError>, ghost log: seq<Statement>)
      requires SoundlyLeads(was, before, db) && Sound(db) && machine.worker in db.top.workers
      modifies this`db, outages
      ensures outages.attempts >= old(outages.attempts)
      ensures r == Failure(Unavailable) ==> !outages.Calm(old(outages.attempts))
      ensures SoundlyLeads(was, log, db) && Sound(db)
      ensures r.Failure? ==> r.error in {Duplicate, Unavailable}
      ensures r == Failure(Duplicate) ==> NamespaceTaken(old(db).top, machine.namespace)
      ensures r.Success? ==> r.value == old(db).nextId
      ensures db == if r.Success? then Execute(old(db), InsertMachine(machine)) else old(db)
    {
      hide Sound, SoundlyLeads, NamespaceTaken;
      log := before;
      ghost var db0 := db;
      r := CreateMachine(machine);
      if r.Success? {
        SoundIsSoundAfter(was, |before| + 1, db);
        NextStatement(was, before, db0, InsertMachine(machine));
        log := before + [InsertMachine(machine)];
      }
    }

    method AddDiscRow(disc: Disc, ghost was: Db, ghost before: seq<Statement>)
      returns (r: Result<Id, DbError>, ghost log: seq<Statement>)
      requires SoundlyLeads(was, before, db) && Sound(db)
      requires disc.machine in db.top.machines && !HasDisc(db.top, disc.machine)
      modifies this`db, outages
      ensures outages.attempts >= old(outages.attempts)
      ensures r == Failure(Unavailable) ==> !outages.Calm(old(outages.attempts))
      ensures SoundlyLeads(was, log, db) && Sound(db)
      ensures r.Failure? ==> r.error in {Duplicate, Unavailable}
      ensures r == Failure(Duplicate) ==> SerialTaken(old(db).top, disc.serial)
      ensures r.Success? ==> r.value == old(db).nextId
      ensures db == if r.Success? then Execute(old(db), InsertDisc(disc)) else old(db)
    {
      hide Sound, SoundlyLeads, SerialTaken, HasDisc;
      log := before;
      ghost var db0 := db;
      r := CreateDisc(disc);
      if r.Success? {
        SoundIsSoundAfter(was, |before| + 1, db);
        NextStatement(was, before, db0, InsertDisc(disc));
        log := before + [InsertDisc(disc)];
      }
    }

    method RandomName() returns (s: string)
      modifies this`drawn
      ensures s == NameOf(draws, old(drawn)) && drawn == old(drawn) + NAME_LENGTH
    {
      s := RandomString(NAME_LENGTH);
    }

    method RandomString(n: nat) returns (s: string)
      modifies this`drawn
      ensures |s| == n && drawn == old(drawn) + n
      ensures forall i :: 0 <= i < n ==> s[i] == CHARSET[Draw(draws, old(drawn), i)]
    {
      s := "";
      while |s| < n
        invariant |s| <= n && drawn == old(drawn) + |s|
        invariant forall i :: 0 <= i < |s| ==> s[i] == CHARSET[Draw(draws, old(drawn), i)]
      {
        s := s + [CHARSET[draws(drawn) % |CHARSET|]];
        drawn := drawn + 1;
      }
    }

    /** One worker with all its machines. */
    method AddWorker(cfg: WorkerConfig, ghost ids: seq<Id>, ghost configs: seq<WorkerConfig>,
        ghost was: Db, ghost before: seq<Statement>, ghost lo: nat)
      returns (r: Result<Id, DbError>, ghost log: seq<Statement>)
      requires SoundlyLeads(was, before, db)
      requires Sound(db) && db.rows == [] && db.blobs == map[] && AllBuilt(db.top, ids, configs)
      requires |ids| < |configs| && cfg == configs[|ids|]
      requires AllDrawn(db.top, draws, lo, drawn) && WholeNames(lo, drawn)
      modifies this, outages
      ensures outages.attempts >= old(outages.attempts) && drawn >= old(drawn)
      ensures r.Failure? ==> IsExcused(r.error, outages.Calm(old(outages.attempts)), configs, draws, lo, drawn)
      ensures r.Success? ==> AllDrawn(db.top, draws, lo, drawn) && WholeNames(lo, drawn)
      ensures SoundlyLeads(was, log, db)
      ensures Sound(db)
      ensures r.Success? ==> db.rows == [] && db.blobs == map[] && AllBuilt(db.top, ids + [r.value], configs)
    {
      hide IsCluster, IsBuilt, ForeignKeysHold, SoundlyLeads, AllDrawn, NamesCollide, WholeNames, Growing;
      log := before;
      ghost var db0 := db;
      var worker := Worker(cfg.name, cfg.address, cfg.machineCapacity * cfg.machineCount, 0, 0, true, false);
      r := CreateWorker(worker);
      if r.Failure? {
        if r.error == Duplicate {
          NameWasConfigured(db0.top, ids, configs);
        }
        return;
      }
      SameMachinesDrawn(db0.top, db.top, draws, lo, drawn);
      NextStatement(was, log, db0, InsertWorker(worker));
      log := log + [InsertWorker(worker)];
      WorkerAdded(db0, db.top, ids, configs, r.value, cfg);
      var i := 0;
      while i < cfg.machineCount
        invariant 0 <= i <= MachinesOf(cfg) && SoundlyLeads(was, log, db)
        invariant Sound(db) && db.rows == [] && db.blobs == map[] && Growing(db.top, ids, configs, r.value, cfg, i)
        invariant outages.attempts >= old(outages.attempts) && drawn >= old(drawn)
        invariant AllDrawn(db.top, draws, lo, drawn) && WholeNames(lo, drawn)
      {
        var added;
        added, log := AddMachine(cfg, r.value, ids, configs, i, was, log, lo);
        if added.Failure? {
          return Failure(added.error), log;
        }
        i := i + 1;
      }
      AllGrown(db.top, ids, configs, r.value, cfg);
    }

    /** BuildTopology, for any tables and any list of configurations. Every statement keeps
        the tables sound, and none is refused for a missing or remaining reference. It
        succeeds unless something fails, two workers are configured with one name, or a
        random name comes up twice. */
    method BuildTopology(configs: seq<WorkerConfig>)
      returns (r: Result<Done, DbError>, ghost ids: seq<Id>, ghost log: seq<Statement>)
      requires Intact(db)
      modifies this, outages
      ensures r.Failure? ==>
        IsExcused(r.error, outages.Calm(old(outages.attempts)), configs, draws, old(drawn), drawn)
      ensures SoundlyLeads(old(db), log, db)
      ensures Intact(db)
      ensures r.Success? ==>
        Sound(db) && |ids| == |configs| && AllBuilt(db.top, ids, configs) && db.rows == [] && db.blobs == map[]
    {
      hide IsCluster, IsBuilt, ForeignKeysHold, SoundlyLeads, AllDrawn, NamesCollide, NameRepeats;
      ids := [];
      assert WholeNames(drawn, drawn);
      r, log := WipeTopology();
      if r.Failure? {
        return;
      }
      WipedIsSound(db);
      NothingDrawn(db, draws, drawn);
      var made := outages.Attempt();
      if !made {
        return Failure(Filesystem), ids, log;
      }
      for k := 0 to |configs|
        invariant SoundlyLeads(old(db), log, db)
        invariant |ids| == k && Sound(db) && db.rows == [] && db.blobs == map[] && AllBuilt(db.top, ids, configs)
        invariant outages.attempts >= old(outages.attempts) && drawn >= old(drawn)
        invariant AllDrawn(db.top, draws, old(drawn), drawn) && WholeNames(old(drawn), drawn)
      {
        var w;
        w, log := AddWorker(configs[k], ids, configs, old(db), log, old(drawn));
        if w.Failure? {
          return Failure(w.error), ids, log;
        }
        ids := ids + [w.value];
      }
      return Success(Done), ids, log;
    }
  }

  /** All the earlier workers are built, and w has its first n machines. */
  ghost predicate Growing(top: Topology, ids: seq<Id>, configs: seq<WorkerConfig>, w: Id, cfg: WorkerConfig, n: nat) {
    && |ids| < |configs| && cfg == configs[|ids|] && w !in ids
    && (forall v :: v in top.workers <==> v in ids + [w])
    && (forall k :: 0 <= k < |ids| ==> IsBuilt(top, ids[k], configs[k], MachinesOf(configs[k])))
    && IsBuilt(top, w, cfg, n)
    && (forall m :: m in top.machines ==> HasDisc(top, m))
  }

  lemma SoundIsSoundAfter(was: Db, n: nat, db: Db)
    requires Sound(db)
    ensures IsSoundAfter(was, n, db)
  {}

  lemma GrowingHas(top: Topology, ids: seq<Id>, configs: seq<WorkerConfig>, w: Id, cfg: WorkerConfig, n: nat)
    requires Growing(top, ids, configs, w, cfg, n)
    ensures w in top.workers
  {
    hide IsBuilt;
    assert w in ids + [w];
  }

  lemma NoDiscYet(top: Topology, top': Topology, m: Id)
    requires !HasDisc(top, m) && top'.discs == top.discs
    ensures !HasDisc(top', m)
  {}

  lemma AllGrown(top: Topology, ids: seq<Id>, configs: seq<WorkerConfig>, w: Id, cfg: WorkerConfig)
    requires Growing(top, ids, configs, w, cfg, MachinesOf(cfg))
    ensures AllBuilt(top, ids + [w], configs)
  {
    hide IsBuilt;
  }

  lemma NothingDrawn(db: Db, draws: nat -> nat, lo: nat)
    requires IsWiped(db)
    ensures AllDrawn(db.top, draws, lo, lo)
  {}

  lemma SameMachinesDrawn(top: Topology, top': Topology, draws: nat -> nat, lo: nat, hi: nat)
    requires AllDrawn(top, draws, lo, hi) && top'.machines == top.machines && top'.discs == top.discs
    ensures AllDrawn(top', draws, lo, hi)
  {
    hide WasDrawn, SerialIsDrawn;
  }

  lemma OneMoreDrawn(top: Topology, top': Topology, draws: nat -> nat, lo: nat, hi: nat, m: Id, d: Id, name: string)
    requires AllDrawn(top, draws, lo, hi) && WasDrawn(draws, lo, hi, name)
    requires m in top'.machines && top'.machines == top.machines[m := top'.machines[m]]
    requires d in top'.discs && top'.discs == top.discs[d := top'.discs[d]]
    requires top'.machines[m].namespace == name && top'.discs[d].serial == SerialOf(name)
    ensures AllDrawn(top', draws, lo, hi)
  {
    hide WasDrawn;
    assert SerialIsDrawn(draws, lo, hi, SerialOf(name));
    hide SerialIsDrawn;
  }

  lemma NamespaceWasDrawn(top: Topology, draws: nat -> nat, lo: nat, hi: nat)
    requires AllDrawn(top, draws, lo, hi) && WholeNames(lo, hi) && NamespaceTaken(top, NameOf(draws, hi))
    ensures NamesCollide(draws, lo, hi + NAME_LENGTH)
  {
    hide WasDrawn, NamesCollide;
    DrawnAgain(draws, lo, hi);
  }

  lemma SerialWasDrawn(top: Topology, top': Topology, draws: nat -> nat, lo: nat, hi: nat)
    requires AllDrawn(top, draws, lo, hi) && WholeNames(lo, hi)
    requires top'.discs == top.discs && SerialTaken(top', SerialOf(NameOf(draws, hi)))
    ensures NamesCollide(draws, lo, hi + NAME_LENGTH)
  {
    hide WasDrawn, NamesCollide, SerialOf;
    var d :| d in top.discs && top.discs[d].serial == SerialOf(NameOf(draws, hi));
    assert SerialIsDrawn(draws, lo, hi, top.discs[d].serial);
    var name :| WasDrawn(draws, lo, hi, name) && top.discs[d].serial == SerialOf(name);
    SerialTellsNamespace(name, NameOf(draws, hi));
    DrawnAgain(draws, lo, hi);
  }

  lemma NameWasConfigured(top: Topology, ids: seq<Id>, configs: seq<WorkerConfig>)
    requires AllBuilt(top, ids, configs) && |ids| < |configs| && NameTaken(top, configs[|ids|].name)
    ensures NameRepeats(configs)
  {
    var w :| w in top.workers && top.workers[w].name == configs[|ids|].name;
    var k :| 0 <= k < |ids| && ids[k] == w;
    assert IsBuilt(top, ids[k], configs[k], MachinesOf(configs[k]));
  }

  lemma MachinesAreOld(db: Db)
    requires Sound(db)
    ensures db.top.Linked() && !HasDisc(db.top, db.nextId)
    ensures forall id :: id >= db.nextId ==> id !in db.top.machines && id !in db.top.discs
  {}

  lemma NewWorkerHasNothing(db: Db, top: Topology, w: Id, worker: Worker)
    requires Sound(db) && w == db.nextId && top == db.top.(workers := db.top.workers[w := worker])
    ensures DiscsBehind(top, w) == {}
    ensures forall v :: DiscsBehind(top, v) == DiscsBehind(db.top, v)
  {}

  lemma WorkerAdded(was: Db, top: Topology, ids: seq<Id>, configs: seq<WorkerConfig>, w: Id, cfg: WorkerConfig)
    requires Sound(was) && AllBuilt(was.top, ids, configs) && |ids| < |configs| && cfg == configs[|ids|]
    requires w == was.nextId && top == was.top.(workers := was.top.workers[w :=
      Worker(cfg.name, cfg.address, cfg.machineCapacity * cfg.machineCount, 0, 0, true, false)])
    ensures Growing(top, ids, configs, w, cfg, 0)
  {
    hide DiscsBehind, ForeignKeysHold, IsCluster;
    NewWorkerHasNothing(was, top, w, top.workers[w]);
    assert forall k :: 0 <= k < |ids| ==> ids[k] in was.top.workers && ids[k] != w;
    forall m | m in top.machines ensures HasDisc(top, m) {
      assert HasDisc(was.top, m);
    }
  }

  lemma NewMachineBehind(top: Topology, top': Topology, w: Id, m: Id, d: Id, machine: Machine, disc: Disc)
    requires top.Linked() && m !in top.machines && d !in top.discs && machine.worker == w && disc.machine == m
    requires top' == top.(machines := top.machines[m := machine], discs := top.discs[d := disc])
    ensures DiscsBehind(top', w) == DiscsBehind(top, w) + {d} && d !in DiscsBehind(top, w)
    ensures forall v :: v != w ==> DiscsBehind(top', v) == DiscsBehind(top, v)
  {}

  lemma StaysBuilt(top: Topology, top': Topology, v: Id, cfg: WorkerConfig, n: nat, m: Id, d: Id)
    requires IsBuilt(top, v, cfg, n) && DiscsBehind(top', v) == DiscsBehind(top, v)
    requires m !in top.machines && d !in top.discs && top'.workers == top.workers
    requires m in top'.machines && top'.machines == top.machines[m := top'.machines[m]]
    requires d in top'.discs && top'.discs == top.discs[d := top'.discs[d]]
    ensures IsBuilt(top', v, cfg, n)
  {}

  lemma OneMoreBuilt(top: Topology, top': Topology, w: Id, cfg: WorkerConfig, n: nat, m: Id, d: Id)
    requires IsBuilt(top, w, cfg, n) && DiscsBehind(top', w) == DiscsBehind(top, w) + {d} && d !in DiscsBehind(top, w)
    requires m !in top.machines && d !in top.discs && top'.workers == top.workers
    requires m in top'.machines && top'.machines == top.machines[m := top'.machines[m]]
    requires d in top'.discs && top'.discs == top.discs[d := top'.discs[d]]
    requires top'.discs[d] == Disc(top'.discs[d].serial, m, cfg.machineCapacity, 0, 0, true)
    requires top'.machines[m].kind == cfg.kind && !top'.machines[m].deleted
    ensures IsBuilt(top', w, cfg, n + 1)
  {}

  lemma MachineAdded(top: Topology, top': Topology, ids: seq<Id>, configs: seq<WorkerConfig>, w: Id, cfg: WorkerConfig,
      n: nat, m: Id, d: Id)
    requires top.Linked() && Growing(top, ids, configs, w, cfg, n) && m !in top.machines && d !in top.discs
    requires d in top'.discs && m in top'.machines
    requires top'.machines[m] == Machine(top'.machines[m].namespace, cfg.kind, w, false)
    requires top'.discs[d] == Disc(top'.discs[d].serial, m, cfg.machineCapacity, 0, 0, true)
    requires top' == top.(machines := top.machines[m := top'.machines[m]], discs := top.discs[d := top'.discs[d]])
    ensures Growing(top', ids, configs, w, cfg, n + 1)
  {
    hide DiscsBehind, IsBuilt;
    NewMachineBehind(top, top', w, m, d, top'.machines[m], top'.discs[d]);
    forall k | 0 <= k < |ids| ensures IsBuilt(top', ids[k], configs[k], MachinesOf(configs[k])) {
      StaysBuilt(top, top', ids[k], configs[k], MachinesOf(configs[k]), m, d);
    }
    OneMoreBuilt(top, top', w, cfg, n, m, d);
    forall x | x in top'.machines ensures HasDisc(top', x) {
      if x == m {
        assert top'.discs[d].machine == m;
      } else {
        assert HasDisc(top, x);
        var e :| e in top.discs && top.discs[e].machine == x;
        assert top'.discs[e].machine == x;
      }
    }
  }

  // What a build establishes.

  lemma {:induction false} SumOfSame(f: Id -> int, s: set<Id>, c: int)
    requires forall x :: x in s ==> f(x) == c
    ensures SumOver(f, s) == |s| * c
  {
    if s != {} {
      var x :| x in s;
      SumOverSplit(f, s, x);
      SumOfSame(f, s - {x}, c);
      assert |s| * c == |s - {x}| * c + c;
    }
  }

  function CapacityMB(top: Topology, d: Id): int {
    if d in top.discs then top.discs[d].capacityMB else 0
  }

  /** A worker's capacity is that of its discs, exactly if its configuration does not ask
      for a negative number of machines with some capacity. */
  lemma WorkerCapacityIsSum(top: Topology, w: Id, cfg: WorkerConfig)
    requires IsBuilt(top, w, cfg, MachinesOf(cfg))
    ensures top.workers[w].capacityMB == SumOver((d: Id) => CapacityMB(top, d), DiscsBehind(top, w))
      <==> cfg.machineCount >= 0 || cfg.machineCapacity == 0
  {
    var behind := DiscsBehind(top, w);
    assert forall d :: d in behind ==> CapacityMB(top, d) == cfg.machineCapacity;
    SumOfSame((d: Id) => CapacityMB(top, d), behind, cfg.machineCapacity);
    if cfg.machineCount < 0 && cfg.machineCapacity != 0 {
      assert cfg.machineCapacity * cfg.machineCount != 0;
    }
  }

  ghost predicate IsOnlyDisc(top: Topology, m: Id, d: Id) {
    && d in top.discs && top.discs[d].machine == m
    && forall e :: e in top.discs && top.discs[e].machine == m ==> e == d
  }

  /** Every machine has exactly one disc. */
  lemma MachinesHaveOneDisc(db: Db, ids: seq<Id>, configs: seq<WorkerConfig>, m: Id)
    requires Sound(db) && AllBuilt(db.top, ids, configs) && m in db.top.machines
    ensures exists d :: IsOnlyDisc(db.top, m, d)
  {
    hide IsBuilt;
    assert HasDisc(db.top, m);
    var d :| d in db.top.discs && db.top.discs[d].machine == m;
    assert IsOnlyDisc(db.top, m, d);
  }

  lemma BuiltWorkerIsUnused(top: Topology, ids: seq<Id>, configs: seq<WorkerConfig>, w: Id)
    requires AllBuilt(top, ids, configs) && w in top.workers
    ensures top.workers[w].usedMB == 0 && top.workers[w].usedBytes == 0
    ensures forall d :: d in DiscsBehind(top, w) ==> top.discs[d].usedMB == 0 && top.discs[d].usedBytes == 0
  {}

  /** After a build, the cluster is one that uploads can start from. */
  lemma BuiltIsFresh(db: Db, ids: seq<Id>, configs: seq<WorkerConfig>, files: Files, nextId: Id)
    requires Sound(db) && AllBuilt(db.top, ids, configs) && db.rows == [] && db.blobs == map[]
    requires FilesOk(files, nextId)
    ensures Fresh(UP.World(db.top, db.blobs, db.rows, files, map[], nextId))
  {
    hide AllBuilt, NamespacesUnique, OneDiscPerMachine, FilesOk;
    forall d | d in db.top.discs ensures db.top.discs[d].usedMB == 0 && db.top.discs[d].usedBytes == 0 {
      var w := db.top.machines[db.top.discs[d].machine].worker;
      BuiltWorkerIsUnused(db.top, ids, configs, w);
      assert d in DiscsBehind(db.top, w);
    }
    forall w | w in db.top.workers ensures db.top.workers[w].usedMB == 0 && db.top.workers[w].usedBytes == 0 {
      BuiltWorkerIsUnused(db.top, ids, configs, w);
    }
  }
}
