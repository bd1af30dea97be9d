/** Runs of the state: any sequence of operations, each committed or rolled back, from the empty database. */
module DatabaseRuns {
  import opened Digraphs
  import opened Containers
  import opened Databases
  import opened DatabaseInvariants
  import opened RecordInvariants
  import opened PodInvariants

  /** The operations of the state. Containers are added and removed with the pod handle given, if any. */
  datatype Op =
    | AddContainer(cfg: ContainerConfig, pod: Option<Id>)
    | RemoveContainer(cfg: ContainerConfig, pod: Option<Id>)
    | Rewrite(cfg: ContainerConfig, oldName: Option<Name>, newName: Option<Name>, newCfg: ContainerConfig)
    | AddPod(p: Id, name: Name)
    | RemovePod(p: Id, name: Name)
    | RemovePodContainers(p: Id)
    | AddVolume(v: Name)
    | RemoveVolume(v: Name)
    | SaveContainer(c: Id, sessions: set<Id>)
    | AddExecSession(c: Id, s: Id)
    | RemoveExecSession(c: Id, s: Id)
    | RemoveContainerExecSessions(c: Id)
    | Refresh

  function Apply(db: Database, op: Op): Option<Database> {
    match op
    case AddContainer(cfg, pod) => if cfg.pod != pod then None else AddContainerTx(db, cfg, pod)
    case RemoveContainer(cfg, pod) => if cfg.pod != pod then None else RemoveContainerTx(db, cfg, pod)
    case Rewrite(cfg, oldName, newName, newCfg) => RewriteTx(db, cfg, oldName, newName, newCfg)
    case AddPod(p, name) => AddPodTx(db, p, name)
    case RemovePod(p, name) => RemovePodTx(db, p, name)
    case RemovePodContainers(p) => RemovePodContainersTx(db, p)
    case AddVolume(v) => AddVolumeTx(db, v)
    case RemoveVolume(v) => RemoveVolumeTx(db, v)
    case SaveContainer(c, sessions) => SaveContainerTx(db, c, sessions)
    case AddExecSession(c, s) => AddExecSessionTx(db, c, s)
    case RemoveExecSession(c, s) => RemoveExecSessionTx(db, c, s)
    case RemoveContainerExecSessions(c) => RemoveContainerExecSessionsTx(db, c)
    case Refresh => RefreshTx(db)
  }

  /** A failing operation is rolled back. */
  function Step(db: Database, op: Op): Database {
    Apply(db, op).GetOr(db)
  }

  /** What callers see to: the handles passed in carry what is stored. */
  ghost predicate Legal(db: Database, op: Op) {
    match op
    case RemoveContainer(cfg, _) => HandleOk(db, cfg)
    case Rewrite(cfg, oldName, newName, newCfg) => LegalRewrite(db, cfg, oldName, newName, newCfg)
    case RemovePod(p, name) => p in db.pods ==> db.pods[p].name == name
    case _ => true
  }

  function After(ops: seq<Op>): Database {
    if ops == [] then EmptyDatabase else Step(After(ops[..|ops| - 1]), ops[|ops| - 1])
  }

  ghost predicate LegalRun(ops: seq<Op>) {
    ops != [] ==> LegalRun(ops[..|ops| - 1]) && Legal(After(ops[..|ops| - 1]), ops[|ops| - 1])
  }

  lemma RunStep(ops: seq<Op>, op: Op)
    ensures After(ops + [op]) == Step(After(ops), op)
    ensures LegalRun(ops + [op]) <==> LegalRun(ops) && Legal(After(ops), op)
  {
    assert (ops + [op])[..|ops|] == ops;
  }

  lemma KeepsConfigsStep(db: Database, t: Database)
    requires Consistent(db) && KeepsConfigs(db, t) && Volumes(t) && ExecBuckets(t)
    ensures Consistent(t)
  {
    KeepsConfigsKeeps(db, t);
    KeepsConsistent(db, t);
  }

  lemma VolumeStep(db: Database, t: Database)
    requires Consistent(db) && KeepsConfigs(db, t) && Volumes(t) && t.ctrs == db.ctrs && t.execs == db.execs
    ensures Consistent(t)
  {
    KeepsConfigsStep(db, t);
  }

  lemma ExecStep(db: Database, t: Database)
    requires Consistent(db) && KeepsConfigs(db, t) && ExecBuckets(t) && t.vols == db.vols && t.allVols == db.allVols
    ensures Consistent(t)
  {
    KeepsConfigsKeeps(db, t);
    KeepsVolumes(db, t);
    KeepsConsistent(db, t);
  }

  lemma PodStep(db: Database, t: Database)
    requires Consistent(db) && Registries(t) && Membership(t) && Keeps(db, t) && t.ctrs == db.ctrs
    requires t.vols == db.vols && t.allVols == db.allVols && t.execs == db.execs
    ensures Consistent(t)
  {
    KeepsRest(db, t);
  }

  lemma ContainerStepKeepsConsistent(db: Database, op: Op)
    requires Consistent(db) && Legal(db, op) && (op.AddContainer? || op.RemoveContainer? || op.Rewrite?)
    ensures Consistent(Step(db, op))
  {
    if Apply(db, op).Some? {
      match op
      case AddContainer(cfg, _) => AddKeepsConsistent(db, cfg);
      case RemoveContainer(cfg, _) => RemoveKeepsConsistent(db, cfg);
      case Rewrite(cfg, oldName, newName, newCfg) => RewriteKeepsConsistent(db, cfg, oldName, newName, newCfg);
    }
  }

  lemma AddPodKeepsConsistent(db: Database, p: Id, name: Name)
    requires Consistent(db) && AddPodTx(db, p, name).Some?
    ensures Consistent(AddPodTx(db, p, name).value)
  {
    AddPodKeepsRegistries(db, p, name);
    AddPodKeepsMembership(db, p, name);
    PodStep(db, AddPodTx(db, p, name).value);
  }

  lemma RemovePodKeepsConsistent(db: Database, p: Id, name: Name)
    requires Consistent(db) && RemovePodTx(db, p, name).Some? && db.pods[p].name == name
    ensures Consistent(RemovePodTx(db, p, name).value)
  {
    RemovePodKeepsRegistries(db, p, name);
    RemovePodKeepsMembership(db, p, name);
    PodStep(db, RemovePodTx(db, p, name).value);
  }

  lemma PodStepKeepsConsistent(db: Database, op: Op)
    requires Consistent(db) && Legal(db, op) && (op.AddPod? || op.RemovePod? || op.RemovePodContainers?)
    ensures Consistent(Step(db, op))
  {
    if Apply(db, op).Some? {
      match op
      case AddPod(p, name) => AddPodKeepsConsistent(db, p, name);
      case RemovePod(p, name) => RemovePodKeepsConsistent(db, p, name);
      case RemovePodContainers(p) => RemovePodContainersKeepsConsistent(db, p);
    }
  }

  lemma VolumeStepKeepsConsistent(db: Database, op: Op)
    requires Consistent(db) && (op.AddVolume? || op.RemoveVolume?)
    ensures Consistent(Step(db, op))
  {
    if Apply(db, op).Some? {
      if op.AddVolume? { AddVolumeKeepsVolumes(db, op.v); } else { RemoveVolumeKeepsVolumes(db, op.v); }
      VolumeStep(db, Step(db, op));
    }
  }

  ghost predicate IsExecOp(op: Op) {
    op.SaveContainer? || op.AddExecSession? || op.RemoveExecSession? || op.RemoveContainerExecSessions? || op.Refresh?
  }

  lemma ExecStepKeepsConfigs(db: Database, op: Op)
    requires Registries(db) && Volumes(db) && ExecBuckets(db) && IsExecOp(op) && Apply(db, op).Some?
    ensures KeepsConfigs(db, Step(db, op)) && ExecBuckets(Step(db, op))
    ensures Step(db, op).vols == db.vols && Step(db, op).allVols == db.allVols
  {
    match op
    case SaveContainer(c, sessions) => SaveKeepsExecBuckets(db, c, sessions);
    case AddExecSession(c, s) => AddExecKeepsExecBuckets(db, c, s);
    case RemoveExecSession(c, s) => RemoveExecKeepsExecBuckets(db, c, s);
    case RemoveContainerExecSessions(c) => RemoveExecsKeepsExecBuckets(db, c);
    case Refresh => RefreshKeepsExecBuckets(db);
  }

  lemma ExecStepKeepsConsistent(db: Database, op: Op)
    requires Consistent(db) && IsExecOp(op)
    ensures Consistent(Step(db, op))
  {
    if Apply(db, op).Some? {
      ExecStepKeepsConfigs(db, op);
      ExecStep(db, Step(db, op));
    }
  }

  /** Every operation, committed or rolled back, keeps the database consistent. */
  lemma StepKeepsConsistent(db: Database, op: Op)
    requires Consistent(db) && Legal(db, op)
    ensures Consistent(Step(db, op))
  {
    match op
    case AddContainer(_, _) => ContainerStepKeepsConsistent(db, op);
    case RemoveContainer(_, _) => ContainerStepKeepsConsistent(db, op);
    case Rewrite(_, _, _, _) => ContainerStepKeepsConsistent(db, op);
    case AddPod(_, _) => PodStepKeepsConsistent(db, op);
    case RemovePod(_, _) => PodStepKeepsConsistent(db, op);
    case RemovePodContainers(_) => PodStepKeepsConsistent(db, op);
    case AddVolume(_) => VolumeStepKeepsConsistent(db, op);
    case RemoveVolume(_) => VolumeStepKeepsConsistent(db, op);
    case _ => ExecStepKeepsConsistent(db, op);
  }

  /** Every database that a run reaches is consistent. */
  lemma {:induction false} RunsAreConsistent(ops: seq<Op>)
    requires LegalRun(ops)
    ensures Consistent(After(ops))
  {
    if ops == [] {
      EmptyIsConsistent();
    } else {
      RunsAreConsistent(ops[..|ops| - 1]);
      StepKeepsConsistent(After(ops[..|ops| - 1]), ops[|ops| - 1]);
    }
  }
}
