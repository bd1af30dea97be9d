/** Who uses a volume. Removing a container leaves its entries in the volumes' buckets behind, so the recorded
    users are the real ones only as long as no container ID comes back with other volumes. */
module VolumeUsers {
  import opened Digraphs
  import opened Containers
  import opened Databases
  import opened DatabaseInvariants
  import opened RecordInvariants
  import opened DatabaseRuns

  /** A live container that is entered as a user of a volume names that volume. */
  ghost predicate Exact(db: Database) {
    forall c, v {:trigger c in db.vols[v]} :: v in db.vols && c in db.vols[v] && c in db.ctrs ==> Uses(db, c, v)
  }

  /** The containers that name the volume in their configuration. */
  ghost function NamingContainers(db: Database, v: Name): set<Id> {
    set c | c in db.ctrs && Uses(db, c, v)
  }

  /** In every consistent database the users reported include every live container naming the volume. */
  lemma UsersIncludeNaming(db: Database, v: Name)
    requires Volumes(db) && v in db.vols
    ensures NamingContainers(db, v) <= Users(db, v)
  {
  }

  lemma ExactUsers(db: Database, v: Name)
    requires Volumes(db) && Exact(db) && v in db.vols
    ensures Users(db, v) == NamingContainers(db, v)
  {
    forall c | c in Users(db, v) ensures c in NamingContainers(db, v) { assert c in db.vols[v]; }
    UsersIncludeNaming(db, v);
  }

  /** Where the users are exact, a volume can be removed if and only if no container names it, whatever containers
      used it before; it is then gone, and nothing else is. */
  lemma VolumeRemovableIff(db: Database, v: Name)
    requires Volumes(db) && Exact(db) && v in db.vols
    ensures RemoveVolumeTx(db, v).Some? <==> NamingContainers(db, v) == {}
    ensures RemoveVolumeTx(db, v).Some? ==>
              var t := RemoveVolumeTx(db, v).value;
              v !in t.vols && v !in t.allVols && AddBack(t, v, db.vols[v]) == db
  {
    ExactUsers(db, v);
    if RemoveVolumeTx(db, v).Some? {
      var t := RemoveVolumeTx(db, v).value;
      assert t.allVols + {v} == db.allVols && t.vols[v := db.vols[v]] == db.vols;
    }
  }

  function AddBack(db: Database, v: Name, users: set<Id>): Database {
    db.(vols := db.vols[v := users], allVols := db.allVols + {v})
  }

  /** What adding `cfg` needs for the users to stay exact: whatever entries its ID has left behind are for
      volumes that it uses again. */
  ghost predicate NoStaleEntry(db: Database, cfg: ContainerConfig) {
    forall v {:trigger cfg.id in db.vols[v]} :: v in db.vols && cfg.id in db.vols[v] ==> v in cfg.namedVolumes
  }

  /** Adding a container keeps the users exact if and only if it revives no stale entry. */
  lemma AddKeepsExactIff(db: Database, cfg: ContainerConfig, pod: Option<Id>)
    requires Exact(db) && CanAddContainer(db, cfg, pod)
    ensures Exact(AddContainerTx(db, cfg, pod).value) <==> NoStaleEntry(db, cfg)
  {
    var t := AddContainerTx(db, cfg, pod).value;
    if NoStaleEntry(db, cfg) {
      forall c, v | v in t.vols && c in t.vols[v] && c in t.ctrs ensures Uses(t, c, v) {
        if c == cfg.id {
          assert cfg.id in db.vols[v] ==> v in cfg.namedVolumes;
        } else {
          assert c in db.vols[v] && Uses(db, c, v);
        }
      }
    }
    if Exact(t) {
      forall v | v in db.vols && cfg.id in db.vols[v] ensures v in cfg.namedVolumes {
        assert cfg.id in t.vols[v];
        assert Uses(t, cfg.id, v);
      }
    }
  }

  /** A database that keeps at most the old containers, with their volumes, and at most the old entries. */
  ghost predicate Narrows(db: Database, t: Database) {
    && t.ctrs.Keys <= db.ctrs.Keys
    && (forall c {:trigger t.ctrs[c]} :: c in t.ctrs ==> t.ctrs[c].config.namedVolumes == db.ctrs[c].config.namedVolumes)
    && (forall v {:trigger t.vols[v]} :: v in t.vols ==> t.vols[v] <= (if v in db.vols then db.vols[v] else {}))
  }

  lemma NarrowKeepsExact(db: Database, t: Database)
    requires Exact(db) && Narrows(db, t)
    ensures Exact(t)
  {
    forall c, v | v in t.vols && c in t.vols[v] && c in t.ctrs ensures Uses(t, c, v) {
      assert v in db.vols && c in db.vols[v];
      assert Uses(db, c, v);
      assert c in t.ctrs && t.ctrs[c].config.namedVolumes == db.ctrs[c].config.namedVolumes;
    }
  }

  ghost predicate KeepsEntries(db: Database, t: Database) {
    && t.vols == db.vols && t.ctrs.Keys <= db.ctrs.Keys
    && forall c {:trigger t.ctrs[c]} :: c in t.ctrs ==> t.ctrs[c].config == db.ctrs[c].config
  }

  lemma KeepingEntriesNarrows(db: Database, t: Database)
    requires KeepsEntries(db, t)
    ensures Narrows(db, t)
  {
  }

  lemma RemovalKeepsEntries(db: Database, cfg: ContainerConfig, pod: Option<Id>)
    ensures RemoveContainerTx(db, cfg, pod).Some? ==> KeepsEntries(db, RemoveContainerTx(db, cfg, pod).value)
  {
  }

  lemma EmptyingKeepsEntries(db: Database, p: Id)
    ensures RemovePodContainersTx(db, p).Some? ==> KeepsEntries(db, RemovePodContainersTx(db, p).value)
  {
  }

  lemma RemovalsKeepEntries(db: Database, op: Op)
    requires op.RemoveContainer? || op.AddPod? || op.RemovePod? || op.RemovePodContainers?
    ensures KeepsEntries(db, Step(db, op))
  {
    if op.RemoveContainer? {
      RemovalKeepsEntries(db, op.cfg, op.pod);
    } else if op.RemovePodContainers? {
      EmptyingKeepsEntries(db, op.p);
    }
  }

  lemma KeepsNarrows(db: Database, t: Database)
    requires Keeps(db, t) && t.vols == db.vols
    ensures Narrows(db, t)
  {
    forall c | c in t.ctrs ensures t.ctrs[c].config.namedVolumes == db.ctrs[c].config.namedVolumes {
      assert Kept(db.ctrs[c], t.ctrs[c]);
    }
  }

  lemma RewriteNarrows(db: Database, op: Op)
    requires op.Rewrite? && Legal(db, op)
    ensures Narrows(db, Step(db, op))
  {
    if Apply(db, op).Some? {
      RewriteKeeps(db, op.cfg, op.oldName, op.newName, op.newCfg);
      KeepsNarrows(db, Step(db, op));
    }
  }

  lemma AddVolumeNarrows(db: Database, v: Name)
    requires AddVolumeTx(db, v).Some?
    ensures Narrows(db, AddVolumeTx(db, v).value)
  {
  }

  lemma RemoveVolumeNarrows(db: Database, v: Name)
    requires RemoveVolumeTx(db, v).Some?
    ensures Narrows(db, RemoveVolumeTx(db, v).value)
  {
  }

  lemma VolumesNarrow(db: Database, op: Op)
    requires op.AddVolume? || op.RemoveVolume?
    ensures Narrows(db, Step(db, op))
  {
    if Apply(db, op).Some? {
      if op.AddVolume? { AddVolumeNarrows(db, op.v); } else { RemoveVolumeNarrows(db, op.v); }
    }
  }

  lemma UpdateKeepsEntries(db: Database, t: Database, c: Id, r: ContainerRecord)
    requires c in db.ctrs && r.config == db.ctrs[c].config && t.vols == db.vols && t.ctrs == db.ctrs[c := r]
    ensures KeepsEntries(db, t)
  {
  }

  lemma SavesKeepEntries(db: Database, op: Op)
    requires op.SaveContainer? || op.AddExecSession? || op.RemoveExecSession?
    ensures KeepsEntries(db, Step(db, op))
  {
    if Apply(db, op).Some? && op.c in db.ctrs {
      var r := Step(db, op).ctrs[op.c];
      UpdateKeepsEntries(db, Step(db, op), op.c, r);
    }
  }

  lemma ResetsKeepEntries(db: Database, op: Op)
    requires op.RemoveContainerExecSessions? || op.Refresh?
    ensures KeepsEntries(db, Step(db, op))
  {
  }

  lemma OtherStepsNarrow(db: Database, op: Op)
    requires Legal(db, op) && !op.AddContainer?
    ensures Narrows(db, Step(db, op))
  {
    if op.Rewrite? {
      RewriteNarrows(db, op);
    } else if op.AddVolume? || op.RemoveVolume? {
      VolumesNarrow(db, op);
    } else {
      if op.RemoveContainerExecSessions? || op.Refresh? {
        ResetsKeepEntries(db, op);
      } else if op.SaveContainer? || op.AddExecSession? || op.RemoveExecSession? {
        SavesKeepEntries(db, op);
      } else {
        RemovalsKeepEntries(db, op);
      }
      KeepingEntriesNarrows(db, Step(db, op));
    }
  }

  /** No other operation ever makes the users inexact. */
  lemma OtherStepsKeepExact(db: Database, op: Op)
    requires Exact(db) && Legal(db, op) && !op.AddContainer?
    ensures Exact(Step(db, op))
  {
    OtherStepsNarrow(db, op);
    NarrowKeepsExact(db, Step(db, op));
  }

  // ---------------------------------------------------------------- whole runs

  /** No container revives a stale entry. */
  ghost predicate NoStaleEntryRun(ops: seq<Op>) {
    ops != [] ==>
      var db, op := After(ops[..|ops| - 1]), ops[|ops| - 1];
      NoStaleEntryRun(ops[..|ops| - 1]) && (op.AddContainer? && Apply(db, op).Some? ==> NoStaleEntry(db, op.cfg))
  }

  /** The users are exact after each operation. */
  ghost predicate AlwaysExact(ops: seq<Op>) {
    Exact(After(ops)) && (ops != [] ==> AlwaysExact(ops[..|ops| - 1]))
  }

  /** All along a run the users are exact if and only if no container revives a stale entry. */
  lemma {:induction false} ExactIffNoStaleEntry(ops: seq<Op>)
    requires LegalRun(ops)
    ensures AlwaysExact(ops) <==> NoStaleEntryRun(ops)
  {
    if ops != [] {
      var db, op := After(ops[..|ops| - 1]), ops[|ops| - 1];
      ExactIffNoStaleEntry(ops[..|ops| - 1]);
      if Exact(db) {
        if !op.AddContainer? {
          OtherStepsKeepExact(db, op);
        } else if Apply(db, op).Some? {
          AddKeepsExactIff(db, op.cfg, op.pod);
        }
      }
    }
  }

  /** The container that an operation adds, if it succeeds. */
  ghost function Added(db: Database, op: Op): set<Id> {
    if op.AddContainer? && Apply(db, op).Some? then {op.cfg.id} else {}
  }

  /** The container IDs that the run has added so far. */
  ghost function AddedIds(ops: seq<Op>): set<Id> {
    if ops == [] then {} else AddedIds(ops[..|ops| - 1]) + Added(After(ops[..|ops| - 1]), ops[|ops| - 1])
  }

  /** No container is added under an ID that was in use before; an addition that fails uses none. */
  ghost predicate NeverReused(ops: seq<Op>) {
    ops != [] ==>
      NeverReused(ops[..|ops| - 1]) && Added(After(ops[..|ops| - 1]), ops[|ops| - 1]) !! AddedIds(ops[..|ops| - 1])
  }

  ghost predicate EntriesWithin(db: Database, ids: set<Id>) {
    forall v {:trigger db.vols[v]} :: v in db.vols ==> db.vols[v] <= ids
  }

  lemma StepKeepsEntriesWithin(db: Database, op: Op, ids: set<Id>)
    requires EntriesWithin(db, ids) && Legal(db, op)
    ensures EntriesWithin(Step(db, op), ids + Added(db, op))
  {
    if !op.AddContainer? { OtherStepsNarrow(db, op); }
  }

  lemma {:induction false} EntriesAreAdded(ops: seq<Op>)
    requires LegalRun(ops)
    ensures EntriesWithin(After(ops), AddedIds(ops))
  {
    if ops != [] {
      EntriesAreAdded(ops[..|ops| - 1]);
      StepKeepsEntriesWithin(After(ops[..|ops| - 1]), ops[|ops| - 1], AddedIds(ops[..|ops| - 1]));
    }
  }

  lemma {:induction false} NeverReusedRevivesNothing(ops: seq<Op>)
    requires LegalRun(ops) && NeverReused(ops)
    ensures NoStaleEntryRun(ops)
  {
    if ops != [] {
      var db, op := After(ops[..|ops| - 1]), ops[|ops| - 1];
      NeverReusedRevivesNothing(ops[..|ops| - 1]);
      EntriesAreAdded(ops[..|ops| - 1]);
      if op.AddContainer? && Apply(db, op).Some? { assert op.cfg.id in Added(db, op); }
    }
  }

  /** If container IDs are never reused, the users reported for a volume are exactly the live containers
      naming it, in every database that a run reaches. */
  lemma UsersOfRun(ops: seq<Op>, v: Name)
    requires LegalRun(ops) && NeverReused(ops) && v in After(ops).vols
    ensures Users(After(ops), v) == NamingContainers(After(ops), v)
  {
    NeverReusedIsExact(ops);
    ExactUsers(After(ops), v);
  }

  lemma NeverReusedIsExact(ops: seq<Op>)
    requires LegalRun(ops) && NeverReused(ops)
    ensures Volumes(After(ops)) && Exact(After(ops))
  {
    RunsAreConsistent(ops);
    NeverReusedRevivesNothing(ops);
    ExactIffNoStaleEntry(ops);
  }

  /** In such a run a volume can be removed as soon as the last container that names it is gone. */
  lemma VolumeRemovableInRun(ops: seq<Op>, v: Name)
    requires LegalRun(ops) && NeverReused(ops) && v in After(ops).vols
    ensures Apply(After(ops), RemoveVolume(v)).Some? <==> NamingContainers(After(ops), v) == {}
    ensures NamingContainers(After(ops), v) == {} ==>
              v !in After(ops + [RemoveVolume(v)]).vols && v !in After(ops + [RemoveVolume(v)]).allVols
  {
    NeverReusedIsExact(ops);
    RemoveVolumeStep(After(ops), v);
    RunStep(ops, RemoveVolume(v));
  }

  lemma RemoveVolumeStep(db: Database, v: Name)
    requires Volumes(db) && Exact(db) && v in db.vols
    ensures Apply(db, RemoveVolume(v)).Some? <==> NamingContainers(db, v) == {}
    ensures NamingContainers(db, v) == {} ==> v !in Step(db, RemoveVolume(v)).vols && v !in Step(db, RemoveVolume(v)).allVols
  {
    VolumeRemovableIff(db, v);
  }

  /** The only container of a database, with the volumes `vols`. */
  function OnlyContainer(vols: map<Name, set<Id>>, cfg: ContainerConfig): Database {
    EmptyDatabase.(
      ids := map[cfg.id := cfg.name], names := map[cfg.name := cfg.id], allCtrs := map[cfg.id := cfg.name],
      ctrs := map[cfg.id := NewRecord(cfg, None)], vols := vols, allVols := vols.Keys)
  }

  /** Adding to the empty state with the volumes `vols`, and removing again, gives back that state but for
      the entries in the volumes' buckets. */
  lemma AddToEmpty(vols: map<Name, set<Id>>, cfg: ContainerConfig)
    requires cfg.pod == None && DependencySet(cfg) == {} && Elems(cfg.namedVolumes) <= vols.Keys
    ensures Step(EmptyDatabase.(vols := vols, allVols := vols.Keys), AddContainer(cfg, None)) ==
            OnlyContainer(WithUser(vols, Elems(cfg.namedVolumes), cfg.id), cfg)
  {
    var db := EmptyDatabase.(vols := vols, allVols := vols.Keys);
    forall v | v in cfg.namedVolumes ensures v in db.vols { assert v in Elems(cfg.namedVolumes); }
    assert CanAddContainer(db, cfg, None);
    assert WithDependent(db.ctrs, {}, cfg.id) == map[];
  }

  lemma RemoveOnlyContainer(vols: map<Name, set<Id>>, cfg: ContainerConfig)
    requires cfg.pod == None && DependencySet(cfg) == {}
    ensures
      var db := OnlyContainer(vols, cfg);
      && Legal(db, RemoveContainer(cfg, None))
      && Step(db, RemoveContainer(cfg, None)) == EmptyDatabase.(vols := vols, allVols := vols.Keys)
  {
    assert WithoutDependent(map[cfg.id := NewRecord(cfg, None)] - {cfg.id}, {}, cfg.id) == map[];
  }

  lemma EnterUser(v: Name, users: set<Id>, c: Id)
    ensures Elems([v]) == {v}
    ensures WithUser(map[v := users], Elems([v]), c) == map[v := users + {c}]
  {
    assert v in [v];
  }

  function ReuseRun(v: Name, user: ContainerConfig, other: ContainerConfig): seq<Op> {
    [AddVolume(v)] + [AddContainer(user, None)] + [RemoveContainer(user, None)] + [AddContainer(other, None)]
  }

  lemma FirstUser(v: Name, user: ContainerConfig)
    requires user.pod == None && DependencySet(user) == {} && user.namedVolumes == [v]
    ensures LegalRun([AddVolume(v)] + [AddContainer(user, None)])
    ensures After([AddVolume(v)] + [AddContainer(user, None)]) == OnlyContainer(map[v := {user.id}], user)
  {
    RunStep([], AddVolume(v));
    assert [] + [AddVolume(v)] == [AddVolume(v)];
    RunStep([AddVolume(v)], AddContainer(user, None));
    var vols: map<Name, set<Id>> := map[v := {}];
    assert Step(EmptyDatabase, AddVolume(v)) == EmptyDatabase.(vols := vols, allVols := vols.Keys);
    EnterUser(v, {}, user.id);
    assert {} + {user.id} == {user.id};
    AddToEmpty(vols, user);
  }

  lemma Replaced(ops: seq<Op>, vols: map<Name, set<Id>>, user: ContainerConfig, other: ContainerConfig)
    requires LegalRun(ops) && After(ops) == OnlyContainer(vols, user)
    requires user.pod == other.pod == None && DependencySet(user) == DependencySet(other) == {}
    requires other.namedVolumes == []
    ensures LegalRun(ops + [RemoveContainer(user, None)] + [AddContainer(other, None)])
    ensures After(ops + [RemoveContainer(user, None)] + [AddContainer(other, None)]) == OnlyContainer(vols, other)
  {
    RunStep(ops, RemoveContainer(user, None));
    RemoveOnlyContainer(vols, user);
    RunStep(ops + [RemoveContainer(user, None)], AddContainer(other, None));
    AddToEmpty(vols, other);
    assert WithUser(vols, Elems([]), other.id) == vols;
  }

  /** With reuse they need not be: a volume is reported as used, and cannot be removed, although the only
      container in the database does not name it. */
  lemma ReuseBreaksExactness(v: Name, user: ContainerConfig, other: ContainerConfig)
    requires user.id == other.id && user.pod == other.pod == None && DependencySet(user) == DependencySet(other) == {}
    requires user.namedVolumes == [v] && other.namedVolumes == []
    ensures LegalRun(ReuseRun(v, user, other))
    ensures var db := After(ReuseRun(v, user, other));
            && v in db.vols && Users(db, v) == {other.id} && NamingContainers(db, v) == {}
            && RemoveVolumeTx(db, v).None?
  {
    FirstUser(v, user);
    Replaced([AddVolume(v)] + [AddContainer(user, None)], map[v := {user.id}], user, other);
    var db := OnlyContainer(map[v := {other.id}], other);
    assert other.id in Users(db, v);
  }
}
