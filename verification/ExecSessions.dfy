/** The bookkeeping of exec sessions. Creating or removing a session takes several database writes; whoever
    makes them holds the container's lock, and may crash between any two, while others work on other
    containers. */
module ExecSessions {
  import opened Digraphs
  import opened Containers
  import opened Databases
  import opened DatabaseInvariants
  import opened RecordInvariants
  import opened PodInvariants
  import opened DatabaseRuns

  /** Session `s` is registered for container `c`. */
  ghost predicate RegisteredFor(db: Database, s: Id, c: Id) {
    s in db.execs && db.execs[s] == c
  }

  /** A session registered for a live container is in that container's exec bucket and in its saved state. */
  ghost predicate Recorded(db: Database) {
    forall s {:trigger db.execs[s]} :: s in db.execs && db.execs[s] in db.ctrs ==>
      s in db.ctrs[db.execs[s]].execs && s in db.ctrs[db.execs[s]].savedExecs
  }

  /** Every registered session belongs to a live container. */
  ghost predicate NoOrphans(db: Database) {
    forall s {:trigger db.execs[s]} :: s in db.execs ==> db.execs[s] in db.ctrs
  }

  // ---------------------------------------------------------------- the machine

  /** What the holder of a container's lock is about to write. */
  datatype Todo = Nothing | Register(s: Id)

  /** The holder of a container's lock: the exec sessions of its copy of the state, and what comes next. */
  datatype Holder = Holder(sessions: set<Id>, todo: Todo)

  datatype World = World(db: Database, holders: map<Id, Holder>)

  datatype Event =
    | Lock(c: Id)                    // take the lock and sync the copy of the state
    | Leave(c: Id)                   // release the lock, or crash, whatever is still to be done
    | CreateSave(c: Id, s: Id)       // ExecCreate: save the new session with the state ...
    | CreateRegister(c: Id)          // ... and register it
    | RemoveUnregister(c: Id, s: Id) // ExecRemove: unregister the session ...
    | UnregisterAll(c: Id)           // removeAllExecSessions, init: unregister all sessions ...
    | Save(c: Id)                    // ... and save the state; also any other save
    | Other(op: Op)                  // an operation that has nothing to do with sessions

  /** The operations that go through the events above. */
  predicate IsSessionOp(op: Op) {
    op.SaveContainer? || op.AddExecSession? || op.RemoveExecSession? || op.RemoveContainerExecSessions?
  }

  predicate Idle(w: World, c: Id) {
    c in w.holders && w.holders[c].todo.Nothing?
  }

  /** Events keep to the locks: nobody removes a container while another holds its lock, and a reboot leaves
      no one running. */
  ghost predicate Enabled(w: World, e: Event) {
    match e
    case Lock(c) => c in w.db.ctrs && c !in w.holders
    case Leave(c) => c in w.holders
    case CreateSave(c, s) => Idle(w, c) && s !in w.holders[c].sessions
    case CreateRegister(c) => c in w.holders && w.holders[c].todo.Register?
    case RemoveUnregister(c, s) => Idle(w, c) && s in w.holders[c].sessions
    case UnregisterAll(c) => Idle(w, c)
    case Save(c) => Idle(w, c)
    case Other(op) =>
      && !IsSessionOp(op) && Legal(w.db, op)
      && (op.RemoveContainer? ==> op.cfg.id !in w.holders)
      && (op.RemovePodContainers? && op.p in w.db.pods ==> w.db.pods[op.p].containers.Keys !! w.holders.Keys)
      && (op.Refresh? ==> w.holders == map[])
  }

  function Hold(w: World, c: Id, sessions: set<Id>, todo: Todo): map<Id, Holder> {
    w.holders[c := Holder(sessions, todo)]
  }

  ghost function Next(w: World, e: Event): World
    requires Enabled(w, e)
  {
    match e
    case Lock(c) => World(w.db, Hold(w, c, w.db.ctrs[c].savedExecs, Nothing))
    case Leave(c) => World(w.db, w.holders - {c})
    case CreateSave(c, s) =>
      var sessions := w.holders[c].sessions + {s};
      var op := SaveContainer(c, sessions);
      World(Step(w.db, op), Hold(w, c, sessions, if Apply(w.db, op).Some? then Register(s) else Nothing))
    case CreateRegister(c) =>
      World(Step(w.db, AddExecSession(c, w.holders[c].todo.s)), Hold(w, c, w.holders[c].sessions, Nothing))
    case RemoveUnregister(c, s) =>
      var op := RemoveExecSession(c, s);
      var sessions := if Apply(w.db, op).Some? then w.holders[c].sessions - {s} else w.holders[c].sessions;
      World(Step(w.db, op), Hold(w, c, sessions, Nothing))
    case UnregisterAll(c) => World(Step(w.db, RemoveContainerExecSessions(c)), Hold(w, c, {}, Nothing))
    case Save(c) => World(Step(w.db, SaveContainer(c, w.holders[c].sessions)), w.holders)
    case Other(op) => World(Step(w.db, op), w.holders)
  }

  // ---------------------------------------------------------------- what every event keeps

  /** What the holder of the lock of container `c` may rely on. */
  ghost predicate HolderOk(db: Database, c: Id, h: Holder) {
    && c in db.ctrs
    && (forall s {:trigger RegisteredFor(db, s, c)} :: RegisteredFor(db, s, c) ==> s in h.sessions)
    && (h.todo.Register? ==> h.todo.s in h.sessions && h.todo.s in db.ctrs[c].savedExecs)
  }

  ghost predicate HoldersOk(w: World) {
    forall c {:trigger w.holders[c]} :: c in w.holders ==> HolderOk(w.db, c, w.holders[c])
  }

  ghost predicate Inv(w: World) {
    ExecBuckets(w.db) && Recorded(w.db) && HoldersOk(w)
  }

  /** The session part of `t` for container `c` is that of `db`. */
  ghost predicate SameSessions(db: Database, t: Database, c: Id) {
    && (c in t.ctrs <==> c in db.ctrs)
    && (c in t.ctrs ==> t.ctrs[c].execs == db.ctrs[c].execs && t.ctrs[c].savedExecs == db.ctrs[c].savedExecs)
    && (forall s {:trigger RegisteredFor(t, s, c)} :: RegisteredFor(t, s, c) <==> RegisteredFor(db, s, c))
  }

  /** An event about container `c` leaves the other holders' containers alone. */
  lemma OthersKeep(w: World, t: Database, c: Id, h: Holder)
    requires HoldersOk(w) && HolderOk(t, c, h)
    requires forall d {:trigger SameSessions(w.db, t, d)} :: d != c && d in w.holders ==> SameSessions(w.db, t, d)
    ensures HoldersOk(World(t, w.holders[c := h]))
  {
    var v := World(t, w.holders[c := h]);
    forall d | d in v.holders ensures HolderOk(v.db, d, v.holders[d]) {
      if d != c {
        assert SameSessions(w.db, t, d) && HolderOk(w.db, d, w.holders[d]);
      }
    }
  }

  lemma SaveKeepsRecorded(db: Database, c: Id, sessions: set<Id>)
    requires Recorded(db) && c in db.ctrs
    requires forall s {:trigger RegisteredFor(db, s, c)} :: RegisteredFor(db, s, c) ==> s in sessions
    ensures Recorded(SaveContainerTx(db, c, sessions).value)
  {
    var t := SaveContainerTx(db, c, sessions).value;
    forall s | s in t.execs && t.execs[s] in t.ctrs
      ensures s in t.ctrs[t.execs[s]].execs && s in t.ctrs[t.execs[s]].savedExecs
    {
      assert db.execs[s] == c ==> RegisteredFor(db, s, c);
    }
  }

  lemma SaveKeepsOthers(db: Database, c: Id, sessions: set<Id>, d: Id)
    requires c in db.ctrs && d != c
    ensures SameSessions(db, SaveContainerTx(db, c, sessions).value, d)
  {
  }

  lemma RegisterKeepsRecorded(db: Database, c: Id, s: Id)
    requires Recorded(db) && c in db.ctrs && s in db.ctrs[c].savedExecs
    ensures Recorded(Step(db, AddExecSession(c, s)))
    ensures forall r {:trigger RegisteredFor(Step(db, AddExecSession(c, s)), r, c)} ::
              RegisteredFor(Step(db, AddExecSession(c, s)), r, c) ==> r == s || RegisteredFor(db, r, c)
    ensures forall d {:trigger SameSessions(db, Step(db, AddExecSession(c, s)), d)} ::
              d != c ==> SameSessions(db, Step(db, AddExecSession(c, s)), d)
  {
  }

  /** Sessions are unregistered at most, and those that stay registered stay in the exec buckets. */
  ghost predicate Unregisters(db: Database, t: Database) {
    && t.ctrs.Keys == db.ctrs.Keys
    && (forall r {:trigger t.execs[r]} :: r in t.execs ==> r in db.execs && t.execs[r] == db.execs[r])
    && (forall d {:trigger t.ctrs[d]} :: d in t.ctrs ==> t.ctrs[d].savedExecs == db.ctrs[d].savedExecs)
    && (forall d, r {:trigger r in t.ctrs[d].execs} ::
          d in t.ctrs && r in db.ctrs[d].execs && r in t.execs ==> r in t.ctrs[d].execs)
  }

  lemma UnregisteringKeepsRecorded(db: Database, t: Database)
    requires Recorded(db) && Unregisters(db, t)
    ensures Recorded(t)
  {
    forall r | r in t.execs && t.execs[r] in t.ctrs
      ensures r in t.ctrs[t.execs[r]].execs && r in t.ctrs[t.execs[r]].savedExecs
    {
      assert db.execs[r] == t.execs[r];
    }
  }

  lemma UnregisterUnregisters(db: Database, c: Id, s: Id)
    requires RemoveExecSessionTx(db, c, s).Some?
    ensures Unregisters(db, RemoveExecSessionTx(db, c, s).value)
  {
    var t := RemoveExecSessionTx(db, c, s).value;
    RemoveExecKeepsConfigs(db, c, s);
    forall d, r | d in t.ctrs && r in db.ctrs[d].execs && r in t.execs ensures r in t.ctrs[d].execs { assert r != s; }
  }

  lemma UnregisterKeepsOther(db: Database, c: Id, s: Id, d: Id)
    requires RemoveExecSessionTx(db, c, s).Some? && d != c
    ensures SameSessions(db, RemoveExecSessionTx(db, c, s).value, d)
  {
    var t := RemoveExecSessionTx(db, c, s).value;
    RemoveExecKeepsConfigs(db, c, s);
    forall r ensures RegisteredFor(t, r, d) <==> RegisteredFor(db, r, d) { assert r == s ==> !RegisteredFor(db, r, d); }
  }

  lemma UnregisterKeepsOthers(db: Database, c: Id, s: Id, d: Id)
    ensures var t := Step(db, RemoveExecSession(c, s));
            && (d != c ==> SameSessions(db, t, d))
            && (c in t.ctrs <==> c in db.ctrs)
            && (forall r {:trigger RegisteredFor(t, r, c)} :: RegisteredFor(t, r, c) ==> RegisteredFor(db, r, c))
            && (Apply(db, RemoveExecSession(c, s)).Some? ==> !RegisteredFor(t, s, c))
  {
    if RemoveExecSessionTx(db, c, s).Some? {
      UnregisterUnregisters(db, c, s);
      if d != c { UnregisterKeepsOther(db, c, s, d); }
    }
  }

  /** With the exec bucket in order, unregistering a container's sessions cannot fail, and gets them all. */
  lemma UnregisterAllKeepsRecorded(db: Database, c: Id)
    requires ExecBuckets(db) && Recorded(db) && c in db.ctrs
    ensures Apply(db, RemoveContainerExecSessions(c)).Some? && Recorded(Step(db, RemoveContainerExecSessions(c)))
    ensures forall d {:trigger SameSessions(db, Step(db, RemoveContainerExecSessions(c)), d)} ::
              d != c ==> SameSessions(db, Step(db, RemoveContainerExecSessions(c)), d)
    ensures forall s {:trigger RegisteredFor(Step(db, RemoveContainerExecSessions(c)), s, c)} ::
              !RegisteredFor(Step(db, RemoveContainerExecSessions(c)), s, c)
  {
    var t := Step(db, RemoveContainerExecSessions(c));
    assert forall s :: s in db.ctrs[c].execs ==> !Mismatched(db, c, s);
    forall s | s in t.execs && t.execs[s] in t.ctrs
      ensures t.execs[s] != c && s in t.ctrs[t.execs[s]].execs && s in t.ctrs[t.execs[s]].savedExecs
    {
      assert s in db.execs && db.execs[s] == t.execs[s];
    }
    forall d | d != c ensures SameSessions(db, t, d) {
      forall s ensures RegisteredFor(t, s, d) <==> RegisteredFor(db, s, d) {
        assert s in db.ctrs[c].execs ==> RegisteredFor(db, s, c);
      }
    }
  }

  lemma AddKeepsSessions(db: Database, cfg: ContainerConfig, pod: Option<Id>, c: Id)
    requires AddContainerTx(db, cfg, pod).Some? && c != cfg.id
    ensures SameSessions(db, AddContainerTx(db, cfg, pod).value, c)
  {
  }

  lemma RemoveKeepsSessions(db: Database, cfg: ContainerConfig, pod: Option<Id>, c: Id)
    requires RemoveContainerTx(db, cfg, pod).Some? && c != cfg.id
    ensures SameSessions(db, RemoveContainerTx(db, cfg, pod).value, c)
  {
  }

  lemma RewriteKeepsSessions(db: Database, cfg: ContainerConfig, oldName: Option<Name>, newName: Option<Name>,
                             newCfg: ContainerConfig, c: Id)
    requires RewriteTx(db, cfg, oldName, newName, newCfg).Some?
    ensures SameSessions(db, RewriteTx(db, cfg, oldName, newName, newCfg).value, c)
  {
  }

  lemma ContainerOpsKeepSessions(db: Database, op: Op, c: Id)
    requires op.AddContainer? || op.RemoveContainer? || op.Rewrite?
    requires op.AddContainer? || op.RemoveContainer? ==> c != op.cfg.id
    ensures SameSessions(db, Step(db, op), c) && Step(db, op).execs == db.execs
  {
    if Apply(db, op).Some? {
      match op
      case AddContainer(cfg, pod) => AddKeepsSessions(db, cfg, pod, c);
      case RemoveContainer(cfg, pod) => RemoveKeepsSessions(db, cfg, pod, c);
      case Rewrite(cfg, oldName, newName, newCfg) => RewriteKeepsSessions(db, cfg, oldName, newName, newCfg, c);
    }
  }

  lemma RemovePodContainersKeepsSessions(db: Database, p: Id, c: Id)
    requires RemovePodContainersTx(db, p).Some? && c !in db.pods[p].containers
    ensures SameSessions(db, RemovePodContainersTx(db, p).value, c)
  {
  }

  lemma PodOpsKeepSessions(db: Database, op: Op, c: Id)
    requires op.AddPod? || op.RemovePod? || op.RemovePodContainers? || op.AddVolume? || op.RemoveVolume?
    requires op.RemovePodContainers? && op.p in db.pods ==> c !in db.pods[op.p].containers
    ensures SameSessions(db, Step(db, op), c) && Step(db, op).execs == db.execs
  {
    if op.RemovePodContainers? && Apply(db, op).Some? { RemovePodContainersKeepsSessions(db, op.p, c); }
  }

  /** The operations outside the protocol leave every container's sessions alone, but for containers that they
      add or remove, and for the refresh. */
  lemma OtherOpsKeepSessions(db: Database, op: Op, c: Id)
    requires !IsSessionOp(op) && !op.Refresh?
    requires op.AddContainer? || op.RemoveContainer? ==> c != op.cfg.id
    requires op.RemovePodContainers? && op.p in db.pods ==> c !in db.pods[op.p].containers
    ensures SameSessions(db, Step(db, op), c) && Step(db, op).execs == db.execs
  {
    if op.AddContainer? || op.RemoveContainer? || op.Rewrite? {
      ContainerOpsKeepSessions(db, op, c);
    } else {
      PodOpsKeepSessions(db, op, c);
    }
  }

  /** Recorded, container by container. */
  lemma SameSessionsKeepsRecorded(db: Database, t: Database, s: Id)
    requires Recorded(db) && s in t.execs && SameSessions(db, t, t.execs[s]) && t.execs[s] in t.ctrs
    ensures s in t.ctrs[t.execs[s]].execs && s in t.ctrs[t.execs[s]].savedExecs
  {
    assert RegisteredFor(t, s, t.execs[s]);
    assert RegisteredFor(db, s, t.execs[s]);
  }

  /** Adding a container keeps the sessions recorded if and only if none is registered for its ID already. */
  lemma AddKeepsRecordedIff(db: Database, cfg: ContainerConfig, pod: Option<Id>)
    requires Recorded(db) && Apply(db, AddContainer(cfg, pod)).Some?
    ensures Recorded(Step(db, AddContainer(cfg, pod))) <==> forall s :: !RegisteredFor(db, s, cfg.id)
  {
    var t := Step(db, AddContainer(cfg, pod));
    assert t.execs == db.execs && t.ctrs[cfg.id].execs == {};
    if Recorded(t) {
      forall s ensures !RegisteredFor(db, s, cfg.id) {
        assert RegisteredFor(db, s, cfg.id) ==> RegisteredFor(t, s, cfg.id);
      }
    }
    if forall s :: !RegisteredFor(db, s, cfg.id) {
      forall s | s in t.execs && t.execs[s] in t.ctrs
        ensures s in t.ctrs[t.execs[s]].execs && s in t.ctrs[t.execs[s]].savedExecs
      {
        assert !RegisteredFor(db, s, cfg.id);
        OtherOpsKeepSessions(db, AddContainer(cfg, pod), t.execs[s]);
        SameSessionsKeepsRecorded(db, t, s);
      }
    }
  }

  /** The exact condition under which an event keeps the sessions recorded. */
  ghost predicate NoStaleSession(db: Database, e: Event) {
    e.Other? && e.op.AddContainer? && Apply(db, e.op).Some? ==> forall s :: !RegisteredFor(db, s, e.op.cfg.id)
  }

  lemma OtherKeepsRecorded(db: Database, op: Op)
    requires Recorded(db) && !IsSessionOp(op) && NoStaleSession(db, Other(op))
    ensures Recorded(Step(db, op))
  {
    if op.AddContainer? {
      if Apply(db, op).Some? { AddKeepsRecordedIff(db, op.cfg, op.pod); }
    } else if !op.Refresh? && Apply(db, op).Some? {
      var t := Step(db, op);
      forall s | s in t.execs && t.execs[s] in t.ctrs
        ensures s in t.ctrs[t.execs[s]].execs && s in t.ctrs[t.execs[s]].savedExecs
      {
        OtherOpsKeepSessions(db, op, t.execs[s]);
        SameSessionsKeepsRecorded(db, t, s);
      }
    }
  }

  lemma OtherKeepsHolders(w: World, op: Op)
    requires HoldersOk(w) && Enabled(w, Other(op))
    ensures HoldersOk(Next(w, Other(op)))
  {
    var t := Step(w.db, op);
    if op.Refresh? || Apply(w.db, op).None? { return; }
    forall c | c in w.holders ensures HolderOk(t, c, w.holders[c]) {
      assert HolderOk(w.db, c, w.holders[c]);
      assert c in w.db.ctrs;
      OtherOpsKeepSessions(w.db, op, c);
    }
  }

  lemma CreateKeepsHolders(w: World, e: Event)
    requires Recorded(w.db) && HoldersOk(w) && Enabled(w, e) && (e.CreateSave? || e.CreateRegister? || e.Save?)
    ensures Recorded(Next(w, e).db) && HoldersOk(Next(w, e))
  {
    var h := w.holders[e.c];
    var w' := Next(w, e);
    assert HolderOk(w.db, e.c, h);
    if e.CreateRegister? {
      RegisterKeepsRecorded(w.db, e.c, h.todo.s);
    } else {
      var sessions := w'.holders[e.c].sessions;
      SaveKeepsRecorded(w.db, e.c, sessions);
      forall d | d != e.c ensures SameSessions(w.db, w'.db, d) { SaveKeepsOthers(w.db, e.c, sessions, d); }
      forall s ensures RegisteredFor(w'.db, s, e.c) <==> RegisteredFor(w.db, s, e.c) {}
    }
    assert w'.holders == w.holders[e.c := w'.holders[e.c]];
    OthersKeep(w, w'.db, e.c, w'.holders[e.c]);
  }

  lemma RemoveKeepsHolders(w: World, e: Event)
    requires ExecBuckets(w.db) && Recorded(w.db) && HoldersOk(w) && Enabled(w, e) && (e.RemoveUnregister? || e.UnregisterAll?)
    ensures Recorded(Next(w, e).db) && HoldersOk(Next(w, e))
  {
    var w' := Next(w, e);
    assert HolderOk(w.db, e.c, w.holders[e.c]);
    if e.UnregisterAll? {
      UnregisterAllKeepsRecorded(w.db, e.c);
    } else {
      if RemoveExecSessionTx(w.db, e.c, e.s).Some? {
        UnregisterUnregisters(w.db, e.c, e.s);
        UnregisteringKeepsRecorded(w.db, w'.db);
      }
      forall d ensures d != e.c ==> SameSessions(w.db, w'.db, d) { UnregisterKeepsOthers(w.db, e.c, e.s, d); }
      UnregisterKeepsOthers(w.db, e.c, e.s, e.c);
    }
    OthersKeep(w, w'.db, e.c, w'.holders[e.c]);
  }

  lemma LockKeepsHolders(w: World, e: Event)
    requires Recorded(w.db) && HoldersOk(w) && Enabled(w, e) && (e.Lock? || e.Leave?)
    ensures HoldersOk(Next(w, e))
  {
    if e.Lock? {
      forall s | RegisteredFor(w.db, s, e.c) ensures s in w.db.ctrs[e.c].savedExecs { assert w.db.execs[s] == e.c; }
    }
    forall c | c in Next(w, e).holders ensures HolderOk(w.db, c, Next(w, e).holders[c]) {
      assert c in w.holders ==> HolderOk(w.db, c, w.holders[c]);
    }
  }

  // ---------------------------------------------------------------- whole runs

  /** Every event keeps the bookkeeping in order; adding a container does so if no stale session awaits it. */
  lemma EventKeepsInv(w: World, e: Event)
    requires Inv(w) && Consistent(w.db) && Enabled(w, e) && NoStaleSession(w.db, e)
    ensures Inv(Next(w, e)) && Consistent(Next(w, e).db)
  {
    match e
    case Lock(_) => LockKeepsHolders(w, e);
    case Leave(_) => LockKeepsHolders(w, e);
    case CreateSave(c, s) =>
      StepKeepsConsistent(w.db, SaveContainer(c, w.holders[c].sessions + {s}));
      CreateKeepsHolders(w, e);
    case CreateRegister(c) =>
      StepKeepsConsistent(w.db, AddExecSession(c, w.holders[c].todo.s));
      CreateKeepsHolders(w, e);
    case RemoveUnregister(c, s) =>
      StepKeepsConsistent(w.db, RemoveExecSession(c, s));
      RemoveKeepsHolders(w, e);
    case UnregisterAll(c) =>
      StepKeepsConsistent(w.db, RemoveContainerExecSessions(c));
      RemoveKeepsHolders(w, e);
    case Save(c) =>
      StepKeepsConsistent(w.db, SaveContainer(c, w.holders[c].sessions));
      CreateKeepsHolders(w, e);
    case Other(op) =>
      StepKeepsConsistent(w.db, op);
      OtherKeepsRecorded(w.db, op);
      OtherKeepsHolders(w, op);
  }

  /** The world after a run. An event that is not enabled does nothing. */
  ghost function WorldAfter(es: seq<Event>): World {
    if es == [] then World(EmptyDatabase, map[])
    else
      var w, e := WorldAfter(es[..|es| - 1]), es[|es| - 1];
      if Enabled(w, e) then Next(w, e) else w
  }

  /** No container is added under an ID that a session is still registered for. */
  ghost predicate NoStaleRun(es: seq<Event>) {
    es != [] ==>
      var w, e := WorldAfter(es[..|es| - 1]), es[|es| - 1];
      NoStaleRun(es[..|es| - 1]) && (Enabled(w, e) ==> NoStaleSession(w.db, e))
  }

  /** Over every such run, with crashes anywhere and pods emptied at any time, a session registered for a live
      container is in that container's exec bucket and saved state. */
  lemma {:induction false} RunsAreRecorded(es: seq<Event>)
    requires NoStaleRun(es)
    ensures Inv(WorldAfter(es)) && Consistent(WorldAfter(es).db)
  {
    if es == [] {
      EmptyIsConsistent();
    } else {
      var w, e := WorldAfter(es[..|es| - 1]), es[|es| - 1];
      RunsAreRecorded(es[..|es| - 1]);
      if Enabled(w, e) { EventKeepsInv(w, e); }
    }
  }

  /** The sessions are recorded after each event. */
  ghost predicate AlwaysRecorded(es: seq<Event>) {
    Recorded(WorldAfter(es).db) && (es != [] ==> AlwaysRecorded(es[..|es| - 1]))
  }

  /** The condition is exact: on any other run some registered session of a live container gets lost. */
  lemma {:induction false} RecordedIffNoStaleSession(es: seq<Event>)
    ensures AlwaysRecorded(es) <==> NoStaleRun(es)
  {
    if NoStaleRun(es) { RunsAreRecorded(es); }
    if es != [] {
      var before, e := es[..|es| - 1], es[|es| - 1];
      RecordedIffNoStaleSession(before);
      if AlwaysRecorded(es) && e.Other? && e.op.AddContainer? && Apply(WorldAfter(before).db, e.op).Some? {
        AddKeepsRecordedIff(WorldAfter(before).db, e.op.cfg, e.op.pod);
      }
    }
  }

  // ---------------------------------------------------------------- runs that never reuse an ID

  /** The container that an event adds. */
  ghost function Added(w: World, e: Event): set<Id> {
    if e.Other? && e.op.AddContainer? && Enabled(w, e) && Apply(w.db, e.op).Some? then {e.op.cfg.id} else {}
  }

  /** The container IDs that were ever in the state. */
  ghost function UsedIds(es: seq<Event>): set<Id> {
    if es == [] then {} else UsedIds(es[..|es| - 1]) + Added(WorldAfter(es[..|es| - 1]), es[|es| - 1])
  }

  ghost predicate NeverReused(es: seq<Event>) {
    es != [] ==>
      NeverReused(es[..|es| - 1]) && Added(WorldAfter(es[..|es| - 1]), es[|es| - 1]) !! UsedIds(es[..|es| - 1])
  }

  /** Containers, and sessions' containers, are among `ids`. */
  ghost predicate IdsWithin(db: Database, ids: set<Id>) {
    db.ctrs.Keys <= ids && forall s {:trigger db.execs[s]} :: s in db.execs ==> db.execs[s] in ids
  }

  lemma OtherKeepsIdsWithin(db: Database, op: Op, ids: set<Id>)
    requires IdsWithin(db, ids) && !IsSessionOp(op)
    ensures IdsWithin(Step(db, op), ids + (if op.AddContainer? && Apply(db, op).Some? then {op.cfg.id} else {}))
  {
    var t := Step(db, op);
    if op.Refresh? || Apply(db, op).None? { return; }
    forall c | c in t.ctrs && !(op.AddContainer? && c == op.cfg.id) ensures c in ids {
      KeysOnlyGrowByAdding(db, op, c);
    }
    OtherOpsKeepRegistry(db, op);
  }

  lemma KeysOnlyGrowByAdding(db: Database, op: Op, c: Id)
    requires c in Step(db, op).ctrs && !(op.AddContainer? && c == op.cfg.id)
    ensures c in db.ctrs
  {
  }

  lemma OtherOpsKeepRegistry(db: Database, op: Op)
    requires !IsSessionOp(op) && !op.Refresh?
    ensures Step(db, op).execs == db.execs
  {
  }

  lemma SessionOpKeepsIdsWithin(db: Database, op: Op, ids: set<Id>)
    requires IdsWithin(db, ids) && IsSessionOp(op)
    ensures IdsWithin(Step(db, op), ids)
  {
    if op.RemoveExecSession? && Apply(db, op).Some? { UnregisterUnregisters(db, op.c, op.s); }
  }

  lemma EventKeepsIdsWithin(w: World, e: Event, ids: set<Id>)
    requires IdsWithin(w.db, ids) && Enabled(w, e)
    ensures IdsWithin(Next(w, e).db, ids + Added(w, e))
  {
    match e
    case Lock(_) =>
    case Leave(_) =>
    case CreateSave(c, s) => SessionOpKeepsIdsWithin(w.db, SaveContainer(c, w.holders[c].sessions + {s}), ids);
    case CreateRegister(c) => SessionOpKeepsIdsWithin(w.db, AddExecSession(c, w.holders[c].todo.s), ids);
    case RemoveUnregister(c, s) => SessionOpKeepsIdsWithin(w.db, RemoveExecSession(c, s), ids);
    case UnregisterAll(c) => SessionOpKeepsIdsWithin(w.db, RemoveContainerExecSessions(c), ids);
    case Save(c) => SessionOpKeepsIdsWithin(w.db, SaveContainer(c, w.holders[c].sessions), ids);
    case Other(op) => OtherKeepsIdsWithin(w.db, op, ids);
  }

  lemma {:induction false} IdsAreUsed(es: seq<Event>)
    ensures IdsWithin(WorldAfter(es).db, UsedIds(es))
  {
    if es != [] {
      var w, e := WorldAfter(es[..|es| - 1]), es[|es| - 1];
      IdsAreUsed(es[..|es| - 1]);
      if Enabled(w, e) { EventKeepsIdsWithin(w, e, UsedIds(es[..|es| - 1])); }
    }
  }

  /** If container IDs are never reused, every run keeps the sessions recorded, whatever it does to pods. */
  lemma {:induction false} NeverReusedIsRecorded(es: seq<Event>)
    requires NeverReused(es)
    ensures NoStaleRun(es) && Inv(WorldAfter(es)) && Consistent(WorldAfter(es).db)
  {
    if es != [] {
      var before, e := es[..|es| - 1], es[|es| - 1];
      NeverReusedIsRecorded(before);
      IdsAreUsed(before);
      var w := WorldAfter(before);
      if Enabled(w, e) && e.Other? && e.op.AddContainer? && Apply(w.db, e.op).Some? {
        assert e.op.cfg.id in Added(w, e);
        forall s ensures !RegisteredFor(w.db, s, e.op.cfg.id) {}
      }
    }
    RunsAreRecorded(es);
  }

  // ---------------------------------------------------------------- runs that empty no busy pod

  /** The containers of a pod are removed at once only when none of them has a registered session. */
  ghost predicate PodIsQuiet(db: Database, e: Event) {
    e.Other? && e.op.RemovePodContainers? && e.op.p in db.pods ==>
      forall s {:trigger db.execs[s]} :: s in db.execs ==> db.execs[s] !in db.pods[e.op.p].containers
  }

  ghost predicate QuietRun(es: seq<Event>) {
    es != [] ==> QuietRun(es[..|es| - 1]) && PodIsQuiet(WorldAfter(es[..|es| - 1]).db, es[|es| - 1])
  }

  lemma OtherKeepsNoOrphans(db: Database, op: Op)
    requires Recorded(db) && NoOrphans(db) && !IsSessionOp(op) && !op.Refresh? && PodIsQuiet(db, Other(op))
    ensures NoOrphans(Step(db, op))
  {
    var t := Step(db, op);
    if Apply(db, op).None? { return; }
    forall s | s in t.execs ensures t.execs[s] in t.ctrs {
      var c := db.execs[s];
      assert c in db.ctrs && db.ctrs[c].execs != {};
      if op.AddContainer? {
        assert c != op.cfg.id;
      }
      OtherOpsKeepSessions(db, op, c);
    }
  }

  lemma SessionOpKeepsNoOrphans(db: Database, op: Op)
    requires NoOrphans(db) && (op.SaveContainer? || op.AddExecSession? || op.RemoveContainerExecSessions?)
    ensures NoOrphans(Step(db, op))
  {
  }

  lemma UnregisterKeepsNoOrphans(db: Database, c: Id, s: Id)
    requires NoOrphans(db)
    ensures NoOrphans(Step(db, RemoveExecSession(c, s)))
  {
    if RemoveExecSessionTx(db, c, s).Some? { UnregisterUnregisters(db, c, s); }
  }

  lemma EventKeepsNoOrphans(w: World, e: Event)
    requires Recorded(w.db) && NoOrphans(w.db) && Enabled(w, e) && PodIsQuiet(w.db, e)
    ensures NoOrphans(Next(w, e).db)
  {
    match e
    case Lock(_) =>
    case Leave(_) =>
    case CreateSave(c, s) => SessionOpKeepsNoOrphans(w.db, SaveContainer(c, w.holders[c].sessions + {s}));
    case CreateRegister(c) => SessionOpKeepsNoOrphans(w.db, AddExecSession(c, w.holders[c].todo.s));
    case RemoveUnregister(c, s) => UnregisterKeepsNoOrphans(w.db, c, s);
    case UnregisterAll(c) => SessionOpKeepsNoOrphans(w.db, RemoveContainerExecSessions(c));
    case Save(c) => SessionOpKeepsNoOrphans(w.db, SaveContainer(c, w.holders[c].sessions));
    case Other(op) => if !op.Refresh? { OtherKeepsNoOrphans(w.db, op); }
  }

  /** A quiet run meets the condition, and in it every registered session belongs to a live container. */
  lemma {:induction false} QuietRunsHaveNoOrphans(es: seq<Event>)
    requires QuietRun(es)
    ensures NoStaleRun(es) && NoOrphans(WorldAfter(es).db)
  {
    if es != [] {
      var w, e := WorldAfter(es[..|es| - 1]), es[|es| - 1];
      QuietRunsHaveNoOrphans(es[..|es| - 1]);
      RunsAreRecorded(es[..|es| - 1]);
      NoOrphansNoStale(w.db, e);
      if Enabled(w, e) { EventKeepsNoOrphans(w, e); }
    }
  }

  lemma NoOrphansNoStale(db: Database, e: Event)
    requires NoOrphans(db)
    ensures NoStaleSession(db, e)
  {
    if e.Other? && e.op.AddContainer? {
      forall s ensures RegisteredFor(db, s, e.op.cfg.id) ==> e.op.cfg.id in db.ctrs {}
    }
  }

  // ---------------------------------------------------------------- a session that gets lost

  /** Removing a pod's containers at once leaves their sessions registered. A container that is then added
      under the same ID has a registered session that neither its exec bucket nor its saved state knows. */
  lemma ReuseLosesSession(db: Database, p: Id, cfg: ContainerConfig, s: Id)
    requires Consistent(db) && p in db.pods && cfg.pod == Some(p) && cfg.id in db.pods[p].containers
    requires cfg.id in db.ctrs && db.ctrs[cfg.id].config == cfg && RegisteredFor(db, s, cfg.id)
    requires DependencySet(cfg) == {} && cfg.namedVolumes == []
    ensures var t := Step(Step(db, RemovePodContainers(p)), AddContainer(cfg, Some(p)));
            Consistent(t) && cfg.id in t.ctrs && RegisteredFor(t, s, cfg.id) && s !in t.ctrs[cfg.id].savedExecs
  {
    PodCanAlwaysGo(db, p);
    var gone := Step(db, RemovePodContainers(p));
    RemovedPodMakesRoom(db, p, cfg);
    StepKeepsConsistent(db, RemovePodContainers(p));
    StepKeepsConsistent(gone, AddContainer(cfg, Some(p)));
  }

  lemma RemovedPodMakesRoom(db: Database, p: Id, cfg: ContainerConfig)
    requires Registries(db) && Membership(db) && RemovePodContainersTx(db, p).Some?
    requires cfg.id in db.pods[p].containers && cfg.id in db.ctrs && db.ctrs[cfg.id].config == cfg
    requires DependencySet(cfg) == {} && cfg.namedVolumes == []
    ensures CanAddContainer(RemovePodContainersTx(db, p).value, cfg, Some(p))
  {
    MemberNames(db, p);
    assert CtrRegistered(db, cfg.id);
    ValueOfKey(db.pods[p].containers, cfg.id);
  }

  lemma PodRun(p: Id, name: Name, cfg: ContainerConfig)
    requires cfg.id != p && cfg.name != name && cfg.pod == Some(p) && DependencySet(cfg) == {} && cfg.namedVolumes == []
    ensures var ops := [AddPod(p, name)] + [AddContainer(cfg, Some(p))];
            var db := After(ops);
            && LegalRun(ops) && p in db.pods && cfg.id in db.pods[p].containers
            && cfg.id in db.ctrs && db.ctrs[cfg.id].config == cfg && db.execs == map[]
  {
    var ops := [AddPod(p, name)];
    RunStep([], AddPod(p, name));
    assert [] + ops == ops;
    RunStep(ops, AddContainer(cfg, Some(p)));
    var one := After(ops);
    assert one == EmptyDatabase.(ids := map[p := name], names := map[name := p], allPods := map[p := name],
                                 pods := map[p := PodRecord(name, map[])]);
    assert CanAddContainer(one, cfg, Some(p));
  }

  /** Such a database exists: create the pod `p`, its container `cfg` and the session `s`. */
  lemma SessionRun(p: Id, name: Name, cfg: ContainerConfig, s: Id)
    requires cfg.id != p && cfg.name != name && cfg.pod == Some(p) && DependencySet(cfg) == {} && cfg.namedVolumes == []
    ensures var ops := [AddPod(p, name)] + [AddContainer(cfg, Some(p))] + [SaveContainer(cfg.id, {s})] +
                       [AddExecSession(cfg.id, s)];
            var db := After(ops);
            && LegalRun(ops) && p in db.pods && cfg.id in db.pods[p].containers
            && cfg.id in db.ctrs && db.ctrs[cfg.id].config == cfg && RegisteredFor(db, s, cfg.id)
  {
    var ops := [AddPod(p, name)] + [AddContainer(cfg, Some(p))];
    PodRun(p, name, cfg);
    RunStep(ops, SaveContainer(cfg.id, {s}));
    RunStep(ops + [SaveContainer(cfg.id, {s})], AddExecSession(cfg.id, s));
  }
}
