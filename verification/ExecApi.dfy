/** The operations on exec sessions as a program over the state, with a crash after any number of writes. */
module ExecApi {
  import opened Digraphs
  import opened Containers
  import opened Databases
  import RecordInvariants
  import opened DatabaseRuns
  import opened ExecSessions
  import opened BoltStates

  /** A container handle whose lock is held. */
  class LockedContainer {
    const state: BoltState
    const id: Id
    var sessions: set<Id>

    /** Nobody but the holder of the lock changes the container's sessions. */
    ghost predicate Held()
      reads this`sessions, state`db
    {
      ExecBuckets(state.db) && Recorded(state.db) && HolderOk(state.db, id, Holder(sessions, Nothing))
    }

    /** Locks the container and syncs the handle. */
    constructor (state: BoltState, id: Id)
      requires id in state.db.ctrs && ExecBuckets(state.db) && Recorded(state.db)
      ensures this.state == state && this.id == id && Held()
    {
      this.state, this.id, sessions := state, id, state.db.ctrs[id].savedExecs;
      new;
      LockKeepsHolders(World(state.db, map[]), Lock(id));
      assert Next(World(state.db, map[]), Lock(id)).holders[id] == Holder(sessions, Nothing);
    }

    /** Saves the new session with the state, then registers it. */
    method ExecCreate(s: Id, writes: nat)
      requires Held() && s !in sessions
      modifies this`sessions, state`db
      ensures Held()
      ensures var save := Step(old(state.db), SaveContainer(id, old(sessions) + {s}));
              state.db == if writes == 0 then old(state.db) else if writes == 1 then save else Step(save, AddExecSession(id, s))
    {
      ghost var w := World(state.db, map[id := Holder(sessions, Nothing)]);
      ghost var w' := Next(w, CreateSave(id, s));
      CreateKeepsHolders(w, CreateSave(id, s));
      StepKeepsExecBuckets(w.db, SaveContainer(id, sessions + {s}));
      sessions := sessions + {s};
      if writes == 0 {
        return;
      }
      var saved := state.SaveContainer(id, sessions);
      assert HolderOk(w'.db, id, w'.holders[id]);
      if writes == 1 || !saved {
        return;
      }
      CreateKeepsHolders(w', CreateRegister(id));
      StepKeepsExecBuckets(w'.db, AddExecSession(id, s));
      var registered := state.AddExecSession(id, s);
      assert HolderOk(state.db, id, Next(w', CreateRegister(id)).holders[id]);
    }

    /** Unregisters the session, then saves the state without it. Stops if the session is not registered. */
    method ExecRemove(s: Id, writes: nat) returns (ok: bool)
      requires Held() && s in sessions
      modifies this`sessions, state`db
      ensures Held()
      ensures ok <==> Apply(old(state.db), RemoveExecSession(id, s)).Some? && writes >= 2
      ensures var unregistered := Step(old(state.db), RemoveExecSession(id, s));
              state.db == if writes == 0 then old(state.db) else if !ok then unregistered
                          else Step(unregistered, SaveContainer(id, old(sessions) - {s}))
    {
      if writes == 0 {
        return false;
      }
      ghost var w := World(state.db, map[id := Holder(sessions, Nothing)]);
      ghost var w' := Next(w, RemoveUnregister(id, s));
      RemoveKeepsHolders(w, RemoveUnregister(id, s));
      StepKeepsExecBuckets(w.db, RemoveExecSession(id, s));
      var removed := state.RemoveExecSession(id, s);
      assert HolderOk(w'.db, id, w'.holders[id]);
      if !removed {
        return false;
      }
      sessions := sessions - {s};
      if writes == 1 {
        return false;
      }
      Save();
      ok := true;
    }

    /** Unregisters all sessions and forgets them. The save is left to the caller. */
    method RemoveAllExecSessions()
      requires Held()
      modifies this`sessions, state`db
      ensures Held() && sessions == {}
      ensures state.db == Step(old(state.db), RemoveContainerExecSessions(id))
    {
      ghost var w := World(state.db, map[id := Holder(sessions, Nothing)]);
      ghost var w' := Next(w, UnregisterAll(id));
      RemoveKeepsHolders(w, UnregisterAll(id));
      StepKeepsExecBuckets(w.db, RemoveContainerExecSessions(id));
      var removed := state.RemoveContainerExecSessions(id);
      sessions := {};
      assert HolderOk(w'.db, id, w'.holders[id]);
    }

    method Save()
      requires Held()
      modifies state`db
      ensures Held() && state.db == Step(old(state.db), SaveContainer(id, sessions))
    {
      SaveHeld();
      var saved := state.SaveContainer(id, sessions);
    }

    /** What the removal of a container does to its sessions before it is marked. */
    method RemoveForGood(writes: nat)
      requires Held()
      modifies this`sessions, state`db
      ensures Held()
      ensures var unregistered := Step(old(state.db), RemoveContainerExecSessions(id));
              state.db == if writes == 0 then old(state.db) else if writes == 1 then unregistered
                          else Step(unregistered, SaveContainer(id, {}))
    {
      if writes == 0 {
        return;
      }
      RemoveAllExecSessions();
      if writes > 1 {
        Save();
      }
    }

    /** What an initialization does to sessions left over from an earlier run of the container. */
    method DropLeftovers(writes: nat)
      requires Held()
      modifies this`sessions, state`db
      ensures Held()
      ensures writes > 1 ==> state.db.ctrs[id].savedExecs == {} && forall s :: !RegisteredFor(state.db, s, id)
    {
      if writes == 0 {
        return;
      }
      if sessions != {} {
        RemoveAllExecSessions();
        if writes == 1 {
          return;
        }
      }
      Save();
    }

    /** Saving what the handle has keeps everything in order. */
    lemma SaveHeld()
      requires Held()
      ensures var t := Step(state.db, SaveContainer(id, sessions));
              ExecBuckets(t) && Recorded(t) && HolderOk(t, id, Holder(sessions, Nothing))
    {
      var w := World(state.db, map[id := Holder(sessions, Nothing)]);
      CreateKeepsHolders(w, Event.Save(id));
      StepKeepsExecBuckets(w.db, SaveContainer(id, sessions));
      assert HolderOk(Next(w, Event.Save(id)).db, id, Next(w, Event.Save(id)).holders[id]);
    }
  }

  lemma StepKeepsExecBuckets(db: Database, op: Op)
    requires ExecBuckets(db) && IsSessionOp(op)
    ensures ExecBuckets(Step(db, op))
  {
    if Apply(db, op).Some? {
      match op
      case SaveContainer(c, sessions) => RecordInvariants.SaveKeepsExecBuckets(db, c, sessions);
      case AddExecSession(c, s) => RecordInvariants.AddExecKeepsExecBuckets(db, c, s);
      case RemoveExecSession(c, s) => RecordInvariants.RemoveExecKeepsExecBuckets(db, c, s);
      case RemoveContainerExecSessions(c) => RecordInvariants.RemoveExecsKeepsExecBuckets(db, c);
    }
  }
}
