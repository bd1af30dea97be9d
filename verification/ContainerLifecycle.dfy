/** The container's operations as a program. The runtime, the exit file and everything else outside answer as
    they please; whatever they answer, what is saved follows the events of `Lifecycles`. A call is one critical
    section, but for the window in which a stop releases the lock: there it is split in two, and any other
    calls may come between. */
module ContainerLifecycle {
  import opened Containers
  import opened Lifecycles

  /** What is found at the place of the exit file. */
  datatype ExitFile = NoFile | Inaccessible | Unreadable | Present(code: int)

  class Container {
    const cfg: RestartConfig
    const hasPidNs: bool               // the container has a PID namespace of its own
    var state: ContainerState          // the copy in memory
    var saved: ContainerState          // what the database has
    var exitFile: ExitFile             // what was found when the exit file was last looked for
    var refusals: nat                  // how often something outside failed or said no
    ghost var pending: seq<Event>      // what has happened to the copy since it was last synced or saved
    ghost var log: seq<Event>          // all that was ever saved

    ghost predicate Valid()
      reads this
    {
      Leads(cfg, Initial, log, saved) && Leads(cfg, saved, pending, state) && (hasPidNs ==> NoReports(log))
    }

    /** With a PID namespace of its own, the container saves no report of the runtime. */
    ghost predicate Saveable()
      reads this
    {
      hasPidNs ==> NoReports(pending)
    }

    /** The copy in memory is what is saved. */
    ghost predicate InSync()
      reads this
    {
      pending == [] && state == saved
    }

    constructor (cfg: RestartConfig, hasPidNs: bool)
      ensures Valid() && InSync() && saved == Initial && log == [] && this.cfg == cfg && this.hasPidNs == hasPidNs
    {
      this.cfg, this.hasPidNs := cfg, hasPidNs;
      state, saved, pending, log := Initial, Initial, [], [];
      exitFile, refusals := NoFile, 0;
      LeadsToItself(cfg, Initial);
    }

    /** Anything outside that may fail or say no: the runtime, the monitor, the network, the storage, the state of
        the dependencies. */
    method Ask() returns (yes: bool)
      modifies this`refusals
      ensures refusals == if yes then old(refusals) else old(refusals) + 1
    {
      yes := *;
      if !yes {
        refusals := refusals + 1;
      }
    }

    /** Changes the copy in memory. */
    method Set(s: ContainerState, ghost e: Event)
      requires Valid() && Next(cfg, state, e) == Some(s)
      modifies this`state, this`pending
      ensures Valid() && state == s && pending == old(pending) + [e]
    {
      LeadsAppend(cfg, saved, pending, state, e, s);
      pending := pending + [e];
      state := s;
    }

    method Save()
      requires Valid() && Saveable()
      modifies this`saved, this`pending, this`log
      ensures Valid() && InSync() && log == old(log + pending)
    {
      LeadsConcat(cfg, Initial, log, saved, pending, state);
      LeadsToItself(cfg, state);
      log := log + pending;
      pending := [];
      saved := state;
    }

    /** Reads the copy afresh from the database. */
    method Update()
      requires Valid()
      modifies this`state, this`pending
      ensures Valid() && InSync()
    {
      LeadsToItself(cfg, saved);
      pending := [];
      state := saved;
    }

    predicate StatusIn(statuses: set<ContainerStatus>)
      reads this
    {
      state.status in statuses
    }

    // -------------------------------------------------------------- exit files

    /** Handles an exit file, if there is one and the container is not known to have stopped. */
    method CheckExitFile() returns (ok: bool)
      requires Valid()
      modifies this`state, this`pending, this`exitFile, this`refusals
      ensures Valid() && refusals == if ok then old(refusals) else old(refusals) + 1
      ensures !Alive(old(state.status)) ==> ok && state == old(state) && pending == old(pending) && exitFile == old(exitFile)
      ensures Alive(old(state.status)) ==>
                match exitFile
                case NoFile => ok && state == old(state) && pending == old(pending)
                case Inaccessible => !ok && state == old(state) && pending == old(pending)
                case Unreadable => !ok && state == old(state).(status := Stopped) && pending == old(pending) + [ExitUnread]
                case Present(code) =>
                  && state == old(state).(status := Stopped, exited := true, exitCode := code)
                  && pending == old(pending) + [Exit(code, false)]
    {
      if !Alive(state.status) {
        return true;
      }
      exitFile := *;
      match exitFile
      case NoFile => return true;
      case Inaccessible =>
        refusals := refusals + 1;
        return false;
      case Unreadable =>
        Set(state.(status := Stopped), ExitUnread);
        refusals := refusals + 1;
        return false;
      case Present(code) =>
        Set(state.(status := Stopped, exited := true, exitCode := code), Exit(code, false));
        ok := Ask(); // the exit code may fail to be recorded
    }

    /** Syncs the copy with the database, and both with the exit file. */
    method SyncContainer() returns (ok: bool)
      requires Valid()
      modifies this
      ensures Valid() && (ok ==> InSync()) && refusals == if ok then old(refusals) else old(refusals) + 1
      ensures if ok && Alive(old(saved.status)) && exitFile.Present?
              then log == old(log) + [Exit(exitFile.code, true)] && saved == AfterExit(cfg, old(saved), exitFile.code, true)
              else log == old(log) && saved == old(saved)
      ensures pending == [] || pending == [ExitUnread] || (exitFile.Present? && pending == [Exit(exitFile.code, false)])
    {
      Update();
      if !StatusIn({Created, Running, Stopped, Stopping, Paused}) {
        return true;
      }
      var oldStatus := state.status;
      ok := CheckExitFile();
      if !ok || state.status == oldStatus {
        return ok;
      }
      ghost var code := state.exitCode;
      if Restarts(cfg.policy) && (oldStatus == Running || oldStatus == Paused) && !state.stoppedByUser {
        state := state.(restartPolicyMatch := true);
      }
      LeadsToItself(cfg, saved);
      LeadsAppend(cfg, saved, [], saved, Exit(code, true), state);
      pending := [] + [Exit(code, true)];
      Save();
    }

    method WaitForExitFileAndSync() returns (ok: bool)
      requires Valid() && InSync() && Alive(state.status)
      modifies this
      ensures Valid() && Quiet(old(log), log) && Calm(pending) && refusals == if ok then old(refusals) else old(refusals) + 1
      ensures ok ==> InSync() && saved == if exitFile.Present? then AfterExit(cfg, old(saved), exitFile.code, false) else old(saved)
      ensures !ok ==> saved == old(saved) || saved == old(saved).(status := Stopped, exitCode := -1)
    {
      var appeared := Ask();
      if !appeared {
        Set(state.(exitCode := -1, status := Stopped), ExitMissed);
        Save();
        return false;
      }
      ok := CheckExitFile();
      if !ok {
        return false;
      }
      Save();
    }

    /** Saves the copy once the container's monitor is gone, or waits for the exit file. */
    method WaitForConmonToExitAndSave() returns (ok: bool)
      requires Valid() && Alive(state.status) && (pending == [] || pending == [KillRequest])
      modifies this
      ensures Valid() && Quiet(old(log), log) && Calm(pending)
      ensures refusals == if ok then old(refusals) else old(refusals) + 1
      ensures ok ==> InSync() && saved == if exitFile.Present? then AfterExit(cfg, old(state), exitFile.code, false) else old(state)
    {
      var checked := Ask();
      if !checked {
        return false;
      }
      var conmonAlive := *;
      if !conmonAlive {
        ok := CheckExitFile();
        if !ok {
          return false;
        }
        Save();
        return true;
      }
      Save();
      ok := WaitForExitFileAndSync();
    }

    // -------------------------------------------------------------- the runtime

    /** Creates the container in the runtime. */
    method InitContainer(retainRetries: bool) returns (ok: bool)
      requires Valid() && InSync() && StatusIn({Configured, Exited})
      modifies this
      ensures Valid() && InSync() && refusals == if ok then old(refusals) else old(refusals) + 1
      ensures ok ==> log == old(log) + [Init(retainRetries)]
      ensures (log == old(log) && saved == old(saved))
           || (log == old(log) + [Init(retainRetries)] && saved == Initialized(old(saved), retainRetries))
    {
      var created := Ask();
      if !created {
        return false;
      }
      var s := state.(exitCode := 0, exited := false, status := Created, stoppedByUser := false, restartPolicyMatch := false);
      if !retainRetries {
        s := s.(restartCount := 0);
      }
      Set(s, Init(retainRetries));
      Save();
      ok := Ask(); // the network may fail to be set up
    }

    /** Deletes the container from the runtime. */
    method CleanupRuntime() returns (ok: bool)
      requires Valid() && Saveable()
      modifies this
      ensures Valid()
      ensures (log == old(log) && saved == old(saved) && state == old(state) && pending == old(pending))
           || (ok && InSync() && old(state.status) in {Stopped, Created} && log == old(log) + old(pending) + [Delete] &&
                 saved == old(state).(status := if old(state.status) == Stopped then Exited else Configured))
      ensures ok ==> !StatusIn({Stopped, Created})
      ensures refusals == if ok then old(refusals) else old(refusals) + 1
    {
      if !StatusIn({Stopped, Created}) {
        return true;
      }
      ok := CheckExitFile();
      if !ok {
        return false;
      }
      var deleted := Ask();
      if !deleted {
        return false;
      }
      Set(state.(status := if state.status == Stopped then Exited else Configured), Delete);
      Save();
    }

    /** Frees the container's resources; some of the steps save the copy. */
    method CleanUp()
      requires Valid() && Saveable()
      modifies this
      ensures Valid() && (old(InSync()) ==> InSync())
      ensures (log == old(log) && pending == old(pending)) || (pending == [] && Quiet(old(log) + old(pending), log))
      ensures refusals > old(refusals) || (refusals == old(refusals) && !StatusIn({Stopped, Created}))
      ensures old(state.status) !in {Stopped, Created} ==> state == old(state)
    {
      var network := *;
      if network {
        Save();
      }
      var ok := CleanupRuntime();
      var storage := *;
      if storage {
        Save();
      }
    }

    /** Deletes the container from the runtime and creates it again. */
    method Reinit(retainRetries: bool) returns (ok: bool)
      requires Valid() && InSync() && state.status == Stopped
      modifies this
      ensures Valid() && InSync() && Quiet(old(log), log) && refusals == if ok then old(refusals) else old(refusals) + 1
      ensures ok ==> saved == Initialized(old(saved), retainRetries)
    {
      ok := CleanupRuntime();
      if !ok {
        return false;
      }
      ok := InitContainer(retainRetries);
    }

    /** Mounts the container's storage and sets up its network. A container that is being removed is not
        mounted any more. */
    method Prepare() returns (ok: bool)
      requires Valid() && InSync()
      modifies this
      ensures Valid() && InSync() && log == old(log) && saved == old(saved)
      ensures ok ==> state.status != Removing && state.status != Unknown
      ensures refusals >= old(refusals) && (!ok ==> refusals > old(refusals) || state.status in {Removing, Unknown})
    {
      Save();
      ok := Ask();
      if state.status == Removing || state.status == Unknown {
        ok := false;
      }
    }

    /** Creates the container in the runtime, unless it is there. */
    method EnsureInitialized(retainRetries: bool) returns (ok: bool)
      requires Valid() && InSync() && state.status != Removing && state.status != Unknown
      modifies this
      ensures Valid() && InSync() && Quiet(old(log), log) && refusals == if ok then old(refusals) else old(refusals) + 1
      ensures ok ==> saved == if old(state.status) == Created || Alive(old(state.status)) then old(saved)
                              else Initialized(old(saved), retainRetries)
    {
      if state.status == Stopped {
        ok := Reinit(retainRetries);
      } else if StatusIn({Configured, Exited}) {
        ok := InitContainer(retainRetries);
      } else {
        ok := true;
      }
    }

    /** Starts the container in the runtime. */
    method StartProcess() returns (ok: bool)
      requires Valid() && InSync() && (state.status == Created || Alive(state.status))
      modifies this
      ensures Valid() && InSync() && refusals == if ok then old(refusals) else old(refusals) + 1
      ensures log == old(log) + (if ok then [Event.Start] else [])
      ensures saved == if ok then old(saved).(status := Running) else old(saved)
    {
      ok := Ask();
      if ok {
        Set(state.(status := Running), Event.Start);
        Save();
      }
    }

    /** Prepares and, if necessary, creates the container; cleans up if that fails. */
    method PrepareToStart(retainRetries: bool) returns (ok: bool)
      requires Valid() && InSync()
      modifies this
      ensures Valid() && InSync() && Quiet(old(log), log)
      ensures ok ==> saved == if old(state.status) == Created || Alive(old(state.status)) then old(saved)
                              else Initialized(old(saved), retainRetries)
      ensures refusals >= old(refusals)
      ensures !ok ==> refusals > old(refusals) || (saved == old(saved) && saved.status in {Removing, Unknown})
    {
      ok := Prepare();
      if ok {
        ok := EnsureInitialized(retainRetries);
      }
      if !ok {
        CleanUp();
      }
    }

    /** Prepares and starts the container; cleans up if that fails. */
    method PrepareAndStart(retainRetries: bool) returns (ok: bool)
      requires Valid() && InSync()
      modifies this
      ensures Valid() && InSync() && Quiet(old(log), log)
      ensures ok ==> saved == (if old(state.status) == Created || Alive(old(state.status)) then old(saved)
                               else Initialized(old(saved), retainRetries)).(status := Running)
      ensures refusals >= old(refusals)
      ensures !ok ==> refusals > old(refusals) || (saved == old(saved) && saved.status in {Removing, Unknown})
    {
      ok := PrepareToStart(retainRetries);
      if ok {
        ok := StartProcess();
        if !ok {
          CleanUp();
        }
      }
    }

    // -------------------------------------------------------------- stopping

    /** The first half of a stop. Its last act is to release the lock. */
    method StopBegin()
      requires Valid() && InSync() && StatusIn({Created, Running, Stopping})
      modifies this
      ensures Valid() && InSync() && log == old(log) + [StopRequest]
      ensures saved == old(saved).(status := Stopping, stoppedByUser := true) && refusals == old(refusals)
    {
      Set(state.(stoppedByUser := true, status := Stopping), StopRequest);
      Save();
    }

    /** The second half of a stop, with the lock taken again. If the container is gone from the database by then,
        the stop is as good as the runtime says. */
    method StopEnd() returns (ok: bool, gone: bool)
      requires Valid()
      modifies this
      ensures Valid() && Quiet(old(log), log) && Calm(pending) && (ok || gone ==> InSync())
      ensures gone ==> log == old(log) && saved == old(saved)
      ensures refusals >= old(refusals) && (!ok || gone ==> refusals > old(refusals))
      ensures ok && !gone && old(saved.status) != Stopping ==>
                log == old(log) + if Alive(old(saved.status)) && exitFile.Present? then [Exit(exitFile.code, true)] else []
      ensures ok && !gone && old(saved.status) == Stopping && exitFile.Present? ==> saved.status == Stopped && saved.exitCode == exitFile.code
    {
      var stopped := Ask();
      var found := Ask();
      gone := !found;
      Update();
      if gone {
        return stopped, true;
      }
      ok := SyncContainer();
      if !ok || !stopped {
        return false, false;
      }
      if state.status != Stopping {
        return true, false;
      }
      ok := WaitForConmonToExitAndSave();
    }

    // -------------------------------------------------------------- restart policy

    /** Restarts the container if its restart policy says so. */
    method HandleRestartPolicy() returns (restarted: bool, ok: bool)
      requires Valid() && InSync() && state.status != Removing
      modifies this
      ensures Valid() && InSync()
      ensures restarted ==> ok && ShouldRestart(cfg, old(saved)) && saved.status == Running
      ensures restarted ==> Quiet(old(log) + [PolicyRestart], log)
      ensures log == old(log) || (ShouldRestart(cfg, old(saved)) && Quiet(old(log) + [PolicyRestart], log))
      ensures ok && !restarted ==> log == old(log) && saved == old(saved)
      ensures ok && ShouldRestart(cfg, old(saved)) && !(old(saved.status) in {Running, Paused}) ==> restarted
      ensures restarted ==> saved.restartCount == old(saved.restartCount) + 1
      ensures refusals >= old(refusals) && (!ok ==> refusals > old(refusals) || old(saved.status) == Unknown)
    {
      if !ShouldRestart(cfg, state) {
        return false, true;
      }
      var dependenciesRun := Ask();
      if !dependenciesRun {
        return false, false;
      }
      if StatusIn({Running, Paused}) {
        return false, true;
      } else if state.status == Unknown {
        return false, false;
      }
      Set(state.(restartCount := state.restartCount + 1), PolicyRestart);
      Save();
      ok := PrepareAndStart(true);
      restarted := ok;
    }

    // -------------------------------------------------------------- the calls

    /** Syncs the copy for a call that needs one of the statuses. */
    method SyncAndCheck(statuses: set<ContainerStatus>) returns (ok: bool)
      requires Valid()
      modifies this
      ensures Valid() && Quiet(old(log), log) && Calm(pending)
      ensures ok ==> InSync() && saved.status in statuses
      ensures saved.status != Stopped ==> saved == old(saved) && log == old(log)
      ensures refusals >= old(refusals) && (!ok ==> refusals > old(refusals) || (InSync() && saved.status !in statuses))
    {
      ok := SyncContainer();
      if ok {
        ok := StatusIn(statuses);
      }
    }

    method InitCall() returns (ok: bool)
      requires Valid()
      modifies this
      ensures Valid() && Quiet(old(log), log)
      ensures ok ==> InSync() && saved.status == Created && Sound(saved) && saved.restartCount == 0
      ensures !ok ==> refusals > old(refusals) || saved.status !in {Configured, Stopped, Exited}
    {
      ok := SyncAndCheck({Configured, Stopped, Exited});
      if !ok {
        return false;
      }
      var dependenciesRun := Ask();
      if !dependenciesRun {
        return false;
      }
      ok := Prepare();
      if !ok {
        CleanUp();
        return false;
      }
      ok := EnsureInitialized(false);
    }

    /** Starts the container, from whatever status it can be started. */
    method StartCall() returns (ok: bool)
      requires Valid()
      modifies this
      ensures Valid() && Quiet(old(log), log)
      ensures ok ==> saved.status == Running && (Sound(old(saved)) ==> Sound(saved))
      ensures !ok ==> refusals > old(refusals) || saved.status !in {Configured, Created, Stopped, Exited}
    {
      ok := SyncAndCheck({Configured, Created, Stopped, Exited});
      if ok {
        ok := Ask(); // whether the dependencies run
      }
      if ok {
        ok := PrepareToStart(false);
        if ok {
          ok := StartProcess();
        }
      }
      if !ok {
        Save(); // with the error
      }
    }

    /** Starts the container on behalf of others, unless it runs. */
    method InitAndStart() returns (ok: bool)
      requires Valid() && InSync()
      modifies this
      ensures Valid() && Quiet(old(log), log)
      ensures ok ==> saved.status == Running
      ensures old(state.status) in {Unknown, Removing, Running, Paused} ==> log == old(log) && (ok <==> old(state.status) == Running)
      ensures !ok ==> refusals > old(refusals) || old(state.status) in {Unknown, Removing, Paused}
    {
      if StatusIn({Unknown, Removing}) {
        return false;
      }
      if state.status == Running {
        return true;
      }
      if state.status == Paused {
        return false;
      }
      ok := PrepareAndStart(false);
    }

    /** The first half of a stop by the user. */
    method StopCallBegin() returns (stopping: bool)
      requires Valid()
      modifies this
      ensures Valid() && Quiet(old(log), log)
      ensures stopping ==> InSync() && saved == old(saved).(status := Stopping, stoppedByUser := true)
      ensures !stopping ==> refusals > old(refusals) || saved.status !in {Created, Running, Stopping}
    {
      stopping := SyncAndCheck({Created, Running, Stopping});
      if stopping {
        StopBegin();
      } else {
        Save(); // with the error
      }
    }

    /** The second half of a stop by the user. */
    method StopCallEnd() returns (ok: bool)
      requires Valid()
      modifies this
      ensures Valid() && Quiet(old(log), log) && (!ok ==> refusals > old(refusals))
    {
      var gone;
      ok, gone := StopEnd();
      if !ok && !gone {
        Save(); // with the error
      }
    }

    /** The first half of a restart: a running container is stopped first, and the lock released meanwhile. */
    method RestartCallBegin() returns (ok: bool, stopping: bool)
      requires Valid()
      modifies this
      ensures Valid() && Quiet(old(log), log) && (ok ==> InSync())
      ensures stopping ==> ok && saved == old(saved).(status := Stopping, stoppedByUser := true)
      ensures ok && !stopping ==> saved.status in {Configured, Created, Stopped, Exited}
      ensures !ok ==> refusals > old(refusals) || saved.status !in {Configured, Created, Running, Stopped, Exited}
    {
      stopping := false;
      ok := SyncAndCheck({Configured, Created, Running, Stopped, Exited});
      if ok {
        ok := Ask(); // whether the dependencies run
      }
      if !ok {
        return false, false;
      }
      if state.status == Running {
        StopBegin();
        stopping := true;
      }
    }

    /** The second half of a restart. Whatever others made of a stopped container in between, it is started. */
    method RestartCallEnd(stopping: bool) returns (ok: bool)
      requires Valid() && (!stopping ==> InSync())
      modifies this
      ensures Valid() && Quiet(old(log), log)
      ensures ok ==> InSync() && saved.status == Running
      ensures !ok ==> refusals > old(refusals) || saved.status in {Removing, Unknown}
    {
      if stopping {
        var gone;
        ok, gone := StopEnd();
        if !ok || gone {
          return false; // of a container that is gone, nothing can be saved any more
        }
        var networkDown := Ask();
        if !networkDown {
          return false;
        }
      }
      ok := PrepareAndStart(false);
    }

    /** What a failed kill makes of the copy in memory: the runtime is asked for the status. */
    method UpdateContainerStatus(reported: ContainerStatus)
      requires Valid() && !StatusIn({Removing, Unknown}) && reported in {Created, Running, Paused, Stopped, Exited}
      modifies this`state, this`pending
      ensures Valid() && state == AsReported(old(state), reported) && pending == old(pending) + [Reported(reported)]
      ensures state == if reported == Exited then old(state).(status := Exited, exitCode := -1)
                       else if old(state.status) == Stopping && reported in {Running, Paused} then old(state)
                       else old(state).(status := reported)
    {
      var s := state;
      if reported == Exited {
        s := s.(status := Exited, exitCode := -1);
      } else if !(s.status == Stopping && (reported == Paused || reported == Running)) {
        s := s.(status := reported);
      }
      Set(s, Reported(reported));
    }

    /** Sends a signal. Only a SIGKILL is waited for, and only then is it saved that the user stopped the
        container. */
    method KillCall(sigkill: bool, failed: Option<ContainerStatus>) returns (ok: bool)
      requires Valid() && (failed.Some? ==> failed.value in {Created, Running, Paused, Stopped, Exited})
      modifies this
      ensures Valid() && Quiet(old(log), log)
      ensures ok && sigkill ==> InSync() && saved.stoppedByUser
      ensures ok && !sigkill ==> log == old(log) && state == old(saved).(stoppedByUser := true)
      ensures ok ==> failed.None?
      ensures !ok ==> refusals > old(refusals) || failed.Some? || saved.status !in {Running, Stopping, Paused}
    {
      ok := SyncAndCheck({Running, Stopping, Paused});
      if !ok {
        return false;
      }
      if failed.Some? {
        UpdateContainerStatus(failed.value);
        return false;
      }
      Set(state.(stoppedByUser := true), KillRequest);
      if sigkill {
        ok := WaitForConmonToExitAndSave();
      }
    }

    method PauseCall() returns (ok: bool)
      requires Valid()
      modifies this
      ensures Valid() && Quiet(old(log), log)
      ensures ok ==> log == old(log) + [Pause] && saved == old(saved).(status := Paused)
      ensures !ok ==> refusals > old(refusals) || saved.status != Running
    {
      ok := SyncAndCheck({Running});
      if ok {
        ok := Ask();
      }
      if !ok {
        return false;
      }
      Set(state.(status := Paused), Pause);
      Save();
    }

    method UnpauseCall() returns (ok: bool)
      requires Valid()
      modifies this
      ensures Valid() && Quiet(old(log), log)
      ensures ok ==> log == old(log) + [Unpause] && saved == old(saved).(status := Running)
      ensures !ok ==> refusals > old(refusals) || saved.status != Paused
    {
      ok := SyncAndCheck({Paused});
      if ok {
        ok := Ask();
      }
      if !ok {
        return false;
      }
      Set(state.(status := Running), Unpause);
      Save();
    }

    /** Restarts the container by policy, or else frees its resources. `failed` is what the runtime reports if
        the processes of a container without PID namespace cannot be killed. There is at most one restart, and
        only if the state, once synced, calls for it; a report may be saved, and nothing else that is not calm. */
    method CleanupCall(failed: Option<ContainerStatus>)
      returns (ok: bool, ghost synced: seq<Event>, ghost syncedState: ContainerState)
      requires Valid() && (failed.Some? ==> !hasPidNs && failed.value in {Created, Running, Paused, Stopped, Exited})
      modifies this
      ensures Valid() && Quiet(old(log), synced) && Leads(cfg, Initial, synced, syncedState)
      ensures || Quiet(synced, log)
              || (failed.Some? && Quiet(synced + [Reported(failed.value)], log))
              || (ShouldRestart(cfg, syncedState) && Quiet(synced + [PolicyRestart], log))
      ensures ok && ShouldRestart(cfg, syncedState) ==> saved.status == Running && Quiet(synced + [PolicyRestart], log)
      ensures !ok ==> refusals > old(refusals) || syncedState.status !in {Configured, Created, Stopped, Stopping, Exited}
      ensures ok && !ShouldRestart(cfg, syncedState) && failed.None? ==>
                refusals > old(refusals) || saved.status !in {Stopped, Created}
    {
      ok := SyncAndCheck({Configured, Created, Stopped, Stopping, Exited});
      synced, syncedState := log, saved;
      if !ok {
        return;
      }
      var restarted;
      restarted, ok := HandleRestartPolicy();
      if !ok || restarted {
        return;
      }
      ok := CleanupResources(failed);
    }

    method CleanupResources(failed: Option<ContainerStatus>) returns (ok: bool)
      requires Valid() && InSync() && !StatusIn({Removing, Unknown})
      requires failed.Some? ==> !hasPidNs && failed.value in {Created, Running, Paused, Stopped, Exited}
      modifies this
      ensures Valid()
      ensures Quiet(old(log), log) || (failed.Some? && Quiet(old(log) + [Reported(failed.value)], log))
      ensures refusals >= old(refusals) && (!ok ==> refusals > old(refusals))
      ensures ok && failed.None? ==> refusals > old(refusals) || (InSync() && saved.status !in {Stopped, Created})
    {
      if failed.Some? {
        UpdateContainerStatus(failed.value);
        assert pending == [Reported(failed.value)];
      }
      var sessionsSaved := *;
      if sessionsSaved {
        Save();
      }
      var sessionsDead := Ask();
      if !sessionsDead {
        return false;
      }
      CleanUp();
      ok := Ask();
    }

    /** Without force, no live container but an infra container is removed. */
    method SyncForRemoval(force: bool, isInfra: bool) returns (ok: bool)
      requires Valid()
      modifies this
      ensures Valid() && Quiet(old(log), log)
      ensures ok ==> InSync() && (force || isInfra || !Alive(saved.status)) && (force || saved.status != Unknown)
      ensures refusals >= old(refusals)
      ensures !ok ==> refusals > old(refusals) || (!force && (saved.status == Unknown || (Alive(saved.status) && !isInfra)))
    {
      ok := SyncContainer();
      if ok && !force && (state.status == Unknown || (Alive(state.status) && !isInfra)) {
        ok := false;
      }
    }

    /** The first half of a removal: a live container is killed or stopped first. */
    method RemoveCallBegin(force: bool, isInfra: bool, failed: Option<ContainerStatus>) returns (ok: bool, stopping: bool)
      requires Valid() && (failed.Some? ==> failed.value in {Created, Running, Paused, Stopped, Exited})
      modifies this
      ensures Valid() && Quiet(old(log), log) && (ok ==> InSync())
      ensures stopping ==> ok && saved.status == Stopping && saved.stoppedByUser
      ensures ok && !stopping ==> saved.status != Running && saved.status != Stopping
      ensures !ok ==> || refusals > old(refusals) || failed.Some?
                      || (!force && (saved.status == Unknown || (Alive(saved.status) && !isInfra)))
    {
      stopping := false;
      ok := SyncForRemoval(force, isInfra);
      if ok && state.status == Paused {
        ok := KillPaused(failed);
      }
      if ok {
        ok := Ask(); // whether it is free of other users
      }
      if !ok {
        return false, false;
      }
      if StatusIn({Running, Stopping}) {
        StopBegin();
        stopping := true;
      }
    }

    /** Kills a paused container, which some systems first have to unpause. */
    method KillPaused(failed: Option<ContainerStatus>) returns (ok: bool)
      requires Valid() && InSync() && state.status == Paused
      requires failed.Some? ==> failed.value in {Created, Running, Paused, Stopped, Exited}
      modifies this
      ensures Valid() && Quiet(old(log), log) && (ok ==> InSync())
      ensures refusals >= old(refusals) && (!ok ==> refusals > old(refusals) || failed.Some?)
    {
      var unpauseFirst := *;
      if unpauseFirst {
        var unpaused := Ask();
        if !unpaused {
          return false;
        }
        Set(state.(status := Running), Unpause);
        Save();
      }
      if failed.Some? {
        UpdateContainerStatus(failed.value);
        return false;
      }
      ok := WaitForExitFileAndSync();
    }

    /** Frees the container's resources and marks it as being removed. */
    method MarkRemoving()
      requires Valid() && Calm(pending)
      modifies this
      ensures Valid() && InSync() && Quiet(old(log), log) && saved.status == Removing && refusals >= old(refusals)
    {
      CleanUp();
      assert Quiet(old(log), log) && Calm(pending);
      Set(state.(status := Removing), Remove);
      assert Calm(pending);
      Save();
    }

    /** The second half of a removal, up to the point where the container is marked. It may turn out to be gone. */
    method RemoveCallEnd(stopping: bool) returns (ok: bool, gone: bool)
      requires Valid() && (!stopping ==> InSync())
      modifies this
      ensures Valid() && Quiet(old(log), log)
      ensures ok && !gone ==> InSync() && saved.status == Removing
      ensures !ok || gone ==> refusals > old(refusals)
    {
      gone := false;
      if stopping {
        ok, gone := StopEnd();
        var monitorDead := *;
        if (!ok && !monitorDead) || gone {
          return;
        }
      }
      MarkRemoving();
      ok := true;
    }

    /** The reset of the saved state after a reboot. */
    method RefreshCall()
      requires Valid()
      modifies this
      ensures Valid() && InSync() && log == old(log) + [Event.Refresh] && saved == ResetState(old(saved))
      ensures saved == old(saved).(status := if old(saved.status) == Exited then Exited else Configured,
                                   stoppedByUser := false, restartPolicyMatch := false, restartCount := 0)
    {
      Update();
      Set(state.(status := if state.status != Exited then Configured else Exited,
                 stoppedByUser := false, restartPolicyMatch := false, restartCount := 0), Event.Refresh);
      Save();
    }

    /** The counter tells the restarts by policy, and stays within the retries allowed. With a PID namespace of
        its own, what the container has saved is sound. */
    lemma SavedIsSound()
      requires Valid()
      ensures IsLife(cfg, hasPidNs, log)
      ensures saved.restartCount == RestartsSinceReset(log) && WithinRetries(cfg, saved)
      ensures hasPidNs ==> Sound(saved)
    {
      LeadsIs(cfg, Initial, log, saved);
      RestartsAreCounted(cfg, log);
      if hasPidNs {
        RunsAreSound(cfg, log, |log|);
        assert log[..|log|] == log;
      }
    }
  }

  /** Neither a restart by policy nor a report of the runtime. */
  ghost predicate Calm(es: seq<Event>) {
    forall k {:trigger es[k]} :: 0 <= k < |es| ==> !es[k].PolicyRestart? && !es[k].Reported?
  }

  /** The log grows by calm events only. */
  ghost predicate Quiet(before: seq<Event>, after: seq<Event>) {
    && before <= after
    && forall k {:trigger after[k]} :: |before| <= k < |after| ==> !after[k].PolicyRestart? && !after[k].Reported?
  }
}
