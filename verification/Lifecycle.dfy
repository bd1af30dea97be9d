/** The life of one container as a sequence of events, each a change of the state that is saved. */
module Lifecycles {
  import opened Containers

  datatype RestartPolicy = PolicyNone | PolicyNo | PolicyAlways | PolicyUnlessStopped | PolicyOnFailure

  datatype RestartConfig = RestartConfig(policy: RestartPolicy, retries: nat)

  /** The part of a container's state that governs its life. */
  datatype ContainerState = ContainerState(
    status: ContainerStatus,
    exited: bool,
    exitCode: int,
    stoppedByUser: bool,
    restartPolicyMatch: bool,
    restartCount: nat)

  /** The state that a container is created with. */
  const Initial := ContainerState(Configured, false, 0, false, false, 0)

  datatype Event =
    | Init(retainRetries: bool)
    | Start
    | Pause
    | Unpause
    | StopRequest                        // a stop, before the lock is released
    | KillRequest
    | Exit(code: int, bySync: bool)      // an exit file was found, by a sync or by waiting for it
    | ExitUnread                         // an exit file was found, but could not be read
    | ExitMissed                         // no exit file appeared in time
    | Delete                             // the container was deleted from the runtime
    | PolicyRestart                      // the restart policy takes effect
    | Reported(status: ContainerStatus)  // the runtime was asked for the status after a failed kill
    | Remove
    | Refresh                            // the reset after a reboot

  predicate Restarts(policy: RestartPolicy) {
    policy != PolicyNone && policy != PolicyNo
  }

  /** The container's process exists as far as the state says. */
  predicate Alive(status: ContainerStatus) {
    status == Running || status == Paused || status == Stopping
  }

  predicate ShouldRestart(cfg: RestartConfig, s: ContainerState) {
    && s.restartPolicyMatch && Restarts(cfg.policy)
    && (cfg.policy == PolicyOnFailure ==>
          s.exitCode != 0 && !(cfg.retries > 0 && s.restartCount >= cfg.retries))
  }

  function Initialized(s: ContainerState, retainRetries: bool): ContainerState {
    ContainerState(Created, false, 0, false, false, if retainRetries then s.restartCount else 0)
  }

  /** An exit that a sync notices matches the restart policy unless the user had stopped the container. */
  function AfterExit(cfg: RestartConfig, s: ContainerState, code: int, bySync: bool): ContainerState {
    s.(status := Stopped, exited := true, exitCode := code,
       restartPolicyMatch := s.restartPolicyMatch ||
         (bySync && Restarts(cfg.policy) && (s.status == Running || s.status == Paused) && !s.stoppedByUser))
  }

  function ResetState(s: ContainerState): ContainerState {
    s.(status := if s.status == Exited then Exited else Configured,
       stoppedByUser := false, restartPolicyMatch := false, restartCount := 0)
  }

  /** The state as the runtime reports it. */
  function AsReported(s: ContainerState, status: ContainerStatus): ContainerState {
    if status == Exited then s.(status := status, exitCode := -1)
    else if s.status == Stopping && (status == Paused || status == Running) then s
    else s.(status := status)
  }

  /** The state after an event, or None where the event cannot happen. */
  function Next(cfg: RestartConfig, s: ContainerState, e: Event): Option<ContainerState> {
    match e
    case Init(retainRetries) =>
      if s.status == Configured || s.status == Exited then Some(Initialized(s, retainRetries)) else None
    case Start => if s.status == Created || Alive(s.status) then Some(s.(status := Running)) else None
    case Pause => if s.status == Running then Some(s.(status := Paused)) else None
    case Unpause => if s.status == Paused then Some(s.(status := Running)) else None
    case StopRequest =>
      if s.status == Created || s.status == Running || s.status == Stopping
      then Some(s.(status := Stopping, stoppedByUser := true)) else None
    case KillRequest => if Alive(s.status) then Some(s.(stoppedByUser := true)) else None
    case Exit(code, bySync) => if Alive(s.status) then Some(AfterExit(cfg, s, code, bySync)) else None
    case ExitUnread => if Alive(s.status) then Some(s.(status := Stopped)) else None
    case ExitMissed => if Alive(s.status) then Some(s.(status := Stopped, exitCode := -1)) else None
    case Delete =>
      if s.status == Stopped then Some(s.(status := Exited))
      else if s.status == Created then Some(s.(status := Configured)) else None
    case PolicyRestart =>
      if ShouldRestart(cfg, s) && s.status !in {Running, Paused, Removing, Unknown}
      then Some(s.(restartCount := s.restartCount + 1)) else None
    case Reported(status) =>
      if status in {Created, Running, Paused, Stopped, Exited} && s.status !in {Removing, Unknown}
      then Some(AsReported(s, status)) else None
    case Remove => Some(s.(status := Removing))
    case Refresh => Some(ResetState(s))
  }

  function Follow(cfg: RestartConfig, s: ContainerState, es: seq<Event>): Option<ContainerState> {
    if es == [] then Some(s)
    else
      var before := Follow(cfg, s, es[..|es| - 1]);
      if before.None? then None else Next(cfg, before.value, es[|es| - 1])
  }

  /** `es` is a run from the creation of a container. */
  ghost predicate IsRun(cfg: RestartConfig, es: seq<Event>) {
    Follow(cfg, Initial, es).Some?
  }

  /** The events lead from `s` to `t`. This is put so that it is looked into only where one `Asks`; that keeps
      the recursion out of proofs that only pass it on. */
  ghost predicate Leads(cfg: RestartConfig, s: ContainerState, es: seq<Event>, t: ContainerState) {
    forall k: nat {:trigger Asks(k)} :: Asks(k) ==> Follow(cfg, s, es) == Some(t)
  }

  ghost predicate Asks(k: nat) {
    k >= 0
  }

  lemma LeadsIs(cfg: RestartConfig, s: ContainerState, es: seq<Event>, t: ContainerState)
    ensures Leads(cfg, s, es, t) <==> Follow(cfg, s, es) == Some(t)
  {
    assert Asks(0);
  }

  lemma LeadsToItself(cfg: RestartConfig, s: ContainerState)
    ensures Leads(cfg, s, [], s)
  {
    LeadsIs(cfg, s, [], s);
  }

  lemma LeadsAppend(cfg: RestartConfig, s: ContainerState, es: seq<Event>, t: ContainerState, e: Event, u: ContainerState)
    requires Leads(cfg, s, es, t) && Next(cfg, t, e) == Some(u)
    ensures Leads(cfg, s, es + [e], u)
  {
    LeadsIs(cfg, s, es, t);
    FollowAppend(cfg, s, es, e);
    LeadsIs(cfg, s, es + [e], u);
  }

  lemma LeadsConcat(cfg: RestartConfig, s: ContainerState, es: seq<Event>, t: ContainerState, fs: seq<Event>, u: ContainerState)
    requires Leads(cfg, s, es, t) && Leads(cfg, t, fs, u)
    ensures Leads(cfg, s, es + fs, u)
  {
    LeadsIs(cfg, s, es, t);
    LeadsIs(cfg, t, fs, u);
    FollowConcat(cfg, s, es, fs);
    LeadsIs(cfg, s, es + fs, u);
  }

  lemma FollowAppend(cfg: RestartConfig, s: ContainerState, es: seq<Event>, e: Event)
    requires Follow(cfg, s, es).Some?
    ensures Follow(cfg, s, es + [e]) == Next(cfg, Follow(cfg, s, es).value, e)
  {
    assert (es + [e])[..|es|] == es;
  }

  lemma {:induction false} FollowConcat(cfg: RestartConfig, s: ContainerState, es: seq<Event>, fs: seq<Event>)
    requires Follow(cfg, s, es).Some?
    ensures Follow(cfg, s, es + fs) == Follow(cfg, Follow(cfg, s, es).value, fs)
  {
    if fs == [] {
      assert es + fs == es;
    } else {
      var k := |fs| - 1;
      FollowConcat(cfg, s, es, fs[..k]);
      assert (es + fs)[..|es| + k] == es + fs[..k];
    }
  }

  lemma {:induction false} PrefixIsRun(cfg: RestartConfig, es: seq<Event>, k: nat)
    requires IsRun(cfg, es) && k <= |es|
    ensures IsRun(cfg, es[..k])
  {
    if k == |es| {
      assert es[..k] == es;
    } else {
      PrefixIsRun(cfg, es[..|es| - 1], k);
      assert es[..|es| - 1][..k] == es[..k];
    }
  }

  /** The state after the first `k` events of a run. */
  ghost function At(cfg: RestartConfig, es: seq<Event>, k: nat): ContainerState
    requires IsRun(cfg, es) && k <= |es|
  {
    PrefixIsRun(cfg, es, k);
    Follow(cfg, Initial, es[..k]).value
  }

  lemma AtNext(cfg: RestartConfig, es: seq<Event>, k: nat)
    requires IsRun(cfg, es) && k < |es|
    ensures Next(cfg, At(cfg, es, k), es[k]) == Some(At(cfg, es, k + 1))
  {
    PrefixIsRun(cfg, es, k + 1);
    assert es[..k + 1][..k] == es[..k];
  }

  // ---------------------------------------------------------------- what every run keeps

  /** No trace of an earlier exit. */
  ghost predicate Fresh(s: ContainerState) {
    !s.exited && s.exitCode == 0 && !s.restartPolicyMatch
  }

  ghost predicate Clean(s: ContainerState) {
    s.status == Created || Alive(s.status) ==> Fresh(s)
  }

  ghost predicate WithinRetries(cfg: RestartConfig, s: ContainerState) {
    cfg.policy == PolicyOnFailure && cfg.retries > 0 ==> s.restartCount <= cfg.retries
  }

  ghost predicate Sound(s: ContainerState) {
    Clean(s) && (s.stoppedByUser ==> !s.restartPolicyMatch)
  }

  /** Every event but a report of the runtime keeps the state sound. A report does if and only if there is no
      trace of an earlier exit, or the report is that the container stopped. */
  lemma EventKeepsSoundIff(cfg: RestartConfig, s: ContainerState, e: Event)
    requires Sound(s) && Next(cfg, s, e).Some?
    ensures Sound(Next(cfg, s, e).value) <==> !e.Reported? || Fresh(s) || e.status in {Stopped, Exited}
  {
  }

  ghost predicate NoReports(es: seq<Event>) {
    forall k {:trigger es[k]} :: 0 <= k < |es| ==> !es[k].Reported?
  }

  /** What a container may save in its life. Only one without a PID namespace of its own has all its processes
      killed at cleanup, and only then is a report saved. */
  ghost predicate IsLife(cfg: RestartConfig, hasPidNs: bool, es: seq<Event>) {
    IsRun(cfg, es) && (hasPidNs ==> NoReports(es))
  }

  /** Every state in the life of a container with a PID namespace of its own is sound. */
  lemma {:induction false} RunsAreSound(cfg: RestartConfig, es: seq<Event>, k: nat)
    requires IsLife(cfg, true, es) && k <= |es|
    ensures Sound(At(cfg, es, k))
  {
    if k > 0 {
      RunsAreSound(cfg, es, k - 1);
      AtNext(cfg, es, k - 1);
      EventKeepsSoundIff(cfg, At(cfg, es, k - 1), es[k - 1]);
    } else {
      assert es[..0] == [];
    }
  }

  /** Appends an event. */
  lemma OneMore(cfg: RestartConfig, start: ContainerState, es: seq<Event>, s: ContainerState, e: Event)
    returns (fs: seq<Event>, t: ContainerState)
    requires Leads(cfg, start, es, s) && Next(cfg, s, e).Some?
    ensures fs == es + [e] && Some(t) == Next(cfg, s, e) && Leads(cfg, start, fs, t)
  {
    fs, t := es + [e], Next(cfg, s, e).value;
    LeadsAppend(cfg, start, es, s, e, t);
  }

  const REVIVAL := [Init(false), Start, Pause, KillRequest, ExitMissed, Reported(Paused)]

  /** Without one the claim fails: a paused container is killed but no exit file appears in time, and a later
      cleanup is told that it is still paused. */
  lemma RevivalBreaksClean(cfg: RestartConfig)
    ensures IsLife(cfg, false, REVIVAL) && !Clean(Follow(cfg, Initial, REVIVAL).value)
    ensures Follow(cfg, Initial, REVIVAL).value.status == Paused && Follow(cfg, Initial, REVIVAL).value.exitCode == -1
  {
    LeadsToItself(cfg, Initial);
    var es, s := OneMore(cfg, Initial, [], Initial, Init(false));
    es, s := OneMore(cfg, Initial, es, s, Start);
    es, s := OneMore(cfg, Initial, es, s, Pause);
    es, s := OneMore(cfg, Initial, es, s, KillRequest);
    es, s := OneMore(cfg, Initial, es, s, ExitMissed);
    es, s := OneMore(cfg, Initial, es, s, Reported(Paused));
    assert es == REVIVAL;
    LeadsIs(cfg, Initial, REVIVAL, s);
  }

  /** All states of all lives are sound. */
  ghost predicate LivesAreSound(cfg: RestartConfig, hasPidNs: bool) {
    forall es: seq<Event>, k: nat {:trigger SoundAt(cfg, es, k)} :: IsLife(cfg, hasPidNs, es) && k <= |es| ==> SoundAt(cfg, es, k)
  }

  ghost predicate SoundAt(cfg: RestartConfig, es: seq<Event>, k: nat) {
    IsRun(cfg, es) && k <= |es| && Sound(At(cfg, es, k))
  }

  /** The saved states are always sound if and only if the container has a PID namespace of its own. */
  lemma SoundIffPidNamespace(cfg: RestartConfig, hasPidNs: bool)
    ensures LivesAreSound(cfg, hasPidNs) <==> hasPidNs
  {
    if hasPidNs {
      forall es: seq<Event>, k: nat | IsLife(cfg, true, es) && k <= |es| ensures SoundAt(cfg, es, k) { RunsAreSound(cfg, es, k); }
    } else {
      RevivalBreaksClean(cfg);
      assert REVIVAL[..|REVIVAL|] == REVIVAL;
      assert !SoundAt(cfg, REVIVAL, |REVIVAL|);
    }
  }

  // ---------------------------------------------------------------- stops by the user

  /** The policy still has what it needs for a restart: a match that was not taken back, and retries. */
  ghost predicate MayRestart(cfg: RestartConfig, s: ContainerState) {
    && s.restartPolicyMatch && Restarts(cfg.policy)
    && !(cfg.policy == PolicyOnFailure && cfg.retries > 0 && s.restartCount >= cfg.retries)
    && s.status !in {Removing, Unknown}
  }

  ghost predicate NoReset(es: seq<Event>) {
    forall k {:trigger es[k]} :: 0 <= k < |es| ==> !es[k].Init? && !es[k].Refresh?
  }

  ghost predicate NoPolicyRestart(es: seq<Event>) {
    forall k {:trigger es[k]} :: 0 <= k < |es| ==> !es[k].PolicyRestart?
  }

  /** After a stop by the user, a restart that the policy has not prepared before is not prepared later: only the
      next initialization or a reboot forgets the stop. */
  lemma StopIsRemembered(cfg: RestartConfig, s: ContainerState, e: Event)
    requires s.stoppedByUser && !MayRestart(cfg, s) && Next(cfg, s, e).Some? && !e.Init? && !e.Refresh?
    ensures !e.PolicyRestart? && Next(cfg, s, e).value.stoppedByUser && !MayRestart(cfg, Next(cfg, s, e).value)
  {
  }

  lemma {:induction false} StopLasts(cfg: RestartConfig, s: ContainerState, es: seq<Event>)
    requires s.stoppedByUser && !MayRestart(cfg, s) && Follow(cfg, s, es).Some? && NoReset(es)
    ensures NoPolicyRestart(es)
    ensures Follow(cfg, s, es).value.stoppedByUser && !MayRestart(cfg, Follow(cfg, s, es).value)
  {
    if es != [] {
      var before, e := es[..|es| - 1], es[|es| - 1];
      StopLasts(cfg, s, before);
      StopIsRemembered(cfg, Follow(cfg, s, before).value, e);
    }
  }

  /** Whatever happens before the next initialization or reboot, the policy does not restart the container. */
  ghost predicate StaysDown(cfg: RestartConfig, s: ContainerState) {
    forall es {:trigger Follow(cfg, s, es)} :: Follow(cfg, s, es).Some? && NoReset(es) ==> NoPolicyRestart(es)
  }

  /** How the policy can restart a container that it may restart: at the next exit, once the container is, or
      is reported to be, alive. */
  function RestartFrom(s: ContainerState): seq<Event> {
    (if Alive(s.status) then [] else [Reported(Running)]) + [Exit(137, true)] + [PolicyRestart]
  }

  lemma RestartFollows(cfg: RestartConfig, s: ContainerState)
    requires MayRestart(cfg, s)
    ensures Follow(cfg, s, RestartFrom(s)).Some? && NoReset(RestartFrom(s)) && !NoPolicyRestart(RestartFrom(s))
  {
    LeadsToItself(cfg, s);
    var es, t := [], s;
    if !Alive(s.status) {
      es, t := OneMore(cfg, s, es, t, Reported(Running));
    }
    es, t := OneMore(cfg, s, es, t, Exit(137, true));
    es, t := OneMore(cfg, s, es, t, PolicyRestart);
    assert es == RestartFrom(s) && es[|es| - 1] == PolicyRestart;
    LeadsIs(cfg, s, es, t);
  }

  /** A stop by the user holds if and only if the policy had not prepared a restart when it was saved. */
  lemma StopHoldsIff(cfg: RestartConfig, s: ContainerState)
    requires s.stoppedByUser
    ensures StaysDown(cfg, s) <==> !MayRestart(cfg, s)
  {
    if MayRestart(cfg, s) {
      RestartFollows(cfg, s);
    } else {
      forall es | Follow(cfg, s, es).Some? && NoReset(es) ensures NoPolicyRestart(es) { StopLasts(cfg, s, es); }
    }
  }

  /** The part of a run from `i` to `j` leads from the state at `i` to the state at `j`. */
  lemma BetweenFollows(cfg: RestartConfig, es: seq<Event>, i: nat, j: nat)
    requires IsRun(cfg, es) && i <= j <= |es|
    ensures Follow(cfg, At(cfg, es, i), es[i..j]) == Some(At(cfg, es, j))
  {
    PrefixIsRun(cfg, es, i);
    PrefixIsRun(cfg, es, j);
    assert es[..j] == es[..i] + es[i..j];
    FollowConcat(cfg, Initial, es[..i], es[i..j]);
  }

  /** Once a stop by the user is saved without a policy match, the policy does not restart the container before
      the next initialization or reboot, in any run. */
  lemma StoppedMeansNoPolicyRestart(cfg: RestartConfig, es: seq<Event>, i: nat, j: nat)
    requires IsRun(cfg, es) && i <= j < |es| && At(cfg, es, i).stoppedByUser && !MayRestart(cfg, At(cfg, es, i))
    requires NoReset(es[i..j])
    ensures !es[j].PolicyRestart?
  {
    if es[j].PolicyRestart? {
      BetweenFollows(cfg, es, i, j);
      StopLasts(cfg, At(cfg, es, i), es[i..j]);
      AtNext(cfg, es, j);
    }
  }

  /** For a container with a PID namespace of its own there is no such match: every stop by the user holds. */
  lemma EveryStopHolds(cfg: RestartConfig, es: seq<Event>, i: nat, j: nat)
    requires IsLife(cfg, true, es) && i <= j < |es| && At(cfg, es, i).stoppedByUser && NoReset(es[i..j])
    ensures !es[j].PolicyRestart?
  {
    RunsAreSound(cfg, es, i);
    StoppedMeansNoPolicyRestart(cfg, es, i, j);
  }

  const OVERRIDE := [Init(false), Start, Exit(0, true), Reported(Running), StopRequest, Exit(137, true), PolicyRestart]

  /** Without one a stop need not hold: a container exits with code 0, which sets the match but restarts nothing;
      a cleanup is told that it still runs; the user stops it, and the policy restarts it. */
  lemma StopIsOverridden(cfg: RestartConfig)
    requires cfg.policy == PolicyOnFailure && cfg.retries == 0
    ensures IsLife(cfg, false, OVERRIDE)
    ensures At(cfg, OVERRIDE, 5).stoppedByUser && NoReset(OVERRIDE[5..6]) && OVERRIDE[6].PolicyRestart?
  {
    LeadsToItself(cfg, Initial);
    var es, s := OneMore(cfg, Initial, [], Initial, Init(false));
    es, s := OneMore(cfg, Initial, es, s, Start);
    es, s := OneMore(cfg, Initial, es, s, Exit(0, true));
    es, s := OneMore(cfg, Initial, es, s, Reported(Running));
    es, s := OneMore(cfg, Initial, es, s, StopRequest);
    assert es == OVERRIDE[..5];
    LeadsIs(cfg, Initial, OVERRIDE[..5], s);
    es, s := OneMore(cfg, Initial, es, s, Exit(137, true));
    es, s := OneMore(cfg, Initial, es, s, PolicyRestart);
    assert es == OVERRIDE;
    LeadsIs(cfg, Initial, OVERRIDE, s);
  }

  // ---------------------------------------------------------------- restarts by policy

  /** The restarts by policy since the counter was last reset. */
  ghost function RestartsSinceReset(es: seq<Event>): nat {
    if es == [] then 0
    else
      var last, before := es[|es| - 1], RestartsSinceReset(es[..|es| - 1]);
      if last == Init(false) || last.Refresh? then 0
      else if last.PolicyRestart? then before + 1
      else before
  }

  /** The counter tells exactly how often the policy restarted the container since the counter was last reset,
      and with the policy on-failure this never exceeds the retries allowed. */
  lemma {:induction false} RestartsAreCounted(cfg: RestartConfig, es: seq<Event>)
    requires IsRun(cfg, es)
    ensures Follow(cfg, Initial, es).value.restartCount == RestartsSinceReset(es)
    ensures WithinRetries(cfg, Follow(cfg, Initial, es).value)
  {
    if es != [] { RestartsAreCounted(cfg, es[..|es| - 1]); }
  }

  // ---------------------------------------------------------------- when the policy restarts

  /** The user stopped or killed the container, and it was neither initialized nor refreshed since. */
  ghost predicate UserStopped(es: seq<Event>) {
    es != [] &&
    var last := es[|es| - 1];
    last.StopRequest? || last.KillRequest? || (!last.Init? && !last.Refresh? && UserStopped(es[..|es| - 1]))
  }

  /** The code of the exit that stands to be answered by the restart policy: the last exit, if a sync noticed it and
      the user had not stopped the container, and as long as the container is not initialized, refreshed or removed. */
  ghost function Unanswered(es: seq<Event>): Option<int> {
    if es == [] then None
    else
      var last, before := es[|es| - 1], es[..|es| - 1];
      match last
      case Exit(code, bySync) => if bySync && !UserStopped(before) then Some(code) else None
      case ExitUnread => None
      case ExitMissed => None
      case Init(_) => None
      case Refresh => None
      case Remove => None
      case _ => Unanswered(before)
  }

  /** What the fields of a state say about the events that led to it. */
  ghost predicate Tells(cfg: RestartConfig, s: ContainerState, es: seq<Event>) {
    && (s.stoppedByUser <==> UserStopped(es))
    && (s.status == Stopping ==> s.stoppedByUser) && s.status != Unknown
    && (s.restartPolicyMatch && s.status != Removing <==> Restarts(cfg.policy) && Unanswered(es).Some?)
    && (Unanswered(es).Some? ==> s.status in {Stopped, Exited} && s.exitCode == Unanswered(es).value)
  }

  lemma EventTells(cfg: RestartConfig, s: ContainerState, es: seq<Event>, e: Event)
    requires Sound(s) && Tells(cfg, s, es) && Next(cfg, s, e).Some? && !e.Reported?
    ensures Tells(cfg, Next(cfg, s, e).value, es + [e])
  {
    assert (es + [e])[..|es|] == es;
  }

  lemma {:induction false} StateTells(cfg: RestartConfig, es: seq<Event>, k: nat)
    requires IsLife(cfg, true, es) && k <= |es|
    ensures Tells(cfg, At(cfg, es, k), es[..k])
  {
    if k > 0 {
      StateTells(cfg, es, k - 1);
      RunsAreSound(cfg, es, k - 1);
      AtNext(cfg, es, k - 1);
      EventTells(cfg, At(cfg, es, k - 1), es[..k - 1], es[k - 1]);
      assert es[..k] == es[..k - 1] + [es[k - 1]];
    }
  }

  /** In the life of a container with a PID namespace of its own, the policy can restart it if and only if an exit
      stands to be answered and the policy is one that answers it: always and unless-stopped any exit, and on-failure
      one with a code other than 0 as long as there are retries left. */
  lemma PolicyRestartIff(cfg: RestartConfig, es: seq<Event>)
    requires IsLife(cfg, true, es)
    ensures IsRun(cfg, es + [PolicyRestart]) <==>
              && Unanswered(es).Some?
              && (|| cfg.policy == PolicyAlways
                  || cfg.policy == PolicyUnlessStopped
                  || (&& cfg.policy == PolicyOnFailure && Unanswered(es).value != 0
                      && (cfg.retries == 0 || RestartsSinceReset(es) < cfg.retries)))
  {
    assert es[..|es|] == es;
    StateTells(cfg, es, |es|);
    RestartsAreCounted(cfg, es);
    FollowAppend(cfg, Initial, es, PolicyRestart);
  }

  /** With the policy on-failure no restart answers a clean exit: the last exit before a restart has a code other
      than 0. */
  lemma {:induction false} CleanExitIsFinal(cfg: RestartConfig, es: seq<Event>, i: nat, j: nat)
    requires IsLife(cfg, true, es) && cfg.policy == PolicyOnFailure && i < j < |es|
    requires es[i].Exit? && es[i].code == 0
    requires forall k {:trigger es[k]} :: i < k < j ==> !es[k].Exit?
    ensures !es[j].PolicyRestart?
  {
    CleanExitStands(es, i, j);
    PrefixIsRun(cfg, es, j);
    PrefixIsRun(cfg, es, j + 1);
    assert es[..j + 1] == es[..j] + [es[j]];
    if es[j].PolicyRestart? { PolicyRestartIff(cfg, es[..j]); }
  }

  lemma {:induction false} CleanExitStands(es: seq<Event>, i: nat, j: nat)
    requires i < j <= |es| && es[i].Exit? && es[i].code == 0
    requires forall k {:trigger es[k]} :: i < k < j ==> !es[k].Exit?
    ensures Unanswered(es[..j]).Some? ==> Unanswered(es[..j]).value == 0
  {
    assert es[..j][..j - 1] == es[..j - 1];
    if i < j - 1 { CleanExitStands(es, i, j - 1); }
  }

  /** Of any container that is running or paused and was not stopped by its user: once its exit is noticed by a sync,
      the policy can restart it if and only if it is always or unless-stopped, or is on-failure with a code other than
      0 and retries left. */
  lemma ExitDecides(cfg: RestartConfig, s: ContainerState, code: int)
    requires (s.status == Running || s.status == Paused) && !s.stoppedByUser
    ensures Follow(cfg, s, [Exit(code, true), PolicyRestart]).Some? <==>
              || cfg.policy == PolicyAlways
              || cfg.policy == PolicyUnlessStopped
              || (cfg.policy == PolicyOnFailure && code != 0 && (cfg.retries == 0 || s.restartCount < cfg.retries))
  {
    FollowAppend(cfg, s, [], Exit(code, true));
    FollowAppend(cfg, s, [Exit(code, true)], PolicyRestart);
    assert [] + [Exit(code, true)] == [Exit(code, true)];
    assert [Exit(code, true)] + [PolicyRestart] == [Exit(code, true), PolicyRestart];
  }

  /** An initialization forgets an earlier stop, exit and match, and a reset counter starts from 0: what the policy
      does after the next exit depends on that exit alone. */
  lemma InitStartsAfresh(cfg: RestartConfig, s: ContainerState, code: int)
    requires s.status == Configured || s.status == Exited
    ensures Follow(cfg, s, [Init(false), Start] + [Exit(code, true), PolicyRestart]).Some? <==>
              || cfg.policy == PolicyAlways
              || cfg.policy == PolicyUnlessStopped
              || (cfg.policy == PolicyOnFailure && code != 0)
  {
    FollowAppend(cfg, s, [], Init(false));
    FollowAppend(cfg, s, [Init(false)], Start);
    assert [] + [Init(false)] == [Init(false)];
    assert [Init(false)] + [Start] == [Init(false), Start];
    FollowConcat(cfg, s, [Init(false), Start], [Exit(code, true), PolicyRestart]);
    ExitDecides(cfg, Follow(cfg, s, [Init(false), Start]).value, code);
  }
}
