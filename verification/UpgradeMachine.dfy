/**
 The MilvusUpgrade state machine. A reconcile loads the upgrade and the Milvus object, runs state
 functions in a loop until one waits, fails or ends, and commits the status. Task pods move on
 their own between reconciles and change the metadata store while they do.

 `history` and `origin` record what happened; no state function reads them.
 */
module UpgradeMachine {
  import opened Common
  import opened UpgradeReplicas

  datatype Phase =
    | Pending | OldVersionStopping | BackupMeta | UpdatingMeta | NewVersionStarting | Succeeded
    | BackupMetaFailed | UpdateMetaFailed
    | RollbackNewVersionStopping | RollbackRestoringOldMeta | RollbackOldVersionStarting
    | RollbackSucceeded | RollbackFailed

  predicate RollbackPhase(p: Phase)
  {
    p in {RollbackNewVersionStopping, RollbackRestoringOldMeta, RollbackOldVersionStarting, RollbackSucceeded,
          RollbackFailed}
  }

  /** The keys of the state function table; the three results have no function. */
  predicate InTable(p: Phase) { p != Pending }

  predicate Final(p: Phase) { p in {Succeeded, RollbackSucceeded, RollbackFailed} }

  datatype TaskKind = BackupTask | UpdateTask | RestoreTask

  datatype TaskPhase = PodPending | PodRunning | PodSucceeded | PodFailed | PodUnknown

  /** Which version of the metadata the store, or the backup volume, holds. */
  datatype Metadata = SourceMeta | BetweenMeta | TargetMeta

  datatype UpgradeSpec = UpgradeSpec(rollback: bool, rollbackIfFailed: bool, maxRetry: int, targetImage: string)

  datatype Status = Status(state: Phase, isRollbacking: bool, metaBackuped: bool, metaStorageChanged: bool,
                           retriedTimes: int, snapshot: Snapshot, sourceImage: string)

  datatype MilvusObject = MilvusObject(spec: MilvusSpec, upgradeStopping: bool, stoppedAt: bool)

  datatype DeployState = DeployState(generation: int, observedGeneration: int, replicas: Option<int>, running: int)

  datatype Fact =
    | Drained(seen: seq<DeployState>)
    | TaskStarted(kind: TaskKind, at: MilvusObject)
    | TaskSeenSucceeded(kind: TaskKind)
    | MilvusStarted(rollback: bool, meta: Metadata, spec: MilvusSpec)

  datatype System = System(status: Status, milvus: MilvusObject, tasks: map<TaskKind, TaskPhase>, meta: Metadata,
                           backup: Option<Metadata>, history: seq<Fact>, origin: Option<MilvusSpec>)

  /** Which client calls of a reconcile fail, and what it finds in the cluster. */
  datatype Env = Env(spec: UpgradeSpec, deployments: seq<DeployState>, elapsed: bool, deleteVisible: bool,
                     failGet: bool, failUpdate: bool, failAlpha: bool, failList: bool, failStart: bool,
                     failDelete: bool)

  /** What a state function returns: the system after it, the next state if any, and whether it failed. */
  datatype Turn = Turn(sys: System, next: Option<Phase>, err: bool)

  // ---- checks on the Milvus object -------------------------------------------------------------------

  predicate HasHpa(spec: MilvusSpec, c: Component) { c in spec.coms && spec.coms[c].hpa }

  /** isMilvusStopping: every workload has zero replicas, and an autoscaled one only counts under the stop marker. */
  predicate Stopping(m: MilvusObject, newer: NewerThan25)
  {
    var ws := WorkloadsOf(m.spec, newer);
    forall i :: 0 <= i < |ws| ==>
      (HasHpa(m.spec, ws[i].c) ==> m.upgradeStopping) && GetReplicas(m.spec, ws[i]) == Some(0)
  }

  method IsMilvusStopping(m: MilvusObject, newer: NewerThan25) returns (yes: bool)
    ensures yes <==> Stopping(m, newer)
  {
    hide WorkloadsOf;
    var ws := GetComponentWorkloadsBySpec(m.spec, newer);
    for i := 0 to |ws|
      invariant forall j :: 0 <= j < i ==>
                  (HasHpa(m.spec, ws[j].c) ==> m.upgradeStopping) && GetReplicas(m.spec, ws[j]) == Some(0)
    {
      if HasHpa(m.spec, ws[i].c) && !m.upgradeStopping {
        return false;
      }
      var replicas := GetReplicas(m.spec, ws[i]);
      if replicas == None || replicas.value != 0 {
        return false;
      }
    }
    return true;
  }

  predicate IsDown(d: DeployState)
  {
    d.observedGeneration >= d.generation && d.replicas.Some? && d.replicas.value <= 0 && d.running <= 0
  }

  predicate AllDown(deployments: seq<DeployState>)
  {
    forall i :: 0 <= i < |deployments| ==> IsDown(deployments[i])
  }

  /** isMilvusStopped: waits out the mark, or sets it once every Deployment is observed at zero. */
  function CheckStopped(sys: System, env: Env): (r: (System, bool, bool))
  {
    if sys.milvus.stoppedAt then (sys, env.elapsed, false)
    else if env.failList then (sys, false, true)
    else if !AllDown(env.deployments) then (sys, false, false)
    else if env.failUpdate then (sys, false, true)
    else (sys.(milvus := sys.milvus.(stoppedAt := true), history := sys.history + [Drained(env.deployments)]), false, false)
  }

  /** Strictly decreasing along every transition taken within one reconcile. */
  function RankOf(p: Phase): nat
  {
    match p
    case OldVersionStopping => 10
    case BackupMeta => 9
    case UpdatingMeta => 8
    case NewVersionStarting => 7
    case Succeeded => 6
    case BackupMetaFailed => 5
    case UpdateMetaFailed => 5
    case RollbackNewVersionStopping => 4
    case RollbackRestoringOldMeta => 3
    case RollbackOldVersionStarting => 2
    case _ => 1
  }

  /** The next state, if there is one, is in the table and ranks below p. */
  predicate Descends(next: Option<Phase>, p: Phase)
  {
    next.Some? ==> InTable(next.value) && RankOf(next.value) < RankOf(p)
  }

  // ---- stop and start ---------------------------------------------------------------------------------

  function StopMilvus(sys: System, env: Env, newer: NewerThan25): (t: Turn)
    ensures t.next == None
  {
    var stopped := Stopped(sys.milvus.spec, newer);
    if stopped == None || env.failAlpha || env.failUpdate then Turn(sys, None, true)
    else Turn(sys.(milvus := sys.milvus.(spec := stopped.value, upgradeStopping := true)), None, false)
  }

  function OpenedForStart(s: Snapshot): Snapshot
  {
    if s.components == None then s.(components := Some(map[])) else s
  }

  function StartMilvus(sys: System, env: Env, newer: NewerThan25, image: string, next: Phase): (t: Turn)
    ensures t.next == None || t.next == Some(next)
  {
    var snapshot := OpenedForStart(sys.status.snapshot);
    var ready := sys.(status := sys.status.(snapshot := snapshot));
    var spec := Restored(snapshot, sys.milvus.spec.(image := image), newer);
    if spec == None || env.failUpdate then Turn(ready, None, true)
    else
      var started := ready.(
        milvus := MilvusObject(spec.value, false, false),
        history := ready.history + [MilvusStarted(sys.status.isRollbacking, sys.meta, spec.value)]);
      if env.failAlpha then Turn(started, None, true) else Turn(started, Some(next), false)
  }

  // ---- the state functions ----------------------------------------------------------------------------

  function OldVersionStoppingTurn(sys: System, env: Env, newer: NewerThan25): (t: Turn)
    ensures Descends(t.next, OldVersionStopping)
  {
    if !Stopping(sys.milvus, newer) then
      StopMilvus(RecordInfo(sys, newer), env, newer)
    else
      var (s, stopped, err) := CheckStopped(sys, env);
      Turn(s, if stopped then Some(BackupMeta) else None, err)
  }

  function RecordInfo(sys: System, newer: NewerThan25): System
  {
    var st := sys.status;
    if st.snapshot.components.Some? && st.snapshot.groups.Some? then sys
    else
      sys.(status := st.(snapshot := Recorded(st.snapshot, sys.milvus.spec, newer),
                         sourceImage := if st.sourceImage == "" then sys.milvus.spec.image else st.sourceImage),
           origin := if st.snapshot.components == None then Some(sys.milvus.spec) else sys.origin)
  }

  function StartTask(sys: System, env: Env, kind: TaskKind): (t: Turn)
    ensures t.next == None
  {
    if env.failStart then Turn(sys, None, true)
    else if kind in sys.tasks then Turn(sys, None, false)
    else Turn(sys.(tasks := sys.tasks[kind := PodPending], history := sys.history + [TaskStarted(kind, sys.milvus)]),
              None, false)
  }

  function SeenSucceeded(sys: System, kind: TaskKind): System
  {
    sys.(history := sys.history + [TaskSeenSucceeded(kind)])
  }

  function BackupMetaTurn(sys: System, env: Env): (t: Turn)
    ensures Descends(t.next, BackupMeta)
  {
    if env.failList then Turn(sys, None, true)
    else if BackupTask !in sys.tasks then StartTask(sys, env, BackupTask)
    else match sys.tasks[BackupTask]
      case PodSucceeded =>
        Turn(SeenSucceeded(sys.(status := sys.status.(metaBackuped := true)), BackupTask), Some(UpdatingMeta), false)
      case PodRunning => Turn(sys, None, false)
      case PodPending => Turn(sys, None, false)
      case _ => Turn(sys, Some(BackupMetaFailed), false)
  }

  function UpdatingMetaTurn(sys: System, env: Env): (t: Turn)
    ensures Descends(t.next, UpdatingMeta)
  {
    if !sys.status.metaStorageChanged then
      StartTask(sys.(status := sys.status.(metaStorageChanged := true)), env, UpdateTask)
    else if env.failList then Turn(sys, None, true)
    else if UpdateTask !in sys.tasks then Turn(sys, Some(UpdateMetaFailed), true)
    else match sys.tasks[UpdateTask]
      case PodSucceeded => Turn(SeenSucceeded(sys, UpdateTask), Some(NewVersionStarting), false)
      case PodRunning => Turn(sys, None, false)
      case PodPending => Turn(sys, None, false)
      case _ => Turn(sys, Some(UpdateMetaFailed), false)
  }

  function UpgradeFailedTurn(sys: System, env: Env): (t: Turn)
    ensures Descends(t.next, BackupMetaFailed)
  {
    if env.spec.rollbackIfFailed then
      Turn(sys.(status := sys.status.(isRollbacking := true, state := RollbackNewVersionStopping)),
           Some(RollbackNewVersionStopping), false)
    else Turn(sys, None, false)
  }

  function BackupFailedTurn(sys: System, env: Env): (t: Turn)
    ensures Descends(t.next, BackupMetaFailed)
  {
    if sys.status.retriedTimes + 1 > env.spec.maxRetry then UpgradeFailedTurn(sys, env)
    else if env.failDelete then Turn(sys, None, true)
    else
      Turn(sys.(status := sys.status.(state := BackupMeta, retriedTimes := sys.status.retriedTimes + 1),
                tasks := if env.deleteVisible then sys.tasks - {BackupTask} else sys.tasks),
           None, false)
  }

  function RollbackStoppingTurn(sys: System, env: Env, newer: NewerThan25): (t: Turn)
    ensures Descends(t.next, RollbackNewVersionStopping)
  {
    if !Stopping(sys.milvus, newer) then StopMilvus(sys, env, newer)
    else
      var (s, stopped, err) := CheckStopped(sys, env);
      Turn(s, if stopped then Some(RollbackRestoringOldMeta) else None, err)
  }

  function RestoringTurn(sys: System, env: Env): (t: Turn)
    ensures Descends(t.next, RollbackRestoringOldMeta)
  {
    if !sys.status.metaBackuped then Turn(sys, Some(RollbackOldVersionStarting), false)
    else if env.failList then Turn(sys, None, true)
    else if RestoreTask !in sys.tasks then StartTask(sys, env, RestoreTask)
    else match sys.tasks[RestoreTask]
      case PodSucceeded => Turn(SeenSucceeded(sys, RestoreTask), Some(RollbackOldVersionStarting), false)
      case PodRunning => Turn(sys, None, false)
      case PodPending => Turn(sys, None, false)
      case _ => Turn(sys, Some(RollbackFailed), false)
  }

  /** The state function of the current state. A next state is in the table and of lower rank. */
  function Handle(sys: System, env: Env, newer: NewerThan25): (t: Turn)
    ensures Descends(t.next, sys.status.state)
  {
    hide OldVersionStoppingTurn, BackupMetaTurn, UpdatingMetaTurn, StartMilvus, BackupFailedTurn, UpgradeFailedTurn,
         RollbackStoppingTurn, RestoringTurn;
    match sys.status.state
    case OldVersionStopping => OldVersionStoppingTurn(sys, env, newer)
    case BackupMeta => BackupMetaTurn(sys, env)
    case UpdatingMeta => UpdatingMetaTurn(sys, env)
    case NewVersionStarting => StartMilvus(sys, env, newer, env.spec.targetImage, Succeeded)
    case BackupMetaFailed => BackupFailedTurn(sys, env)
    case UpdateMetaFailed => UpgradeFailedTurn(sys, env)
    case RollbackNewVersionStopping => RollbackStoppingTurn(sys, env, newer)
    case RollbackRestoringOldMeta => RestoringTurn(sys, env)
    case RollbackOldVersionStarting => StartMilvus(sys, env, newer, sys.status.sourceImage, RollbackSucceeded)
    case _ => Turn(sys, None, false)
  }

  function SetState(sys: System, p: Phase): System { sys.(status := sys.status.(state := p)) }

  /** DetermineCurrentState. */
  function Determined(st: Status, spec: UpgradeSpec): Status
  {
    if st.isRollbacking || spec.rollback then
      if RollbackPhase(st.state) then st
      else st.(isRollbacking := true, state := RollbackNewVersionStopping)
    else if st.state == Pending then st.(state := OldVersionStopping)
    else st
  }

  function Loop(sys: System, env: Env, newer: NewerThan25, p: Phase): System
    decreases RankOf(p)
  {
    var s := SetState(sys, p);
    if Final(p) || !InTable(p) then s
    else
      var t := Handle(s, env, newer);
      if t.err || t.next == None then t.sys else Loop(t.sys, env, newer, t.next.value)
  }

  /** The status as it comes back from the API server: an empty group map is omitted. */
  function Stored(st: Status): Status
  {
    if st.snapshot.groups == Some(map[]) then st.(snapshot := st.snapshot.(groups := None)) else st
  }

  function Reconciled(sys: System, env: Env, newer: NewerThan25): System
  {
    var s := sys.(status := Determined(sys.status, env.spec));
    var r := if env.failGet then s else Loop(s, env, newer, s.status.state);
    r.(status := Stored(r.status))
  }

  // ---- the reconciler itself ------------------------------------------------------------------------------

  class Reconciler {
    var status: Status
    var milvus: MilvusObject
    var tasks: map<TaskKind, TaskPhase>
    ghost var meta: Metadata
    ghost var backup: Option<Metadata>
    ghost var history: seq<Fact>
    ghost var origin: Option<MilvusSpec>

    ghost function View(): System
      reads this
    {
      System(status, milvus, tasks, meta, backup, history, origin)
    }

    method IsMilvusStopped(env: Env) returns (stopped: bool, err: bool)
      modifies this
      ensures (View(), stopped, err) == CheckStopped(old(View()), env)
    {
      if milvus.stoppedAt {
        return env.elapsed, false;
      }
      if env.failList {
        return false, true;
      }
      for i := 0 to |env.deployments|
        invariant forall j :: 0 <= j < i ==> IsDown(env.deployments[j])
      {
        var d := env.deployments[i];
        if d.observedGeneration < d.generation {
          return false, false;
        }
        if d.replicas == None {
          return false, false;
        }
        if d.replicas.value > 0 || d.running > 0 {
          return false, false;
        }
      }
      if env.failUpdate {
        return false, true;
      }
      milvus := milvus.(stoppedAt := true);
      history := history + [Drained(env.deployments)];
      return false, false;
    }

    method Stop(env: Env, newer: NewerThan25) returns (err: bool)
      modifies this
      ensures Turn(View(), None, err) == StopMilvus(old(View()), env, newer)
    {
      hide Stopped;
      var spec := StopWorkloads(milvus.spec, newer);
      if spec == None || env.failAlpha || env.failUpdate {
        return true;
      }
      milvus := milvus.(spec := spec.value, upgradeStopping := true);
      return false;
    }

    method Start(env: Env, newer: NewerThan25, image: string, ghost next: Phase) returns (err: bool)
      modifies this
      ensures Turn(View(), if err then None else Some(next), err) == StartMilvus(old(View()), env, newer, image, next)
    {
      hide Restored, Descends;
      var wanted := milvus.spec.(image := image);
      status := status.(snapshot := OpenedForStart(status.snapshot));
      ghost var ready := View();
      assert ready == old(View()).(status := status);
      hide OpenedForStart;
      var spec := StartWorkloads(status.snapshot, wanted, newer);
      if spec == None || env.failUpdate {
        return true;
      }
      milvus := MilvusObject(spec.value, false, false);
      history := history + [MilvusStarted(status.isRollbacking, meta, spec.value)];
      return env.failAlpha;
    }

    method Record(newer: NewerThan25)
      modifies this
      ensures View() == RecordInfo(old(View()), newer)
    {
      hide Recorded;
      if status.snapshot.components.Some? && status.snapshot.groups.Some? {
        return;
      }
      if status.snapshot.components == None {
        origin := Some(milvus.spec);
      }
      var s := RecordOldInfo(status.snapshot, milvus.spec, newer);
      status := status.(snapshot := s);
      if status.sourceImage == "" {
        status := status.(sourceImage := milvus.spec.image);
      }
    }

    method OldVersionStoppingState(env: Env, newer: NewerThan25) returns (next: Option<Phase>, err: bool)
      modifies this
      ensures Turn(View(), next, err) == OldVersionStoppingTurn(old(View()), env, newer)
    {
      hide Stopping;
      var stopping := IsMilvusStopping(milvus, newer);
      if !stopping {
        Record(newer);
        err := Stop(env, newer);
        return None, err;
      }
      var stopped;
      stopped, err := IsMilvusStopped(env);
      return if stopped then Some(BackupMeta) else None, err;
    }

    method StartTaskPod(env: Env, kind: TaskKind) returns (err: bool)
      modifies this
      ensures Turn(View(), None, err) == StartTask(old(View()), env, kind)
    {
      if env.failStart {
        return true;
      }
      if kind !in tasks {
        tasks := tasks[kind := PodPending];
        history := history + [TaskStarted(kind, milvus)];
      }
      return false;
    }

    method BackupMetaState(env: Env) returns (next: Option<Phase>, err: bool)
      modifies this
      ensures Turn(View(), next, err) == BackupMetaTurn(old(View()), env)
    {
      if env.failList {
        return None, true;
      }
      if BackupTask !in tasks {
        err := StartTaskPod(env, BackupTask);
        return None, err;
      }
      match tasks[BackupTask]
      case PodSucceeded =>
        status := status.(metaBackuped := true);
        history := history + [TaskSeenSucceeded(BackupTask)];
        return Some(UpdatingMeta), false;
      case PodRunning => return None, false;
      case PodPending => return None, false;
      case _ => return Some(BackupMetaFailed), false;
    }

    method UpdatingMetaState(env: Env) returns (next: Option<Phase>, err: bool)
      modifies this
      ensures Turn(View(), next, err) == UpdatingMetaTurn(old(View()), env)
    {
      if !status.metaStorageChanged {
        status := status.(metaStorageChanged := true);
        err := StartTaskPod(env, UpdateTask);
        return None, err;
      }
      if env.failList {
        return None, true;
      }
      if UpdateTask !in tasks {
        return Some(UpdateMetaFailed), true;
      }
      match tasks[UpdateTask]
      case PodSucceeded =>
        history := history + [TaskSeenSucceeded(UpdateTask)];
        return Some(NewVersionStarting), false;
      case PodRunning => return None, false;
      case PodPending => return None, false;
      case _ => return Some(UpdateMetaFailed), false;
    }

    method HandleUpgradeFailed(env: Env) returns (next: Option<Phase>, err: bool)
      modifies this
      ensures Turn(View(), next, err) == UpgradeFailedTurn(old(View()), env)
    {
      if env.spec.rollbackIfFailed {
        status := status.(isRollbacking := true, state := RollbackNewVersionStopping);
        return Some(status.state), false;
      }
      return None, false;
    }

    method HandleBackupMetaFailed(env: Env) returns (next: Option<Phase>, err: bool)
      modifies this
      ensures Turn(View(), next, err) == BackupFailedTurn(old(View()), env)
    {
      if status.retriedTimes + 1 > env.spec.maxRetry {
        next, err := HandleUpgradeFailed(env);
        return;
      }
      if env.failDelete {
        return None, true;
      }
      if env.deleteVisible {
        tasks := tasks - {BackupTask};
      }
      status := status.(state := BackupMeta, retriedTimes := status.retriedTimes + 1);
      return None, false;
    }

    method RollbackStoppingState(env: Env, newer: NewerThan25) returns (next: Option<Phase>, err: bool)
      modifies this
      ensures Turn(View(), next, err) == RollbackStoppingTurn(old(View()), env, newer)
    {
      hide Stopping;
      var stopping := IsMilvusStopping(milvus, newer);
      if !stopping {
        err := Stop(env, newer);
        return None, err;
      }
      var stopped;
      stopped, err := IsMilvusStopped(env);
      return if stopped then Some(RollbackRestoringOldMeta) else None, err;
    }

    method RestoringOldMetaState(env: Env) returns (next: Option<Phase>, err: bool)
      modifies this
      ensures Turn(View(), next, err) == RestoringTurn(old(View()), env)
    {
      if !status.metaBackuped {
        return Some(RollbackOldVersionStarting), false;
      }
      if env.failList {
        return None, true;
      }
      if RestoreTask !in tasks {
        err := StartTaskPod(env, RestoreTask);
        return None, err;
      }
      match tasks[RestoreTask]
      case PodSucceeded =>
        history := history + [TaskSeenSucceeded(RestoreTask)];
        return Some(RollbackOldVersionStarting), false;
      case PodRunning => return None, false;
      case PodPending => return None, false;
      case _ => return Some(RollbackFailed), false;
    }

    /** Looks up and calls the function of the current state. */
    method CallStateFunc(env: Env, newer: NewerThan25) returns (next: Option<Phase>, err: bool)
      requires InTable(status.state) && !Final(status.state)
      modifies this
      ensures Turn(View(), next, err) == Handle(old(View()), env, newer)
    {
      hide OldVersionStoppingTurn, BackupMetaTurn, UpdatingMetaTurn, StartMilvus, BackupFailedTurn, UpgradeFailedTurn,
           RollbackStoppingTurn, RestoringTurn;
      match status.state
      case OldVersionStopping => next, err := OldVersionStoppingState(env, newer);
      case BackupMeta => next, err := BackupMetaState(env);
      case UpdatingMeta => next, err := UpdatingMetaState(env);
      case NewVersionStarting =>
        err := Start(env, newer, env.spec.targetImage, Succeeded);
        next := if err then None else Some(Succeeded);
      case BackupMetaFailed => next, err := HandleBackupMetaFailed(env);
      case UpdateMetaFailed => next, err := HandleUpgradeFailed(env);
      case RollbackNewVersionStopping => next, err := RollbackStoppingState(env, newer);
      case RollbackRestoringOldMeta => next, err := RestoringOldMetaState(env);
      case RollbackOldVersionStarting =>
        err := Start(env, newer, status.sourceImage, RollbackSucceeded);
        next := if err then None else Some(RollbackSucceeded);
    }

    /** RunStateMachine followed by the status commit; the loop ends because the rank falls. */
    method Reconcile(env: Env, newer: NewerThan25)
      modifies this
      ensures View() == Reconciled(old(View()), env, newer)
    {
      hide Handle;
      status := Determined(status, env.spec);
      ghost var start := View();
      var next := status.state;
      var running := !env.failGet;
      while running
        invariant running && !env.failGet ==> Loop(start, env, newer, start.status.state) == Loop(View(), env, newer, next)
        invariant !running ==> View() == if env.failGet then start else Loop(start, env, newer, start.status.state)
        decreases running, RankOf(next)
      {
        status := status.(state := next);
        if !InTable(next) || Final(next) {
          running := false;
        } else {
          var following, err := CallStateFunc(env, newer);
          if err || following == None {
            running := false;
          } else {
            next := following.value;
          }
        }
      }
      if status.snapshot.groups == Some(map[]) {
        status := status.(snapshot := status.snapshot.(groups := None));
      }
    }
  }
}
