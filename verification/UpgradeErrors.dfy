/**
 What failing calls do to an upgrade: which of them are errors of which state, what a failed reconcile
 leaves behind, and the one failure from which the upgrade does not recover on its own.
 */
module UpgradeErrors {
  import opened Common
  import opened UpgradeReplicas
  import opened UpgradeMachine
  import opened UpgradeSafety
  import opened UpgradeFailures
  import opened UpgradeProgress

  /** A workload that an autoscaler outside the operator owns; such a Milvus cannot be stopped. */
  predicate OwnedFromOutside(spec: MilvusSpec, newer: NewerThan25)
  {
    var ws := WorkloadsOf(spec, newer);
    exists i :: 0 <= i < |ws| && GetReplicas(spec, ws[i]) == Some(-1)
  }

  /** Which calls are errors of a stopping state. */
  predicate StopError(m: MilvusObject, env: Env, newer: NewerThan25)
  {
    if !Stopping(m, newer) then OwnedFromOutside(m.spec, newer) || env.failAlpha || env.failUpdate
    else && !m.stoppedAt
         && (env.failList || (env.failUpdate && forall d :: d in env.deployments ==> SeenAtZero(d)))
  }

  /** Which calls are errors of a starting state: also what was not recorded. */
  predicate StartError(sys: System, image: string, env: Env, newer: NewerThan25)
  {
    StartedSpec(sys, image, newer) == None || env.failUpdate || env.failAlpha
  }

  /** Which calls are errors, state by state. */
  predicate Errs(sys: System, env: Env, newer: NewerThan25)
  {
    match sys.status.state
    case OldVersionStopping => StopError(sys.milvus, env, newer)
    case RollbackNewVersionStopping => StopError(sys.milvus, env, newer)
    case BackupMeta => env.failList || (BackupTask !in sys.tasks && env.failStart)
    case UpdatingMeta => if sys.status.metaStorageChanged then env.failList || UpdateTask !in sys.tasks else env.failStart
    case NewVersionStarting => StartError(sys, env.spec.targetImage, env, newer)
    case BackupMetaFailed => sys.status.retriedTimes < env.spec.maxRetry && env.failDelete
    case RollbackRestoringOldMeta =>
      sys.status.metaBackuped && (env.failList || (RestoreTask !in sys.tasks && env.failStart))
    case RollbackOldVersionStarting => StartError(sys, sys.status.sourceImage, env, newer)
    case _ => false
  }

  lemma StopErrorIff(sys: System, env: Env, newer: NewerThan25)
    ensures OldVersionStoppingTurn(sys, env, newer).err <==> StopError(sys.milvus, env, newer)
    ensures RollbackStoppingTurn(sys, env, newer).err <==> StopError(sys.milvus, env, newer)
  {
    DownIffSeen(env.deployments);
    hide Stopping, Descends, AllDown, WorkloadsOf;
    assert Stopped(sys.milvus.spec, newer) == None <==> OwnedFromOutside(sys.milvus.spec, newer);
  }

  /** A state function fails exactly on those calls. */
  lemma ErrorIff(sys: System, env: Env, newer: NewerThan25)
    ensures Handle(sys, env, newer).err <==> Errs(sys, env, newer)
  {
    StopErrorIff(sys, env, newer);
    hide Stopping, Descends, OldVersionStoppingTurn, RollbackStoppingTurn, Restored, StopError;
  }

  /**
   A failed step changes no task, no counter and no direction, stays in its state, and leaves Milvus
   alone, unless it is a start of which only the last call failed.
   */
  lemma FailedStepStays(sys: System, env: Env, newer: NewerThan25)
    requires InDirection(sys.status, env) && !env.failGet && Errs(sys, env, newer)
    ensures var r := Next(sys, Reconcile(env), newer);
            && r.tasks == sys.tasks && r.meta == sys.meta && r.backup == sys.backup
            && r.status.state == sys.status.state && r.status.retriedTimes == sys.status.retriedTimes
            && r.status.isRollbacking == sys.status.isRollbacking && r.status.metaBackuped == sys.status.metaBackuped
            && r.status.metaStorageChanged == (sys.status.metaStorageChanged || sys.status.state == UpdatingMeta)
            && (r.milvus == sys.milvus ||
                (sys.status.state in {NewVersionStarting, RollbackOldVersionStarting} && !env.failUpdate))
  {
    ErrorIff(sys, env, newer);
    var t := Handle(sys, env, newer);
    FailedTurn(sys, env, newer);
    hide Handle, Stored, Errs;
    assert SetState(sys, sys.status.state) == sys;
    assert Loop(sys, env, newer, sys.status.state) == t.sys;
    StoredKeepsState(t.sys.status);
  }

  /** What a failed step leaves of the system before it. */
  predicate LeftInPlace(sys: System, s: System, env: Env)
  {
    && s.tasks == sys.tasks && s.meta == sys.meta && s.backup == sys.backup
    && s.status == sys.status.(metaStorageChanged := sys.status.metaStorageChanged || sys.status.state == UpdatingMeta,
                               snapshot := s.status.snapshot, sourceImage := s.status.sourceImage)
    && (s.milvus == sys.milvus ||
        (sys.status.state in {NewVersionStarting, RollbackOldVersionStarting} && !env.failUpdate))
  }

  lemma FailedStopTurn(sys: System, env: Env, newer: NewerThan25)
    requires sys.status.state in {OldVersionStopping, RollbackNewVersionStopping}
    ensures OldVersionStoppingTurn(sys, env, newer).err ==>
              LeftInPlace(sys, OldVersionStoppingTurn(sys, env, newer).sys, env)
    ensures RollbackStoppingTurn(sys, env, newer).err ==> LeftInPlace(sys, RollbackStoppingTurn(sys, env, newer).sys, env)
  {
    hide Stopping, Descends, Recorded, AllDown, Stopped;
  }

  lemma FailedTaskTurn(sys: System, env: Env)
    ensures BackupMetaTurn(sys, env).err && sys.status.state == BackupMeta ==> LeftInPlace(sys, BackupMetaTurn(sys, env).sys, env)
    ensures UpdatingMetaTurn(sys, env).err && sys.status.state == UpdatingMeta ==>
              LeftInPlace(sys, UpdatingMetaTurn(sys, env).sys, env)
    ensures RestoringTurn(sys, env).err && sys.status.state == RollbackRestoringOldMeta ==>
              LeftInPlace(sys, RestoringTurn(sys, env).sys, env)
    ensures BackupFailedTurn(sys, env).err && sys.status.state == BackupMetaFailed ==>
              LeftInPlace(sys, BackupFailedTurn(sys, env).sys, env)
    ensures !UpgradeFailedTurn(sys, env).err
  {
    hide Descends;
  }

  lemma FailedStartTurn(sys: System, env: Env, newer: NewerThan25, image: string, next: Phase)
    requires sys.status.state in {NewVersionStarting, RollbackOldVersionStarting}
    ensures StartMilvus(sys, env, newer, image, next).err ==>
              LeftInPlace(sys, StartMilvus(sys, env, newer, image, next).sys, env)
  {
    hide Restored;
  }

  lemma FailedTurn(sys: System, env: Env, newer: NewerThan25)
    requires InDirection(sys.status, env) && Handle(sys, env, newer).err
    ensures InTable(sys.status.state) && !Final(sys.status.state) && LeftInPlace(sys, Handle(sys, env, newer).sys, env)
  {
    hide LeftInPlace, Descends, OldVersionStoppingTurn, BackupMetaTurn, UpdatingMetaTurn, StartMilvus, BackupFailedTurn,
         UpgradeFailedTurn, RollbackStoppingTurn, RestoringTurn;
    FailedTaskTurn(sys, env);
    match sys.status.state
    case OldVersionStopping => FailedStopTurn(sys, env, newer);
    case RollbackNewVersionStopping => FailedStopTurn(sys, env, newer);
    case NewVersionStarting => FailedStartTurn(sys, env, newer, env.spec.targetImage, Succeeded);
    case RollbackOldVersionStarting => FailedStartTurn(sys, env, newer, sys.status.sourceImage, RollbackSucceeded);
    case _ =>
  }

  /** A Milvus that cannot be read is left alone, and so is its upgrade. */
  lemma UnreadMilvusLeftAlone(sys: System, env: Env, newer: NewerThan25)
    requires InDirection(sys.status, env) && env.failGet
    ensures Unchanged(sys, env, newer)
  {
  }

  // ---- recording -----------------------------------------------------------------------------------------------

  /** The first step that finds Milvus running records it, whether or not the stop succeeds; later ones keep the recording. */
  lemma RecordedBeforeStop(sys: System, env: Env, newer: NewerThan25)
    requires InDirection(sys.status, env) && !env.failGet
    requires sys.status.state == OldVersionStopping && !Stopping(sys.milvus, newer)
    ensures var r := Next(sys, Reconcile(env), newer);
            && r.status.snapshot.components.Some?
            && (sys.status.snapshot.components.Some? && sys.status.snapshot.groups.Some? ==> r.status == Stored(sys.status))
            && (sys.status.snapshot.components.Some? ==> r.origin == sys.origin)
            && (sys.status.snapshot.components == None ==> r.origin == Some(sys.milvus.spec))
            && (sys.status.sourceImage != "" ==> r.status.sourceImage == sys.status.sourceImage)
            && (sys.status.sourceImage == "" && sys.status.snapshot.components == None ==>
                  r.status.sourceImage == sys.milvus.spec.image)
  {
    RecordedKeeps(sys.status.snapshot, sys.milvus.spec, newer);
    hide Stopping, Stopped, Descends, Recorded;
    var t := Handle(sys, env, newer);
    assert t.next == None && t.sys.status == RecordInfo(sys, newer).status && t.sys.origin == RecordInfo(sys, newer).origin;
    OneTurn(sys, env, newer, t);
    StoredKeepsState(t.sys.status);
    StoredKeepsComponents(t.sys.status);
    hide Handle, Stored;
  }

  lemma StoredKeepsComponents(st: Status)
    ensures Stored(st).snapshot.components == st.snapshot.components
  {
  }

  lemma RecordedKeeps(s: Snapshot, spec: MilvusSpec, newer: NewerThan25)
    ensures Recorded(s, spec, newer).components.Some?
    ensures s.components.Some? && s.groups.Some? ==> Recorded(s, spec, newer) == s
  {
    hide WorkloadsOf;
  }

  /** What is recorded of a Milvus with unique group names: the count of every workload it runs, and zero or nothing for others. */
  lemma FirstStopRecords(sys: System, env: Env, newer: NewerThan25, id: Id)
    requires InDirection(sys.status, env) && !env.failGet && UniqueGroups(sys.milvus.spec)
    requires sys.status.state == OldVersionStopping && !Stopping(sys.milvus, newer)
    requires sys.status.snapshot.components == None && sys.status.snapshot.groups == None
    ensures var spec, s := sys.milvus.spec, Next(sys, Reconcile(env), newer).status.snapshot;
            if Listed(WorkloadsOf(spec, newer), id)
            then Remembered(s, id) == Some(match Read(spec, id) case None => 1 case Some(n) => n)
            else Remembered(s, id) == if id.group == None then Some(0) else None
  {
    var spec, s := sys.milvus.spec, sys.status.snapshot;
    hide Stopping, Stopped, Descends, WorkloadsOf, Recorded;
    var t := Handle(sys, env, newer);
    OneTurn(sys, env, newer, t);
    assert t.sys.status.snapshot == Recorded(s, spec, newer);
    StoredRemembers(t.sys.status, id);
    FreshRecording(s, spec, newer, id);
  }

  lemma StoredRemembers(st: Status, id: Id)
    ensures Remembered(Stored(st).snapshot, id) == Remembered(st.snapshot, id)
  {
  }

  lemma FreshRecording(s: Snapshot, spec: MilvusSpec, newer: NewerThan25, id: Id)
    requires s.components == None && s.groups == None && UniqueGroups(spec)
    ensures var r, ws := Recorded(s, spec, newer), WorkloadsOf(spec, newer);
            && (Listed(ws, id) ==> Remembered(r, id) == Some(Value(Read(spec, id))))
            && (!Listed(ws, id) ==> Remembered(r, id) == if id.group == None then Some(0) else None)
  {
    ExpansionIsFaithful(spec, ComponentsOf(spec, newer));
    hide Faithful;
    RecordRemembers(spec, WorkloadsOf(spec, newer), id);
  }

  // ---- a migration that was not started --------------------------------------------------------------------------

  /** The migration counts as started, but has no pod. */
  predicate Unstarted(sys: System)
  {
    && sys.status.state == UpdatingMeta && !sys.status.isRollbacking && sys.status.metaStorageChanged
    && UpdateTask !in sys.tasks
  }

  predicate RollsBack(e: Event) { e.Reconcile? && e.env.spec.rollback }

  /** The migration is begun once, and left without a pod exactly if the call that starts it fails. */
  lemma UnstartedIff(sys: System, env: Env, newer: NewerThan25)
    requires InDirection(sys.status, env) && !env.failGet
    requires sys.status.state == UpdatingMeta && !sys.status.metaStorageChanged && UpdateTask !in sys.tasks
    ensures Unstarted(Next(sys, Reconcile(env), newer)) <==> env.failStart
    ensures Active(Next(sys, Reconcile(env), newer), UpdateTask) <==> !env.failStart
  {
    OneTurn(sys, env, newer, Handle(sys, env, newer));
    StoredKeepsState(Handle(sys, env, newer).sys.status);
    hide Stored;
  }

  /** A pod that is there already is not replaced. */
  lemma ExistingPodIsKept(sys: System, env: Env, newer: NewerThan25)
    requires InDirection(sys.status, env) && !env.failGet
    requires sys.status.state == UpdatingMeta && !sys.status.metaStorageChanged && UpdateTask in sys.tasks
    ensures var r := Next(sys, Reconcile(env), newer);
            r == sys.(status := Stored(sys.status.(metaStorageChanged := true)))
  {
    OneTurn(sys, env, newer, Handle(sys, env, newer));
  }

  lemma UnstartedStep(sys: System, e: Event, newer: NewerThan25)
    requires Unstarted(sys) && !RollsBack(e)
    ensures Unstarted(Next(sys, e, newer))
    ensures Next(sys, e, newer).milvus == sys.milvus
  {
    if e.Reconcile? && e.env.failGet {
      UnreadMilvusLeftAlone(sys, e.env, newer);
      StoredKeepsState(sys.status);
    } else if e.Reconcile? {
      FailedStepStays(sys, e.env, newer);
    }
  }

  /**
   It is not started again: until a rollback is asked for, every run leaves the upgrade in that state
   and Milvus as it is, even if the spec asks to roll back failures.
   */
  lemma {:induction false} UnstartedMigrationIsStuck(sys: System, events: seq<Event>, newer: NewerThan25)
    requires Unstarted(sys) && forall i :: 0 <= i < |events| ==> !RollsBack(events[i])
    ensures Unstarted(Run(sys, events, newer)) && Run(sys, events, newer).milvus == sys.milvus
  {
    hide Unstarted;
    if events != [] {
      UnstartedMigrationIsStuck(sys, events[..|events| - 1], newer);
      UnstartedStep(Run(sys, events[..|events| - 1], newer), events[|events| - 1], newer);
    }
  }
}
