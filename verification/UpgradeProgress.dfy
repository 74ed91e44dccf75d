/**
 What the upgrade does when nothing fails: what each reconcile waits for, how often a backup is tried,
 how a migration ends, and whole runs from a running Milvus to a finished upgrade or rollback.
 */
module UpgradeProgress {
  import opened Common
  import opened UpgradeReplicas
  import opened UpgradeMachine
  import opened UpgradeSafety
  import opened UpgradeFailures
  import M = UpgradeMetadata
  import R = UpgradeRestart

  /** A reconcile without effect, as it comes back from the API server. */
  predicate Unchanged(sys: System, env: Env, newer: NewerThan25)
  {
    Next(sys, Reconcile(env), newer) == sys.(status := Stored(sys.status))
  }

  /** In the forward direction with no rollback asked for, or rolling back. */
  predicate InDirection(st: Status, env: Env)
  {
    if RollbackPhase(st.state) then st.isRollbacking else !st.isRollbacking && !env.spec.rollback && st.state != Pending
  }

  predicate SeenAtZero(d: DeployState)
  {
    d.observedGeneration >= d.generation && d.replicas.Some? && d.replicas.value <= 0 && d.running <= 0
  }

  lemma WaitingTurn(sys: System, env: Env, newer: NewerThan25)
    requires NothingFails(env) && InDirection(sys.status, env)
    requires Final(sys.status.state) || (Handle(sys, env, newer).sys == sys && Handle(sys, env, newer).next == None)
    ensures Unchanged(sys, env, newer)
  {
    hide Handle, Stored;
    assert SetState(sys, sys.status.state) == sys;
  }

  // ---- stopping -----------------------------------------------------------------------------------------------

  /**
   Once all workloads are at zero: until every deployment is seen at zero nothing happens, then the
   stopped mark is set and nothing else, and until the wait is over nothing happens again.
   */
  lemma StoppingWaits(sys: System, env: Env, newer: NewerThan25)
    requires NothingFails(env) && InDirection(sys.status, env) && Stopping(sys.milvus, newer)
    requires sys.status.state in {OldVersionStopping, RollbackNewVersionStopping}
    ensures sys.milvus.stoppedAt && !env.elapsed ==> Unchanged(sys, env, newer)
    ensures !sys.milvus.stoppedAt && (exists d :: d in env.deployments && !SeenAtZero(d)) ==> Unchanged(sys, env, newer)
    ensures !sys.milvus.stoppedAt && (forall d :: d in env.deployments ==> SeenAtZero(d)) ==>
              Next(sys, Reconcile(env), newer) ==
              sys.(status := Stored(sys.status), milvus := sys.milvus.(stoppedAt := true),
                   history := sys.history + [Drained(env.deployments)])
  {
    DownIffSeen(env.deployments);
    hide Stopping, Descends, AllDown, Stored;
    if sys.milvus.stoppedAt && !env.elapsed { WaitingTurn(sys, env, newer); }
    if !sys.milvus.stoppedAt && !AllDown(env.deployments) { WaitingTurn(sys, env, newer); }
    if !sys.milvus.stoppedAt && AllDown(env.deployments) { OneTurn(sys, env, newer, Handle(sys, env, newer)); }
  }

  lemma DownIffSeen(ds: seq<DeployState>)
    ensures AllDown(ds) <==> forall d :: d in ds ==> SeenAtZero(d)
  {
    if forall d :: d in ds ==> SeenAtZero(d) {
      assert forall i :: 0 <= i < |ds| ==> ds[i] in ds;
    }
  }

  // ---- task pods -------------------------------------------------------------------------------------------------

  /** The task a state waits for. */
  predicate WaitsFor(st: Status, kind: TaskKind)
  {
    || (st.state == BackupMeta && kind == BackupTask)
    || (st.state == UpdatingMeta && st.metaStorageChanged && kind == UpdateTask)
    || (st.state == RollbackRestoringOldMeta && st.metaBackuped && kind == RestoreTask)
  }

  /** While its pod is pending or running a task is left alone; so is a migration whose pod is missing. */
  lemma TasksAreWaitedFor(sys: System, env: Env, newer: NewerThan25, kind: TaskKind)
    requires NothingFails(env) && InDirection(sys.status, env) && WaitsFor(sys.status, kind)
    ensures Active(sys, kind) ==> Unchanged(sys, env, newer)
    ensures kind == UpdateTask && kind !in sys.tasks ==> Unchanged(sys, env, newer)
  {
    hide Descends, Stored;
    if Active(sys, kind) { WaitingTurn(sys, env, newer); }
    if kind == UpdateTask && kind !in sys.tasks {
      assert SetState(sys, sys.status.state) == sys;
    }
  }

  /** A backup or restore without a pod is started, and nothing else changes. */
  lemma TasksAreStarted(sys: System, env: Env, newer: NewerThan25, kind: TaskKind)
    requires NothingFails(env) && InDirection(sys.status, env) && WaitsFor(sys.status, kind)
    requires kind != UpdateTask && kind !in sys.tasks
    ensures Next(sys, Reconcile(env), newer) ==
            sys.(status := Stored(sys.status), tasks := sys.tasks[kind := PodPending],
                 history := sys.history + [TaskStarted(kind, sys.milvus)])
  {
    hide Descends, Stored;
    OneTurn(sys, env, newer, Handle(sys, env, newer));
  }

  predicate Failed(sys: System, kind: TaskKind) { kind in sys.tasks && sys.tasks[kind] in {PodFailed, PodUnknown} }

  /** Results are final. */
  lemma ResultsStay(sys: System, env: Env, newer: NewerThan25)
    requires NothingFails(env) && InDirection(sys.status, env)
    requires sys.status.state in {Succeeded, RollbackSucceeded, RollbackFailed}
    ensures Unchanged(sys, env, newer)
  {
    WaitingTurn(sys, env, newer);
  }

  // ---- backups and their retries ---------------------------------------------------------------------------------

  /** A failed backup with retries left: counted, its pod deleted, and back to the backup. */
  lemma FailedBackupIsRetried(sys: System, env: Env, newer: NewerThan25)
    requires NothingFails(env) && InDirection(sys.status, env) && sys.status.retriedTimes < env.spec.maxRetry
    requires sys.status.state == BackupMetaFailed || (sys.status.state == BackupMeta && Failed(sys, BackupTask))
    ensures Next(sys, Reconcile(env), newer) ==
            sys.(status := Stored(sys.status.(state := BackupMeta, retriedTimes := sys.status.retriedTimes + 1)),
                 tasks := if env.deleteVisible then sys.tasks - {BackupTask} else sys.tasks)
  {
    hide Descends, Stored;
    var s := SetState(sys, BackupMetaFailed);
    assert SetState(sys, sys.status.state) == sys;
    if sys.status.state == BackupMeta {
      assert Handle(sys, env, newer) == Turn(sys, Some(BackupMetaFailed), false);
    } else {
      assert s == sys;
    }
    assert Loop(sys, env, newer, sys.status.state) == Loop(sys, env, newer, BackupMetaFailed);
    assert Handle(s, env, newer).next == None;
  }

  /** With none left it is rolled back if the spec asks for that, and rests otherwise. */
  lemma FailedBackupGivesUp(sys: System, env: Env, newer: NewerThan25)
    requires NothingFails(env) && InDirection(sys.status, env) && sys.status.retriedTimes >= env.spec.maxRetry
    requires sys.status.state == BackupMetaFailed || (sys.status.state == BackupMeta && Failed(sys, BackupTask))
    ensures !env.spec.rollbackIfFailed ==>
              Next(sys, Reconcile(env), newer) == sys.(status := Stored(sys.status.(state := BackupMetaFailed)))
    ensures Next(sys, Reconcile(env), newer).status.isRollbacking <==> env.spec.rollbackIfFailed
    ensures Next(sys, Reconcile(env), newer).status.retriedTimes == sys.status.retriedTimes
  {
    hide Descends, Stored, Stopping, Loop;
    var s := SetState(sys, BackupMetaFailed);
    assert SetState(sys, sys.status.state) == sys;
    GiveUpLoop(sys, env, newer);
    StoredKeepsRest(Loop(sys, env, newer, sys.status.state).status);
  }

  lemma StoredKeepsRest(st: Status)
    ensures Stored(st).isRollbacking == st.isRollbacking && Stored(st).retriedTimes == st.retriedTimes
  {
  }

  lemma GiveUpLoop(sys: System, env: Env, newer: NewerThan25)
    requires NothingFails(env) && InDirection(sys.status, env) && sys.status.retriedTimes >= env.spec.maxRetry
    requires sys.status.state == BackupMetaFailed || (sys.status.state == BackupMeta && Failed(sys, BackupTask))
    ensures var r := Loop(sys, env, newer, sys.status.state);
            && (!env.spec.rollbackIfFailed ==> r == SetState(sys, BackupMetaFailed))
            && (r.status.isRollbacking <==> env.spec.rollbackIfFailed) && r.status.retriedTimes == sys.status.retriedTimes
  {
    hide Descends, Stopping;
    var s := SetState(sys, BackupMetaFailed);
    assert SetState(sys, sys.status.state) == sys;
    if sys.status.state == BackupMeta {
      assert Handle(sys, env, newer) == Turn(sys, Some(BackupMetaFailed), false);
      assert Loop(sys, env, newer, BackupMeta) == Loop(sys, env, newer, BackupMetaFailed);
    }
    var t := Handle(s, env, newer);
    if env.spec.rollbackIfFailed {
      assert t.next == Some(RollbackNewVersionStopping) && !t.err;
      RollbackLoopCounts(t.sys, env, newer, RollbackNewVersionStopping);
    }
  }

  /** A rollback does not touch the retry count. */
  lemma {:induction false} RollbackLoopCounts(sys: System, env: Env, newer: NewerThan25, p: Phase)
    requires RollbackPhase(p)
    ensures Loop(sys, env, newer, p).status.retriedTimes == sys.status.retriedTimes
    ensures Loop(sys, env, newer, p).status.isRollbacking == sys.status.isRollbacking
    decreases RankOf(p)
  {
    if !Final(p) {
      var s := SetState(sys, p);
      var t := Handle(s, env, newer);
      RollbackTurnCounts(s, env, newer);
      hide Handle;
      if !t.err && t.next.Some? { RollbackLoopCounts(t.sys, env, newer, t.next.value); }
    }
  }

  lemma RollbackTurnCounts(s: System, env: Env, newer: NewerThan25)
    requires RollbackPhase(s.status.state) && !Final(s.status.state)
    ensures var t := Handle(s, env, newer);
            && t.sys.status.retriedTimes == s.status.retriedTimes && t.sys.status.isRollbacking == s.status.isRollbacking
            && (t.next.Some? ==> RollbackPhase(t.next.value))
  {
    hide Stopping, Stopped, Restored, OpenedForStart, Descends;
  }

  /** A backup that succeeded is remembered, and the migration starts. */
  lemma BackupLeadsToMigration(sys: System, env: Env, newer: NewerThan25)
    requires NothingFails(env) && InDirection(sys.status, env) && sys.status.state == BackupMeta
    requires BackupTask in sys.tasks && sys.tasks[BackupTask] == PodSucceeded
    requires !sys.status.metaStorageChanged && UpdateTask !in sys.tasks
    ensures var r := Next(sys, Reconcile(env), newer);
            && r.status == Stored(sys.status.(state := UpdatingMeta, metaBackuped := true, metaStorageChanged := true))
            && r.tasks == sys.tasks[UpdateTask := PodPending] && r.milvus == sys.milvus && r.origin == sys.origin
            && r.history == sys.history + [TaskSeenSucceeded(BackupTask)] + [TaskStarted(UpdateTask, sys.milvus)]
  {
    hide Descends, Stored;
    assert SetState(sys, BackupMeta) == sys;
    var t := Handle(sys, env, newer);
    assert t.next == Some(UpdatingMeta) && !t.err;
    var s := SetState(t.sys, UpdatingMeta);
    assert Handle(s, env, newer).next == None;
  }

  /** Where the backup is tried for the r-th time again: no pod, and so many retries counted. */
  predicate Trying(sys: System, r: nat)
  {
    AtPhase(sys, BackupMeta) && sys.status.retriedTimes == r && BackupTask !in sys.tasks && UpdateTask !in sys.tasks
  }

  predicate Retrying(env: Env) { NothingFails(env) && !env.spec.rollback && env.deleteVisible }

  function FailingTry(env: Env): seq<Event> { [Reconcile(env), TaskMoves(BackupTask, PodFailed), Reconcile(env)] }

  function GoodTry(env: Env): seq<Event> { [Reconcile(env), TaskMoves(BackupTask, PodSucceeded), Reconcile(env)] }

  function FailingTries(env: Env, n: nat): seq<Event>
  {
    if n == 0 then [] else FailingTries(env, n - 1) + FailingTry(env)
  }

  lemma ThreeEvents(sys: System, a: Event, b: Event, c: Event, newer: NewerThan25)
    ensures Run(sys, [a, b, c], newer) == Next(Next(Next(sys, a, newer), b, newer), c, newer)
  {
    hide Next;
    var es := [a, b, c];
    assert es[..2][..1] == es[..1] && es[..1][..0] == [];
    assert Run(sys, es[..1], newer) == Next(sys, a, newer);
    assert Run(sys, es[..2], newer) == Next(Next(sys, a, newer), b, newer);
  }

  /** The pod of a try is started and ends one way or the other. */
  lemma TryEnds(sys: System, env: Env, newer: NewerThan25, r: nat, phase: TaskPhase)
    requires Trying(sys, r) && Retrying(env)
    ensures var b := Next(Next(sys, Reconcile(env), newer), TaskMoves(BackupTask, phase), newer);
            && AtPhase(b, BackupMeta) && b.status.retriedTimes == r && BackupTask in b.tasks && b.tasks[BackupTask] == phase
            && UpdateTask !in b.tasks && InDirection(b.status, env)
  {
    hide Reconciled;
    TasksAreStarted(sys, env, newer, BackupTask);
  }

  /** A failing try is followed by another one, or by giving up. */
  lemma TryFails(sys: System, env: Env, newer: NewerThan25, r: nat)
    requires Trying(sys, r) && Retrying(env)
    ensures var v := Run(sys, FailingTry(env), newer);
            && (r < env.spec.maxRetry ==> Trying(v, r + 1))
            && (r >= env.spec.maxRetry ==>
                  && v.status.retriedTimes == r && (v.status.isRollbacking <==> env.spec.rollbackIfFailed)
                  && (!env.spec.rollbackIfFailed ==> v.status.state == BackupMetaFailed))
  {
    ThreeEvents(sys, Reconcile(env), TaskMoves(BackupTask, PodFailed), Reconcile(env), newer);
    hide Run, Next;
    TryEnds(sys, env, newer, r, PodFailed);
    var b := Next(Next(sys, Reconcile(env), newer), TaskMoves(BackupTask, PodFailed), newer);
    if r < env.spec.maxRetry { FailedBackupIsRetried(b, env, newer); } else { FailedBackupGivesUp(b, env, newer); }
  }

  lemma TrySucceeds(sys: System, env: Env, newer: NewerThan25, r: nat)
    requires Trying(sys, r) && Retrying(env)
    ensures var v := Run(sys, GoodTry(env), newer);
            && v.status.state == UpdatingMeta && v.status.metaBackuped && Active(v, UpdateTask) && v.status.retriedTimes == r
  {
    ThreeEvents(sys, Reconcile(env), TaskMoves(BackupTask, PodSucceeded), Reconcile(env), newer);
    hide Run, Next;
    TryEnds(sys, env, newer, r, PodSucceeded);
    var b := Next(Next(sys, Reconcile(env), newer), TaskMoves(BackupTask, PodSucceeded), newer);
    BackupLeadsToMigration(b, env, newer);
  }

  lemma {:induction false} StillTrying(sys: System, env: Env, newer: NewerThan25, n: nat)
    requires Trying(sys, 0) && Retrying(env) && n <= env.spec.maxRetry
    ensures Trying(Run(sys, FailingTries(env, n), newer), n)
  {
    hide Trying, Next, FailingTry;
    if n > 0 {
      StillTrying(sys, env, newer, n - 1);
      var v := Run(sys, FailingTries(env, n - 1), newer);
      TryFails(v, env, newer, n - 1);
      RunConcat(sys, FailingTries(env, n - 1), FailingTry(env), newer);
    }
  }

  /**
   The backup is tried exactly maxRetry times again. After any smaller number of failures a try that
   succeeds leads to the migration; after one failure more the upgrade gives up, and rolls back
   exactly if the spec asks for that.
   */
  lemma BackupIsTriedAgainExactly(sys: System, env: Env, newer: NewerThan25, n: nat)
    requires Trying(sys, 0) && Retrying(env)
    ensures n <= env.spec.maxRetry ==>
              var v := Run(sys, FailingTries(env, n) + GoodTry(env), newer);
              && v.status.state == UpdatingMeta && v.status.metaBackuped && Active(v, UpdateTask) && v.status.retriedTimes == n
    ensures n == env.spec.maxRetry ==>
              var v := Run(sys, FailingTries(env, n) + FailingTry(env), newer);
              && v.status.retriedTimes == n && (v.status.isRollbacking <==> env.spec.rollbackIfFailed)
              && (!env.spec.rollbackIfFailed ==> v.status.state == BackupMetaFailed)
  {
    hide Run, Trying, FailingTry, GoodTry, FailingTries;
    if n <= env.spec.maxRetry {
      StillTrying(sys, env, newer, n);
      var v := Run(sys, FailingTries(env, n), newer);
      TrySucceeds(v, env, newer, n);
      TryFails(v, env, newer, n);
      RunConcat(sys, FailingTries(env, n), GoodTry(env), newer);
      RunConcat(sys, FailingTries(env, n), FailingTry(env), newer);
    }
  }

  // ---- how a migration and a restore end -------------------------------------------------------------------------

  /** The spec a start produces, if the recording allows it. */
  function StartedSpec(sys: System, image: string, newer: NewerThan25): Option<MilvusSpec>
  {
    Restored(OpenedForStart(sys.status.snapshot), sys.milvus.spec.(image := image), newer)
  }

  lemma StartedImage(sys: System, image: string, newer: NewerThan25)
    requires StartedSpec(sys, image, newer).Some?
    ensures StartedSpec(sys, image, newer).value.image == image
  {
    hide WorkloadsOf, RestoreAll;
    var now := sys.milvus.spec.(image := image);
    RestoreReads(OpenedForStart(sys.status.snapshot), now, WorkloadsOf(now, newer), Id(Proxy, None));
  }

  /** Milvus runs again: on that image, without the marks of a stop. */
  predicate RunsAgain(sys: System, image: string)
  {
    sys.milvus.spec.image == image && !sys.milvus.stoppedAt && !sys.milvus.upgradeStopping
  }

  /** A migration that succeeded ends in the target version, or where it was if that cannot be started. */
  lemma MigrationSucceeds(sys: System, env: Env, newer: NewerThan25)
    requires NothingFails(env) && InDirection(sys.status, env)
    requires sys.status.state == UpdatingMeta && sys.status.metaStorageChanged
    requires UpdateTask in sys.tasks && sys.tasks[UpdateTask] == PodSucceeded
    ensures var r := Next(sys, Reconcile(env), newer);
            if StartedSpec(sys, env.spec.targetImage, newer).Some?
            then r.status.state == Succeeded && RunsAgain(r, env.spec.targetImage) && r.meta == sys.meta
            else r.status.state == NewVersionStarting && r.milvus == sys.milvus
  {
    hide Descends, Stored, Restored, OpenedForStart;
    assert SetState(sys, UpdatingMeta) == sys;
    var t := Handle(sys, env, newer);
    assert t.next == Some(NewVersionStarting) && !t.err;
    var s := SetState(t.sys, NewVersionStarting);
    var u := Handle(s, env, newer);
    if StartedSpec(sys, env.spec.targetImage, newer).Some? {
      StartedImage(sys, env.spec.targetImage, newer);
      assert u.next == Some(Succeeded) && !u.err;
      assert Loop(s, env, newer, NewVersionStarting) == SetState(u.sys, Succeeded);
    }
    StoredKeepsState(Loop(sys, env, newer, UpdatingMeta).status);
  }

  lemma StoredKeepsState(st: Status)
    ensures Stored(st) == st.(snapshot := Stored(st).snapshot)
  {
  }

  /** A migration that failed is rolled back exactly if the spec asks for that, and rests otherwise. */
  lemma MigrationFails(sys: System, env: Env, newer: NewerThan25)
    requires NothingFails(env) && InDirection(sys.status, env)
    requires sys.status.state == UpdateMetaFailed ||
             (sys.status.state == UpdatingMeta && sys.status.metaStorageChanged && Failed(sys, UpdateTask))
    ensures Next(sys, Reconcile(env), newer).status.isRollbacking <==> env.spec.rollbackIfFailed
    ensures !env.spec.rollbackIfFailed ==>
              Next(sys, Reconcile(env), newer) == sys.(status := Stored(sys.status.(state := UpdateMetaFailed)))
  {
    hide Descends, Stored, Stopping, Loop;
    MigrationFailsLoop(sys, env, newer);
    StoredKeepsRest(Loop(sys, env, newer, sys.status.state).status);
  }

  lemma MigrationFailsLoop(sys: System, env: Env, newer: NewerThan25)
    requires NothingFails(env) && InDirection(sys.status, env)
    requires sys.status.state == UpdateMetaFailed ||
             (sys.status.state == UpdatingMeta && sys.status.metaStorageChanged && Failed(sys, UpdateTask))
    ensures var r := Loop(sys, env, newer, sys.status.state);
            && (r.status.isRollbacking <==> env.spec.rollbackIfFailed)
            && (!env.spec.rollbackIfFailed ==> r == SetState(sys, UpdateMetaFailed))
            && (env.spec.rollbackIfFailed ==> r == Loop(SetRollback(sys), env, newer, RollbackNewVersionStopping))
  {
    hide Descends, Stopping;
    var s := SetState(sys, UpdateMetaFailed);
    assert SetState(sys, sys.status.state) == sys;
    if sys.status.state == UpdatingMeta {
      assert Handle(sys, env, newer) == Turn(sys, Some(UpdateMetaFailed), false);
      assert Loop(sys, env, newer, UpdatingMeta) == Loop(sys, env, newer, UpdateMetaFailed);
    }
    var t := Handle(s, env, newer);
    if env.spec.rollbackIfFailed {
      assert t == Turn(SetRollback(sys), Some(RollbackNewVersionStopping), false);
      RollbackLoopCounts(t.sys, env, newer, RollbackNewVersionStopping);
    }
  }

  function SetRollback(sys: System): System
  {
    sys.(status := sys.status.(isRollbacking := true, state := RollbackNewVersionStopping))
  }

  /** A restore that succeeded, or was not needed, ends in the source version, or where it was if that cannot be started. */
  lemma RestoreSucceeds(sys: System, env: Env, newer: NewerThan25)
    requires NothingFails(env) && sys.status.isRollbacking && sys.status.state == RollbackRestoringOldMeta
    requires sys.status.metaBackuped ==> RestoreTask in sys.tasks && sys.tasks[RestoreTask] == PodSucceeded
    ensures var r := Next(sys, Reconcile(env), newer);
            if StartedSpec(sys, sys.status.sourceImage, newer).Some?
            then r.status.state == RollbackSucceeded && RunsAgain(r, sys.status.sourceImage) && r.meta == sys.meta
            else r.status.state == RollbackOldVersionStarting && r.milvus == sys.milvus
  {
    hide Descends, Stored, Restored, OpenedForStart;
    assert SetState(sys, RollbackRestoringOldMeta) == sys;
    var t := Handle(sys, env, newer);
    assert t.next == Some(RollbackOldVersionStarting) && !t.err && t.sys.status == sys.status && t.sys.milvus == sys.milvus;
    SourceStarts(t.sys, env, newer);
    assert Loop(sys, env, newer, RollbackRestoringOldMeta) == Loop(t.sys, env, newer, RollbackOldVersionStarting);
    StoredKeepsState(Loop(sys, env, newer, RollbackRestoringOldMeta).status);
  }

  lemma SourceStarts(sys: System, env: Env, newer: NewerThan25)
    requires NothingFails(env)
    ensures var r := Loop(sys, env, newer, RollbackOldVersionStarting);
            if StartedSpec(sys, sys.status.sourceImage, newer).Some?
            then r.status.state == RollbackSucceeded && RunsAgain(r, sys.status.sourceImage) && r.meta == sys.meta
            else r.status.state == RollbackOldVersionStarting && r.milvus == sys.milvus
  {
    hide Descends, Restored, OpenedForStart;
    var s := SetState(sys, RollbackOldVersionStarting);
    var u := Handle(s, env, newer);
    if StartedSpec(sys, sys.status.sourceImage, newer).Some? {
      StartedImage(sys, sys.status.sourceImage, newer);
      assert u.next == Some(RollbackSucceeded) && !u.err;
      assert Loop(u.sys, env, newer, RollbackSucceeded) == SetState(u.sys, RollbackSucceeded);
    }
  }

  /** A restore that failed ends the rollback, and nothing else changes. */
  lemma RestoreFails(sys: System, env: Env, newer: NewerThan25)
    requires NothingFails(env) && sys.status.isRollbacking && sys.status.state == RollbackRestoringOldMeta
    requires sys.status.metaBackuped && Failed(sys, RestoreTask)
    ensures Next(sys, Reconcile(env), newer) == sys.(status := Stored(sys.status.(state := RollbackFailed)))
  {
    hide Descends, Stored;
    assert SetState(sys, RollbackRestoringOldMeta) == sys;
    assert Handle(sys, env, newer) == Turn(sys, Some(RollbackFailed), false);
  }

  // ---- whole upgrades and whole rollbacks --------------------------------------------------------------------------

  /** Every deployment group the target version runs was run by the source version. */
  predicate GroupsCarryOver(spec: MilvusSpec, target: string, newer: NewerThan25)
  {
    var ws := WorkloadsOf(spec.(image := target), newer);
    forall i :: 0 <= i < |ws| && ws[i].group.Some? ==> Listed(WorkloadsOf(spec, newer), IdOf(ws[i]))
  }

  /** A migration at work from the spec `o`: everything a later start needs. */
  ghost predicate Migrating(r: System, o: MilvusSpec, newer: NewerThan25)
  {
    && r.status.state == UpdatingMeta && r.status.metaStorageChanged && r.status.metaBackuped
    && !r.status.isRollbacking && Active(r, UpdateTask) && RestoreTask !in r.tasks
    && r.milvus.stoppedAt && Stopping(r.milvus, newer) && r.status.sourceImage == o.image
    && SameShape(o, r.milvus.spec) && R.RecordingOf(r.status.snapshot, o, newer) && M.CanRestart(r, newer)
    && Stored(r.status) == r.status && r.backup == Some(SourceMeta) && UniqueGroups(o)
  }

  lemma AtMigration(sys: System, env: Env, newer: NewerThan25)
    requires Initial(sys) && Forward(env) && Running(sys.milvus, newer)
    ensures Migrating(Run(sys, ToMigration(env), newer), sys.milvus.spec, newer)
  {
    assert UniqueGroups(sys.milvus.spec);
    var r := Run(sys, ToMigration(env), newer);
    MigrationIsReached(sys, env, newer);
    ToMigrationIsCareful(sys, env, newer);
    M.InitialMeets(sys);
    M.CarefulRunMeets(sys, ToMigration(env), newer);
    EveryRunKeeps(sys, ToMigration(env), newer);
    R.EveryRunRestores(sys, ToMigration(env), newer);
    StoredAtTheEnd(sys, env, newer);
    hide Run, ToMigration, Running, Initial, Stopping, Stored, SameShape, R.RecordingOf, HistoryInv, R.GoodStarts, R.NoStart,
         UniqueGroups, M.AllMeetOwn;
    RecordedCanRestart(r, newer);
  }

  lemma StoredAtTheEnd(sys: System, env: Env, newer: NewerThan25)
    ensures var r := Run(sys, ToMigration(env), newer); Stored(r.status) == r.status
  {
    hide Next;
    var es := ToMigration(env);
    M.StoredOnce(Run(sys, es[..|es| - 1], newer), env, newer);
  }

  /** The start on the target image succeeds exactly if every group carries over. */
  lemma TargetStartsIff(sys: System, o: MilvusSpec, target: string, newer: NewerThan25)
    requires UniqueGroups(o) && SameShape(o, sys.milvus.spec) && R.RecordingOf(sys.status.snapshot, o, newer)
    ensures StartedSpec(sys, target, newer).Some? <==> GroupsCarryOver(o, target, newer)
  {
    hide SameShape, R.RecordingOf, UniqueGroups, Restored, WorkloadsOf, Recorded, Listed;
    var now := sys.milvus.spec.(image := target);
    R.RecordingHasComponents(sys.status.snapshot, o, newer);
    SameRestored(sys.status.snapshot, o, now, newer);
    ForwardStartsIff(o, now, newer);
    R.ImageKeepsShape(o, sys.milvus.spec, target);
    ShapeOfImage(o, now, target, newer);
  }

  lemma ShapeOfImage(o: MilvusSpec, now: MilvusSpec, target: string, newer: NewerThan25)
    requires SameShape(o, now) && now.image == target
    ensures var a, b := WorkloadsOf(o.(image := target), newer), WorkloadsOf(now, newer);
            |a| == |b| && forall i :: 0 <= i < |a| ==> IdOf(a[i]) == IdOf(b[i]) && (a[i].group.Some? <==> b[i].group.Some?)
  {
    var x := o.(image := target);
    assert SameShape(x, now);
    hide SameShape, Expand;
    SameComponents(x, now, newer);
    ExpandShape(x, now, ComponentsOf(x, newer));
    hide ComponentsOf;
    forall i | 0 <= i < |WorkloadsOf(x, newer)|
      ensures WorkloadsOf(x, newer)[i].group.Some? <==> WorkloadsOf(now, newer)[i].group.Some?
    {
      assert IdOf(WorkloadsOf(x, newer)[i]) == IdOf(WorkloadsOf(now, newer)[i]);
    }
  }

  lemma MigrationEndsWell(r: System, o: MilvusSpec, env: Env, newer: NewerThan25)
    requires Migrating(r, o, newer) && Forward(env)
    ensures var n := Next(Next(r, TaskMoves(UpdateTask, PodSucceeded), newer), Reconcile(env), newer);
            && (n.status.state == Succeeded <==> GroupsCarryOver(o, env.spec.targetImage, newer))
            && (n.status.state == Succeeded ==> RunsAgain(n, env.spec.targetImage) && n.meta == TargetMeta)
  {
    hide GroupsCarryOver, Restored, SameShape, R.RecordingOf, Stopping, UniqueGroups, M.CanRestart, Stored, Reconciled,
         StartedSpec, AllDown, RunsAgain;
    var m := Next(r, TaskMoves(UpdateTask, PodSucceeded), newer);
    TargetStartsIff(m, o, env.spec.targetImage, newer);
    MigrationSucceeds(m, env, newer);
  }

  /**
   A whole upgrade: from every running Milvus, with nothing failing and a migration that succeeds, it
   ends in the target version on migrated metadata, exactly if every deployment group carries over.
   */
  lemma UpgradeSucceeds(sys: System, env: Env, newer: NewerThan25)
    requires Initial(sys) && Forward(env)
    ensures var r := Run(sys, ToMigration(env) + [TaskMoves(UpdateTask, PodSucceeded), Reconcile(env)], newer);
            Running(sys.milvus, newer) ==>
              && (r.status.state == Succeeded <==> GroupsCarryOver(sys.milvus.spec, env.spec.targetImage, newer))
              && (r.status.state == Succeeded ==> RunsAgain(r, env.spec.targetImage) && r.meta == TargetMeta)
  {
    hide Run, Next, ToMigration, Initial, Running, GroupsCarryOver, Migrating, Forward, RunsAgain;
    var r := Run(sys, ToMigration(env), newer);
    var moves, e := TaskMoves(UpdateTask, PodSucceeded), Reconcile(env);
    RunConcat(sys, ToMigration(env), [moves, e], newer);
    TwoEvents(r, moves, e, newer);
    if Running(sys.milvus, newer) {
      AtMigration(sys, env, newer);
      MigrationEndsWell(r, sys.milvus.spec, env, newer);
    }
  }

  lemma TwoEvents(sys: System, a: Event, b: Event, newer: NewerThan25)
    ensures Run(sys, [a, b], newer) == Next(Next(sys, a, newer), b, newer)
  {
    hide Next;
    var es := [a, b];
    assert es[..1] == [a] && es[..1][..0] == [];
    assert Run(sys, es[..1], newer) == Next(sys, a, newer);
  }

  /** Stopped already, a rollback goes straight to the restore and starts its pod. */
  lemma RollbackStartsRestore(sys: System, env: Env, newer: NewerThan25)
    requires Smooth(env) && sys.status.isRollbacking && sys.status.metaBackuped && RestoreTask !in sys.tasks
    requires sys.milvus.stoppedAt && Stopping(sys.milvus, newer)
    ensures Loop(sys, env, newer, RollbackNewVersionStopping) ==
            sys.(status := sys.status.(state := RollbackRestoringOldMeta), tasks := sys.tasks[RestoreTask := PodPending],
                 history := sys.history + [TaskStarted(RestoreTask, sys.milvus)])
  {
    hide Stopping, Descends;
    var s, u := SetState(sys, RollbackNewVersionStopping), SetState(sys, RollbackRestoringOldMeta);
    assert Handle(s, env, newer) == Turn(s, Some(RollbackRestoringOldMeta), false);
    assert Loop(s, env, newer, RollbackRestoringOldMeta) == Handle(u, env, newer).sys;
  }

  /** A failed migration that is rolled back, and its restore done. */
  function Undone(r: System, env: Env, newer: NewerThan25): System
  {
    var n := Next(Next(r, TaskMoves(UpdateTask, PodFailed), newer), Reconcile(env), newer);
    Next(Next(n, TaskMoves(RestoreTask, PodSucceeded), newer), Reconcile(env), newer)
  }

  lemma MigrationIsUndone(r: System, o: MilvusSpec, env: Env, newer: NewerThan25)
    requires Migrating(r, o, newer) && Forward(env) && env.spec.rollbackIfFailed
    ensures var u := Undone(r, env, newer);
            u.status.state == RollbackSucceeded && RunsAgain(u, o.image) && u.meta == SourceMeta
  {
    hide Restored, SameShape, R.RecordingOf, Stopping, M.CanRestart, Stored, Reconciled, OpenedForStart, UniqueGroups, AllDown,
         StartedSpec, RunsAgain;
    var m := Next(r, TaskMoves(UpdateTask, PodFailed), newer);
    RestoreFollows(m, env, newer);
    var n := Next(m, Reconcile(env), newer);
    var d := Next(n, TaskMoves(RestoreTask, PodSucceeded), newer);
    CanRestartStarts(r, d, newer);
    RestoreSucceeds(d, env, newer);
  }

  /**
   A whole rollback: from every running Milvus, with a migration that fails, rollback asked for in
   that case and a restore that succeeds, it ends in the source version on its own metadata.
   */
  lemma FailedMigrationRollsBack(sys: System, env: Env, newer: NewerThan25)
    requires Initial(sys) && Forward(env) && env.spec.rollbackIfFailed
    ensures var r := Run(sys, ToMigration(env) + [TaskMoves(UpdateTask, PodFailed), Reconcile(env)]
                              + [TaskMoves(RestoreTask, PodSucceeded), Reconcile(env)], newer);
            Running(sys.milvus, newer) ==>
              r.status.state == RollbackSucceeded && RunsAgain(r, sys.milvus.spec.image) && r.meta == SourceMeta
  {
    hide Run, Next, ToMigration, Initial, Running, Migrating, Forward, RunsAgain;
    var a, e := ToMigration(env), Reconcile(env);
    var b, c := [TaskMoves(UpdateTask, PodFailed), e], [TaskMoves(RestoreTask, PodSucceeded), e];
    var r := Run(sys, a, newer);
    RunConcat(sys, a, b, newer);
    RunConcat(sys, a + b, c, newer);
    TwoEvents(r, b[0], e, newer);
    TwoEvents(Run(r, b, newer), c[0], e, newer);
    if Running(sys.milvus, newer) {
      AtMigration(sys, env, newer);
      MigrationIsUndone(r, sys.milvus.spec, env, newer);
    }
  }

  lemma CanRestartStarts(r: System, o: System, newer: NewerThan25)
    requires M.CanRestart(r, newer) && Stored(r.status) == r.status
    requires o.status.snapshot == r.status.snapshot && o.milvus == r.milvus && o.status.sourceImage == r.status.sourceImage
    ensures StartedSpec(o, o.status.sourceImage, newer).Some?
  {
    hide Restored, OpenedForStart;
  }

  lemma RestoreFollows(m: System, env: Env, newer: NewerThan25)
    requires Forward(env) && env.spec.rollbackIfFailed && !m.status.isRollbacking && m.status.metaBackuped
    requires m.status.state == UpdatingMeta && m.status.metaStorageChanged && Failed(m, UpdateTask)
    requires RestoreTask !in m.tasks && m.milvus.stoppedAt && Stopping(m.milvus, newer) && Stored(m.status) == m.status
    ensures var n := Next(m, Reconcile(env), newer);
            && n == m.(status := m.status.(isRollbacking := true, state := RollbackRestoringOldMeta),
                       tasks := m.tasks[RestoreTask := PodPending],
                       history := m.history + [TaskStarted(RestoreTask, m.milvus)])
  {
    hide Stopping, Loop, AllDown;
    MigrationFailsLoop(m, env, newer);
    RollbackStartsRestore(SetRollback(m), env, newer);
  }
}
