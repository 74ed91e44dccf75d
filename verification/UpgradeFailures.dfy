/** Two runs, from a new upgrade of a running Milvus, that end badly. */
module UpgradeFailures {
  import opened Common
  import opened UpgradeReplicas
  import opened UpgradeMachine
  import opened UpgradeSafety
  import M = UpgradeMetadata
  import R = UpgradeRestart

  // ---- stopping a running Milvus ------------------------------------------------------------------------------

  /** A running Milvus that stopMilvus can stop: all workloads configured, none scaled from outside. */
  predicate CanStop(m: MilvusObject, newer: NewerThan25)
  {
    && UniqueGroups(m.spec) && AllConfigured(m.spec, newer) && !ExternallyScaled(m.spec, WorkloadsOf(m.spec, newer))
  }

  function AfterStop(m: MilvusObject, newer: NewerThan25): MilvusObject
  {
    m.(spec := ZeroAll(m.spec, WorkloadsOf(m.spec, newer)), upgradeStopping := true)
  }

  lemma StopStops(sys: System, env: Env, newer: NewerThan25)
    requires CanStop(sys.milvus, newer) && Smooth(env)
    ensures StopMilvus(sys, env, newer) == Turn(sys.(milvus := AfterStop(sys.milvus, newer)), None, false)
    ensures Stopping(AfterStop(sys.milvus, newer), newer)
  {
    hide WorkloadsOf, ZeroAll, UniqueGroups;
    var z := AfterStop(sys.milvus, newer);
    var ws := WorkloadsOf(z.spec, newer);
    forall i | 0 <= i < |ws|
      ensures GetReplicas(z.spec, ws[i]) == Some(0)
    {
      StopReachesAll(sys.milvus.spec, newer, i);
    }
  }

  /** A state function that waits ends the reconcile. */
  lemma OneTurn(sys: System, env: Env, newer: NewerThan25, t: Turn)
    requires !env.failGet && InTable(sys.status.state) && !Final(sys.status.state)
    requires sys.status == Determined(sys.status, env.spec)
    requires Handle(sys, env, newer) == t && t.next == None
    ensures Next(sys, Reconcile(env), newer) == t.sys.(status := Stored(t.sys.status))
  {
    hide Handle, Stored;
    assert SetState(sys, sys.status.state) == sys;
  }

  /** Where a reconcile starts from. */
  lemma Restated(sys: System, env: Env, newer: NewerThan25)
    ensures var s := sys.(status := Determined(sys.status, env.spec));
            && Next(sys, Reconcile(env), newer) == Next(s, Reconcile(env), newer)
            && s.status == Determined(s.status, env.spec)
  {
    hide Loop, Stored;
    assert Determined(Determined(sys.status, env.spec), env.spec) == Determined(sys.status, env.spec);
  }

  // ---- a migration at work --------------------------------------------------------------------------------------

  /** Early in the forward path: no backup, no change, no rollback. */
  predicate AtPhase(sys: System, p: Phase)
  {
    var st := sys.status;
    st.state == p && !st.isRollbacking && !st.metaBackuped && !st.metaStorageChanged
  }

  predicate Forward(env: Env) { Smooth(env) && AllDown(env.deployments) && !env.spec.rollback }

  lemma RecordsAndStops(sys: System, env: Env, newer: NewerThan25)
    requires Initial(sys) && CanStop(sys.milvus, newer) && !Stopping(sys.milvus, newer) && Forward(env)
    ensures var a := Next(sys, Reconcile(env), newer);
            && AtPhase(a, OldVersionStopping) && Stopping(a.milvus, newer) && !a.milvus.stoppedAt && a.tasks == map[]
            && a.origin == Some(sys.milvus.spec)
  {
    hide Stopping, CanStop, AfterStop, Recorded, Descends, StopMilvus, AllDown;
    Restated(sys, env, newer);
    var s := sys.(status := Determined(sys.status, env.spec));
    var r := RecordInfo(s, newer);
    StopStops(r, env, newer);
    assert Handle(s, env, newer) == StopMilvus(r, env, newer);
    OneTurn(s, env, newer, Handle(s, env, newer));
    AfterStopMark(sys.milvus, newer);
  }

  lemma AfterStopMark(m: MilvusObject, newer: NewerThan25)
    ensures AfterStop(m, newer).stoppedAt == m.stoppedAt
  {
  }

  lemma Marks(sys: System, env: Env, newer: NewerThan25)
    requires AtPhase(sys, OldVersionStopping) && Stopping(sys.milvus, newer) && !sys.milvus.stoppedAt && Forward(env)
    ensures var b := Next(sys, Reconcile(env), newer);
            && AtPhase(b, OldVersionStopping) && b.milvus.stoppedAt && Stopping(b.milvus, newer)
            && b.tasks == sys.tasks && b.origin == sys.origin
  {
    hide Stopping, Descends, AllDown;
    MarkKeepsStopping(sys.milvus, newer);
    OneTurn(sys, env, newer, Handle(sys, env, newer));
  }

  lemma BacksUp(sys: System, env: Env, newer: NewerThan25)
    requires AtPhase(sys, OldVersionStopping) && sys.milvus.stoppedAt && Stopping(sys.milvus, newer) && sys.tasks == map[]
    requires Forward(env)
    ensures var b := Next(sys, Reconcile(env), newer);
            AtPhase(b, BackupMeta) && b.tasks == map[BackupTask := PodPending] && b.origin == sys.origin
  {
    hide Stopping, Descends, AllDown;
    var s := SetState(sys, BackupMeta);
    assert SetState(sys, OldVersionStopping) == sys;
    assert Handle(sys, env, newer) == Turn(sys, Some(BackupMeta), false);
    assert Handle(s, env, newer).next == None;
  }

  lemma Migrates(sys: System, env: Env, newer: NewerThan25)
    requires AtPhase(sys, BackupMeta) && sys.tasks == map[BackupTask := PodPending] && Forward(env)
    ensures var r := Next(Next(sys, TaskMoves(BackupTask, PodSucceeded), newer), Reconcile(env), newer);
            Active(r, UpdateTask) && !r.status.isRollbacking && r.origin == sys.origin
  {
    hide Descends, AllDown;
    var c := Next(sys, TaskMoves(BackupTask, PodSucceeded), newer);
    var t := Handle(c, env, newer);
    assert SetState(c, BackupMeta) == c;
    assert t.next == Some(UpdatingMeta) && !t.err;
    var s := SetState(t.sys, UpdatingMeta);
    assert Handle(s, env, newer).next == None;
  }

  /** Record and stop, see it drained, wait and back up, the backup done, migrate. */
  function ToMigration(env: Env): seq<Event>
  {
    [Reconcile(env), Reconcile(env), Reconcile(env), TaskMoves(BackupTask, PodSucceeded), Reconcile(env)]
  }

  predicate Running(m: MilvusObject, newer: NewerThan25) { CanStop(m, newer) && !Stopping(m, newer) }

  /** Smooth reconciles bring every running Milvus to a migration at work, with its replicas recorded. */
  lemma MigrationIsReached(sys: System, env: Env, newer: NewerThan25)
    requires Initial(sys) && Forward(env)
    ensures var r := Run(sys, ToMigration(env), newer);
            Running(sys.milvus, newer) ==>
              Active(r, UpdateTask) && !r.status.isRollbacking && r.origin == Some(sys.milvus.spec)
  {
    hide Stopping, Next, AllDown, CanStop;
    var es := ToMigration(env);
    assert es[..4][..3] == es[..3] && es[..3][..2] == es[..2] && es[..2][..1] == es[..1] && es[..1][..0] == [];
    var a := Next(sys, es[0], newer);
    var b := Next(a, es[1], newer);
    var c := Next(b, es[2], newer);
    var d := Next(c, es[3], newer);
    assert Run(sys, es[..1], newer) == a;
    assert Run(sys, es[..2], newer) == b;
    assert Run(sys, es[..3], newer) == c;
    assert Run(sys, es[..4], newer) == d;
    if Running(sys.milvus, newer) {
      RecordsAndStops(sys, env, newer);
      Marks(a, env, newer);
      BacksUp(b, env, newer);
      Migrates(c, env, newer);
    }
  }

  const SMALL := MilvusObject(MilvusSpec(false, "milvus:v2.5", "", None, map[Standalone := ONE]), false, false)

  lemma SmallWorkloads()
    ensures WorkloadsOf(SMALL.spec, Newer26) == [Workload(Standalone, None)]
  {
    hide Newer26;
    assert ComponentsOf(SMALL.spec, Newer26) == [Standalone];
    assert [Standalone][..0] == [] && Expand(SMALL.spec, []) == [];
  }

  /** A standalone Milvus with one replica is such a running Milvus. */
  lemma SmallIsRunning()
    ensures Running(SMALL, Newer26)
  {
    hide WorkloadsOf, Newer26;
    SmallWorkloads();
    var ws := WorkloadsOf(SMALL.spec, Newer26);
    assert GetReplicas(SMALL.spec, ws[0]) == Some(1);
  }

  // ---- a rollback in the middle of it -----------------------------------------------------------------------------

  /** What was recorded can be restarted on the source image. */
  lemma RecordedCanRestart(sys: System, newer: NewerThan25)
    requires R.RestartInv(sys, newer) && sys.origin.Some? && UniqueGroups(sys.origin.value)
    ensures M.CanRestart(sys, newer)
  {
    hide Restored, Recorded, R.GoodStarts, R.NoStart, SameShape, R.RecordingOf, UniqueGroups;
    var o := sys.origin.value;
    R.StoredRestores(sys, newer);
    var s := Stored(sys.status).snapshot;
    var now := sys.milvus.spec.(image := sys.status.sourceImage);
    R.RecordingHasComponents(s, o, newer);
    R.ImageKeepsShape(o, sys.milvus.spec, sys.status.sourceImage);
    RollbackRestoresReplicas(o, now, newer, Id(Proxy, None));
    SameRestored(s, o, now, newer);
  }

  lemma SameRestored(s: Snapshot, o: MilvusSpec, now: MilvusSpec, newer: NewerThan25)
    requires R.RecordingOf(s, o, newer)
    ensures Restored(s, now, newer) == Restored(Recorded(NOTHING_RECORDED, o, newer), now, newer)
  {
    hide WorkloadsOf, Recorded, RestoreAll;
    var t := Recorded(NOTHING_RECORDED, o, newer);
    forall id
      ensures Remembered(s, id) == Remembered(t, id)
    {
      R.RecordingRemembers(s, o, newer, id);
    }
    R.RestoreSame(s, t, now, WorkloadsOf(now, newer));
  }

  lemma {:induction false} CarefulWithoutRequest(sys: System, events: seq<Event>, newer: NewerThan25)
    requires forall i :: 0 <= i < |events| && events[i].Reconcile? ==> !events[i].env.spec.rollback
    ensures M.CarefulRun(sys, events, newer)
  {
    hide Run;
    if events != [] { CarefulWithoutRequest(sys, events[..|events| - 1], newer); }
  }

  lemma {:induction false} RunConcat(sys: System, a: seq<Event>, b: seq<Event>, newer: NewerThan25)
    ensures Run(sys, a + b, newer) == Run(Run(sys, a, newer), b, newer)
    decreases |b|
  {
    hide Next;
    if b == [] {
      assert a + b == a;
    } else {
      RunConcat(sys, a, b[..|b| - 1], newer);
      assert (a + b)[..|a + b| - 1] == a + b[..|b| - 1];
    }
  }

  /**
   End to end: every running Milvus has a run, in which nothing fails, that requests a rollback in
   the middle of the migration and ends with the source version started on migrated metadata.
   */
  lemma RollbackDuringMigrationMeetsTarget(sys: System, env: Env, newer: NewerThan25)
    requires Initial(sys) && Forward(env)
    ensures var back := env.(spec := env.spec.(rollback := true));
            Running(sys.milvus, newer) ==>
              !M.AllMeetOwn(Run(sys, ToMigration(env) + [Reconcile(back)] + M.CrossedEvents(M.Smoothed(back)), newer).history)
  {
    var back := env.(spec := env.spec.(rollback := true));
    var r := Run(sys, ToMigration(env), newer);
    assert Running(sys.milvus, newer) ==> UniqueGroups(sys.milvus.spec);
    hide Run, Running, AllDown, M.AllMeetOwn, Initial, UniqueGroups, M.MetaInv, R.RestartInv, Inv, ToMigration;
    if Running(sys.milvus, newer) {
      MigrationIsReached(sys, env, newer);
      ToMigrationIsCareful(sys, env, newer);
      M.InitialMeets(sys);
      M.CarefulRunMeets(sys, ToMigration(env), newer);
      EveryRunKeeps(sys, ToMigration(env), newer);
      R.EveryRunRestores(sys, ToMigration(env), newer);
      RecordedCanRestart(r, newer);
      M.CarelessRollbackMeetsTarget(r, back, newer);
      RunOneEvent(r, Reconcile(back), newer);
      RunConcat(sys, ToMigration(env), [Reconcile(back)], newer);
      RunConcat(sys, ToMigration(env) + [Reconcile(back)], M.CrossedEvents(M.Smoothed(back)), newer);
    }
  }

  lemma RunOneEvent(sys: System, e: Event, newer: NewerThan25)
    ensures Run(sys, [e], newer) == Next(sys, e, newer)
  {
    hide Next;
    assert [e][..0] == [];
    assert Run(sys, [], newer) == sys;
  }

  lemma ToMigrationIsCareful(sys: System, env: Env, newer: NewerThan25)
    requires Forward(env)
    ensures M.CarefulRun(sys, ToMigration(env), newer)
  {
    CarefulWithoutRequest(sys, ToMigration(env), newer);
  }

  // ---- a rollback before anything was recorded ---------------------------------------------------------------------

  const UNRECORDED := Status(RollbackNewVersionStopping, true, false, false, 0, NOTHING_RECORDED, "")

  predicate Back(env: Env) { Smooth(env) && AllDown(env.deployments) && env.spec.rollback }

  lemma UnrecordedStops(sys: System, env: Env, newer: NewerThan25)
    requires Initial(sys) && CanStop(sys.milvus, newer) && !Stopping(sys.milvus, newer) && Back(env)
    ensures var a := Next(sys, Reconcile(env), newer);
            a.status == UNRECORDED && a.milvus == AfterStop(sys.milvus, newer) && Stopping(a.milvus, newer)
  {
    hide Stopping, CanStop, AfterStop, Descends, StopMilvus, AllDown;
    Restated(sys, env, newer);
    var s := sys.(status := Determined(sys.status, env.spec));
    StopStops(s, env, newer);
    assert Handle(s, env, newer) == StopMilvus(s, env, newer);
    OneTurn(s, env, newer, Handle(s, env, newer));
  }

  lemma UnrecordedMarks(sys: System, env: Env, newer: NewerThan25)
    requires sys.status == UNRECORDED && Stopping(sys.milvus, newer) && !sys.milvus.stoppedAt && Back(env)
    ensures var a := Next(sys, Reconcile(env), newer);
            a.status == UNRECORDED && a.milvus == sys.milvus.(stoppedAt := true) && Stopping(a.milvus, newer)
  {
    hide Stopping, Descends, AllDown;
    MarkKeepsStopping(sys.milvus, newer);
    OneTurn(sys, env, newer, Handle(sys, env, newer));
  }

  /** The last start of Milvus was a rollback to an empty image. */
  predicate StartedWithoutImage(h: seq<Fact>)
  {
    h != [] && h[|h| - 1].MilvusStarted? && h[|h| - 1].rollback && h[|h| - 1].spec.image == ""
  }

  lemma UnrecordedStarts(a: System, env: Env, newer: NewerThan25)
    requires a.status == UNRECORDED && a.milvus.stoppedAt && Stopping(a.milvus, newer) && Back(env)
    requires Restored(Snapshot(Some(map[]), None), a.milvus.spec.(image := ""), newer).Some?
    ensures StartedWithoutImage(Next(a, Reconcile(env), newer).history)
  {
    hide Stopping, Restored, Descends, AllDown;
    var b := SetState(a, RollbackRestoringOldMeta);
    var c := SetState(a, RollbackOldVersionStarting);
    assert SetState(a, RollbackNewVersionStopping) == a;
    assert Handle(a, env, newer) == Turn(a, Some(RollbackRestoringOldMeta), false);
    assert Handle(b, env, newer) == Turn(b, Some(RollbackOldVersionStarting), false);
    StartKeepsImage(a.milvus.spec.(image := ""), newer);
    assert Handle(c, env, newer).next == Some(RollbackSucceeded);
    assert Loop(c, env, newer, RollbackOldVersionStarting) == SetState(Handle(c, env, newer).sys, RollbackSucceeded);
  }

  lemma StartKeepsImage(now: MilvusSpec, newer: NewerThan25)
    requires Restored(Snapshot(Some(map[]), None), now, newer).Some?
    ensures Restored(Snapshot(Some(map[]), None), now, newer).value.image == now.image
  {
    hide R.RestoredFrom;
    R.StartFromNothing(Snapshot(Some(map[]), None), now, newer);
  }

  predicate Plain(spec: MilvusSpec) { forall c :: GroupsOf(spec, c) == [] }

  /** Without deployment groups a start needs no recording. */
  lemma PlainStarts(spec: MilvusSpec, z: MilvusSpec, newer: NewerThan25)
    requires Plain(spec) && SameShape(spec, z)
    ensures Restored(Snapshot(Some(map[]), None), z.(image := ""), newer).Some?
  {
    var now := z.(image := "");
    forall c
      ensures GroupsOf(now, c) == []
    {
      assert |GroupsOf(now, c)| == |GroupsOf(spec, c)|;
    }
    Ungrouped(now, ComponentsOf(now, newer));
    hide ComponentsOf, Expand, RestoreAll;
    RestoreSucceedsIff(Snapshot(Some(map[]), None), now, Expand(now, ComponentsOf(now, newer)));
  }

  function Times(env: Env, n: nat): seq<Event> { seq(n, i => Reconcile(env)) }

  lemma RunOneMore(sys: System, env: Env, newer: NewerThan25, n: nat)
    ensures Run(sys, Times(env, n + 1), newer) == Next(Run(sys, Times(env, n), newer), Reconcile(env), newer)
  {
    hide Next;
    var es := Times(env, n + 1);
    assert es[..|es| - 1] == Times(env, n);
  }

  lemma AtZeroLosesImage(sys: System, env: Env, newer: NewerThan25)
    requires Initial(sys) && Back(env) && Plain(sys.milvus.spec)
    ensures var a := Next(sys, Reconcile(env), newer);
            Stopping(sys.milvus, newer) ==> StartedWithoutImage(Next(a, Reconcile(env), newer).history)
  {
    hide Stopping, AllDown, Next, StartedWithoutImage, Plain;
    if Stopping(sys.milvus, newer) {
      var a := Next(sys, Reconcile(env), newer);
      RequestedAtZero(sys, env, newer);
      R.SameShapeRefl(sys.milvus.spec);
      PlainStarts(sys.milvus.spec, a.milvus.spec, newer);
      UnrecordedStarts(a, env, newer);
    }
  }

  lemma RunningLosesImage(sys: System, env: Env, newer: NewerThan25)
    requires Initial(sys) && Back(env) && Plain(sys.milvus.spec)
    ensures var a := Next(sys, Reconcile(env), newer);
            var b := Next(a, Reconcile(env), newer);
            Running(sys.milvus, newer) ==> StartedWithoutImage(Next(b, Reconcile(env), newer).history)
  {
    hide Stopping, CanStop, AllDown, Next, StartedWithoutImage, Plain, AfterStop;
    if Running(sys.milvus, newer) {
      var a := Next(sys, Reconcile(env), newer);
      var b := Next(a, Reconcile(env), newer);
      UnrecordedStops(sys, env, newer);
      AfterStopMark(sys.milvus, newer);
      UnrecordedMarks(a, env, newer);
      AfterStopShape(sys.milvus, newer);
      PlainStarts(sys.milvus.spec, b.milvus.spec, newer);
      UnrecordedStarts(b, env, newer);
    }
  }

  /**
   The recording is what the rollback rests on. Requested before anything was recorded, it starts
   Milvus with an empty image, whether Milvus was running or already at zero.
   */
  lemma UnrecordedRollbackLosesImage(sys: System, env: Env, newer: NewerThan25)
    requires Initial(sys) && Back(env) && Plain(sys.milvus.spec)
    ensures Stopping(sys.milvus, newer) ==> StartedWithoutImage(Run(sys, Times(env, 2), newer).history)
    ensures Running(sys.milvus, newer) ==> StartedWithoutImage(Run(sys, Times(env, 3), newer).history)
  {
    hide Initial, Back, Running, Stopping, Next, Run, StartedWithoutImage, Plain, Times;
    NoTimes(sys, env, newer);
    RunOneMore(sys, env, newer, 0);
    RunOneMore(sys, env, newer, 1);
    RunOneMore(sys, env, newer, 2);
    AtZeroLosesImage(sys, env, newer);
    RunningLosesImage(sys, env, newer);
  }

  lemma NoTimes(sys: System, env: Env, newer: NewerThan25)
    ensures Run(sys, Times(env, 0), newer) == sys
  {
  }

  lemma AfterStopShape(m: MilvusObject, newer: NewerThan25)
    ensures SameShape(m.spec, AfterStop(m, newer).spec)
  {
    hide SameShape, WorkloadsOf;
    ZeroAllKeepsShape(m.spec, WorkloadsOf(m.spec, newer));
  }

  lemma RequestedAtZero(sys: System, env: Env, newer: NewerThan25)
    requires Initial(sys) && Stopping(sys.milvus, newer) && Back(env)
    ensures var a := Next(sys, Reconcile(env), newer);
            a.status == UNRECORDED && a.milvus == sys.milvus.(stoppedAt := true) && Stopping(a.milvus, newer)
  {
    hide Stopping, AllDown, Next;
    Restated(sys, env, newer);
    UnrecordedMarks(sys.(status := Determined(sys.status, env.spec)), env, newer);
  }
}
