/** Which metadata a started Milvus meets, and what happens to it while Milvus runs. */
module UpgradeMetadata {
  import opened Common
  import opened UpgradeReplicas
  import opened UpgradeMachine
  import opened UpgradeSafety

  predicate Done(sys: System, kind: TaskKind) { kind in sys.tasks && sys.tasks[kind] == PodSucceeded }

  /** The source version meets its own metadata, the target version migrated metadata. */
  predicate MeetsOwn(f: Fact)
  {
    f.MilvusStarted? ==> f.meta == if f.rollback then SourceMeta else TargetMeta
  }

  predicate AllMeetOwn(h: seq<Fact>) { forall i :: 0 <= i < |h| ==> MeetsOwn(h[i]) }

  /** At most the pod of the current state is at work. */
  predicate TaskInv(sys: System)
  {
    var st := sys.status;
    && (Active(sys, UpdateTask) ==> st.state == UpdatingMeta)
    && (Active(sys, RestoreTask) ==> st.state == RollbackRestoringOldMeta)
    && (Active(sys, BackupTask) ==> !st.metaBackuped)
    && (UpdateTask in sys.tasks ==> st.metaStorageChanged)
    && (RestoreTask in sys.tasks ==> st.isRollbacking && st.metaBackuped)
  }

  predicate StoreInv(sys: System)
  {
    var st := sys.status;
    && (!st.metaBackuped ==> sys.meta == SourceMeta)
    && (!st.isRollbacking && !st.metaStorageChanged ==> sys.meta == SourceMeta)
    && (!st.isRollbacking && Done(sys, UpdateTask) ==> sys.meta == TargetMeta)
    && (st.state in {NewVersionStarting, Succeeded} ==> sys.meta == TargetMeta)
    && (Done(sys, BackupTask) || st.metaBackuped ==> sys.backup == Some(SourceMeta))
    && (Done(sys, RestoreTask) ==> sys.meta == SourceMeta)
    && (st.state in {RollbackOldVersionStarting, RollbackSucceeded} ==> sys.meta == SourceMeta)
  }

  predicate MetaInv(sys: System)
  {
    StatusInv(sys.status) && TaskInv(sys) && StoreInv(sys) && AllMeetOwn(sys.history)
  }

  predicate TurnMeta(t: Turn)
  {
    && (t.err || t.next == None ==> MetaInv(t.sys))
    && (!t.err && t.next.Some? ==> MetaInv(SetState(t.sys, t.next.value)))
  }

  lemma ExtendMeets(h: seq<Fact>, f: Fact)
    requires AllMeetOwn(h) && MeetsOwn(f)
    ensures AllMeetOwn(h + [f])
  {
  }

  lemma StoppedCheckMeets(sys: System, env: Env, next: Phase)
    requires MetaInv(sys)
    requires (sys.status.state, next) in {(OldVersionStopping, BackupMeta),
                                          (RollbackNewVersionStopping, RollbackRestoringOldMeta)}
    ensures var (s, stopped, err) := CheckStopped(sys, env);
            TurnMeta(Turn(s, if stopped then Some(next) else None, err))
  {
    hide AllMeetOwn;
    ExtendMeets(sys.history, Drained(env.deployments));
  }

  lemma StopMeets(sys: System, env: Env, newer: NewerThan25)
    requires MetaInv(sys)
    ensures MetaInv(RecordInfo(sys, newer)) && MetaInv(StopMilvus(sys, env, newer).sys)
  {
    hide AllMeetOwn, Recorded, Stopped;
  }

  lemma StoppingTurns(sys: System, env: Env, newer: NewerThan25)
    requires MetaInv(sys)
    ensures sys.status.state == OldVersionStopping ==> TurnMeta(OldVersionStoppingTurn(sys, env, newer))
    ensures sys.status.state == RollbackNewVersionStopping ==> TurnMeta(RollbackStoppingTurn(sys, env, newer))
  {
    hide Stopping, MetaInv, RecordInfo, StopMilvus, CheckStopped, Descends;
    StopMeets(sys, env, newer);
    StopMeets(RecordInfo(sys, newer), env, newer);
    if sys.status.state == OldVersionStopping { StoppedCheckMeets(sys, env, BackupMeta); }
    if sys.status.state == RollbackNewVersionStopping { StoppedCheckMeets(sys, env, RollbackRestoringOldMeta); }
  }

  lemma BackupTurn(sys: System, env: Env)
    requires MetaInv(sys) && sys.status.state == BackupMeta
    ensures TurnMeta(BackupMetaTurn(sys, env))
  {
    hide AllMeetOwn, Descends;
    ExtendMeets(sys.history, TaskSeenSucceeded(BackupTask));
    ExtendMeets(sys.history, TaskStarted(BackupTask, sys.milvus));
  }

  lemma FailedTurns(sys: System, env: Env)
    requires MetaInv(sys)
    ensures sys.status.state == BackupMetaFailed ==> TurnMeta(BackupFailedTurn(sys, env))
    ensures sys.status.state == UpdateMetaFailed ==> TurnMeta(UpgradeFailedTurn(sys, env))
  {
    hide AllMeetOwn, Descends;
  }

  lemma UpdateTurn(sys: System, env: Env)
    requires MetaInv(sys) && sys.status.state == UpdatingMeta
    ensures TurnMeta(UpdatingMetaTurn(sys, env))
  {
    hide AllMeetOwn, Descends;
    ExtendMeets(sys.history, TaskSeenSucceeded(UpdateTask));
    ExtendMeets(sys.history, TaskStarted(UpdateTask, sys.milvus));
  }

  lemma RestoreTurn(sys: System, env: Env)
    requires MetaInv(sys) && sys.status.state == RollbackRestoringOldMeta
    ensures TurnMeta(RestoringTurn(sys, env))
  {
    hide AllMeetOwn, Descends;
    ExtendMeets(sys.history, TaskSeenSucceeded(RestoreTask));
    ExtendMeets(sys.history, TaskStarted(RestoreTask, sys.milvus));
  }

  lemma StartTurns(sys: System, env: Env, newer: NewerThan25, image: string, next: Phase)
    requires MetaInv(sys)
    requires (sys.status.state == NewVersionStarting && next == Succeeded)
          || (sys.status.state == RollbackOldVersionStarting && next == RollbackSucceeded)
    ensures TurnMeta(StartMilvus(sys, env, newer, image, next))
  {
    hide AllMeetOwn, Restored;
    var spec := Restored(OpenedForStart(sys.status.snapshot), sys.milvus.spec.(image := image), newer);
    if spec.Some? {
      ExtendMeets(sys.history, MilvusStarted(sys.status.isRollbacking, sys.meta, spec.value));
    }
  }

  lemma HandleMeets(sys: System, env: Env, newer: NewerThan25)
    requires MetaInv(sys) && InTable(sys.status.state) && !Final(sys.status.state)
    ensures TurnMeta(Handle(sys, env, newer))
  {
    hide MetaInv, TurnMeta, OldVersionStoppingTurn, BackupMetaTurn, UpdatingMetaTurn, StartMilvus, BackupFailedTurn,
         UpgradeFailedTurn, RollbackStoppingTurn, RestoringTurn, Descends;
    match sys.status.state
    case OldVersionStopping => StoppingTurns(sys, env, newer);
    case BackupMeta => BackupTurn(sys, env);
    case UpdatingMeta => UpdateTurn(sys, env);
    case NewVersionStarting => StartTurns(sys, env, newer, env.spec.targetImage, Succeeded);
    case BackupMetaFailed => FailedTurns(sys, env);
    case UpdateMetaFailed => FailedTurns(sys, env);
    case RollbackNewVersionStopping => StoppingTurns(sys, env, newer);
    case RollbackRestoringOldMeta => RestoreTurn(sys, env);
    case RollbackOldVersionStarting => StartTurns(sys, env, newer, sys.status.sourceImage, RollbackSucceeded);
  }

  lemma {:induction false} LoopMeets(sys: System, env: Env, newer: NewerThan25, p: Phase)
    requires MetaInv(SetState(sys, p))
    ensures MetaInv(Loop(sys, env, newer, p))
    decreases RankOf(p)
  {
    hide MetaInv, Handle;
    if InTable(p) && !Final(p) {
      var s := SetState(sys, p);
      HandleMeets(s, env, newer);
      var t := Handle(s, env, newer);
      if !t.err && t.next.Some? { LoopMeets(t.sys, env, newer, t.next.value); }
    }
  }

  /** A rollback is asked for only while no migration pod is at work. */
  predicate Careful(sys: System, e: Event)
  {
    e.Reconcile? && e.env.spec.rollback && !sys.status.isRollbacking ==> !Active(sys, UpdateTask)
  }

  predicate CarefulRun(sys: System, events: seq<Event>, newer: NewerThan25)
  {
    events == [] ||
    (CarefulRun(sys, events[..|events| - 1], newer) &&
     Careful(Run(sys, events[..|events| - 1], newer), events[|events| - 1]))
  }

  lemma DeterminedMeets(sys: System, env: Env)
    requires MetaInv(sys) && Careful(sys, Reconcile(env))
    ensures var s := sys.(status := Determined(sys.status, env.spec));
            MetaInv(s) && SetState(s, s.status.state) == s
  {
    hide AllMeetOwn;
  }

  lemma StoredMeets(sys: System)
    requires MetaInv(sys)
    ensures MetaInv(sys.(status := Stored(sys.status)))
  {
    hide AllMeetOwn;
  }

  lemma TaskMeets(sys: System, e: Event, newer: NewerThan25)
    requires MetaInv(sys) && !e.Reconcile?
    ensures MetaInv(Next(sys, e, newer))
  {
    hide AllMeetOwn;
  }

  lemma NextMeets(sys: System, e: Event, newer: NewerThan25)
    requires MetaInv(sys) && Careful(sys, e)
    ensures MetaInv(Next(sys, e, newer))
  {
    hide MetaInv, Loop, Stored, Determined;
    if e.Reconcile? {
      DeterminedMeets(sys, e.env);
      var s := sys.(status := Determined(sys.status, e.env.spec));
      LoopMeets(s, e.env, newer, s.status.state);
      StoredMeets(if e.env.failGet then s else Loop(s, e.env, newer, s.status.state));
    } else {
      TaskMeets(sys, e, newer);
    }
  }

  lemma {:induction false} CarefulRunMeets(sys: System, events: seq<Event>, newer: NewerThan25)
    requires MetaInv(sys) && CarefulRun(sys, events, newer)
    ensures MetaInv(Run(sys, events, newer))
  {
    hide Next;
    if events != [] {
      CarefulRunMeets(sys, events[..|events| - 1], newer);
      NextMeets(Run(sys, events[..|events| - 1], newer), events[|events| - 1], newer);
    }
  }

  lemma InitialMeets(sys: System)
    requires Initial(sys)
    ensures MetaInv(sys)
  {
  }

  /**
   In a run whose rollback requests avoid a migration at work, every Milvus that is started meets
   metadata of its own version, and the migration and restore pods are at work only while Milvus
   is marked stopped, with all workloads at zero and drained since the last start.
   */
  lemma StartedOnOwnMetadata(sys: System, events: seq<Event>, newer: NewerThan25)
    requires Initial(sys) && CarefulRun(sys, events, newer)
    ensures var r := Run(sys, events, newer);
            && AllMeetOwn(r.history)
            && (Active(r, UpdateTask) || Active(r, RestoreTask) ==>
                  r.milvus.stoppedAt && Stopping(r.milvus, newer) && DrainedSinceStart(r.history))
  {
    InitialMeets(sys);
    hide Stopping, AllMeetOwn, Run;
    CarefulRunMeets(sys, events, newer);
    EveryRunKeeps(sys, events, newer);
  }

  /** Every deployment group of the source version has a recorded count. */
  predicate CanRestart(sys: System, newer: NewerThan25)
  {
    Restored(OpenedForStart(Stored(sys.status).snapshot), sys.milvus.spec.(image := sys.status.sourceImage), newer).Some?
  }

  /** A rollback under way beside a migration at work, with the restore not yet finished. */
  predicate Crossed(sys: System, newer: NewerThan25)
  {
    && sys.status.isRollbacking && sys.status.metaBackuped
    && sys.status.state in {RollbackNewVersionStopping, RollbackRestoringOldMeta}
    && sys.milvus.stoppedAt && Stopping(sys.milvus, newer)
    && Active(sys, UpdateTask) && (RestoreTask in sys.tasks ==> Active(sys, RestoreTask))
  }

  /** Stopped already, a crossed rollback goes on to the restore as far as the environment lets it. */
  lemma {:induction false} CrossedLoop(sys: System, env: Env, newer: NewerThan25)
    requires Crossed(sys, newer)
    ensures var r := Loop(sys, env, newer, sys.status.state);
            && Crossed(r, newer) && r.milvus == sys.milvus && r.status == sys.status.(state := r.status.state)
            && (Smooth(env) ==> r.status.state == RollbackRestoringOldMeta && Active(r, RestoreTask))
  {
    hide Stopping, Descends;
    assert SetState(sys, sys.status.state) == sys;
    var s := SetState(sys, RollbackRestoringOldMeta);
    assert Loop(s, env, newer, RollbackRestoringOldMeta) == Handle(s, env, newer).sys;
  }

  lemma CrossedStays(sys: System, env: Env, newer: NewerThan25)
    requires Crossed(sys, newer)
    ensures var r := Next(sys, Reconcile(env), newer);
            && Crossed(r, newer) && (CanRestart(sys, newer) ==> CanRestart(r, newer))
            && (Smooth(env) ==> r.status.state == RollbackRestoringOldMeta && Active(r, RestoreTask))
  {
    hide Stopping, Loop, Restored, OpenedForStart;
    assert Determined(sys.status, env.spec) == sys.status;
    CrossedLoop(sys, env, newer);
  }

  /** A careless request crosses the two, whatever else fails in that reconcile. */
  lemma CarelessCrosses(sys: System, env: Env, newer: NewerThan25)
    requires Inv(sys, newer) && MetaInv(sys) && !Careful(sys, Reconcile(env))
    ensures var r := Next(sys, Reconcile(env), newer);
            Crossed(r, newer) && (CanRestart(sys, newer) ==> CanRestart(r, newer))
  {
    hide Inv, Stopping, Loop, Restored, OpenedForStart, AllMeetOwn, StoreInv;
    StopPart(sys, newer);
    var s := sys.(status := Determined(sys.status, env.spec));
    assert Crossed(s, newer);
    assert s.status == Determined(s.status, env.spec);
    CrossedStays(s, env, newer);
  }

  lemma StopPart(sys: System, newer: NewerThan25)
    requires Inv(sys, newer)
    ensures StopInv(sys, newer)
  {
  }

  /** Once the restore pod is done the source version is started, whatever the store holds by then. */
  lemma RestoredThenStarted(sys: System, env: Env, newer: NewerThan25)
    requires sys.status.state == RollbackRestoringOldMeta && sys.status.isRollbacking && sys.status.metaBackuped
    requires Done(sys, RestoreTask) && Smooth(env)
    ensures var h := Next(sys, Reconcile(env), newer).history;
            Restored(OpenedForStart(sys.status.snapshot), sys.milvus.spec.(image := sys.status.sourceImage), newer).Some? ==>
              h != [] && h[|h| - 1].MilvusStarted? && h[|h| - 1].rollback && h[|h| - 1].meta == sys.meta
  {
    hide Restored, OpenedForStart, Descends, Stored;
    var s := SetState(SeenSucceeded(sys, RestoreTask), RollbackOldVersionStarting);
    assert Handle(sys, env, newer) == Turn(SeenSucceeded(sys, RestoreTask), Some(RollbackOldVersionStarting), false);
    if Restored(OpenedForStart(sys.status.snapshot), sys.milvus.spec.(image := sys.status.sourceImage), newer).Some? {
      assert Handle(s, env, newer).next == Some(RollbackSucceeded);
    }
  }

  /** Go on to the restore, let both pods finish, the migration last, and start. */
  function CrossedEvents(env: Env): seq<Event>
  {
    [Reconcile(env), TaskMoves(RestoreTask, PodSucceeded), TaskMoves(UpdateTask, PodSucceeded), Reconcile(env)]
  }

  lemma CrossedSteps(sys: System, env: Env, newer: NewerThan25)
    ensures var a := Next(sys, Reconcile(env), newer);
            var b := Next(a, TaskMoves(RestoreTask, PodSucceeded), newer);
            var c := Next(b, TaskMoves(UpdateTask, PodSucceeded), newer);
            Run(sys, CrossedEvents(env), newer) == Next(c, Reconcile(env), newer)
  {
    hide Next;
    var es := CrossedEvents(env);
    assert es[..3][..2] == es[..2] && es[..2][..1] == es[..1] && es[..1][..0] == [];
    assert Run(sys, es[..1], newer) == Next(sys, es[0], newer);
    assert Run(sys, es[..2], newer) == Next(Run(sys, es[..1], newer), es[1], newer);
    assert Run(sys, es[..3], newer) == Next(Run(sys, es[..2], newer), es[2], newer);
  }

  /** From a crossed state the source version can be started on migrated metadata. */
  lemma CrossedMeetsTarget(sys: System, env: Env, newer: NewerThan25)
    requires Crossed(sys, newer) && Smooth(env)
    ensures CanRestart(sys, newer) ==> !AllMeetOwn(Run(sys, CrossedEvents(env), newer).history)
  {
    hide Stopping, AllMeetOwn, Reconciled, Restored;
    var a := Next(sys, Reconcile(env), newer);
    var b := Next(a, TaskMoves(RestoreTask, PodSucceeded), newer);
    var c := Next(b, TaskMoves(UpdateTask, PodSucceeded), newer);
    var d := Next(c, Reconcile(env), newer);
    CrossedStays(sys, env, newer);
    CrossedSteps(sys, env, newer);
    StoredOnce(sys, env, newer);
    RestoredThenStarted(c, env, newer);
    if CanRestart(sys, newer) { NotAllMeet(d.history); }
  }

  /** What a reconcile leaves has been through the API server already. */
  lemma StoredOnce(sys: System, env: Env, newer: NewerThan25)
    ensures var r := Next(sys, Reconcile(env), newer); Stored(r.status) == r.status
  {
    hide Loop, Determined;
  }

  lemma NotAllMeet(h: seq<Fact>)
    requires h != [] && !MeetsOwn(h[|h| - 1])
    ensures !AllMeetOwn(h)
  {
  }

  /** Reconciles that are careful because the rollback is under way already. */
  lemma CrossedIsCareful(sys: System, env: Env, newer: NewerThan25)
    requires Crossed(sys, newer)
    ensures CarefulRun(sys, CrossedEvents(env), newer)
  {
    hide Reconciled, Active, Stopping;
    var es := CrossedEvents(env);
    assert es[..3][..2] == es[..2] && es[..2][..1] == es[..1] && es[..1][..0] == [];
    CrossedStays(sys, env, newer);
    var a := Next(sys, es[0], newer);
    var b := Next(a, es[1], newer);
    var c := Next(b, es[2], newer);
    assert c.status == a.status;
    assert Run(sys, es[..0], newer) == sys && CarefulRun(sys, es[..0], newer);
    assert Run(sys, es[..1], newer) == a && CarefulRun(sys, es[..1], newer);
    assert Run(sys, es[..2], newer) == b && CarefulRun(sys, es[..2], newer);
    assert Run(sys, es[..3], newer) == c && CarefulRun(sys, es[..3], newer);
  }

  /** The same environment with nothing failing. */
  function Smoothed(env: Env): (e: Env)
    ensures Smooth(e)
  {
    env.(elapsed := true, failGet := false, failUpdate := false, failAlpha := false, failList := false, failStart := false,
         failDelete := false)
  }

  /**
   Without that care the guarantee fails: from any state with a migration at work and recorded
   replicas, a rollback request, whichever calls of its reconcile fail, can be followed by a run
   that starts the source version on migrated metadata.
   */
  lemma CarelessRollbackMeetsTarget(sys: System, env: Env, newer: NewerThan25)
    requires Inv(sys, newer) && MetaInv(sys) && !Careful(sys, Reconcile(env))
    ensures var a := Next(sys, Reconcile(env), newer);
            && CarefulRun(a, CrossedEvents(Smoothed(env)), newer)
            && (CanRestart(sys, newer) ==> !AllMeetOwn(Run(a, CrossedEvents(Smoothed(env)), newer).history))
  {
    hide Inv, MetaInv, Careful, CanRestart, Crossed, AllMeetOwn, Next, Run, CarefulRun;
    var a := Next(sys, Reconcile(env), newer);
    CarelessCrosses(sys, env, newer);
    CrossedIsCareful(a, Smoothed(env), newer);
    CrossedMeetsTarget(a, Smoothed(env), newer);
  }

  // ---- the exact condition ------------------------------------------------------------------------------------

  /**
   The exact condition, in every state and for every environment: with the replicas recorded, no
   careful continuation of a reconcile starts a version on metadata of the other, if and only if
   the reconcile itself does not request a rollback beside a migration at work.
   */
  lemma OwnMetadataIffCareful(sys: System, env: Env, newer: NewerThan25)
    requires Inv(sys, newer) && MetaInv(sys) && CanRestart(sys, newer)
    ensures Careful(sys, Reconcile(env)) <==>
            forall rest :: CarefulRun(Next(sys, Reconcile(env), newer), rest, newer) ==>
                             AllMeetOwn(Run(Next(sys, Reconcile(env), newer), rest, newer).history)
  {
    hide Inv, CanRestart, AllMeetOwn, TaskInv, StoreInv, Run, CarefulRun, Reconciled;
    var a := Next(sys, Reconcile(env), newer);
    if Careful(sys, Reconcile(env)) {
      NextMeets(sys, Reconcile(env), newer);
      forall rest | CarefulRun(a, rest, newer)
        ensures AllMeetOwn(Run(a, rest, newer).history)
      {
        CarefulRunMeets(a, rest, newer);
      }
    } else {
      CarelessRollbackMeetsTarget(sys, env, newer);
    }
  }
}
