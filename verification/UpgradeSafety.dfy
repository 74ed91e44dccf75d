/**
 Whole runs of an upgrade: reconciles with any environment and any edit of the upgrade's spec,
 interleaved with task pods that start, finish, fail or disappear on their own.
 */
module UpgradeSafety {
  import opened Common
  import opened UpgradeReplicas
  import opened UpgradeMachine

  datatype Event = Reconcile(env: Env) | TaskMoves(kind: TaskKind, phase: TaskPhase) | TaskGone(kind: TaskKind)

  /** A pod that never restarts is done once it succeeded or failed. */
  predicate Active(sys: System, kind: TaskKind)
  {
    kind in sys.tasks && sys.tasks[kind] in {PodPending, PodRunning}
  }

  /** A running task leaves the store between versions; a finished one has migrated it, saved it or put the backup back. */
  function Moved(sys: System, kind: TaskKind, phase: TaskPhase): System
  {
    var s := sys.(tasks := sys.tasks[kind := phase]);
    match kind
    case BackupTask => if phase == PodSucceeded then s.(backup := Some(s.meta)) else s
    case UpdateTask => if phase == PodSucceeded then s.(meta := TargetMeta)
                       else if phase == PodPending then s else s.(meta := BetweenMeta)
    case RestoreTask => if phase == PodSucceeded then s.(meta := if s.backup.Some? then s.backup.value else s.meta)
                        else if phase == PodPending then s else s.(meta := BetweenMeta)
  }

  function Next(sys: System, e: Event, newer: NewerThan25): System
  {
    match e
    case Reconcile(env) => Reconciled(sys, env, newer)
    case TaskMoves(kind, phase) => if Active(sys, kind) then Moved(sys, kind, phase) else sys
    case TaskGone(kind) => sys.(tasks := sys.tasks - {kind})
  }

  function Run(sys: System, events: seq<Event>, newer: NewerThan25): System
  {
    if events == [] then sys else Next(Run(sys, events[..|events| - 1], newer), events[|events| - 1], newer)
  }

  /** A new upgrade of a Milvus that carries no stopped-at mark from elsewhere. */
  predicate Initial(sys: System)
  {
    && sys.status == Status(Pending, false, false, false, 0, NOTHING_RECORDED, "")
    && !sys.milvus.stoppedAt && sys.tasks == map[] && sys.meta == SourceMeta && sys.backup == None
    && sys.history == [] && sys.origin == None
  }

  predicate NothingFails(env: Env)
  {
    && !env.failGet && !env.failUpdate && !env.failAlpha && !env.failList && !env.failStart && !env.failDelete
  }

  /** An environment in which nothing fails and the wait is over. */
  predicate Smooth(env: Env) { NothingFails(env) && env.elapsed }

  // ---- the history ------------------------------------------------------------------------------------

  predicate Seen(h: seq<Fact>, kind: TaskKind) { TaskSeenSucceeded(kind) in h }

  predicate Started(h: seq<Fact>, kind: TaskKind)
  {
    exists i :: 0 <= i < |h| && h[i].TaskStarted? && h[i].kind == kind
  }

  /** All deployments were observed at zero after the last time Milvus was started. */
  predicate DrainedSinceStart(h: seq<Fact>)
  {
    h != [] && (h[|h| - 1].Drained? || (!h[|h| - 1].MilvusStarted? && DrainedSinceStart(h[..|h| - 1])))
  }

  /** What must have happened before a fact. */
  predicate SafeFact(before: seq<Fact>, f: Fact, newer: NewerThan25)
  {
    match f
    case Drained(seen) =>
      forall d :: d in seen ==>
        d.observedGeneration >= d.generation && d.replicas.Some? && d.replicas.value <= 0 && d.running <= 0
    case TaskStarted(kind, at) =>
      && at.stoppedAt && Stopping(at, newer) && DrainedSinceStart(before)
      && (kind != BackupTask ==> Seen(before, BackupTask))
    case TaskSeenSucceeded(kind) => Started(before, kind)
    case MilvusStarted(rollback, _, _) =>
      if rollback then Seen(before, BackupTask) ==> Seen(before, RestoreTask)
      else Seen(before, BackupTask) && Seen(before, UpdateTask)
  }

  predicate SafeHistory(h: seq<Fact>, newer: NewerThan25)
  {
    forall i :: 0 <= i < |h| ==> SafeFact(h[..i], h[i], newer)
  }

  lemma ExtendSafe(h: seq<Fact>, f: Fact, newer: NewerThan25)
    requires SafeHistory(h, newer) && SafeFact(h, f, newer)
    ensures SafeHistory(h + [f], newer)
  {
    hide SafeFact;
    var g := h + [f];
    assert g[..|h|] == h;
    assert forall i :: 0 <= i < |h| ==> g[..i] == h[..i] && g[i] == h[i];
  }

  /** One more fact in a safe history. */
  lemma Extend(h: seq<Fact>, f: Fact, newer: NewerThan25)
    requires SafeHistory(h, newer) && SafeFact(h, f, newer)
    ensures SafeHistory(h + [f], newer)
    ensures forall k :: Seen(h + [f], k) <==> Seen(h, k) || f == TaskSeenSucceeded(k)
    ensures forall k :: Started(h + [f], k) <==> Started(h, k) || (f.TaskStarted? && f.kind == k)
    ensures DrainedSinceStart(h + [f]) <==> f.Drained? || (!f.MilvusStarted? && DrainedSinceStart(h))
  {
    ExtendSafe(h, f, newer);
    hide SafeFact, SafeHistory;
    var g := h + [f];
    assert g[..|h|] == h && g[|h|] == f;
    assert forall i :: 0 <= i < |h| ==> g[i] == h[i];
  }

  // ---- the control invariant ---------------------------------------------------------------------------

  predicate BeforeBackup(p: Phase) { p in {Pending, OldVersionStopping, BackupMeta, BackupMetaFailed} }

  predicate NeedsStopped(p: Phase)
  {
    p in {BackupMeta, UpdatingMeta, BackupMetaFailed, UpdateMetaFailed, RollbackRestoringOldMeta}
  }

  predicate StatusInv(st: Status)
  {
    && (RollbackPhase(st.state) <==> st.isRollbacking)
    && (BeforeBackup(st.state) ==> !st.metaBackuped)
    && (!BeforeBackup(st.state) && !st.isRollbacking ==> st.metaBackuped)
    && (st.metaStorageChanged ==> st.metaBackuped)
  }

  predicate HistoryInv(sys: System, newer: NewerThan25)
  {
    var h := sys.history;
    && SafeHistory(h, newer)
    && (sys.status.metaBackuped <==> Seen(h, BackupTask))
    && (Started(h, UpdateTask) ==> sys.status.metaStorageChanged)
    && (forall k :: k in sys.tasks ==> Started(h, k))
    && (sys.status.state in {NewVersionStarting, Succeeded} ==> Seen(h, UpdateTask))
    && (sys.status.state in {RollbackOldVersionStarting, RollbackSucceeded} && sys.status.metaBackuped
        ==> Seen(h, RestoreTask))
  }

  predicate StopInv(sys: System, newer: NewerThan25)
  {
    && (sys.milvus.stoppedAt ==> Stopping(sys.milvus, newer) && DrainedSinceStart(sys.history))
    && (NeedsStopped(sys.status.state) ==> sys.milvus.stoppedAt)
  }

  predicate Inv(sys: System, newer: NewerThan25)
  {
    StatusInv(sys.status) && HistoryInv(sys, newer) && StopInv(sys, newer)
  }

  /** What one call of a state function hands to the loop. */
  predicate TurnInv(t: Turn, newer: NewerThan25)
  {
    && (t.err || t.next == None ==> Inv(t.sys, newer))
    && (!t.err && t.next.Some? ==> Inv(SetState(t.sys, t.next.value), newer))
  }

  lemma MarkKeepsStopping(m: MilvusObject, newer: NewerThan25)
    ensures Stopping(m.(stoppedAt := true), newer) <==> Stopping(m, newer)
  {
    hide WorkloadsOf;
    assert m.(stoppedAt := true).spec == m.spec;
  }

  lemma SeenDown(h: seq<Fact>, env: Env, newer: NewerThan25)
    requires AllDown(env.deployments)
    ensures SafeFact(h, Drained(env.deployments), newer)
  {
  }

  lemma StoppingTurns(sys: System, env: Env, newer: NewerThan25)
    requires Inv(sys, newer)
    ensures sys.status.state == OldVersionStopping ==> TurnInv(OldVersionStoppingTurn(sys, env, newer), newer)
    ensures sys.status.state == RollbackNewVersionStopping ==> TurnInv(RollbackStoppingTurn(sys, env, newer), newer)
  {
    hide Stopping, Stopped, Recorded, SafeHistory, Seen, Started, DrainedSinceStart, Descends, AllDown, SafeFact;
    if AllDown(env.deployments) {
      SeenDown(sys.history, env, newer);
      Extend(sys.history, Drained(env.deployments), newer);
    }
    MarkKeepsStopping(sys.milvus, newer);
  }

  lemma BackupTurns(sys: System, env: Env, newer: NewerThan25)
    requires Inv(sys, newer)
    ensures sys.status.state == BackupMeta ==> TurnInv(BackupMetaTurn(sys, env), newer)
    ensures sys.status.state == BackupMetaFailed ==> TurnInv(BackupFailedTurn(sys, env), newer)
    ensures sys.status.state == UpdateMetaFailed ==> TurnInv(UpgradeFailedTurn(sys, env), newer)
  {
    hide Stopping, SafeHistory, Seen, Started, DrainedSinceStart, Descends;
    if sys.status.state == BackupMeta {
      if BackupTask in sys.tasks { Extend(sys.history, TaskSeenSucceeded(BackupTask), newer); }
      Extend(sys.history, TaskStarted(BackupTask, sys.milvus), newer);
    }
  }

  lemma UpdateTurn(sys: System, env: Env, newer: NewerThan25)
    requires Inv(sys, newer) && sys.status.state == UpdatingMeta
    ensures TurnInv(UpdatingMetaTurn(sys, env), newer)
  {
    hide Stopping, SafeHistory, Seen, Started, DrainedSinceStart, Descends;
    if UpdateTask in sys.tasks { Extend(sys.history, TaskSeenSucceeded(UpdateTask), newer); }
    Extend(sys.history, TaskStarted(UpdateTask, sys.milvus), newer);
  }

  lemma RestoreTurn(sys: System, env: Env, newer: NewerThan25)
    requires Inv(sys, newer) && sys.status.state == RollbackRestoringOldMeta
    ensures TurnInv(RestoringTurn(sys, env), newer)
  {
    hide Stopping, SafeHistory, Seen, Started, DrainedSinceStart, Descends;
    if RestoreTask in sys.tasks { Extend(sys.history, TaskSeenSucceeded(RestoreTask), newer); }
    if sys.status.metaBackuped { Extend(sys.history, TaskStarted(RestoreTask, sys.milvus), newer); }
  }

  lemma StartTurns(sys: System, env: Env, newer: NewerThan25, image: string, next: Phase)
    requires Inv(sys, newer)
    requires (sys.status.state == NewVersionStarting && next == Succeeded)
          || (sys.status.state == RollbackOldVersionStarting && next == RollbackSucceeded)
    ensures TurnInv(StartMilvus(sys, env, newer, image, next), newer)
  {
    hide Stopping, SafeHistory, Seen, Started, DrainedSinceStart, Restored, OpenedForStart;
    var spec := Restored(OpenedForStart(sys.status.snapshot), sys.milvus.spec.(image := image), newer);
    if spec.Some? {
      Extend(sys.history, MilvusStarted(sys.status.isRollbacking, sys.meta, spec.value), newer);
    }
  }

  lemma HandleKeeps(sys: System, env: Env, newer: NewerThan25)
    requires Inv(sys, newer) && InTable(sys.status.state) && !Final(sys.status.state)
    ensures TurnInv(Handle(sys, env, newer), newer)
  {
    hide Inv, TurnInv, OldVersionStoppingTurn, BackupMetaTurn, UpdatingMetaTurn, StartMilvus, BackupFailedTurn,
         UpgradeFailedTurn, RollbackStoppingTurn, RestoringTurn, Descends;
    match sys.status.state
    case OldVersionStopping => StoppingTurns(sys, env, newer);
    case BackupMeta => BackupTurns(sys, env, newer);
    case UpdatingMeta => UpdateTurn(sys, env, newer);
    case NewVersionStarting => StartTurns(sys, env, newer, env.spec.targetImage, Succeeded);
    case BackupMetaFailed => BackupTurns(sys, env, newer);
    case UpdateMetaFailed => BackupTurns(sys, env, newer);
    case RollbackNewVersionStopping => StoppingTurns(sys, env, newer);
    case RollbackRestoringOldMeta => RestoreTurn(sys, env, newer);
    case RollbackOldVersionStarting => StartTurns(sys, env, newer, sys.status.sourceImage, RollbackSucceeded);
  }

  lemma {:induction false} LoopKeeps(sys: System, env: Env, newer: NewerThan25, p: Phase)
    requires Inv(SetState(sys, p), newer)
    ensures Inv(Loop(sys, env, newer, p), newer)
    decreases RankOf(p)
  {
    hide Inv, Handle;
    if InTable(p) && !Final(p) {
      var s := SetState(sys, p);
      HandleKeeps(s, env, newer);
      var t := Handle(s, env, newer);
      if !t.err && t.next.Some? { LoopKeeps(t.sys, env, newer, t.next.value); }
    }
  }

  lemma DeterminedKeeps(sys: System, spec: UpgradeSpec, newer: NewerThan25)
    requires Inv(sys, newer)
    ensures var s := sys.(status := Determined(sys.status, spec));
            Inv(s, newer) && InTable(s.status.state) && SetState(s, s.status.state) == s
  {
    hide Stopping, SafeHistory, Seen, Started, DrainedSinceStart;
  }

  lemma StoredKeeps(sys: System, newer: NewerThan25)
    requires Inv(sys, newer)
    ensures Inv(sys.(status := Stored(sys.status)), newer)
  {
    hide Stopping, SafeHistory, Seen, Started, DrainedSinceStart;
  }

  lemma ReconcileKeeps(sys: System, env: Env, newer: NewerThan25)
    requires Inv(sys, newer)
    ensures Inv(Reconciled(sys, env, newer), newer)
  {
    hide Inv, Loop, Stored, Determined;
    DeterminedKeeps(sys, env.spec, newer);
    var s := sys.(status := Determined(sys.status, env.spec));
    LoopKeeps(s, env, newer, s.status.state);
    StoredKeeps(if env.failGet then s else Loop(s, env, newer, s.status.state), newer);
  }

  lemma NextKeeps(sys: System, e: Event, newer: NewerThan25)
    requires Inv(sys, newer)
    ensures Inv(Next(sys, e, newer), newer)
  {
    hide Stopping, SafeHistory, Seen, Started, DrainedSinceStart, Reconciled;
    if e.Reconcile? { ReconcileKeeps(sys, e.env, newer); }
  }

  lemma {:induction false} EveryRunKeeps(sys: System, events: seq<Event>, newer: NewerThan25)
    requires Initial(sys)
    ensures Inv(Run(sys, events, newer), newer)
  {
    hide Stopping, Next;
    if events != [] {
      EveryRunKeeps(sys, events[..|events| - 1], newer);
      NextKeeps(Run(sys, events[..|events| - 1], newer), events[|events| - 1], newer);
    }
  }

  /**
   Every run of an upgrade is safe. Task pods start only while Milvus is marked stopped with every
   workload at zero and its deployments each seen at zero, in spec and status of the current
   generation, since the last start; migration and restore
   only after a backup succeeded; the target version only after a migration succeeded; and the
   source version again, once a backup was taken, only after a restore succeeded.
   */
  lemma EveryUpgradeIsSafe(sys: System, events: seq<Event>, newer: NewerThan25)
    requires Initial(sys)
    ensures var r := Run(sys, events, newer);
            && SafeHistory(r.history, newer)
            && (r.status.metaStorageChanged ==> r.status.metaBackuped)
            && (RollbackPhase(r.status.state) <==> r.status.isRollbacking)
  {
    EveryRunKeeps(sys, events, newer);
  }

  // ---- what only ever moves one way -----------------------------------------------------------------------

  /** Flags are never cleared, and retries stay within the bound. */
  predicate Onward(a: Status, b: Status, maxRetry: int)
  {
    && (a.isRollbacking ==> b.isRollbacking) && (a.metaBackuped ==> b.metaBackuped)
    && (a.metaStorageChanged ==> b.metaStorageChanged)
    && a.retriedTimes <= b.retriedTimes && (a.retriedTimes <= maxRetry ==> b.retriedTimes <= maxRetry)
  }

  lemma StopOnward(sys: System, env: Env, newer: NewerThan25)
    ensures Onward(sys.status, OldVersionStoppingTurn(sys, env, newer).sys.status, env.spec.maxRetry)
    ensures Onward(sys.status, RollbackStoppingTurn(sys, env, newer).sys.status, env.spec.maxRetry)
  {
    hide Stopping, Stopped, Recorded, Descends;
  }

  lemma StartOnward(sys: System, env: Env, newer: NewerThan25, image: string, next: Phase)
    ensures Onward(sys.status, StartMilvus(sys, env, newer, image, next).sys.status, env.spec.maxRetry)
  {
    hide Restored;
  }

  lemma TaskOnward(sys: System, env: Env)
    ensures Onward(sys.status, BackupMetaTurn(sys, env).sys.status, env.spec.maxRetry)
    ensures Onward(sys.status, UpdatingMetaTurn(sys, env).sys.status, env.spec.maxRetry)
    ensures Onward(sys.status, BackupFailedTurn(sys, env).sys.status, env.spec.maxRetry)
    ensures Onward(sys.status, UpgradeFailedTurn(sys, env).sys.status, env.spec.maxRetry)
    ensures Onward(sys.status, RestoringTurn(sys, env).sys.status, env.spec.maxRetry)
    ensures Onward(sys.status, sys.status, env.spec.maxRetry)
  {
    hide Descends;
  }

  lemma HandleOnward(sys: System, env: Env, newer: NewerThan25)
    ensures Onward(sys.status, Handle(sys, env, newer).sys.status, env.spec.maxRetry)
  {
    hide OldVersionStoppingTurn, StartMilvus, RollbackStoppingTurn, Onward, Descends;
    StopOnward(sys, env, newer);
    match sys.status.state
    case BackupMeta => TaskOnward(sys, env);
    case UpdatingMeta => TaskOnward(sys, env);
    case BackupMetaFailed => TaskOnward(sys, env);
    case UpdateMetaFailed => TaskOnward(sys, env);
    case RollbackRestoringOldMeta => TaskOnward(sys, env);
    case NewVersionStarting => StartOnward(sys, env, newer, env.spec.targetImage, Succeeded);
    case RollbackOldVersionStarting => StartOnward(sys, env, newer, sys.status.sourceImage, RollbackSucceeded);
    case _ => TaskOnward(sys, env);
  }

  lemma {:induction false} LoopOnward(sys: System, env: Env, newer: NewerThan25, p: Phase)
    ensures Onward(sys.status, Loop(sys, env, newer, p).status, env.spec.maxRetry)
    decreases RankOf(p)
  {
    hide Handle;
    if InTable(p) && !Final(p) {
      var s := SetState(sys, p);
      HandleOnward(s, env, newer);
      var t := Handle(s, env, newer);
      if !t.err && t.next.Some? { LoopOnward(t.sys, env, newer, t.next.value); }
    }
  }

  predicate ConstantRetry(events: seq<Event>, maxRetry: int)
  {
    forall i :: 0 <= i < |events| && events[i].Reconcile? ==> events[i].env.spec.maxRetry == maxRetry
  }

  lemma NextOnward(sys: System, e: Event, newer: NewerThan25, maxRetry: int)
    requires e.Reconcile? ==> e.env.spec.maxRetry == maxRetry
    ensures Onward(sys.status, Next(sys, e, newer).status, maxRetry)
  {
    hide Loop;
    if e.Reconcile? {
      var s := sys.(status := Determined(sys.status, e.env.spec));
      LoopOnward(s, e.env, newer, s.status.state);
    }
  }

  /** A rollback is never left, a taken backup never forgotten, and retries never exceed a constant limit. */
  lemma {:induction false} EveryRunMovesOnward(sys: System, events: seq<Event>, newer: NewerThan25, maxRetry: int)
    requires ConstantRetry(events, maxRetry)
    ensures Onward(sys.status, Run(sys, events, newer).status, maxRetry)
  {
    hide Next;
    if events != [] {
      EveryRunMovesOnward(sys, events[..|events| - 1], newer, maxRetry);
      NextOnward(Run(sys, events[..|events| - 1], newer), events[|events| - 1], newer, maxRetry);
    }
  }
}
