/** The replicas every start of Milvus brings back, over whole runs of an upgrade. */
module UpgradeRestart {
  import opened Common
  import opened UpgradeReplicas
  import opened UpgradeMachine
  import opened UpgradeSafety

  /**
   What a started spec must look like, given the spec that was recorded. A workload the source
   version ran has its recorded count back, nil as one; a component only the started version runs
   has none. On the recorded image every recorded workload runs again. If nothing was recorded
   every plain component has none.
   */
  ghost predicate RestoredFrom(origin: Option<MilvusSpec>, spec: MilvusSpec, newer: NewerThan25)
  {
    match origin
    case None => forall c :: Listed(WorkloadsOf(spec, newer), Id(c, None)) && c in spec.coms ==>
                               Read(spec, Id(c, None)) == Some(0)
    case Some(o) =>
      && SameShape(o, spec)
      && (UniqueGroups(o) ==>
            forall id :: Listed(WorkloadsOf(spec, newer), id) && Exists(o, id) ==>
              Read(spec, id) == Some(if Listed(WorkloadsOf(o, newer), id) then Value(Read(o, id)) else 0))
      && (UniqueGroups(o) && spec.image == o.image ==>
            forall id :: Listed(WorkloadsOf(o, newer), id) && Exists(o, id) ==>
              Listed(WorkloadsOf(spec, newer), id) && Read(spec, id) == Some(Value(Read(o, id))))
  }

  /** A rollback also brings the recorded image back, so that it runs exactly the recorded workloads. */
  ghost predicate GoodStart(origin: Option<MilvusSpec>, f: Fact, newer: NewerThan25)
  {
    f.MilvusStarted? ==>
      && RestoredFrom(origin, f.spec, newer)
      && (f.rollback ==> f.spec.image == if origin.Some? then origin.value.image else "")
  }

  ghost predicate GoodStarts(h: seq<Fact>, origin: Option<MilvusSpec>, newer: NewerThan25)
  {
    forall i :: 0 <= i < |h| ==> GoodStart(origin, h[i], newer)
  }

  predicate NoStart(h: seq<Fact>) { forall i :: 0 <= i < |h| ==> !h[i].MilvusStarted? }

  /** The snapshot is the recording of `o`; an empty group map may have been dropped by the API server. */
  predicate RecordingOf(s: Snapshot, o: MilvusSpec, newer: NewerThan25)
  {
    var r := Recorded(NOTHING_RECORDED, o, newer);
    s.components.Some? && s.components == r.components && (s.groups == r.groups || (s.groups == None && r.groups == Some(map[])))
  }

  predicate SnapshotInv(st: Status, spec: MilvusSpec, origin: Option<MilvusSpec>, newer: NewerThan25)
  {
    match origin
    case None =>
      st.snapshot.groups == None && st.snapshot.components in {None, Some(map[])} && st.sourceImage == ""
      && (st.state in {Pending, OldVersionStopping} ==> st.snapshot.components == None)
    case Some(o) =>
      && SameShape(o, spec) && RecordingOf(st.snapshot, o, newer) && st.sourceImage == o.image
      && (st.state in {Pending, OldVersionStopping} ==> spec.image == o.image)
  }

  ghost predicate RestartInv(sys: System, newer: NewerThan25)
  {
    && (RollbackPhase(sys.status.state) <==> sys.status.isRollbacking)
    && SnapshotInv(sys.status, sys.milvus.spec, sys.origin, newer)
    && (BeforeBackup(sys.status.state) ==> NoStart(sys.history))
    && GoodStarts(sys.history, sys.origin, newer)
  }

  ghost predicate TurnRestart(t: Turn, newer: NewerThan25)
  {
    && (t.err || t.next == None ==> RestartInv(t.sys, newer))
    && (!t.err && t.next.Some? ==> RestartInv(SetState(t.sys, t.next.value), newer))
  }

  // ---- the snapshot -----------------------------------------------------------------------------------------

  lemma {:induction false} RestoreSame(s: Snapshot, t: Snapshot, spec: MilvusSpec, ws: seq<Workload>)
    requires forall id :: Remembered(s, id) == Remembered(t, id)
    ensures RestoreAll(s, spec, ws) == RestoreAll(t, spec, ws)
  {
    if ws != [] { RestoreSame(s, t, spec, ws[..|ws| - 1]); }
  }

  lemma {:induction false} NoGroupsRecorded(s: Snapshot, spec: MilvusSpec, ws: seq<Workload>)
    requires s.components.Some? && s.groups.Some?
    requires RecordAll(s, true, true, spec, ws).groups == Some(map[])
    ensures forall i :: 0 <= i < |ws| ==> ws[i].group == None
  {
    if ws != [] {
      var before := RecordAll(s, true, true, spec, ws[..|ws| - 1]);
      var w := ws[|ws| - 1];
      var after := RecordAll(s, true, true, spec, ws).groups.value;
      assert w.group.Some? ==> w.c in after;
      NoGroupsRecorded(s, spec, ws[..|ws| - 1]);
    }
  }

  lemma {:induction false} PlainRecordsNothing(s: Snapshot, spec: MilvusSpec, ws: seq<Workload>)
    requires s.components.Some? && s.groups.Some?
    requires forall i :: 0 <= i < |ws| ==> ws[i].group == None
    ensures RecordAll(s, false, true, spec, ws) == s
  {
    if ws != [] { PlainRecordsNothing(s, spec, ws[..|ws| - 1]); }
  }

  /** Recording again, after an empty group map was dropped, changes nothing that matters. */
  lemma RecordAgain(s: Snapshot, o: MilvusSpec, spec: MilvusSpec, newer: NewerThan25)
    requires RecordingOf(s, o, newer) && SameShape(o, spec) && o.image == spec.image
    ensures RecordingOf(Recorded(s, spec, newer), o, newer) && s.components.Some?
  {
    hide WorkloadsOf, SameShape, RecordAll;
    if s.groups == None {
      assert s.components == Recorded(NOTHING_RECORDED, o, newer).components;
      SameShapePlain(o, spec, newer);
      PlainRecordsNothing(Opened(s), spec, WorkloadsOf(spec, newer));
    }
  }

  lemma SameShapePlain(o: MilvusSpec, spec: MilvusSpec, newer: NewerThan25)
    requires SameShape(o, spec) && o.image == spec.image
    requires RecordAll(Opened(NOTHING_RECORDED), true, true, o, WorkloadsOf(o, newer)).groups == Some(map[])
    ensures forall i :: 0 <= i < |WorkloadsOf(spec, newer)| ==> WorkloadsOf(spec, newer)[i].group == None
  {
    hide ComponentsOf, SameShape, Expand, RecordAll;
    SameComponents(o, spec, newer);
    var cs := ComponentsOf(o, newer);
    NoGroupsRecorded(Opened(NOTHING_RECORDED), o, Expand(o, cs));
    ExpandShape(o, spec, cs);
    forall i | 0 <= i < |Expand(spec, cs)|
      ensures Expand(spec, cs)[i].group == None
    {
      assert IdOf(Expand(o, cs)[i]) == IdOf(Expand(spec, cs)[i]);
    }
  }

  lemma SameShapeRefl(spec: MilvusSpec)
    ensures SameShape(spec, spec)
  {
  }

  lemma RecordKeeps(sys: System, newer: NewerThan25)
    requires RestartInv(sys, newer) && sys.status.state == OldVersionStopping
    ensures RestartInv(RecordInfo(sys, newer), newer)
  {
    hide Recorded, SameShape, GoodStarts, RecordingOf;
    NoStartIsGood(sys.history, Some(sys.milvus.spec), newer);
    SameShapeRefl(sys.milvus.spec);
    FreshRecording(sys.milvus.spec, newer);
    if sys.origin == None { assert sys.status.snapshot == NOTHING_RECORDED; }
    if sys.origin.Some? { RecordAgain(sys.status.snapshot, sys.origin.value, sys.milvus.spec, newer); }
  }

  lemma FreshRecording(spec: MilvusSpec, newer: NewerThan25)
    ensures RecordingOf(Recorded(NOTHING_RECORDED, spec, newer), spec, newer)
  {
    hide WorkloadsOf, RecordAll;
  }

  lemma StopKeepsRestart(sys: System, env: Env, newer: NewerThan25)
    requires RestartInv(sys, newer)
    ensures RestartInv(StopMilvus(sys, env, newer).sys, newer)
  {
    hide RecordingOf, SameShape, GoodStarts, WorkloadsOf;
    var ws := WorkloadsOf(sys.milvus.spec, newer);
    ZeroAllKeepsShape(sys.milvus.spec, ws);
    if sys.origin.Some? && SameShape(sys.milvus.spec, ZeroAll(sys.milvus.spec, ws)) {
      ShapeTrans(sys.origin.value, sys.milvus.spec, ZeroAll(sys.milvus.spec, ws));
    }
  }

  lemma NoStartIsGood(h: seq<Fact>, origin: Option<MilvusSpec>, newer: NewerThan25)
    requires NoStart(h)
    ensures GoodStarts(h, origin, newer)
  {
    hide RestoredFrom;
  }

  // ---- starting ---------------------------------------------------------------------------------------------

  lemma RecordingRemembers(s: Snapshot, o: MilvusSpec, newer: NewerThan25, id: Id)
    requires RecordingOf(s, o, newer)
    ensures Remembered(s, id) == Remembered(Recorded(NOTHING_RECORDED, o, newer), id)
  {
    hide Recorded;
  }

  /** Starting from a recording brings the recorded replicas back. */
  lemma StartFromRecording(s: Snapshot, o: MilvusSpec, now: MilvusSpec, newer: NewerThan25)
    requires RecordingOf(s, o, newer) && SameShape(o, now) && Restored(s, now, newer).Some?
    ensures var r := Restored(s, now, newer).value;
            RestoredFrom(Some(o), r, newer) && r.image == now.image
  {
    hide RecordingOf, ComponentsOf, Expand, SameShape, Read, Exists, RestoreAll, Remembered, Listed, Recorded, UniqueGroups;
    var t := Recorded(NOTHING_RECORDED, o, newer);
    forall id
      ensures Remembered(s, id) == Remembered(t, id)
    {
      RecordingRemembers(s, o, newer, id);
    }
    var cs := ComponentsOf(now, newer);
    RestoreSame(s, t, now, Expand(now, cs));
    var r := Restored(s, now, newer).value;
    RestoreReads(t, now, Expand(now, cs), Id(Proxy, None));
    ShapeTrans(o, now, r);
    SameComponents(now, r, newer);
    forall id | UniqueGroups(o) && Listed(WorkloadsOf(r, newer), id) && Exists(o, id)
      ensures Read(r, id) == Some(if Listed(WorkloadsOf(o, newer), id) then Value(Read(o, id)) else 0)
    {
      ShapeLists(now, r, cs, id);
      ForwardReplicas(o, now, newer, id);
    }
    if now.image == o.image {
      SameComponents(o, r, newer);
      forall id | UniqueGroups(o) && Listed(WorkloadsOf(o, newer), id) && Exists(o, id)
        ensures Listed(WorkloadsOf(r, newer), id) && Read(r, id) == Some(Value(Read(o, id)))
      {
        ShapeLists(o, r, cs, id);
      }
    }
  }

  /** Starting with nothing recorded leaves every plain component at zero. */
  lemma StartFromNothing(s: Snapshot, now: MilvusSpec, newer: NewerThan25)
    requires s == Snapshot(Some(map[]), None) && Restored(s, now, newer).Some?
    ensures var r := Restored(s, now, newer).value;
            RestoredFrom(None, r, newer) && r.image == now.image
  {
    hide ComponentsOf, Expand, SameShape, Read, RestoreAll, Listed;
    var cs := ComponentsOf(now, newer);
    var r := Restored(s, now, newer).value;
    RestoreReads(s, now, Expand(now, cs), Id(Proxy, None));
    SameComponents(now, r, newer);
    forall c | Listed(WorkloadsOf(r, newer), Id(c, None)) && c in r.coms
      ensures Read(r, Id(c, None)) == Some(0)
    {
      ShapeLists(now, r, cs, Id(c, None));
      RestoreReads(s, now, Expand(now, cs), Id(c, None));
    }
  }

  lemma StartGood(sys: System, newer: NewerThan25, image: string)
    requires RestartInv(sys, newer)
    requires sys.status.isRollbacking ==> image == sys.status.sourceImage
    requires Restored(OpenedForStart(sys.status.snapshot), sys.milvus.spec.(image := image), newer).Some?
    ensures var spec := Restored(OpenedForStart(sys.status.snapshot), sys.milvus.spec.(image := image), newer).value;
            && GoodStart(sys.origin, MilvusStarted(sys.status.isRollbacking, sys.meta, spec), newer)
            && (sys.origin.Some? ==> SameShape(sys.origin.value, spec))
  {
    hide Restored, RecordingOf, RestoredFrom, GoodStarts, SameShape;
    var now := sys.milvus.spec.(image := image);
    match sys.origin
    case None => StartFromNothing(OpenedForStart(sys.status.snapshot), now, newer);
    case Some(o) =>
      RecordingHasComponents(sys.status.snapshot, o, newer);
      ImageKeepsShape(o, sys.milvus.spec, image);
      StartFromRecording(sys.status.snapshot, o, now, newer);
      RestoredFromShape(o, Restored(sys.status.snapshot, now, newer).value, newer);
  }

  lemma RecordingHasComponents(s: Snapshot, o: MilvusSpec, newer: NewerThan25)
    requires RecordingOf(s, o, newer)
    ensures s.components.Some?
  {
    hide Recorded;
  }

  lemma ImageKeepsShape(o: MilvusSpec, spec: MilvusSpec, image: string)
    requires SameShape(o, spec)
    ensures SameShape(o, spec.(image := image))
  {
  }

  lemma RestoredFromShape(o: MilvusSpec, spec: MilvusSpec, newer: NewerThan25)
    requires RestoredFrom(Some(o), spec, newer)
    ensures SameShape(o, spec)
  {
    hide SameShape, WorkloadsOf;
  }

  lemma OpenedKeeps(st: Status, spec: MilvusSpec, origin: Option<MilvusSpec>, newer: NewerThan25, spec': MilvusSpec, p: Phase)
    requires SnapshotInv(st, spec, origin, newer) && (origin.Some? ==> SameShape(origin.value, spec'))
    requires p !in {Pending, OldVersionStopping}
    ensures SnapshotInv(st.(snapshot := OpenedForStart(st.snapshot), state := p), spec', origin, newer)
  {
    hide RecordingOf, SameShape;
    if origin.Some? { RecordingHasComponents(st.snapshot, origin.value, newer); }
  }

  lemma StartTurns(sys: System, env: Env, newer: NewerThan25, image: string, next: Phase)
    requires RestartInv(sys, newer)
    requires sys.status.isRollbacking ==> image == sys.status.sourceImage
    requires (sys.status.state == NewVersionStarting && next == Succeeded)
          || (sys.status.state == RollbackOldVersionStarting && next == RollbackSucceeded)
    ensures TurnRestart(StartMilvus(sys, env, newer, image, next), newer)
  {
    hide Restored, GoodStart, GoodStarts, NoStart, SameShape, SnapshotInv, OpenedForStart;
    var now := sys.milvus.spec;
    var spec := Restored(OpenedForStart(sys.status.snapshot), now.(image := image), newer);
    UnchangedShape(sys, newer);
    OpenedKeeps(sys.status, now, sys.origin, newer, now, sys.status.state);
    if spec.Some? {
      StartGood(sys, newer, image);
      OpenedKeeps(sys.status, now, sys.origin, newer, spec.value, sys.status.state);
      OpenedKeeps(sys.status, now, sys.origin, newer, spec.value, next);
      ExtendStarts(sys.history, MilvusStarted(sys.status.isRollbacking, sys.meta, spec.value), sys.origin, newer);
    }
  }

  lemma UnchangedShape(sys: System, newer: NewerThan25)
    requires RestartInv(sys, newer)
    ensures sys.origin.Some? ==> SameShape(sys.origin.value, sys.milvus.spec)
  {
    hide SameShape, RecordingOf, GoodStarts, NoStart;
  }

  lemma ExtendStarts(h: seq<Fact>, f: Fact, origin: Option<MilvusSpec>, newer: NewerThan25)
    requires GoodStarts(h, origin, newer) && GoodStart(origin, f, newer)
    ensures GoodStarts(h + [f], origin, newer)
    ensures NoStart(h) && !f.MilvusStarted? ==> NoStart(h + [f])
  {
    hide RestoredFrom;
  }

  // ---- the other state functions ---------------------------------------------------------------------------------

  lemma StoppingTurns(sys: System, env: Env, newer: NewerThan25)
    requires RestartInv(sys, newer)
    ensures sys.status.state == OldVersionStopping ==> TurnRestart(OldVersionStoppingTurn(sys, env, newer), newer)
    ensures sys.status.state == RollbackNewVersionStopping ==> TurnRestart(RollbackStoppingTurn(sys, env, newer), newer)
  {
    hide Stopping, RestartInv, RecordInfo, StopMilvus, CheckStopped, Descends;
    StopKeepsRestart(sys, env, newer);
    if sys.status.state == OldVersionStopping {
      RecordKeeps(sys, newer);
      StopKeepsRestart(RecordInfo(sys, newer), env, newer);
      StoppedCheck(sys, env, newer, BackupMeta);
    }
    if sys.status.state == RollbackNewVersionStopping { StoppedCheck(sys, env, newer, RollbackRestoringOldMeta); }
  }

  lemma StoppedCheck(sys: System, env: Env, newer: NewerThan25, next: Phase)
    requires RestartInv(sys, newer)
    requires (sys.status.state, next) in {(OldVersionStopping, BackupMeta),
                                          (RollbackNewVersionStopping, RollbackRestoringOldMeta)}
    ensures var (s, stopped, err) := CheckStopped(sys, env);
            TurnRestart(Turn(s, if stopped then Some(next) else None, err), newer)
  {
    hide GoodStarts, RecordingOf, SameShape, NoStart;
    ExtendStarts(sys.history, Drained(env.deployments), sys.origin, newer);
  }

  lemma TaskTurns(sys: System, env: Env, newer: NewerThan25)
    requires RestartInv(sys, newer)
    ensures sys.status.state == BackupMeta ==> TurnRestart(BackupMetaTurn(sys, env), newer)
    ensures sys.status.state == UpdatingMeta ==> TurnRestart(UpdatingMetaTurn(sys, env), newer)
    ensures sys.status.state == RollbackRestoringOldMeta ==> TurnRestart(RestoringTurn(sys, env), newer)
  {
    hide GoodStarts, RecordingOf, SameShape, NoStart, Descends;
    var kind := if sys.status.state == BackupMeta then BackupTask
                else if sys.status.state == UpdatingMeta then UpdateTask else RestoreTask;
    ExtendStarts(sys.history, TaskSeenSucceeded(kind), sys.origin, newer);
    ExtendStarts(sys.history, TaskStarted(kind, sys.milvus), sys.origin, newer);
  }

  lemma FailedTurns(sys: System, env: Env, newer: NewerThan25)
    requires RestartInv(sys, newer)
    ensures sys.status.state == BackupMetaFailed ==> TurnRestart(BackupFailedTurn(sys, env), newer)
    ensures sys.status.state == UpdateMetaFailed ==> TurnRestart(UpgradeFailedTurn(sys, env), newer)
  {
    hide GoodStarts, RecordingOf, SameShape, NoStart, Descends;
  }

  lemma HandleRestores(sys: System, env: Env, newer: NewerThan25)
    requires RestartInv(sys, newer) && InTable(sys.status.state) && !Final(sys.status.state)
    ensures TurnRestart(Handle(sys, env, newer), newer)
  {
    hide SnapshotInv, NoStart, GoodStarts, TurnRestart, OldVersionStoppingTurn, BackupMetaTurn, UpdatingMetaTurn, StartMilvus,
         BackupFailedTurn, UpgradeFailedTurn, RollbackStoppingTurn, RestoringTurn, Descends;
    match sys.status.state
    case OldVersionStopping => StoppingTurns(sys, env, newer);
    case BackupMeta => TaskTurns(sys, env, newer);
    case UpdatingMeta => TaskTurns(sys, env, newer);
    case NewVersionStarting => StartTurns(sys, env, newer, env.spec.targetImage, Succeeded);
    case BackupMetaFailed => FailedTurns(sys, env, newer);
    case UpdateMetaFailed => FailedTurns(sys, env, newer);
    case RollbackNewVersionStopping => StoppingTurns(sys, env, newer);
    case RollbackRestoringOldMeta => TaskTurns(sys, env, newer);
    case RollbackOldVersionStarting => StartTurns(sys, env, newer, sys.status.sourceImage, RollbackSucceeded);
  }

  lemma {:induction false} LoopRestores(sys: System, env: Env, newer: NewerThan25, p: Phase)
    requires RestartInv(SetState(sys, p), newer)
    ensures RestartInv(Loop(sys, env, newer, p), newer)
    decreases RankOf(p)
  {
    hide RestartInv, Handle;
    if InTable(p) && !Final(p) {
      var s := SetState(sys, p);
      HandleRestores(s, env, newer);
      var t := Handle(s, env, newer);
      if !t.err && t.next.Some? { LoopRestores(t.sys, env, newer, t.next.value); }
    }
  }

  lemma DeterminedRestores(sys: System, spec: UpgradeSpec, newer: NewerThan25)
    requires RestartInv(sys, newer)
    ensures var s := sys.(status := Determined(sys.status, spec));
            RestartInv(s, newer) && SetState(s, s.status.state) == s
  {
    hide GoodStarts, RecordingOf, SameShape, NoStart;
  }

  lemma StoredRestores(sys: System, newer: NewerThan25)
    requires RestartInv(sys, newer)
    ensures RestartInv(sys.(status := Stored(sys.status)), newer)
  {
    hide GoodStarts, Recorded, SameShape, NoStart;
  }

  lemma ReconcileRestores(sys: System, env: Env, newer: NewerThan25)
    requires RestartInv(sys, newer)
    ensures RestartInv(Reconciled(sys, env, newer), newer)
  {
    hide RestartInv, Loop, Stored, Determined;
    DeterminedRestores(sys, env.spec, newer);
    var s := sys.(status := Determined(sys.status, env.spec));
    LoopRestores(s, env, newer, s.status.state);
    StoredRestores(if env.failGet then s else Loop(s, env, newer, s.status.state), newer);
  }

  lemma TaskRestores(sys: System, e: Event, newer: NewerThan25)
    requires RestartInv(sys, newer) && !e.Reconcile?
    ensures RestartInv(Next(sys, e, newer), newer)
  {
    hide SnapshotInv, NoStart, GoodStarts;
  }

  lemma {:induction false} EveryRunRestores(sys: System, events: seq<Event>, newer: NewerThan25)
    requires Initial(sys)
    ensures RestartInv(Run(sys, events, newer), newer)
  {
    if events != [] {
      hide RestartInv, Reconciled, Initial;
      EveryRunRestores(sys, events[..|events| - 1], newer);
      var s, e := Run(sys, events[..|events| - 1], newer), events[|events| - 1];
      if e.Reconcile? { ReconcileRestores(s, e.env, newer); } else { TaskRestores(s, e, newer); }
    }
  }

  /**
   In every run, every start of Milvus brings back the replicas it had when the upgrade recorded
   them, on the forward path for the workloads both versions run and on rollback for all of them,
   however often the two versions were stopped and started in between.
   */
  lemma EveryStartRestoresReplicas(sys: System, events: seq<Event>, newer: NewerThan25)
    requires Initial(sys)
    ensures GoodStarts(Run(sys, events, newer).history, Run(sys, events, newer).origin, newer)
  {
    hide Run, GoodStarts;
    EveryRunRestores(sys, events, newer);
  }
}
