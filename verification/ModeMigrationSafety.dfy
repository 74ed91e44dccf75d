/** The mode migration over whole runs: cut anywhere, started over any number of times, it loses nothing and ends. */
module ModeMigrationSafety {
  import opened Common
  import opened GoStrings
  import opened ModeMigration

  /** The component before the migration: one Deployment, its sets and its pods, nothing saved and nothing of group 0. */
  predicate Start(w: World)
  {
    && |w.deploys| == 1 && w.deploys[0].group == "" && !w.deploys[0].terminating
    && (forall i :: 0 <= i < |w.sets| ==> w.sets[i].group == "" && !w.sets[i].terminating)
    && (forall i, j :: 0 <= i < j < |w.sets| ==> w.sets[i].name != w.sets[j].name)
    && (forall i :: 0 <= i < |w.pods| ==> w.pods[i].group == "")
    && w.savedDeploy == None && w.savedSets == None && !w.changing
  }

  function Marked(o: Object): Object { o.(terminating := true) }

  /** What the migration must arrive at for a set; a set whose name has no dash cannot be renamed. */
  function NewSet(o: Object): Object
  {
    var name := NewSetName(o.name);
    InGroup0(o, if name.Some? then name.value else "")
  }

  function NewSets(sets: seq<Object>): (r: seq<Object>)
    ensures |r| == |sets| && forall i :: 0 <= i < |r| ==> r[i] == NewSet(sets[i])
  {
    seq(|sets|, i requires 0 <= i < |sets| => NewSet(sets[i]))
  }

  predicate ValidNames(sets: seq<Object>) { forall i :: 0 <= i < |sets| ==> ValidName(sets[i].name) }

  /** No pod is lost or changed, except for the label. */
  predicate PodsKept(pods: seq<Pod>, old_: seq<Pod>)
  {
    |pods| == |old_| && forall i :: 0 <= i < |pods| ==> pods[i] == old_[i] || pods[i] == Labelled(old_[i])
  }

  predicate AllLabelled(pods: seq<Pod>, old_: seq<Pod>)
  {
    |pods| == |old_| && forall i :: 0 <= i < |pods| ==> pods[i] == Labelled(old_[i])
  }

  /** Every listed set is an old one, perhaps terminating. */
  predicate FromOld(sets: seq<Object>, old_: seq<Object>)
  {
    forall i :: 0 <= i < |sets| ==> sets[i].(terminating := false) in old_
  }

  /** The old Deployment is still there. */
  predicate DeployHere(w: World, w0: World)
    requires |w0.deploys| == 1
  {
    && (w.deploys == w0.deploys || (w.deploys == [Marked(w0.deploys[0])] && w.savedDeploy.Some?))
    && w.sets == w0.sets && w.pods == w0.pods && w.savedSets == None
    && (w.savedDeploy == None || (w.savedDeploy == Some(w0.deploys[0]) && w.changing))
  }

  /** The old Deployment is gone and the old sets are going. */
  predicate SetsGoing(w: World, w0: World)
    requires |w0.deploys| == 1
  {
    && w.deploys == [] && w.savedDeploy == Some(w0.deploys[0]) && w.pods == w0.pods && w.changing
    && (w.savedSets == None ==> w.sets == w0.sets)
    && (w.savedSets == None || w.savedSets == Some(w0.sets))
    && FromOld(w.sets, w0.sets)
  }

  /** The old sets are gone; pods are relabelled, then sets created, then the Deployment. */
  predicate Recovering(w: World, w0: World)
    requires |w0.deploys| == 1
  {
    && w.savedDeploy == Some(w0.deploys[0]) && w.savedSets == Some(w0.sets) && PodsKept(w.pods, w0.pods)
    && |w.sets| <= |w0.sets| && ValidNames(w0.sets[..|w.sets|]) && w.sets == NewSets(w0.sets[..|w.sets|])
    && (w.sets != [] ==> AllLabelled(w.pods, w0.pods))
    && (w.deploys == [] || (w.deploys == [NewDeploy(w0.deploys[0])] && |w.sets| == |w0.sets| && AllLabelled(w.pods, w0.pods)))
  }

  /** Exactly one Deployment and one set per old one, all in group 0, with every pod relabelled. */
  predicate Complete(w: World, w0: World)
    requires |w0.deploys| == 1
  {
    && w.deploys == [NewDeploy(w0.deploys[0])] && w.sets == NewSets(w0.sets) && AllLabelled(w.pods, w0.pods)
    && w.currentGroup == "0"
  }

  predicate Inv(w: World, w0: World)
    requires Start(w0)
  {
    || DeployHere(w, w0)
    || SetsGoing(w, w0)
    || (Recovering(w, w0) && (w.changing || Complete(w, w0)))
  }

  // ---- lists of old objects -----------------------------------------------------------------------------

  lemma {:induction false} OldsAll(objs: seq<Object>)
    requires forall i :: 0 <= i < |objs| ==> objs[i].group == ""
    ensures Olds(objs) == objs
  {
    if objs != [] {
      OldsAll(objs[..|objs| - 1]);
      assert objs == objs[..|objs| - 1] + [objs[|objs| - 1]];
    }
  }

  lemma {:induction false} OldsNone(objs: seq<Object>)
    requires forall i :: 0 <= i < |objs| ==> objs[i].group != ""
    ensures Olds(objs) == []
  {
    if objs != [] { OldsNone(objs[..|objs| - 1]); }
  }

  lemma {:induction false} OldPodsAre(pods: seq<Pod>)
    ensures forall i :: 0 <= i < |OldPods(pods)| ==> OldPods(pods)[i] in pods && OldPods(pods)[i].group == ""
    ensures forall i :: 0 <= i < |pods| && pods[i].group == "" ==> pods[i] in OldPods(pods)
  {
    if pods != [] {
      OldPodsAre(pods[..|pods| - 1]);
      assert pods == pods[..|pods| - 1] + [pods[|pods| - 1]];
    }
  }

  lemma {:induction false} NoOldPods(pods: seq<Pod>)
    requires forall i :: 0 <= i < |pods| ==> pods[i].group != ""
    ensures OldPods(pods) == []
  {
    if pods != [] { NoOldPods(pods[..|pods| - 1]); }
  }

  /** Whether the old Deployment and the old sets are still listed, phase by phase. */
  lemma WhatIsListed(w: World, w0: World)
    requires Start(w0) && Inv(w, w0)
    ensures DeployHere(w, w0) ==> Olds(w.deploys) == w.deploys
    ensures !DeployHere(w, w0) ==> Olds(w.deploys) == []
    ensures SetsGoing(w, w0) ==> Olds(w.sets) == w.sets
    ensures Recovering(w, w0) ==> Olds(w.sets) == []
  {
    if DeployHere(w, w0) {
      OldsAll(w.deploys);
    } else {
      OldsNone(w.deploys);
    }
    if SetsGoing(w, w0) { OldsAll(w.sets); }
    if Recovering(w, w0) { OldsNone(w.sets); }
  }

  // ---- every step keeps the invariant -----------------------------------------------------------------------

  lemma DeployStepKeeps(s: Session, lands: Lands, w0: World)
    requires Start(w0) && s.live && Inv(s.w, w0) && s.w.changing
    ensures var t := DeployStep(s, lands);
            && Inv(t.w, w0) && t.w.changing
            && (t.live ==> t == s && !DeployHere(s.w, w0))
  {
    hide PodsKept, AllLabelled, ValidNames, NewSets, Olds, FromOld;
    WhatIsListed(s.w, w0);
    if DeployHere(s.w, w0) {
      var d := s.w.deploys[0];
      assert MarkDeleted(s.w.deploys, d.name) == [Marked(d)];
    }
  }

  lemma {:induction false} DeleteSetsKeeps(s: Session, olds: seq<Object>, lands: Lands, w0: World)
    requires Start(w0) && SetsGoing(s.w, w0) && s.w.savedSets.Some?
    ensures var t := DeleteSets(s, olds, lands);
            && SetsGoing(t.w, w0) && t.w == s.w.(sets := t.w.sets) && |t.w.sets| == |s.w.sets|
  {
    if olds != [] { DeleteSetsKeeps(s, olds[..|olds| - 1], lands, w0); }
  }

  lemma SetsStepKeeps(s: Session, lands: Lands, w0: World)
    requires Start(w0) && s.live && Inv(s.w, w0) && s.w.changing && !DeployHere(s.w, w0)
    ensures var t := SetsStep(s, lands);
            && Inv(t.w, w0) && t.w.changing
            && (t.live ==> Recovering(t.w, w0))
  {
    WhatIsListed(s.w, w0);
    if Recovering(s.w, w0) {
      assert SetsStep(s, lands) == s;
    } else {
      GoingSetsStep(s, lands, w0);
    }
  }

  lemma GoingSetsStep(s: Session, lands: Lands, w0: World)
    requires Start(w0) && s.live && SetsGoing(s.w, w0) && Olds(s.w.sets) == s.w.sets
    ensures var t := SetsStep(s, lands);
            && SetsGoing(t.w, w0)
            && (t.live ==> Recovering(t.w, w0))
  {
    hide PodsKept, AllLabelled, FromOld, Olds;
    var saved := if s.w.savedSets == None then Call(s, SaveSets(s.w.sets), lands) else s;
    if saved.live {
      assert saved.w == s.w.(savedSets := Some(w0.sets));
      DeleteSetsKeeps(saved, s.w.sets, lands, w0);
      UnlabelledKept(w0.pods);
    }
  }

  lemma UnlabelledKept(pods: seq<Pod>)
    ensures PodsKept(pods, pods)
  {
  }

  lemma {:induction false} LabelPodsKeeps(s: Session, olds: seq<Pod>, lands: Lands, w0: World)
    requires Start(w0) && s.live && Recovering(s.w, w0)
    ensures var t := LabelPods(s, olds, lands);
            && Recovering(t.w, w0) && t.w == s.w.(pods := t.w.pods) && (AllLabelled(s.w.pods, w0.pods) ==> AllLabelled(t.w.pods, w0.pods))
            && (t.live ==> forall i :: 0 <= i < |t.w.pods| && t.w.pods[i].name in Names(olds) ==>
                                         t.w.pods[i] == Labelled(w0.pods[i]))
            && forall i :: 0 <= i < |s.w.pods| ==> s.w.pods[i] == Labelled(w0.pods[i]) ==> t.w.pods[i] == s.w.pods[i]
  {
    hide NewSets, ValidNames;
    if olds != [] {
      LabelPodsKeeps(s, olds[..|olds| - 1], lands, w0);
      assert olds == olds[..|olds| - 1] + [olds[|olds| - 1]];
    }
  }

  function Names(pods: seq<Pod>): set<string> { set p | p in pods :: p.name }

  lemma PodsStepKeeps(s: Session, lands: Lands, w0: World)
    requires Start(w0) && s.live && Recovering(s.w, w0)
    ensures var t := PodsStep(s, lands);
            && Recovering(t.w, w0) && t.w == s.w.(pods := t.w.pods)
            && (t.live ==> AllLabelled(t.w.pods, w0.pods)) && (AllLabelled(s.w.pods, w0.pods) ==> AllLabelled(t.w.pods, w0.pods))
  {
    OldPodsAre(s.w.pods);
    LabelPodsKeeps(s, OldPods(s.w.pods), lands, w0);
    var t := PodsStep(s, lands);
    if t.live {
      forall i | 0 <= i < |t.w.pods|
        ensures t.w.pods[i] == Labelled(w0.pods[i])
      {
        assert s.w.pods[i] == w0.pods[i] ==> s.w.pods[i].name in Names(OldPods(s.w.pods));
      }
    }
  }

  /** A new name is taken exactly by the set made from the same old one. */
  lemma TakenIff(sets: seq<Object>, m: nat, n: nat)
    requires m <= |sets| && n < |sets| && ValidNames(sets[..m]) && ValidName(sets[n].name)
    requires forall i, j :: 0 <= i < j < |sets| ==> sets[i].name != sets[j].name
    ensures NewSetName(sets[n].name).Some?
    ensures Named(NewSets(sets[..m]), NewSetName(sets[n].name).value) <==> n < m
  {
    hide NewSetName;
    var made, name := NewSets(sets[..m]), NewSetName(sets[n].name);
    NewSetNameInjective(sets[n].name, sets[n].name);
    if n < m { assert made[n].name == name.value; }
    forall i | 0 <= i < m && i != n
      ensures made[i].name != name.value
    {
      assert ValidName(sets[..m][i].name);
      NewSetNameInjective(sets[i].name, sets[n].name);
    }
  }

  lemma CreateOneKeeps(s: Session, n: nat, lands: Lands, w0: World)
    requires Start(w0) && s.live && Recovering(s.w, w0) && AllLabelled(s.w.pods, w0.pods) && n <= |s.w.sets| && n < |w0.sets|
    ensures var t := CreateOneSet(s, w0.sets[n], lands);
            && Recovering(t.w, w0) && t.w == s.w.(sets := t.w.sets) && |s.w.sets| <= |t.w.sets|
            && (t.live ==> |t.w.sets| > n) && (ValidName(w0.sets[n].name) && lands(s.at) ==> t.live)
  {
    hide NewSetName, PodsKept, AllLabelled;
    var m := |s.w.sets|;
    NewSetNameInjective(w0.sets[n].name, w0.sets[n].name);
    if ValidName(w0.sets[n].name) {
      TakenIff(w0.sets, m, n);
      if m == n {
        assert w0.sets[..n + 1] == w0.sets[..n] + [w0.sets[n]];
        assert NewSets(w0.sets[..n + 1]) == NewSets(w0.sets[..n]) + [NewSet(w0.sets[n])];
      }
    }
  }

  lemma {:induction false} CreateSetsKeeps(s: Session, n: nat, lands: Lands, w0: World)
    requires Start(w0) && s.live && Recovering(s.w, w0) && AllLabelled(s.w.pods, w0.pods) && n <= |w0.sets|
    ensures var t := CreateSets(s, w0.sets[..n], lands);
            && Recovering(t.w, w0) && t.w == s.w.(sets := t.w.sets) && |s.w.sets| <= |t.w.sets|
            && (t.live ==> |t.w.sets| >= n)
            && (ValidNames(w0.sets[..n]) && (forall i :: lands(i)) ==> t.live)
  {
    hide Recovering, CreateOneSet;
    if n > 0 {
      assert w0.sets[..n][..n - 1] == w0.sets[..n - 1];
      CreateSetsKeeps(s, n - 1, lands, w0);
      var t := CreateSets(s, w0.sets[..n - 1], lands);
      if t.live { CreateOneKeeps(t, n - 1, lands, w0); }
      assert ValidNames(w0.sets[..n]) ==> ValidNames(w0.sets[..n - 1]) && ValidName(w0.sets[..n][n - 1].name);
    }
  }

  lemma RecoverKeeps(s: Session, lands: Lands, w0: World)
    requires Start(w0) && s.live && Recovering(s.w, w0) && AllLabelled(s.w.pods, w0.pods)
    ensures var t := RecoverSetsStep(s, lands);
            && Recovering(t.w, w0) && t.w == s.w.(sets := t.w.sets) && |s.w.sets| <= |t.w.sets|
            && (t.live ==> |t.w.sets| == |w0.sets|)
            && (ValidNames(w0.sets) && (forall i :: lands(i)) ==> t.live)
  {
    hide PodsKept, AllLabelled, ValidNames, CreateSets;
    CreateSetsKeeps(s, |w0.sets|, lands, w0);
    assert w0.sets[..|w0.sets|] == w0.sets;
  }

  lemma LastStepsKeep(s: Session, lands: Lands, w0: World)
    requires Start(w0) && s.live && Recovering(s.w, w0) && AllLabelled(s.w.pods, w0.pods) && |s.w.sets| == |w0.sets|
    requires s.w.changing
    ensures var t := RecoverDeployStep(s, lands);
            && Recovering(t.w, w0) && t.w.changing && t.w.sets == s.w.sets && AllLabelled(t.w.pods, w0.pods)
            && (t.live ==> t.w.deploys == [NewDeploy(w0.deploys[0])])
            && (lands(s.at) ==> t.live)
  {
    hide PodsKept, AllLabelled, ValidNames, NewSets;
    if s.w.deploys != [] { assert s.w.deploys[0].name == NewDeploy(w0.deploys[0]).name; }
  }

  lemma MarkKeeps(s: Session, lands: Lands, w0: World)
    requires Start(w0) && s.live && Recovering(s.w, w0) && s.w.changing && AllLabelled(s.w.pods, w0.pods)
    requires s.w.deploys == [NewDeploy(w0.deploys[0])]
    ensures var t := MarkCurrentStep(s, lands);
            && Recovering(t.w, w0) && t.w.changing
            && (t.live ==> Complete(t.w, w0)) && (t.live || lands(s.at) ==> Complete(t.w, w0))
            && (t.live <==> s.w.currentGroup == "0")
  {
    assert w0.sets[..|w0.sets|] == w0.sets;
  }

  lemma ChangeModeKeeps(s: Session, lands: Lands, w0: World)
    requires Start(w0) && s.live && Inv(s.w, w0) && s.w.changing
    ensures var t := ChangeMode(s, lands);
            Inv(t.w, w0) && t.w.changing && (t.live ==> Complete(t.w, w0) && Recovering(t.w, w0))
  {
    hide DeployHere, SetsGoing, Recovering, Complete, DeployStep, SetsStep, PodsStep, RecoverSetsStep, RecoverDeployStep,
         MarkCurrentStep, AllLabelled, Start;
    DeployStepKeeps(s, lands, w0);
    var a := DeployStep(s, lands);
    if !a.live { return; }
    SetsStepKeeps(a, lands, w0);
    var b := SetsStep(a, lands);
    if !b.live { return; }
    PodsStepKeeps(b, lands, w0);
    var c := PodsStep(b, lands);
    if !c.live { return; }
    RecoverKeeps(c, lands, w0);
    var d := RecoverSetsStep(c, lands);
    if !d.live { return; }
    LastStepsKeep(d, lands, w0);
    var e := RecoverDeployStep(d, lands);
    if !e.live { return; }
    MarkKeeps(e, lands, w0);
  }

  /** A reconcile keeps the invariant, and goes on as a two-deployment component only when the migration is complete. */
  lemma ReconcileKeeps(w: World, updating: bool, lands: Lands, w0: World)
    requires Start(w0) && Inv(w, w0)
    ensures Inv(Reconciled(w, updating, lands).w, w0)
    ensures Reconciled(w, updating, lands).live ==> Complete(w, w0) && !w.changing && Reconciled(w, updating, lands).w == w
  {
    hide ChangeMode, Olds, ValidNames, PodsKept, AllLabelled, NewSets, FromOld;
    var s := Session(w, 0, true);
    WhatIsListed(w, w0);
    if w.changing {
      ChangeModeKeeps(s, lands, w0);
    }
  }

  // ---- whole runs -----------------------------------------------------------------------------------------

  /** A reconcile whose writes land as they may, or a terminating object that disappears. */
  datatype Event = Reconcile(updating: bool, lands: Lands) | DeployGone(i: nat) | SetGone(i: nat)

  function Without(objs: seq<Object>, i: nat): seq<Object>
  {
    if i < |objs| && objs[i].terminating then objs[..i] + objs[i + 1..] else objs
  }

  ghost function Next(w: World, e: Event): World
  {
    match e
    case Reconcile(updating, lands) => Reconciled(w, updating, lands).w
    case DeployGone(i) => w.(deploys := Without(w.deploys, i))
    case SetGone(i) => w.(sets := Without(w.sets, i))
  }

  ghost function Run(w: World, events: seq<Event>): World
  {
    if events == [] then w else Next(Run(w, events[..|events| - 1]), events[|events| - 1])
  }

  lemma GoneKeeps(w: World, e: Event, w0: World)
    requires Start(w0) && Inv(w, w0) && !e.Reconcile?
    ensures Inv(Next(w, e), w0)
  {
    hide PodsKept, AllLabelled, ValidNames;
  }

  lemma {:induction false} EveryRunKeeps(w0: World, events: seq<Event>)
    requires Start(w0)
    ensures Inv(Run(w0, events), w0)
  {
    hide Next, SetsGoing, Recovering;
    if events != [] {
      EveryRunKeeps(w0, events[..|events| - 1]);
      var w, e := Run(w0, events[..|events| - 1]), events[|events| - 1];
      if e.Reconcile? { ReconcileStepKeeps(w, e, w0); } else { GoneKeeps(w, e, w0); }
    }
  }

  lemma ReconcileStepKeeps(w: World, e: Event, w0: World)
    requires Start(w0) && Inv(w, w0) && e.Reconcile?
    ensures Inv(Next(w, e), w0)
  {
    hide Reconciled, Inv;
    ReconcileKeeps(w, e.updating, e.lands, w0);
  }

  /**
   Crash safety. In every run, however its reconciles are cut, the old Deployment and every old
   set exist or are saved, every pod is there, and while the objects are neither as they were nor
   as they should be, the component is marked as changing, so that the next reconcile resumes.
   */
  lemma NothingIsLost(w0: World, events: seq<Event>)
    requires Start(w0)
    ensures var w := Run(w0, events);
            && (w.savedDeploy == Some(w0.deploys[0]) || w.deploys == w0.deploys)
            && (w.savedSets == Some(w0.sets) || w.sets == w0.sets)
            && PodsKept(w.pods, w0.pods)
            && (w.changing || Complete(w, w0) || w == w0.(currentGroup := w.currentGroup))
            && (forall updating, lands :: Reconciled(w, updating, lands).live ==> Complete(w, w0))
  {
    hide Run, Reconciled;
    EveryRunKeeps(w0, events);
    var w := Run(w0, events);
    forall updating, lands: Lands | Reconciled(w, updating, lands).live
      ensures Complete(w, w0)
    {
      ReconcileKeeps(w, updating, lands, w0);
    }
  }

  // ---- completion -------------------------------------------------------------------------------------------

  function Settled(objs: seq<Object>): seq<Object>
  {
    if objs == [] then []
    else Settled(objs[..|objs| - 1]) + (if objs[|objs| - 1].terminating then [] else [objs[|objs| - 1]])
  }

  lemma {:induction false} SettledAll(objs: seq<Object>)
    requires forall i :: 0 <= i < |objs| ==> !objs[i].terminating
    ensures Settled(objs) == objs
  {
    if objs != [] {
      SettledAll(objs[..|objs| - 1]);
      assert objs == objs[..|objs| - 1] + [objs[|objs| - 1]];
    }
  }

  lemma {:induction false} SettledNone(objs: seq<Object>)
    requires forall i :: 0 <= i < |objs| ==> objs[i].terminating
    ensures Settled(objs) == []
  {
    if objs != [] { SettledNone(objs[..|objs| - 1]); }
  }

  function Smooth(n: nat): bool { true }

  /** A reconcile in which every write lands, after which all terminating objects disappear. */
  function Round(w: World): World
  {
    var r := Reconciled(w, false, Smooth).w;
    r.(deploys := Settled(r.deploys), sets := Settled(r.sets))
  }

  function Rounds(w: World, n: nat): World { if n == 0 then w else Round(Rounds(w, n - 1)) }

  function Stage(w: World, w0: World): nat
    requires Start(w0)
  {
    if !w.changing then (if DeployHere(w, w0) then 5 else 0)
    else if DeployHere(w, w0) then 4
    else if Complete(w, w0) then 1
    else if Recovering(w, w0) then 2
    else 3
  }

  lemma {:induction false} DeleteSetsMarks(s: Session, olds: seq<Object>)
    requires s.live
    ensures var t := DeleteSets(s, olds, Smooth);
            && t.live && t.w == s.w.(sets := t.w.sets) && |t.w.sets| == |s.w.sets|
            && (forall i :: 0 <= i < |t.w.sets| ==> t.w.sets[i].name == s.w.sets[i].name)
            && (forall i, j :: 0 <= i < |t.w.sets| && 0 <= j < |olds| && t.w.sets[i].name == olds[j].name ==>
                                 t.w.sets[i].terminating)
  {
    if olds != [] { DeleteSetsMarks(s, olds[..|olds| - 1]); }
  }

  lemma {:induction false} LabelPodsRuns(s: Session, olds: seq<Pod>)
    requires s.live
    ensures LabelPods(s, olds, Smooth).live
  {
    if olds != [] { LabelPodsRuns(s, olds[..|olds| - 1]); }
  }

  /** Once the old objects are gone, one uncut run does the rest. */
  lemma RecoveringFinishes(s: Session, w0: World)
    requires Start(w0) && s.live && Recovering(s.w, w0) && s.w.changing && ValidNames(w0.sets)
    ensures var c := PodsStep(s, Smooth);
            c.live && var d := RecoverSetsStep(c, Smooth);
                      d.live && var e := RecoverDeployStep(d, Smooth);
                                e.live && Complete(MarkCurrentStep(e, Smooth).w, w0) && e.w.changing
  {
    hide Recovering, Complete, PodsStep, RecoverSetsStep, RecoverDeployStep, MarkCurrentStep, ValidNames, AllLabelled, Start;
    PodsStepKeeps(s, Smooth, w0);
    PodsRun(s);
    var c := PodsStep(s, Smooth);
    RecoverKeeps(c, Smooth, w0);
    var d := RecoverSetsStep(c, Smooth);
    LastStepsKeep(d, Smooth, w0);
    MarkKeeps(RecoverDeployStep(d, Smooth), Smooth, w0);
  }

  lemma PodsRun(s: Session)
    requires s.live
    ensures PodsStep(s, Smooth).live
  {
    LabelPodsRuns(s, OldPods(s.w.pods));
  }

  lemma UnstartedRound(w: World, w0: World)
    requires Start(w0) && Inv(w, w0) && Stage(w, w0) == 5
    ensures Stage(Round(w), w0) == 4 && Inv(Round(w), w0)
  {
    hide Olds, Settled, ChangeMode, Recovering, SetsGoing, Complete;
    OldsAll(w.deploys);
    SettledAll(w.deploys);
    SettledAll(w.sets);
    assert Round(w) == w.(changing := true);
  }

  lemma DeployRound(w: World, w0: World)
    requires Start(w0) && Inv(w, w0) && Stage(w, w0) == 4
    ensures SetsGoing(Round(w), w0) && Round(w).savedSets == None
  {
    hide Olds, Settled, SetsStep, PodsStep, RecoverSetsStep, RecoverDeployStep, MarkCurrentStep, Recovering;
    WhatIsListed(w, w0);
    var d := w.deploys[0];
    assert MarkDeleted(w.deploys, d.name) == [Marked(d)];
    SettledNone([Marked(d)]);
    SettledAll(w.sets);
  }

  lemma StillGoing(w: World, w0: World)
    requires Start(w0) && SetsGoing(w, w0) && w.sets != []
    ensures !Recovering(w, w0)
  {
    assert w.sets[0].(terminating := false) in w0.sets;
    assert w.sets[0].group == "";
  }

  lemma SetsRun(w: World, w0: World)
    requires Start(w0) && SetsGoing(w, w0) && w.sets != [] && Olds(w.sets) == w.sets && Olds(w.deploys) == []
    ensures var r := Reconciled(w, false, Smooth).w;
            && r == w.(savedSets := Some(w0.sets), sets := r.sets)
            && forall i :: 0 <= i < |r.sets| ==> r.sets[i].terminating
  {
    hide Olds, PodsStep, RecoverSetsStep, RecoverDeployStep, MarkCurrentStep, FromOld, Start;
    var s := Session(w, 0, true);
    var saved := if w.savedSets == None then Call(s, SaveSets(w.sets), Smooth) else s;
    DeleteSetsMarks(saved, w.sets);
    var t := DeleteSets(saved, w.sets, Smooth);
    assert forall i :: 0 <= i < |t.w.sets| ==> t.w.sets[i].name == w.sets[i].name;
    assert SetsStep(s, Smooth) == Halt(t);
  }

  lemma SetsRound(w: World, w0: World)
    requires Start(w0) && Inv(w, w0) && SetsGoing(w, w0) && w.sets != []
    ensures Recovering(Round(w), w0) && Round(w).changing && Round(w).deploys == [] && !Recovering(w, w0)
  {
    hide Olds, Settled, Reconciled, FromOld;
    StillGoing(w, w0);
    WhatIsListed(w, w0);
    SetsRun(w, w0);
    SettledNone(Reconciled(w, false, Smooth).w.sets);
    SettledAll(w.deploys);
    UnlabelledKept(w0.pods);
    hide PodsKept, AllLabelled;
    assert NewSets(w0.sets[..0]) == [];
  }

  lemma LastRound(w: World, w0: World)
    requires Start(w0) && Inv(w, w0) && w.changing && !DeployHere(w, w0) && ValidNames(w0.sets)
    requires Recovering(w, w0) || (SetsGoing(w, w0) && w.sets == [])
    ensures Complete(Round(w), w0) && (Complete(w, w0) ==> !Round(w).changing)
  {
    hide Inv, ChangeMode, Olds, ValidNames, Settled, Complete, Recovering, SetsGoing, DeployHere;
    var s := Session(w, 0, true);
    LastRunCompletes(s, w0);
    var t := ChangeMode(s, Smooth);
    CompleteSettles(t.w, w0);
    CompleteUnmarked(t.w, w0);
    if Complete(w, w0) {
      CompleteNeedsValidNames(w, w0);
      CompleteIsQuiet(s, w0, Smooth);
    }
  }

  lemma LastRunCompletes(s: Session, w0: World)
    requires Start(w0) && s.live && Inv(s.w, w0) && s.w.changing && !DeployHere(s.w, w0) && ValidNames(w0.sets)
    requires Recovering(s.w, w0) || (SetsGoing(s.w, w0) && s.w.sets == [])
    ensures Complete(ChangeMode(s, Smooth).w, w0)
  {
    hide Inv, Recovering, Complete, SetsGoing, DeployHere, DeployStep, SetsStep, PodsStep, RecoverSetsStep,
         RecoverDeployStep, MarkCurrentStep, ValidNames;
    SetsStepGoesOn(s, w0);
    SetsStepKeeps(s, Smooth, w0);
    RecoveringFinishes(SetsStep(s, Smooth), w0);
  }

  lemma SetsStepGoesOn(s: Session, w0: World)
    requires Start(w0) && s.live && Inv(s.w, w0) && (Recovering(s.w, w0) || (SetsGoing(s.w, w0) && s.w.sets == []))
    ensures SetsStep(s, Smooth).live && DeployStep(s, Smooth) == s
  {
    WhatIsListed(s.w, w0);
  }

  /** A completed migration has renamed every set. */
  lemma CompleteNeedsValidNames(w: World, w0: World)
    requires Start(w0) && Inv(w, w0) && Complete(w, w0)
    ensures Recovering(w, w0) && ValidNames(w0.sets)
  {
    assert w.deploys[0].group == "0";
    assert w0.sets[..|w0.sets|] == w0.sets;
  }

  lemma CompleteUnmarked(w: World, w0: World)
    requires Start(w0) && Complete(w, w0)
    ensures Complete(w.(changing := false), w0)
  {
  }

  lemma CompleteSettles(w: World, w0: World)
    requires Start(w0) && Complete(w, w0)
    ensures Settled(w.deploys) == w.deploys && Settled(w.sets) == w.sets
  {
    SettledAll(w.deploys);
    SettledAll(w.sets);
  }

  lemma {:induction false} NothingToCreate(s: Session, saved: seq<Object>, lands: Lands)
    requires s.live
    requires forall i :: 0 <= i < |saved| ==>
               NewSetName(saved[i].name).Some? && Named(s.w.sets, NewSetName(saved[i].name).value)
    ensures CreateSets(s, saved, lands) == s
  {
    hide NewSetName, Named;
    if saved != [] { NothingToCreate(s, saved[..|saved| - 1], lands); }
  }

  /** A further run of the six steps over a completed migration writes nothing. */
  lemma CompleteIsQuiet(s: Session, w0: World, lands: Lands)
    requires Start(w0) && s.live && Recovering(s.w, w0) && Complete(s.w, w0) && ValidNames(w0.sets)
    ensures ChangeMode(s, lands) == s
  {
    hide NewSetName;
    OldsNone(s.w.deploys);
    OldsNone(s.w.sets);
    NoOldPods(s.w.pods);
    forall i | 0 <= i < |w0.sets|
      ensures NewSetName(w0.sets[i].name).Some? && Named(s.w.sets, NewSetName(w0.sets[i].name).value)
    {
      NewSetNameInjective(w0.sets[i].name, w0.sets[i].name);
      assert s.w.sets[i].name == NewSetName(w0.sets[i].name).value;
    }
    NothingToCreate(s, w0.sets, lands);
    assert s.w.deploys[0].name == NewDeploy(w0.deploys[0]).name;
  }

  /** Each round in which every write lands gets the migration further. */
  lemma RoundProgress(w: World, w0: World)
    requires Start(w0) && Inv(w, w0) && ValidNames(w0.sets) && Stage(w, w0) > 0
    ensures Inv(Round(w), w0) && Stage(Round(w), w0) < Stage(w, w0)
  {
    hide Round, ValidNames, NewSets, PodsKept, AllLabelled, FromOld;
    RoundKeeps(w, w0);
    if !w.changing {
      UnstartedRound(w, w0);
    } else if DeployHere(w, w0) {
      DeployRound(w, w0);
    } else if SetsGoing(w, w0) && w.sets != [] {
      SetsRound(w, w0);
    } else {
      LastRound(w, w0);
    }
  }

  lemma RoundKeeps(w: World, w0: World)
    requires Start(w0) && Inv(w, w0)
    ensures Inv(Round(w), w0)
  {
    hide Reconciled;
    ReconcileKeeps(w, false, Smooth, w0);
    SettleKeeps(Reconciled(w, false, Smooth).w, w0);
  }

  lemma {:induction false} SettledFrom(objs: seq<Object>)
    ensures forall i :: 0 <= i < |Settled(objs)| ==> Settled(objs)[i] in objs
  {
    if objs != [] {
      SettledFrom(objs[..|objs| - 1]);
      assert objs == objs[..|objs| - 1] + [objs[|objs| - 1]];
    }
  }

  lemma SettleKeeps(w: World, w0: World)
    requires Start(w0) && Inv(w, w0)
    ensures Inv(w.(deploys := Settled(w.deploys), sets := Settled(w.sets)), w0)
  {
    hide ValidNames, PodsKept, AllLabelled, Settled;
    if DeployHere(w, w0) {
      SettledAll(w.sets);
      if w.deploys[0].terminating { SettledNone(w.deploys); } else { SettledAll(w.deploys); }
    } else if SetsGoing(w, w0) {
      SettledFrom(w.sets);
      SettledNone(w.deploys);
      if w.savedSets == None { SettledAll(w.sets); }
    } else {
      SettledAll(w.sets);
      SettledAll(w.deploys);
    }
  }

  lemma {:induction false} RoundsProgress(w: World, w0: World, n: nat)
    requires Start(w0) && Inv(w, w0) && ValidNames(w0.sets)
    ensures Inv(Rounds(w, n), w0) && Stage(Rounds(w, n), w0) <= if n < 5 then 5 - n else 0
  {
    hide Round, Inv, ValidNames;
    if n > 0 {
      RoundsProgress(w, w0, n - 1);
      var v := Rounds(w, n - 1);
      if Stage(v, w0) > 0 { RoundProgress(v, w0); } else { DoneStays(v, w0, SetGone(0)); }
    }
  }

  lemma DoneIsComplete(w: World, w0: World)
    requires Start(w0) && Inv(w, w0) && Stage(w, w0) == 0
    ensures Complete(w, w0) && !w.changing
  {
    hide PodsKept, AllLabelled, ValidNames, FromOld;
  }

  /** Completed and unmarked, nothing changes any more, whatever is reconciled. */
  lemma DoneStays(w: World, w0: World, e: Event)
    requires Start(w0) && Inv(w, w0) && Stage(w, w0) == 0
    ensures Next(w, e) == w && Round(w) == w
  {
    hide Inv, ChangeMode, Olds, Settled, AllLabelled;
    DoneIsComplete(w, w0);
    OldsNone(w.deploys);
    CompleteSettles(w, w0);
  }

  /**
   Completion: from every state a run can leave behind, five undisturbed rounds complete the
   migration if every old set has a dash in its name, and otherwise no run ever does.
   */
  lemma CompletesIffNamesAreValid(w0: World, events: seq<Event>)
    requires Start(w0)
    ensures var w := Run(w0, events);
            && (ValidNames(w0.sets) ==> Complete(Rounds(w, 5), w0) && !Rounds(w, 5).changing)
            && (!ValidNames(w0.sets) ==> !Complete(w, w0))
  {
    hide Run, Inv, Rounds, ValidNames, DeployHere, Recovering;
    EveryRunKeeps(w0, events);
    var w := Run(w0, events);
    if Complete(w, w0) { CompleteNeedsValidNames(w, w0); }
    if ValidNames(w0.sets) {
      RoundsProgress(w, w0, 5);
      DoneIsComplete(Rounds(w, 5), w0);
    }
  }

  // ---- the outcome in full ------------------------------------------------------------------------------------

  /** What every object has become after five undisturbed rounds, whatever happened before. */
  lemma MigratedObjects(w0: World, events: seq<Event>)
    requires Start(w0) && forall i :: 0 <= i < |w0.sets| ==> '-' in w0.sets[i].name
    ensures var w, d := Rounds(Run(w0, events), 5), w0.deploys[0];
            && w.deploys == [Object(d.name + "-0", "0", "0", "0", d.body, false)]
            && w.currentGroup == "0" && !w.changing
            && |w.sets| == |w0.sets| && |w.pods| == |w0.pods|
            && (forall i :: 0 <= i < |w.sets| ==> BecameGroup0(w.sets[i], w0.sets[i]))
            && forall i :: 0 <= i < |w.pods| ==> w.pods[i] == Pod(w0.pods[i].name, "0", w0.pods[i].body)
  {
    hide Run, Rounds;
    assert ValidNames(w0.sets);
    CompletesIffNamesAreValid(w0, events);
    var w := Rounds(Run(w0, events), 5);
    forall i | 0 <= i < |w.sets|
      ensures BecameGroup0(w.sets[i], w0.sets[i])
    {
      assert w.sets[i] == NewSet(w0.sets[i]);
      NewSetBecame(w0.sets[i]);
    }
  }

  /** A set of group 0 with the same body, and "-0" before the last dash of its name. */
  ghost predicate BecameGroup0(o: Object, was: Object)
  {
    && o.group == "0" && o.selectorGroup == "0" && o.templateGroup == "0" && o.body == was.body && !o.terminating
    && forall deploy, hash :: was.name == deploy + "-" + hash && '-' !in hash ==> o.name == deploy + "-0-" + hash
  }

  lemma NewSetBecame(was: Object)
    requires '-' in was.name
    ensures BecameGroup0(NewSet(was), was)
  {
    hide NewSetName;
    var p, h := NewSetNameParts(was.name);
    forall deploy, hash | was.name == deploy + "-" + hash && '-' !in hash
      ensures NewSet(was).name == deploy + "-0-" + hash
    {
      LastDashUnique(p, h, deploy, hash);
    }
  }

  /** The migration begins exactly if there is one old Deployment and no rolling update; until then nothing is written. */
  lemma BeginsIff(w: World, updating: bool, lands: Lands)
    requires !w.changing && lands(0)
    ensures var r := Reconciled(w, updating, lands);
            var olds := Olds(w.deploys);
            && (|olds| == 1 && !updating ==> r == Session(w.(changing := true), 1, false))
            && (|olds| == 1 && updating ==> r == Session(w, 0, false))
            && (|olds| > 1 ==> r == Session(w, 0, false))
            && (|olds| == 0 ==> r == Session(w, 0, true))
  {
  }

  /** Several old Deployments are an error in the middle of a migration as well, and nothing is written. */
  lemma SeveralOldAreAnError(w: World, updating: bool, lands: Lands)
    requires |Olds(w.deploys)| > 1
    ensures Reconciled(w, updating, lands) == Session(w, 0, false)
  {
  }

  lemma {:induction false} OldsIff(objs: seq<Object>, o: Object)
    ensures o in Olds(objs) <==> o in objs && o.group == ""
  {
    if objs != [] {
      OldsIff(objs[..|objs| - 1], o);
      assert objs == objs[..|objs| - 1] + [objs[|objs| - 1]];
    }
  }

  /** Some deletion of a set of that name went through. */
  ghost predicate DeletionLanded(olds: seq<Object>, at: nat, lands: Lands, name: string)
  {
    exists k :: 0 <= k < |olds| && olds[k].name == name && lands(at + k)
  }

  /** Each old set is deleted on its own: one that fails does not keep the others. */
  lemma {:induction false} EachSetIsDeleted(s: Session, olds: seq<Object>, lands: Lands)
    ensures var r := DeleteSets(s, olds, lands);
            && r.at == s.at + |olds| && r.w == s.w.(sets := r.w.sets) && |r.w.sets| == |s.w.sets|
            && forall i :: 0 <= i < |s.w.sets| ==>
                 r.w.sets[i] == if DeletionLanded(olds, s.at, lands, s.w.sets[i].name) then Marked(s.w.sets[i]) else s.w.sets[i]
  {
    if olds != [] {
      var init, last := olds[..|olds| - 1], olds[|olds| - 1];
      EachSetIsDeleted(s, init, lands);
      forall name
        ensures DeletionLanded(olds, s.at, lands, name) <==>
                DeletionLanded(init, s.at, lands, name) || (last.name == name && lands(s.at + |init|))
      {
        OneMoreDeletion(init, last, s.at, lands, name);
      }
      assert olds == init + [last];
      hide DeletionLanded;
    }
  }

  lemma OneMoreDeletion(init: seq<Object>, last: Object, at: nat, lands: Lands, name: string)
    ensures DeletionLanded(init + [last], at, lands, name) <==>
            DeletionLanded(init, at, lands, name) || (last.name == name && lands(at + |init|))
  {
    var olds := init + [last];
    if k :| 0 <= k < |init| && init[k].name == name && lands(at + k) { assert olds[k].name == name; }
    if last.name == name && lands(at + |init|) { assert olds[|init|].name == name; }
  }
}
