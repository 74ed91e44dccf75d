/**
 When a run without surge may break the pod ceiling: exactly when the current Deployment, at the
 start or after a rollback, is owed pods while the other one is empty, and cannot be filled up
 beside the pods still leaving it.
 */
module RolloutRollback {
  import opened Common
  import opened RollingPolicy
  import opened Workloads
  import opened ScalePlanner
  import opened RolloutController
  import opened RolloutSafety
  import opened RolloutCapacity
  import opened RolloutPods
  import RolloutConvergence

  // ---- runs of the environment ---------------------------------------------------------------------------

  predicate Quiet(events: seq<ClusterEvent>) { forall i :: 0 <= i < |events| ==> !events[i].Reconciled? }

  lemma {:induction false} QuietIsGood(c: Cluster, events: seq<ClusterEvent>, spec: ComponentSpec, bound: int)
    requires Quiet(events)
    ensures GoodRun(c, events, spec, bound)
  {
    if events != [] { QuietIsGood(c, events[..|events| - 1], spec, bound); }
  }

  lemma {:induction false} RunConcat(c: Cluster, a: seq<ClusterEvent>, b: seq<ClusterEvent>, spec: ComponentSpec, bound: int)
    requires GoodRun(c, a, spec, bound) && GoodRun(ClusterRun(c, a), b, spec, bound)
    ensures GoodRun(c, a + b, spec, bound) && ClusterRun(c, a + b) == ClusterRun(ClusterRun(c, a), b)
    decreases |b|
  {
    hide Truthful, CleanRollback, ClusterStep;
    if b == [] {
      assert a + b == a;
    } else {
      RunConcat(c, a, b[..|b| - 1], spec, bound);
      assert (a + b)[..|a + b| - 1] == a + b[..|b| - 1] && (a + b)[|a + b| - 1] == b[|b| - 1];
    }
  }

  /** Surplus pods start terminating one by one. */
  lemma {:induction false} DeleteMany(c: Cluster, i: nat, n: nat) returns (es: seq<ClusterEvent>)
    requires i < 2 && Wanted(c.w, i) >= 0 && (n == 0 || Wanted(c.w, i) + n <= Pods(c, i).live)
    ensures Quiet(es)
    ensures ClusterRun(c, es) == SetPods(c, i, PodCount(Pods(c, i).live - n, Pods(c, i).terminating + n))
  {
    es := [];
    if n > 0 {
      var before := DeleteMany(c, i, n - 1);
      es := before + [DeletePod(i)];
      assert es[..|es| - 1] == before;
    }
  }

  lemma {:induction false} FinishMany(c: Cluster, i: nat, n: nat) returns (es: seq<ClusterEvent>)
    requires i < 2 && n <= Pods(c, i).terminating
    ensures Quiet(es)
    ensures ClusterRun(c, es) == SetPods(c, i, PodCount(Pods(c, i).live, Pods(c, i).terminating - n))
  {
    es := [];
    if n > 0 {
      var before := FinishMany(c, i, n - 1);
      es := before + [FinishTermination(i)];
      assert es[..|es| - 1] == before;
    }
  }

  lemma {:induction false} CreateMany(c: Cluster, i: nat, n: nat) returns (es: seq<ClusterEvent>)
    requires i < 2 && Pods(c, i).live + n <= Wanted(c.w, i)
    ensures Quiet(es)
    ensures ClusterRun(c, es) == SetPods(c, i, PodCount(Pods(c, i).live + n, Pods(c, i).terminating))
  {
    es := [];
    if n > 0 {
      var before := CreateMany(c, i, n - 1);
      es := before + [CreatePod(i)];
      assert es[..|es| - 1] == before;
    }
  }

  // ---- what a reconcile may observe ------------------------------------------------------------------------

  function Shown(p: PodCount): seq<Pod> { seq(p.live, _ => READY_POD) + seq(p.terminating, _ => DYING_POD) }

  lemma {:induction false} ShownTerminating(live: nat, dying: nat)
    ensures |Terminating(Shown(PodCount(live, dying)))| == dying
  {
    var pods := Shown(PodCount(live, dying));
    if dying > 0 {
      ShownTerminating(live, dying - 1);
      assert pods[..|pods| - 1] == Shown(PodCount(live, dying - 1));
      assert pods[|pods| - 1] == DYING_POD;
    }
  }

  function Observed(p: PodCount): Observation { Observation(1, DeployStatus(1, 0, 0, 0, 0, 0), Shown(p)) }

  /** The same spec and template, with the pods as they are. */
  function Later(c: Cluster, inp: Inputs): Inputs { inp.(observed := [Observed(Pods(c, 0)), Observed(Pods(c, 1))]) }

  lemma ObservedShows(p: PodCount)
    ensures NotEvicted(Observed(p).labelled) == Shown(p) && |Shown(p)| == p.live + p.terminating
    ensures |Terminating(Shown(p))| == p.terminating
    ensures p == NO_PODS ==> IsStable(0, Observed(p))
  {
    hide Terminating;
    RolloutConvergence.NoneEvicted(Shown(p));
    ShownTerminating(p.live, p.terminating);
  }

  lemma LaterIsTruthful(c: Cluster, inp: Inputs)
    ensures Truthful(c, Later(c, inp))
    ensures forall i :: 0 <= i < 2 && Pods(c, i) == NO_PODS ==> IsStable(0, ObservedAt(Later(c, inp), i))
  {
    hide Observed, Shown, NotEvicted, Terminating, IsStable;
    ObservedShows(c.first);
    ObservedShows(c.second);
    assert ObservedAt(Later(c, inp), 0) == Observed(c.first) && ObservedAt(Later(c, inp), 1) == Observed(c.second);
  }

  // ---- the two reconciles ------------------------------------------------------------------------------------

  lemma PreparedWorld(w: World, i: nat, rendered: Content)
    requires i < |w.deploys|
    ensures var v := ApplyAll(w, PrepareNewRollout(w, i, rendered));
            && v.rolling && |v.deploys| == |w.deploys|
            && forall k :: 0 <= k < |w.deploys| ==> v.deploys[k].replicas == w.deploys[k].replicas
  {
    var ws := PrepareNewRollout(w, i, rendered);
    var u := Apply(w, ws[0]);
    assert ws[1..] == [ws[1]] && [ws[1]][1..] == [];
    assert ApplyAll(w, ws) == ApplyAll(u, ws[1..]) == Apply(u, ws[1]);
  }

  /** The rollback itself moves the mark and changes no replicas. */
  lemma RollbackStep(w: World, inp: Inputs)
    requires Inv(w) && Find(w).Found? && !inp.spec.paused && !MustStop(inp.spec)
    requires ShouldRollback(w.deploys[Find(w).cur], w.deploys[Find(w).last], inp.rendered)
    ensures var v := Step(w, Event(inp, 2));
            && Inv(v) && Find(v) == Found(Find(w).last, Find(w).cur) && v.rolling
            && v.deploys[Find(w).last].template.content == inp.rendered
            && forall i :: 0 <= i < 2 ==> v.deploys[i].replicas == w.deploys[i].replicas
  {
    hide Inv, ScalingStep, ApplyAll, Step, Find;
    var last := Find(w).last;
    StepIsWork(w, Event(inp, 2));
    StepKeepsInv(w, Event(inp, 2));
    var ws := PrepareNewRollout(w, last, inp.rendered);
    assert WorkStep(w, inp).writes == ws && Cut(ws, 2) == ws;
    RolloutConvergence.PrepareResult(w, last, inp.rendered);
    PreparedWorld(w, last, inp.rendered);
  }

  /** Nothing but the refill is left to do once the abandoned Deployment has no pods. */
  lemma RefillStep(c: Cluster, inp: Inputs)
    requires Inv(c.w) && NoSurge(inp.spec) && !inp.spec.paused && Find(c.w).Found?
    requires var cur, last := Find(c.w).cur, Find(c.w).last;
             && c.w.deploys[cur].template.content == inp.rendered && c.w.deploys[last].replicas == 0
             && c.w.deploys[cur].replicas < Expected(inp.spec) && Pods(c, last) == NO_PODS
    ensures Step(c.w, Event(Later(c, inp), 1)) == Apply(c.w, SetReplicas(Find(c.w).cur, Expected(inp.spec)))
    ensures !RollsBack(c, Later(c, inp))
  {
    var now := Later(c, inp);
    var cur, last := Find(c.w).cur, Find(c.w).last;
    LaterIsTruthful(c, inp);
    StepIsWork(c.w, Event(now, 1));
    RefillWrite(c.w, now, cur, last);
    hide ScalingStep, ApplyAll, Inv, Truthful, IsStable, NotEvicted, StepsOf, Later, Apply;
    assert now.spec == inp.spec && now.rendered == inp.rendered by { LaterKeeps(c, inp); }
    assert RollingStep(c.w, now) == Outcome([], false);
    var wr := SetReplicas(cur, Expected(inp.spec));
    assert WorkStep(c.w, now).writes == [] + [wr] == [wr];
    ApplyOne(c.w, wr);
  }

  lemma LaterKeeps(c: Cluster, inp: Inputs)
    ensures Later(c, inp).spec == inp.spec && Later(c, inp).rendered == inp.rendered
  {
  }

  // ---- the exact condition -----------------------------------------------------------------------------------

  /** The abandoned Deployment loses its pods, and the surplus of the other one starts to go. */
  lemma Drained(d: Cluster, cur: nat, last: nat) returns (es: seq<ClusterEvent>)
    requires cur < 2 && last == 1 - cur && Wanted(d.w, cur) == 0 && Wanted(d.w, last) >= 0
    ensures Quiet(es)
    ensures var e := ClusterRun(d, es);
            && e.w == d.w && Pods(e, cur) == NO_PODS
            && Pods(e, last).terminating == Leaving(d, last) && Pods(e, last).live <= Wanted(d.w, last)
  {
    var p, q := Pods(d, cur), Pods(d, last);
    var e1 := DeleteMany(d, cur, p.live);
    var d1 := ClusterRun(d, e1);
    var e2 := FinishMany(d1, cur, p.live + p.terminating);
    var d2 := ClusterRun(d1, e2);
    var e3 := DeleteMany(d2, last, Max(0, q.live - Wanted(d.w, last)));
    hide ClusterRun;
    QuietConcat(d, e1, e2);
    QuietConcat(d, e1 + e2, e3);
    es := e1 + e2 + e3;
  }

  lemma QuietConcat(c: Cluster, a: seq<ClusterEvent>, b: seq<ClusterEvent>)
    requires Quiet(a) && Quiet(b)
    ensures Quiet(a + b) && ClusterRun(c, a + b) == ClusterRun(ClusterRun(c, a), b)
  {
    QuietIsGood(c, a, THREE, 0);
    QuietIsGood(ClusterRun(c, a), b, THREE, 0);
    RunConcat(c, a, b, THREE, 0);
  }

  lemma FillUp(d: Cluster, i: nat) returns (es: seq<ClusterEvent>)
    requires i < 2 && Pods(d, i).live <= Wanted(d.w, i) && Pods(d, 1 - i) == NO_PODS
    ensures Quiet(es) && PodTotal(ClusterRun(d, es)) == Wanted(d.w, i) + Pods(d, i).terminating
  {
    hide ClusterRun, Wanted;
    es := CreateMany(d, i, Wanted(d.w, i) - Pods(d, i).live);
  }

  /** After the refill the missing pods are created while the others still leave. */
  lemma Overfilled(c: Cluster, inp: Inputs, bound: int) returns (es: seq<ClusterEvent>)
    requires Inv(c.w) && NoSurge(inp.spec) && !inp.spec.paused && Find(c.w).Found?
    requires var cur, last := Find(c.w).cur, Find(c.w).last;
             && c.w.deploys[cur].template.content == inp.rendered && c.w.deploys[last].replicas == 0
             && c.w.deploys[cur].replicas < Expected(inp.spec) && Pods(c, last) == NO_PODS
             && Pods(c, cur).live <= c.w.deploys[cur].replicas
    ensures GoodRun(c, es, inp.spec, bound)
    ensures PodTotal(ClusterRun(c, es)) == Expected(inp.spec) + Pods(c, Find(c.w).cur).terminating
  {
    var cur, now := Find(c.w).cur, Later(c, inp);
    RefillStep(c, inp);
    LaterIsTruthful(c, inp);
    var ev := Reconciled(Event(now, 1));
    var d := ClusterStep(c, ev);
    assert now.spec == inp.spec;
    assert Wanted(d.w, cur) == Expected(inp.spec) by { RefillWanted(c.w, cur, Expected(inp.spec)); }
    OneGood(c, ev, inp.spec, bound);
    assert Pods(d, 0) == Pods(c, 0) && Pods(d, 1) == Pods(c, 1);
    hide Inv, NoSurge, Truthful, Step, Find, Later, RollsBack, ClusterStep, ClusterRun, GoodRun, Apply, PodTotal, Pods, Wanted;
    var made := FillUp(d, cur);
    QuietIsGood(d, made, inp.spec, bound);
    RunConcat(c, [ev], made, inp.spec, bound);
    es := [ev] + made;
  }

  lemma RefillWanted(w: World, i: nat, n: nat)
    requires i < |w.deploys|
    ensures Wanted(Apply(w, SetReplicas(i, n)), i) == n
  {
  }

  lemma OneGood(c: Cluster, ev: ClusterEvent, spec: ComponentSpec, bound: int)
    requires ev.Reconciled? && ev.e.inp.spec == spec && Truthful(c, ev.e.inp) && !RollsBack(c, ev.e.inp)
    ensures GoodRun(c, [ev], spec, bound) && ClusterRun(c, [ev]) == ClusterStep(c, ev)
  {
    hide Truthful, RollsBack, ClusterStep;
    assert [ev][..0] == [];
    assert ClusterRun(c, []) == c && GoodRun(c, [], spec, bound);
  }

  /** A current Deployment that is not clean beside an empty one can be filled up past the bound. */
  lemma DirtyCurrent(c: Cluster, spec: ComponentSpec, bound: int) returns (es: seq<ClusterEvent>)
    requires NoSurge(spec) && !spec.paused && Inv(c.w) && Find(c.w).Found?
    requires Wanted(c.w, Find(c.w).last) == 0 && !Clean(c, Find(c.w).cur, Expected(spec), bound)
    ensures GoodRun(c, es, spec, bound) && PodTotal(ClusterRun(c, es)) > bound
  {
    var cur, last := Find(c.w).cur, Find(c.w).last;
    assert c.w.deploys[cur].replicas >= 0;
    var content := c.w.deploys[cur].template.content;
    var inp := Inputs(spec, content, content, content, []);
    hide Inv, StepsOf;
    var a := Drained(c, last, cur);
    var e := ClusterRun(c, a);
    QuietIsGood(c, a, spec, bound);
    var b := Overfilled(e, inp, bound);
    RunConcat(c, a, b, spec, bound);
    es := a + b;
  }

  /** A reconcile cut after its first write creates the missing second Deployment and does nothing else. */
  lemma SecondCreated(c: Cluster, spec: ComponentSpec)
    requires Inv(c.w) && |c.w.deploys| == 1
    ensures var inp := Later(c, Inputs(spec, NEW, NEW, NEW, []));
            var w := Step(c.w, Event(inp, 1));
            && Inv(w) && Find(w) == Found(0, 1) && Wanted(w, 0) == Wanted(c.w, 0) && Wanted(w, 1) == 0
            && !RollsBack(c, inp)
  {
    var inp := Later(c, Inputs(spec, NEW, NEW, NEW, []));
    StepKeepsInv(c.w, Event(inp, 1));
    var made := Create(Deployment("1", 0, Template(NEW, "1")));
    assert CreateStep(c.w, inp).writes == [made];
    hide WorkStep;
    assert Cut(ReconcileWrites(c.w, inp), 1) == [made];
    ApplyOne(c.w, made);
    RolloutConvergence.TwoAreFound(Apply(c.w, made));
  }

  /** Every start that is not bounded has a run past the bound. */
  lemma DirtyStart(c: Cluster, spec: ComponentSpec, bound: int) returns (es: seq<ClusterEvent>)
    requires NoSurge(spec) && !spec.paused && Inv(c.w) && Owned(c) && !BothBounded(c, Expected(spec), bound)
    ensures GoodRun(c, es, spec, bound) && PodTotal(ClusterRun(c, es)) > bound
  {
    if |c.w.deploys| == 1 {
      SecondCreated(c, spec);
      var inp := Later(c, Inputs(spec, NEW, NEW, NEW, []));
      var ev := Reconciled(Event(inp, 1));
      var d := ClusterStep(c, ev);
      LaterIsTruthful(c, Inputs(spec, NEW, NEW, NEW, []));
      OneGood(c, ev, spec, bound);
      SameClean(c, d, 0, Expected(spec), bound);
      var rest := DirtyCurrent(d, spec, bound);
      RunConcat(c, [ev], rest, spec, bound);
      es := [ev] + rest;
    } else {
      RolloutConvergence.TwoAreFound(c.w);
      es := DirtyCurrent(c, spec, bound);
    }
  }

  // ---- a paused component ------------------------------------------------------------------------------------------

  lemma PausedStep(c: Cluster, e: Event)
    requires Inv(c.w) && e.inp.spec.paused
    ensures Inv(Step(c.w, e)) && Load(c.(w := Step(c.w, e))) == Load(c)
  {
    StepKeepsInv(c.w, e);
    var ws := CreateStep(c.w, e.inp).writes;
    assert ReconcileWrites(c.w, e.inp) == ws;
    hide Inv, ReconcileWrites;
    if ws != [] && e.cut > 0 {
      assert Cut(ws, e.cut) == [ws[0]];
      ApplyOne(c.w, ws[0]);
      CreateIsWeightless(c, e.inp);
    }
  }

  lemma CreateIsWeightless(c: Cluster, inp: Inputs)
    requires CreateStep(c.w, inp).writes != []
    ensures Load(c.(w := Apply(c.w, CreateStep(c.w, inp).writes[0]))) == Load(c)
  {
  }

  /** While the component is paused nothing is scaled, so the load never grows. */
  lemma {:induction false} PausedCeiling(c: Cluster, events: seq<ClusterEvent>, spec: ComponentSpec, bound: int)
    requires spec.paused && Inv(c.w) && GoodRun(c, events, spec, bound)
    ensures Inv(ClusterRun(c, events).w) && Load(ClusterRun(c, events)) <= Load(c)
    decreases |events|
  {
    hide Inv, Truthful, CleanRollback;
    if events != [] {
      var before, ev := events[..|events| - 1], events[|events| - 1];
      PausedCeiling(c, before, spec, bound);
      if ev.Reconciled? { PausedStep(ClusterRun(c, before), ev.e); }
    }
  }

  // ---- the two exact conditions -----------------------------------------------------------------------------------

  /**
   The exact condition on the start of a run. For every bound that covers the load and the expected
   count: no good run exceeds it if and only if the component is paused or its current Deployment
   is bounded.
   */
  lemma CeilingIffStart(c: Cluster, spec: ComponentSpec, bound: int)
    requires NoSurge(spec) && Inv(c.w) && Owned(c) && Expected(spec) <= bound && Load(c) <= bound
    ensures spec.paused || BothBounded(c, Expected(spec), bound) <==>
            forall es :: GoodRun(c, es, spec, bound) ==> PodTotal(ClusterRun(c, es)) <= bound
  {
    hide Inv, NoSurge, StepsOf, BothBounded, Owned, GoodRun;
    if spec.paused || BothBounded(c, Expected(spec), bound) {
      forall es | GoodRun(c, es, spec, bound)
        ensures PodTotal(ClusterRun(c, es)) <= bound
      {
        if spec.paused { PausedCeiling(c, es, spec, bound); } else { PodCeiling(c, es, spec, bound); }
      }
    } else {
      var es := DirtyStart(c, spec, bound);
    }
  }

  /** A rollback that is not clean can be followed by a run that exceeds the bound. */
  lemma DirtyRollbackOverflows(c: Cluster, inp: Inputs, bound: int) returns (rest: seq<ClusterEvent>)
    requires NoSurge(inp.spec) && Inv(c.w) && !CleanRollback(c, inp, bound)
    ensures var d := ClusterStep(c, Reconciled(Event(inp, 2)));
            GoodRun(d, rest, inp.spec, bound) && PodTotal(ClusterRun(d, rest)) > bound
  {
    var last := Find(c.w).last;
    RollbackStep(c.w, inp);
    var d := ClusterStep(c, Reconciled(Event(inp, 2)));
    SameClean(c, d, last, Expected(inp.spec), bound);
    hide Step, Inv, StepsOf;
    rest := DirtyCurrent(d, inp.spec, bound);
  }

  /**
   The exact condition on a reconcile, for every bounded state: it can be followed by a run above
   the bound, in which no later reconcile is at fault, exactly when it rolls back without being clean.
   */
  lemma CeilingIffCleanRollback(c: Cluster, inp: Inputs, bound: int)
    requires NoSurge(inp.spec) && Bounded(c, Expected(inp.spec), bound) && Truthful(c, inp)
    ensures CleanRollback(c, inp, bound) <==>
            forall cut, rest ::
              GoodRun(ClusterStep(c, Reconciled(Event(inp, cut))), rest, inp.spec, bound) ==>
                PodTotal(ClusterRun(ClusterStep(c, Reconciled(Event(inp, cut))), rest)) <= bound
  {
    if CleanRollback(c, inp, bound) {
      forall cut, rest | GoodRun(ClusterStep(c, Reconciled(Event(inp, cut))), rest, inp.spec, bound)
        ensures PodTotal(ClusterRun(ClusterStep(c, Reconciled(Event(inp, cut))), rest)) <= bound
      {
        ReconcileKeepsBound(c, Event(inp, cut), bound);
        PodCeiling(ClusterStep(c, Reconciled(Event(inp, cut))), rest, inp.spec, bound);
      }
    } else {
      var rest := DirtyRollbackOverflows(c, inp, bound);
    }
  }

  // ---- a scale-up that breaks the ceiling -------------------------------------------------------------------------

  /** Scaled from three to two and back to three while the third pod still terminates; no rollout anywhere. */
  const SCALED_BACK := Cluster(
    World([Deployment("0", 2, Template(OLD, "0")), Deployment("1", 0, Template(NEW, "1"))], "0", false),
    PodCount(2, 1), NO_PODS)

  lemma ScaledBackFacts()
    ensures Inv(SCALED_BACK.w) && Owned(SCALED_BACK) && NoSurge(THREE) && Truthful(SCALED_BACK, ROLL_BACK)
    ensures Load(SCALED_BACK) == PodTotal(SCALED_BACK) == 3 == Expected(THREE)
    ensures !BothBounded(SCALED_BACK, 3, 3) && !RollsBack(SCALED_BACK, ROLL_BACK)
  {
    MidRolloutFacts();
    hide NotEvicted, Terminating, StepsOf;
    assert SCALED_BACK.w.deploys[0].group == SCALED_BACK.w.currentGroup;
    assert Find(SCALED_BACK.w) == Found(0, 1);
  }

  /** One reconcile and one created pod later four pods exist although there were three and three are expected. */
  lemma ScaleUpBreaksCeiling()
    ensures Inv(SCALED_BACK.w) && Owned(SCALED_BACK) && NoSurge(THREE) && Truthful(SCALED_BACK, ROLL_BACK)
    ensures Load(SCALED_BACK) == PodTotal(SCALED_BACK) == 3 == Expected(THREE)
    ensures !BothBounded(SCALED_BACK, 3, 3) && !RollsBack(SCALED_BACK, ROLL_BACK)
    ensures PodTotal(ClusterRun(SCALED_BACK, [Reconciled(Event(ROLL_BACK, 1)), CreatePod(0)])) == 4
  {
    var c, e := SCALED_BACK, Reconciled(Event(ROLL_BACK, 1));
    ScaledBackFacts();
    ScaleUpStep();
    hide Step, Inv, NoSurge, Truthful, BothBounded, RollsBack;
    var es := [e, CreatePod(0)];
    assert es[..1] == [e] && es[..1][..0] == [];
    assert ClusterRun(c, es[..1]) == ClusterStep(c, e);
  }

  lemma ScaleUpStep()
    requires NoSurge(THREE)
    ensures Wanted(Step(SCALED_BACK.w, Event(ROLL_BACK, 1)), 0) == 3
  {
    var w := SCALED_BACK.w;
    StepIsWork(w, Event(ROLL_BACK, 1));
    assert Find(w) == Found(0, 1);
    MidRolloutNoPods();
    assert RollingStep(w, ROLL_BACK) == Outcome([], false);
    RefillWrite(w, ROLL_BACK, 0, 1);
    var wr := SetReplicas(0, 3);
    assert WorkStep(w, ROLL_BACK).writes == [] + [wr] == [wr];
    ApplyOne(w, wr);
  }
}
