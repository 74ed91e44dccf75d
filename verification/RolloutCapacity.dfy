/**
 Capacity during rollouts: how far serving pods may drop, how far replicas and pods may rise,
 and how long the old deployment's capacity is kept.
 */
module RolloutCapacity {
  import opened Common
  import opened RollingPolicy
  import opened Workloads
  import opened ScalePlanner
  import opened RolloutController
  import opened RolloutSafety

  /** Replicas are a number in the spec: no autoscaler, no forced update. */
  predicate PlainSpec(spec: ComponentSpec) { !spec.force && spec.hpa == None && Expected(spec) >= 0 }

  // ---- availability floor ------------------------------------------------------------------------

  function PodsAt(inp: Inputs, i: nat): seq<Pod> { NotEvicted(ObservedAt(inp, i).labelled) }

  /** The guard lower-bounds the serving pods by what the planner counts as available. */
  lemma GuardBoundsServing(spec: ComponentSpec, cur: int, c: Observation, last: int, l: Observation)
    requires PlainSpec(spec) && last > 0 && cur >= 0 && CanScaleNow(spec, cur, c, last, l)
    requires forall p :: p in NotEvicted(c.labelled) ==> UniqueReady(p)
    ensures ServingCount(NotEvicted(l.labelled)) == last
    ensures IsStable(cur, c) ==> ServingCount(NotEvicted(c.labelled)) == cur
    ensures StepsOf(spec).surge > 0 ==> IsStable(cur, c)
    ensures Min(c.status.available, cur) <= ServingCount(NotEvicted(c.labelled))
  {
    StrictReadinessServes(NotEvicted(c.labelled));
  }

  /** The planner's part of the floor: what it removes fits the budget counted in available replicas. */
  lemma PlannedRemovalFits(steps: Steps, e: int, cur: int, last: int, ca: int, la: int, same: bool)
    requires e >= 0 && cur >= 0 && last > 0 && steps.surge >= 0 && 0 <= steps.unavailable <= e
    requires PlanForRollout(steps, e, cur, last, ca, la, same).target == Last
    ensures var a := PlanForRollout(steps, e, cur, last, ca, la, same);
            && -last <= a.change < 0
            && (steps.surge == 0 ==> Min(ca, cur) + last + a.change >= e - steps.unavailable)
            && (steps.surge > 0 ==> cur + last + a.change >= e - steps.unavailable)
  {
  }

  /**
   Availability floor. Whenever a rollout lowers the old deployment, the pods serving right now,
   less every pod that is about to go, still number at least expected - maxUnavailable. This holds
   with and without surge and with changed resource limits.
   */
  lemma AvailabilityFloor(w: World, inp: Inputs, n: int)
    requires Inv(w) && Find(w).Found? && PlainSpec(inp.spec)
    requires ScalingStep(w, inp).writes == [SetReplicas(Find(w).last, n)]
    requires forall p :: p in PodsAt(inp, Find(w).cur) ==> UniqueReady(p)
    ensures var c, l := Find(w).cur, Find(w).last;
            0 <= n < w.deploys[l].replicas &&
            ServingCount(PodsAt(inp, c)) + ServingCount(PodsAt(inp, l)) - (w.deploys[l].replicas - n)
            >= Expected(inp.spec) - StepsOf(inp.spec).unavailable
  {
    var c, l := Find(w).cur, Find(w).last;
    var cur, last := w.deploys[c].replicas, w.deploys[l].replicas;
    RemovalIsPlanned(w, inp, n);
    StepsInRange(StrategyOf(inp.spec), Expected(inp.spec));
    PlannedRemovalFits(StepsOf(inp.spec), Expected(inp.spec), cur, last, ObservedAt(inp, c).status.available,
                       ObservedAt(inp, l).status.available, SameLimitsIn(w, c, l));
    GuardBoundsServing(inp.spec, cur, ObservedAt(inp, c), last, ObservedAt(inp, l));
  }

  /** A write to the old deployment comes from the rollout planner, past its guard. */
  lemma RemovalIsPlanned(w: World, inp: Inputs, n: int)
    requires Inv(w) && Find(w).Found? && PlainSpec(inp.spec)
    requires ScalingStep(w, inp).writes == [SetReplicas(Find(w).last, n)]
    ensures var c, l := Find(w).cur, Find(w).last;
            var cur, last := w.deploys[c].replicas, w.deploys[l].replicas;
            && last > 0
            && CanScaleNow(inp.spec, cur, ObservedAt(inp, c), last, ObservedAt(inp, l))
            && PlanForRollout(StepsOf(inp.spec), Expected(inp.spec), cur, last, ObservedAt(inp, c).status.available,
                              ObservedAt(inp, l).status.available, SameLimitsIn(w, c, l)) == Action(Last, n - last)
  {
  }

  // ---- ceiling on desired replicas -----------------------------------------------------------------

  function Total(w: World): int
  {
    (if |w.deploys| > 0 then w.deploys[0].replicas else 0) + (if |w.deploys| > 1 then w.deploys[1].replicas else 0)
  }

  /** Contents whose resource limits all agree. */
  predicate SameLimitsFamily(family: set<Content>)
  {
    forall a, b :: a in family && b in family ==> SameLimits(a.containers, b.containers)
  }

  predicate Within(w: World, family: set<Content>)
  {
    forall i :: 0 <= i < |w.deploys| ==> w.deploys[i].template.content in family
  }

  predicate InputsWithin(inp: Inputs, family: set<Content>)
  {
    inp.rendered in family && inp.created in family && inp.dummy in family
  }

  /** A write that neither lifts the total above the cap nor changes the limits. */
  predicate CappedWrite(w: World, wr: Write, cap: int, family: set<Content>)
  {
    Total(Apply(w, wr)) <= Max(Total(w), cap) && Within(Apply(w, wr), family)
  }

  predicate CappedWrites(w: World, ws: seq<Write>, cap: int, family: set<Content>)
    decreases |ws|
  {
    ws == [] || (CappedWrite(w, ws[0], cap, family) && CappedWrites(Apply(w, ws[0]), ws[1..], cap, family))
  }

  lemma {:induction false} CappedPrefix(w: World, ws: seq<Write>, n: nat, cap: int, family: set<Content>)
    requires CappedWrites(w, ws, cap, family) && n <= |ws| && Within(w, family)
    ensures Total(ApplyAll(w, ws[..n])) <= Max(Total(w), cap) && Within(ApplyAll(w, ws[..n]), family)
    decreases n
  {
    if n == 0 {
      assert ws[..0] == [];
    } else {
      CappedPrefix(Apply(w, ws[0]), ws[1..], n - 1, cap, family);
      assert ws[..n][1..] == ws[1..][..n - 1];
    }
  }

  lemma {:induction false} CappedConcat(w: World, a: seq<Write>, b: seq<Write>, cap: int,
                                        family: set<Content>)
    requires CappedWrites(w, a, cap, family) && CappedWrites(ApplyAll(w, a), b, cap, family)
    ensures CappedWrites(w, a + b, cap, family)
    decreases |a|
  {
    if a == [] {
      assert a + b == b;
    } else {
      CappedConcat(Apply(w, a[0]), a[1..], b, cap, family);
      assert (a + b)[1..] == a[1..] + b;
    }
  }

  lemma CappedSingle(w: World, wr: Write, cap: int, family: set<Content>)
    requires CappedWrite(w, wr, cap, family)
    ensures CappedWrites(w, [wr], cap, family)
  {
    assert [wr][1..] == [];
  }

  /** Writes other than a raise of replicas cannot lift the total. */
  lemma HarmlessWrite(w: World, wr: Write, cap: int, family: set<Content>)
    requires Inv(w) && Within(w, family)
    requires wr.Create? ==> wr.deploy.replicas == 0 && wr.deploy.template.content in family
    requires wr.SetTemplate? ==> wr.template.content in family
    requires wr.SetReplicas? ==> wr.i < |w.deploys| && wr.replicas <= w.deploys[wr.i].replicas
    ensures CappedWrite(w, wr, cap, family)
  {
  }

  /** What a static spec's planner may ask for, in numbers alone. */
  lemma PlainPlan(steps: Steps, e: int, cur: int, last: int, ca: int, la: int, same: bool)
    requires e >= 0 && cur >= 0 && last >= 0 && steps.surge >= 0 && steps.unavailable >= 0
    ensures var a := if last > 0 then PlanForRollout(steps, e, cur, last, ca, la, same) else PlanForNormalState(e, cur);
            && (a.target == Last ==> -last <= a.change < 0)
            && (a.target == Current && a.change > 0 && (last == 0 || same || steps.surge == 0) ==>
                  cur + a.change + last <= e + steps.surge)
            && (a.target == Current && a.change < 0 ==> last == 0 && cur + a.change >= e)
  {
  }

  /** The one write of a scaling step, described by its numbers. */
  lemma PlainScaling(w: World, inp: Inputs) returns (i: nat, n: int)
    requires Inv(w) && PlainSpec(inp.spec) && ScalingStep(w, inp).writes != []
    ensures Find(w).Found? && ScalingStep(w, inp).writes == [SetReplicas(i, n)] && i < 2 && n >= 0
    ensures var c, l := Find(w).cur, Find(w).last;
            var cur, last := w.deploys[c].replicas, w.deploys[l].replicas;
            var e, surge := Expected(inp.spec), StepsOf(inp.spec).surge;
            && (i == l ==> n < last)
            && (i == c && n > cur && (last == 0 || surge == 0 || SameLimitsIn(w, c, l)) ==> n + last <= e + surge)
            && (i == c && n < cur ==> last == 0 && n >= e)
  {
    var c, l := Find(w).cur, Find(w).last;
    StepsInRange(StrategyOf(inp.spec), Expected(inp.spec));
    PlainPlan(StepsOf(inp.spec), Expected(inp.spec), w.deploys[c].replicas, w.deploys[l].replicas,
              ObservedAt(inp, c).status.available, ObservedAt(inp, l).status.available, SameLimitsIn(w, c, l));
    i, n := ScalingStep(w, inp).writes[0].i, ScalingStep(w, inp).writes[0].replicas;
  }

  lemma ReplicaWriteCapped(w: World, i: nat, n: int, cap: int, family: set<Content>)
    requires Inv(w) && Within(w, family) && |w.deploys| == 2 && i < 2 && n >= 0
    requires n <= w.deploys[i].replicas || n + w.deploys[1 - i].replicas <= cap
    ensures CappedWrites(w, [SetReplicas(i, n)], cap, family)
  {
    CappedSingle(w, SetReplicas(i, n), cap, family);
  }

  lemma ScalingCapped(w: World, inp: Inputs, family: set<Content>)
    requires SameLimitsFamily(family)
    requires Inv(w) && PlainSpec(inp.spec) && Within(w, family)
    ensures CappedWrites(w, ScalingStep(w, inp).writes, Expected(inp.spec) + StepsOf(inp.spec).surge, family)
  {
    if ScalingStep(w, inp).writes != [] {
      var i, n := PlainScaling(w, inp);
      assert w.deploys[0].template.content in family && w.deploys[1].template.content in family;
      ReplicaWriteCapped(w, i, n, Expected(inp.spec) + StepsOf(inp.spec).surge, family);
    }
  }

  lemma PrepareCapped(w: World, i: nat, rendered: Content, cap: int, family: set<Content>)
    requires Inv(w) && Within(w, family) && i < |w.deploys| && rendered in family
    requires SafeWrites(w, PrepareNewRollout(w, i, rendered))
    ensures CappedWrites(w, PrepareNewRollout(w, i, rendered), cap, family)
  {
    var ws := PrepareNewRollout(w, i, rendered);
    HarmlessWrite(w, ws[0], cap, family);
    SafeWriteKeepsInv(w, ws[0]);
    var u := Apply(w, ws[0]);
    HarmlessWrite(u, ws[1], cap, family);
    CappedSingle(w, ws[0], cap, family);
    ApplyOne(w, ws[0]);
    CappedSingle(u, ws[1], cap, family);
    ApplyOne(u, ws[1]);
    CappedConcat(w, [ws[0]], [ws[1]], cap, family);
    assert ws == [ws[0]] + [ws[1]];
  }

  lemma RollingCapped(w: World, inp: Inputs, cap: int, family: set<Content>)
    requires Inv(w) && Within(w, family) && InputsWithin(inp, family)
    ensures CappedWrites(w, RollingStep(w, inp).writes, cap, family)
  {
    RollingStepSafe(w, inp);
    if Find(w).Found? {
      var c, l := Find(w).cur, Find(w).last;
      if ShouldRollback(w.deploys[c], w.deploys[l], inp.rendered) {
        PrepareCapped(w, l, inp.rendered, cap, family);
      } else if w.rolling {
        HarmlessWrite(w, MarkMilvus(w.currentGroup, false), cap, family);
        CappedSingle(w, MarkMilvus(w.currentGroup, false), cap, family);
        ApplyOne(w, MarkMilvus(w.currentGroup, false));
      } else if w.deploys[c].template.content != inp.rendered {
        PrepareCapped(w, if w.deploys[c].replicas > 0 then l else c, inp.rendered, cap, family);
      }
    }
  }

  lemma StopCapped(w: World, cap: int, family: set<Content>)
    requires Inv(w) && Within(w, family)
    ensures CappedWrites(w, StopStep(w).writes, cap, family)
  {
    StopStepSafe(w);
    StopOnlyLowers(w, StopStep(w).writes, cap, family);
  }

  /** A safe list of writes that only zeroes replicas or moves markers stays under any cap. */
  lemma {:induction false} StopOnlyLowers(w: World, ws: seq<Write>, cap: int, family: set<Content>)
    requires Inv(w) && Within(w, family) && SafeWrites(w, ws)
    requires forall k :: 0 <= k < |ws| ==> ws[k].MarkMilvus? || (ws[k].SetReplicas? && ws[k].replicas == 0)
    ensures CappedWrites(w, ws, cap, family)
    decreases |ws|
  {
    if ws != [] {
      HarmlessWrite(w, ws[0], cap, family);
      SafeWriteKeepsInv(w, ws[0]);
      StopOnlyLowers(Apply(w, ws[0]), ws[1..], cap, family);
    }
  }

  lemma WorkCapped(w: World, inp: Inputs, family: set<Content>)
    requires SameLimitsFamily(family)
    requires Inv(w) && PlainSpec(inp.spec) && Within(w, family) && InputsWithin(inp, family)
    ensures CappedWrites(w, WorkStep(w, inp).writes, Expected(inp.spec) + StepsOf(inp.spec).surge, family)
  {
    hide StepsOf, Within, Inv, PlanIn, CanScaleNow;
    var cap := Expected(inp.spec) + StepsOf(inp.spec).surge;
    if inp.spec.paused {
    } else if MustStop(inp.spec) {
      StopCapped(w, cap, family);
    } else {
      var r, s := RollingStep(w, inp), ScalingStep(w, inp);
      if r.stop {
        RollingCapped(w, inp, cap, family);
      } else {
        ScalingCapped(w, inp, family);
        assert r.writes + s.writes == s.writes;
      }
    }
  }

  lemma CreateCapped(w: World, inp: Inputs, cap: int, family: set<Content>)
    requires Inv(w) && Within(w, family) && InputsWithin(inp, family)
    ensures CappedWrites(w, CreateStep(w, inp).writes, cap, family)
  {
    var ws := CreateStep(w, inp).writes;
    if ws != [] {
      HarmlessWrite(w, ws[0], cap, family);
      CappedSingle(w, ws[0], cap, family);
      ApplyOne(w, ws[0]);
      assert ws == [ws[0]];
    }
  }

  lemma ReconcileCapped(w: World, inp: Inputs, family: set<Content>)
    requires SameLimitsFamily(family)
    requires Inv(w) && PlainSpec(inp.spec) && Within(w, family) && InputsWithin(inp, family)
    ensures CappedWrites(w, ReconcileWrites(w, inp), Expected(inp.spec) + StepsOf(inp.spec).surge, family)
  {
    hide WorkStep, CreateStep, StepsOf, CappedWrites, SafeWrites, Within, Inv;
    var cap := Expected(inp.spec) + StepsOf(inp.spec).surge;
    var made := CreateStep(w, inp);
    CreateCapped(w, inp, cap, family);
    if !made.stop {
      CreateStepSafe(w, inp);
      SafePrefixKeepsInv(w, made.writes, |made.writes|);
      CappedPrefix(w, made.writes, |made.writes|, cap, family);
      assert made.writes[..|made.writes|] == made.writes;
      WorkCapped(ApplyAll(w, made.writes), inp, family);
      CappedConcat(w, made.writes, WorkStep(ApplyAll(w, made.writes), inp).writes, cap, family);
    }
  }

  /**
   Ceiling on desired replicas: over any run at one fixed spec, through new rollouts, rollbacks and
   crashes, the two deployments together never want more than max(initial, expected + surge).
   */
  lemma {:induction false} ReplicaCeiling(w: World, events: seq<Event>, spec: ComponentSpec,
                                          family: set<Content>)
    requires SameLimitsFamily(family)
    requires Inv(w) && PlainSpec(spec) && Within(w, family)
    requires forall e :: e in events ==> e.inp.spec == spec && InputsWithin(e.inp, family)
    ensures Total(Run(w, events)) <= Max(Total(w), Expected(spec) + StepsOf(spec).surge)
    ensures Within(Run(w, events), family)
    decreases |events|
  {
    hide StepsOf, Inv, SameLimitsFamily, ReconcileWrites;
    if events != [] {
      var before, e := events[..|events| - 1], events[|events| - 1];
      assert e in events;
      ReplicaCeiling(w, before, spec, family);
      EveryRunIsSafe(w, before);
      var u := Run(w, before);
      var ws := ReconcileWrites(u, e.inp);
      ReconcileCapped(u, e.inp, family);
      var n := if e.cut < |ws| then e.cut else |ws|;
      CappedPrefix(u, ws, n, Expected(spec) + StepsOf(spec).surge, family);
      assert Cut(ws, e.cut) == ws[..n];
    }
  }

  // ---- keeping the old capacity ----------------------------------------------------------------------

  /** Once the old deployment is below its starting size, the current one has at least `floor` replicas. */
  predicate Retained(w: World, start: int, floor: int)
  {
    Find(w).Found? ==>
      && w.deploys[Find(w).last].replicas <= start
      && (w.deploys[Find(w).last].replicas < start ==> w.deploys[Find(w).cur].replicas >= floor)
  }

  /** While the old deployment still has replicas the floor is max(expected, start); after that, expected. */
  predicate RetainedThroughLimits(w: World, start: int, expected: int)
  {
    Find(w).Found? ==>
      && w.deploys[Find(w).last].replicas <= start
      && (0 < w.deploys[Find(w).last].replicas < start ==> w.deploys[Find(w).cur].replicas >= Max(expected, start))
      && (w.deploys[Find(w).last].replicas < start ==> w.deploys[Find(w).cur].replicas >= expected)
  }

  /** A cut reconcile that does not switch groups changes replicas only through the planner. */
  lemma SameGroupStep(w: World, e: Event)
    requires Inv(w) && Find(w).Found? && !MustStop(e.inp.spec)
    requires Step(w, e).currentGroup == w.currentGroup
    ensures Find(Step(w, e)) == Find(w)
    ensures forall i :: 0 <= i < 2 ==>
              || Step(w, e).deploys[i].replicas == w.deploys[i].replicas
              || Step(w, e) == ApplyAll(w, ScalingStep(w, e.inp).writes)
  {
    hide RollingStep, ScalingStep, ApplyAll;
    StepIsWork(w, e);
    var r := RollingStep(w, e.inp);
    if e.inp.spec.paused {
      NothingApplied(w);
    } else if r.stop {
      RollingWrites(w, e);
      NoReplicaWrites(w, Cut(r.writes, e.cut));
    } else {
      ScalingWrites(w, e);
      assert r.writes + ScalingStep(w, e.inp).writes == ScalingStep(w, e.inp).writes;
      NothingApplied(w);
    }
  }

  lemma NothingApplied(w: World)
    ensures ApplyAll(w, []) == w
  {
  }

  lemma StepIsWork(w: World, e: Event)
    requires Find(w).Found?
    ensures Step(w, e) == ApplyAll(w, Cut(WorkStep(w, e.inp).writes, e.cut))
  {
    hide WorkStep;
    assert CreateStep(w, e.inp) == Outcome([], false) && ApplyAll(w, []) == w;
    assert [] + WorkStep(w, e.inp).writes == WorkStep(w, e.inp).writes;
  }

  lemma RollingWrites(w: World, e: Event)
    requires Find(w).Found?
    ensures forall k :: 0 <= k < |Cut(RollingStep(w, e.inp).writes, e.cut)| ==>
              var wr := Cut(RollingStep(w, e.inp).writes, e.cut)[k]; wr.MarkMilvus? || wr.SetTemplate?
    ensures !RollingStep(w, e.inp).stop ==> RollingStep(w, e.inp).writes == []
  {
    hide RolloutFinished, ShouldRollback;
  }

  lemma ScalingWrites(w: World, e: Event)
    requires Find(w).Found?
    ensures var s := ScalingStep(w, e.inp).writes;
            && (Cut(s, e.cut) == s || Cut(s, e.cut) == [])
            && Find(ApplyAll(w, s)) == Find(w) && |ApplyAll(w, s).deploys| == |w.deploys|
    ensures !RollingStep(w, e.inp).stop ==> RollingStep(w, e.inp).writes == []
  {
    hide PlanIn, CanScaleNow, RolloutFinished, ShouldRollback;
    var s := ScalingStep(w, e.inp).writes;
    if s != [] {
      ReplicaWriteShape(w, s[0]);
      ApplyOne(w, s[0]);
      assert s == [s[0]];
    }
  }

  lemma ReplicaWriteShape(w: World, wr: Write)
    requires wr.SetReplicas?
    ensures |Apply(w, wr).deploys| == |w.deploys|
    ensures Apply(w, wr).currentGroup == w.currentGroup && Apply(w, wr).rolling == w.rolling
    ensures forall i :: 0 <= i < |w.deploys| ==> Apply(w, wr).deploys[i].group == w.deploys[i].group
  {
  }

  lemma {:induction false} NoReplicaWrites(w: World, ws: seq<Write>)
    requires |w.deploys| == 2
    requires forall k :: 0 <= k < |ws| ==> ws[k].MarkMilvus? || ws[k].SetTemplate?
    ensures var v := ApplyAll(w, ws);
            |v.deploys| == 2 && forall i :: 0 <= i < 2 ==> v.deploys[i].replicas == w.deploys[i].replicas
                                                           && v.deploys[i].group == w.deploys[i].group
    decreases |ws|
  {
    if ws != [] { NoReplicaWrites(Apply(w, ws[0]), ws[1..]); }
  }

  /** An autoscaler of the operator's own, or an external one announced by negative replicas. */
  predicate Autoscaled(spec: ComponentSpec) { !spec.force && (spec.hpa.Some? || Expected(spec) < 0) && !MustStop(spec) }

  /** What must stand before the old deployment may shrink from its starting size. */
  function OldFloor(spec: ComponentSpec, start: int): int
  {
    if spec.hpa.Some? then Max(MinReplicas(spec), start) else start
  }

  /** The effect of one uncut scaling step on the two counts. */
  lemma ScalingEffect(w: World, inp: Inputs)
    requires Inv(w) && Find(w).Found?
    ensures var c, l := Find(w).cur, Find(w).last;
            var v := ApplyAll(w, ScalingStep(w, inp).writes);
            var a := PlanIn(w, inp, c, l);
            Find(v) == Find(w) &&
            (v == w ||
             (a.target == Current && v.deploys[l].replicas == w.deploys[l].replicas
              && v.deploys[c].replicas == w.deploys[c].replicas + a.change) ||
             (a.target == Last && v.deploys[c].replicas == w.deploys[c].replicas
              && v.deploys[l].replicas == w.deploys[l].replicas + a.change))
  {
    hide PlanIn, CanScaleNow;
    var s := ScalingStep(w, inp).writes;
    if s != [] {
      ReplicaWriteShape(w, s[0]);
      ApplyOne(w, s[0]);
      assert s == [s[0]];
    }
  }

  /** The planner's part: the old deployment shrinks only once the current one has the floor, and never grows. */
  lemma AutoscaledPlan(spec: ComponentSpec, rolling: bool, cur: int, c: Observation, last: int, l: Observation, same: bool,
                       start: int)
    requires Autoscaled(spec) && cur >= 0 && 0 <= last <= start && (last < start ==> cur >= OldFloor(spec, start))
    ensures var a := PlanNextScaleAction(spec, rolling, cur, c, last, l, same);
            && (a.target == Current ==> last < start ==> cur + a.change >= OldFloor(spec, start))
            && (a.target == Last ==> last + a.change <= start && cur >= OldFloor(spec, start))
  {
  }

  lemma HpaStepRetains(w: World, e: Event, start: int)
    requires Inv(w) && Autoscaled(e.inp.spec) && Find(w).Found?
    requires Step(w, e).currentGroup == w.currentGroup
    requires Retained(w, start, OldFloor(e.inp.spec, start))
    ensures Find(Step(w, e)).Found? && Retained(Step(w, e), start, OldFloor(e.inp.spec, start))
  {
    var c, l := Find(w).cur, Find(w).last;
    assert w.deploys[c].replicas >= 0 && w.deploys[l].replicas >= 0 && !MustStop(e.inp.spec);
    hide Step, ScalingStep, ApplyAll, Inv, PlanNextScaleAction, Autoscaled, OldFloor, Find, SameLimitsIn;
    SameGroupStep(w, e);
    ScalingEffect(w, e.inp);
    AutoscaledPlan(e.inp.spec, w.rolling, w.deploys[c].replicas, ObservedAt(e.inp, c), w.deploys[l].replicas,
                   ObservedAt(e.inp, l), SameLimitsIn(w, c, l), start);
  }

  /** The run stays in one rollout: no reconcile switches the current group. */
  predicate OneRollout(w: World, events: seq<Event>)
  {
    forall k :: 0 <= k <= |events| ==> Run(w, events[..k]).currentGroup == w.currentGroup
  }

  lemma OneRolloutPrefix(w: World, events: seq<Event>)
    requires OneRollout(w, events) && events != []
    ensures OneRollout(w, events[..|events| - 1])
    ensures Run(w, events[..|events| - 1]).currentGroup == w.currentGroup == Run(w, events).currentGroup
  {
    var before := events[..|events| - 1];
    forall k | 0 <= k <= |before|
      ensures Run(w, before[..k]).currentGroup == w.currentGroup
    {
      assert before[..k] == events[..k];
    }
    assert events[..|events|] == events;
  }

  /**
   Under an autoscaler the old capacity is never lost: starting from `start` old replicas, whenever
   the old deployment is smaller, the current one has max(minReplicas, start) or more, or `start`
   or more if the autoscaler is external.
   */
  lemma {:induction false} HpaKeepsOldCapacity(w: World, events: seq<Event>, spec: ComponentSpec, start: int)
    requires Inv(w) && Autoscaled(spec) && Find(w).Found? && w.deploys[Find(w).last].replicas == start
    requires forall e :: e in events ==> e.inp.spec == spec
    requires OneRollout(w, events)
    ensures Find(Run(w, events)).Found? && Retained(Run(w, events), start, OldFloor(spec, start))
    decreases |events|
  {
    if events != [] {
      var e := events[|events| - 1];
      assert e in events;
      OneRolloutPrefix(w, events);
      HpaKeepsOldCapacity(w, events[..|events| - 1], spec, start);
      EveryRunIsSafe(w, events[..|events| - 1]);
      HpaStepRetains(Run(w, events[..|events| - 1]), e, start);
    }
  }

  lemma LimitsStepRetains(w: World, e: Event, start: int)
    requires Inv(w) && PlainSpec(e.inp.spec) && StepsOf(e.inp.spec).surge > 0 && !MustStop(e.inp.spec)
    requires Find(w).Found? && !SameLimitsIn(w, Find(w).cur, Find(w).last)
    requires Step(w, e).currentGroup == w.currentGroup
    requires RetainedThroughLimits(w, start, Expected(e.inp.spec))
    ensures Find(Step(w, e)).Found? && RetainedThroughLimits(Step(w, e), start, Expected(e.inp.spec))
  {
    hide Step, ScalingStep, ApplyAll, Inv, CanScaleNow;
    SameGroupStep(w, e);
    ScalingEffect(w, e.inp);
  }

  /** The same with changed resource limits and a surge: kept at max(expected, start) until the old deployment is empty. */
  lemma {:induction false} ChangedLimitsKeepOldCapacity(w: World, events: seq<Event>, spec: ComponentSpec, start: int)
    requires Inv(w) && PlainSpec(spec) && StepsOf(spec).surge > 0 && !MustStop(spec)
    requires Find(w).Found? && w.deploys[Find(w).last].replicas == start
    requires forall e :: e in events ==> e.inp.spec == spec
    requires OneRollout(w, events)
    requires forall k :: 0 <= k < |events| && Find(Run(w, events[..k])).Found? ==>
                           var u := Run(w, events[..k]); !SameLimitsIn(u, Find(u).cur, Find(u).last)
    ensures Find(Run(w, events)).Found? && RetainedThroughLimits(Run(w, events), start, Expected(spec))
    decreases |events|
  {
    hide StepsOf, Inv, OneRollout, SameLimitsIn;
    if events != [] {
      var before, e := events[..|events| - 1], events[|events| - 1];
      assert e in events;
      OneRolloutPrefix(w, events);
      assert forall k :: 0 <= k < |before| ==> before[..k] == events[..k];
      ChangedLimitsKeepOldCapacity(w, before, spec, start);
      EveryRunIsSafe(w, before);
      LimitsStepRetains(Run(w, before), e, start);
    }
  }

  /** If the old deployment was no larger than expected, the floor max(expected, start) holds for good. */
  lemma FloorHoldsForGood(w: World, events: seq<Event>, spec: ComponentSpec, start: int)
    requires Inv(w) && PlainSpec(spec) && StepsOf(spec).surge > 0 && !MustStop(spec)
    requires Find(w).Found? && w.deploys[Find(w).last].replicas == start && start <= Expected(spec)
    requires forall e :: e in events ==> e.inp.spec == spec
    requires OneRollout(w, events)
    requires forall k :: 0 <= k < |events| && Find(Run(w, events[..k])).Found? ==>
                           var u := Run(w, events[..k]); !SameLimitsIn(u, Find(u).cur, Find(u).last)
    ensures Find(Run(w, events)).Found? && Retained(Run(w, events), start, Max(Expected(spec), start))
  {
    hide StepsOf, Inv, OneRollout, SameLimitsIn, Run;
    ChangedLimitsKeepOldCapacity(w, events, spec, start);
  }

  /** A reconcile that finds its template in place and nothing to wait for. */
  function Idle(w: World, spec: ComponentSpec): Event
    requires Find(w).Found?
  {
    var content := w.deploys[Find(w).cur].template.content;
    Event(Inputs(spec, content, content, content, []), 1)
  }

  /** With the old deployment empty, a surplus replica is released. */
  lemma ReleaseOne(w: World, spec: ComponentSpec)
    requires Inv(w) && PlainSpec(spec) && !MustStop(spec) && !spec.paused && Find(w).Found?
    requires w.deploys[Find(w).last].replicas == 0 && w.deploys[Find(w).cur].replicas > Expected(spec)
    ensures var v := Step(w, Idle(w, spec));
            && Find(v) == Find(w) && v.currentGroup == w.currentGroup && v.deploys[Find(w).last].replicas == 0
            && v.deploys[Find(w).cur].replicas == w.deploys[Find(w).cur].replicas - 1
  {
    var cur, e := Find(w).cur, Idle(w, spec);
    assert Expected(spec) >= 0;
    hide WorkStep, Step, ApplyAll, Apply, Inv, Find, Idle, PlainSpec, MustStop;
    ReleaseWork(w, spec);
    StepIsWork(w, e);
    IdleCut(w, spec);
    var n := w.deploys[cur].replicas - 1;
    ReplicaWriteShape(w, SetReplicas(cur, n));
    ApplyOne(w, SetReplicas(cur, n));
    ReplicaWriteFind(w, cur, n);
    assert Cut([SetReplicas(cur, n)], 1) == [SetReplicas(cur, n)];
  }

  lemma ReplicaWriteFind(w: World, i: nat, n: nat)
    requires Find(w).Found? && i < 2
    ensures var v := Apply(w, SetReplicas(i, n));
            && Find(v) == Find(w) && v.currentGroup == w.currentGroup
            && forall k :: 0 <= k < 2 ==> v.deploys[k].replicas == if k == i then n else w.deploys[k].replicas
  {
  }

  lemma IdleCut(w: World, spec: ComponentSpec)
    requires Find(w).Found?
    ensures Idle(w, spec).cut == 1
  {
  }

  lemma ReleaseWork(w: World, spec: ComponentSpec)
    requires Inv(w) && PlainSpec(spec) && !MustStop(spec) && !spec.paused && Find(w).Found?
    requires w.deploys[Find(w).last].replicas == 0 && w.deploys[Find(w).cur].replicas > Expected(spec)
    ensures WorkStep(w, Idle(w, spec).inp).writes
            == [SetReplicas(Find(w).cur, w.deploys[Find(w).cur].replicas - 1)]
  {
    ReleasePlan(w, spec);
    hide ScalingStep, MustStop, Inv;
    var inp := Idle(w, spec).inp;
    assert RollingStep(w, inp) == Outcome([], false);
    assert [] + ScalingStep(w, inp).writes == ScalingStep(w, inp).writes;
  }

  lemma ReleasePlan(w: World, spec: ComponentSpec)
    requires Inv(w) && PlainSpec(spec) && Find(w).Found?
    requires w.deploys[Find(w).last].replicas == 0 && w.deploys[Find(w).cur].replicas > Expected(spec)
    ensures ScalingStep(w, Idle(w, spec).inp).writes
            == [SetReplicas(Find(w).cur, w.deploys[Find(w).cur].replicas - 1)]
  {
    hide StepsOf, Inv;
    var cur, last, e := Find(w).cur, Find(w).last, Idle(w, spec);
    assert PlanIn(w, e.inp, cur, last) == Action(Current, -1);
  }

  lemma {:induction false} ReleaseMany(w: World, spec: ComponentSpec, n: nat) returns (events: seq<Event>)
    requires Inv(w) && PlainSpec(spec) && !MustStop(spec) && !spec.paused && Find(w).Found?
    requires w.deploys[Find(w).last].replicas == 0 && w.deploys[Find(w).cur].replicas >= Expected(spec) + n
    ensures |events| == n && (forall e :: e in events ==> e.inp.spec == spec) && OneRollout(w, events)
    ensures var v := Run(w, events);
            && Find(v) == Find(w) && v.deploys[Find(w).last].replicas == 0
            && v.deploys[Find(w).cur].replicas == w.deploys[Find(w).cur].replicas - n
  {
    hide Inv, Find, Step, OneRollout, MustStop, PlainSpec, Expected;
    events := [];
    if n == 0 {
      NoEvents(w);
    } else {
      var before := ReleaseMany(w, spec, n - 1);
      var v := Run(w, before);
      EveryRunIsSafe(w, before);
      SameGroupAtEnd(w, before);
      ReleaseOne(v, spec);
      events := before + [Idle(v, spec)];
      assert events[..|events| - 1] == before;
      OneRolloutSnoc(w, events);
    }
  }

  lemma NoEvents(w: World)
    ensures Run(w, []) == w && OneRollout(w, [])
  {
  }

  lemma SameGroupAtEnd(w: World, events: seq<Event>)
    requires OneRollout(w, events)
    ensures Run(w, events).currentGroup == w.currentGroup
  {
    hide Run;
    assert events[..|events|] == events;
  }

  lemma OneRolloutSnoc(w: World, events: seq<Event>)
    requires events != [] && OneRollout(w, events[..|events| - 1]) && Run(w, events).currentGroup == w.currentGroup
    ensures OneRollout(w, events)
  {
    hide Run;
    var before := events[..|events| - 1];
    forall k | 0 <= k <= |events|
      ensures Run(w, events[..k]).currentGroup == w.currentGroup
    {
      if k == |events| { assert events[..k] == events; } else { assert events[..k] == before[..k]; }
    }
  }

  /**
   If it was larger, the floor cannot stay: once the old deployment is empty there is a run, within
   the same rollout, that takes the current one down to the expected count, below max(expected, start).
   */
  lemma SurplusIsReleased(w: World, spec: ComponentSpec, start: int) returns (events: seq<Event>)
    requires Inv(w) && PlainSpec(spec) && !MustStop(spec) && !spec.paused && Find(w).Found? && start > Expected(spec)
    requires w.deploys[Find(w).last].replicas == 0 && w.deploys[Find(w).cur].replicas >= start
    ensures (forall e :: e in events ==> e.inp.spec == spec) && OneRollout(w, events)
    ensures Find(Run(w, events)) == Find(w) && !Retained(Run(w, events), start, Max(Expected(spec), start))
    ensures Run(w, events).deploys[Find(w).cur].replicas == Expected(spec)
  {
    events := ReleaseMany(w, spec, w.deploys[Find(w).cur].replicas - Expected(spec));
  }
}
