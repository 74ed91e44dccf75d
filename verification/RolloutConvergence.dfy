/**
 Liveness of the rollout controller: with a static replica count, an admitted policy, a fixed
 desired template and a cluster that settles between reconciles, every invariant world, in
 particular one left by a crash between the two writes of a new rollout, reaches the goal.
 */
module RolloutConvergence {
  import opened Common
  import opened RollingPolicy
  import opened Workloads
  import opened ScalePlanner
  import opened RolloutController
  import opened RolloutSafety

  /** A spec with at least one static replica and a policy that admission accepts. */
  predicate StaticSpec(spec: ComponentSpec)
  {
    && Expected(spec) >= 1 && spec.hpa == None && !spec.force && !spec.paused
    && PolicyErrors(MergedPolicy(spec.global, spec.component)) == []
  }

  function ReplicasAt(w: World, i: nat): int { if i < |w.deploys| then w.deploys[i].replicas else 0 }

  /** Status and pods have caught up with the spec of Deployment i, and its pods report ready. */
  predicate SettledAt(w: World, inp: Inputs, i: nat)
  {
    && IsStable(ReplicasAt(w, i), ObservedAt(inp, i))
    && forall p :: p in NotEvicted(ObservedAt(inp, i).labelled) ==> StrictlyReady(p)
  }

  predicate Settled(w: World, inp: Inputs, spec: ComponentSpec, desired: Content)
  {
    inp.spec == spec && inp.rendered == desired && SettledAt(w, inp, 0) && SettledAt(w, inp, 1)
  }

  predicate Goal(w: World, spec: ComponentSpec, desired: Content)
  {
    && Find(w).Found? && !w.rolling
    && w.deploys[Find(w).cur].template.content == desired
    && w.deploys[Find(w).cur].replicas == Expected(spec)
    && w.deploys[Find(w).last].replicas == 0
  }

  function Next(w: World, inp: Inputs): World { ApplyAll(w, ReconcileWrites(w, inp)) }

  // ---- the rank --------------------------------------------------------------------------------

  /** Lexicographic: setup left, group switch left, old replicas, shortfall, rolling label, distance to the target. */
  datatype Rank = Rank(setup: nat, offTarget: nat, last: nat, deficit: nat, rolling: nat, distance: nat)

  predicate Below(a: Rank, b: Rank)
  {
    || a.setup < b.setup
    || (a.setup == b.setup && (
        || a.offTarget < b.offTarget
        || (a.offTarget == b.offTarget && (
            || a.last < b.last
            || (a.last == b.last && (
                || a.deficit < b.deficit
                || (a.deficit == b.deficit && (
                    || a.rolling < b.rolling
                    || (a.rolling == b.rolling && a.distance < b.distance)))))))))
  }

  function RankOf(w: World, spec: ComponentSpec, desired: Content): Rank
    requires Inv(w)
  {
    if Find(w).Found? then
      var c, l := w.deploys[Find(w).cur], w.deploys[Find(w).last];
      var e := Expected(spec);
      Rank(0, if c.template.content == desired then 0 else 1, l.replicas,
           Max(0, Max(l.replicas, e) - c.replicas), if w.rolling then 1 else 0,
           if c.replicas >= e then c.replicas - e else e - c.replicas)
    else Rank(if |w.deploys| > 0 then 1 else if w.currentGroup == "0" then 2 else 3, 0, 0, 0, 0, 0)
  }

  lemma TwoAreFound(w: World)
    requires Inv(w)
    ensures Find(w).Found? <==> |w.deploys| == 2
    ensures |w.deploys| == 1 ==> Find(w) == NoLast
  {
    if |w.deploys| > 0 {
      var i :| 0 <= i < |w.deploys| && w.deploys[i].group == w.currentGroup;
      assert i == 0 || i == 1;
    }
  }

  // ---- settled clusters pass every guard ---------------------------------------------------------

  lemma {:induction false} AllStrictlyReady(pods: seq<Pod>)
    requires forall p :: p in pods ==> StrictlyReady(p)
    ensures StrictlyReadyCount(pods) == |pods|
  {
    if pods != [] {
      assert pods[|pods| - 1] in pods;
      AllStrictlyReady(pods[..|pods| - 1]);
    }
  }

  lemma SettledCanScale(w: World, inp: Inputs, spec: ComponentSpec, desired: Content, c: nat, l: nat)
    requires Settled(w, inp, spec, desired) && |w.deploys| == 2 && c < 2 && l == 1 - c
    ensures CanScaleNow(spec, w.deploys[c].replicas, ObservedAt(inp, c), w.deploys[l].replicas, ObservedAt(inp, l))
    ensures ObservedAt(inp, c).status.available == w.deploys[c].replicas
    ensures ObservedAt(inp, l).status.available == w.deploys[l].replicas
  {
    assert SettledAt(w, inp, c) && SettledAt(w, inp, l);
    AllStrictlyReady(NotEvicted(ObservedAt(inp, c).labelled));
  }

  lemma SettledFinishes(w: World, inp: Inputs, spec: ComponentSpec, desired: Content, c: nat, l: nat)
    requires Settled(w, inp, spec, desired) && |w.deploys| == 2 && c < 2 && l == 1 - c && Expected(spec) >= 1
    ensures RolloutFinished(w, inp, c, l) <==>
            Expected(spec) <= w.deploys[c].replicas && w.deploys[l].replicas == 0
  {
    assert SettledAt(w, inp, c) && SettledAt(w, inp, l);
  }

  // ---- every reconcile makes progress --------------------------------------------------------------

  /** The rollout planner always acts: the old deployment shrinks, or the new one grows towards the larger of the two. */
  lemma RolloutPlanProgress(steps: Steps, e: int, cur: int, last: int, same: bool)
    requires e >= 1 && cur >= 0 && last > 0
    requires steps.surge >= 0 && 0 <= steps.unavailable <= e && steps != Steps(0, 0)
    ensures var a := PlanForRollout(steps, e, cur, last, cur, last, same);
            || (a.target == Last && -last <= a.change < 0)
            || (a.target == Current && a.change > 0 && cur < Max(last, e))
  {
  }

  /** Which planner acts on a static spec, and in which direction. */
  lemma PlanProgress(w: World, inp: Inputs, spec: ComponentSpec, desired: Content, c: nat, l: nat)
    requires Inv(w) && StaticSpec(spec) && Settled(w, inp, spec, desired) && Find(w) == Found(c, l)
    requires w.deploys[l].replicas > 0 || w.deploys[c].replicas != Expected(spec)
    ensures var a := PlanIn(w, inp, c, l);
            var e, cur, last := Expected(spec), w.deploys[c].replicas, w.deploys[l].replicas;
            || (a.target == Last && -last <= a.change < 0)
            || (a.target == Current && a.change > 0 && cur < Max(last, e))
            || (a == Action(Current, -1) && last == 0 && cur > e)
  {
    var e, cur, last := Expected(spec), w.deploys[c].replicas, w.deploys[l].replicas;
    SettledCanScale(w, inp, spec, desired, c, l);
    NoAdmittedPolicyStalls(spec.force, spec.useRolling, spec.global, spec.component, e);
    if last > 0 {
      RolloutPlanProgress(StepsOf(spec), e, cur, last, SameLimitsIn(w, c, l));
    }
  }

  lemma ReplicaChangeRank(w: World, i: nat, n: int, spec: ComponentSpec, desired: Content)
    requires Inv(w) && Find(w).Found? && i < 2 && n >= 0 && Inv(Apply(w, SetReplicas(i, n)))
    requires var c, l := Find(w).cur, Find(w).last;
             var e, cur, last := Expected(spec), w.deploys[c].replicas, w.deploys[l].replicas;
             || (i == l && n < last)
             || (i == c && n > cur && cur < Max(last, e))
             || (i == c && n == cur - 1 && last == 0 && cur > e)
    ensures Below(RankOf(Apply(w, SetReplicas(i, n)), spec, desired), RankOf(w, spec, desired))
  {
    assert Find(Apply(w, SetReplicas(i, n))) == Find(w);
  }

  lemma ReplicaWriteProgress(w: World, ws: seq<Write>, i: nat, n: int, spec: ComponentSpec, desired: Content)
    requires Inv(w) && Find(w).Found? && i < 2 && n >= 0 && ws == [SetReplicas(i, n)] && SafeWrites(w, ws)
    requires var c, l := Find(w).cur, Find(w).last;
             var e, cur, last := Expected(spec), w.deploys[c].replicas, w.deploys[l].replicas;
             || (i == l && n < last)
             || (i == c && n > cur && cur < Max(last, e))
             || (i == c && n == cur - 1 && last == 0 && cur > e)
    ensures Inv(ApplyAll(w, ws)) && Below(RankOf(ApplyAll(w, ws), spec, desired), RankOf(w, spec, desired))
  {
    SafeSingle(w, ws[0]);
    ApplyOne(w, ws[0]);
    SafeWriteKeepsInv(w, ws[0]);
    ReplicaChangeRank(w, i, n, spec, desired);
  }

  /** The one replica change a settled cluster is given. */
  lemma ScalingChoice(w: World, inp: Inputs, spec: ComponentSpec, desired: Content) returns (i: nat, n: int)
    requires Inv(w) && StaticSpec(spec) && Settled(w, inp, spec, desired) && Find(w).Found?
    requires w.deploys[Find(w).last].replicas > 0 || w.deploys[Find(w).cur].replicas != Expected(spec)
    ensures i < 2 && n >= 0 && ScalingStep(w, inp).writes == [SetReplicas(i, n)]
    ensures var c, l := Find(w).cur, Find(w).last;
            var e, cur, last := Expected(spec), w.deploys[c].replicas, w.deploys[l].replicas;
            || (i == l && n < last)
            || (i == c && n > cur && cur < Max(last, e))
            || (i == c && n == cur - 1 && last == 0 && cur > e)
  {
    var c, l := Find(w).cur, Find(w).last;
    SettledCanScale(w, inp, spec, desired, c, l);
    PlanProgress(w, inp, spec, desired, c, l);
    var a := PlanIn(w, inp, c, l);
    i := if a.target == Current then c else l;
    n := w.deploys[i].replicas + a.change;
  }

  lemma ScalingProgress(w: World, inp: Inputs, spec: ComponentSpec, desired: Content)
    requires Inv(w) && StaticSpec(spec) && Settled(w, inp, spec, desired) && Find(w).Found?
    requires w.deploys[Find(w).last].replicas > 0 || w.deploys[Find(w).cur].replicas != Expected(spec)
    ensures var v := ApplyAll(w, ScalingStep(w, inp).writes);
            Inv(v) && Below(RankOf(v, spec, desired), RankOf(w, spec, desired))
  {
    var i, n := ScalingChoice(w, inp, spec, desired);
    ScalingStepSafe(w, inp);
    ReplicaWriteProgress(w, ScalingStep(w, inp).writes, i, n, spec, desired);
  }

  lemma {:induction false} NeverShrinks(w: World, ws: seq<Write>)
    ensures |ApplyAll(w, ws).deploys| >= |w.deploys|
    decreases |ws|
  {
    if ws != [] { NeverShrinks(Apply(w, ws[0]), ws[1..]); }
  }

  lemma NextKeepsInv(w: World, inp: Inputs)
    requires Inv(w)
    ensures Inv(Next(w, inp))
  {
    StepKeepsInv(w, Event(inp, |ReconcileWrites(w, inp)|));
  }

  /** The second Deployment is created before anything else happens. */
  lemma SecondSetup(w: World, inp: Inputs)
    requires Inv(w) && |w.deploys| == 1
    ensures |Next(w, inp).deploys| >= 2
  {
    TwoAreFound(w);
    var made := CreateStep(w, inp).writes;
    var u := Apply(w, made[0]);
    assert made == [made[0]] && made[1..] == [] && ApplyAll(w, made) == u;
    assert |u.deploys| == 2;
    var work := WorkStep(u, inp).writes;
    ApplyAllConcat(w, made, work);
    NeverShrinks(u, work);
  }

  lemma FirstSetup(w: World, inp: Inputs)
    requires |w.deploys| == 0
    ensures w.currentGroup == "0" ==> |Next(w, inp).deploys| == 1
    ensures w.currentGroup != "0" ==> Next(w, inp) == w.(currentGroup := "0")
  {
    var made := CreateStep(w, inp).writes;
    var u := Apply(w, made[0]);
    assert made == [made[0]] && made[1..] == [] && ApplyAll(w, made) == u;
    if w.currentGroup == "0" {
      assert u.deploys == [made[0].deploy];
      assert WorkStep(u, inp).writes == [];
      assert ReconcileWrites(w, inp) == made;
    }
  }

  lemma SetupProgress(w: World, inp: Inputs, spec: ComponentSpec, desired: Content)
    requires Inv(w) && !Find(w).Found?
    ensures var v := Next(w, inp);
            Inv(v) && Below(RankOf(v, spec, desired), RankOf(w, spec, desired))
  {
    TwoAreFound(w);
    NextKeepsInv(w, inp);
    TwoAreFound(Next(w, inp));
    if |w.deploys| == 0 { FirstSetup(w, inp); } else { SecondSetup(w, inp); }
  }

  /** Starting a rollout on Deployment i makes it current with the desired template. */
  lemma PrepareResult(w: World, i: nat, desired: Content)
    requires Inv(w) && Find(w).Found? && i < 2
    ensures var v := ApplyAll(w, PrepareNewRollout(w, i, desired));
            Find(v) == Found(i, 1 - i) && v.deploys[i].template.content == desired
  {
    var ws := PrepareNewRollout(w, i, desired);
    var u := Apply(w, ws[0]);
    assert ws[1..][0] == ws[1] && ws[1..][1..] == [];
    assert ApplyAll(w, ws) == ApplyAll(u, ws[1..]) == Apply(u, ws[1]);
  }

  lemma PrepareProgress(w: World, i: nat, spec: ComponentSpec, desired: Content)
    requires Inv(w) && Find(w).Found? && i < 2 && SafeWrites(w, PrepareNewRollout(w, i, desired))
    requires w.deploys[Find(w).cur].template.content != desired
    ensures var v := ApplyAll(w, PrepareNewRollout(w, i, desired));
            Inv(v) && Below(RankOf(v, spec, desired), RankOf(w, spec, desired))
  {
    var ws := PrepareNewRollout(w, i, desired);
    SafePrefixKeepsInv(w, ws, |ws|);
    assert ws[..|ws|] == ws;
    PrepareResult(w, i, desired);
  }

  lemma FinishProgress(w: World, spec: ComponentSpec, desired: Content)
    requires Inv(w) && Find(w).Found? && w.rolling && SafeWrites(w, [MarkMilvus(w.currentGroup, false)])
    ensures var v := ApplyAll(w, [MarkMilvus(w.currentGroup, false)]);
            Inv(v) && Below(RankOf(v, spec, desired), RankOf(w, spec, desired))
  {
    var wr := MarkMilvus(w.currentGroup, false);
    SafeSingle(w, wr);
    ApplyOne(w, wr);
    SafeWriteKeepsInv(w, wr);
    assert Find(Apply(w, wr)) == Find(w);
  }

  lemma RollingProgress(w: World, inp: Inputs, spec: ComponentSpec, desired: Content)
    requires Inv(w) && inp.rendered == desired && Find(w).Found?
    requires RollingStep(w, inp).stop
    ensures var v := ApplyAll(w, RollingStep(w, inp).writes);
            Inv(v) && Below(RankOf(v, spec, desired), RankOf(w, spec, desired))
  {
    var c, l := Find(w).cur, Find(w).last;
    RollingStepSafe(w, inp);
    if ShouldRollback(w.deploys[c], w.deploys[l], desired) {
      PrepareProgress(w, l, spec, desired);
    } else if w.rolling {
      FinishProgress(w, spec, desired);
    } else {
      PrepareProgress(w, if w.deploys[c].replicas > 0 then l else c, spec, desired);
    }
  }

  /** A reconcile of a settled cluster that is not at the goal strictly lowers the rank. */
  lemma ReconcileProgress(w: World, inp: Inputs, spec: ComponentSpec, desired: Content)
    requires Inv(w) && StaticSpec(spec) && Settled(w, inp, spec, desired) && !Goal(w, spec, desired)
    ensures var v := Next(w, inp);
            Inv(v) && Below(RankOf(v, spec, desired), RankOf(w, spec, desired))
  {
    if !Find(w).Found? {
      SetupProgress(w, inp, spec, desired);
    } else {
      var r := RollingStep(w, inp);
      assert CreateStep(w, inp).writes == [] && ApplyAll(w, []) == w;
      assert ReconcileWrites(w, inp) == WorkStep(w, inp).writes;
      if r.stop {
        RollingProgress(w, inp, spec, desired);
      } else {
        SettledFinishes(w, inp, spec, desired, Find(w).cur, Find(w).last);
        assert r.writes == [] && WorkStep(w, inp).writes == ScalingStep(w, inp).writes;
        assert !w.rolling ==> w.deploys[Find(w).last].replicas == 0;
        ScalingProgress(w, inp, spec, desired);
      }
    }
  }

  function Iterate(w: World, step: World -> World, n: nat): World
    decreases n
  {
    if n == 0 then w else Iterate(step(w), step, n - 1)
  }

  ghost predicate Lowers(step: World -> World, u: World, spec: ComponentSpec, desired: Content)
  {
    Inv(u) && !Goal(u, spec, desired) ==>
      Inv(step(u)) && Below(RankOf(step(u), spec, desired), RankOf(u, spec, desired))
  }

  /** A step that lowers the rank of every world short of the goal reaches the goal. */
  lemma {:induction false} Descent(w: World, step: World -> World, spec: ComponentSpec, desired: Content, rank: Rank)
    returns (n: nat)
    requires Inv(w) && rank == RankOf(w, spec, desired)
    requires forall u :: Lowers(step, u, spec, desired)
    ensures Goal(Iterate(w, step, n), spec, desired)
    decreases rank.setup, rank.offTarget, rank.last, rank.deficit, rank.rolling, rank.distance
  {
    hide RankOf, Inv, Goal;
    if Goal(w, spec, desired) {
      return 0;
    }
    assert Lowers(step, w, spec, desired);
    var m := Descent(step(w), step, spec, desired, RankOf(step(w), spec, desired));
    return m + 1;
  }

  /** Convergence: whatever a settled cluster looks like each time, finitely many reconciles reach the goal. */
  lemma Converges(w: World, observe: World -> Inputs, spec: ComponentSpec, desired: Content) returns (n: nat)
    requires Inv(w) && StaticSpec(spec)
    requires forall u :: Inv(u) ==> Settled(u, observe(u), spec, desired)
    ensures Goal(Iterate(w, u => Next(u, observe(u)), n), spec, desired)
  {
    var step := u => Next(u, observe(u));
    forall u
      ensures Lowers(step, u, spec, desired)
    {
      if Inv(u) && !Goal(u, spec, desired) {
        ReconcileProgress(u, observe(u), spec, desired);
      }
    }
    n := Descent(w, step, spec, desired, RankOf(w, spec, desired));
  }

  /** At the goal a settled cluster is left alone. */
  lemma GoalIsQuiet(w: World, inp: Inputs, spec: ComponentSpec, desired: Content)
    requires Inv(w) && StaticSpec(spec) && Settled(w, inp, spec, desired) && Goal(w, spec, desired)
    ensures ReconcileWrites(w, inp) == []
  {
    var c, l := Find(w).cur, Find(w).last;
    SettledCanScale(w, inp, spec, desired, c, l);
    assert PlanIn(w, inp, c, l) == NO_ACTION;
    assert ApplyAll(w, []) == w;
  }

  /** Convergence holds after any run, however often its reconciles were cut short. */
  lemma ConvergesAfterAnyRun(w: World, events: seq<Event>, observe: World -> Inputs, spec: ComponentSpec,
                             desired: Content) returns (n: nat)
    requires Inv(w) && StaticSpec(spec)
    requires forall u :: Inv(u) ==> Settled(u, observe(u), spec, desired)
    ensures Goal(Iterate(Run(w, events), u => Next(u, observe(u)), n), spec, desired)
  {
    EveryRunIsSafe(w, events);
    n := Converges(Run(w, events), observe, spec, desired);
  }

  /** A Deployment of n replicas that reports exactly n ready pods. */
  function SettledObservation(n: nat): Observation
  {
    Observation(1, DeployStatus(1, n, n, n, n, 0), seq(n, _ => READY_POD))
  }

  lemma {:induction false} NoneEvicted(pods: seq<Pod>)
    requires forall p :: p in pods ==> p.reason != "Evicted"
    ensures NotEvicted(pods) == pods
  {
    if pods != [] {
      assert pods[|pods| - 1] in pods;
      NoneEvicted(pods[..|pods| - 1]);
      assert pods == pods[..|pods| - 1] + [pods[|pods| - 1]];
    }
  }

  lemma SettledObservationIsStable(n: nat)
    ensures IsStable(n, SettledObservation(n))
    ensures forall p :: p in NotEvicted(SettledObservation(n).labelled) ==> StrictlyReady(p)
  {
    NoneEvicted(SettledObservation(n).labelled);
  }

  /** The assumption of convergence can always be met. */
  lemma SettledExists(w: World, spec: ComponentSpec, desired: Content) returns (inp: Inputs)
    requires Inv(w)
    ensures Settled(w, inp, spec, desired)
  {
    SettledObservationIsStable(ReplicasAt(w, 0));
    SettledObservationIsStable(ReplicasAt(w, 1));
    inp := Inputs(spec, desired, desired, desired,
                  [SettledObservation(ReplicasAt(w, 0)), SettledObservation(ReplicasAt(w, 1))]);
  }
}
