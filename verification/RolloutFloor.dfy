/** For which rollouts with changed limits the capacity of the old deployment is kept for good. */
module RolloutFloor {
  import opened Common
  import opened Workloads
  import opened ScalePlanner
  import opened RolloutController
  import opened RolloutSafety
  import opened RolloutConvergence
  import opened RolloutCapacity

  /** One rollout at one spec, with different limits throughout. */
  predicate ChangedLimitsRun(w: World, events: seq<Event>, spec: ComponentSpec)
  {
    && (forall e :: e in events ==> e.inp.spec == spec) && OneRollout(w, events)
    && forall k :: 0 <= k < |events| && Find(Run(w, events[..k])).Found? ==>
                     var u := Run(w, events[..k]); !SameLimitsIn(u, Find(u).cur, Find(u).last)
  }

  /** A reconcile of a settled cluster whose template is in place, with every write landing. */
  function Settling(w: World, spec: ComponentSpec, desired: Content): Event
    requires Inv(w)
  {
    var inp := Inputs(spec, desired, desired, desired,
                      [SettledObservation(ReplicasAt(w, 0)), SettledObservation(ReplicasAt(w, 1))]);
    Event(inp, |ReconcileWrites(w, inp)|)
  }

  /** The two deployments with their templates, and which of them is current. */
  predicate SamePair(w: World, v: World)
  {
    && Find(w).Found? && Find(v) == Find(w) && v.currentGroup == w.currentGroup
    && forall i :: 0 <= i < 2 ==> v.deploys[i].template == w.deploys[i].template
  }

  /** It lowers the rank and touches replicas and label only. */
  lemma SettlingStep(w: World, spec: ComponentSpec, desired: Content)
    requires Inv(w) && StaticSpec(spec) && Find(w).Found? && !Goal(w, spec, desired)
    requires w.deploys[Find(w).cur].template.content == desired
    ensures var v := Step(w, Settling(w, spec, desired));
            Inv(v) && SamePair(w, v) && Below(RankOf(v, spec, desired), RankOf(w, spec, desired))
  {
    var e := Settling(w, spec, desired);
    SettledObservationIsStable(ReplicasAt(w, 0));
    SettledObservationIsStable(ReplicasAt(w, 1));
    assert Settled(w, e.inp, spec, desired);
    ReconcileProgress(w, e.inp, spec, desired);
    assert Step(w, e) == Next(w, e.inp);
    StepKeepsInv(w, e);
    PairKept(w, e, desired);
  }

  lemma PairKept(w: World, e: Event, desired: Content)
    requires Inv(w) && Find(w).Found? && !MustStop(e.inp.spec) && e.inp.rendered == desired
    requires w.deploys[Find(w).cur].template.content == desired
    ensures SamePair(w, Step(w, e))
  {
    hide PlanIn, CanScaleNow, RolloutFinished, Inv;
    StepIsWork(w, e);
    var ws := Cut(WorkStep(w, e.inp).writes, e.cut);
    assert |ws| <= 1;
    if ws != [] {
      assert ws == [ws[0]] && (ws[0].MarkMilvus? || ws[0].SetReplicas?);
      ApplyOne(w, ws[0]);
    }
  }

  lemma {:induction false} RunCons(w: World, e: Event, rest: seq<Event>)
    ensures Run(w, [e] + rest) == Run(Step(w, e), rest)
    decreases |rest|
  {
    hide Step;
    var es := [e] + rest;
    if rest == [] {
      assert es == [e] && es[..0] == [] && Run(w, []) == w;
    } else {
      RunCons(w, e, rest[..|rest| - 1]);
      assert es[..|es| - 1] == [e] + rest[..|rest| - 1];
    }
  }

  /** A run of the same rollout stays one with a first step put before it. */
  lemma ConsKeepsRun(w: World, e: Event, rest: seq<Event>, spec: ComponentSpec)
    requires Find(w).Found? && !SameLimitsIn(w, Find(w).cur, Find(w).last) && e.inp.spec == spec
    requires Step(w, e).currentGroup == w.currentGroup && ChangedLimitsRun(Step(w, e), rest, spec)
    ensures ChangedLimitsRun(w, [e] + rest, spec)
  {
    hide Step, Find, SameLimitsIn;
    var es, v := [e] + rest, Step(w, e);
    forall k | 0 < k <= |es|
      ensures Run(w, es[..k]) == Run(v, rest[..k - 1])
    {
      assert es[..k] == [e] + rest[..k - 1];
      RunCons(w, e, rest[..k - 1]);
    }
    assert es[..0] == [] && Run(w, es[..0]) == w;
  }

  /** On a settling cluster the rollout ends at the goal, without leaving the rollout. */
  lemma {:induction false} ToGoal(w: World, spec: ComponentSpec, desired: Content, rank: Rank) returns (events: seq<Event>)
    requires Inv(w) && StaticSpec(spec) && Find(w).Found? && rank == RankOf(w, spec, desired)
    requires w.deploys[Find(w).cur].template.content == desired && !SameLimitsIn(w, Find(w).cur, Find(w).last)
    ensures ChangedLimitsRun(w, events, spec) && Goal(Run(w, events), spec, desired) && SamePair(w, Run(w, events))
    decreases rank.setup, rank.offTarget, rank.last, rank.deficit, rank.rolling, rank.distance
  {
    events := [];
    if !Goal(w, spec, desired) {
      var e := Settling(w, spec, desired);
      SettlingStep(w, spec, desired);
      var v := Step(w, e);
      hide Inv, Goal, RankOf, StaticSpec, Step, Settling, ChangedLimitsRun, Find, Run;
      assert e.inp.spec == spec by { SettlingSpec(w, spec, desired); }
      SameLimitsOfPair(w, v);
      var rest := ToGoal(v, spec, desired, RankOf(v, spec, desired));
      ConsKeepsRun(w, e, rest, spec);
      RunCons(w, e, rest);
      events := [e] + rest;
    }
  }

  lemma SettlingSpec(w: World, spec: ComponentSpec, desired: Content)
    requires Inv(w)
    ensures Settling(w, spec, desired).inp.spec == spec
  {
  }

  lemma SameLimitsOfPair(w: World, v: World)
    requires SamePair(w, v)
    ensures SameLimitsIn(v, Find(v).cur, Find(v).last) <==> SameLimitsIn(w, Find(w).cur, Find(w).last)
  {
  }

  /**
   The exact condition. Over a rollout with changed limits and a surge the current deployment has
   max(expected, start) replicas whenever the old one is below its starting size, for good, if and
   only if the old deployment did not start above the expected count.
   */
  lemma FloorHoldsForGoodIff(w: World, spec: ComponentSpec, start: int)
    requires Inv(w) && StaticSpec(spec) && StepsOf(spec).surge > 0
    requires Find(w).Found? && w.deploys[Find(w).last].replicas == start && !SameLimitsIn(w, Find(w).cur, Find(w).last)
    ensures start <= Expected(spec) <==>
            forall events :: ChangedLimitsRun(w, events, spec) ==> Retained(Run(w, events), start, Max(Expected(spec), start))
  {
    assert PlainSpec(spec) && !MustStop(spec);
    hide Inv, StepsOf, StaticSpec, PlainSpec, MustStop, Run;
    if start <= Expected(spec) {
      forall events | ChangedLimitsRun(w, events, spec)
        ensures Retained(Run(w, events), start, Max(Expected(spec), start))
      {
        FloorHoldsForGood(w, events, spec, start);
      }
    } else {
      var desired := w.deploys[Find(w).cur].template.content;
      var events := ToGoal(w, spec, desired, RankOf(w, spec, desired));
      assert ChangedLimitsRun(w, events, spec) && !Retained(Run(w, events), start, Max(Expected(spec), start));
    }
  }
}
