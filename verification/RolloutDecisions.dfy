/**
 What each decision of the two-deployment controller comes to, said in the spec's fields, the two
 deployments and what is observed of them: when the rolling label is cleared, what a stop does, who
 is scaled under which kind of spec, and by how much.
 */
module RolloutDecisions {
  import opened Common
  import opened GoStrings
  import opened RollingPolicy
  import opened Workloads
  import opened ScalePlanner
  import opened RolloutController
  import opened RolloutSafety
  import opened RolloutCapacity

  // ---- specs -----------------------------------------------------------------------------------------------

  /** A component is stopped by zero replicas; under an autoscaler only for an upgrade. */
  predicate AskedToStop(spec: ComponentSpec)
  {
    spec.replicas == Some(0) && (spec.hpa.Some? ==> spec.upgradeStopping)
  }

  lemma StopIff(spec: ComponentSpec)
    ensures MustStop(spec) <==> AskedToStop(spec)
  {
  }

  /** The replicas a finished rollout must have: nil and negative ones mean one. */
  function AtLeast(spec: ComponentSpec): int
  {
    match spec.replicas
    case None => 1
    case Some(n) => if n < 0 then 1 else n
  }

  // ---- the rolling label -----------------------------------------------------------------------------------

  /** The deployments once any missing one has been created. */
  function Pair(w: World, inp: Inputs): World { ApplyAll(w, CreateStep(w, inp).writes) }

  predicate Unmarks(ws: seq<Write>) { exists k :: 0 <= k < |ws| && ws[k].MarkMilvus? && !ws[k].rolling }

  predicate ClearsLabel(w: World, inp: Inputs) { w.rolling && Unmarks(ReconcileWrites(w, inp)) }

  /**
   The new deployment is observed with all of its replicas, at least as many as asked for, updated
   and available; the old one has none in spec and status, and no pods but evicted ones.
   */
  predicate ObservedFinished(u: World, inp: Inputs, c: nat, l: nat)
    requires c < |u.deploys| && l < |u.deploys|
  {
    var n, co, lo := u.deploys[c].replicas, ObservedAt(inp, c), ObservedAt(inp, l);
    && n >= AtLeast(inp.spec) && co.status.observedGeneration == co.generation
    && co.status.replicas == n && co.status.updated == n && co.status.available == n
    && u.deploys[l].replicas == 0 && lo.status.observedGeneration == lo.generation && lo.status.replicas == 0
    && forall p :: p in lo.labelled ==> p.reason == "Evicted"
  }

  lemma {:induction false} NothingListed(pods: seq<Pod>)
    ensures NotEvicted(pods) == [] <==> forall p :: p in pods ==> p.reason == "Evicted"
  {
    if pods != [] {
      NothingListed(pods[..|pods| - 1]);
      assert pods == pods[..|pods| - 1] + [pods[|pods| - 1]];
    }
  }

  lemma FinishedIff(u: World, inp: Inputs, c: nat, l: nat)
    requires c < |u.deploys| && l < |u.deploys|
    ensures RolloutFinished(u, inp, c, l) <==> ObservedFinished(u, inp, c, l)
  {
    hide NotEvicted;
    NothingListed(ObservedAt(inp, l).labelled);
  }

  lemma WritesAfterCreate(w: World, inp: Inputs)
    requires Inv(w) && w.rolling
    ensures ClearsLabel(w, inp) <==> !CreateStep(w, inp).stop && Unmarks(WorkStep(Pair(w, inp), inp).writes)
  {
    hide WorkStep, Inv;
    var a, b := CreateStep(w, inp).writes, WorkStep(Pair(w, inp), inp).writes;
    assert forall k :: 0 <= k < |a| && a[k].MarkMilvus? ==> a[k].rolling;
    if !CreateStep(w, inp).stop {
      var ws := ReconcileWrites(w, inp);
      assert ws == a + b;
      assert forall k :: 0 <= k < |b| ==> ws[|a| + k] == b[k];
      assert forall k :: 0 <= k < |a| ==> ws[k] == a[k];
    }
  }

  /**
   Outside a stop a reconcile clears the rolling label exactly when the component is not paused, the
   rollout is observed as finished, and the rendered template does not call for a rollback.
   */
  lemma LabelClearedIff(w: World, inp: Inputs)
    requires Inv(w) && w.rolling && !AskedToStop(inp.spec)
    ensures var u := Pair(w, inp);
            ClearsLabel(w, inp) <==>
            && !inp.spec.paused && Find(u).Found? && ObservedFinished(u, inp, Find(u).cur, Find(u).last)
            && (u.deploys[Find(u).last].template.content == inp.rendered ==>
                  u.deploys[Find(u).cur].template.content == inp.rendered)
  {
    var u := Pair(w, inp);
    StopIff(inp.spec);
    WritesAfterCreate(w, inp);
    PairKeepsLabel(w, inp);
    hide Inv, MustStop, AskedToStop, ObservedFinished, RolloutFinished, ClearsLabel, Pair;
    if Find(u).Found? {
      FinishedIff(u, inp, Find(u).cur, Find(u).last);
      WorkMarks(u, inp);
    }
  }

  lemma PairKeepsLabel(w: World, inp: Inputs)
    requires Inv(w)
    ensures var u := Pair(w, inp);
            && Inv(u) && u.rolling == w.rolling && (Find(u).Found? ==> !CreateStep(w, inp).stop)
  {
    CreateStepSafe(w, inp);
    PairIsOneWrite(w, inp);
    hide Inv, SafeWrites, CreateStep, Find;
    var ws := CreateStep(w, inp).writes;
    SafePrefixKeepsInv(w, ws, |ws|);
    assert ws[..|ws|] == ws;
  }

  lemma PairIsOneWrite(w: World, inp: Inputs)
    ensures var u := Pair(w, inp);
            u.rolling == w.rolling && (CreateStep(w, inp).stop ==> u.deploys == w.deploys && !Find(u).Found?)
  {
    var ws := CreateStep(w, inp).writes;
    if ws == [] { assert ApplyAll(w, ws) == w; } else { ApplyOne(w, ws[0]); }
  }

  lemma WorkMarks(u: World, inp: Inputs)
    requires Find(u).Found? && u.rolling && !MustStop(inp.spec)
    ensures Unmarks(WorkStep(u, inp).writes) <==>
            && !inp.spec.paused && RolloutFinished(u, inp, Find(u).cur, Find(u).last)
            && !ShouldRollback(u.deploys[Find(u).cur], u.deploys[Find(u).last], inp.rendered)
  {
    hide RolloutFinished, MustStop, PlanIn, CanScaleNow, Find;
    var r, s, ws := RollingStep(u, inp), ScalingStep(u, inp), WorkStep(u, inp).writes;
    assert forall k :: 0 <= k < |s.writes| ==> s.writes[k].SetReplicas?;
    if !inp.spec.paused && !r.stop { assert r.writes == [] && ws == s.writes; }
    if !inp.spec.paused && r.stop {
      assert ws == r.writes;
      if ws == [MarkMilvus(u.currentGroup, false)] { assert ws[0].MarkMilvus? && !ws[0].rolling; }
    }
  }

  // ---- stopping and pausing -----------------------------------------------------------------------------------

  /** A stop takes both deployments to zero and ends any rollout, whatever is observed, and touches no template. */
  lemma StopTakesAllDown(w: World, inp: Inputs)
    requires Inv(w) && Find(w).Found? && AskedToStop(inp.spec) && !inp.spec.paused
    ensures var v, c, l := ApplyAll(w, ReconcileWrites(w, inp)), Find(w).cur, Find(w).last;
            && |v.deploys| == 2 && v.deploys[c] == w.deploys[c].(replicas := 0) && v.deploys[l] == w.deploys[l].(replicas := 0)
            && !v.rolling && v.currentGroup == w.currentGroup
  {
    hide Inv, ReconcileWrites, AskedToStop, Find, ApplyAll;
    var a, b, m := StopWrites(w, inp);
    StopEffect(w, a, b, m, Find(w).cur, Find(w).last);
  }

  lemma StopEffect(w: World, a: seq<Write>, b: seq<Write>, m: seq<Write>, c: nat, l: nat)
    requires |w.deploys| == 2 && c < 2 && l == 1 - c
    requires a == if w.deploys[c].replicas != 0 then [SetReplicas(c, 0)] else []
    requires b == if w.deploys[l].replicas != 0 then [SetReplicas(l, 0)] else []
    requires m == if w.rolling then [MarkMilvus(w.currentGroup, false)] else []
    ensures var v := ApplyAll(w, a + b + m);
            && |v.deploys| == 2 && v.deploys[c] == w.deploys[c].(replicas := 0) && v.deploys[l] == w.deploys[l].(replicas := 0)
            && !v.rolling && v.currentGroup == w.currentGroup
  {
    var w1 := ApplyAll(w, a);
    ZeroedBy(w, a, c);
    var w2 := ApplyAll(w1, b);
    ZeroedBy(w1, b, l);
    if m == [] { assert ApplyAll(w2, m) == w2; } else { ApplyOne(w2, m[0]); }
    ApplyAllConcat(w, a, b);
    ApplyAllConcat(w, a + b, m);
  }

  lemma StopWrites(w: World, inp: Inputs) returns (a: seq<Write>, b: seq<Write>, m: seq<Write>)
    requires Inv(w) && Find(w).Found? && AskedToStop(inp.spec) && !inp.spec.paused
    ensures var c, l := Find(w).cur, Find(w).last;
            && ReconcileWrites(w, inp) == a + b + m
            && (a == if w.deploys[c].replicas != 0 then [SetReplicas(c, 0)] else [])
            && (b == if w.deploys[l].replicas != 0 then [SetReplicas(l, 0)] else [])
            && (m == if w.rolling then [MarkMilvus(w.currentGroup, false)] else [])
  {
    StopIff(inp.spec);
    hide AskedToStop, MustStop, Inv;
    var c, l := Find(w).cur, Find(w).last;
    assert ApplyAll(w, []) == w;
    a := if w.deploys[c].replicas != 0 then [SetReplicas(c, 0)] else [];
    b := if w.deploys[l].replicas != 0 then [SetReplicas(l, 0)] else [];
    m := if w.rolling then [MarkMilvus(w.currentGroup, false)] else [];
  }

  lemma ZeroedBy(w: World, ws: seq<Write>, i: nat)
    requires |w.deploys| == 2 && i < 2 && ws == if w.deploys[i].replicas != 0 then [SetReplicas(i, 0)] else []
    ensures var v := ApplyAll(w, ws);
            && v.currentGroup == w.currentGroup && v.rolling == w.rolling && |v.deploys| == 2
            && v.deploys[i] == w.deploys[i].(replicas := 0) && v.deploys[1 - i] == w.deploys[1 - i]
  {
    if ws != [] { ApplyOne(w, ws[0]); }
  }

  /** While paused, nothing is done beyond creating the two deployments. */
  lemma PausedOnlyCreates(w: World, inp: Inputs)
    requires Inv(w) && inp.spec.paused
    ensures forall k :: 0 <= k < |ReconcileWrites(w, inp)| ==>
              var wr := ReconcileWrites(w, inp)[k];
              (wr.Create? && wr.deploy.replicas == 0) || (wr.MarkMilvus? && wr.rolling == w.rolling && w.deploys == [])
  {
  }

  /** The first deployment carries the rendered template; the second a dummy, so that no rollback ever returns to it. */
  lemma CreatedTemplates(w: World, inp: Inputs)
    requires Inv(w) && w.currentGroup == "0" && |w.deploys| < 2
    ensures var d := Deployment(if w.deploys == [] then "0" else "1", 0,
                                if w.deploys == [] then Template(inp.created, "0") else Template(inp.dummy, "1"));
            |ReconcileWrites(w, inp)| >= 1 && ReconcileWrites(w, inp)[0] == Create(d)
    ensures |w.deploys| == 1 && inp.dummy != inp.rendered ==>
              var u := Pair(w, inp);
              Find(u) == Found(0, 1) && !ShouldRollback(u.deploys[0], u.deploys[1], inp.rendered)
  {
    hide WorkStep;
    if |w.deploys| == 1 {
      assert w.deploys[0].group == "0";
      ApplyOne(w, CreateStep(w, inp).writes[0]);
    }
  }

  // ---- starting a rollout, and clusters that are left alone -----------------------------------------------------

  /** When the deployments are a pair, one alone, none, or something an administrator has to repair. */
  lemma LookupIff(w: World)
    ensures Find(w) == NotFound <==> w.deploys == []
    ensures Find(w) == NoLast <==> |w.deploys| == 1 && w.deploys[0].group == "0" && w.currentGroup == "0"
    ensures forall c: nat, l: nat :: Find(w) == Found(c, l) <==>
              && |w.deploys| == 2 && ((c == 0 && l == 1) || (c == 1 && l == 0))
              && w.deploys[c].group == w.currentGroup && w.deploys[l].group != w.currentGroup
  {
  }

  /** What is to be repaired by hand is left alone. */
  lemma UnexpectedLeftAlone(w: World, inp: Inputs)
    requires || |w.deploys| > 2
             || (|w.deploys| == 1 && (w.deploys[0].group != w.currentGroup || w.currentGroup != "0"))
             || (|w.deploys| == 2 && (w.deploys[0].group == w.currentGroup <==> w.deploys[1].group == w.currentGroup))
    ensures ReconcileWrites(w, inp) == []
  {
  }

  /**
   A rollout starts with two writes, the template and then the markers: on the old deployment if that
   has the rendered template already, or if the current one has replicas; else on the current one.
   */
  lemma RolloutStarts(w: World, inp: Inputs)
    requires Inv(w) && Find(w).Found? && !AskedToStop(inp.spec) && !inp.spec.paused
    requires w.deploys[Find(w).cur].template.content != inp.rendered
    requires w.rolling ==> w.deploys[Find(w).last].template.content == inp.rendered
    ensures var c, l := Find(w).cur, Find(w).last;
            var back := w.deploys[l].template.content == inp.rendered;
            var i := if back || w.deploys[c].replicas > 0 then l else c;
            ReconcileWrites(w, inp) ==
            [SetTemplate(i, Template(inp.rendered, w.deploys[i].group)), MarkMilvus(w.deploys[i].group, true)]
  {
    StopIff(inp.spec);
    hide Inv, MustStop, AskedToStop;
    assert ApplyAll(w, []) == w;
  }

  // ---- who is scaled ------------------------------------------------------------------------------------------

  /** The one replica write of a scaling step, if any. */
  predicate Scales(w: World, inp: Inputs, i: nat, n: int) { ScalingStep(w, inp).writes == [SetReplicas(i, n)] }

  /** What the guard asks for, kind by kind. */
  lemma GuardIff(spec: ComponentSpec, cur: int, co: Observation, last: int, lo: Observation)
    ensures spec.force || spec.hpa.Some? || Expected(spec) < 0 ==> (cur >= 0 ==> CanScaleNow(spec, cur, co, last, lo))
    ensures PlainSpec(spec) && last <= 0 ==>
              (CanScaleNow(spec, cur, co, last, lo) <==>
               (StepsOf(spec).surge == 0 && cur < Expected(spec) ==> IsStable(last, lo)))
    ensures PlainSpec(spec) && last > 0 ==>
              (CanScaleNow(spec, cur, co, last, lo) <==>
               && IsStable(last, lo)
               && (StepsOf(spec).surge > 0 || StepsOf(spec).unavailable == 0 ==> IsStable(cur, co))
               && (StepsOf(spec).surge == 0 && StepsOf(spec).unavailable > 0 ==>
                     && co.status.available <= StrictlyReadyCount(NotEvicted(co.labelled))
                     && (IsStable(cur, co) ||
                         (co.status.observedGeneration == co.generation && co.status.replicas == cur
                          && co.status.updated == cur && |NotEvicted(co.labelled)| == cur
                          && forall p :: p in NotEvicted(co.labelled) ==> !p.terminating))))
  {
    hide IsStable, StrictlyReadyCount, NotEvicted;
    if PlainSpec(spec) { StepsInRange(StrategyOf(spec), Expected(spec)); }
    hide StepsOf;
  }

  /**
   Under an autoscaler of the operator's own, with m as its minimum (one if it has none): the old
   deployment loses exactly one replica, and does so exactly when the current one has, and reports
   ready, at least max(m, old); the current one is raised to exactly that, or started at m.
   */
  lemma OwnAutoscalerScales(w: World, inp: Inputs, m: int, i: nat, n: int)
    requires Inv(w) && Find(w).Found? && !inp.spec.force && i < 2
    requires inp.spec.hpa == Some(Some(m)) || (inp.spec.hpa == Some(None) && m == 1)
    ensures var c, l := Find(w).cur, Find(w).last;
            var cur, old_, ready := w.deploys[c].replicas, w.deploys[l].replicas, ObservedAt(inp, c).status.ready;
            var floor := if m < old_ then old_ else m;
            && (i == l ==> (Scales(w, inp, l, n) <==> old_ > 0 && n == old_ - 1 && cur >= floor && ready >= floor))
            && (i == c ==> (Scales(w, inp, c, n) <==>
                              || (old_ > 0 && cur < floor && n == floor)
                              || (old_ == 0 && cur == 0 && m != 0 && n == m)))
  {
    hide StepsOf, IsStable;
    assert w.deploys[Find(w).cur].replicas >= 0 && w.deploys[Find(w).last].replicas >= 0;
    hide Inv;
  }

  /**
   Under an external autoscaler: the old deployment goes at once and altogether, exactly when a
   rollout is under way and the current one has, and reports ready, as many; until then the current
   one is brought to the old one's size, or started with one.
   */
  lemma ExternalAutoscalerScales(w: World, inp: Inputs, i: nat, n: int)
    requires Inv(w) && Find(w).Found? && !inp.spec.force && inp.spec.hpa == None && i < 2
    requires inp.spec.replicas.Some? && inp.spec.replicas.value < 0
    ensures var c, l := Find(w).cur, Find(w).last;
            var cur, old_, ready := w.deploys[c].replicas, w.deploys[l].replicas, ObservedAt(inp, c).status.ready;
            && (i == l ==> (Scales(w, inp, l, n) <==> w.rolling && old_ > 0 && n == 0 && cur >= old_ && ready >= old_))
            && (i == c ==> (Scales(w, inp, c, n) <==> (cur < old_ && n == old_) || (cur == 0 && old_ == 0 && n == 1)))
  {
    hide StepsOf, IsStable;
    assert w.deploys[Find(w).cur].replicas >= 0 && w.deploys[Find(w).last].replicas >= 0;
    hide Inv;
  }

  /** In force mode nothing is waited for: the current deployment is set to the expected count, then the old one to zero. */
  lemma ForceScales(w: World, inp: Inputs, i: nat, n: int)
    requires Inv(w) && Find(w).Found? && inp.spec.force && i < 2
    ensures var c, l := Find(w).cur, Find(w).last;
            var cur, old_, e := w.deploys[c].replicas, w.deploys[l].replicas, Expected(inp.spec);
            && (i == c ==> (Scales(w, inp, c, n) <==> cur != e && n == e))
            && (i == l ==> (Scales(w, inp, l, n) <==> cur == e && old_ != 0 && n == 0))
  {
    hide StepsOf, IsStable;
    assert w.deploys[Find(w).cur].replicas >= 0 && w.deploys[Find(w).last].replicas >= 0;
    hide Inv;
  }

  // ---- by how much ------------------------------------------------------------------------------------------------

  /** The counts after an action. */
  function After(a: Action, cur: int, last: int): (int, int)
  {
    if a.target == Current then (cur + a.change, last) else (cur, last + a.change)
  }

  /**
   Without surge the planner first fills the free slots, all of them; with none free it takes as
   many old replicas as the budget leaves, and not one more.
   */
  lemma NoSurgeMoves(unavailable: int, e: int, cur: int, last: int, ca: int, la: int, same: bool)
    requires e >= 0 && cur >= 0 && last >= 0 && 0 <= unavailable <= e && ca >= 0 && la >= 0
    ensures var (c, l) := After(PlanForRollout(Steps(0, unavailable), e, cur, last, ca, la, same), cur, last);
            var available := Min(ca, cur) + Min(la, last);
            if cur + last < e then l == last && c + l == e
            else && c == cur && l <= last
                 && (l < last ==> available - (last - l) >= e - unavailable)
                 && (l > 0 ==> available - (last - l) - 1 < e - unavailable)
  {
  }

  /**
   With equal limits and a surge: above the expected total the old deployment shrinks, by the
   unavailable step or by one; else the current one grows by as much as step, target and total allow.
   */
  lemma SameLimitsMoves(steps: Steps, e: int, cur: int, last: int, ca: int, la: int)
    requires e >= 0 && cur >= 0 && last >= 0 && steps.surge > 0 && 0 <= steps.unavailable <= e
    ensures var (c, l) := After(PlanForRollout(steps, e, cur, last, ca, la, true), cur, last);
            if cur + last > e then c == cur && (l == 0 || last - l == Max(1, steps.unavailable)) && last - l <= Max(1, steps.unavailable)
            else && l == last && c <= e && c - cur <= steps.surge && c + last <= e + steps.surge
                 && (c == e || c - cur == steps.surge || c + last == e + steps.surge)
  {
  }

  /** With changed limits the current deployment is first brought to the larger of old and expected, then the old one shrinks; without it the current one does. */
  lemma ChangedLimitsMoves(steps: Steps, e: int, cur: int, last: int, ca: int, la: int)
    requires e >= 0 && cur >= 0 && last >= 0 && steps.surge > 0 && 0 <= steps.unavailable <= e
    ensures var (c, l) := After(PlanForRollout(steps, e, cur, last, ca, la, false), cur, last);
            if cur < Max(last, e) then l == last && c == Max(last, e)
            else if last == 0 then l == 0 && c == Max(e, cur - Max(1, steps.unavailable))
            else c == cur && (l == 0 || last - l == Max(1, steps.unavailable)) && last - l <= Max(1, steps.unavailable)
  {
  }

  /** Which of them applies to a plain spec; with no old replicas the current deployment is filled up at once or shrunk by one. */
  lemma PlainSpecPlans(spec: ComponentSpec, rolling: bool, cur: int, co: Observation, last: int, lo: Observation, same: bool)
    requires PlainSpec(spec) && cur >= 0 && last >= 0
    ensures var a := PlanNextScaleAction(spec, rolling, cur, co, last, lo, same);
            && (last > 0 ==> a == PlanForRollout(StepsOf(spec), Expected(spec), cur, last, co.status.available,
                                                 lo.status.available, same))
            && (last == 0 ==> After(a, cur, 0) == (if cur > Expected(spec) then cur - 1 else Expected(spec), 0))
  {
    hide StepsOf;
  }

  // ---- bounds in percent --------------------------------------------------------------------------------------------

  /** A component with a policy of its own in percent. */
  predicate PercentSpec(spec: ComponentSpec, p: nat, q: nat)
  {
    && PlainSpec(spec) && spec.useRolling && p <= INT64_MAX && q <= INT64_MAX
    && spec.component == Some(Policy(Some(Percent(p)), Some(Percent(q))))
  }

  lemma PercentStepsOf(spec: ComponentSpec, p: nat, q: nat)
    requires PercentSpec(spec, p, q)
    ensures var s, e := StepsOf(spec), Expected(spec);
            && 100 * (s.surge - 1) < p * e && 0 <= s.unavailable <= e
            && (100 * s.unavailable <= q * e || (s.unavailable == 1 && s.surge == 0 && q > 0))
  {
    hide RolloutSteps, Percent;
    EffectivePolicy(spec.global, spec.component);
    var ru := StrategyOf(spec).policy.value;
    SurgeMeans(ru, Expected(spec), p);
    UnavailableMeans(ru, Expected(spec), q);
    StepsInRange(StrategyOf(spec), Expected(spec));
  }

  /** With a surge of p% the two deployments never want more than p% above the expected count, rounded up, unless they did at the start. */
  lemma ReplicaCeilingInPercent(w: World, events: seq<Event>, spec: ComponentSpec, family: set<Content>, p: nat, q: nat)
    requires PercentSpec(spec, p, q) && SameLimitsFamily(family) && Inv(w) && Within(w, family)
    requires forall e :: e in events ==> e.inp.spec == spec && InputsWithin(e.inp, family)
    ensures var total, e := Total(Run(w, events)), Expected(spec);
            total <= Total(w) || 100 * (total - e - 1) < p * e
  {
    PercentStepsOf(spec, p, q);
    hide StepsOf, Inv, Run, Total, SameLimitsFamily;
    ReplicaCeiling(w, events, spec, family);
  }

  /** With q% unavailable at most q% of the expected replicas are given up at a scale-down, or one if q% is less than one without surge. */
  lemma AvailabilityFloorInPercent(w: World, inp: Inputs, n: int, p: nat, q: nat)
    requires Inv(w) && Find(w).Found? && PercentSpec(inp.spec, p, q)
    requires ScalingStep(w, inp).writes == [SetReplicas(Find(w).last, n)]
    requires forall pod :: pod in PodsAt(inp, Find(w).cur) ==> UniqueReady(pod)
    ensures var c, l, e := Find(w).cur, Find(w).last, Expected(inp.spec);
            var left := ServingCount(PodsAt(inp, c)) + ServingCount(PodsAt(inp, l)) - (w.deploys[l].replicas - n);
            100 * (e - left) <= q * e || (e - left <= 1 && q > 0)
  {
    PercentStepsOf(inp.spec, p, q);
    hide StepsOf, Inv, ScalingStep, Find, PodsAt;
    AvailabilityFloor(w, inp, n);
  }
}
