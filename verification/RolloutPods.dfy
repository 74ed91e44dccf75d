/**
 The pod-level ceiling of a rollout without surge. The cluster creates a pod while a Deployment
 has fewer than it wants, starts deleting one while it has more, and finishes terminations at
 any time; the operator reconciles in between and may be cut after any write.
 */
module RolloutPods {
  import opened Common
  import opened RollingPolicy
  import opened Workloads
  import opened ScalePlanner
  import opened RolloutController
  import opened RolloutSafety
  import opened RolloutCapacity

  datatype PodCount = PodCount(live: nat, terminating: nat)

  /** The API world plus the pods of the Deployments at index 0 and 1. */
  datatype Cluster = Cluster(w: World, first: PodCount, second: PodCount)

  const NO_PODS := PodCount(0, 0)

  function Pods(c: Cluster, i: nat): PodCount { if i == 0 then c.first else if i == 1 then c.second else NO_PODS }

  function SetPods(c: Cluster, i: nat, p: PodCount): Cluster
  {
    if i == 0 then c.(first := p) else if i == 1 then c.(second := p) else c
  }

  function Wanted(w: World, i: nat): int { if i < |w.deploys| then w.deploys[i].replicas else 0 }

  datatype ClusterEvent =
    | Reconciled(e: Event)
    | CreatePod(i: nat)
    | DeletePod(i: nat)
    | FinishTermination(i: nat)

  function ClusterStep(c: Cluster, ev: ClusterEvent): Cluster
  {
    match ev
    case Reconciled(e) => c.(w := Step(c.w, e))
    case CreatePod(i) =>
      var p := Pods(c, i);
      if p.live < Wanted(c.w, i) then SetPods(c, i, p.(live := p.live + 1)) else c
    case DeletePod(i) =>
      var p := Pods(c, i);
      if p.live > 0 && p.live > Wanted(c.w, i) then SetPods(c, i, PodCount(p.live - 1, p.terminating + 1)) else c
    case FinishTermination(i) =>
      var p := Pods(c, i);
      if p.terminating > 0 then SetPods(c, i, p.(terminating := p.terminating - 1)) else c
  }

  /** Listing pods shows exactly the live and the terminating ones. */
  predicate Truthful(c: Cluster, inp: Inputs)
  {
    forall i :: 0 <= i < 2 ==>
      && |PodsAt(inp, i)| == Pods(c, i).live + Pods(c, i).terminating
      && |Terminating(PodsAt(inp, i))| == Pods(c, i).terminating
  }

  function LoadAt(c: Cluster, i: nat): int { Max(Pods(c, i).live, Wanted(c.w, i)) + Pods(c, i).terminating }

  /** Live and terminating pods, counting pods that are wanted but not yet created. */
  function Load(c: Cluster): int { LoadAt(c, 0) + LoadAt(c, 1) }

  function PodTotal(c: Cluster): int
  {
    c.first.live + c.first.terminating + c.second.live + c.second.terminating
  }

  /** A plain spec, at least one replica, no surge. */
  predicate NoSurge(spec: ComponentSpec) { PlainSpec(spec) && Expected(spec) >= 1 && StepsOf(spec).surge == 0 }

  /** Pods of Deployment i that terminate, or will because it has more than it wants. */
  function Leaving(c: Cluster, i: nat): int { Pods(c, i).terminating + Max(0, Pods(c, i).live - Wanted(c.w, i)) }

  /** Deployment i is not owed pods, or filling it up fits beside the pods that are leaving it. */
  predicate Clean(c: Cluster, i: nat, expected: int, bound: int)
  {
    Wanted(c.w, i) < expected ==> expected + Leaving(c, i) <= bound
  }

  function Other(i: nat): nat { if i == 0 then 1 else 0 }

  /** If Deployment i is current it is clean, or the other one still has replicas and both are waited for. */
  predicate BoundedAt(c: Cluster, i: nat, expected: int, bound: int)
  {
    i < |c.w.deploys| && c.w.deploys[i].group == c.w.currentGroup ==>
      Wanted(c.w, Other(i)) > 0 || Clean(c, i, expected, bound)
  }

  predicate BothBounded(c: Cluster, expected: int, bound: int)
  {
    BoundedAt(c, 0, expected, bound) && BoundedAt(c, 1, expected, bound)
  }

  /** A Deployment that does not exist has no pods. */
  predicate Owned(c: Cluster)
  {
    (|c.w.deploys| < 1 ==> c.first == NO_PODS) && (|c.w.deploys| < 2 ==> c.second == NO_PODS)
  }

  predicate Bounded(c: Cluster, expected: int, bound: int)
  {
    Inv(c.w) && Owned(c) && expected <= bound && Load(c) <= bound && BothBounded(c, expected, bound)
  }

  /** The reconcile abandons the current Deployment and returns to the other one. */
  predicate RollsBack(c: Cluster, inp: Inputs)
  {
    && !inp.spec.paused && Find(c.w).Found?
    && ShouldRollback(c.w.deploys[Find(c.w).cur], c.w.deploys[Find(c.w).last], inp.rendered)
  }

  /** A rollback from an empty Deployment returns to one that can be filled up beside the pods leaving it. */
  predicate CleanRollback(c: Cluster, inp: Inputs, bound: int)
  {
    RollsBack(c, inp) && c.w.deploys[Find(c.w).cur].replicas == 0 ==>
      Clean(c, Find(c.w).last, Expected(inp.spec), bound)
  }

  // ---- environment ---------------------------------------------------------------------------------

  /** Any change of one Deployment's pods that keeps its own load and cleanliness keeps the bound. */
  lemma PodChangeKeepsBound(c: Cluster, i: nat, p: PodCount, expected: int, bound: int)
    requires Bounded(c, expected, bound) && i < |c.w.deploys|
    requires LoadAt(SetPods(c, i, p), i) <= LoadAt(c, i)
    requires Clean(c, i, expected, bound) ==> Clean(SetPods(c, i, p), i, expected, bound)
    ensures Bounded(SetPods(c, i, p), expected, bound)
  {
    assert |c.w.deploys| <= 2;
    hide Inv;
  }

  /** The environment touches one Deployment and makes it neither heavier nor less clean. */
  lemma EnvironmentEffect(c: Cluster, ev: ClusterEvent, expected: int, bound: int)
    requires !ev.Reconciled? && ClusterStep(c, ev) != c
    ensures var d := ClusterStep(c, ev);
            && ev.i < 2 && d == SetPods(c, ev.i, Pods(d, ev.i)) && LoadAt(d, ev.i) <= LoadAt(c, ev.i)
            && (Clean(c, ev.i, expected, bound) ==> Clean(d, ev.i, expected, bound))
            && (Pods(c, ev.i) != NO_PODS || Wanted(c.w, ev.i) > 0)
  {
  }

  lemma EnvironmentKeepsBound(c: Cluster, ev: ClusterEvent, expected: int, bound: int)
    requires Bounded(c, expected, bound) && !ev.Reconciled?
    ensures Bounded(ClusterStep(c, ev), expected, bound)
  {
    hide Inv, Clean, BothBounded, Load, LoadAt, ClusterStep;
    var d := ClusterStep(c, ev);
    if d != c {
      EnvironmentEffect(c, ev, expected, bound);
      assert ev.i < |c.w.deploys|;
      PodChangeKeepsBound(c, ev.i, Pods(d, ev.i), expected, bound);
    }
  }

  // ---- the operator's writes, one at a time ---------------------------------------------------------

  function AfterWrite(c: Cluster, wr: Write): Cluster { c.(w := Apply(c.w, wr)) }

  /** A write that keeps the pod bound. */
  predicate TameWrite(c: Cluster, wr: Write, expected: int, bound: int)
  {
    match wr
    case Create(d) => d.replicas == 0
    case SetTemplate(i, t) => true
    case SetReplicas(i, n) =>
      i < |c.w.deploys| && Load(AfterWrite(c, wr)) <= bound && BothBounded(AfterWrite(c, wr), expected, bound)
    case MarkMilvus(g, r) => BothBounded(AfterWrite(c, wr), expected, bound)
  }

  lemma TameReplicas(c: Cluster, i: nat, n: nat, expected: int, bound: int)
    requires Bounded(c, expected, bound) && i < |c.w.deploys| && TameWrite(c, SetReplicas(i, n), expected, bound)
    requires Inv(Apply(c.w, SetReplicas(i, n)))
    ensures Bounded(AfterWrite(c, SetReplicas(i, n)), expected, bound)
  {
    assert |c.w.deploys| <= 2;
    hide Inv, Load, LoadAt;
  }

  lemma TameTemplate(c: Cluster, i: nat, t: Template, expected: int, bound: int)
    requires Bounded(c, expected, bound) && Inv(Apply(c.w, SetTemplate(i, t)))
    ensures Bounded(AfterWrite(c, SetTemplate(i, t)), expected, bound)
  {
    hide Inv;
    var d := AfterWrite(c, SetTemplate(i, t));
    assert forall k :: 0 <= k < |c.w.deploys| ==>
      d.w.deploys[k].group == c.w.deploys[k].group && d.w.deploys[k].replicas == c.w.deploys[k].replicas;
    assert Wanted(d.w, 0) == Wanted(c.w, 0) && Wanted(d.w, 1) == Wanted(c.w, 1);
  }

  lemma TameWriteKeepsBound(c: Cluster, wr: Write, expected: int, bound: int)
    requires Bounded(c, expected, bound) && SafeWrite(c.w, wr) && TameWrite(c, wr, expected, bound)
    ensures Bounded(AfterWrite(c, wr), expected, bound)
  {
    hide Inv;
    SafeWriteKeepsInv(c.w, wr);
    match wr
    case Create(d) => TameCreate(c, d, expected, bound);
    case SetTemplate(i, t) => TameTemplate(c, i, t, expected, bound);
    case SetReplicas(i, n) =>
      if n >= 0 { TameReplicas(c, i, n, expected, bound); }
    case MarkMilvus(g, r) => TameMark(c, g, r, expected, bound);
  }

  lemma TameMark(c: Cluster, g: string, r: bool, expected: int, bound: int)
    requires Bounded(c, expected, bound) && TameWrite(c, MarkMilvus(g, r), expected, bound)
    requires Inv(Apply(c.w, MarkMilvus(g, r)))
    ensures Bounded(AfterWrite(c, MarkMilvus(g, r)), expected, bound)
  {
    hide Inv, BothBounded;
  }

  lemma TameCreate(c: Cluster, d: Deployment, expected: int, bound: int)
    requires Bounded(c, expected, bound) && SafeWrite(c.w, Create(d)) && Inv(Apply(c.w, Create(d)))
    ensures Bounded(AfterWrite(c, Create(d)), expected, bound)
  {
    var e := AfterWrite(c, Create(d));
    if e != c {
      assert Pods(c, |c.w.deploys|) == NO_PODS;
      hide Inv;
    }
  }

  predicate TameWrites(c: Cluster, ws: seq<Write>, expected: int, bound: int)
    decreases |ws|
  {
    ws == [] ||
    (SafeWrite(c.w, ws[0]) && TameWrite(c, ws[0], expected, bound)
     && TameWrites(AfterWrite(c, ws[0]), ws[1..], expected, bound))
  }

  function AfterWrites(c: Cluster, ws: seq<Write>): Cluster { c.(w := ApplyAll(c.w, ws)) }

  lemma {:induction false} TamePrefix(c: Cluster, ws: seq<Write>, n: nat, expected: int, bound: int)
    requires Bounded(c, expected, bound) && TameWrites(c, ws, expected, bound) && n <= |ws|
    ensures Bounded(AfterWrites(c, ws[..n]), expected, bound)
    decreases n
  {
    hide Bounded, SafeWrite, TameWrite;
    if n == 0 {
      assert AfterWrites(c, ws[..0]) == c;
    } else {
      TameWriteKeepsBound(c, ws[0], expected, bound);
      TamePrefix(AfterWrite(c, ws[0]), ws[1..], n - 1, expected, bound);
      assert ws[..n][1..] == ws[1..][..n - 1];
    }
  }

  lemma {:induction false} TameConcat(c: Cluster, a: seq<Write>, b: seq<Write>, expected: int, bound: int)
    requires TameWrites(c, a, expected, bound) && TameWrites(AfterWrites(c, a), b, expected, bound)
    ensures TameWrites(c, a + b, expected, bound)
    decreases |a|
  {
    hide SafeWrite, TameWrite;
    if a == [] {
      assert a + b == b && AfterWrites(c, a) == c;
    } else {
      assert AfterWrites(c, a) == AfterWrites(AfterWrite(c, a[0]), a[1..]);
      TameConcat(AfterWrite(c, a[0]), a[1..], b, expected, bound);
      assert (a + b)[1..] == a[1..] + b;
    }
  }

  lemma TameSingle(c: Cluster, wr: Write, expected: int, bound: int)
    requires SafeWrite(c.w, wr) && TameWrite(c, wr, expected, bound)
    ensures TameWrites(c, [wr], expected, bound) && AfterWrites(c, [wr]) == AfterWrite(c, wr)
  {
    assert [wr][1..] == [];
    ApplyOne(c.w, wr);
  }

  // ---- the handlers are tame -----------------------------------------------------------------------

  lemma CreateTame(c: Cluster, inp: Inputs, expected: int, bound: int)
    requires Bounded(c, expected, bound)
    ensures TameWrites(c, CreateStep(c.w, inp).writes, expected, bound)
  {
    var ws := CreateStep(c.w, inp).writes;
    CreateStepSafe(c.w, inp);
    if ws != [] {
      assert ws == [ws[0]];
      TameSingle(c, ws[0], expected, bound);
    }
  }

  lemma TemplateTame(c: Cluster, i: nat, t: Template, expected: int, bound: int)
    requires Bounded(c, expected, bound) && |c.w.deploys| == 2 && i < 2 && SafeWrite(c.w, SetTemplate(i, t))
    ensures var d := AfterWrite(c, SetTemplate(i, t));
            && TameWrites(c, [SetTemplate(i, t)], expected, bound) && AfterWrites(c, [SetTemplate(i, t)]) == d
            && |d.w.deploys| == 2
            && forall k :: 0 <= k < 2 ==>
                 && d.w.deploys[k].group == c.w.deploys[k].group && Wanted(d.w, k) == Wanted(c.w, k)
                 && Pods(d, k) == Pods(c, k)
  {
    TameSingle(c, SetTemplate(i, t), expected, bound);
  }

  lemma MarkTame(c: Cluster, i: nat, expected: int, bound: int)
    requires |c.w.deploys| == 2 && i < 2 && c.w.deploys[0].group != c.w.deploys[1].group
    requires Wanted(c.w, 1 - i) > 0 || Clean(c, i, expected, bound)
    ensures TameWrite(c, MarkMilvus(c.w.deploys[i].group, true), expected, bound)
  {
    hide Clean;
    var d := AfterWrite(c, MarkMilvus(c.w.deploys[i].group, true));
    assert d.w.deploys == c.w.deploys;
    assert Clean(c, i, expected, bound) ==> Clean(d, i, expected, bound) by { SameClean(c, d, i, expected, bound); }
  }

  lemma SameClean(c: Cluster, d: Cluster, i: nat, expected: int, bound: int)
    requires Wanted(c.w, i) == Wanted(d.w, i) && Pods(c, i) == Pods(d, i)
    ensures Clean(c, i, expected, bound) <==> Clean(d, i, expected, bound)
  {
  }

  lemma PrepareTame(c: Cluster, i: nat, rendered: Content, expected: int, bound: int)
    requires Bounded(c, expected, bound) && |c.w.deploys| == 2 && i < 2
    requires SafeWrites(c.w, PrepareNewRollout(c.w, i, rendered))
    requires Wanted(c.w, 1 - i) > 0 || Clean(c, i, expected, bound)
    ensures TameWrites(c, PrepareNewRollout(c.w, i, rendered), expected, bound)
  {
    assert c.w.deploys[0].group != c.w.deploys[1].group;
    hide Bounded, Clean, SafeWrite, TameWrite, TameWrites, Wanted;
    var ws := PrepareNewRollout(c.w, i, rendered);
    TemplateTame(c, i, Template(rendered, c.w.deploys[i].group), expected, bound);
    var d := AfterWrite(c, ws[0]);
    SameClean(c, d, i, expected, bound);
    MarkTame(d, i, expected, bound);
    assert SafeWrites(d.w, ws[1..]) && ws[1..] == [ws[1]];
    TameSingle(d, ws[1], expected, bound);
    TameConcat(c, [ws[0]], [ws[1]], expected, bound);
    assert ws == [ws[0]] + [ws[1]];
  }

  lemma FinishTame(c: Cluster, expected: int, bound: int)
    requires Bounded(c, expected, bound) && SafeWrites(c.w, [MarkMilvus(c.w.currentGroup, false)])
    ensures TameWrites(c, [MarkMilvus(c.w.currentGroup, false)], expected, bound)
  {
    TameSingle(c, MarkMilvus(c.w.currentGroup, false), expected, bound);
  }

  /** A fresh rollout, with the rolling label clear, finds its Deployment clean or the other one in use. */
  lemma FreshIsClean(c: Cluster, cur: nat, last: nat, expected: int, bound: int)
    requires Bounded(c, expected, bound) && Find(c.w) == Found(cur, last) && !c.w.rolling
    ensures var i := if c.w.deploys[cur].replicas > 0 then last else cur;
            Wanted(c.w, 1 - i) > 0 || Clean(c, i, expected, bound)
  {
    assert BoundedAt(c, cur, expected, bound) && BoundedAt(c, last, expected, bound);
    assert c.w.deploys[last].replicas == 0;
  }

  lemma RollingTame(c: Cluster, inp: Inputs, bound: int)
    requires Bounded(c, Expected(inp.spec), bound) && Truthful(c, inp) && CleanRollback(c, inp, bound) && !inp.spec.paused
    ensures TameWrites(c, RollingStep(c.w, inp).writes, Expected(inp.spec), bound)
  {
    RollingStepSafe(c.w, inp);
    if Find(c.w).Found? {
      var cur, last := Find(c.w).cur, Find(c.w).last;
      assert c.w.deploys[cur].replicas >= 0;
      hide Bounded, Clean, Truthful, SafeWrites, TameWrites, RolloutFinished;
      if ShouldRollback(c.w.deploys[cur], c.w.deploys[last], inp.rendered) {
        PrepareTame(c, last, inp.rendered, Expected(inp.spec), bound);
      } else if c.w.rolling {
        if RolloutFinished(c.w, inp, cur, last) { FinishTame(c, Expected(inp.spec), bound); }
      } else if c.w.deploys[cur].template.content != inp.rendered {
        FreshIsClean(c, cur, last, Expected(inp.spec), bound);
        PrepareTame(c, if c.w.deploys[cur].replicas > 0 then last else cur, inp.rendered, Expected(inp.spec), bound);
      }
    }
  }

  /** A settled Deployment has exactly the pods it wants. */
  lemma SettledPodCount(c: Cluster, inp: Inputs, i: nat)
    requires Truthful(c, inp) && i < 2
    requires IsStable(Wanted(c.w, i), ObservedAt(inp, i)) || IsStableButUnavailable(Wanted(c.w, i), ObservedAt(inp, i))
    ensures Pods(c, i).live == Wanted(c.w, i) && Pods(c, i).terminating == 0
  {
  }

  /** Past the guard of a no-surge scale step the pods are known. */
  lemma GuardFixesPods(c: Cluster, inp: Inputs, cur: nat, last: nat)
    requires Truthful(c, inp) && NoSurge(inp.spec) && |c.w.deploys| == 2 && cur < 2 && last == 1 - cur
    requires c.w.deploys[last].replicas >= 0
    requires CanScaleNow(inp.spec, c.w.deploys[cur].replicas, ObservedAt(inp, cur), c.w.deploys[last].replicas,
                         ObservedAt(inp, last))
    ensures c.w.deploys[last].replicas > 0 || c.w.deploys[cur].replicas < Expected(inp.spec) ==>
              Pods(c, last).live == Wanted(c.w, last) && Pods(c, last).terminating == 0
    ensures c.w.deploys[last].replicas > 0 ==>
              Pods(c, cur).live == Wanted(c.w, cur) && Pods(c, cur).terminating == 0
  {
    hide StepsOf;
    if c.w.deploys[last].replicas > 0 {
      SettledPodCount(c, inp, last);
      SettledPodCount(c, inp, cur);
    } else if c.w.deploys[cur].replicas < Expected(inp.spec) {
      SettledPodCount(c, inp, last);
    }
  }

  lemma ScalingIsGuarded(w: World, inp: Inputs)
    requires ScalingStep(w, inp).writes != []
    ensures Find(w).Found?
    ensures CanScaleNow(inp.spec, w.deploys[Find(w).cur].replicas, ObservedAt(inp, Find(w).cur),
                        w.deploys[Find(w).last].replicas, ObservedAt(inp, Find(w).last))
  {
  }

  lemma ReplicaWriteTame(c: Cluster, cur: nat, last: nat, i: nat, n: nat, expected: int, bound: int)
    requires Bounded(c, expected, bound) && Find(c.w) == Found(cur, last) && i < 2
    requires var a, b := c.w.deploys[cur].replicas, c.w.deploys[last].replicas;
             && (i == last ==> n < b)
             && (i == cur && n > a ==> n + b <= expected)
             && (i == cur && n < a ==> b == 0 && n >= expected)
             && (b > 0 || a < expected ==> Pods(c, last).live == b && Pods(c, last).terminating == 0)
             && (b > 0 ==> Pods(c, cur).live == a && Pods(c, cur).terminating == 0)
    ensures TameWrite(c, SetReplicas(i, n), expected, bound)
  {
    assert BoundedAt(c, cur, expected, bound);
    assert c.w.deploys[cur].replicas >= 0 && c.w.deploys[last].replicas >= 0;
    hide Inv;
  }

  lemma ScalingTame(c: Cluster, inp: Inputs, bound: int)
    requires Bounded(c, Expected(inp.spec), bound) && Truthful(c, inp) && NoSurge(inp.spec)
    ensures TameWrites(c, ScalingStep(c.w, inp).writes, Expected(inp.spec), bound)
  {
    if ScalingStep(c.w, inp).writes != [] {
      var i, n := PlainScaling(c.w, inp);
      ScalingStepSafe(c.w, inp);
      ScalingIsGuarded(c.w, inp);
      hide ScalingStep, PlanIn, CanScaleNow, StepsOf, Load, TameWrite, SafeWrite, Truthful, BoundedAt;
      var cur, last := Find(c.w).cur, Find(c.w).last;
      GuardFixesPods(c, inp, cur, last);
      ReplicaWriteTame(c, cur, last, i, n, Expected(inp.spec), bound);
      TameSingle(c, SetReplicas(i, n), Expected(inp.spec), bound);
    }
  }

  lemma WorkTame(c: Cluster, inp: Inputs, bound: int)
    requires Bounded(c, Expected(inp.spec), bound) && Truthful(c, inp) && CleanRollback(c, inp, bound) && NoSurge(inp.spec)
    ensures TameWrites(c, WorkStep(c.w, inp).writes, Expected(inp.spec), bound)
  {
    hide StepsOf, Bounded, Truthful, CleanRollback, PlanIn, CanScaleNow;
    var r, s := RollingStep(c.w, inp), ScalingStep(c.w, inp);
    if !inp.spec.paused {
      if r.stop {
        RollingTame(c, inp, bound);
      } else {
        ScalingTame(c, inp, bound);
        assert r.writes + s.writes == s.writes;
      }
    }
  }

  /** A reconcile that has to create a Deployment finds nothing leaving the other one. */
  lemma CreateKeepsCleanRollback(c: Cluster, inp: Inputs, bound: int)
    requires Inv(c.w) && CleanRollback(c, inp, bound) && Owned(c) && Expected(inp.spec) <= bound
    ensures CleanRollback(AfterWrites(c, CreateStep(c.w, inp).writes), inp, bound)
  {
    var ws := CreateStep(c.w, inp).writes;
    if ws != [] {
      ApplyOne(c.w, ws[0]);
      var d := AfterWrites(c, ws);
      if Find(d.w).Found? {
        assert |c.w.deploys| == 1 && d.w.deploys[0].group == "0";
        assert Find(d.w) == Found(0, 1);
        assert Leaving(d, 1) == 0;
      }
    }
  }

  lemma TruthfulAboutPods(c: Cluster, inp: Inputs, ws: seq<Write>)
    requires Truthful(c, inp)
    ensures Truthful(AfterWrites(c, ws), inp)
  {
  }

  lemma ReconcileTame(c: Cluster, inp: Inputs, bound: int)
    requires Bounded(c, Expected(inp.spec), bound) && Truthful(c, inp) && CleanRollback(c, inp, bound) && NoSurge(inp.spec)
    ensures TameWrites(c, ReconcileWrites(c.w, inp), Expected(inp.spec), bound)
  {
    assert Owned(c) && Inv(c.w) && Expected(inp.spec) <= bound;
    hide CreateStep, WorkStep, Bounded, CleanRollback, TameWrites, NoSurge, Inv, Owned, Truthful;
    var made := CreateStep(c.w, inp);
    CreateTame(c, inp, Expected(inp.spec), bound);
    if !made.stop {
      TamePrefix(c, made.writes, |made.writes|, Expected(inp.spec), bound);
      CreateKeepsCleanRollback(c, inp, bound);
      assert made.writes[..|made.writes|] == made.writes;
      var d := AfterWrites(c, made.writes);
      TruthfulAboutPods(c, inp, made.writes);
      WorkTame(d, inp, bound);
      TameConcat(c, made.writes, WorkStep(d.w, inp).writes, Expected(inp.spec), bound);
    }
  }

  // ---- whole runs ------------------------------------------------------------------------------------

  function ClusterRun(c: Cluster, events: seq<ClusterEvent>): Cluster
    decreases |events|
  {
    if events == [] then c else ClusterStep(ClusterRun(c, events[..|events| - 1]), events[|events| - 1])
  }

  /** Every reconcile of the run sees the pods as they are, keeps the spec, and rolls back only onto a clean Deployment. */
  predicate GoodRun(c: Cluster, events: seq<ClusterEvent>, spec: ComponentSpec, bound: int)
    decreases |events|
  {
    events == [] ||
    var before, ev := events[..|events| - 1], events[|events| - 1];
    && GoodRun(c, before, spec, bound)
    && (ev.Reconciled? ==>
          && ev.e.inp.spec == spec
          && Truthful(ClusterRun(c, before), ev.e.inp)
          && CleanRollback(ClusterRun(c, before), ev.e.inp, bound))
  }

  lemma ReconcileKeepsBound(c: Cluster, e: Event, bound: int)
    requires Bounded(c, Expected(e.inp.spec), bound) && NoSurge(e.inp.spec)
    requires Truthful(c, e.inp) && CleanRollback(c, e.inp, bound)
    ensures Bounded(c.(w := Step(c.w, e)), Expected(e.inp.spec), bound)
  {
    ReconcileTame(c, e.inp, bound);
    hide ReconcileWrites, Bounded, TameWrites, Truthful, CleanRollback, NoSurge;
    var ws := ReconcileWrites(c.w, e.inp);
    var n := if e.cut < |ws| then e.cut else |ws|;
    TamePrefix(c, ws, n, Expected(e.inp.spec), bound);
    assert Cut(ws, e.cut) == ws[..n];
  }

  /**
   Pod ceiling. With no surge, over whole runs of rollouts at one expected count, live plus
   terminating pods never exceed the larger of the initial load and the expected count; the last
   refill, planned after the old deployment is empty, is included.
   */
  lemma {:induction false} PodCeiling(c: Cluster, events: seq<ClusterEvent>, spec: ComponentSpec, bound: int)
    requires NoSurge(spec) && Bounded(c, Expected(spec), bound) && GoodRun(c, events, spec, bound)
    ensures Bounded(ClusterRun(c, events), Expected(spec), bound)
    ensures PodTotal(ClusterRun(c, events)) <= bound
    decreases |events|
  {
    if events != [] {
      var before, ev := events[..|events| - 1], events[|events| - 1];
      PodCeiling(c, before, spec, bound);
      hide Truthful, CleanRollback, NoSurge, Inv, BoundedAt;
      if ev.Reconciled? {
        ReconcileKeepsBound(ClusterRun(c, before), ev.e, bound);
      } else {
        EnvironmentKeepsBound(ClusterRun(c, before), ev, Expected(spec), bound);
      }
    }
  }

  /** The ceiling counted from the load at the start of the run. */
  lemma PodCeilingFromStart(c: Cluster, events: seq<ClusterEvent>, spec: ComponentSpec)
    requires NoSurge(spec) && Inv(c.w) && Owned(c) && GoodRun(c, events, spec, Max(Load(c), Expected(spec)))
    requires BothBounded(c, Expected(spec), Max(Load(c), Expected(spec)))
    ensures PodTotal(ClusterRun(c, events)) <= Max(Load(c), Expected(spec))
  {
    PodCeiling(c, events, spec, Max(Load(c), Expected(spec)));
  }

  // ---- why a rollback must wait ------------------------------------------------------------------------

  /** With the other deployment empty and settled, the current one is filled up in one write. */
  lemma RefillWrite(w: World, inp: Inputs, cur: nat, last: nat)
    requires NoSurge(inp.spec) && Find(w) == Found(cur, last) && w.deploys[last].replicas == 0
    requires w.deploys[cur].replicas < Expected(inp.spec) && IsStable(0, ObservedAt(inp, last))
    ensures ScalingStep(w, inp).writes == [SetReplicas(cur, Expected(inp.spec))]
  {
    hide StepsOf, IsStable;
    assert PlanIn(w, inp, cur, last) == Action(Current, Expected(inp.spec) - w.deploys[cur].replicas);
  }

  /**
   The refill planned once the other deployment is empty looks only at that deployment. It is
   issued whatever still terminates in the current one, and lands at expected plus those pods; so
   it stays within `expected` exactly when the current deployment has nothing terminating.
   */
  lemma RefillLoad(c: Cluster, inp: Inputs)
    requires Inv(c.w) && NoSurge(inp.spec) && Find(c.w).Found?
    requires var cur, last := Find(c.w).cur, Find(c.w).last;
             && IsStable(0, ObservedAt(inp, last)) && c.w.deploys[last].replicas == 0
             && Pods(c, last) == NO_PODS
             && c.w.deploys[cur].replicas < Expected(inp.spec)
             && Pods(c, cur).live <= c.w.deploys[cur].replicas
    ensures var d := AfterWrites(c, ScalingStep(c.w, inp).writes);
            && Load(d) == Expected(inp.spec) + Pods(c, Find(c.w).cur).terminating
            && (Load(d) <= Expected(inp.spec) <==> Pods(c, Find(c.w).cur).terminating == 0)
  {
    var cur, last := Find(c.w).cur, Find(c.w).last;
    RefillWrite(c.w, inp, cur, last);
    var wr := SetReplicas(cur, Expected(inp.spec));
    hide ScalingStep, StepsOf, Inv;
    ApplyOne(c.w, wr);
  }

  const ONE_AT_A_TIME := Policy(Some(IntVal(0)), Some(IntVal(1)))
  const THREE := ComponentSpec(Some(3), None, false, true, Some(ONE_AT_A_TIME), None, false, false)
  const OLD := Content("old", [])
  const NEW := Content("new", [])

  /** A rollout from "old" to "new" that has just taken one of three old pods down. */
  const MID_ROLLOUT := Cluster(
    World([Deployment("0", 2, Template(OLD, "0")), Deployment("1", 0, Template(NEW, "1"))], "1", true),
    PodCount(2, 1), NO_PODS)

  const DYING_POD := Pod(true, RUNNING, "", [])

  /** The spec is edited back to "old" while that pod still terminates. */
  const ROLL_BACK := Inputs(THREE, OLD, OLD, NEW,
    [Observation(5, DeployStatus(5, 2, 2, 2, 2, 0), [READY_POD, READY_POD, DYING_POD]),
     Observation(1, DeployStatus(1, 0, 0, 0, 0, 0), [])])

  /** Two reconciles and one created pod later four pods exist although three were expected all along. */
  lemma RollbackBreaksCeiling()
    ensures Inv(MID_ROLLOUT.w) && NoSurge(THREE) && Truthful(MID_ROLLOUT, ROLL_BACK)
    ensures Bounded(MID_ROLLOUT, 3, 3) && !CleanRollback(MID_ROLLOUT, ROLL_BACK, 3)
    ensures PodTotal(MID_ROLLOUT) == 3 == Expected(THREE)
    ensures PodTotal(ClusterRun(MID_ROLLOUT, [Reconciled(Event(ROLL_BACK, 2)), Reconciled(Event(ROLL_BACK, 2)),
                                              CreatePod(0)])) == 4
  {
    MidRolloutFacts();
    var c := MID_ROLLOUT;
    var e := Reconciled(Event(ROLL_BACK, 2));
    var c1 := c.(w := c.w.(currentGroup := "0"));
    FirstRollback();
    SecondReconcile(c1);
    var es := [e, e, CreatePod(0)];
    assert es[..2][..1] == [e] && es[..1][..0] == [];
    hide Step;
    assert ClusterRun(c, es[..1]) == ClusterStep(c, e) == c1;
    assert ClusterRun(c, es[..2]) == ClusterStep(c1, e);
  }

  lemma MidRolloutPods()
    ensures NotEvicted(ROLL_BACK.observed[0].labelled) == ROLL_BACK.observed[0].labelled
    ensures |Terminating(ROLL_BACK.observed[0].labelled)| == 1
  {
    var pods := ROLL_BACK.observed[0].labelled;
    assert pods[..2] == [READY_POD, READY_POD];
    assert [READY_POD, READY_POD][..1] == [READY_POD];
    assert [READY_POD][..0] == [];
    assert NotEvicted([READY_POD]) == [READY_POD];
    assert NotEvicted([READY_POD, READY_POD]) == [READY_POD, READY_POD];
  }

  lemma MidRolloutFacts()
    ensures Inv(MID_ROLLOUT.w) && NoSurge(THREE) && Truthful(MID_ROLLOUT, ROLL_BACK)
    ensures Load(MID_ROLLOUT) == 3 == Expected(THREE)
    ensures Bounded(MID_ROLLOUT, 3, 3) && !CleanRollback(MID_ROLLOUT, ROLL_BACK, 3)
  {
    assert MID_ROLLOUT.w.deploys[1].group == MID_ROLLOUT.w.currentGroup;
    MidRolloutPods();
    hide NotEvicted, Terminating;
    assert NotEvicted([]) == [] && Terminating([]) == [] by { MidRolloutNoPods(); }
  }

  lemma MidRolloutNoPods()
    ensures NotEvicted([]) == [] && Terminating([]) == []
  {
  }

  lemma FirstRollback()
    ensures Step(MID_ROLLOUT.w, Event(ROLL_BACK, 2)) == MID_ROLLOUT.w.(currentGroup := "0")
  {
    var w := MID_ROLLOUT.w;
    var ws := PrepareNewRollout(w, 0, OLD);
    assert Find(w) == Found(1, 0);
    assert ReconcileWrites(w, ROLL_BACK) == ws;
    assert ws[1..] == [ws[1]] && [ws[1]][1..] == [];
    assert Apply(w, ws[0]) == w by {
      assert w.deploys[0 := w.deploys[0]] == w.deploys;
    }
    assert ApplyAll(w, ws) == ApplyAll(w, ws[1..]) == Apply(w, ws[1]);
  }

  lemma SecondReconcile(c1: Cluster)
    requires c1 == MID_ROLLOUT.(w := MID_ROLLOUT.w.(currentGroup := "0")) && NoSurge(THREE)
    ensures Wanted(ClusterStep(c1, Reconciled(Event(ROLL_BACK, 2))).w, 0) == 3
  {
    var w := c1.w;
    assert Find(w) == Found(0, 1);
    assert w.deploys[0].group == w.currentGroup;
    assert NotEvicted([]) == [];
    assert RollingStep(w, ROLL_BACK) == Outcome([], false);
    assert ReconcileWrites(w, ROLL_BACK) == ScalingStep(w, ROLL_BACK).writes;
    RefillWrite(w, ROLL_BACK, 0, 1);
    var wr := SetReplicas(0, 3);
    ApplyOne(w, wr);
  }
}
