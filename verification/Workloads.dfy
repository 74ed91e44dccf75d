/**
 Deployments and pods as the operator reads them, and the guards that decide whether a
 Deployment has settled. The Go functions loop over slices; the methods here do the same and
 are proved against the predicates used everywhere else.
 */
module Workloads {
  import opened Common

  datatype ConditionStatus = CondTrue | CondFalse | CondUnknown

  datatype PodCondition = PodCondition(kind: string, status: ConditionStatus)

  datatype Pod = Pod(terminating: bool, phase: string, reason: string, conditions: seq<PodCondition>)

  datatype DeployStatus = DeployStatus(
    observedGeneration: int, replicas: int, updated: int, ready: int, available: int, unavailable: int)

  /** What one reconcile sees of one Deployment beyond its spec: generation, status, labelled pods. */
  datatype Observation = Observation(generation: int, status: DeployStatus, labelled: seq<Pod>)

  /** One container's resource limits, by resource name, in canonical quantity form. */
  datatype Container = Container(name: string, limits: map<string, string>)

  const READY := "Ready"
  const RUNNING := "Running"

  const READY_POD := Pod(false, RUNNING, "", [PodCondition(READY, CondTrue)])

  // ---- pod filters ---------------------------------------------------------------------

  function NotEvicted(pods: seq<Pod>): (r: seq<Pod>)
  {
    if pods == [] then []
    else NotEvicted(pods[..|pods| - 1]) + (if pods[|pods| - 1].reason == "Evicted" then [] else [pods[|pods| - 1]])
  }

  function Terminating(pods: seq<Pod>): (r: seq<Pod>)
    ensures |r| <= |pods|
    ensures |r| == 0 <==> forall p :: p in pods ==> !p.terminating
  {
    if pods == [] then []
    else
      var last := pods[|pods| - 1];
      assert pods == pods[..|pods| - 1] + [last];
      Terminating(pods[..|pods| - 1]) + (if last.terminating then [last] else [])
  }

  /** No Ready condition of the pod says anything but true. */
  predicate ReadyNotDenied(p: Pod)
  {
    forall i :: 0 <= i < |p.conditions| && p.conditions[i].kind == READY ==> p.conditions[i].status == CondTrue
  }

  predicate PassesReadiness(p: Pod) { p.phase == RUNNING && ReadyNotDenied(p) }

  /** A pod that counts as capacity: alive and passing the readiness test. */
  predicate Serving(p: Pod) { !p.terminating && PassesReadiness(p) }

  function ServingCount(pods: seq<Pod>): (n: nat)
    ensures n <= |pods|
    ensures (forall p :: p in pods ==> Serving(p)) ==> n == |pods|
  {
    if pods == [] then 0
    else
      var last := pods[|pods| - 1];
      assert pods == pods[..|pods| - 1] + [last];
      ServingCount(pods[..|pods| - 1]) + (if Serving(last) then 1 else 0)
  }

  /** The API server keeps pod conditions unique by type. */
  predicate UniqueReady(p: Pod)
  {
    forall i, j :: 0 <= i < j < |p.conditions| && p.conditions[i].kind == READY ==> p.conditions[j].kind != READY
  }

  method ListDeployPods(labelled: seq<Pod>) returns (ret: seq<Pod>)
    ensures ret == NotEvicted(labelled)
  {
    ret := [];
    for i := 0 to |labelled|
      invariant ret == NotEvicted(labelled[..i])
    {
      assert labelled[..i + 1][..i] == labelled[..i];
      if labelled[i].reason == "Evicted" {
        continue;
      }
      ret := ret + [labelled[i]];
    }
    assert labelled[..|labelled|] == labelled;
  }

  method GetTerminatingPods(pods: seq<Pod>) returns (ret: seq<Pod>)
    ensures ret == Terminating(pods)
  {
    ret := [];
    for i := 0 to |pods|
      invariant ret == Terminating(pods[..i])
    {
      assert pods[..i + 1][..i] == pods[..i];
      if pods[i].terminating {
        ret := ret + [pods[i]];
      }
    }
    assert pods[..|pods|] == pods;
  }

  /** The pods that fail the readiness test; empty exactly when every pod passes it. */
  method GetNotReadyPods(pods: seq<Pod>) returns (ret: seq<Pod>)
    ensures ret == [] <==> forall p :: p in pods ==> PassesReadiness(p)
    ensures forall p :: p in ret ==> p in pods && !PassesReadiness(p)
  {
    ret := [];
    for i := 0 to |pods|
      invariant ret == [] <==> forall k :: 0 <= k < i ==> PassesReadiness(pods[k])
      invariant forall p :: p in ret ==> p in pods && !PassesReadiness(p)
    {
      var pod := pods[i];
      if pod.phase != RUNNING {
        ret := ret + [pod];
        continue;
      }
      ghost var before := ret;
      for j := 0 to |pod.conditions|
        invariant ret == [] <==> before == [] && forall k :: 0 <= k < j && pod.conditions[k].kind == READY ==>
                                                               pod.conditions[k].status == CondTrue
        invariant forall p :: p in ret ==> p in pods && !PassesReadiness(p)
      {
        if pod.conditions[j].kind != READY {
          continue;
        }
        if pod.conditions[j].status != CondTrue {
          ret := ret + [pod];
        }
      }
    }
  }

  /** GetPodConditionByType followed by the status test; an absent condition is not true. */
  method ReadyConditionTrue(p: Pod) returns (yes: bool)
    ensures yes ==> exists i :: 0 <= i < |p.conditions| && p.conditions[i] == PodCondition(READY, CondTrue)
    ensures yes == FirstReadyTrue(p.conditions)
  {
    for i := 0 to |p.conditions|
      invariant FirstReadyTrue(p.conditions) == FirstReadyTrue(p.conditions[i..])
    {
      if p.conditions[i].kind == READY {
        return p.conditions[i].status == CondTrue;
      }
    }
    return false;
  }

  predicate FirstReadyTrue(cs: seq<PodCondition>)
  {
    cs != [] && (if cs[0].kind == READY then cs[0].status == CondTrue else FirstReadyTrue(cs[1..]))
  }

  /** The strict readiness count used before spending an availability budget. */
  predicate StrictlyReady(p: Pod) { !p.terminating && p.phase == RUNNING && FirstReadyTrue(p.conditions) }

  function StrictlyReadyCount(pods: seq<Pod>): (n: nat)
  {
    if pods == [] then 0
    else StrictlyReadyCount(pods[..|pods| - 1]) + (if StrictlyReady(pods[|pods| - 1]) then 1 else 0)
  }

  lemma {:induction false} FirstReadyIsReady(cs: seq<PodCondition>)
    requires FirstReadyTrue(cs)
    ensures exists i :: 0 <= i < |cs| && cs[i] == PodCondition(READY, CondTrue)
  {
    if cs[0].kind != READY {
      FirstReadyIsReady(cs[1..]);
      var i :| 0 <= i < |cs[1..]| && cs[1..][i] == PodCondition(READY, CondTrue);
      assert cs[i + 1] == PodCondition(READY, CondTrue);
    }
  }

  lemma {:induction false} StrictReadinessServes(pods: seq<Pod>)
    requires forall p :: p in pods ==> UniqueReady(p)
    ensures StrictlyReadyCount(pods) <= ServingCount(pods)
  {
    if pods != [] {
      var last := pods[|pods| - 1];
      StrictReadinessServes(pods[..|pods| - 1]);
      assert last in pods;
      if StrictlyReady(last) {
        FirstReadyIsReady(last.conditions);
        var i :| 0 <= i < |last.conditions| && last.conditions[i] == PodCondition(READY, CondTrue);
        forall j | 0 <= j < |last.conditions| && last.conditions[j].kind == READY
          ensures last.conditions[j].status == CondTrue
        {
          assert i == j;
        }
      }
    }
  }

  // ---- stability of one Deployment -------------------------------------------------------

  predicate StatusSettled(replicas: int, generation: int, s: DeployStatus)
  {
    && s.observedGeneration == generation
    && replicas == s.replicas
    && s.replicas == s.updated
    && s.replicas == s.available
    && s.replicas == s.ready
    && s.unavailable < 1
  }

  /** Settled: no pod terminating or failing readiness, one pod per desired replica, status caught up. */
  predicate IsStable(replicas: int, o: Observation)
  {
    && PodsSettled(replicas, NotEvicted(o.labelled))
    && StatusSettled(replicas, o.generation, o.status)
  }

  /** logicAnd: all conditions, or the index of the first one that fails. */
  method LogicAnd(b: seq<bool>) returns (result: bool, falseIndex: int)
    ensures result <==> forall i :: 0 <= i < |b| ==> b[i]
    ensures result ==> falseIndex == -1
    ensures !result ==> 0 <= falseIndex < |b| && !b[falseIndex] && forall i :: 0 <= i < falseIndex ==> b[i]
  {
    for i := 0 to |b|
      invariant forall j :: 0 <= j < i ==> b[j]
    {
      if !b[i] {
        return false, i;
      }
    }
    return true, -1;
  }

  predicate PodsSettled(replicas: int, pods: seq<Pod>)
  {
    && (forall p :: p in pods ==> Serving(p))
    && |pods| == replicas
  }

  method PodsAreSettled(replicas: int, pods: seq<Pod>) returns (none: bool, allReady: bool, enough: bool)
    ensures none && allReady && enough <==> PodsSettled(replicas, pods)
  {
    var terminating := GetTerminatingPods(pods);
    var notReady := GetNotReadyPods(pods);
    none, allReady, enough := |terminating| < 1, |notReady| < 1, |pods| == replicas;
  }

  method DeploymentIsStable(replicas: int, o: Observation) returns (stable: bool)
    ensures stable <==> IsStable(replicas, o)
  {
    var pods := ListDeployPods(o.labelled);
    var none, allReady, enough := PodsAreSettled(replicas, pods);
    var s := o.status;
    var b := [none, allReady, enough, s.observedGeneration == o.generation, replicas == s.replicas,
              s.replicas == s.updated, s.replicas == s.available, s.replicas == s.ready, s.unavailable < 1];
    var failed;
    stable, failed := LogicAnd(b);
    assert stable <==> (none && allReady && enough) && StatusSettled(replicas, o.generation, s) by {
      if stable {
        assert b[0] && b[1] && b[2] && b[3] && b[4] && b[5] && b[6] && b[7] && b[8];
      }
    }
  }

  /** Settled except for pods that cannot become ready: the preceding scale is observed, nothing terminates. */
  predicate IsStableButUnavailable(replicas: int, o: Observation)
  {
    var pods := NotEvicted(o.labelled);
    && o.status.observedGeneration == o.generation
    && o.status.replicas == replicas
    && o.status.updated == o.status.replicas
    && |pods| == replicas
    && |Terminating(pods)| == 0
  }

  /** The guard in front of every rollout scale step. */
  predicate DeploymentsStable(cur: int, curObs: Observation, last: int, lastObs: Observation, allowUnavailable: bool)
  {
    && IsStable(last, lastObs)
    && (allowUnavailable ==> curObs.status.available <= StrictlyReadyCount(NotEvicted(curObs.labelled)))
    && (IsStable(cur, curObs) || (allowUnavailable && IsStableButUnavailable(cur, curObs)))
  }

  method CheckDeploymentsStable(cur: int, curObs: Observation, last: int, lastObs: Observation, allowUnavailable: bool)
    returns (ok: bool)
    ensures ok <==> DeploymentsStable(cur, curObs, last, lastObs, allowUnavailable)
  {
    var lastStable := DeploymentIsStable(last, lastObs);
    if !lastStable {
      return false;
    }
    var pods := ListDeployPods(curObs.labelled);
    if allowUnavailable {
      var readyPods := 0;
      for i := 0 to |pods|
        invariant readyPods == StrictlyReadyCount(pods[..i])
      {
        assert pods[..i + 1][..i] == pods[..i];
        var ready := ReadyConditionTrue(pods[i]);
        if !pods[i].terminating && pods[i].phase == RUNNING && ready {
          readyPods := readyPods + 1;
        }
      }
      assert pods[..|pods|] == pods;
      if curObs.status.available > readyPods {
        return false;
      }
    }
    var stable := DeploymentIsStable(cur, curObs);
    if !stable && allowUnavailable {
      var terminating := GetTerminatingPods(pods);
      stable := curObs.status.observedGeneration == curObs.generation && curObs.status.replicas == cur
                && curObs.status.updated == curObs.status.replicas && |pods| == cur && |terminating| == 0;
    }
    return stable;
  }

  // ---- resource limits -------------------------------------------------------------------

  /** Limits by container name; a later container of the same name replaces an earlier one. */
  function LimitsByName(cs: seq<Container>): map<string, map<string, string>>
  {
    if cs == [] then map[]
    else LimitsByName(cs[..|cs| - 1])[cs[|cs| - 1].name := cs[|cs| - 1].limits]
  }

  predicate SameLimits(a: seq<Container>, b: seq<Container>) { LimitsByName(a) == LimitsByName(b) }

  /** Equal sizes and inclusion of one map in the other make two maps equal. */
  lemma SameSizeInclusion<K, V>(a: map<K, V>, b: map<K, V>)
    requires |a| == |b|
    requires forall k :: k in a ==> k in b && a[k] == b[k]
    ensures a == b
  {
    assert a.Keys <= b.Keys;
    SubsetOfSameSize(a.Keys, b.Keys);
  }

  lemma SubsetOfSameSize<T>(a: set<T>, b: set<T>)
    requires a <= b && |a| == |b|
    ensures a == b
  {
    assert b == a + (b - a);
    assert |b| == |a| + |b - a|;
  }

  method CollectLimits(cs: seq<Container>) returns (m: map<string, map<string, string>>)
    ensures m == LimitsByName(cs)
  {
    m := map[];
    for i := 0 to |cs|
      invariant m == LimitsByName(cs[..i])
    {
      assert cs[..i + 1][..i] == cs[..i];
      m := m[cs[i].name := cs[i].limits];
    }
    assert cs[..|cs|] == cs;
  }

  method SameResourceList(a: map<string, string>, b: map<string, string>) returns (same: bool)
    ensures same <==> a == b
  {
    if |a| != |b| {
      return false;
    }
    var todo := a.Keys;
    while todo != {}
      invariant todo <= a.Keys
      invariant forall k :: k in a.Keys - todo ==> k in b && a[k] == b[k]
    {
      var k :| k in todo;
      if k !in b || a[k] != b[k] {
        return false;
      }
      todo := todo - {k};
    }
    SameSizeInclusion(a, b);
    return true;
  }

  /** compareDeployResourceLimitEqual: sizes, then one-way inclusion, decide equality of the limits. */
  method CompareDeployResourceLimitEqual(current: seq<Container>, last: seq<Container>) returns (same: bool)
    ensures same <==> SameLimits(current, last)
  {
    var a := CollectLimits(current);
    var b := CollectLimits(last);
    if |a| != |b| {
      return false;
    }
    var todo := a.Keys;
    while todo != {}
      invariant todo <= a.Keys
      invariant forall k :: k in a.Keys - todo ==> k in b && a[k] == b[k]
    {
      var k :| k in todo;
      if k !in b {
        return false;
      }
      var sameList := SameResourceList(a[k], b[k]);
      if !sameList {
        return false;
      }
      todo := todo - {k};
    }
    SameSizeInclusion(a, b);
    return true;
  }

  // ---- what the filters and guards amount to ---------------------------------------------------

  /** Every pod that is not evicted is listed as often as it occurs, and no other. */
  lemma {:induction false} NotEvictedCounts(pods: seq<Pod>, p: Pod)
    ensures multiset(NotEvicted(pods))[p] == if p.reason == "Evicted" then 0 else multiset(pods)[p]
  {
    if pods != [] {
      NotEvictedCounts(pods[..|pods| - 1], p);
      assert pods == pods[..|pods| - 1] + [pods[|pods| - 1]];
    }
  }

  lemma {:induction false} TerminatingCounts(pods: seq<Pod>, p: Pod)
    ensures multiset(Terminating(pods))[p] == if p.terminating then multiset(pods)[p] else 0
  {
    if pods != [] {
      TerminatingCounts(pods[..|pods| - 1], p);
      assert pods == pods[..|pods| - 1] + [pods[|pods| - 1]];
    }
  }

  /**
   A Deployment counts as settled exactly when the pods that were not evicted number its replicas,
   all of them alive, running and not denied readiness, and its status reports the current
   generation with that many replicas, all updated, ready and available, and none unavailable.
   */
  lemma SettledIff(replicas: int, o: Observation)
    ensures IsStable(replicas, o) <==>
            && |NotEvicted(o.labelled)| == replicas
            && (forall p :: p in o.labelled && p.reason != "Evicted" ==>
                  && !p.terminating && p.phase == "Running"
                  && forall c :: c in p.conditions && c.kind == "Ready" ==> c.status == CondTrue)
            && o.status == DeployStatus(o.generation, replicas, replicas, replicas, replicas, o.status.unavailable)
            && o.status.unavailable <= 0
  {
    forall p
      ensures p in NotEvicted(o.labelled) <==> p in o.labelled && p.reason != "Evicted"
    {
      NotEvictedCounts(o.labelled, p);
      assert p in NotEvicted(o.labelled) <==> multiset(NotEvicted(o.labelled))[p] > 0;
      assert p in o.labelled <==> multiset(o.labelled)[p] > 0;
    }
    forall p: Pod
      ensures ReadyNotDenied(p) <==> forall c :: c in p.conditions && c.kind == "Ready" ==> c.status == CondTrue
    {
      if forall c :: c in p.conditions && c.kind == "Ready" ==> c.status == CondTrue {
        assert forall i :: 0 <= i < |p.conditions| ==> p.conditions[i] in p.conditions;
      }
    }
  }

  /** Container names are unique in a pod template. */
  predicate UniqueNames(cs: seq<Container>) { forall i, j :: 0 <= i < j < |cs| ==> cs[i].name != cs[j].name }

  lemma {:induction false} LimitsOf(cs: seq<Container>, name: string)
    requires UniqueNames(cs)
    ensures name in LimitsByName(cs) <==> exists i :: 0 <= i < |cs| && cs[i].name == name
    ensures forall i :: 0 <= i < |cs| && cs[i].name == name ==> name in LimitsByName(cs) && LimitsByName(cs)[name] == cs[i].limits
  {
    if cs != [] {
      var init := cs[..|cs| - 1];
      LimitsOf(init, name);
      assert forall i :: 0 <= i < |init| ==> init[i] == cs[i];
    }
  }

  /** Limits are equal exactly when both templates have the same containers with the same limits, in any order. */
  lemma SameLimitsIff(a: seq<Container>, b: seq<Container>)
    requires UniqueNames(a) && UniqueNames(b)
    ensures SameLimits(a, b) <==> forall c :: c in a <==> c in b
  {
    hide LimitsByName;
    forall name
      ensures name in LimitsByName(a) <==> exists i :: 0 <= i < |a| && a[i].name == name
      ensures name in LimitsByName(b) <==> exists i :: 0 <= i < |b| && b[i].name == name
      ensures forall i :: 0 <= i < |a| && a[i].name == name ==> LimitsByName(a)[name] == a[i].limits
      ensures forall i :: 0 <= i < |b| && b[i].name == name ==> LimitsByName(b)[name] == b[i].limits
    {
      LimitsOf(a, name);
      LimitsOf(b, name);
    }
    if SameLimits(a, b) {
      forall c
        ensures c in a <==> c in b
      {
        if c in a { SameEntry(a, b, c); }
        if c in b { SameEntry(b, a, c); }
      }
    }
    if forall c :: c in a <==> c in b {
      forall name
        ensures name in LimitsByName(a) <==> name in LimitsByName(b)
        ensures name in LimitsByName(a) && name in LimitsByName(b) ==> LimitsByName(a)[name] == LimitsByName(b)[name]
      {
        if i :| 0 <= i < |a| && a[i].name == name { assert a[i] in b; }
        if i :| 0 <= i < |b| && b[i].name == name { assert b[i] in a; }
      }
      assert LimitsByName(a) == LimitsByName(b);
    }
  }

  lemma SameEntry(a: seq<Container>, b: seq<Container>, c: Container)
    requires UniqueNames(a) && UniqueNames(b) && LimitsByName(a) == LimitsByName(b) && c in a
    ensures c in b
  {
    hide LimitsByName;
    LimitsOf(a, c.name);
    LimitsOf(b, c.name);
    var i :| 0 <= i < |b| && b[i].name == c.name;
    assert b[i] == c;
  }

  /** What counts as serving, pod by pod: alive, running, and no readiness condition that says otherwise. */
  lemma ServingCounts(pods: seq<Pod>, p: Pod)
    ensures ServingCount([]) == 0
    ensures ServingCount(pods + [p]) == ServingCount(pods) +
            if !p.terminating && p.phase == "Running" && (forall c :: c in p.conditions && c.kind == "Ready" ==> c.status == CondTrue)
            then 1 else 0
  {
    assert (pods + [p])[..|pods|] == pods;
    if forall c :: c in p.conditions && c.kind == READY ==> c.status == CondTrue {
      assert ReadyNotDenied(p);
    } else {
      var c :| c in p.conditions && c.kind == READY && c.status != CondTrue;
      var i :| 0 <= i < |p.conditions| && p.conditions[i] == c;
      assert !ReadyNotDenied(p);
    }
    hide ReadyNotDenied;
  }
}
