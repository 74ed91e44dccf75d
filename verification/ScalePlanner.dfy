/** The scale planners: from replica counts and observed status to at most one replica change. */
module ScalePlanner {
  import opened Common
  import opened RollingPolicy
  import opened Workloads

  /** The part of the Milvus spec that drives one component's Deployments. */
  datatype ComponentSpec = ComponentSpec(
    replicas: Option<int>,          // desired replicas; -1 hands control to an external autoscaler
    hpa: Option<Option<int>>,       // explicit autoscaler with its optional minimum
    force: bool,                    // image update mode "force"
    useRolling: bool,
    global: Option<Policy>,
    component: Option<Policy>,
    upgradeStopping: bool,
    paused: bool)

  /** Nil replicas mean one. */
  function ReplicasValue(r: Option<int>): int { if r.Some? then r.value else 1 }

  function Expected(spec: ComponentSpec): int { ReplicasValue(spec.replicas) }

  function StrategyOf(spec: ComponentSpec): Strategy
  {
    EffectiveStrategy(spec.force, spec.useRolling, spec.global, spec.component)
  }

  function StepsOf(spec: ComponentSpec): Steps { RolloutSteps(StrategyOf(spec), Expected(spec)) }

  function MinReplicas(spec: ComponentSpec): int
  {
    if spec.hpa.Some? && spec.hpa.value.Some? then spec.hpa.value.value else 1
  }

  datatype ScaleKind = Normal | Rollout | HPA | ExternalHPA | Force

  function CheckScaleKind(spec: ComponentSpec, last: int): ScaleKind
  {
    if spec.force then Force
    else if spec.hpa.Some? then HPA
    else if Expected(spec) < 0 then ExternalHPA
    else if last > 0 then Rollout
    else Normal
  }

  datatype Target = Current | Last

  /** At most one Deployment changes; a change of 0 is no action. */
  datatype Action = Action(target: Target, change: int)

  const NO_ACTION := Action(Current, 0)

  function PlanForForceUpgrade(expected: int, cur: int, last: int): Action
  {
    if cur != expected then Action(Current, expected - cur)
    else if last != 0 then Action(Last, -last)
    else NO_ACTION
  }

  function PlanForHPA(minReplicas: int, cur: int, last: int, curReady: int): Action
  {
    if last > 0 then
      var target := Max(minReplicas, last);
      if cur < target then Action(Current, target - cur)
      else if curReady < target then NO_ACTION
      else Action(Last, -1)
    else if cur == 0 then Action(Current, minReplicas)
    else NO_ACTION
  }

  function PlanForExternalHPA(rolling: bool, cur: int, last: int, curReady: int): Action
  {
    if cur == 0 && last == 0 then Action(Current, 1)
    else if cur < last then Action(Current, last - cur)
    else if rolling && last > 0 && curReady >= last then Action(Last, -last)
    else NO_ACTION
  }

  function PlanWithoutSurge(unavailable: int, expected: int, cur: int, last: int, curAvailable: int,
                            lastAvailable: int): Action
  {
    if cur + last < expected then Action(Current, expected - (cur + last))
    else
      var available := Min(curAvailable, cur) + Min(lastAvailable, last);
      var down := Min(last, available - Max(0, expected - unavailable));
      if down > 0 then Action(Last, -down) else NO_ACTION
  }

  function PlanSameLimits(steps: Steps, expected: int, cur: int, last: int): Action
  {
    var total := cur + last;
    if total == expected && last == 0 then NO_ACTION
    else if total > expected then
      if last > 0 then Action(Last, -Min(Max(1, steps.unavailable), last)) else NO_ACTION
    else Action(Current, Min(steps.surge, Min(expected - cur, expected + steps.surge - total)))
  }

  function PlanChangedLimits(steps: Steps, expected: int, cur: int, last: int): Action
  {
    if last > 0 then
      if cur < last || cur < expected then
        if last < expected then Action(Current, expected - cur) else Action(Current, last - cur)
      else Action(Last, -Min(Max(1, steps.unavailable), last))
    else if cur > expected then Action(Current, -Min(Max(1, steps.unavailable), cur - expected))
    else if cur < expected then Action(Current, expected - cur)
    else NO_ACTION
  }

  function PlanForRollout(steps: Steps, expected: int, cur: int, last: int, curAvailable: int, lastAvailable: int,
                          sameLimits: bool): Action
  {
    if steps.surge == 0 then PlanWithoutSurge(steps.unavailable, expected, cur, last, curAvailable, lastAvailable)
    else if sameLimits then PlanSameLimits(steps, expected, cur, last)
    else PlanChangedLimits(steps, expected, cur, last)
  }

  function PlanForNormalState(expected: int, cur: int): Action
  {
    if cur > expected then Action(Current, -1)
    else if cur == expected then NO_ACTION
    else Action(Current, expected - cur)
  }

  function PlanNextScaleAction(spec: ComponentSpec, rolling: bool, cur: int, curObs: Observation, last: int,
                               lastObs: Observation, sameLimits: bool): Action
  {
    match CheckScaleKind(spec, last)
    case HPA => PlanForHPA(MinReplicas(spec), cur, last, curObs.status.ready)
    case ExternalHPA => PlanForExternalHPA(rolling, cur, last, curObs.status.ready)
    case Rollout => PlanForRollout(StepsOf(spec), Expected(spec), cur, last, curObs.status.available,
                                   lastObs.status.available, sameLimits)
    case Force => PlanForForceUpgrade(Expected(spec), cur, last)
    case Normal => PlanForNormalState(Expected(spec), cur)
  }

  /** checkCanScaleNow: which pods must have settled before the planner may act. */
  predicate CanScaleNow(spec: ComponentSpec, cur: int, curObs: Observation, last: int, lastObs: Observation)
  {
    var kind := CheckScaleKind(spec, last);
    if kind == HPA || kind == Force then true
    else
      var steps := StepsOf(spec);
      if kind != Rollout then
        steps.surge == 0 && cur < Expected(spec) ==> IsStable(last, lastObs)
      else
        DeploymentsStable(cur, curObs, last, lastObs, steps.surge == 0 && steps.unavailable > 0)
  }

  method CheckCanScaleNow(spec: ComponentSpec, cur: int, curObs: Observation, last: int, lastObs: Observation)
    returns (ok: bool)
    ensures ok <==> CanScaleNow(spec, cur, curObs, last, lastObs)
  {
    var kind := CheckScaleKind(spec, last);
    if kind == HPA || kind == Force {
      return true;
    }
    var steps := RolloutSteps(StrategyOf(spec), Expected(spec));
    if kind != Rollout {
      if steps.surge == 0 && cur < Expected(spec) {
        ok := DeploymentIsStable(last, lastObs);
        return;
      }
      return true;
    }
    ok := CheckDeploymentsStable(cur, curObs, last, lastObs, steps.surge == 0 && steps.unavailable > 0);
  }

  /** No planner ever raises the old deployment, and none takes it below zero. */
  lemma OldDeploymentNeverRaised(spec: ComponentSpec, rolling: bool, cur: int, curObs: Observation, last: int,
                                 lastObs: Observation, sameLimits: bool)
    requires cur >= 0 && last >= 0
    ensures var a := PlanNextScaleAction(spec, rolling, cur, curObs, last, lastObs, sameLimits);
            a.target == Last ==> -last <= a.change < 0
  {
  }

  /** With nothing left in the old deployment, every planner leaves it alone. */
  lemma EmptyOldDeploymentLeftAlone(spec: ComponentSpec, rolling: bool, cur: int, curObs: Observation,
                                    lastObs: Observation, sameLimits: bool)
    requires cur >= 0
    ensures PlanNextScaleAction(spec, rolling, cur, curObs, 0, lastObs, sameLimits).target == Current
  {
    OldDeploymentNeverRaised(spec, rolling, cur, curObs, 0, lastObs, sameLimits);
  }
}
