/** The status of a component with deployment groups: one status that stands for all of its groups. */
module StatusAggregation {
  import opened Common

  datatype ConditionType = Progressing | Available | OtherType

  datatype Condition = Condition(ctype: ConditionType, isTrue: bool, reason: string)

  datatype Counts = Counts(replicas: int, updated: int, ready: int, available: int, unavailable: int)

  datatype DeploymentStatus = DeploymentStatus(observedGeneration: nat, counts: Counts, conditions: seq<Condition>)

  datatype ComponentStatus = ComponentStatus(generation: nat, image: string, status: DeploymentStatus)

  const NO_STATUS := ComponentStatus(0, "", DeploymentStatus(0, Counts(0, 0, 0, 0, 0), []))

  const COMPLETE_REASON := "NewReplicaSetAvailable"
  const PAUSED_REASON := "DeploymentPaused"

  datatype State = StateComplete | StatePaused | StateProgressing | StateFailed

  function FindCondition(conditions: seq<Condition>, t: ConditionType): Option<Condition>
  {
    if conditions == [] then None
    else if conditions[0].ctype == t then Some(conditions[0])
    else FindCondition(conditions[1..], t)
  }

  function GetState(c: ComponentStatus): State
  {
    if c.status.observedGeneration < c.generation then StateProgressing
    else
      var p := FindCondition(c.status.conditions, Progressing);
      if p == None then StateProgressing
      else if p.value.reason == PAUSED_REASON then StatePaused
      else if !p.value.isTrue then StateFailed
      else if p.value.reason == COMPLETE_REASON then StateComplete
      else StateProgressing
  }

  predicate DeploymentReady(s: DeploymentStatus)
  {
    var a := FindCondition(s.conditions, Available);
    a.Some? && a.value.isTrue
  }

  /** How far a group is from done; the worst one speaks for the component. */
  function Severity(s: State): nat
  {
    match s
    case StateComplete => 0
    case StatePaused => 1
    case StateProgressing => 2
    case StateFailed => 3
  }

  predicate IsWorst(s: State, statuses: seq<ComponentStatus>)
  {
    && (exists i :: 0 <= i < |statuses| && GetState(statuses[i]) == s)
    && (forall i :: 0 <= i < |statuses| ==> Severity(GetState(statuses[i])) <= Severity(s))
  }

  /** The replica counts of all groups together, each kind on its own. */
  function Total(statuses: seq<ComponentStatus>): Counts
  {
    if statuses == [] then Counts(0, 0, 0, 0, 0)
    else AddCounts(Total(statuses[..|statuses| - 1]), statuses[|statuses| - 1].status.counts)
  }

  predicate SameImage(statuses: seq<ComponentStatus>, image: string)
  {
    forall i :: 0 <= i < |statuses| ==> statuses[i].image == image
  }

  /** What the aggregate promises about the groups it replaces. */
  ghost predicate Represents(agg: ComponentStatus, statuses: seq<ComponentStatus>)
  {
    && IsWorst(GetState(agg), statuses)
    && agg.status.counts == Total(statuses)
    && (DeploymentReady(agg.status) <==> forall i :: 0 <= i < |statuses| ==> DeploymentReady(statuses[i].status))
    && (forall image :: image != "" ==> (agg.image == image <==> SameImage(statuses, image)))
    && (forall i :: 0 <= i < |statuses| ==> statuses[i].generation <= agg.generation)
    && (exists i :: 0 <= i < |statuses| && statuses[i].generation == agg.generation == agg.status.observedGeneration)
  }

  /** What the loop over the groups collects. */
  datatype Tally = Tally(generation: nat, image: string, counts: Counts, allAvailable: bool)

  datatype Flags = Flags(allComplete: bool, allCompleteOrPaused: bool, anyFailed: bool)

  ghost predicate StatesTallied(f: Flags, statuses: seq<ComponentStatus>, n: nat)
    requires n <= |statuses|
  {
    && (f.allComplete <==> forall j :: 0 <= j < n ==> GetState(statuses[j]) == StateComplete)
    && (f.allCompleteOrPaused <==> forall j :: 0 <= j < n ==> GetState(statuses[j]) in {StateComplete, StatePaused})
    && (f.anyFailed <==> exists j :: 0 <= j < n && GetState(statuses[j]) == StateFailed)
  }

  ghost predicate RestTallied(t: Tally, statuses: seq<ComponentStatus>, n: nat, first: string)
    requires n <= |statuses|
  {
    && (t.allAvailable <==> forall j :: 0 <= j < n ==> DeploymentReady(statuses[j].status))
    && (forall j :: 0 <= j < n ==> statuses[j].generation <= t.generation)
    && (t.generation == 0 || exists j :: 0 <= j < n && statuses[j].generation == t.generation)
    && t.image == (if forall j :: 0 <= j < n ==> statuses[j].image == first then first else "")
    && t.counts == Total(statuses[..n])
  }

  function AddCounts(a: Counts, b: Counts): Counts
  {
    Counts(a.replicas + b.replicas, a.updated + b.updated, a.ready + b.ready, a.available + b.available,
           a.unavailable + b.unavailable)
  }

  method TallyState(f: Flags, statuses: seq<ComponentStatus>, i: nat) returns (r: Flags)
    requires i < |statuses| && StatesTallied(f, statuses, i)
    ensures StatesTallied(r, statuses, i + 1)
  {
    hide GetState;
    match GetState(statuses[i])
    case StateComplete => r := f;
    case StatePaused => r := f.(allComplete := false);
    case StateFailed => r := f.(allComplete := false, allCompleteOrPaused := false, anyFailed := true);
    case StateProgressing => r := f.(allComplete := false, allCompleteOrPaused := false);
  }

  method TallyRest(t: Tally, statuses: seq<ComponentStatus>, i: nat, ghost first: string) returns (r: Tally)
    requires i < |statuses| && RestTallied(t, statuses, i, first)
    ensures RestTallied(r, statuses, i + 1, first)
  {
    hide DeploymentReady;
    var s := statuses[i];
    assert statuses[..i + 1][..i] == statuses[..i] && statuses[..i + 1][i] == s;
    r := t.(counts := AddCounts(t.counts, s.status.counts));
    if s.generation > t.generation {
      r := r.(generation := s.generation);
    }
    if s.image != t.image {
      r := r.(image := "");
    }
    if !DeploymentReady(s.status) {
      r := r.(allAvailable := false);
    }
  }

  /** aggregateComponentDeployStatuses. */
  method Aggregate(statuses: seq<ComponentStatus>) returns (agg: ComponentStatus)
    ensures statuses == [] ==> agg == NO_STATUS
    ensures statuses != [] ==> Represents(agg, statuses)
  {
    if |statuses| == 0 {
      return NO_STATUS;
    }
    hide GetState, DeploymentReady, Total, Represents;
    ghost var first := statuses[0].image;
    var t, f := Tally(0, statuses[0].image, Counts(0, 0, 0, 0, 0), true), Flags(true, true, false);
    for i := 0 to |statuses|
      invariant StatesTallied(f, statuses, i) && RestTallied(t, statuses, i, first)
    {
      t := TallyRest(t, statuses, i, first);
      f := TallyState(f, statuses, i);
    }
    hide StatesTallied, RestTallied;
    var condition := Condition(Progressing, true, "DeploymentGroupsUpdating");
    if f.allComplete {
      condition := condition.(reason := COMPLETE_REASON);
    } else if f.allCompleteOrPaused {
      condition := condition.(reason := PAUSED_REASON);
    } else if f.anyFailed {
      condition := condition.(isTrue := false, reason := "DeploymentGroupFailed");
    }
    var conditions := [condition, Condition(Available, t.allAvailable, "DeploymentGroupsAggregated")];
    agg := ComponentStatus(t.generation, t.image, DeploymentStatus(t.generation, t.counts, conditions));
    AggregateState(agg, condition, t.allAvailable);
    TallyRepresents(t, f, agg, statuses);
  }

  lemma TallyRepresents(t: Tally, f: Flags, agg: ComponentStatus, statuses: seq<ComponentStatus>)
    requires statuses != [] && StatesTallied(f, statuses, |statuses|) && RestTallied(t, statuses, |statuses|, statuses[0].image)
    requires agg.generation == agg.status.observedGeneration == t.generation && agg.image == t.image
    requires agg.status.counts == t.counts && (DeploymentReady(agg.status) <==> t.allAvailable)
    requires GetState(agg) == if f.allComplete then StateComplete else if f.allCompleteOrPaused then StatePaused
                              else if f.anyFailed then StateFailed else StateProgressing
    ensures Represents(agg, statuses)
  {
    hide GetState, DeploymentReady, Total;
    assert statuses[..|statuses|] == statuses;
    forall image | image != ""
      ensures agg.image == image <==> SameImage(statuses, image)
    {
      if SameImage(statuses, image) { assert statuses[0].image == image; }
    }
    assert t.generation == 0 ==> statuses[0].generation == 0;
    assert IsWorst(GetState(agg), statuses) by {
      if f.allComplete { assert GetState(statuses[0]) == StateComplete; }
    }
  }

  lemma AggregateState(agg: ComponentStatus, condition: Condition, allAvailable: bool)
    requires agg.status.observedGeneration == agg.generation && condition.ctype == Progressing
    requires agg.status.conditions == [condition, Condition(Available, allAvailable, "DeploymentGroupsAggregated")]
    ensures GetState(agg) == if condition.reason == PAUSED_REASON then StatePaused
                             else if !condition.isTrue then StateFailed
                             else if condition.reason == COMPLETE_REASON then StateComplete else StateProgressing
    ensures DeploymentReady(agg.status) <==> allAvailable
  {
    assert FindCondition(agg.status.conditions[1..], Available) == Some(agg.status.conditions[1]);
  }

  /** IsImageUpdated on a recorded status. */
  predicate ImageUpdated(c: ComponentStatus, specImage: string)
  {
    c.image == specImage && GetState(c) == StateComplete
  }

  /** The gate asked of the aggregate is the gate asked of every group. */
  lemma UpdatedIffEveryGroupIs(agg: ComponentStatus, statuses: seq<ComponentStatus>, specImage: string)
    requires statuses != [] && Represents(agg, statuses) && specImage != ""
    ensures ImageUpdated(agg, specImage) <==> forall i :: 0 <= i < |statuses| ==> ImageUpdated(statuses[i], specImage)
  {
    hide GetState, DeploymentReady, Total;
    var i :| 0 <= i < |statuses| && GetState(statuses[i]) == GetState(agg);
    assert agg.image == specImage <==> SameImage(statuses, specImage);
    if forall k :: 0 <= k < |statuses| ==> ImageUpdated(statuses[k], specImage) {
      assert ImageUpdated(statuses[i], specImage);
    }
  }

  /** The worst of a list of lists is the worst of the worst, so groups may be aggregated in parts. */
  lemma WorstOfParts(a: seq<ComponentStatus>, b: seq<ComponentStatus>, x: State, y: State)
    requires IsWorst(x, a) && IsWorst(y, b)
    ensures IsWorst(if Severity(x) < Severity(y) then y else x, a + b)
  {
    var i :| 0 <= i < |a| && GetState(a[i]) == x;
    var j :| 0 <= j < |b| && GetState(b[j]) == y;
    assert (a + b)[i] == a[i] && (a + b)[|a| + j] == b[j];
  }

  // ---- the states in full ---------------------------------------------------------------------------------------

  /** The first condition of a type is at position k; k is the length if there is none. */
  predicate FirstAt(conditions: seq<Condition>, t: ConditionType, k: nat)
  {
    && k <= |conditions| && (k < |conditions| ==> conditions[k].ctype == t)
    && forall j :: 0 <= j < k ==> conditions[j].ctype != t
  }

  lemma {:induction false} FoundAt(conditions: seq<Condition>, t: ConditionType, k: nat)
    requires FirstAt(conditions, t, k)
    ensures FindCondition(conditions, t) == if k < |conditions| then Some(conditions[k]) else None
  {
    if k > 0 { FoundAt(conditions[1..], t, k - 1); }
  }

  /** A status older than its generation is progressing; otherwise its first progressing condition decides. */
  lemma StateIff(c: ComponentStatus, k: nat)
    requires FirstAt(c.status.conditions, Progressing, k)
    ensures var current := c.generation <= c.status.observedGeneration && k < |c.status.conditions|;
            && (GetState(c) == StateComplete <==>
                  current && c.status.conditions[k].isTrue && c.status.conditions[k].reason == "NewReplicaSetAvailable")
            && (GetState(c) == StatePaused <==> current && c.status.conditions[k].reason == "DeploymentPaused")
            && (GetState(c) == StateFailed <==>
                  current && !c.status.conditions[k].isTrue && c.status.conditions[k].reason != "DeploymentPaused")
  {
    FoundAt(c.status.conditions, Progressing, k);
    assert "NewReplicaSetAvailable"[0] == 'N' && "DeploymentPaused"[0] == 'D';
    hide FindCondition;
  }

  lemma ReadyIff(s: DeploymentStatus, k: nat)
    requires FirstAt(s.conditions, Available, k)
    ensures DeploymentReady(s) <==> k < |s.conditions| && s.conditions[k].isTrue
  {
    FoundAt(s.conditions, Available, k);
  }

  /** Which state speaks for the component, group by group. */
  lemma WorstMeans(s: State, statuses: seq<ComponentStatus>)
    requires statuses != []
    ensures IsWorst(s, statuses) <==>
            match s
            case StateFailed => exists i :: 0 <= i < |statuses| && GetState(statuses[i]) == StateFailed
            case StateProgressing =>
              && (exists i :: 0 <= i < |statuses| && GetState(statuses[i]) == StateProgressing)
              && (forall i :: 0 <= i < |statuses| ==> GetState(statuses[i]) != StateFailed)
            case StatePaused =>
              && (exists i :: 0 <= i < |statuses| && GetState(statuses[i]) == StatePaused)
              && (forall i :: 0 <= i < |statuses| ==> GetState(statuses[i]) in {StateComplete, StatePaused})
            case StateComplete => forall i :: 0 <= i < |statuses| ==> GetState(statuses[i]) == StateComplete
  {
    hide GetState;
    assert 0 <= 0 < |statuses| && GetState(statuses[0]) == GetState(statuses[0]);
  }

  /** Adding one group adds each of its counts to the count of the same kind. */
  lemma TotalAdds(statuses: seq<ComponentStatus>, s: ComponentStatus)
    ensures var t, u, c := Total(statuses), Total(statuses + [s]), s.status.counts;
            && u.replicas == t.replicas + c.replicas && u.updated == t.updated + c.updated && u.ready == t.ready + c.ready
            && u.available == t.available + c.available && u.unavailable == t.unavailable + c.unavailable
    ensures Total([]) == Counts(0, 0, 0, 0, 0)
  {
    assert (statuses + [s])[..|statuses|] == statuses;
  }
}
