/**
 Rolling one new image through the components in dependency order. A component may take the image
 once the recorded status of everything it waits for says that the image is there and complete.
 Statuses are recorded now and then and may be stale.
 */
module ImageRollout {
  import opened Common
  import opened UpgradeReplicas
  import opened StatusAggregation
  import opened DependencyGraph

  /** The components that run and, for each, its deployment groups; an ungrouped one has none. */
  datatype Layout = Layout(groups: map<Component, seq<string>>, useCdc: bool)

  /** Template image of every workload, recorded status of every component. */
  datatype World = World(images: map<Id, string>, recorded: map<Component, ComponentStatus>)

  /** What a component waits for. */
  type Waits = Component -> seq<Component>

  function WorkloadIds(l: Layout, c: Component): (ids: seq<Id>)
    ensures c in l.groups ==> ids != []
    ensures forall i :: 0 <= i < |ids| ==> ids[i].c == c
  {
    if c !in l.groups then []
    else if l.groups[c] == [] then [Id(c, None)]
    else seq(|l.groups[c]|, i requires 0 <= i < |l.groups[c]| => Id(c, Some(l.groups[c][i])))
  }

  predicate IdIn(l: Layout, id: Id) { id in WorkloadIds(l, id.c) }

  /** IsImageUpdated: a component without a recorded status is not updated. */
  predicate IsImageUpdated(w: World, c: Component, target: string)
  {
    c in w.recorded && ImageUpdated(w.recorded[c], target)
  }

  predicate GateOpen(w: World, l: Layout, waits: Waits, observed: bool, c: Component, target: string)
  {
    && observed
    && (c == Cdc ||
        ((l.useCdc ==> IsImageUpdated(w, Cdc, target)) &&
         forall i :: 0 <= i < |waits(c)| ==> IsImageUpdated(w, waits(c)[i], target)))
  }

  /** RollingUpdateImageDependencyReady. */
  method RollingUpdateImageDependencyReady(w: World, l: Layout, waits: Waits, observed: bool, c: Component, target: string)
    returns (ready: bool)
    ensures ready <==> GateOpen(w, l, waits, observed, c, target)
  {
    if !observed {
      return false;
    }
    if c == Cdc {
      return true;
    }
    if l.useCdc && !IsImageUpdated(w, Cdc, target) {
      return false;
    }
    var deps := waits(c);
    for i := 0 to |deps|
      invariant forall j :: 0 <= j < i ==> IsImageUpdated(w, deps[j], target)
    {
      if !IsImageUpdated(w, deps[i], target) {
        return false;
      }
    }
    return true;
  }

  /**
   Render: a workload's template is rendered, and takes the image if the gate is open.
   Record: the statuses of one component's workloads are read and recorded, aggregated if grouped.
   */
  datatype Event =
    | Render(id: Id, observed: bool)
    | Record(c: Component, statuses: seq<ComponentStatus>, agg: ComponentStatus)

  /** The statuses read are those of the component's own workloads. */
  ghost predicate Honest(w: World, l: Layout, e: Event)
  {
    match e
    case Render(id, _) => IdIn(l, id)
    case Record(c, statuses, agg) =>
      var ids := WorkloadIds(l, c);
      && ids != [] && |statuses| == |ids|
      && (forall i :: 0 <= i < |ids| ==> ids[i] in w.images && statuses[i].image == w.images[ids[i]])
      && (if l.groups[c] == [] then agg == statuses[0] else Represents(agg, statuses))
  }

  function Next(w: World, l: Layout, waits: Waits, target: string, e: Event): World
  {
    match e
    case Render(id, observed) =>
      if GateOpen(w, l, waits, observed, id.c, target) then w.(images := w.images[id := target]) else w
    case Record(c, _, agg) => w.(recorded := w.recorded[c := agg])
  }

  predicate Carries(w: World, id: Id, target: string) { id in w.images && w.images[id] == target }

  predicate AllCarry(w: World, l: Layout, c: Component, target: string)
  {
    forall i :: 0 <= i < |WorkloadIds(l, c)| ==> Carries(w, WorkloadIds(l, c)[i], target)
  }

  predicate AnyCarries(w: World, l: Layout, c: Component, target: string)
  {
    exists i :: 0 <= i < |WorkloadIds(l, c)| && Carries(w, WorkloadIds(l, c)[i], target)
  }

  /** If any workload of a component carries the image, every workload of what it waits for does. */
  ghost predicate Closed(w: World, l: Layout, waits: Waits, target: string)
  {
    forall c :: AnyCarries(w, l, c, target) ==>
      && (forall i :: 0 <= i < |waits(c)| && c != Cdc ==> AllCarry(w, l, waits(c)[i], target))
      && (l.useCdc && c != Cdc ==> AllCarry(w, l, Cdc, target))
  }

  /** A recorded status with the image was true when it was recorded, and the image has not left since. */
  ghost predicate Truthful(w: World, l: Layout, target: string)
  {
    forall c :: c in w.recorded && w.recorded[c].image == target ==> AllCarry(w, l, c, target)
  }

  ghost predicate Inv(w: World, l: Layout, waits: Waits, target: string)
  {
    Closed(w, l, waits, target) && Truthful(w, l, target)
  }

  /** Once there, the image stays. */
  lemma CarryGrows(w: World, l: Layout, id: Id, target: string, c: Component)
    ensures var v := w.(images := w.images[id := target]);
            && (AllCarry(w, l, c, target) ==> AllCarry(v, l, c, target))
            && (AnyCarries(v, l, c, target) ==> AnyCarries(w, l, c, target) || c == id.c)
  {
    var v := w.(images := w.images[id := target]);
    if AnyCarries(v, l, c, target) && c != id.c {
      var i :| 0 <= i < |WorkloadIds(l, c)| && Carries(v, WorkloadIds(l, c)[i], target);
      assert Carries(w, WorkloadIds(l, c)[i], target);
    }
  }

  lemma RenderKeeps(w: World, l: Layout, waits: Waits, target: string, id: Id, observed: bool)
    requires Inv(w, l, waits, target) && GateOpen(w, l, waits, observed, id.c, target)
    ensures Inv(w.(images := w.images[id := target]), l, waits, target)
  {
    hide AllCarry, AnyCarries, GetState;
    var v := w.(images := w.images[id := target]);
    forall c
      ensures AllCarry(w, l, c, target) ==> AllCarry(v, l, c, target)
      ensures AnyCarries(v, l, c, target) ==> AnyCarries(w, l, c, target) || c == id.c
    {
      CarryGrows(w, l, id, target, c);
    }
  }

  lemma RecordKeeps(w: World, l: Layout, waits: Waits, target: string, e: Event)
    requires Inv(w, l, waits, target) && e.Record? && Honest(w, l, e) && target != ""
    ensures Inv(Next(w, l, waits, target, e), l, waits, target)
  {
    var v := Next(w, l, waits, target, e);
    hide GetState, DeploymentReady, Total, WorkloadIds;
    forall c
      ensures AllCarry(w, l, c, target) <==> AllCarry(v, l, c, target)
      ensures AnyCarries(w, l, c, target) <==> AnyCarries(v, l, c, target)
    {
      SameImages(w, v, l, c, target);
    }
    if e.agg.image == target {
      assert AllCarry(w, l, e.c, target) by { RecordedImage(w, l, e, target); }
    }
  }

  lemma SameImages(w: World, v: World, l: Layout, c: Component, target: string)
    requires w.images == v.images
    ensures AllCarry(w, l, c, target) <==> AllCarry(v, l, c, target)
    ensures AnyCarries(w, l, c, target) <==> AnyCarries(v, l, c, target)
  {
    hide WorkloadIds;
    assert forall id :: Carries(w, id, target) <==> Carries(v, id, target);
  }

  lemma RecordedImage(w: World, l: Layout, e: Event, target: string)
    requires e.Record? && Honest(w, l, e) && target != "" && e.agg.image == target
    ensures AllCarry(w, l, e.c, target)
  {
    hide GetState, DeploymentReady, Total;
    var ids := WorkloadIds(l, e.c);
    assert SameImage(e.statuses, target);
    forall i | 0 <= i < |ids|
      ensures Carries(w, ids[i], target)
    {
      assert e.statuses[i].image == target;
    }
  }

  // ---- whole rollouts ---------------------------------------------------------------------------------------

  function Run(w: World, l: Layout, waits: Waits, target: string, events: seq<Event>): World
  {
    if events == [] then w
    else Next(Run(w, l, waits, target, events[..|events| - 1]), l, waits, target, events[|events| - 1])
  }

  ghost predicate HonestRun(w: World, l: Layout, waits: Waits, target: string, events: seq<Event>)
  {
    events == [] ||
    (HonestRun(w, l, waits, target, events[..|events| - 1]) &&
     Honest(Run(w, l, waits, target, events[..|events| - 1]), l, events[|events| - 1]))
  }

  /** Every reachable state of a rolling update to one image is closed, in whatever order components are rendered. */
  lemma {:induction false} EveryStateIsClosed(w: World, l: Layout, waits: Waits, target: string, events: seq<Event>)
    requires Inv(w, l, waits, target) && target != "" && HonestRun(w, l, waits, target, events)
    ensures Inv(Run(w, l, waits, target, events), l, waits, target)
  {
    hide Inv, Honest;
    if events != [] {
      EveryStateIsClosed(w, l, waits, target, events[..|events| - 1]);
      var v, e := Run(w, l, waits, target, events[..|events| - 1]), events[|events| - 1];
      if e.Record? {
        RecordKeeps(v, l, waits, target, e);
      } else if GateOpen(v, l, waits, e.observed, e.id.c, target) {
        RenderKeeps(v, l, waits, target, e.id, e.observed);
      }
    }
  }

  /** A path along what components wait for. */
  predicate Path(waits: Waits, path: seq<Component>)
  {
    forall i :: 0 <= i < |path| - 1 ==> path[i + 1] in waits(path[i]) && path[i] != Cdc
  }

  /** Closure reaches as far as the waiting does. */
  lemma {:induction false} ClosedUnderPaths(w: World, l: Layout, waits: Waits, target: string, path: seq<Component>)
    requires Closed(w, l, waits, target) && Path(waits, path) && |path| >= 2
    requires forall i :: 0 < i < |path| - 1 ==> path[i] in l.groups
    requires AnyCarries(w, l, path[0], target)
    ensures AllCarry(w, l, path[|path| - 1], target)
  {
    hide AnyCarries, AllCarry;
    assert path[1] in waits(path[0]);
    assert AllCarry(w, l, path[1], target);
    if |path| > 2 {
      AllThenAny(w, l, path[1], target);
      var rest := path[1..];
      forall i | 0 <= i < |rest| - 1
        ensures rest[i + 1] in waits(rest[i]) && rest[i] != Cdc
      {
        assert rest[i] == path[i + 1] && rest[i + 1] == path[i + 1 + 1];
      }
      ClosedUnderPaths(w, l, waits, target, path[1..]);
    }
  }

  lemma AllThenAny(w: World, l: Layout, c: Component, target: string)
    requires AllCarry(w, l, c, target) && c in l.groups
    ensures AnyCarries(w, l, c, target)
  {
    assert Carries(w, WorkloadIds(l, c)[0], target);
  }

  // ---- the order of a spec ----------------------------------------------------------------------------------

  function WaitsOf(spec: MilvusSpec, upgradingTo26: bool, downgrade: bool, newer: NewerThan25): Waits
  {
    c => DependenciesOf(spec, upgradingTo26, downgrade, newer, c)
  }

  /** The path from one position of the order to an earlier one, or to a later one when walked backwards. */
  function Walk(order: seq<Component>, from: nat, to: nat): (path: seq<Component>)
    requires from < |order| && to < |order|
    ensures |path| == (if from < to then to - from else from - to) + 1
    ensures forall i :: 0 <= i < |path| ==> path[i] == order[if from < to then from + i else from - i]
    decreases if from < to then to - from else from - to
  {
    if from == to then [order[from]]
    else [order[from]] + Walk(order, if from < to then from + 1 else from - 1, to)
  }

  lemma {:induction false} WalkIsPath(order: seq<Component>, waits: Waits, from: nat, to: nat)
    requires from < |order| && to < |order| && Cdc !in order
    requires from < to ==> forall i :: 0 < i < |order| ==> order[i] in waits(order[i - 1])
    requires from > to ==> forall i :: 0 < i < |order| ==> order[i - 1] in waits(order[i])
    ensures Path(waits, Walk(order, from, to))
    decreases if from < to then to - from else from - to
  {
    if from != to {
      var next := if from < to then from + 1 else from - 1;
      WalkIsPath(order, waits, next, to);
      var path, rest := Walk(order, from, to), Walk(order, next, to);
      assert from < to ==> order[next] in waits(order[next - 1]);
      assert from > to ==> order[from - 1] in waits(order[from]);
      forall i | 0 <= i < |path| - 1
        ensures path[i + 1] in waits(path[i]) && path[i] != Cdc
      {
        if i > 0 { assert path[i] == rest[i - 1] && path[i + 1] == rest[i - 1 + 1]; }
      }
    }
  }

  lemma OrderSteps(spec: MilvusSpec, upgradingTo26: bool, downgrade: bool, newer: NewerThan25)
    ensures var order := OrderOf(spec, upgradingTo26, newer);
            var waits := WaitsOf(spec, upgradingTo26, downgrade, newer);
            && (downgrade && !upgradingTo26 ==> forall i :: 0 < i < |order| ==> order[i] in waits(order[i - 1]))
            && (!downgrade || upgradingTo26 ==> forall i :: 0 < i < |order| ==> order[i - 1] in waits(order[i]))
  {
    hide OrderOf, Built, Dependencies, Reversed;
    var order := OrderOf(spec, upgradingTo26, newer);
    forall i | 0 < i < |order|
      ensures order[i - 1] in Dependencies(Built(Chain(order)), order[i])
      ensures order[i] in Reversed(Built(Chain(order)), order[i - 1])
    {
      ChainEdges(order, order[i], order[i - 1]);
      ChainEdges(order, order[i - 1], order[i]);
    }
  }

  lemma NoCdcInOrder(spec: MilvusSpec, upgradingTo26: bool, newer: NewerThan25)
    ensures Cdc !in OrderOf(spec, upgradingTo26, newer)
  {
    hide UseStreamingNode;
  }

  /** The layout is that of the spec: its components run, and no others. */
  predicate LaidOut(l: Layout, spec: MilvusSpec, newer: NewerThan25)
  {
    forall c :: c in l.groups <==> c in ComponentsOf(spec, newer)
  }

  /** Below 2.6, streaming is on while the coordinators run separately: the streaming order names a MixCoord that does not run. */
  predicate StreamingWithoutMixCoord(spec: MilvusSpec, newer: NewerThan25)
  {
    spec.cluster && !newer(spec.version, spec.image) && UseStreamingNode(spec, newer) && MixCoord !in spec.coms
  }

  /** Every component of the order runs, except for MixCoord at its head in that one case. */
  lemma OrderRuns(spec: MilvusSpec, upgradingTo26: bool, newer: NewerThan25, i: nat)
    requires upgradingTo26 ==> newer(spec.version, spec.image)
    requires i < |OrderOf(spec, upgradingTo26, newer)|
    ensures OrderOf(spec, upgradingTo26, newer)[i] in ComponentsOf(spec, newer) <==>
            !(StreamingWithoutMixCoord(spec, newer) && i == 0)
  {
    var order := OrderOf(spec, upgradingTo26, newer);
    var rest := ComponentsOf(spec, newer);
    assert forall c :: c in order ==> c != Cdc by { NoCdcInOrder(spec, upgradingTo26, newer); }
    if newer(spec.version, spec.image) {
      assert forall c :: c in FROM_26 ==> c in rest;
      assert order == UPGRADE_26 || order == STREAMING;
      assert UPGRADE_26[i] in FROM_26 && STREAMING[i] in FROM_26;
    } else if UseStreamingNode(spec, newer) {
      assert StreamingNode in rest;
      assert forall c :: c in (if MixCoord in spec.coms then MIXTURE else SEPARATE) ==> c in rest;
    } else if MixCoord in spec.coms {
      assert MIX_COORD[i] in MIXTURE;
    } else {
      assert CLUSTER[i] in SEPARATE;
    }
  }

  /**
   The components that carry the image are those before some point of the order, or behind it
   when downgrading: if one does in part, everything it comes after does in full.
   */
  lemma RolloutFollowsTheOrder(w: World, l: Layout, spec: MilvusSpec, upgradingTo26: bool, downgrade: bool,
                               newer: NewerThan25, target: string, i: nat, j: nat)
    requires upgradingTo26 ==> newer(spec.version, spec.image)
    requires LaidOut(l, spec, newer) && Closed(w, l, WaitsOf(spec, upgradingTo26, downgrade, newer), target)
    requires var order := OrderOf(spec, upgradingTo26, newer);
             && i < |order| && j < |order|
             && AnyCarries(w, l, order[i], target) && (if downgrade && !upgradingTo26 then i < j else j < i)
    ensures AllCarry(w, l, OrderOf(spec, upgradingTo26, newer)[j], target)
  {
    hide OrderOf, Closed, AnyCarries, AllCarry, DependenciesOf, ComponentsOf;
    var order, waits := OrderOf(spec, upgradingTo26, newer), WaitsOf(spec, upgradingTo26, downgrade, newer);
    NoCdcInOrder(spec, upgradingTo26, newer);
    OrderSteps(spec, upgradingTo26, downgrade, newer);
    WalkIsPath(order, waits, i, j);
    var path := Walk(order, i, j);
    forall n | 0 < n < |path| - 1
      ensures path[n] in l.groups
    {
      OrderRuns(spec, upgradingTo26, newer, if i < j then i + n else i - n);
    }
    ClosedUnderPaths(w, l, waits, target, path);
  }

  /** Each component carries the image in part only if all before it in the list carry it in full. */
  ghost predicate TakenInTurn(w: World, l: Layout, target: string, order: seq<Component>)
  {
    forall i, j :: 0 <= j < i < |order| && AnyCarries(w, l, order[i], target) ==> AllCarry(w, l, order[j], target)
  }

  function Backwards(order: seq<Component>): (back: seq<Component>)
    ensures |back| == |order| && forall i :: 0 <= i < |order| ==> back[i] == order[|order| - 1 - i]
  {
    seq(|order|, i requires 0 <= i < |order| => order[|order| - 1 - i])
  }

  function Turns(spec: MilvusSpec, upgradingTo26: bool, downgrade: bool, newer: NewerThan25): seq<Component>
  {
    var order := OrderOf(spec, upgradingTo26, newer);
    if downgrade && !upgradingTo26 then Backwards(order) else order
  }

  lemma ClosedInTurn(w: World, l: Layout, spec: MilvusSpec, upgradingTo26: bool, downgrade: bool, newer: NewerThan25,
                     target: string)
    requires upgradingTo26 ==> newer(spec.version, spec.image)
    requires LaidOut(l, spec, newer) && Closed(w, l, WaitsOf(spec, upgradingTo26, downgrade, newer), target)
    ensures TakenInTurn(w, l, target, Turns(spec, upgradingTo26, downgrade, newer))
  {
    hide Closed, AnyCarries, AllCarry, OrderOf, DependenciesOf, LaidOut;
    var order, turns := OrderOf(spec, upgradingTo26, newer), Turns(spec, upgradingTo26, downgrade, newer);
    forall i, j | 0 <= j < i < |turns| && AnyCarries(w, l, turns[i], target)
      ensures AllCarry(w, l, turns[j], target)
    {
      if downgrade && !upgradingTo26 {
        RolloutFollowsTheOrder(w, l, spec, upgradingTo26, downgrade, newer, target, |order| - 1 - i, |order| - 1 - j);
      } else {
        RolloutFollowsTheOrder(w, l, spec, upgradingTo26, downgrade, newer, target, i, j);
      }
    }
  }

  /** The order of the spec, in every state of every run. */
  lemma TurnsInEveryState(w: World, l: Layout, spec: MilvusSpec, upgradingTo26: bool, downgrade: bool, newer: NewerThan25,
                          target: string, events: seq<Event>)
    requires upgradingTo26 ==> newer(spec.version, spec.image)
    requires LaidOut(l, spec, newer) && target != ""
    requires var waits := WaitsOf(spec, upgradingTo26, downgrade, newer);
             Inv(w, l, waits, target) && HonestRun(w, l, waits, target, events)
    ensures TakenInTurn(Run(w, l, WaitsOf(spec, upgradingTo26, downgrade, newer), target, events), l, target,
                        Turns(spec, upgradingTo26, downgrade, newer))
  {
    hide LaidOut, HonestRun, Run, Closed, TakenInTurn, WaitsOf, Turns, Truthful;
    var waits := WaitsOf(spec, upgradingTo26, downgrade, newer);
    EveryStateIsClosed(w, l, waits, target, events);
    ClosedInTurn(Run(w, l, waits, target, events), l, spec, upgradingTo26, downgrade, newer, target);
  }

  /** An upgrade to 2.6 takes streaming nodes before the coordinator. */
  lemma Upgrade26InTurn(w: World, l: Layout, spec: MilvusSpec, downgrade: bool, newer: NewerThan25, target: string,
                        events: seq<Event>)
    requires spec.cluster && newer(spec.version, spec.image) && LaidOut(l, spec, newer) && target != ""
    requires var waits := WaitsOf(spec, true, downgrade, newer);
             Inv(w, l, waits, target) && HonestRun(w, l, waits, target, events)
    ensures TakenInTurn(Run(w, l, WaitsOf(spec, true, downgrade, newer), target, events), l, target,
                        [StreamingNode, MixCoord, QueryNode, DataNode, Proxy])
  {
    hide Inv, HonestRun, Run, TakenInTurn, WaitsOf, LaidOut;
    TurnsInEveryState(w, l, spec, true, downgrade, newer, target, events);
  }

  /** Any other rollout with streaming nodes takes the coordinator before them, and a downgrade goes the other way. */
  lemma StreamingInTurn(w: World, l: Layout, spec: MilvusSpec, downgrade: bool, newer: NewerThan25, target: string,
                        events: seq<Event>)
    requires spec.cluster && LaidOut(l, spec, newer) && target != ""
    requires || newer(spec.version, spec.image)
             || (if spec.streamingMode.Some? then spec.streamingMode.value else StreamingNode in spec.coms)
    requires var waits := WaitsOf(spec, false, downgrade, newer);
             Inv(w, l, waits, target) && HonestRun(w, l, waits, target, events)
    ensures TakenInTurn(Run(w, l, WaitsOf(spec, false, downgrade, newer), target, events), l, target,
                        if downgrade then [Proxy, DataNode, QueryNode, StreamingNode, MixCoord]
                        else [MixCoord, StreamingNode, QueryNode, DataNode, Proxy])
  {
    hide Inv, HonestRun, Run, TakenInTurn, WaitsOf, LaidOut;
    TurnsInEveryState(w, l, spec, false, downgrade, newer, target, events);
    assert Backwards(STREAMING) == [Proxy, DataNode, QueryNode, StreamingNode, MixCoord];
  }

  /** Without streaming nodes: index nodes, the coordinator, and then the rest down to the proxy. */
  lemma MixCoordInTurn(w: World, l: Layout, spec: MilvusSpec, downgrade: bool, newer: NewerThan25, target: string,
                       events: seq<Event>)
    requires spec.cluster && LaidOut(l, spec, newer) && target != ""
    requires !newer(spec.version, spec.image) && MixCoord in spec.coms
    requires if spec.streamingMode.Some? then !spec.streamingMode.value else StreamingNode !in spec.coms
    requires var waits := WaitsOf(spec, false, downgrade, newer);
             Inv(w, l, waits, target) && HonestRun(w, l, waits, target, events)
    ensures TakenInTurn(Run(w, l, WaitsOf(spec, false, downgrade, newer), target, events), l, target,
                        if downgrade then [Proxy, DataNode, QueryNode, MixCoord, IndexNode]
                        else [IndexNode, MixCoord, QueryNode, DataNode, Proxy])
  {
    hide Inv, HonestRun, Run, TakenInTurn, WaitsOf, LaidOut;
    TurnsInEveryState(w, l, spec, false, downgrade, newer, target, events);
    assert Backwards(MIX_COORD) == [Proxy, DataNode, QueryNode, MixCoord, IndexNode];
  }

  /** The same with separate coordinators. */
  lemma CoordinatorsInTurn(w: World, l: Layout, spec: MilvusSpec, downgrade: bool, newer: NewerThan25, target: string,
                           events: seq<Event>)
    requires spec.cluster && LaidOut(l, spec, newer) && target != ""
    requires !newer(spec.version, spec.image) && MixCoord !in spec.coms
    requires if spec.streamingMode.Some? then !spec.streamingMode.value else StreamingNode !in spec.coms
    requires var waits := WaitsOf(spec, false, downgrade, newer);
             Inv(w, l, waits, target) && HonestRun(w, l, waits, target, events)
    ensures TakenInTurn(Run(w, l, WaitsOf(spec, false, downgrade, newer), target, events), l, target,
                        if downgrade
                        then [Proxy, DataNode, QueryNode, QueryCoord, IndexCoord, DataCoord, RootCoord, IndexNode]
                        else [IndexNode, RootCoord, DataCoord, IndexCoord, QueryCoord, QueryNode, DataNode, Proxy])
  {
    hide Inv, HonestRun, Run, TakenInTurn, WaitsOf, LaidOut;
    TurnsInEveryState(w, l, spec, false, downgrade, newer, target, events);
    assert Backwards(CLUSTER) == [Proxy, DataNode, QueryNode, QueryCoord, IndexCoord, DataCoord, RootCoord, IndexNode];
  }

  predicate Coordinator(c: Component)
  {
    c == MixCoord || c == RootCoord || c == DataCoord || c == IndexCoord || c == QueryCoord
  }

  /** Every order ends in query nodes, data nodes and proxies, and the coordinators that run come before. */
  lemma CoordinatorPosition(spec: MilvusSpec, upgradingTo26: bool, newer: NewerThan25, c: Component) returns (k: nat)
    requires upgradingTo26 ==> newer(spec.version, spec.image)
    requires spec.cluster && !StreamingWithoutMixCoord(spec, newer) && Coordinator(c) && c in ComponentsOf(spec, newer)
    ensures k + 3 < |OrderOf(spec, upgradingTo26, newer)| && OrderOf(spec, upgradingTo26, newer)[k] == c
  {
    var order := OrderOf(spec, upgradingTo26, newer);
    if order == UPGRADE_26 {
      k := 1;
    } else if order == STREAMING {
      k := 0;
    } else if order == MIX_COORD {
      k := 1;
    } else {
      k := if c == RootCoord then 1 else if c == DataCoord then 2 else if c == IndexCoord then 3 else 4;
    }
  }

  lemma LastThree(spec: MilvusSpec, upgradingTo26: bool, newer: NewerThan25)
    requires spec.cluster
    ensures var order := OrderOf(spec, upgradingTo26, newer);
            && |order| > 3 && order[|order| - 3] == QueryNode && order[|order| - 2] == DataNode && order[|order| - 1] == Proxy
  {
    hide UseStreamingNode;
  }

  /**
   Whatever cluster it is: in every state of every upgrade the query nodes come after all coordinators
   that run, the data nodes after those, and the proxies last.
   */
  lemma ProxyComesLast(w: World, l: Layout, spec: MilvusSpec, upgradingTo26: bool, newer: NewerThan25, target: string,
                       events: seq<Event>)
    requires upgradingTo26 ==> newer(spec.version, spec.image)
    requires spec.cluster && LaidOut(l, spec, newer) && target != ""
    requires var waits := WaitsOf(spec, upgradingTo26, false, newer);
             Inv(w, l, waits, target) && HonestRun(w, l, waits, target, events)
    ensures var v := Run(w, l, WaitsOf(spec, upgradingTo26, false, newer), target, events);
            && TakenInTurn(v, l, target, [QueryNode, DataNode, Proxy])
            && forall c :: Coordinator(c) && !StreamingWithoutMixCoord(spec, newer) ==>
                 TakenInTurn(v, l, target, [c, QueryNode, DataNode, Proxy])
  {
    var v := Run(w, l, WaitsOf(spec, upgradingTo26, false, newer), target, events);
    TurnsInEveryState(w, l, spec, upgradingTo26, false, newer, target, events);
    hide Run, Inv, HonestRun, WaitsOf, OrderOf, LaidOut, StreamingWithoutMixCoord, TakenInTurn;
    ProxyLast(v, l, spec, upgradingTo26, newer, target);
    forall c | Coordinator(c) && !StreamingWithoutMixCoord(spec, newer)
      ensures TakenInTurn(v, l, target, [c, QueryNode, DataNode, Proxy])
    {
      CoordinatorFirst(v, l, spec, upgradingTo26, newer, target, c);
    }
  }

  /** And a downgrade the other way round: the proxies first, the coordinators after the query nodes. */
  lemma ProxyComesFirst(w: World, l: Layout, spec: MilvusSpec, newer: NewerThan25, target: string, events: seq<Event>)
    requires spec.cluster && LaidOut(l, spec, newer) && target != ""
    requires var waits := WaitsOf(spec, false, true, newer);
             Inv(w, l, waits, target) && HonestRun(w, l, waits, target, events)
    ensures var v := Run(w, l, WaitsOf(spec, false, true, newer), target, events);
            && TakenInTurn(v, l, target, [Proxy, DataNode, QueryNode])
            && forall c :: Coordinator(c) && !StreamingWithoutMixCoord(spec, newer) ==>
                 TakenInTurn(v, l, target, [Proxy, DataNode, QueryNode, c])
  {
    var v := Run(w, l, WaitsOf(spec, false, true, newer), target, events);
    TurnsInEveryState(w, l, spec, false, true, newer, target, events);
    hide Run, Inv, HonestRun, WaitsOf, OrderOf, LaidOut, StreamingWithoutMixCoord, TakenInTurn;
    ProxyFirst(v, l, spec, newer, target);
    forall c | Coordinator(c) && !StreamingWithoutMixCoord(spec, newer)
      ensures TakenInTurn(v, l, target, [Proxy, DataNode, QueryNode, c])
    {
      CoordinatorLast(v, l, spec, newer, target, c);
    }
  }

  lemma ProxyLast(w: World, l: Layout, spec: MilvusSpec, upgradingTo26: bool, newer: NewerThan25, target: string)
    requires spec.cluster && TakenInTurn(w, l, target, OrderOf(spec, upgradingTo26, newer))
    ensures TakenInTurn(w, l, target, [QueryNode, DataNode, Proxy])
  {
    LastThree(spec, upgradingTo26, newer);
    hide OrderOf, TakenInTurn;
    var n := |OrderOf(spec, upgradingTo26, newer)|;
    Three(w, l, target, OrderOf(spec, upgradingTo26, newer), n - 3, n - 2, n - 1);
  }

  lemma CoordinatorFirst(w: World, l: Layout, spec: MilvusSpec, upgradingTo26: bool, newer: NewerThan25, target: string,
                         c: Component)
    requires upgradingTo26 ==> newer(spec.version, spec.image)
    requires spec.cluster && LaidOut(l, spec, newer) && !StreamingWithoutMixCoord(spec, newer) && Coordinator(c)
    requires TakenInTurn(w, l, target, OrderOf(spec, upgradingTo26, newer))
    ensures TakenInTurn(w, l, target, [c, QueryNode, DataNode, Proxy])
  {
    LastThree(spec, upgradingTo26, newer);
    hide OrderOf, TakenInTurn, ComponentsOf, StreamingWithoutMixCoord;
    var n := |OrderOf(spec, upgradingTo26, newer)|;
    if c in l.groups {
      var k := CoordinatorPosition(spec, upgradingTo26, newer, c);
      Four(w, l, target, OrderOf(spec, upgradingTo26, newer), k, n - 3, n - 2, n - 1);
    } else {
      ProxyLast(w, l, spec, upgradingTo26, newer, target);
      AbsentFirst(w, l, target, c, [QueryNode, DataNode, Proxy]);
      assert [c] + [QueryNode, DataNode, Proxy] == [c, QueryNode, DataNode, Proxy];
    }
  }

  lemma FirstThree(spec: MilvusSpec, newer: NewerThan25)
    requires spec.cluster
    ensures var back := Backwards(OrderOf(spec, false, newer));
            |back| > 3 && back[0] == Proxy && back[1] == DataNode && back[2] == QueryNode
  {
    LastThree(spec, false, newer);
    hide OrderOf;
  }

  lemma ProxyFirst(w: World, l: Layout, spec: MilvusSpec, newer: NewerThan25, target: string)
    requires spec.cluster && TakenInTurn(w, l, target, Backwards(OrderOf(spec, false, newer)))
    ensures TakenInTurn(w, l, target, [Proxy, DataNode, QueryNode])
  {
    FirstThree(spec, newer);
    hide OrderOf, TakenInTurn, Backwards;
    Three(w, l, target, Backwards(OrderOf(spec, false, newer)), 0, 1, 2);
  }

  lemma CoordinatorLast(w: World, l: Layout, spec: MilvusSpec, newer: NewerThan25, target: string, c: Component)
    requires spec.cluster && LaidOut(l, spec, newer) && !StreamingWithoutMixCoord(spec, newer) && Coordinator(c)
    requires TakenInTurn(w, l, target, Backwards(OrderOf(spec, false, newer)))
    ensures TakenInTurn(w, l, target, [Proxy, DataNode, QueryNode, c])
  {
    hide OrderOf, TakenInTurn, ComponentsOf, StreamingWithoutMixCoord, Backwards;
    if c in l.groups {
      FirstThree(spec, newer);
      var back := Backwards(OrderOf(spec, false, newer));
      var k := CoordinatorPosition(spec, false, newer, c);
      assert back[|back| - 1 - k] == c;
      Four(w, l, target, back, 0, 1, 2, |back| - 1 - k);
    } else {
      ProxyFirst(w, l, spec, newer, target);
      AbsentLast(w, l, target, [Proxy, DataNode, QueryNode], c);
      assert [Proxy, DataNode, QueryNode] + [c] == [Proxy, DataNode, QueryNode, c];
    }
  }

  /** Fewer components, still in turn. */
  lemma Three(w: World, l: Layout, target: string, order: seq<Component>, i: nat, j: nat, k: nat)
    requires TakenInTurn(w, l, target, order) && i < j < k < |order|
    ensures TakenInTurn(w, l, target, [order[i], order[j], order[k]])
  {
    hide AnyCarries, AllCarry;
  }

  lemma Four(w: World, l: Layout, target: string, order: seq<Component>, h: nat, i: nat, j: nat, k: nat)
    requires TakenInTurn(w, l, target, order) && h < i < j < k < |order|
    ensures TakenInTurn(w, l, target, [order[h], order[i], order[j], order[k]])
  {
    hide AnyCarries, AllCarry;
  }

  /** A component that does not run has no workload to wait for, and none that waits. */
  lemma AbsentFirst(w: World, l: Layout, target: string, c: Component, order: seq<Component>)
    requires TakenInTurn(w, l, target, order) && c !in l.groups
    ensures TakenInTurn(w, l, target, [c] + order)
  {
    assert AllCarry(w, l, c, target);
    hide AnyCarries, AllCarry;
    var all := [c] + order;
    assert forall i :: 0 < i < |all| ==> all[i] == order[i - 1];
  }

  lemma AbsentLast(w: World, l: Layout, target: string, order: seq<Component>, c: Component)
    requires TakenInTurn(w, l, target, order) && c !in l.groups
    ensures TakenInTurn(w, l, target, order + [c])
  {
    assert !AnyCarries(w, l, c, target);
    hide AnyCarries, AllCarry;
  }

  /** The next component in turn. */
  lemma {:induction false} NextInTurn(w: World, l: Layout, order: seq<Component>, target: string, down: bool, n: nat)
    returns (k: nat)
    requires n < |order| && !AllCarry(w, l, order[n], target)
    ensures k < |order| && !AllCarry(w, l, order[k], target)
    ensures if down then k + 1 < |order| ==> AllCarry(w, l, order[k + 1], target)
            else k > 0 ==> AllCarry(w, l, order[k - 1], target)
    decreases if down then |order| - n else n
  {
    if down && n + 1 < |order| && !AllCarry(w, l, order[n + 1], target) {
      k := NextInTurn(w, l, order, target, down, n + 1);
    } else if !down && n > 0 && !AllCarry(w, l, order[n - 1], target) {
      k := NextInTurn(w, l, order, target, down, n - 1);
    } else {
      k := n;
    }
  }

  lemma WaitsOnNeighbour(spec: MilvusSpec, upgradingTo26: bool, downgrade: bool, newer: NewerThan25, k: nat, d: Component)
    requires k < |OrderOf(spec, upgradingTo26, newer)|
    requires d in WaitsOf(spec, upgradingTo26, downgrade, newer)(OrderOf(spec, upgradingTo26, newer)[k])
    ensures var order := OrderOf(spec, upgradingTo26, newer);
            if downgrade && !upgradingTo26 then k + 1 < |order| && d == order[k + 1] else k > 0 && d == order[k - 1]
  {
    hide OrderOf, Built, Dependencies, Reversed;
    var order := OrderOf(spec, upgradingTo26, newer);
    ChainEdges(order, order[k], d);
    assert forall i :: 0 <= i < |order| && order[i] == order[k] ==> i == k;
  }

  // ---- never stuck, or stuck for good --------------------------------------------------------------------------

  /**
   The rollout is never stuck: when every component with the image is recorded as complete, another
   one may take it. The one exception is an upgrade, not a downgrade, with streaming and no MixCoord.
   */
  lemma SomeGateIsOpen(w: World, l: Layout, spec: MilvusSpec, upgradingTo26: bool, downgrade: bool, newer: NewerThan25,
                       target: string, n: nat) returns (k: nat)
    requires upgradingTo26 ==> newer(spec.version, spec.image)
    requires LaidOut(l, spec, newer) && (StreamingWithoutMixCoord(spec, newer) ==> downgrade)
    requires n < |OrderOf(spec, upgradingTo26, newer)| && !AllCarry(w, l, OrderOf(spec, upgradingTo26, newer)[n], target)
    requires forall c :: AllCarry(w, l, c, target) && c in l.groups ==> IsImageUpdated(w, c, target)
    requires l.useCdc ==> IsImageUpdated(w, Cdc, target)
    ensures var order := OrderOf(spec, upgradingTo26, newer);
            && k < |order| && !AllCarry(w, l, order[k], target)
            && GateOpen(w, l, WaitsOf(spec, upgradingTo26, downgrade, newer), true, order[k], target)
  {
    assert StreamingWithoutMixCoord(spec, newer) ==> downgrade && !upgradingTo26;
    hide OrderOf, AllCarry, DependenciesOf, IsImageUpdated, ComponentsOf, StreamingWithoutMixCoord;
    var order, waits := OrderOf(spec, upgradingTo26, newer), WaitsOf(spec, upgradingTo26, downgrade, newer);
    k := NextInTurn(w, l, order, target, downgrade && !upgradingTo26, n);
    forall i | 0 <= i < |waits(order[k])|
      ensures IsImageUpdated(w, waits(order[k])[i], target)
    {
      WaitsOnNeighbour(spec, upgradingTo26, downgrade, newer, k, waits(order[k])[i]);
      var j := if downgrade && !upgradingTo26 then k + 1 else k - 1;
      OrderRuns(spec, upgradingTo26, newer, j);
      assert waits(order[k])[i] == order[j];
    }
  }

  /** A component that does not run is never recorded, so whatever waits for it waits for good. */
  lemma {:induction false} WaitsForEver(w: World, l: Layout, waits: Waits, target: string, events: seq<Event>, c: Component,
                                        d: Component)
    requires d in waits(c) && c != Cdc && d !in l.groups && d !in w.recorded
    requires HonestRun(w, l, waits, target, events)
    ensures var v := Run(w, l, waits, target, events);
            d !in v.recorded && forall observed :: !GateOpen(v, l, waits, observed, c, target)
    ensures forall id: Id :: id.c == c && !Carries(w, id, target) ==> !Carries(Run(w, l, waits, target, events), id, target)
  {
    hide GetState, Represents;
    if events != [] {
      WaitsForEver(w, l, waits, target, events[..|events| - 1], c, d);
    }
    var v := Run(w, l, waits, target, events);
    var i :| 0 <= i < |waits(c)| && waits(c)[i] == d;
    assert !IsImageUpdated(v, waits(c)[i], target);
  }

  /**
   In the exception the streaming node waits for good on a MixCoord that does not run, and so do the
   query nodes, data nodes and proxies behind it: what had not begun at the start never begins.
   */
  lemma NothingAfterMixCoord(w: World, l: Layout, spec: MilvusSpec, newer: NewerThan25, target: string,
                             events: seq<Event>, c: Component)
    requires LaidOut(l, spec, newer) && StreamingWithoutMixCoord(spec, newer) && MixCoord !in w.recorded && target != ""
    requires !AnyCarries(w, l, StreamingNode, target)
    requires var waits := WaitsOf(spec, false, false, newer);
             Inv(w, l, waits, target) && HonestRun(w, l, waits, target, events)
    requires c == StreamingNode || c == QueryNode || c == DataNode || c == Proxy
    ensures !AnyCarries(Run(w, l, WaitsOf(spec, false, false, newer), target, events), l, c, target)
  {
    var waits := WaitsOf(spec, false, false, newer);
    var v := Run(w, l, waits, target, events);
    StreamingNodeStays(w, l, spec, newer, target, events);
    StreamingInTurn(w, l, spec, false, newer, target, events);
    assert StreamingNode in l.groups by { OrderRuns(spec, false, newer, 1); }
    hide Run, Inv, HonestRun, WaitsOf, LaidOut, StreamingWithoutMixCoord, AnyCarries, AllCarry;
    var order := [MixCoord, StreamingNode, QueryNode, DataNode, Proxy];
    assert order[1] == StreamingNode && order[2] == QueryNode && order[3] == DataNode && order[4] == Proxy;
    if c != StreamingNode && AnyCarries(v, l, c, target) {
      assert AllCarry(v, l, order[1], target);
      AllThenAny(v, l, StreamingNode, target);
    }
  }

  lemma StreamingNodeStays(w: World, l: Layout, spec: MilvusSpec, newer: NewerThan25, target: string, events: seq<Event>)
    requires LaidOut(l, spec, newer) && StreamingWithoutMixCoord(spec, newer) && MixCoord !in w.recorded
    requires !AnyCarries(w, l, StreamingNode, target)
    requires HonestRun(w, l, WaitsOf(spec, false, false, newer), target, events)
    ensures !AnyCarries(Run(w, l, WaitsOf(spec, false, false, newer), target, events), l, StreamingNode, target)
  {
    var waits := WaitsOf(spec, false, false, newer);
    assert MixCoord !in l.groups by { OrderRuns(spec, false, newer, 0); }
    WaitingWithStreaming(spec, newer, StreamingNode);
    hide ComponentsOf, DependenciesOf, HonestRun, Run;
    WaitsForEver(w, l, waits, target, events, StreamingNode, MixCoord);
  }

  /** In the exception the streaming node waits for good on a MixCoord that does not run. */
  lemma StreamingNodeWaitsForEver(w: World, l: Layout, spec: MilvusSpec, newer: NewerThan25, target: string,
                                  events: seq<Event>, observed: bool)
    requires LaidOut(l, spec, newer) && StreamingWithoutMixCoord(spec, newer) && MixCoord !in w.recorded
    requires HonestRun(w, l, WaitsOf(spec, false, false, newer), target, events)
    ensures var waits := WaitsOf(spec, false, false, newer);
            !GateOpen(Run(w, l, waits, target, events), l, waits, observed, StreamingNode, target)
  {
    var waits := WaitsOf(spec, false, false, newer);
    OrderRuns(spec, false, newer, 0);
    assert OrderOf(spec, false, newer) == STREAMING;
    hide ComponentsOf, OrderOf, DependenciesOf;
    OrderSteps(spec, false, false, newer);
    assert STREAMING[1] == StreamingNode && STREAMING[0] == MixCoord;
    WaitsForEver(w, l, waits, target, events, StreamingNode, MixCoord);
  }

  // ---- the gate in full ---------------------------------------------------------------------------------------

  /** Which workloads there are: one per deployment group of a component that runs, or one without a group. */
  lemma WorkloadExistsIff(l: Layout, id: Id)
    ensures IdIn(l, id) <==>
            && id.c in l.groups
            && (if l.groups[id.c] == [] then id.group == None else id.group.Some? && id.group.value in l.groups[id.c])
  {
    if id.c in l.groups && id.group.Some? && id.group.value in l.groups[id.c] {
      var i :| 0 <= i < |l.groups[id.c]| && l.groups[id.c][i] == id.group.value;
      assert WorkloadIds(l, id.c)[i] == id;
    }
  }

  /** The component's status is recorded with the image, and its rollout is complete. */
  predicate RecordedComplete(w: World, c: Component, target: string)
  {
    c in w.recorded && w.recorded[c].image == target && GetState(w.recorded[c]) == StateComplete
  }

  /** When a rendered workload takes the image: CDC at once, all others after CDC and after what they wait for. */
  lemma TakesImageIff(w: World, l: Layout, waits: Waits, target: string, id: Id, observed: bool)
    requires !Carries(w, id, target)
    ensures var v := Next(w, l, waits, target, Render(id, observed));
            && (Carries(v, id, target) <==>
                  && observed
                  && (id.c == Cdc || ((l.useCdc ==> RecordedComplete(w, Cdc, target)) &&
                                      forall d :: d in waits(id.c) ==> RecordedComplete(w, d, target))))
            && (forall other :: other != id ==> (other in v.images <==> other in w.images) &&
                                                (other in w.images ==> v.images[other] == w.images[other]))
            && v.recorded == w.recorded && (!Carries(v, id, target) ==> v == w)
  {
    hide GetState;
    forall d
      ensures IsImageUpdated(w, d, target) <==> RecordedComplete(w, d, target)
    {
    }
    hide IsImageUpdated, RecordedComplete;
  }

  /** CDC comes before everything else, in every state of every run. */
  lemma CdcComesFirst(w: World, l: Layout, waits: Waits, target: string, events: seq<Event>, c: Component)
    requires Inv(w, l, waits, target) && target != "" && HonestRun(w, l, waits, target, events)
    requires l.useCdc && c != Cdc && AnyCarries(Run(w, l, waits, target, events), l, c, target)
    ensures AllCarry(Run(w, l, waits, target, events), l, Cdc, target)
  {
    hide AnyCarries, AllCarry, HonestRun, Run;
    EveryStateIsClosed(w, l, waits, target, events);
  }

  // ---- a rollout can be completed ---------------------------------------------------------------------------

  /** Components in an order in which each finds everything it waits for, and CDC, before it. */
  predicate InWaitingOrder(l: Layout, waits: Waits, cs: seq<Component>)
  {
    forall i :: 0 <= i < |cs| ==>
      && cs[i] in l.groups
      && (cs[i] != Cdc ==> (l.useCdc ==> Cdc in cs[..i]) && forall d :: d in waits(cs[i]) ==> d in cs[..i])
  }

  /** All of them carry the image and are recorded complete. */
  predicate Arrived(w: World, l: Layout, target: string, cs: seq<Component>)
  {
    forall c :: c in cs ==> AllCarry(w, l, c, target) && IsImageUpdated(w, c, target)
  }

  lemma RunThen(w: World, l: Layout, waits: Waits, target: string, events: seq<Event>, e: Event)
    ensures Run(w, l, waits, target, events + [e]) == Next(Run(w, l, waits, target, events), l, waits, target, e)
    ensures HonestRun(w, l, waits, target, events + [e]) <==>
            HonestRun(w, l, waits, target, events) && Honest(Run(w, l, waits, target, events), l, e)
  {
    hide Honest, Next;
    assert (events + [e])[..|events|] == events && (events + [e])[|events|] == e;
  }

  /** With its gate open, the first n workloads of a component take the image one by one. */
  lemma {:induction false} RenderAll(w: World, l: Layout, waits: Waits, target: string, before: seq<Event>, c: Component,
                                     n: nat) returns (events: seq<Event>)
    requires n <= |WorkloadIds(l, c)| && HonestRun(w, l, waits, target, before)
    requires GateOpen(Run(w, l, waits, target, before), l, waits, true, c, target)
    ensures HonestRun(w, l, waits, target, events)
    ensures var u, v := Run(w, l, waits, target, before), Run(w, l, waits, target, events);
            && v.recorded == u.recorded && (forall id :: id in u.images ==> id in v.images)
            && (forall id :: Carries(u, id, target) ==> Carries(v, id, target))
            && forall i :: 0 <= i < n ==> Carries(v, WorkloadIds(l, c)[i], target)
  {
    hide Run, HonestRun, GateOpen, WorkloadIds;
    if n == 0 {
      events := before;
    } else {
      var some := RenderAll(w, l, waits, target, before, c, n - 1);
      var e := Render(WorkloadIds(l, c)[n - 1], true);
      events := some + [e];
      RunThen(w, l, waits, target, some, e);
      var u, m := Run(w, l, waits, target, before), Run(w, l, waits, target, some);
      assert GateOpen(m, l, waits, true, c, target) by { SameGate(u, m, l, waits, c, target); }
    }
  }

  lemma SameGate(u: World, v: World, l: Layout, waits: Waits, c: Component, target: string)
    requires u.recorded == v.recorded
    ensures GateOpen(u, l, waits, true, c, target) <==> GateOpen(v, l, waits, true, c, target)
  {
    hide GetState;
    assert forall d :: IsImageUpdated(u, d, target) <==> IsImageUpdated(v, d, target);
  }

  /** The status of a workload that is done. */
  function Done(target: string): ComponentStatus
  {
    ComponentStatus(0, target, DeploymentStatus(0, Counts(0, 0, 0, 0, 0), [Condition(Progressing, true, COMPLETE_REASON)]))
  }

  lemma DoneIsUpdated(target: string)
    ensures ImageUpdated(Done(target), target)
  {
    assert COMPLETE_REASON[0] != PAUSED_REASON[0];
  }

  lemma {:induction false} NothingCounted(n: nat, target: string)
    ensures Total(seq(n, i => Done(target))) == Counts(0, 0, 0, 0, 0)
  {
    var all := seq(n, i => Done(target));
    if n > 0 {
      NothingCounted(n - 1, target);
      assert all[..n - 1] == seq(n - 1, i => Done(target));
    }
  }

  lemma DoneRepresents(n: nat, target: string)
    requires n > 0
    ensures Represents(Done(target), seq(n, i => Done(target)))
  {
    hide GetState, DeploymentReady, Total;
    var all := seq(n, i => Done(target));
    NothingCounted(n, target);
    assert all[0] == Done(target);
  }

  /** A component whose workloads all carry the image can be recorded complete. */
  lemma RecordDone(w: World, l: Layout, c: Component, target: string) returns (e: Event)
    requires c in l.groups && AllCarry(w, l, c, target)
    ensures e == Record(c, seq(|WorkloadIds(l, c)|, i => Done(target)), Done(target)) && Honest(w, l, e)
  {
    var n := |WorkloadIds(l, c)|;
    DoneRepresents(n, target);
    hide GetState, DeploymentReady, Total, Represents;
    e := Record(c, seq(n, i => Done(target)), Done(target));
  }

  lemma {:induction false} RollThrough(w: World, l: Layout, waits: Waits, target: string, cs: seq<Component>)
    returns (events: seq<Event>)
    requires InWaitingOrder(l, waits, cs)
    ensures HonestRun(w, l, waits, target, events)
    ensures Arrived(Run(w, l, waits, target, events), l, target, cs)
    decreases |cs|
  {
    if cs == [] {
      events := [];
    } else {
      var init, c := cs[..|cs| - 1], cs[|cs| - 1];
      assert cs == init + [c];
      assert InWaitingOrder(l, waits, init) by { WaitingOrderInit(l, waits, cs); }
      var before := RollThrough(w, l, waits, target, init);
      events := RollOne(w, l, waits, target, before, init, c);
    }
  }

  lemma WaitingOrderInit(l: Layout, waits: Waits, cs: seq<Component>)
    requires InWaitingOrder(l, waits, cs) && cs != []
    ensures InWaitingOrder(l, waits, cs[..|cs| - 1])
  {
    var init := cs[..|cs| - 1];
    forall i | 0 <= i < |init|
      ensures init[i] == cs[i] && init[..i] == cs[..i]
    {
    }
  }

  lemma RollOne(w: World, l: Layout, waits: Waits, target: string, before: seq<Event>, init: seq<Component>, c: Component)
    returns (events: seq<Event>)
    requires HonestRun(w, l, waits, target, before) && Arrived(Run(w, l, waits, target, before), l, target, init)
    requires c in l.groups && (c != Cdc ==> (l.useCdc ==> Cdc in init) && forall d :: d in waits(c) ==> d in init)
    ensures HonestRun(w, l, waits, target, events) && Arrived(Run(w, l, waits, target, events), l, target, init + [c])
  {
    hide Run, HonestRun, GetState, Honest, WorkloadIds;
    var u := Run(w, l, waits, target, before);
    assert GateOpen(u, l, waits, true, c, target);
    var some := RenderAll(w, l, waits, target, before, c, |WorkloadIds(l, c)|);
    var m := Run(w, l, waits, target, some);
    assert AllCarry(m, l, c, target);
    var e := RecordDone(m, l, c, target);
    events := some + [e];
    RunThen(w, l, waits, target, some, e);
    var v := Run(w, l, waits, target, events);
    DoneIsUpdated(target);
    assert v.images == m.images && v.recorded == u.recorded[c := Done(target)];
    forall x | x in init + [c]
      ensures AllCarry(v, l, x, target) && IsImageUpdated(v, x, target)
    {
      SameImages(m, v, l, x, target);
      if x != c { assert x in init; }
    }
  }

  /** In the turns of a spec each component waits for the one before it and for nothing else. */
  lemma TurnsWait(spec: MilvusSpec, upgradingTo26: bool, downgrade: bool, newer: NewerThan25, i: nat, d: Component)
    requires i < |Turns(spec, upgradingTo26, downgrade, newer)|
    requires d in WaitsOf(spec, upgradingTo26, downgrade, newer)(Turns(spec, upgradingTo26, downgrade, newer)[i])
    ensures i > 0 && d == Turns(spec, upgradingTo26, downgrade, newer)[i - 1]
  {
    hide OrderOf, DependenciesOf;
    var n := |OrderOf(spec, upgradingTo26, newer)|;
    WaitsOnNeighbour(spec, upgradingTo26, downgrade, newer, if downgrade && !upgradingTo26 then n - 1 - i else i, d);
  }

  /** Whatever a component waits for has its turn, and not the last one. */
  lemma WaitsAreInTurns(spec: MilvusSpec, upgradingTo26: bool, downgrade: bool, newer: NewerThan25, c: Component, d: Component)
    requires d in WaitsOf(spec, upgradingTo26, downgrade, newer)(c)
    ensures var turns := Turns(spec, upgradingTo26, downgrade, newer);
            turns != [] && d in turns[..|turns| - 1]
  {
    hide OrderOf, Built, Dependencies, Reversed;
    var order, turns := OrderOf(spec, upgradingTo26, newer), Turns(spec, upgradingTo26, downgrade, newer);
    if c !in order {
      OutsideChain(order, c);
      assert false;
    } else {
      var k :| 0 <= k < |order| && order[k] == c;
      var i := if downgrade && !upgradingTo26 then |order| - 1 - k else k;
      assert turns[i] == c;
      TurnsWait(spec, upgradingTo26, downgrade, newer, i, d);
      assert turns[..|turns| - 1][i - 1] == d;
    }
  }

  /** The turns of the components that run: all of them, but for a MixCoord that would be the last. */
  function RunningTurns(spec: MilvusSpec, upgradingTo26: bool, downgrade: bool, newer: NewerThan25): seq<Component>
  {
    var turns := Turns(spec, upgradingTo26, downgrade, newer);
    if turns != [] && StreamingWithoutMixCoord(spec, newer) then turns[..|turns| - 1] else turns
  }

  lemma RunningTurnsRun(l: Layout, spec: MilvusSpec, upgradingTo26: bool, downgrade: bool, newer: NewerThan25, i: nat)
    requires upgradingTo26 ==> newer(spec.version, spec.image)
    requires LaidOut(l, spec, newer) && (StreamingWithoutMixCoord(spec, newer) ==> downgrade)
    requires i < |RunningTurns(spec, upgradingTo26, downgrade, newer)|
    ensures RunningTurns(spec, upgradingTo26, downgrade, newer)[i] in l.groups
  {
    assert StreamingWithoutMixCoord(spec, newer) ==> !upgradingTo26;
    hide OrderOf, ComponentsOf, StreamingWithoutMixCoord;
    var n := |OrderOf(spec, upgradingTo26, newer)|;
    OrderRuns(spec, upgradingTo26, newer, if downgrade && !upgradingTo26 then n - 1 - i else i);
  }

  /** CDC, then the turns, then all that is in no order. */
  function Plan(l: Layout, spec: MilvusSpec, upgradingTo26: bool, downgrade: bool, newer: NewerThan25): seq<Component>
  {
    (if l.useCdc then [Cdc] else []) + RunningTurns(spec, upgradingTo26, downgrade, newer) + ComponentsOf(spec, newer)
  }

  lemma PlanIsInWaitingOrder(l: Layout, spec: MilvusSpec, upgradingTo26: bool, downgrade: bool, newer: NewerThan25)
    requires upgradingTo26 ==> newer(spec.version, spec.image)
    requires LaidOut(l, spec, newer) && (StreamingWithoutMixCoord(spec, newer) ==> downgrade) && (l.useCdc ==> Cdc in l.groups)
    ensures InWaitingOrder(l, WaitsOf(spec, upgradingTo26, downgrade, newer), Plan(l, spec, upgradingTo26, downgrade, newer))
  {
    var waits := WaitsOf(spec, upgradingTo26, downgrade, newer);
    var cdc := if l.useCdc then [Cdc] else [];
    var turns := RunningTurns(spec, upgradingTo26, downgrade, newer);
    var rest := ComponentsOf(spec, newer);
    var cs := cdc + turns + rest;
    forall i | 0 <= i < |cs|
      ensures cs[i] in l.groups
      ensures cs[i] != Cdc ==> (l.useCdc ==> Cdc in cs[..i]) && forall d :: d in waits(cs[i]) ==> d in cs[..i]
    {
      hide ComponentsOf, DependenciesOf, OrderOf, StreamingWithoutMixCoord;
      assert l.useCdc && i > 0 ==> cs[..i][0] == Cdc;
      if |cdc| <= i < |cdc| + |turns| {
        assert cs[i] == turns[i - |cdc|];
        RunningTurnsRun(l, spec, upgradingTo26, downgrade, newer, i - |cdc|);
      }
      forall d | d in waits(cs[i]) && cs[i] != Cdc
        ensures d in cs[..i]
      {
        PlannedBefore(l, spec, upgradingTo26, downgrade, newer, i, d);
      }
    }
  }

  lemma PlannedBefore(l: Layout, spec: MilvusSpec, upgradingTo26: bool, downgrade: bool, newer: NewerThan25, i: nat,
                      d: Component)
    requires i < |Plan(l, spec, upgradingTo26, downgrade, newer)| && Plan(l, spec, upgradingTo26, downgrade, newer)[i] != Cdc
    requires d in WaitsOf(spec, upgradingTo26, downgrade, newer)(Plan(l, spec, upgradingTo26, downgrade, newer)[i])
    ensures d in Plan(l, spec, upgradingTo26, downgrade, newer)[..i]
  {
    hide ComponentsOf, DependenciesOf, OrderOf, StreamingWithoutMixCoord;
    var cs, n := Plan(l, spec, upgradingTo26, downgrade, newer), if l.useCdc then 1 else 0;
    var all, turns := Turns(spec, upgradingTo26, downgrade, newer), RunningTurns(spec, upgradingTo26, downgrade, newer);
    assert forall j :: 0 <= j < |turns| ==> cs[n + j] == turns[j];
    if i < n + |turns| {
      TurnsWait(spec, upgradingTo26, downgrade, newer, i - n, d);
      assert cs[..i][i - 1] == turns[i - n - 1];
    } else {
      WaitsAreInTurns(spec, upgradingTo26, downgrade, newer, cs[i], d);
      var j :| 0 <= j < |all| - 1 && all[j] == d;
      assert cs[..i][n + j] == turns[j];
    }
  }

  /** A run that ends with the image on every workload of every component, all recorded complete. */
  ghost predicate CompletedBy(w: World, l: Layout, waits: Waits, target: string, events: seq<Event>)
  {
    && HonestRun(w, l, waits, target, events)
    && forall c :: c in l.groups ==>
         AllCarry(Run(w, l, waits, target, events), l, c, target) && IsImageUpdated(Run(w, l, waits, target, events), c, target)
  }

  /**
   A rollout that has not reached the streaming nodes can be completed, from whatever state, exactly
   if it is not an upgrade with streaming and without a MixCoord.
   */
  lemma CompletesIff(w: World, l: Layout, spec: MilvusSpec, upgradingTo26: bool, downgrade: bool, newer: NewerThan25,
                     target: string)
    requires upgradingTo26 ==> newer(spec.version, spec.image)
    requires LaidOut(l, spec, newer) && target != "" && (l.useCdc ==> Cdc in l.groups)
    requires Inv(w, l, WaitsOf(spec, upgradingTo26, downgrade, newer), target)
    requires !AnyCarries(w, l, StreamingNode, target) && (MixCoord in l.groups || MixCoord !in w.recorded)
    ensures (exists events :: CompletedBy(w, l, WaitsOf(spec, upgradingTo26, downgrade, newer), target, events)) <==>
            (StreamingWithoutMixCoord(spec, newer) ==> downgrade)
  {
    var waits := WaitsOf(spec, upgradingTo26, downgrade, newer);
    if StreamingWithoutMixCoord(spec, newer) && !downgrade {
      OrderRuns(spec, false, newer, 0);
      OrderRuns(spec, false, newer, 1);
      assert StreamingNode in l.groups && MixCoord !in l.groups && !upgradingTo26;
      hide Inv, HonestRun, Run, WaitsOf, AllCarry, AnyCarries, LaidOut, StreamingWithoutMixCoord;
      forall events | CompletedBy(w, l, waits, target, events)
        ensures false
      {
        NothingAfterMixCoord(w, l, spec, newer, target, events, StreamingNode);
        AllThenAny(Run(w, l, waits, target, events), l, StreamingNode, target);
      }
    } else {
      PlanIsInWaitingOrder(l, spec, upgradingTo26, downgrade, newer);
      var cs := Plan(l, spec, upgradingTo26, downgrade, newer);
      assert forall c :: c in l.groups ==> c in cs;
      hide Plan, InWaitingOrder, Inv, HonestRun, Run, WaitsOf, AllCarry, AnyCarries, LaidOut, StreamingWithoutMixCoord;
      var events := RollThrough(w, l, waits, target, cs);
      assert CompletedBy(w, l, waits, target, events);
    }
  }
}
