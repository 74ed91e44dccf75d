/** Which components must carry a new image before which others, and the same order backwards. */
module DependencyGraph {
  import opened Common
  import opened UpgradeReplicas

  datatype Edges = Edges(dependencies: map<Component, seq<Component>>, reversed: map<Component, seq<Component>>)

  const NO_EDGES := Edges(map[], map[])

  /** A missing entry reads as an empty list. */
  function At(m: map<Component, seq<Component>>, c: Component): seq<Component> { if c in m then m[c] else [] }

  function Dependencies(g: Edges, c: Component): seq<Component> { At(g.dependencies, c) }

  function Reversed(g: Edges, c: Component): seq<Component> { At(g.reversed, c) }

  function AddReversed(r: map<Component, seq<Component>>, c: Component, deps: seq<Component>)
    : map<Component, seq<Component>>
  {
    if deps == [] then r
    else
      var before := AddReversed(r, c, deps[..|deps| - 1]);
      var d := deps[|deps| - 1];
      before[d := At(before, d) + [c]]
  }

  function Added(g: Edges, c: Component, deps: seq<Component>): Edges
  {
    Edges(g.dependencies[c := deps], AddReversed(g.reversed, c, deps))
  }

  class Graph {
    var dependencies: map<Component, seq<Component>>
    var reversedDependencies: map<Component, seq<Component>>

    ghost function View(): Edges
      reads this
    {
      Edges(dependencies, reversedDependencies)
    }

    constructor ()
      ensures View() == NO_EDGES
    {
      dependencies := map[];
      reversedDependencies := map[];
    }

    method AddDependency(c: Component, deps: seq<Component>)
      modifies this
      ensures View() == Added(old(View()), c, deps)
    {
      dependencies := dependencies[c := deps];
      ghost var start := reversedDependencies;
      for i := 0 to |deps|
        invariant reversedDependencies == AddReversed(start, c, deps[..i])
        invariant dependencies == old(dependencies)[c := deps]
      {
        assert deps[..i + 1][..i] == deps[..i];
        var dep := deps[i];
        var row := if dep in reversedDependencies then reversedDependencies[dep] else [];
        reversedDependencies := reversedDependencies[dep := row + [c]];
      }
      assert deps[..|deps|] == deps;
    }

    /** The group of a workload does not matter. */
    method GetDependencies(w: Workload) returns (r: seq<Component>)
      ensures r == Dependencies(View(), w.c)
    {
      return if w.c in dependencies then dependencies[w.c] else [];
    }

    method GetReversedDependencies(w: Workload) returns (r: seq<Component>)
      ensures r == Reversed(View(), w.c)
    {
      return if w.c in reversedDependencies then reversedDependencies[w.c] else [];
    }
  }

  // ---- reversed is the converse -----------------------------------------------------------------------------

  datatype AddCall = AddCall(c: Component, deps: seq<Component>)

  function Built(calls: seq<AddCall>): Edges
  {
    if calls == [] then NO_EDGES
    else Added(Built(calls[..|calls| - 1]), calls[|calls| - 1].c, calls[|calls| - 1].deps)
  }

  function Count(s: seq<Component>, c: Component): nat { multiset(s)[c] }

  predicate DistinctComponents(calls: seq<AddCall>)
  {
    forall i, j :: 0 <= i < j < |calls| ==> calls[i].c != calls[j].c
  }

  /** An edge is recorded backwards as often as it is recorded forwards. */
  predicate IsConverse(g: Edges)
  {
    forall c, d :: Count(Reversed(g, d), c) == Count(Dependencies(g, c), d)
  }

  lemma CountSnoc(s: seq<Component>, x: Component, c: Component)
    ensures Count(s + [x], c) == Count(s, c) + if x == c then 1 else 0
  {
  }

  lemma {:induction false} AddReversedCounts(r: map<Component, seq<Component>>, c: Component, deps: seq<Component>,
                                             d: Component, e: Component)
    ensures Count(At(AddReversed(r, c, deps), d), e) == Count(At(r, d), e) + if e == c then Count(deps, d) else 0
  {
    hide Count;
    if deps == [] {
      assert Count([], d) == 0 by { CountEmpty(d); }
    } else {
      var init, last := deps[..|deps| - 1], deps[|deps| - 1];
      AddReversedCounts(r, c, init, d, e);
      assert deps == init + [last];
      CountSnoc(init, last, d);
      CountSnoc(At(AddReversed(r, c, init), d), c, e);
    }
  }

  lemma CountEmpty(c: Component)
    ensures Count([], c) == 0
  {
  }

  lemma {:induction false} OnlyCalled(calls: seq<AddCall>, c: Component)
    ensures c in Built(calls).dependencies <==> exists i :: 0 <= i < |calls| && calls[i].c == c
  {
    if calls != [] {
      OnlyCalled(calls[..|calls| - 1], c);
      assert forall i :: 0 <= i < |calls| - 1 ==> calls[..|calls| - 1][i] == calls[i];
      assert c == calls[|calls| - 1].c ==> calls[|calls| - 1].c == c;
    }
  }

  /** For any sequence of calls on distinct components the reversed map is exactly the converse relation. */
  lemma {:induction false} ReversedIsConverse(calls: seq<AddCall>)
    requires DistinctComponents(calls)
    ensures IsConverse(Built(calls))
  {
    if calls != [] {
      var init, last := calls[..|calls| - 1], calls[|calls| - 1];
      ReversedIsConverse(init);
      OnlyCalled(init, last.c);
      assert last.c !in Built(init).dependencies;
      forall c, d
        ensures Count(Reversed(Built(calls), d), c) == Count(Dependencies(Built(calls), c), d)
      {
        AddReversedCounts(Built(init).reversed, last.c, last.deps, d, c);
        assert Count(Reversed(Built(init), d), c) == Count(Dependencies(Built(init), c), d);
      }
    }
  }

  /** Which converse edges there are after any calls at all: those of every call, also of replaced ones. */
  lemma {:induction false} ReversedRemembersEveryCall(calls: seq<AddCall>, c: Component, d: Component)
    ensures c in Reversed(Built(calls), d) <==> exists i :: 0 <= i < |calls| && calls[i].c == c && d in calls[i].deps
  {
    if calls != [] {
      var init, last := calls[..|calls| - 1], calls[|calls| - 1];
      ReversedRemembersEveryCall(init, c, d);
      AddReversedCounts(Built(init).reversed, last.c, last.deps, d, c);
      assert c in Reversed(Built(calls), d) <==> Count(Reversed(Built(calls), d), c) > 0;
      assert c in Reversed(Built(init), d) <==> Count(Reversed(Built(init), d), c) > 0;
      assert d in last.deps <==> Count(last.deps, d) > 0;
      assert forall i :: 0 <= i < |init| ==> init[i] == calls[i];
    }
  }

  /** Every call for the component but the last one is without dependencies. */
  predicate EarlierEmpty(calls: seq<AddCall>, c: Component)
  {
    forall i, j :: 0 <= i < j < |calls| && calls[i].c == c && calls[j].c == c ==> calls[i].deps == []
  }

  predicate ConverseAt(g: Edges, c: Component)
  {
    forall d :: Count(Reversed(g, d), c) == Count(Dependencies(g, c), d)
  }

  /** No reversed edge of a component exactly when all of its calls are without dependencies. */
  lemma NoneRemembered(calls: seq<AddCall>, c: Component)
    ensures (forall d :: Count(Reversed(Built(calls), d), c) == 0) <==>
            AllEmpty(calls, c)
  {
    hide Built;
    if i :| 0 <= i < |calls| && calls[i].c == c && calls[i].deps != [] {
      var d := calls[i].deps[0];
      ReversedRemembersEveryCall(calls, c, d);
      assert Count(Reversed(Built(calls), d), c) > 0;
    } else {
      forall d
        ensures Count(Reversed(Built(calls), d), c) == 0
      {
        ReversedRemembersEveryCall(calls, c, d);
      }
    }
  }

  /** What one more call means for the converse at a component. */
  lemma ConverseStep(g: Edges, a: Component, deps: seq<Component>, c: Component)
    ensures a != c ==> (ConverseAt(Added(g, a, deps), c) <==> ConverseAt(g, c))
    ensures a == c ==> (ConverseAt(Added(g, a, deps), c) <==> forall d :: Count(Reversed(g, d), c) == 0)
  {
    hide Count, AddReversed;
    var h := Added(g, a, deps);
    forall d
      ensures Count(Reversed(h, d), c) == Count(Reversed(g, d), c) + if a == c then Count(deps, d) else 0
    {
      AddReversedCounts(g.reversed, a, deps, d, c);
    }
    hide Reversed;
    assert Dependencies(h, c) == if a == c then deps else Dependencies(g, c);
  }

  lemma {:induction false} ConverseAtIff(calls: seq<AddCall>, c: Component)
    ensures ConverseAt(Built(calls), c) <==> EarlierEmpty(calls, c)
  {
    if calls != [] {
      var init, last := calls[..|calls| - 1], calls[|calls| - 1];
      assert Built(calls) == Added(Built(init), last.c, last.deps);
      hide ConverseAt, EarlierEmpty, AllEmpty, Added, Count, Reversed;
      ConverseAtIff(init, c);
      NoneRemembered(init, c);
      SplitLastCall(calls, c);
      ConverseStep(Built(init), last.c, last.deps, c);
    }
  }

  predicate AllEmpty(calls: seq<AddCall>, c: Component)
  {
    forall i :: 0 <= i < |calls| && calls[i].c == c ==> calls[i].deps == []
  }

  lemma SplitLastCall(calls: seq<AddCall>, c: Component)
    requires calls != []
    ensures var init := calls[..|calls| - 1];
            EarlierEmpty(calls, c) <==> if calls[|calls| - 1].c == c then AllEmpty(init, c) else EarlierEmpty(init, c)
  {
    var init, last := calls[..|calls| - 1], calls[|calls| - 1];
    if EarlierEmpty(calls, c) {
      ShorterEmpty(init, last, c);
    } else {
      LongerEmpty(init, last, c);
    }
    assert calls == init + [last];
  }

  lemma ShorterEmpty(init: seq<AddCall>, last: AddCall, c: Component)
    ensures EarlierEmpty(init + [last], c) ==> EarlierEmpty(init, c) && (last.c == c ==> AllEmpty(init, c))
  {
    var calls := init + [last];
    if EarlierEmpty(calls, c) {
      forall i | 0 <= i < |init| && init[i].c == c
        ensures last.c == c || (exists j :: i < j < |init| && init[j].c == c) ==> init[i].deps == []
      {
        assert calls[i] == init[i] && calls[|init|] == last;
        if j :| i < j < |init| && init[j].c == c { assert calls[j] == init[j]; }
      }
    }
  }

  lemma LongerEmpty(init: seq<AddCall>, last: AddCall, c: Component)
    ensures (if last.c == c then AllEmpty(init, c) else EarlierEmpty(init, c)) ==> EarlierEmpty(init + [last], c)
  {
  }

  lemma ConverseEverywhere(g: Edges)
    ensures IsConverse(g) <==> forall c :: ConverseAt(g, c)
  {
    hide Count, Reversed, Dependencies;
    if forall c :: ConverseAt(g, c) {
      forall c, d
        ensures Count(Reversed(g, d), c) == Count(Dependencies(g, c), d)
      {
        assert ConverseAt(g, c);
      }
    }
  }

  /** For any calls at all: the reversed map is the converse exactly when no component with dependencies is added again. */
  lemma ConverseIffNotAddedAgain(calls: seq<AddCall>)
    ensures IsConverse(Built(calls)) <==>
            forall i, j :: 0 <= i < j < |calls| && calls[i].c == calls[j].c ==> calls[i].deps == []
  {
    hide Built, Count, Reversed, Dependencies;
    forall c
      ensures ConverseAt(Built(calls), c) <==> EarlierEmpty(calls, c)
    {
      ConverseAtIff(calls, c);
    }
    assert IsConverse(Built(calls)) <==> forall c :: ConverseAt(Built(calls), c) by { ConverseEverywhere(Built(calls)); }
    hide ConverseAt, IsConverse;
    if forall c :: EarlierEmpty(calls, c) {
      forall i, j | 0 <= i < j < |calls| && calls[i].c == calls[j].c
        ensures calls[i].deps == []
      {
        assert EarlierEmpty(calls, calls[i].c);
      }
    }
  }

  /** So adding a component again leaves its dropped edges behind, or doubles the ones it keeps. */
  lemma AddingAgainBreaksConverse()
    ensures !IsConverse(Built([AddCall(Proxy, [DataNode]), AddCall(Proxy, [])]))
    ensures !IsConverse(Built([AddCall(Proxy, [DataNode]), AddCall(Proxy, [DataNode])]))
  {
    hide Built, IsConverse;
    var dropped, kept := [AddCall(Proxy, [DataNode]), AddCall(Proxy, [])], [AddCall(Proxy, [DataNode]), AddCall(Proxy, [DataNode])];
    ConverseIffNotAddedAgain(dropped);
    ConverseIffNotAddedAgain(kept);
    assert dropped[0].c == dropped[1].c && kept[0].c == kept[1].c;
  }

  // ---- the four orders ---------------------------------------------------------------------------------------

  /** Each component waits for the one before it. */
  function Chain(order: seq<Component>): seq<AddCall>
  {
    seq(|order|, i requires 0 <= i < |order| => AddCall(order[i], if i == 0 then [] else [order[i - 1]]))
  }

  const CLUSTER := [IndexNode, RootCoord, DataCoord, IndexCoord, QueryCoord, QueryNode, DataNode, Proxy]
  const MIX_COORD := [IndexNode, MixCoord, QueryNode, DataNode, Proxy]
  const STREAMING := [MixCoord, StreamingNode, QueryNode, DataNode, Proxy]
  const UPGRADE_26 := [StreamingNode, MixCoord, QueryNode, DataNode, Proxy]

  predicate NoRepeats(order: seq<Component>) { forall i, j :: 0 <= i < j < |order| ==> order[i] != order[j] }

  lemma {:induction false} ChainDependency(order: seq<Component>, n: nat, k: nat)
    requires NoRepeats(order) && k < |order| && n <= |order|
    ensures Dependencies(Built(Chain(order)[..n]), order[k]) == if 0 < k < n then [order[k - 1]] else []
  {
    hide AddReversed;
    if n > 0 {
      ChainDependency(order, n - 1, k);
      assert Chain(order)[..n][..n - 1] == Chain(order)[..n - 1];
      assert Chain(order)[..n][n - 1].c == order[n - 1];
    }
  }

  /** The graph of a chain, forwards and backwards: neighbours and nothing else. */
  lemma ChainEdges(order: seq<Component>, c: Component, d: Component)
    requires NoRepeats(order)
    ensures var g := Built(Chain(order));
            && (d in Dependencies(g, c) <==> exists i :: 0 < i < |order| && order[i] == c && order[i - 1] == d)
            && (d in Reversed(g, c) <==> exists i :: 0 < i < |order| && order[i] == d && order[i - 1] == c)
  {
    ChainForward(order, c, d);
    ChainForward(order, d, c);
    ReversedIsConverse(Chain(order));
    var g := Built(Chain(order));
    assert Count(Reversed(g, c), d) == Count(Dependencies(g, d), c);
    assert d in Reversed(g, c) <==> Count(Reversed(g, c), d) > 0;
    assert c in Dependencies(g, d) <==> Count(Dependencies(g, d), c) > 0;
  }

  lemma ChainForward(order: seq<Component>, c: Component, d: Component)
    requires NoRepeats(order)
    ensures d in Dependencies(Built(Chain(order)), c) <==> exists i :: 0 < i < |order| && order[i] == c && order[i - 1] == d
  {
    hide Built, Dependencies;
    assert Chain(order)[..|order|] == Chain(order);
    if c in order {
      var k :| 0 <= k < |order| && order[k] == c;
      ChainDependency(order, |order|, k);
      assert forall i :: 0 <= i < |order| && order[i] == c ==> i == k;
    } else {
      NotInChain(order, c);
    }
  }

  lemma NotInChain(order: seq<Component>, c: Component)
    requires c !in order
    ensures Dependencies(Built(Chain(order)), c) == []
  {
    OnlyCalled(Chain(order), c);
    assert forall i :: 0 <= i < |order| ==> Chain(order)[i].c == order[i];
  }

  lemma AddOneReversed(r: map<Component, seq<Component>>, c: Component, d: Component)
    ensures AddReversed(r, c, [d]) == r[d := At(r, d) + [c]]
  {
    assert [d][..0] == [];
    assert AddReversed(r, c, []) == r;
  }

  lemma ReversedOfNext(order: seq<Component>, n: nat, c: Component)
    requires 0 < n <= |order|
    ensures var before := Reversed(Built(Chain(order)[..n - 1]), c);
            Reversed(Built(Chain(order)[..n]), c) == if n > 1 && order[n - 2] == c then before + [order[n - 1]] else before
  {
    assert Chain(order)[..n][..n - 1] == Chain(order)[..n - 1];
    assert Chain(order)[..n][n - 1] == AddCall(order[n - 1], if n == 1 then [] else [order[n - 2]]);
    if n > 1 { AddOneReversed(Built(Chain(order)[..n - 1]).reversed, order[n - 1], order[n - 2]); }
  }

  lemma {:induction false} ChainReversed(order: seq<Component>, n: nat, c: Component, k: nat)
    requires NoRepeats(order) && n <= |order| && (c !in order || (k < |order| && order[k] == c))
    ensures Reversed(Built(Chain(order)[..n]), c) == if c in order && k + 1 < n then [order[k + 1]] else []
  {
    if n > 0 {
      ChainReversed(order, n - 1, c, k);
      ReversedOfNext(order, n, c);
      hide Built, Reversed;
      assert n > 1 && order[n - 2] == c ==> k == n - 2;
    }
  }

  /** What a component of the chain has before and behind it, as lists. */
  lemma ChainNeighbours(order: seq<Component>, k: nat)
    requires NoRepeats(order) && k < |order|
    ensures Dependencies(Built(Chain(order)), order[k]) == if k > 0 then [order[k - 1]] else []
    ensures Reversed(Built(Chain(order)), order[k]) == if k + 1 < |order| then [order[k + 1]] else []
  {
    hide Built, Dependencies, Reversed;
    assert Chain(order)[..|order|] == Chain(order);
    ChainDependency(order, |order|, k);
    ChainReversed(order, |order|, order[k], k);
  }

  lemma OutsideChain(order: seq<Component>, c: Component)
    requires NoRepeats(order) && c !in order
    ensures Dependencies(Built(Chain(order)), c) == [] && Reversed(Built(Chain(order)), c) == []
  {
    hide Built, Dependencies, Reversed;
    assert Chain(order)[..|order|] == Chain(order);
    NotInChain(order, c);
    ChainReversed(order, |order|, c, 0);
  }

  lemma FourOrders()
    ensures NoRepeats(CLUSTER) && NoRepeats(MIX_COORD) && NoRepeats(STREAMING) && NoRepeats(UPGRADE_26)
  {
  }

  /** The order that applies to a spec. */
  function OrderOf(spec: MilvusSpec, upgradingTo26: bool, newer: NewerThan25): (order: seq<Component>)
    ensures NoRepeats(order)
  {
    FourOrders();
    if !spec.cluster then []
    else if upgradingTo26 then UPGRADE_26
    else if UseStreamingNode(spec, newer) then STREAMING
    else if MixCoord in spec.coms then MIX_COORD
    else CLUSTER
  }

  /** The 2.6 upgrade order ignores the direction, all others are walked backwards for a downgrade. */
  function DependenciesOf(spec: MilvusSpec, upgradingTo26: bool, downgrade: bool, newer: NewerThan25, c: Component)
    : seq<Component>
  {
    var g := Built(Chain(OrderOf(spec, upgradingTo26, newer)));
    if downgrade && !upgradingTo26 then Reversed(g, c) else Dependencies(g, c)
  }

  // ---- who waits for whom ------------------------------------------------------------------------------------

  /** Only a cluster is rolled in an order. */
  lemma StandaloneWaitsForNobody(spec: MilvusSpec, upgradingTo26: bool, downgrade: bool, newer: NewerThan25, c: Component)
    requires !spec.cluster
    ensures DependenciesOf(spec, upgradingTo26, downgrade, newer, c) == []
  {
    hide Built, Dependencies, Reversed, Chain;
    OutsideChain([], c);
  }

  /** The upgrade to 2.6: streaming nodes before the coordinator, and the same in both directions. */
  lemma WaitingFor26(spec: MilvusSpec, downgrade: bool, newer: NewerThan25, c: Component)
    requires spec.cluster
    ensures DependenciesOf(spec, true, downgrade, newer, c) ==
            match c
            case MixCoord => [StreamingNode]
            case QueryNode => [MixCoord]
            case DataNode => [QueryNode]
            case Proxy => [DataNode]
            case _ => []
  {
    hide Built, Dependencies, Reversed, Chain;
    match c
    case StreamingNode => ChainNeighbours(UPGRADE_26, 0);
    case MixCoord => ChainNeighbours(UPGRADE_26, 1);
    case QueryNode => ChainNeighbours(UPGRADE_26, 2);
    case DataNode => ChainNeighbours(UPGRADE_26, 3);
    case Proxy => ChainNeighbours(UPGRADE_26, 4);
    case _ => OutsideChain(UPGRADE_26, c);
  }

  /** With streaming nodes: the coordinator before them. */
  lemma WaitingWithStreaming(spec: MilvusSpec, newer: NewerThan25, c: Component)
    requires spec.cluster
    requires || newer(spec.version, spec.image)
             || (if spec.streamingMode.Some? then spec.streamingMode.value else StreamingNode in spec.coms)
    ensures DependenciesOf(spec, false, false, newer, c) ==
            match c
            case StreamingNode => [MixCoord]
            case QueryNode => [StreamingNode]
            case DataNode => [QueryNode]
            case Proxy => [DataNode]
            case _ => []
    ensures DependenciesOf(spec, false, true, newer, c) ==
            match c
            case MixCoord => [StreamingNode]
            case StreamingNode => [QueryNode]
            case QueryNode => [DataNode]
            case DataNode => [Proxy]
            case _ => []
  {
    hide Built, Dependencies, Reversed, Chain;
    match c
    case MixCoord => ChainNeighbours(STREAMING, 0);
    case StreamingNode => ChainNeighbours(STREAMING, 1);
    case QueryNode => ChainNeighbours(STREAMING, 2);
    case DataNode => ChainNeighbours(STREAMING, 3);
    case Proxy => ChainNeighbours(STREAMING, 4);
    case _ => OutsideChain(STREAMING, c);
  }

  /** Without streaming nodes and with one coordinator for all. */
  lemma WaitingWithMixCoord(spec: MilvusSpec, newer: NewerThan25, c: Component)
    requires spec.cluster && !newer(spec.version, spec.image) && MixCoord in spec.coms
    requires if spec.streamingMode.Some? then !spec.streamingMode.value else StreamingNode !in spec.coms
    ensures DependenciesOf(spec, false, false, newer, c) ==
            match c
            case MixCoord => [IndexNode]
            case QueryNode => [MixCoord]
            case DataNode => [QueryNode]
            case Proxy => [DataNode]
            case _ => []
    ensures DependenciesOf(spec, false, true, newer, c) ==
            match c
            case IndexNode => [MixCoord]
            case MixCoord => [QueryNode]
            case QueryNode => [DataNode]
            case DataNode => [Proxy]
            case _ => []
  {
    hide Built, Dependencies, Reversed, Chain;
    match c
    case IndexNode => ChainNeighbours(MIX_COORD, 0);
    case MixCoord => ChainNeighbours(MIX_COORD, 1);
    case QueryNode => ChainNeighbours(MIX_COORD, 2);
    case DataNode => ChainNeighbours(MIX_COORD, 3);
    case Proxy => ChainNeighbours(MIX_COORD, 4);
    case _ => OutsideChain(MIX_COORD, c);
  }

  /** Without streaming nodes and with separate coordinators. */
  lemma WaitingWithCoordinators(spec: MilvusSpec, newer: NewerThan25, c: Component)
    requires spec.cluster && !newer(spec.version, spec.image) && MixCoord !in spec.coms
    requires if spec.streamingMode.Some? then !spec.streamingMode.value else StreamingNode !in spec.coms
    ensures DependenciesOf(spec, false, false, newer, c) ==
            match c
            case RootCoord => [IndexNode]
            case DataCoord => [RootCoord]
            case IndexCoord => [DataCoord]
            case QueryCoord => [IndexCoord]
            case QueryNode => [QueryCoord]
            case DataNode => [QueryNode]
            case Proxy => [DataNode]
            case _ => []
    ensures DependenciesOf(spec, false, true, newer, c) ==
            match c
            case IndexNode => [RootCoord]
            case RootCoord => [DataCoord]
            case DataCoord => [IndexCoord]
            case IndexCoord => [QueryCoord]
            case QueryCoord => [QueryNode]
            case QueryNode => [DataNode]
            case DataNode => [Proxy]
            case _ => []
  {
    hide Built, Dependencies, Reversed, Chain;
    match c
    case IndexNode => ChainNeighbours(CLUSTER, 0);
    case RootCoord => ChainNeighbours(CLUSTER, 1);
    case DataCoord => ChainNeighbours(CLUSTER, 2);
    case IndexCoord => ChainNeighbours(CLUSTER, 3);
    case QueryCoord => ChainNeighbours(CLUSTER, 4);
    case QueryNode => ChainNeighbours(CLUSTER, 5);
    case DataNode => ChainNeighbours(CLUSTER, 6);
    case Proxy => ChainNeighbours(CLUSTER, 7);
    case _ => OutsideChain(CLUSTER, c);
  }
}
