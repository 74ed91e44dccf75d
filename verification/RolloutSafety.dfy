/**
 Safety of the rollout controller over whole runs. A run is any sequence of reconciles; each
 has arbitrary inputs (spec edits, rendered templates, observed status and pods) and may be cut
 after any API write.
 */
module RolloutSafety {
  import opened Common
  import opened ScalePlanner
  import opened RolloutController

  predicate SlotName(g: string) { g == "0" || g == "1" }

  predicate HasGroup(w: World, g: string) { exists i :: 0 <= i < |w.deploys| && w.deploys[i].group == g }

  /** Every Deployment other than the one in group g is scaled to zero. */
  predicate OthersEmpty(w: World, g: string)
  {
    forall i :: 0 <= i < |w.deploys| && w.deploys[i].group != g ==> w.deploys[i].replicas == 0
  }

  /** What every reachable world satisfies; the last clause is the heart of the protocol. */
  predicate Inv(w: World)
  {
    && |w.deploys| <= 2
    && (forall i :: 0 <= i < |w.deploys| ==> SlotName(w.deploys[i].group) && w.deploys[i].replicas >= 0)
    && (forall i :: 0 <= i < |w.deploys| ==> w.deploys[i].template.group == w.deploys[i].group)
    && (|w.deploys| == 2 ==> w.deploys[0].group != w.deploys[1].group)
    && (|w.deploys| == 1 ==> w.deploys[0].group == "0")
    && (|w.deploys| > 0 ==> HasGroup(w, w.currentGroup))
    && (!w.rolling ==> OthersEmpty(w, w.currentGroup))
  }

  /** A single API write that cannot hurt: no live template changes, no marker is moved too early. */
  predicate SafeWrite(w: World, wr: Write)
  {
    match wr
    case Create(d) =>
      && d.replicas == 0 && d.template.group == d.group && SlotName(d.group)
      && (|w.deploys| == 0 ==> d.group == "0" == w.currentGroup)
    case SetTemplate(i, t) =>
      && i < |w.deploys| && t.group == w.deploys[i].group
      && (w.deploys[i].replicas == 0 || t == w.deploys[i].template)
    case SetReplicas(i, n) =>
      i < |w.deploys| && (w.rolling || w.deploys[i].group == w.currentGroup || n == 0)
    case MarkMilvus(g, r) =>
      && (|w.deploys| > 0 ==> HasGroup(w, g))
      && (!r ==> OthersEmpty(w, g))
  }

  predicate SafeWrites(w: World, ws: seq<Write>)
    decreases |ws|
  {
    ws == [] || (SafeWrite(w, ws[0]) && SafeWrites(Apply(w, ws[0]), ws[1..]))
  }

  lemma SafeCreate(w: World, d: Deployment)
    requires Inv(w) && SafeWrite(w, Create(d))
    ensures Inv(Apply(w, Create(d))) && w.deploys <= Apply(w, Create(d)).deploys
  {
    var v := Apply(w, Create(d));
    if |w.deploys| == 2 {
      assert w.deploys[0].group == d.group || w.deploys[1].group == d.group;
    } else if |w.deploys| == 1 {
      assert HasGroup(w, w.currentGroup);
      assert v.deploys[0] == w.deploys[0];
    } else {
      assert v.deploys == [d];
      assert v.deploys[0].group == v.currentGroup;
    }
  }

  /** Replacing one Deployment by one of the same group, without breaking the clear-label rule, keeps the invariant. */
  lemma SafeReplace(w: World, i: nat, d: Deployment)
    requires Inv(w) && i < |w.deploys|
    requires d.group == w.deploys[i].group == d.template.group && d.replicas >= 0
    requires w.rolling || d.group == w.currentGroup || d.replicas == 0
    ensures Inv(w.(deploys := w.deploys[i := d]))
  {
    var v := w.(deploys := w.deploys[i := d]);
    var k :| 0 <= k < |w.deploys| && w.deploys[k].group == w.currentGroup;
    assert v.deploys[k].group == w.currentGroup;
  }

  lemma SafeMark(w: World, g: string, r: bool)
    requires Inv(w) && SafeWrite(w, MarkMilvus(g, r))
    ensures Inv(Apply(w, MarkMilvus(g, r)))
  {
    if |w.deploys| > 0 {
      var k :| 0 <= k < |w.deploys| && w.deploys[k].group == g;
      assert Apply(w, MarkMilvus(g, r)).deploys[k].group == g;
    }
  }

  lemma SafeWriteKeepsInv(w: World, wr: Write)
    requires Inv(w) && SafeWrite(w, wr)
    ensures Inv(Apply(w, wr))
    ensures |Apply(w, wr).deploys| >= |w.deploys|
    ensures forall i :: 0 <= i < |w.deploys| ==>
              && Apply(w, wr).deploys[i].group == w.deploys[i].group
              && (Apply(w, wr).deploys[i].template != w.deploys[i].template ==> w.deploys[i].replicas == 0)
  {
    match wr
    case Create(d) =>
      SafeCreate(w, d);
    case SetTemplate(i, t) =>
      if w.deploys[i].replicas != 0 && !w.rolling { assert w.deploys[i].group == w.currentGroup; }
      SafeReplace(w, i, w.deploys[i].(template := t));
    case SetReplicas(i, n) =>
      if n >= 0 { SafeReplace(w, i, w.deploys[i].(replicas := n)); }
    case MarkMilvus(g, r) =>
      SafeMark(w, g, r);
  }

  lemma {:induction false} SafePrefixKeepsInv(w: World, ws: seq<Write>, n: nat)
    requires Inv(w) && SafeWrites(w, ws) && n <= |ws|
    ensures Inv(ApplyAll(w, ws[..n])) && SafeWrites(ApplyAll(w, ws[..n]), ws[n..])
    decreases |ws|
  {
    if n == 0 {
      assert ws[..0] == [] && ws[0..] == ws;
    } else {
      SafeWriteKeepsInv(w, ws[0]);
      SafePrefixKeepsInv(Apply(w, ws[0]), ws[1..], n - 1);
      assert ws[..n][1..] == ws[1..][..n - 1];
      assert ws[n..] == ws[1..][n - 1..];
    }
  }

  lemma {:induction false} SafeConcat(w: World, a: seq<Write>, b: seq<Write>)
    requires SafeWrites(w, a) && SafeWrites(ApplyAll(w, a), b)
    ensures SafeWrites(w, a + b)
    decreases |a|
  {
    if a == [] {
      assert a + b == b;
    } else {
      SafeConcat(Apply(w, a[0]), a[1..], b);
      assert (a + b)[1..] == a[1..] + b;
    }
  }

  lemma SafeSingle(w: World, wr: Write)
    requires SafeWrite(w, wr)
    ensures SafeWrites(w, [wr])
  {
    assert [wr][1..] == [];
  }

  lemma CreateStepSafe(w: World, inp: Inputs)
    requires Inv(w)
    ensures SafeWrites(w, CreateStep(w, inp).writes)
  {
    var ws := CreateStep(w, inp).writes;
    if ws != [] {
      assert |ws| == 1 && SafeWrite(w, ws[0]);
      SafeSingle(w, ws[0]);
      ApplyOne(w, ws[0]);
      assert ws == [ws[0]];
    }
  }

  lemma StopStepSafe(w: World)
    requires Inv(w)
    ensures SafeWrites(w, StopStep(w).writes)
  {
    if Find(w).Found? {
      var c, l := Find(w).cur, Find(w).last;
      var w1 := if w.deploys[c].replicas != 0 then [SetReplicas(c, 0)] else [];
      var w2 := if w.deploys[l].replicas != 0 then [SetReplicas(l, 0)] else [];
      var w3 := if w.rolling then [MarkMilvus(w.currentGroup, false)] else [];
      if w1 != [] { SafeSingle(w, w1[0]); ApplyOne(w, w1[0]); }
      var u := ApplyAll(w, w1);
      assert u.deploys[l] == w.deploys[l];
      if w2 != [] { SafeSingle(u, w2[0]); ApplyOne(u, w2[0]); }
      SafeConcat(w, w1, w2);
      ApplyAllConcat(w, w1, w2);
      var v := ApplyAll(w, w1 + w2);
      assert OthersEmpty(v, w.currentGroup) && v.deploys[c].group == w.currentGroup;
      if w3 != [] {
        assert HasGroup(v, w.currentGroup);
        SafeSingle(v, w3[0]);
        ApplyOne(v, w3[0]);
      }
      SafeConcat(w, w1 + w2, w3);
      assert StopStep(w).writes == w1 + w2 + w3;
    }
  }

  /** A new rollout is prepared only on a Deployment with no replicas, or to restore its own template. */
  lemma PrepareSafe(w: World, i: nat, rendered: Content)
    requires Inv(w) && i < |w.deploys|
    requires w.deploys[i].replicas == 0 || w.deploys[i].template.content == rendered
    ensures SafeWrites(w, PrepareNewRollout(w, i, rendered))
  {
    var ws := PrepareNewRollout(w, i, rendered);
    SafeSingle(w, ws[0]);
    ApplyOne(w, ws[0]);
    var u := Apply(w, ws[0]);
    assert u.deploys[i].group == w.deploys[i].group;
    assert HasGroup(u, w.deploys[i].group);
    SafeSingle(u, ws[1]);
    ApplyOne(u, ws[1]);
    SafeConcat(w, [ws[0]], [ws[1]]);
    assert ws == [ws[0]] + [ws[1]];
  }

  lemma RollingStepSafe(w: World, inp: Inputs)
    requires Inv(w)
    ensures SafeWrites(w, RollingStep(w, inp).writes)
  {
    if Find(w).Found? {
      var c, l := Find(w).cur, Find(w).last;
      assert OthersEmpty(w, w.currentGroup) ==> w.deploys[l].replicas == 0;
      if ShouldRollback(w.deploys[c], w.deploys[l], inp.rendered) {
        PrepareSafe(w, l, inp.rendered);
      } else if w.rolling {
        if RolloutFinished(w, inp, c, l) {
          assert OthersEmpty(w, w.currentGroup);
          SafeSingle(w, MarkMilvus(w.currentGroup, false));
        }
      } else if w.deploys[c].template.content != inp.rendered {
        PrepareSafe(w, if w.deploys[c].replicas > 0 then l else c, inp.rendered);
      }
    }
  }

  lemma ScalingStepSafe(w: World, inp: Inputs)
    requires Inv(w)
    ensures SafeWrites(w, ScalingStep(w, inp).writes)
  {
    var ws := ScalingStep(w, inp).writes;
    if ws != [] {
      var c, l := Find(w).cur, Find(w).last;
      if !w.rolling {
        assert w.deploys[l].replicas == 0;
        EmptyOldDeploymentLeftAlone(inp.spec, w.rolling, w.deploys[c].replicas, ObservedAt(inp, c),
                                    ObservedAt(inp, l), SameLimitsIn(w, c, l));
      }
      assert SafeWrite(w, ws[0]);
      SafeSingle(w, ws[0]);
      ApplyOne(w, ws[0]);
      assert ws == [ws[0]];
    }
  }

  lemma WorkStepSafe(w: World, inp: Inputs)
    requires Inv(w)
    ensures SafeWrites(w, WorkStep(w, inp).writes)
  {
    StopStepSafe(w);
    RollingStepSafe(w, inp);
    ScalingStepSafe(w, inp);
    var r := RollingStep(w, inp);
    if !r.stop {
      assert r.writes == [];
      assert [] + ScalingStep(w, inp).writes == ScalingStep(w, inp).writes;
    }
  }

  lemma ReconcileSafe(w: World, inp: Inputs)
    requires Inv(w)
    ensures SafeWrites(w, ReconcileWrites(w, inp))
  {
    var c := CreateStep(w, inp);
    CreateStepSafe(w, inp);
    if !c.stop {
      SafePrefixKeepsInv(w, c.writes, |c.writes|);
      assert c.writes[..|c.writes|] == c.writes;
      WorkStepSafe(ApplyAll(w, c.writes), inp);
      SafeConcat(w, c.writes, WorkStep(ApplyAll(w, c.writes), inp).writes);
    }
  }

  // ---- whole runs ----------------------------------------------------------------------------

  datatype Event = Event(inp: Inputs, cut: nat)

  function Step(w: World, e: Event): World { ApplyAll(w, Cut(ReconcileWrites(w, e.inp), e.cut)) }

  function Run(w: World, events: seq<Event>): World
    decreases |events|
  {
    if events == [] then w else Step(Run(w, events[..|events| - 1]), events[|events| - 1])
  }

  lemma StepKeepsInv(w: World, e: Event)
    requires Inv(w)
    ensures Inv(Step(w, e))
  {
    var ws := ReconcileWrites(w, e.inp);
    ReconcileSafe(w, e.inp);
    var n := if e.cut < |ws| then e.cut else |ws|;
    SafePrefixKeepsInv(w, ws, n);
    assert Cut(ws, e.cut) == ws[..n];
  }

  /** Every world of every run satisfies the invariant: with the rolling label clear, only the current group has replicas. */
  lemma {:induction false} EveryRunIsSafe(w: World, events: seq<Event>)
    requires Inv(w)
    ensures Inv(Run(w, events))
    decreases |events|
  {
    if events != [] {
      EveryRunIsSafe(w, events[..|events| - 1]);
      StepKeepsInv(Run(w, events[..|events| - 1]), events[|events| - 1]);
    }
  }

  /**
   Between any two consecutive API writes of any run, a Deployment whose pod template changes has
   no replicas, every template keeps the group id of its own Deployment, and a clear rolling label
   still means that nothing but the current group has replicas.
   */
  lemma NoLiveTemplateEverChanges(w: World, events: seq<Event>, inp: Inputs, j: nat)
    requires Inv(w)
    requires j < |ReconcileWrites(Run(w, events), inp)|
    ensures var ws := ReconcileWrites(Run(w, events), inp);
            var before := ApplyAll(Run(w, events), ws[..j]);
            var after := Apply(before, ws[j]);
            && |before.deploys| <= |after.deploys|
            && (forall i :: 0 <= i < |before.deploys| && after.deploys[i].template != before.deploys[i].template ==>
                              before.deploys[i].replicas == 0)
            && (forall i :: 0 <= i < |after.deploys| ==> after.deploys[i].template.group == after.deploys[i].group)
            && (forall i :: 0 <= i < |before.deploys| ==> after.deploys[i].group == before.deploys[i].group)
            && (!after.rolling ==> OthersEmpty(after, after.currentGroup))
  {
    EveryRunIsSafe(w, events);
    var u := Run(w, events);
    ReconcileSafe(u, inp);
    var ws := ReconcileWrites(u, inp);
    SafePrefixKeepsInv(u, ws, j);
    assert ws[j..][0] == ws[j];
    SafeWriteKeepsInv(ApplyAll(u, ws[..j]), ws[j]);
  }

  /** The empty cluster and the cluster left by the one-to-two migration are both valid starting points. */
  lemma StartingPoints(group: string, rolling: bool, replicas: nat, content: Content)
    ensures Inv(World([], group, rolling))
    ensures Inv(World([Deployment("0", replicas, Template(content, "0"))], "0", false))
  {
    var w := World([Deployment("0", replicas, Template(content, "0"))], "0", false);
    assert w.deploys[0].group == "0";
  }
}
