/**
 The two-deployment rollout controller of one component.

 The API server is a list of Deployments plus two markers on the Milvus object: the current
 group and the rolling label. One reconcile is a list of writes, computed by ReconcileWrites;
 a crash (or a failed call) at any API write cuts that list short. The class performs the
 writes one by one and is proved to produce exactly such a prefix.
 */
module RolloutController {
  import opened Common
  import opened GoStrings
  import opened Workloads
  import opened ScalePlanner

  /** The rendered pod template, up to the group-id label. */
  datatype Content = Content(id: string, containers: seq<Container>)

  datatype Template = Template(content: Content, group: string)

  datatype Deployment = Deployment(group: string, replicas: int, template: Template)

  datatype World = World(deploys: seq<Deployment>, currentGroup: string, rolling: bool)

  datatype Write =
    | Create(deploy: Deployment)
    | SetTemplate(i: nat, template: Template)
    | SetReplicas(i: nat, replicas: int)
    | MarkMilvus(group: string, rolling: bool)

  /** What one reconcile is given: the spec, what rendering produces, and what it observes. */
  datatype Inputs = Inputs(spec: ComponentSpec, rendered: Content, created: Content, dummy: Content,
                           observed: seq<Observation>)

  function ObservedAt(inp: Inputs, i: nat): Observation
  {
    if i < |inp.observed| then inp.observed[i] else Observation(0, DeployStatus(0, 0, 0, 0, 0, 0), [])
  }

  /** The API server: writes to absent objects, duplicate names and negative replicas are rejected. */
  function Apply(w: World, wr: Write): World
  {
    match wr
    case Create(d) =>
      if exists i :: 0 <= i < |w.deploys| && w.deploys[i].group == d.group then w
      else w.(deploys := w.deploys + [d])
    case SetTemplate(i, t) =>
      if i < |w.deploys| then w.(deploys := w.deploys[i := w.deploys[i].(template := t)]) else w
    case SetReplicas(i, n) =>
      if i < |w.deploys| && n >= 0 then w.(deploys := w.deploys[i := w.deploys[i].(replicas := n)]) else w
    case MarkMilvus(g, r) => w.(currentGroup := g, rolling := r)
  }

  function ApplyAll(w: World, ws: seq<Write>): World
    decreases |ws|
  {
    if ws == [] then w else ApplyAll(Apply(w, ws[0]), ws[1..])
  }

  /** A list of one write is that write. */
  lemma ApplyOne(w: World, wr: Write)
    ensures ApplyAll(w, [wr]) == Apply(w, wr)
  {
    assert [wr][1..] == [];
  }

  /** The writes that land when the process is cut after n of them. */
  function Cut(ws: seq<Write>, n: nat): seq<Write> { if n < |ws| then ws[..n] else ws }

  lemma {:induction false} ApplyAllConcat(w: World, a: seq<Write>, b: seq<Write>)
    ensures ApplyAll(w, a + b) == ApplyAll(ApplyAll(w, a), b)
    decreases |a|
  {
    if a == [] {
      assert a + b == b;
    } else {
      assert (a + b)[1..] == a[1..] + b;
      ApplyAllConcat(Apply(w, a[0]), a[1..], b);
    }
  }

  // ---- reading the two Deployments ---------------------------------------------------------

  datatype Lookup = NotFound | NoLast | Unexpected | Found(cur: nat, last: nat)

  function GetDeploysSpec(deploys: seq<Deployment>, currentGroup: string): (l: Lookup)
    ensures l.Found? ==> |deploys| == 2 && l.cur < 2 && l.last == 1 - l.cur
    ensures l.Found? ==> deploys[l.cur].group == currentGroup != deploys[l.last].group
  {
    if |deploys| > 2 then Unexpected
    else if |deploys| == 0 then NotFound
    else if |deploys| == 1 then
      if deploys[0].group == currentGroup == "0" then NoLast else Unexpected
    else
      var first := deploys[0].group == currentGroup;
      var second := deploys[1].group == currentGroup;
      if first && !second then Found(0, 1)
      else if second && !first then Found(1, 0)
      else Unexpected
  }

  function Find(w: World): (l: Lookup)
    ensures l.Found? ==> |w.deploys| == 2 && l.cur < 2 && l.last == 1 - l.cur
    ensures l.Found? ==> w.deploys[l.cur].group == w.currentGroup != w.deploys[l.last].group
  {
    GetDeploysSpec(w.deploys, w.currentGroup)
  }

  // ---- one reconcile as a list of writes ---------------------------------------------------

  /** The writes of one handler, and whether the reconcile ends there (an error or a requeue). */
  datatype Outcome = Outcome(writes: seq<Write>, stop: bool)

  function CreateStep(w: World, inp: Inputs): Outcome
  {
    match Find(w)
    case Found(_, _) => Outcome([], false)
    case NotFound =>
      if w.currentGroup != "0" then Outcome([MarkMilvus("0", w.rolling)], true)
      else Outcome([Create(Deployment("0", 0, Template(inp.created, "0")))], false)
    case NoLast => Outcome([Create(Deployment("1", 0, Template(inp.dummy, "1")))], false)
    case Unexpected => Outcome([], true)
  }

  function StopStep(w: World): Outcome
  {
    match Find(w)
    case Found(cur, last) =>
      Outcome((if w.deploys[cur].replicas != 0 then [SetReplicas(cur, 0)] else [])
              + (if w.deploys[last].replicas != 0 then [SetReplicas(last, 0)] else [])
              + (if w.rolling then [MarkMilvus(w.currentGroup, false)] else []), true)
    case _ => Outcome([], true)
  }

  function PrepareNewRollout(w: World, i: nat, rendered: Content): seq<Write>
    requires i < |w.deploys|
  {
    [SetTemplate(i, Template(rendered, w.deploys[i].group)), MarkMilvus(w.deploys[i].group, true)]
  }

  predicate ShouldRollback(cur: Deployment, last: Deployment, rendered: Content)
  {
    cur.template.content != rendered && last.template.content == rendered
  }

  function LeastReplicas(spec: ComponentSpec): int { if Expected(spec) < 0 then 1 else Expected(spec) }

  /** The rollout in progress shows as finished in status and pods. */
  predicate RolloutFinished(w: World, inp: Inputs, cur: nat, last: nat)
    requires cur < |w.deploys| && last < |w.deploys|
  {
    var c, l := ObservedAt(inp, cur), ObservedAt(inp, last);
    && LeastReplicas(inp.spec) <= w.deploys[cur].replicas
    && c.status.observedGeneration == c.generation
    && l.status.observedGeneration == l.generation
    && w.deploys[cur].replicas == c.status.updated
    && c.status.updated == c.status.replicas
    && c.status.updated == c.status.available
    && w.deploys[last].replicas == 0
    && l.status.replicas == 0
    && NotEvicted(l.labelled) == []
  }

  function RollingStep(w: World, inp: Inputs): Outcome
  {
    match Find(w)
    case Found(cur, last) =>
      if ShouldRollback(w.deploys[cur], w.deploys[last], inp.rendered) then
        Outcome(PrepareNewRollout(w, last, inp.rendered), true)
      else if w.rolling then
        if RolloutFinished(w, inp, cur, last) then Outcome([MarkMilvus(w.currentGroup, false)], true)
        else Outcome([], false)
      else if w.deploys[cur].template.content != inp.rendered then
        Outcome(PrepareNewRollout(w, if w.deploys[cur].replicas > 0 then last else cur, inp.rendered), true)
      else Outcome([], false)
    case _ => Outcome([], true)
  }

  predicate SameLimitsIn(w: World, cur: nat, last: nat)
    requires cur < |w.deploys| && last < |w.deploys|
  {
    SameLimits(w.deploys[cur].template.content.containers, w.deploys[last].template.content.containers)
  }

  function PlanIn(w: World, inp: Inputs, cur: nat, last: nat): Action
    requires cur < |w.deploys| && last < |w.deploys|
  {
    PlanNextScaleAction(inp.spec, w.rolling, w.deploys[cur].replicas, ObservedAt(inp, cur),
                        w.deploys[last].replicas, ObservedAt(inp, last), SameLimitsIn(w, cur, last))
  }

  function ScalingStep(w: World, inp: Inputs): Outcome
  {
    match Find(w)
    case Found(cur, last) =>
      if !CanScaleNow(inp.spec, w.deploys[cur].replicas, ObservedAt(inp, cur), w.deploys[last].replicas,
                      ObservedAt(inp, last))
      then Outcome([], true)
      else
        var a := PlanIn(w, inp, cur, last);
        var i := if a.target == Current then cur else last;
        if a.change == 0 then Outcome([], false)
        else Outcome([SetReplicas(i, w.deploys[i].replicas + a.change)], true)
    case _ => Outcome([], true)
  }

  predicate MustStop(spec: ComponentSpec)
  {
    Expected(spec) == 0 && (spec.hpa == None || spec.upgradeStopping)
  }

  /** Everything after HandleCreate. */
  function WorkStep(w: World, inp: Inputs): Outcome
  {
    if inp.spec.paused then Outcome([], true)
    else if MustStop(inp.spec) then StopStep(w)
    else
      var r := RollingStep(w, inp);
      if r.stop then r
      else
        var s := ScalingStep(w, inp);
        Outcome(r.writes + s.writes, s.stop)
  }

  function ReconcileWrites(w: World, inp: Inputs): seq<Write>
  {
    var c := CreateStep(w, inp);
    if c.stop then c.writes else c.writes + WorkStep(ApplyAll(w, c.writes), inp).writes
  }

  // ---- the controller itself -----------------------------------------------------------------

  class Controller {
    var deploys: seq<Deployment>
    var currentGroup: string
    var rolling: bool
    var budget: nat   // API writes that still land before the process is cut

    ghost function View(): World
      reads this
    {
      World(deploys, currentGroup, rolling)
    }

    /** `ws` was attempted from world `w` with `n` writes left: all of it landed, or the process is dead. */
    ghost predicate Performed(w: World, n: nat, ws: seq<Write>)
      reads this
    {
      && View() == ApplyAll(w, Cut(ws, n))
      && budget == (if n < |ws| then 0 else n - |ws|)
    }

    method UpdateTemplate(i: nat, template: Template) returns (ok: bool)
      requires i < |deploys|
      modifies this`deploys, this`budget
      ensures ok == (old(budget) > 0)
      ensures Performed(old(View()), old(budget), [SetTemplate(i, template)])
    {
      ok := budget > 0;
      if ok {
        budget := budget - 1;
        deploys := deploys[i := deploys[i].(template := template)];
      }
      assert [SetTemplate(i, template)][1..] == [];
    }

    method UpdateReplicas(i: nat, replicas: int) returns (ok: bool)
      requires i < |deploys|
      modifies this`deploys, this`budget
      ensures ok == (old(budget) > 0 && replicas >= 0)
      ensures |deploys| == old(|deploys|)
      ensures forall j :: 0 <= j < |deploys| && j != i ==> deploys[j] == old(deploys[j])
      ensures Performed(old(View()), old(budget), [SetReplicas(i, replicas)])
    {
      ok := budget > 0 && replicas >= 0;
      if budget > 0 {
        budget := budget - 1;
      }
      if ok {
        deploys := deploys[i := deploys[i].(replicas := replicas)];
      }
      assert [SetReplicas(i, replicas)][1..] == [];
    }

    method UpdateMilvus(group: string, isRolling: bool) returns (ok: bool)
      modifies this`currentGroup, this`rolling, this`budget
      ensures ok == (old(budget) > 0)
      ensures Performed(old(View()), old(budget), [MarkMilvus(group, isRolling)])
    {
      ok := budget > 0;
      if ok {
        budget := budget - 1;
        currentGroup := group;
        rolling := isRolling;
      }
      assert [MarkMilvus(group, isRolling)][1..] == [];
    }

    method CreateDeployment(d: Deployment) returns (ok: bool)
      modifies this`deploys, this`budget
      ensures ok == (old(budget) > 0 && forall i :: 0 <= i < |old(deploys)| ==> old(deploys)[i].group != d.group)
      ensures Performed(old(View()), old(budget), [Create(d)])
    {
      var taken := false;
      for i := 0 to |deploys|
        invariant taken <==> exists j :: 0 <= j < i && deploys[j].group == d.group
      {
        if deploys[i].group == d.group {
          taken := true;
        }
      }
      ok := budget > 0 && !taken;
      if budget > 0 {
        budget := budget - 1;
      }
      if ok {
        deploys := deploys + [d];
      }
      assert [Create(d)][1..] == [];
    }

    /** GetDeploys: sorts the listed Deployments into current and last, or says what is missing. */
    method GetDeploys() returns (l: Lookup)
      ensures l == Find(View())
    {
      if |deploys| > 2 {
        return Unexpected;
      }
      if |deploys| < 1 {
        return NotFound;
      }
      var current, last: Option<nat> := None, None;
      var i := 0;
      while i < |deploys|
        invariant 0 <= i <= |deploys|
        invariant current == if i > 0 && deploys[0].group == currentGroup then Some(0)
                             else if i > 1 && deploys[1].group == currentGroup then Some(1) else None
        invariant last == if i > 1 && deploys[1].group != currentGroup then Some(1)
                          else if i > 0 && deploys[0].group != currentGroup then Some(0) else None
        invariant i == 2 ==> !(deploys[0].group == currentGroup == deploys[1].group)
      {
        if deploys[i].group == currentGroup {
          if current.Some? {
            return Unexpected;
          }
          current := Some(i);
        } else {
          last := Some(i);
        }
        i := i + 1;
      }
      if current == None {
        return Unexpected;
      }
      if last.Some? {
        return Found(current.value, last.value);
      }
      return if currentGroup != "0" then Unexpected else NoLast;
    }

    method HandleCreate(inp: Inputs) returns (stop: bool)
      modifies this
      ensures Performed(old(View()), old(budget), CreateStep(old(View()), inp).writes)
      ensures stop == (CreateStep(old(View()), inp).stop || old(budget) < |CreateStep(old(View()), inp).writes|)
    {
      var l := GetDeploys();
      match l
      case Found(_, _) =>
        return false;
      case NotFound =>
        if currentGroup != "0" {
          var _ := UpdateMilvus("0", rolling);
          return true;
        }
        var ok := CreateDeployment(Deployment("0", 0, Template(inp.created, "0")));
        return !ok;
      case NoLast =>
        var ok := CreateDeployment(Deployment("1", 0, Template(inp.dummy, "1")));
        return !ok;
      case Unexpected =>
        return true;
    }

    /** HandleStop: both Deployments to zero, then the rolling label is cleared. */
    method HandleStop()
      modifies this
      ensures Performed(old(View()), old(budget), StopStep(old(View())).writes)
    {
      var l := GetDeploys();
      if !l.Found? {
        return;
      }
      ghost var w, n := View(), budget;
      var c, t := l.cur, l.last;
      ghost var w1 := if deploys[c].replicas != 0 then [SetReplicas(c, 0)] else [];
      ghost var w2 := if deploys[t].replicas != 0 then [SetReplicas(t, 0)] else [];
      ghost var w3 := if rolling then [MarkMilvus(currentGroup, false)] else [];
      assert StopStep(w).writes == w1 + w2 + w3;
      if deploys[c].replicas != 0 {
        var ok := UpdateReplicas(c, 0);
        if !ok {
          assert Cut(w1 + w2 + w3, 0) == [];
          return;
        }
      }
      assert Performed(w, n, w1) && n >= |w1|;
      assert Cut(w1, n) == w1;
      ghost var u, m := View(), budget;
      if deploys[t].replicas != 0 {
        var ok := UpdateReplicas(t, 0);
        if !ok {
          CutConcat(w, n, w1, w2 + w3);
          assert w1 + (w2 + w3) == w1 + w2 + w3;
          return;
        }
      }
      assert Performed(u, m, w2) && m >= |w2|;
      CutConcat(w, n, w1, w2);
      ghost var v, k := View(), budget;
      if rolling {
        var _ := UpdateMilvus(currentGroup, false);
      }
      assert Performed(v, k, w3);
      CutConcat(w, n, w1 + w2, w3);
    }

    /** PrepareNewRollout: the template first, then the markers; a cut may fall between the two. */
    method StartRollout(i: nat, rendered: Content)
      requires i < |deploys|
      modifies this
      ensures Performed(old(View()), old(budget), PrepareNewRollout(old(View()), i, rendered))
    {
      ghost var w, n := View(), budget;
      var group := deploys[i].group;
      ghost var w1, w2 := [SetTemplate(i, Template(rendered, group))], [MarkMilvus(group, true)];
      assert PrepareNewRollout(w, i, rendered) == w1 + w2;
      var ok := UpdateTemplate(i, Template(rendered, group));
      if !ok {
        assert Cut(w1 + w2, 0) == [];
        return;
      }
      var _ := UpdateMilvus(group, true);
      CutConcat(w, n, w1, w2);
    }

    method LastRolloutFinished(inp: Inputs, cur: nat, last: nat) returns (done: bool)
      requires cur < |deploys| && last < |deploys|
      ensures done <==> RolloutFinished(View(), inp, cur, last)
    {
      var c, l := ObservedAt(inp, cur), ObservedAt(inp, last);
      var b := [LeastReplicas(inp.spec) <= deploys[cur].replicas,
                c.status.observedGeneration == c.generation,
                l.status.observedGeneration == l.generation,
                deploys[cur].replicas == c.status.updated,
                c.status.updated == c.status.replicas,
                c.status.updated == c.status.available,
                deploys[last].replicas == 0,
                l.status.replicas == 0];
      var all, failed := LogicAnd(b);
      if !all {
        return false;
      }
      assert b[0] && b[1] && b[2] && b[3] && b[4] && b[5] && b[6] && b[7];
      var pods := ListDeployPods(l.labelled);
      return |pods| == 0;
    }

    method HandleRolling(inp: Inputs) returns (stop: bool)
      modifies this
      ensures Performed(old(View()), old(budget), RollingStep(old(View()), inp).writes)
      ensures stop == RollingStep(old(View()), inp).stop
    {
      var l := GetDeploys();
      if !l.Found? {
        return true;
      }
      if ShouldRollback(deploys[l.cur], deploys[l.last], inp.rendered) {
        StartRollout(l.last, inp.rendered);
        return true;
      }
      if rolling {
        var done := LastRolloutFinished(inp, l.cur, l.last);
        if done {
          var _ := UpdateMilvus(currentGroup, false);
        }
        return done;
      }
      if deploys[l.cur].template.content != inp.rendered {
        var target := l.cur;
        if deploys[l.cur].replicas > 0 {
          target := l.last;
        }
        StartRollout(target, inp.rendered);
        return true;
      }
      return false;
    }

    method HandleScaling(inp: Inputs)
      modifies this
      ensures Performed(old(View()), old(budget), ScalingStep(old(View()), inp).writes)
    {
      var l := GetDeploys();
      if !l.Found? {
        return;
      }
      var cur, last := deploys[l.cur], deploys[l.last];
      var can := CheckCanScaleNow(inp.spec, cur.replicas, ObservedAt(inp, l.cur), last.replicas,
                                  ObservedAt(inp, l.last));
      if !can {
        return;
      }
      var same := CompareDeployResourceLimitEqual(cur.template.content.containers, last.template.content.containers);
      var action := PlanNextScaleAction(inp.spec, rolling, cur.replicas, ObservedAt(inp, l.cur), last.replicas,
                                        ObservedAt(inp, l.last), same);
      if action.change == 0 {
        return;
      }
      var i := if action.target == Current then l.cur else l.last;
      var _ := UpdateReplicas(i, deploys[i].replicas + action.change);
    }

    /** One reconcile: for every cut, exactly that prefix of the planned writes reaches the API server. */
    method Reconcile(inp: Inputs)
      modifies this
      ensures View() == ApplyAll(old(View()), Cut(ReconcileWrites(old(View()), inp), old(budget)))
    {
      ghost var w, n := View(), budget;
      ghost var created := CreateStep(w, inp);
      var stop := HandleCreate(inp);
      if stop {
        if n < |created.writes| {
          assert Cut(ReconcileWrites(w, inp), n) == Cut(created.writes, n);
        }
        return;
      }
      ghost var u, m := View(), budget;
      ghost var work := WorkStep(u, inp).writes;
      assert Cut(created.writes, n) == created.writes;
      assert ReconcileWrites(w, inp) == created.writes + work;
      if inp.spec.paused {
      } else if MustStop(inp.spec) {
        HandleStop();
      } else {
        var done := HandleRolling(inp);
        if !done {
          assert RollingStep(u, inp).writes == [];
          assert work == ScalingStep(u, inp).writes;
          HandleScaling(inp);
        }
      }
      assert Performed(u, m, work);
      CutConcat(w, n, created.writes, work);
    }
  }

  /** Performing two lists in turn with a shared budget is performing their concatenation. */
  lemma CutConcat(w: World, n: nat, a: seq<Write>, b: seq<Write>)
    ensures n >= |a| ==> ApplyAll(ApplyAll(w, a), Cut(b, n - |a|)) == ApplyAll(w, Cut(a + b, n))
    ensures n < |a| ==> Cut(a + b, n) == Cut(a, n)
  {
    if n >= |a| {
      ApplyAllConcat(w, a, Cut(b, n - |a|));
      assert Cut(a + b, n) == a + Cut(b, n - |a|);
    } else {
      assert (a + b)[..n] == a[..n];
    }
  }
}
