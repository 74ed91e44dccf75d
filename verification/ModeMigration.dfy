/**
 Moving a component from one Deployment to two: the old Deployment and its ReplicaSets are saved
 and deleted without their pods, the pods are relabelled, and the saved objects are created again
 under group 0. The procedure starts over at every reconcile and may be cut at any API call.
 */
module ModeMigration {
  import opened Common
  import opened GoStrings

  /** A Deployment or ReplicaSet: its name, its three group-id labels and everything else. */
  datatype Object = Object(name: string, group: string, selectorGroup: string, templateGroup: string, body: string,
                           terminating: bool)

  datatype Pod = Pod(name: string, group: string, body: string)

  /** The objects of one component, its two saved revisions and the two marks on the Milvus object. */
  datatype World = World(deploys: seq<Object>, sets: seq<Object>, pods: seq<Pod>, savedDeploy: Option<Object>,
                         savedSets: Option<seq<Object>>, currentGroup: string, changing: bool)

  // ---- names ------------------------------------------------------------------------------------------

  /** A ReplicaSet is named after its Deployment, a dash and a hash; the hash is what follows the last dash. */
  function NewSetName(name: string): Option<string>
  {
    var parts := Split(name, '-');
    if |parts| < 2 then None
    else Some(Join(parts[..|parts| - 1], "-") + "-0-" + parts[|parts| - 1])
  }

  predicate ValidName(name: string) { '-' in name }

  lemma LastDashUnique(p: string, h: string, q: string, k: string)
    requires p + "-" + h == q + "-" + k && '-' !in h && '-' !in k
    ensures p == q && h == k
  {
    var s := p + "-" + h;
    assert s[|p|] == '-' && s[|q|] == '-';
    assert |p| == |q|;
    assert p == s[..|p|] && h == s[|p| + 1..];
    assert q == s[..|q|] && k == s[|q| + 1..];
  }

  lemma NewSetNameParts(name: string) returns (deploy: string, hash: string)
    requires ValidName(name)
    ensures '-' !in hash && name == deploy + "-" + hash
    ensures NewSetName(name) == Some(deploy + "-0-" + hash)
  {
    SplitLast(name, '-');
    var parts := Split(name, '-');
    deploy, hash := Join(parts[..|parts| - 1], "-"), parts[|parts| - 1];
  }

  /** The new name exists exactly when the old one has a dash, and no two old names share it. */
  lemma NewSetNameInjective(a: string, b: string)
    ensures NewSetName(a).Some? <==> ValidName(a)
    ensures NewSetName(a).Some? && NewSetName(a) == NewSetName(b) ==> a == b
  {
    SplitLast(a, '-');
    SplitLast(b, '-');
    if ValidName(a) && ValidName(b) && NewSetName(a) == NewSetName(b) {
      var p, h := NewSetNameParts(a);
      var q, k := NewSetNameParts(b);
      assert p + "-0-" + h == (p + "-0") + "-" + h && q + "-0-" + k == (q + "-0") + "-" + k;
      LastDashUnique(p + "-0", h, q + "-0", k);
      assert (p + "-0")[..|p|] == p && (q + "-0")[..|q|] == q;
    }
  }

  /** The recreated set carries the name the recreated Deployment would give it. */
  lemma NewSetNameFollowsDeploy(deploy: string, hash: string)
    requires '-' !in hash
    ensures NewSetName(deploy + "-" + hash) == Some((deploy + "-0") + "-" + hash)
  {
    var name := deploy + "-" + hash;
    assert name[|deploy|] == '-';
    var p, h := NewSetNameParts(name);
    LastDashUnique(p, h, deploy, hash);
    assert deploy + "-0-" + hash == (deploy + "-0") + "-" + hash;
  }

  // ---- the API server -----------------------------------------------------------------------------------

  datatype Write =
    | MarkChanging(on: bool)
    | SaveDeploy(deploy: Object)
    | DeleteDeploy(name: string)
    | SaveSets(sets: seq<Object>)
    | DeleteSet(name: string)
    | LabelPod(name: string)
    | CreateSet(object: Object)
    | CreateDeploy(object: Object)
    | MarkCurrent

  /** Deleting without dependents: the object stays, terminating, until its finalizers have run. */
  function MarkDeleted(objs: seq<Object>, name: string): (r: seq<Object>)
    ensures |r| == |objs|
    ensures forall i :: 0 <= i < |r| ==> r[i] == if objs[i].name == name then objs[i].(terminating := true) else objs[i]
  {
    seq(|objs|, i requires 0 <= i < |objs| =>
      if objs[i].name == name then objs[i].(terminating := true) else objs[i])
  }

  function Labelled(p: Pod): Pod { p.(group := "0") }

  function LabelNamed(pods: seq<Pod>, name: string): (r: seq<Pod>)
    ensures |r| == |pods|
    ensures forall i :: 0 <= i < |r| ==> r[i] == if pods[i].name == name then Labelled(pods[i]) else pods[i]
  {
    seq(|pods|, i requires 0 <= i < |pods| => if pods[i].name == name then Labelled(pods[i]) else pods[i])
  }

  function Apply(w: World, wr: Write): World
  {
    match wr
    case MarkChanging(on) => w.(changing := on)
    case SaveDeploy(d) => w.(savedDeploy := Some(d))
    case DeleteDeploy(name) => w.(deploys := MarkDeleted(w.deploys, name))
    case SaveSets(sets) => w.(savedSets := Some(sets))
    case DeleteSet(name) => w.(sets := MarkDeleted(w.sets, name))
    case LabelPod(name) => w.(pods := LabelNamed(w.pods, name))
    case CreateSet(o) => w.(sets := w.sets + [o])
    case CreateDeploy(o) => w.(deploys := w.deploys + [o])
    case MarkCurrent => w.(currentGroup := "0")
  }

  /** Which API writes of a run succeed; a process that dies at write n sees none from n on. */
  type Lands = nat -> bool

  /** A run in progress: the world, the number of writes tried, and whether the run goes on. */
  datatype Session = Session(w: World, at: nat, live: bool)

  function Call(s: Session, wr: Write, lands: Lands): Session
  {
    Session(if lands(s.at) then Apply(s.w, wr) else s.w, s.at + 1, lands(s.at))
  }

  /** Returning an error, of which the request to run again is one. */
  function Halt(s: Session): Session { s.(live := false) }

  // ---- the six steps --------------------------------------------------------------------------------------

  function Olds(objs: seq<Object>): seq<Object>
  {
    if objs == [] then []
    else Olds(objs[..|objs| - 1]) + (if objs[|objs| - 1].group == "" then [objs[|objs| - 1]] else [])
  }

  function OldPods(pods: seq<Pod>): seq<Pod>
  {
    if pods == [] then []
    else OldPods(pods[..|pods| - 1]) + (if pods[|pods| - 1].group == "" then [pods[|pods| - 1]] else [])
  }

  predicate Named(objs: seq<Object>, name: string) { exists i :: 0 <= i < |objs| && objs[i].name == name }

  function InGroup0(o: Object, name: string): Object { Object(name, "0", "0", "0", o.body, false) }

  function DeployStep(s: Session, lands: Lands): Session
  {
    var olds := Olds(s.w.deploys);
    if |olds| > 1 then Halt(s)
    else if |olds| < 1 then s
    else
      var saved := if s.w.savedDeploy == None then Call(s, SaveDeploy(olds[0]), lands) else s;
      if !saved.live then saved else Halt(Call(saved, DeleteDeploy(olds[0].name), lands))
  }

  /** Every set is deleted even if deleting another one failed. */
  function DeleteSets(s: Session, olds: seq<Object>, lands: Lands): Session
  {
    if olds == [] then s
    else Call(DeleteSets(s, olds[..|olds| - 1], lands), DeleteSet(olds[|olds| - 1].name), lands)
  }

  function SetsStep(s: Session, lands: Lands): Session
  {
    var olds := Olds(s.w.sets);
    var saved := if s.w.savedSets == None then Call(s, SaveSets(olds), lands) else s;
    if !saved.live || olds == [] then saved else Halt(DeleteSets(saved, olds, lands))
  }

  function LabelPods(s: Session, olds: seq<Pod>, lands: Lands): Session
  {
    if olds == [] then s
    else
      var t := LabelPods(s, olds[..|olds| - 1], lands);
      if !t.live then t else Call(t, LabelPod(olds[|olds| - 1].name), lands)
  }

  function PodsStep(s: Session, lands: Lands): Session { LabelPods(s, OldPods(s.w.pods), lands) }

  /** Creating what exists already does nothing. */
  function CreateOneSet(s: Session, old_: Object, lands: Lands): Session
  {
    var name := NewSetName(old_.name);
    if name == None then Halt(s)
    else if Named(s.w.sets, name.value) then s
    else Call(s, CreateSet(InGroup0(old_, name.value)), lands)
  }

  function CreateSets(s: Session, saved: seq<Object>, lands: Lands): Session
  {
    if saved == [] then s
    else
      var t := CreateSets(s, saved[..|saved| - 1], lands);
      if !t.live then t else CreateOneSet(t, saved[|saved| - 1], lands)
  }

  function RecoverSetsStep(s: Session, lands: Lands): Session
  {
    if s.w.savedSets == None then Halt(s) else CreateSets(s, s.w.savedSets.value, lands)
  }

  function NewDeploy(d: Object): Object { InGroup0(d, d.name + "-0") }

  function RecoverDeployStep(s: Session, lands: Lands): Session
  {
    if s.w.savedDeploy == None then Halt(s)
    else if Named(s.w.deploys, NewDeploy(s.w.savedDeploy.value).name) then s
    else Call(s, CreateDeploy(NewDeploy(s.w.savedDeploy.value)), lands)
  }

  function MarkCurrentStep(s: Session, lands: Lands): Session
  {
    if s.w.currentGroup == "0" then s else Halt(Call(s, MarkCurrent, lands))
  }

  function ChangeMode(s: Session, lands: Lands): Session
  {
    var a := DeployStep(s, lands);
    if !a.live then a else
      var b := SetsStep(a, lands);
      if !b.live then b else
        var c := PodsStep(b, lands);
        if !c.live then c else
          var d := RecoverSetsStep(c, lands);
          if !d.live then d else
            var e := RecoverDeployStep(d, lands);
            if !e.live then e else MarkCurrentStep(e, lands)
  }

  function MarkChangingStep(s: Session, on: bool, lands: Lands): Session
  {
    if s.w.changing == on then s else Halt(Call(s, MarkChanging(on), lands))
  }

  /** The mode part of a reconcile; `live` at the end means that it goes on as a two-deployment component. */
  function Reconciled(w: World, updating: bool, lands: Lands): Session
  {
    var s := Session(w, 0, true);
    var olds := |Olds(w.deploys)|;
    if !w.changing && olds > 1 then Halt(s)
    else if !w.changing && olds == 0 then s
    else if !w.changing && updating then Halt(s)
    else
      var a := MarkChangingStep(s, true, lands);
      if !a.live then a else
        var b := ChangeMode(a, lands);
        if !b.live then b else MarkChangingStep(b, false, lands)
  }

  // ---- the procedure itself ---------------------------------------------------------------------------------

  class ModeChanger {
    var world: World
    var at: nat
    const lands: Lands

    ghost predicate Now(s: Session)
      reads this
    {
      world == s.w && at == s.at
    }

    method Write(wr: Write) returns (ok: bool)
      modifies this
      ensures Now(Call(Session(old(world), old(at), true), wr, lands))
      ensures ok == lands(old(at))
    {
      ok := lands(at);
      at := at + 1;
      if ok {
        world := Apply(world, wr);
      }
    }

    method ListOld(objs: seq<Object>) returns (ret: seq<Object>)
      ensures ret == Olds(objs)
    {
      ret := [];
      for i := 0 to |objs|
        invariant ret == Olds(objs[..i])
      {
        assert objs[..i + 1][..i] == objs[..i];
        if objs[i].group == "" {
          ret := ret + [objs[i]];
        }
      }
      assert objs[..|objs|] == objs;
    }

    method ListOldPods() returns (ret: seq<Pod>)
      ensures ret == OldPods(world.pods)
    {
      ret := [];
      for i := 0 to |world.pods|
        invariant ret == OldPods(world.pods[..i])
      {
        assert world.pods[..i + 1][..i] == world.pods[..i];
        if world.pods[i].group == "" {
          ret := ret + [world.pods[i]];
        }
      }
      assert world.pods[..|world.pods|] == world.pods;
    }

    method SaveDeleteOldDeploy() returns (ok: bool)
      modifies this
      ensures var s := DeployStep(Session(old(world), old(at), true), lands); Now(s) && ok == s.live
    {
      var olds := ListOld(world.deploys);
      if |olds| > 1 {
        return false;
      }
      if |olds| < 1 {
        return true;
      }
      if world.savedDeploy == None {
        var saved := Write(SaveDeploy(olds[0]));
        if !saved {
          return false;
        }
      }
      var _ := Write(DeleteDeploy(olds[0].name));
      return false;
    }

    method SaveDeleteOldReplicaSet() returns (ok: bool)
      modifies this
      ensures var s := SetsStep(Session(old(world), old(at), true), lands); Now(s) && ok == s.live
    {
      var olds := ListOld(world.sets);
      if world.savedSets == None {
        var saved := Write(SaveSets(olds));
        if !saved {
          return false;
        }
      }
      ghost var s := Session(world, at, true);
      ok := true;
      for i := 0 to |olds|
        invariant Now(DeleteSets(s, olds[..i], lands))
        invariant ok <==> i == 0
      {
        assert olds[..i + 1][..i] == olds[..i];
        var _ := Write(DeleteSet(olds[i].name));
        ok := false;
      }
      assert olds[..|olds|] == olds;
    }

    method UpdateOldPodLabels() returns (ok: bool)
      modifies this
      ensures var s := PodsStep(Session(old(world), old(at), true), lands); Now(s) && ok == s.live
    {
      var olds := ListOldPods();
      ghost var s := Session(world, at, true);
      for i := 0 to |olds|
        invariant Now(LabelPods(s, olds[..i], lands)) && LabelPods(s, olds[..i], lands).live
      {
        assert olds[..i + 1][..i] == olds[..i];
        ok := Write(LabelPod(olds[i].name));
        if !ok {
          LabelPodsDead(s, olds, i + 1, lands);
          return false;
        }
      }
      assert olds[..|olds|] == olds;
      return true;
    }

    method Exists(objs: seq<Object>, name: string) returns (found: bool)
      ensures found <==> Named(objs, name)
    {
      for i := 0 to |objs|
        invariant forall j :: 0 <= j < i ==> objs[j].name != name
      {
        if objs[i].name == name {
          return true;
        }
      }
      return false;
    }

    method RecoverReplicaSets() returns (ok: bool)
      modifies this
      ensures var s := RecoverSetsStep(Session(old(world), old(at), true), lands); Now(s) && ok == s.live
    {
      if world.savedSets == None {
        return false;
      }
      var saved := world.savedSets.value;
      ghost var s := Session(world, at, true);
      for i := 0 to |saved|
        invariant Now(CreateSets(s, saved[..i], lands)) && CreateSets(s, saved[..i], lands).live
      {
        assert saved[..i + 1][..i] == saved[..i];
        var name := NewSetName(saved[i].name);
        if name == None {
          CreateSetsDead(s, saved, i + 1, lands);
          return false;
        }
        var exists_ := Exists(world.sets, name.value);
        if !exists_ {
          ok := Write(CreateSet(InGroup0(saved[i], name.value)));
          if !ok {
            CreateSetsDead(s, saved, i + 1, lands);
            return false;
          }
        }
      }
      assert saved[..|saved|] == saved;
      return true;
    }

    method RecoverDeploy() returns (ok: bool)
      modifies this
      ensures var s := RecoverDeployStep(Session(old(world), old(at), true), lands); Now(s) && ok == s.live
    {
      if world.savedDeploy == None {
        return false;
      }
      var deploy := NewDeploy(world.savedDeploy.value);
      var exists_ := Exists(world.deploys, deploy.name);
      if exists_ {
        return true;
      }
      ok := Write(CreateDeploy(deploy));
    }

    method MarkCurrentDeploy() returns (ok: bool)
      modifies this
      ensures var s := MarkCurrentStep(Session(old(world), old(at), true), lands); Now(s) && ok == s.live
    {
      if world.currentGroup == "0" {
        return true;
      }
      var _ := Write(MarkCurrent);
      return false;
    }

    method ChangeToTwoDeployMode() returns (ok: bool)
      modifies this
      ensures var s := ChangeMode(Session(old(world), old(at), true), lands); Now(s) && ok == s.live
    {
      hide DeployStep, SetsStep, PodsStep, RecoverSetsStep, RecoverDeployStep, MarkCurrentStep;
      ok := SaveDeleteOldDeploy();
      if ok {
        ok := SaveDeleteOldReplicaSet();
      }
      if ok {
        ok := UpdateOldPodLabels();
      }
      if ok {
        ok := RecoverReplicaSets();
      }
      if ok {
        ok := RecoverDeploy();
      }
      if ok {
        ok := MarkCurrentDeploy();
      }
    }

    method MarkDeployModeChanging(on: bool) returns (ok: bool)
      modifies this
      ensures var s := MarkChangingStep(Session(old(world), old(at), true), on, lands); Now(s) && ok == s.live
    {
      if world.changing == on {
        return true;
      }
      var _ := Write(MarkChanging(on));
      return false;
    }

    method ReconcileMode(updating: bool) returns (twoDeployments: bool)
      requires at == 0
      modifies this
      ensures var s := Reconciled(old(world), updating, lands); Now(s) && twoDeployments == s.live
    {
      hide ChangeMode;
      if !world.changing {
        var olds := ListOld(world.deploys);
        if |olds| > 1 {
          return false;
        }
        if |olds| == 0 {
          return true;
        }
        if updating {
          return false;
        }
      }
      var ok := MarkDeployModeChanging(true);
      if !ok {
        return false;
      }
      ok := ChangeToTwoDeployMode();
      if !ok {
        return false;
      }
      twoDeployments := MarkDeployModeChanging(false);
    }
  }

  lemma {:induction false} LabelPodsDead(s: Session, olds: seq<Pod>, n: nat, lands: Lands)
    requires n <= |olds| && !LabelPods(s, olds[..n], lands).live
    ensures LabelPods(s, olds, lands) == LabelPods(s, olds[..n], lands)
    decreases |olds| - n
  {
    if n < |olds| {
      assert olds[..n + 1][..n] == olds[..n];
      LabelPodsDead(s, olds, n + 1, lands);
    } else {
      assert olds[..n] == olds;
    }
  }

  lemma {:induction false} CreateSetsDead(s: Session, saved: seq<Object>, n: nat, lands: Lands)
    requires n <= |saved| && !CreateSets(s, saved[..n], lands).live
    ensures CreateSets(s, saved, lands) == CreateSets(s, saved[..n], lands)
    decreases |saved| - n
  {
    if n < |saved| {
      assert saved[..n + 1][..n] == saved[..n];
      CreateSetsDead(s, saved, n + 1, lands);
    } else {
      assert saved[..n] == saved;
    }
  }
}
