/**
 Stopping and restarting every workload of a Milvus around an upgrade: recording the replicas,
 zeroing them, and writing them back, for plain components and for deployment groups.
 */
module UpgradeReplicas {
  import opened Common

  datatype Component =
    | Cdc | Standalone | MixCoord | RootCoord | DataCoord | QueryCoord | IndexCoord
    | DataNode | QueryNode | IndexNode | Proxy | StreamingNode

  datatype Group = Group(name: string, replicas: Option<int>)

  datatype ComponentConf = ComponentConf(replicas: Option<int>, hpa: bool, groups: seq<Group>)

  /** The part of the Milvus spec that decides which workloads exist; an absent key is a nil component. */
  datatype MilvusSpec = MilvusSpec(cluster: bool, image: string, version: string, streamingMode: Option<bool>,
                                   coms: map<Component, ComponentConf>)

  /** Whether a version string, or else an image tag, is newer than 2.5. */
  type NewerThan25 = (string, string) -> bool

  const MIXTURE := [MixCoord, DataNode, QueryNode, IndexNode, Proxy, Standalone]
  const SEPARATE := [RootCoord, DataCoord, QueryCoord, IndexCoord, DataNode, QueryNode, IndexNode, Proxy, Standalone]
  const FROM_26 := [MixCoord, DataNode, StreamingNode, QueryNode, Proxy, Standalone]

  predicate UseStreamingNode(spec: MilvusSpec, newer: NewerThan25)
  {
    newer(spec.version, spec.image) ||
    (if spec.streamingMode.Some? then spec.streamingMode.value else StreamingNode in spec.coms)
  }

  function ComponentsOf(spec: MilvusSpec, newer: NewerThan25): seq<Component>
  {
    (if Cdc in spec.coms then [Cdc] else []) +
    if !spec.cluster then [Standalone]
    else if newer(spec.version, spec.image) then FROM_26
    else (if MixCoord in spec.coms then MIXTURE else SEPARATE)
         + (if UseStreamingNode(spec, newer) then [StreamingNode] else [])
  }

  predicate Groupable(c: Component) { c == Proxy || c == DataNode || c == QueryNode || c == StreamingNode }

  function GroupsOf(spec: MilvusSpec, c: Component): seq<Group>
  {
    if Groupable(c) && c in spec.coms then spec.coms[c].groups else []
  }

  /** One reconciled workload: a component, or one deployment group of it. */
  datatype Workload = Workload(c: Component, group: Option<Group>)

  function GroupWorkloads(c: Component, groups: seq<Group>): (ws: seq<Workload>)
    ensures |ws| == |groups|
    ensures forall i :: 0 <= i < |groups| ==> ws[i] == Workload(c, Some(groups[i]))
  {
    seq(|groups|, i requires 0 <= i < |groups| => Workload(c, Some(groups[i])))
  }

  function Expand(spec: MilvusSpec, cs: seq<Component>): seq<Workload>
  {
    if cs == [] then []
    else
      var c := cs[|cs| - 1];
      var groups := GroupsOf(spec, c);
      Expand(spec, cs[..|cs| - 1]) + (if groups == [] then [Workload(c, None)] else GroupWorkloads(c, groups))
  }

  function WorkloadsOf(spec: MilvusSpec, newer: NewerThan25): seq<Workload> { Expand(spec, ComponentsOf(spec, newer)) }

  method ExpandGroups(c: Component, groups: seq<Group>) returns (ret: seq<Workload>)
    ensures ret == GroupWorkloads(c, groups)
  {
    ret := [];
    for j := 0 to |groups|
      invariant |ret| == j && forall k :: 0 <= k < j ==> ret[k] == Workload(c, Some(groups[k]))
    {
      ret := ret + [Workload(c, Some(groups[j]))];
    }
  }

  method GetComponentWorkloadsBySpec(spec: MilvusSpec, newer: NewerThan25) returns (ret: seq<Workload>)
    ensures ret == WorkloadsOf(spec, newer)
  {
    hide ComponentsOf, GroupWorkloads;
    var components := ComponentsOf(spec, newer);
    ret := [];
    for i := 0 to |components|
      invariant ret == Expand(spec, components[..i])
    {
      assert components[..i + 1][..i] == components[..i];
      var c := components[i];
      var groups := GroupsOf(spec, c);
      if |groups| == 0 {
        ret := ret + [Workload(c, None)];
        continue;
      }
      var more := ExpandGroups(c, groups);
      ret := ret + more;
    }
    assert components[..|components|] == components;
  }

  // ---- reading and writing replicas ------------------------------------------------------------

  /** Nil replicas mean one. */
  function Value(r: Option<int>): int { if r.Some? then r.value else 1 }

  function GetReplicas(spec: MilvusSpec, w: Workload): Option<int>
  {
    if w.group.Some? then w.group.value.replicas
    else if w.c !in spec.coms then Some(1)
    else spec.coms[w.c].replicas
  }

  /** The groups with the first one of that name changed. */
  function SetFirst(groups: seq<Group>, name: string, r: Option<int>): (g: seq<Group>)
    ensures |g| == |groups|
    ensures forall i :: 0 <= i < |g| ==> g[i].name == groups[i].name
  {
    if groups == [] then []
    else if groups[0].name == name then [groups[0].(replicas := r)] + groups[1..]
    else [groups[0]] + SetFirst(groups[1..], name, r)
  }

  /** SetReplicas writes through the component pointer; on a nil component or an unknown group it does nothing. */
  function SetReplicas(spec: MilvusSpec, w: Workload, r: Option<int>): MilvusSpec
  {
    if w.c !in spec.coms then spec
    else
      var conf := spec.coms[w.c];
      var conf' := if w.group.Some? then conf.(groups := SetFirst(conf.groups, w.group.value.name, r))
                   else conf.(replicas := r);
      spec.(coms := spec.coms[w.c := conf'])
  }

  // ---- identities ----------------------------------------------------------------------------------

  /** A workload independent of its replica count. */
  datatype Id = Id(c: Component, group: Option<string>)

  function IdOf(w: Workload): Id { Id(w.c, if w.group.Some? then Some(w.group.value.name) else None) }

  function FirstReplicas(groups: seq<Group>, name: string): Option<int>
  {
    if groups == [] then None
    else if groups[0].name == name then groups[0].replicas
    else FirstReplicas(groups[1..], name)
  }

  predicate HasName(groups: seq<Group>, name: string) { exists i :: 0 <= i < |groups| && groups[i].name == name }

  /** The replicas stored for an identity; a nil component reads as one. */
  function Read(spec: MilvusSpec, id: Id): Option<int>
  {
    if id.c !in spec.coms then Some(1)
    else if id.group.Some? then FirstReplicas(spec.coms[id.c].groups, id.group.value)
    else spec.coms[id.c].replicas
  }

  predicate Exists(spec: MilvusSpec, id: Id)
  {
    id.c in spec.coms && (id.group.Some? ==> HasName(spec.coms[id.c].groups, id.group.value))
  }

  /** Admission rejects duplicate group names within a component. */
  predicate UniqueGroups(spec: MilvusSpec)
  {
    forall c :: c in spec.coms ==>
      forall i, j :: 0 <= i < j < |spec.coms[c].groups| ==> spec.coms[c].groups[i].name != spec.coms[c].groups[j].name
  }

  lemma {:induction false} SetFirstRead(groups: seq<Group>, name: string, r: Option<int>, other: string)
    ensures FirstReplicas(SetFirst(groups, name, r), other)
            == if other == name && HasName(groups, name) then r else FirstReplicas(groups, other)
    ensures HasName(SetFirst(groups, name, r), other) <==> HasName(groups, other)
  {
    var g := SetFirst(groups, name, r);
    assert HasName(g, other) <==> HasName(groups, other) by {
      if k :| 0 <= k < |g| && g[k].name == other { assert groups[k].name == other; }
      if k :| 0 <= k < |groups| && groups[k].name == other { assert g[k].name == other; }
    }
    if groups != [] {
      if groups[0].name == name {
        assert g[1..] == groups[1..];
        assert HasName(groups, name);
      } else {
        SetFirstRead(groups[1..], name, r, other);
        assert g[1..] == SetFirst(groups[1..], name, r);
        assert HasName(groups, name) <==> HasName(groups[1..], name) by {
          if k :| 0 <= k < |groups| && groups[k].name == name { assert groups[1..][k - 1].name == name; }
          if k :| 0 <= k < |groups[1..]| && groups[1..][k].name == name { assert groups[k + 1].name == name; }
        }
      }
    }
  }

  /** A write is seen at its own identity and nowhere else. */
  lemma SetThenRead(spec: MilvusSpec, w: Workload, r: Option<int>, id: Id)
    ensures Read(SetReplicas(spec, w, r), id) == if id == IdOf(w) && Exists(spec, id) then r else Read(spec, id)
    ensures Exists(SetReplicas(spec, w, r), id) == Exists(spec, id)
  {
    if w.c in spec.coms && w.group.Some? && id.c == w.c && id.group.Some? {
      SetFirstRead(spec.coms[w.c].groups, w.group.value.name, r, id.group.value);
    }
  }

  // ---- the shape of a spec ----------------------------------------------------------------------------

  /** Two specs that differ in replica counts only. */
  predicate SameShape(a: MilvusSpec, b: MilvusSpec)
  {
    && a.cluster == b.cluster && a.version == b.version && a.streamingMode == b.streamingMode
    && a.coms.Keys == b.coms.Keys
    && forall c :: c in a.coms ==>
         && a.coms[c].hpa == b.coms[c].hpa
         && |a.coms[c].groups| == |b.coms[c].groups|
         && forall i :: 0 <= i < |a.coms[c].groups| ==> a.coms[c].groups[i].name == b.coms[c].groups[i].name
  }

  lemma SetKeepsShape(spec: MilvusSpec, w: Workload, r: Option<int>)
    ensures SameShape(spec, SetReplicas(spec, w, r)) && SetReplicas(spec, w, r).image == spec.image
  {
  }

  lemma ShapeTrans(a: MilvusSpec, b: MilvusSpec, c: MilvusSpec)
    requires SameShape(a, b) && SameShape(b, c)
    ensures SameShape(a, c)
  {
  }

  /** The identities of an expansion depend on the shape alone. */
  lemma {:induction false} ExpandShape(a: MilvusSpec, b: MilvusSpec, cs: seq<Component>)
    requires SameShape(a, b)
    ensures |Expand(a, cs)| == |Expand(b, cs)|
    ensures forall i :: 0 <= i < |Expand(a, cs)| ==> IdOf(Expand(a, cs)[i]) == IdOf(Expand(b, cs)[i])
  {
    if cs != [] {
      ExpandShape(a, b, cs[..|cs| - 1]);
      var c := cs[|cs| - 1];
      assert |GroupsOf(a, c)| == |GroupsOf(b, c)|;
    }
  }

  lemma SameComponents(a: MilvusSpec, b: MilvusSpec, newer: NewerThan25)
    requires SameShape(a, b) && a.image == b.image
    ensures ComponentsOf(a, newer) == ComponentsOf(b, newer)
  {
  }

  predicate Listed(ws: seq<Workload>, id: Id) { exists i :: 0 <= i < |ws| && IdOf(ws[i]) == id }

  // ---- record ------------------------------------------------------------------------------------------

  /** What the upgrade status remembers; None is a nil field. */
  datatype Snapshot = Snapshot(components: Option<map<Component, int>>, groups: Option<map<Component, map<string, int>>>)

  function GroupMap(m: map<Component, map<string, int>>, c: Component): map<string, int>
  {
    if c in m then m[c] else map[]
  }

  function RecordOne(s: Snapshot, recordComponents: bool, recordGroups: bool, spec: MilvusSpec, w: Workload): Snapshot
    requires s.components.Some? && s.groups.Some?
  {
    var v := Value(GetReplicas(spec, w));
    if w.group == None then
      if recordComponents then s.(components := Some(s.components.value[w.c := v])) else s
    else if !recordGroups then s
    else s.(groups := Some(s.groups.value[w.c := GroupMap(s.groups.value, w.c)[w.group.value.name := v]]))
  }

  function RecordAll(s: Snapshot, recordComponents: bool, recordGroups: bool, spec: MilvusSpec, ws: seq<Workload>)
    : (r: Snapshot)
    requires s.components.Some? && s.groups.Some?
    ensures r.components.Some? && r.groups.Some?
  {
    if ws == [] then s
    else RecordOne(RecordAll(s, recordComponents, recordGroups, spec, ws[..|ws| - 1]), recordComponents, recordGroups,
                   spec, ws[|ws| - 1])
  }

  function Opened(s: Snapshot): (r: Snapshot)
    ensures r.components.Some? && r.groups.Some?
  {
    Snapshot(Some(if s.components.Some? then s.components.value else map[]),
             Some(if s.groups.Some? then s.groups.value else map[]))
  }

  /** recordOldInfo on the replica maps: a field recorded before is left as it is. */
  function Recorded(s: Snapshot, spec: MilvusSpec, newer: NewerThan25): Snapshot
  {
    if s.components.Some? && s.groups.Some? then s
    else RecordAll(Opened(s), s.components == None, s.groups == None, spec, WorkloadsOf(spec, newer))
  }

  method RecordOldInfo(old_: Snapshot, spec: MilvusSpec, newer: NewerThan25) returns (s: Snapshot)
    ensures s == Recorded(old_, spec, newer)
  {
    hide WorkloadsOf, GetReplicas;
    var recordComponents, recordGroups := old_.components == None, old_.groups == None;
    if !recordComponents && !recordGroups {
      return old_;
    }
    s := Opened(old_);
    var ws := GetComponentWorkloadsBySpec(spec, newer);
    for i := 0 to |ws|
      invariant s.components.Some? && s.groups.Some?
      invariant s == RecordAll(Opened(old_), recordComponents, recordGroups, spec, ws[..i])
    {
      assert ws[..i + 1][..i] == ws[..i];
      var w := ws[i];
      var replicas := GetReplicas(spec, w);
      if replicas == None {
        replicas := Some(1);
      }
      if w.group == None {
        if recordComponents {
          s := s.(components := Some(s.components.value[w.c := replicas.value]));
        }
        continue;
      }
      if !recordGroups {
        continue;
      }
      var m := GroupMap(s.groups.value, w.c);
      s := s.(groups := Some(s.groups.value[w.c := m[w.group.value.name := replicas.value]]));
    }
    assert ws[..|ws|] == ws;
  }

  /** What restarting reads back for an identity: an unrecorded component counts as zero, an unrecorded group is an error. */
  function Remembered(s: Snapshot, id: Id): Option<int>
  {
    if id.group == None then
      Some(if s.components.Some? && id.c in s.components.value then s.components.value[id.c] else 0)
    else if s.groups.Some? && id.c in s.groups.value && id.group.value in s.groups.value[id.c]
    then Some(s.groups.value[id.c][id.group.value])
    else None
  }

  /** Every workload of the list agrees with the spec on its replicas: true of an expansion with unique group names. */
  predicate Faithful(spec: MilvusSpec, ws: seq<Workload>)
  {
    forall i :: 0 <= i < |ws| ==> GetReplicas(spec, ws[i]) == Read(spec, IdOf(ws[i]))
  }

  lemma {:induction false} FirstOfUnique(groups: seq<Group>, i: nat)
    requires i < |groups| && forall a, b :: 0 <= a < b < |groups| ==> groups[a].name != groups[b].name
    ensures FirstReplicas(groups, groups[i].name) == groups[i].replicas
  {
    if i > 0 {
      assert groups[0].name != groups[i].name;
      FirstOfUnique(groups[1..], i - 1);
    }
  }

  lemma {:induction false} ExpansionIsFaithful(spec: MilvusSpec, cs: seq<Component>)
    requires UniqueGroups(spec)
    ensures Faithful(spec, Expand(spec, cs))
  {
    if cs != [] {
      ExpansionIsFaithful(spec, cs[..|cs| - 1]);
      var c := cs[|cs| - 1];
      var groups := GroupsOf(spec, c);
      var more := if groups == [] then [Workload(c, None)] else GroupWorkloads(c, groups);
      forall i | 0 <= i < |more|
        ensures GetReplicas(spec, more[i]) == Read(spec, IdOf(more[i]))
      {
        if groups != [] { FirstOfUnique(groups, i); }
      }
      assert Expand(spec, cs) == Expand(spec, cs[..|cs| - 1]) + more;
    }
  }

  /** A fresh recording remembers every listed workload, and no component it has not seen. */
  lemma {:induction false} RecordRemembers(spec: MilvusSpec, ws: seq<Workload>, id: Id)
    requires Faithful(spec, ws)
    ensures var s := RecordAll(Snapshot(Some(map[]), Some(map[])), true, true, spec, ws);
            && (Listed(ws, id) ==> Remembered(s, id) == Some(Value(Read(spec, id))))
            && (!Listed(ws, id) ==> Remembered(s, id) == if id.group == None then Some(0) else None)
  {
    if ws != [] {
      var before, w := ws[..|ws| - 1], ws[|ws| - 1];
      assert forall i :: 0 <= i < |before| ==> before[i] == ws[i];
      RecordRemembers(spec, before, id);
      assert GetReplicas(spec, w) == Read(spec, IdOf(w));
      assert Listed(ws, id) <==> Listed(before, id) || IdOf(w) == id by {
        if i :| 0 <= i < |ws| && IdOf(ws[i]) == id { assert i == |ws| - 1 || IdOf(before[i]) == id; }
        if i :| 0 <= i < |before| && IdOf(before[i]) == id { assert IdOf(ws[i]) == id; }
      }
    }
  }

  // ---- stop and start -------------------------------------------------------------------------------------

  function ZeroAll(spec: MilvusSpec, ws: seq<Workload>): MilvusSpec
  {
    if ws == [] then spec else SetReplicas(ZeroAll(spec, ws[..|ws| - 1]), ws[|ws| - 1], Some(0))
  }

  predicate ExternallyScaled(spec: MilvusSpec, ws: seq<Workload>)
  {
    exists i :: 0 <= i < |ws| && GetReplicas(spec, ws[i]) == Some(-1)
  }

  /** stopMilvus on the spec: refused while an external autoscaler owns a workload. */
  function Stopped(spec: MilvusSpec, newer: NewerThan25): Option<MilvusSpec>
  {
    var ws := WorkloadsOf(spec, newer);
    if ExternallyScaled(spec, ws) then None else Some(ZeroAll(spec, ws))
  }

  method StopWorkloads(spec: MilvusSpec, newer: NewerThan25) returns (r: Option<MilvusSpec>)
    ensures r == Stopped(spec, newer)
  {
    hide WorkloadsOf, SetReplicas;
    var ws := GetComponentWorkloadsBySpec(spec, newer);
    for i := 0 to |ws|
      invariant forall j :: 0 <= j < i ==> GetReplicas(spec, ws[j]) != Some(-1)
    {
      var replicas := GetReplicas(spec, ws[i]);
      if replicas.Some? && replicas.value == -1 {
        return None;
      }
    }
    var m := spec;
    for i := 0 to |ws|
      invariant m == ZeroAll(spec, ws[..i])
    {
      assert ws[..i + 1][..i] == ws[..i];
      m := SetReplicas(m, ws[i], Some(0));
    }
    assert ws[..|ws|] == ws;
    return Some(m);
  }

  function RestoreAll(s: Snapshot, spec: MilvusSpec, ws: seq<Workload>): Option<MilvusSpec>
  {
    if ws == [] then Some(spec)
    else
      var before := RestoreAll(s, spec, ws[..|ws| - 1]);
      var v := Remembered(s, IdOf(ws[|ws| - 1]));
      if before == None || v == None then None else Some(SetReplicas(before.value, ws[|ws| - 1], v))
  }

  /** startMilvus on the spec; None is the error of a group without a recorded count. */
  function Restored(s: Snapshot, spec: MilvusSpec, newer: NewerThan25): Option<MilvusSpec>
  {
    RestoreAll(s, spec, WorkloadsOf(spec, newer))
  }

  lemma {:induction false} RestorePrefix(s: Snapshot, spec: MilvusSpec, ws: seq<Workload>, n: nat)
    requires n <= |ws| && RestoreAll(s, spec, ws[..n]) == None
    ensures RestoreAll(s, spec, ws) == None
    decreases |ws| - n
  {
    if n < |ws| {
      assert ws[..n + 1][..n] == ws[..n];
      RestorePrefix(s, spec, ws, n + 1);
    } else {
      assert ws[..n] == ws;
    }
  }

  method StartWorkloads(s: Snapshot, spec: MilvusSpec, newer: NewerThan25) returns (r: Option<MilvusSpec>)
    ensures r == Restored(s, spec, newer)
  {
    hide WorkloadsOf, SetReplicas;
    var ws := GetComponentWorkloadsBySpec(spec, newer);
    var m := spec;
    for i := 0 to |ws|
      invariant RestoreAll(s, spec, ws[..i]) == Some(m)
    {
      assert ws[..i + 1][..i] == ws[..i];
      var w := ws[i];
      var replica := 0;
      if w.group.Some? {
        var recorded := s.groups.Some? && w.c in s.groups.value && w.group.value.name in s.groups.value[w.c];
        if !recorded {
          RestorePrefix(s, spec, ws, i + 1);
          return None;
        }
        replica := s.groups.value[w.c][w.group.value.name];
      } else if s.components.Some? && w.c in s.components.value {
        replica := s.components.value[w.c];
      }
      m := SetReplicas(m, w, Some(replica));
    }
    assert ws[..|ws|] == ws;
    return Some(m);
  }

  lemma {:induction false} ZeroAllKeepsShape(spec: MilvusSpec, ws: seq<Workload>)
    ensures SameShape(spec, ZeroAll(spec, ws)) && ZeroAll(spec, ws).image == spec.image
  {
    if ws != [] {
      ZeroAllKeepsShape(spec, ws[..|ws| - 1]);
      SetKeepsShape(ZeroAll(spec, ws[..|ws| - 1]), ws[|ws| - 1], Some(0));
    }
  }

  /** Restarting writes the remembered count at every listed identity and leaves the rest alone. */
  lemma {:induction false} RestoreReads(s: Snapshot, spec: MilvusSpec, ws: seq<Workload>, id: Id)
    requires RestoreAll(s, spec, ws).Some?
    ensures var r := RestoreAll(s, spec, ws).value;
            && Read(r, id) == (if Listed(ws, id) && Exists(spec, id) then Remembered(s, id) else Read(spec, id))
            && Exists(r, id) == Exists(spec, id)
            && SameShape(spec, r) && r.image == spec.image
  {
    if ws != [] {
      var before, w := ws[..|ws| - 1], ws[|ws| - 1];
      RestoreReads(s, spec, before, id);
      var m := RestoreAll(s, spec, before).value;
      SetThenRead(m, w, Remembered(s, IdOf(w)), id);
      SetKeepsShape(m, w, Remembered(s, IdOf(w)));
      ShapeTrans(spec, m, RestoreAll(s, spec, ws).value);
      ListedSnoc(ws, id);
    }
  }

  lemma ListedSnoc(ws: seq<Workload>, id: Id)
    requires ws != []
    ensures Listed(ws, id) <==> Listed(ws[..|ws| - 1], id) || IdOf(ws[|ws| - 1]) == id
  {
    var before := ws[..|ws| - 1];
    if i :| 0 <= i < |ws| && IdOf(ws[i]) == id { assert i == |ws| - 1 || IdOf(before[i]) == id; }
    if i :| 0 <= i < |before| && IdOf(before[i]) == id { assert IdOf(ws[i]) == id; }
  }

  /** Restarting succeeds exactly when every listed workload has a remembered count. */
  lemma {:induction false} RestoreSucceedsIff(s: Snapshot, spec: MilvusSpec, ws: seq<Workload>)
    ensures RestoreAll(s, spec, ws).Some? <==> forall i :: 0 <= i < |ws| ==> Remembered(s, IdOf(ws[i])).Some?
  {
    if ws != [] {
      RestoreSucceedsIff(s, spec, ws[..|ws| - 1]);
      assert forall i :: 0 <= i < |ws| - 1 ==> ws[..|ws| - 1][i] == ws[i];
      assert IdOf(ws[|ws| - 1]) == IdOf(ws[|ws| - 1]);
    }
  }

  // ---- what a stop achieves ----------------------------------------------------------------------------------

  /** Zeroing reaches every listed workload that is configured and leaves the rest alone. */
  lemma {:induction false} ZeroAllReads(spec: MilvusSpec, ws: seq<Workload>, id: Id)
    ensures Read(ZeroAll(spec, ws), id) == if Listed(ws, id) && Exists(spec, id) then Some(0) else Read(spec, id)
    ensures Exists(ZeroAll(spec, ws), id) == Exists(spec, id)
  {
    if ws != [] {
      var before, w := ws[..|ws| - 1], ws[|ws| - 1];
      ZeroAllReads(spec, before, id);
      SetThenRead(ZeroAll(spec, before), w, Some(0), id);
      ListedSnoc(ws, id);
    }
  }

  /** Every workload belongs to a component the spec configures. */
  predicate AllConfigured(spec: MilvusSpec, newer: NewerThan25)
  {
    var ws := WorkloadsOf(spec, newer);
    forall i :: 0 <= i < |ws| ==> ws[i].c in spec.coms
  }

  lemma {:induction false} ConfiguredExists(spec: MilvusSpec, cs: seq<Component>, i: nat)
    requires i < |Expand(spec, cs)| && Expand(spec, cs)[i].c in spec.coms
    ensures Exists(spec, IdOf(Expand(spec, cs)[i]))
  {
    var before := Expand(spec, cs[..|cs| - 1]);
    if i < |before| {
      ConfiguredExists(spec, cs[..|cs| - 1], i);
    } else {
      var groups := GroupsOf(spec, cs[|cs| - 1]);
      if groups != [] { assert groups[i - |before|].name == IdOf(Expand(spec, cs)[i]).group.value; }
    }
  }

  lemma UniqueShape(a: MilvusSpec, b: MilvusSpec)
    requires SameShape(a, b) && UniqueGroups(a)
    ensures UniqueGroups(b)
  {
  }

  /** After a stop every workload is at zero. */
  lemma StopReachesAll(spec: MilvusSpec, newer: NewerThan25, i: nat)
    requires UniqueGroups(spec) && AllConfigured(spec, newer)
    requires var z := ZeroAll(spec, WorkloadsOf(spec, newer)); i < |WorkloadsOf(z, newer)|
    ensures var z := ZeroAll(spec, WorkloadsOf(spec, newer)); GetReplicas(z, WorkloadsOf(z, newer)[i]) == Some(0)
  {
    hide ComponentsOf, Expand, UniqueGroups, SameShape, Exists, Read;
    var cs := ComponentsOf(spec, newer);
    var ws := Expand(spec, cs);
    var z := ZeroAll(spec, ws);
    ZeroAllKeepsShape(spec, ws);
    SameComponents(spec, z, newer);
    ExpandShape(spec, z, cs);
    UniqueShape(spec, z);
    ExpansionIsFaithful(z, cs);
    var id := IdOf(ws[i]);
    ConfiguredExists(spec, cs, i);
    ZeroAllReads(spec, ws, id);
    assert Listed(ws, id);
    assert IdOf(Expand(z, cs)[i]) == id;
  }

  // ---- the round trips ---------------------------------------------------------------------------------------

  const NOTHING_RECORDED := Snapshot(None, None)

  lemma ShapeLists(a: MilvusSpec, b: MilvusSpec, cs: seq<Component>, id: Id)
    requires SameShape(a, b)
    ensures Listed(Expand(a, cs), id) <==> Listed(Expand(b, cs), id)
  {
    ExpandShape(a, b, cs);
    var x, y := Expand(a, cs), Expand(b, cs);
    if i :| 0 <= i < |x| && IdOf(x[i]) == id { assert IdOf(y[i]) == id; }
    if i :| 0 <= i < |y| && IdOf(y[i]) == id { assert IdOf(x[i]) == id; }
  }

  lemma ShapeExists(a: MilvusSpec, b: MilvusSpec, id: Id)
    requires SameShape(a, b)
    ensures Exists(a, id) <==> Exists(b, id)
  {
    if id.c in a.coms && id.group.Some? {
      var x, y := a.coms[id.c].groups, b.coms[id.c].groups;
      if i :| 0 <= i < |x| && x[i].name == id.group.value { assert y[i].name == id.group.value; }
      if i :| 0 <= i < |y| && y[i].name == id.group.value { assert x[i].name == id.group.value; }
    }
  }

  /**
   Rollback round trip. Let `before` be recorded at the start, and let `now` be whatever stops and
   starts under any component sets have made of it since (only replicas differ), with the source
   image set back. Restarting then succeeds and every workload has the replicas it had, nil as one.
   */
  lemma RollbackRestoresReplicas(before: MilvusSpec, now: MilvusSpec, newer: NewerThan25, id: Id)
    requires UniqueGroups(before) && SameShape(before, now) && now.image == before.image
    ensures var r := Restored(Recorded(NOTHING_RECORDED, before, newer), now, newer);
            && r.Some? && SameShape(before, r.value)
            && (Listed(WorkloadsOf(before, newer), id) && Exists(before, id) ==>
                  Read(r.value, id) == Some(Value(Read(before, id))))
            && (id.c !in before.coms ==> Read(r.value, id) == Read(before, id))
  {
    hide ComponentsOf, Expand, SameShape, UniqueGroups, Read, Exists, RecordAll, RestoreAll, Remembered, Listed, Faithful;
    var cs := ComponentsOf(before, newer);
    SameComponents(before, now, newer);
    var s := Recorded(NOTHING_RECORDED, before, newer);
    var ws := Expand(now, cs);
    ExpansionIsFaithful(before, cs);
    RecordRemembers(before, Expand(before, cs), id);
    AllRemembered(before, now, cs);
    RestoreSucceedsIff(s, now, ws);
    RestoreReads(s, now, ws, id);
    ShapeLists(before, now, cs, id);
    ShapeExists(before, now, id);
    ShapeTrans(before, now, RestoreAll(s, now, ws).value);
    if id.c !in before.coms { AbsentReads(before, now, RestoreAll(s, now, ws).value, id); }
  }

  lemma AllRemembered(before: MilvusSpec, now: MilvusSpec, cs: seq<Component>)
    requires UniqueGroups(before) && SameShape(before, now)
    ensures var s := RecordAll(Snapshot(Some(map[]), Some(map[])), true, true, before, Expand(before, cs));
            forall i :: 0 <= i < |Expand(now, cs)| ==> Remembered(s, IdOf(Expand(now, cs)[i])).Some?
  {
    var x, y := Expand(before, cs), Expand(now, cs);
    ExpandShape(before, now, cs);
    ExpansionIsFaithful(before, cs);
    forall i | 0 <= i < |y|
      ensures Remembered(RecordAll(Snapshot(Some(map[]), Some(map[])), true, true, before, x), IdOf(y[i])).Some?
    {
      assert IdOf(x[i]) == IdOf(y[i]);
      RecordRemembers(before, x, IdOf(y[i]));
    }
  }

  lemma AbsentReads(a: MilvusSpec, b: MilvusSpec, c: MilvusSpec, id: Id)
    requires SameShape(a, b) && SameShape(b, c) && id.c !in a.coms
    ensures Read(c, id) == Read(a, id) && !Exists(a, id)
  {
  }

  /**
   Forward path: restarting under the target image. A plain component gets its old count back if
   the source image ran it, and zero otherwise.
   */
  lemma ForwardReplicas(before: MilvusSpec, now: MilvusSpec, newer: NewerThan25, id: Id)
    requires UniqueGroups(before) && SameShape(before, now)
    ensures var r := Restored(Recorded(NOTHING_RECORDED, before, newer), now, newer);
            r.Some? && Listed(WorkloadsOf(now, newer), id) && Exists(before, id) ==>
              Read(r.value, id) == Some(if Listed(WorkloadsOf(before, newer), id) then Value(Read(before, id)) else 0)
  {
    hide ComponentsOf, Expand, SameShape, UniqueGroups, Exists, Read, RestoreAll, Remembered, Listed, Faithful;
    var s := Recorded(NOTHING_RECORDED, before, newer);
    var ws := WorkloadsOf(now, newer);
    if Restored(s, now, newer).Some? && Listed(ws, id) && Exists(before, id) {
      ExpansionIsFaithful(before, ComponentsOf(before, newer));
      RecordRemembers(before, WorkloadsOf(before, newer), id);
      ShapeExists(before, now, id);
      RestoreReads(s, now, ws, id);
      ListedRemembered(s, now, ws, id);
    }
  }

  lemma ListedRemembered(s: Snapshot, spec: MilvusSpec, ws: seq<Workload>, id: Id)
    requires RestoreAll(s, spec, ws).Some? && Listed(ws, id)
    ensures Remembered(s, id).Some?
  {
    RestoreSucceedsIff(s, spec, ws);
  }

  /** Restarting under the target image fails exactly when it runs a deployment group the source image did not. */
  lemma ForwardStartsIff(before: MilvusSpec, now: MilvusSpec, newer: NewerThan25)
    requires UniqueGroups(before)
    ensures Restored(Recorded(NOTHING_RECORDED, before, newer), now, newer).Some? <==>
            forall i :: 0 <= i < |WorkloadsOf(now, newer)| ==>
                          var w := WorkloadsOf(now, newer)[i];
                          w.group.Some? ==> Listed(WorkloadsOf(before, newer), IdOf(w))
  {
    var s := Recorded(NOTHING_RECORDED, before, newer);
    var ws := WorkloadsOf(now, newer);
    ExpansionIsFaithful(before, ComponentsOf(before, newer));
    forall i | 0 <= i < |ws|
      ensures Remembered(s, IdOf(ws[i])).Some? <==>
              (ws[i].group.Some? ==> Listed(WorkloadsOf(before, newer), IdOf(ws[i])))
    {
      RecordRemembers(before, WorkloadsOf(before, newer), IdOf(ws[i]));
    }
    RestoreSucceedsIff(s, now, ws);
  }

  /** With the same component set on both images the forward path is a round trip too. */
  lemma ForwardRoundTrip(before: MilvusSpec, now: MilvusSpec, newer: NewerThan25, id: Id)
    requires UniqueGroups(before) && SameShape(before, now)
    requires ComponentsOf(before, newer) == ComponentsOf(now, newer)
    ensures var r := Restored(Recorded(NOTHING_RECORDED, before, newer), now, newer);
            && r.Some?
            && (Listed(WorkloadsOf(before, newer), id) && Exists(before, id) ==>
                  Read(r.value, id) == Some(Value(Read(before, id))))
  {
    var cs := ComponentsOf(before, newer);
    var ws := WorkloadsOf(now, newer);
    forall i | 0 <= i < |ws|
      ensures Listed(WorkloadsOf(before, newer), IdOf(ws[i]))
    {
      ExpandShape(before, now, cs);
      assert IdOf(Expand(before, cs)[i]) == IdOf(ws[i]);
    }
    ForwardStartsIff(before, now, newer);
    ShapeLists(before, now, cs, id);
    if Listed(WorkloadsOf(before, newer), id) && Exists(before, id) { ForwardReplicas(before, now, newer, id); }
  }

  const ONE := ComponentConf(Some(1), false, [])

  /** A 2.5 cluster that configures a streaming node but does not run it. */
  const CLUSTER_25 := MilvusSpec(true, "milvus:v2.5", "", Some(false),
    map[MixCoord := ONE, DataNode := ONE, QueryNode := ONE, IndexNode := ONE, Proxy := ONE, Standalone := ONE,
        StreamingNode := ONE])

  function Newer26(version: string, image: string): bool { image == "milvus:v2.6" }

  /** It is not one in general: this cluster, moved to 2.6, comes up with no streaming node replicas. */
  lemma NewComponentStartsEmpty()
    ensures var r := Restored(Recorded(NOTHING_RECORDED, CLUSTER_25, Newer26), CLUSTER_25.(image := "milvus:v2.6"), Newer26);
            && r.Some? && Read(r.value, Id(StreamingNode, None)) == Some(0)
            && Read(CLUSTER_25, Id(StreamingNode, None)) == Some(1)
  {
    var before := CLUSTER_25;
    var now := before.(image := "milvus:v2.6");
    Cluster25Facts();
    hide ComponentsOf, Expand, Recorded, RestoreAll, GroupsOf;
    Ungrouped(now, FROM_26);
    ForwardStartsIff(before, now, Newer26);
    PlainExpansion(now, FROM_26, 2);
    NotListed(before, MIXTURE, StreamingNode);
    ForwardReplicas(before, now, Newer26, Id(StreamingNode, None));
  }

  lemma Cluster25Facts()
    ensures var now := CLUSTER_25.(image := "milvus:v2.6");
            && ComponentsOf(CLUSTER_25, Newer26) == MIXTURE && ComponentsOf(now, Newer26) == FROM_26
            && (forall c :: GroupsOf(now, c) == [])
            && UniqueGroups(CLUSTER_25) && SameShape(CLUSTER_25, now)
            && Exists(CLUSTER_25, Id(StreamingNode, None))
  {
    assert !Newer26("", "milvus:v2.5") by {
      assert "milvus:v2.5"[10] != "milvus:v2.6"[10];
    }
  }

  lemma {:induction false} Ungrouped(spec: MilvusSpec, cs: seq<Component>)
    requires forall c :: GroupsOf(spec, c) == []
    ensures forall i :: 0 <= i < |Expand(spec, cs)| ==> Expand(spec, cs)[i].group == None
  {
    if cs != [] { Ungrouped(spec, cs[..|cs| - 1]); }
  }

  lemma {:induction false} PlainExpansion(spec: MilvusSpec, cs: seq<Component>, i: nat)
    requires i < |cs| && GroupsOf(spec, cs[i]) == []
    ensures Listed(Expand(spec, cs), Id(cs[i], None))
  {
    var before := cs[..|cs| - 1];
    var ws := Expand(spec, cs);
    if i == |cs| - 1 {
      assert IdOf(ws[|ws| - 1]) == Id(cs[i], None);
    } else {
      PlainExpansion(spec, before, i);
      var k :| 0 <= k < |Expand(spec, before)| && IdOf(Expand(spec, before)[k]) == Id(cs[i], None);
      assert ws[k] == Expand(spec, before)[k];
    }
  }

  lemma {:induction false} NotListed(spec: MilvusSpec, cs: seq<Component>, c: Component)
    requires c !in cs
    ensures !Listed(Expand(spec, cs), Id(c, None))
  {
    if cs != [] {
      NotListed(spec, cs[..|cs| - 1], c);
      var before := Expand(spec, cs[..|cs| - 1]);
      assert cs[|cs| - 1] in cs;
      assert forall k :: |before| <= k < |Expand(spec, cs)| ==> Expand(spec, cs)[k].c == cs[|cs| - 1];
      assert forall k :: 0 <= k < |before| ==> Expand(spec, cs)[k] == before[k];
    }
  }

  lemma {:induction false} RecordAllKeeps(s: Snapshot, rc: bool, rg: bool, spec: MilvusSpec, ws: seq<Workload>)
    requires s.components.Some? && s.groups.Some?
    ensures var r := RecordAll(s, rc, rg, spec, ws);
            (!rc ==> r.components == s.components) && (!rg ==> r.groups == s.groups)
  {
    if ws != [] { RecordAllKeeps(s, rc, rg, spec, ws[..|ws| - 1]); }
  }

  /** Each of the two maps is recorded once, on its own, and kept after that. */
  lemma EachMapIsRecordedOnce(s: Snapshot, spec: MilvusSpec, newer: NewerThan25)
    ensures var r := Recorded(s, spec, newer);
            && r.components.Some? && r.groups.Some?
            && (s.components.Some? ==> r.components == s.components) && (s.groups.Some? ==> r.groups == s.groups)
  {
    hide WorkloadsOf;
    RecordAllKeeps(Opened(s), s.components == None, s.groups == None, spec, WorkloadsOf(spec, newer));
  }

  // ---- which workloads there are ---------------------------------------------------------------------------------

  /** The components a Milvus runs, in the fields of its spec; the lists for a cluster name the standalone component too. */
  lemma RunsIff(spec: MilvusSpec, newer: NewerThan25, c: Component)
    ensures var from26 := newer(spec.version, spec.image);
            c in ComponentsOf(spec, newer) <==>
            match c
            case Cdc => Cdc in spec.coms
            case Standalone => true
            case MixCoord => spec.cluster && (from26 || MixCoord in spec.coms)
            case IndexNode => spec.cluster && !from26
            case StreamingNode =>
              spec.cluster &&
              (from26 || (if spec.streamingMode.Some? then spec.streamingMode.value else StreamingNode in spec.coms))
            case DataNode => spec.cluster
            case QueryNode => spec.cluster
            case Proxy => spec.cluster
            case _ => spec.cluster && !from26 && MixCoord !in spec.coms
  {
    InMixture(c);
    InSeparate(c);
    InFrom26(c);
  }

  lemma InMixture(c: Component)
    ensures c in MIXTURE <==> c in {MixCoord, DataNode, QueryNode, IndexNode, Proxy, Standalone}
  {
    var m := MIXTURE;
    assert m[0] == MixCoord && m[1] == DataNode && m[2] == QueryNode && m[3] == IndexNode && m[4] == Proxy && m[5] == Standalone;
  }

  lemma InSeparate(c: Component)
    ensures c in SEPARATE <==>
            c in {RootCoord, DataCoord, QueryCoord, IndexCoord, DataNode, QueryNode, IndexNode, Proxy, Standalone}
  {
    var s := SEPARATE;
    assert s[0] == RootCoord && s[1] == DataCoord && s[2] == QueryCoord && s[3] == IndexCoord && s[4] == DataNode;
    assert s[5] == QueryNode && s[6] == IndexNode && s[7] == Proxy && s[8] == Standalone;
  }

  lemma InFrom26(c: Component)
    ensures c in FROM_26 <==> c in {MixCoord, DataNode, StreamingNode, QueryNode, Proxy, Standalone}
  {
    var f := FROM_26;
    assert f[0] == MixCoord && f[1] == DataNode && f[2] == StreamingNode && f[3] == QueryNode && f[4] == Proxy && f[5] == Standalone;
  }

  lemma {:induction false} ExpandListedIff(spec: MilvusSpec, cs: seq<Component>, id: Id)
    ensures Listed(Expand(spec, cs), id) <==>
            id.c in cs && if GroupsOf(spec, id.c) == [] then id.group == None
                          else id.group.Some? && HasName(GroupsOf(spec, id.c), id.group.value)
  {
    if cs != [] {
      var init, c := cs[..|cs| - 1], cs[|cs| - 1];
      ExpandListedIff(spec, init, id);
      assert cs == init + [c];
      var groups := GroupsOf(spec, c);
      var more := if groups == [] then [Workload(c, None)] else GroupWorkloads(c, groups);
      ListedConcat(Expand(spec, init), more, id);
      assert Listed(more, id) <==>
             id.c == c && (if groups == [] then id.group == None else id.group.Some? && HasName(groups, id.group.value)) by {
        MoreListed(c, groups, id);
      }
    }
  }

  lemma ListedConcat(a: seq<Workload>, b: seq<Workload>, id: Id)
    ensures Listed(a + b, id) <==> Listed(a, id) || Listed(b, id)
  {
    if i :| 0 <= i < |a| && IdOf(a[i]) == id { assert IdOf((a + b)[i]) == id; }
    if i :| 0 <= i < |b| && IdOf(b[i]) == id { assert IdOf((a + b)[|a| + i]) == id; }
    if i :| 0 <= i < |a + b| && IdOf((a + b)[i]) == id { assert i < |a| || IdOf(b[i - |a|]) == id; }
  }

  lemma MoreListed(c: Component, groups: seq<Group>, id: Id)
    ensures Listed(if groups == [] then [Workload(c, None)] else GroupWorkloads(c, groups), id) <==>
            id.c == c && if groups == [] then id.group == None else id.group.Some? && HasName(groups, id.group.value)
  {
    if groups == [] {
      assert IdOf([Workload(c, None)][0]) == Id(c, None);
    } else {
      var ws := GroupWorkloads(c, groups);
      if i :| 0 <= i < |ws| && IdOf(ws[i]) == id { assert groups[i].name == id.group.value; }
      if id.c == c && id.group.Some? && HasName(groups, id.group.value) {
        var i :| 0 <= i < |groups| && groups[i].name == id.group.value;
        assert IdOf(ws[i]) == id;
      }
    }
  }

  /** Its workloads: one per group for proxies, data, query and streaming nodes with groups, one each for all others that run. */
  lemma WorkloadListedIff(spec: MilvusSpec, newer: NewerThan25, id: Id)
    ensures var groups := if id.c in {Proxy, DataNode, QueryNode, StreamingNode} && id.c in spec.coms
                          then spec.coms[id.c].groups else [];
            Listed(WorkloadsOf(spec, newer), id) <==>
            && id.c in ComponentsOf(spec, newer)
            && (if groups == [] then id.group == None
                else id.group.Some? && exists i :: 0 <= i < |groups| && groups[i].name == id.group.value)
  {
    hide ComponentsOf;
    ExpandListedIff(spec, ComponentsOf(spec, newer), id);
  }
}
