/** Deep merge of configuration values: how user values are layered over defaults. */
module ValueMerge {
  import opened Common

  /** A decoded value: a nested map, or anything else. */
  datatype Value = Leaf(content: string) | Node(entries: map<string, Value>)

  type Values = map<string, Value>

  /** Two maps are merged key by key; in any other case the patch replaces the origin. */
  function Merge(origin: Value, patch: Value): Value
    decreases patch
  {
    if origin.Node? && patch.Node? then
      Node(map k | k in origin.entries.Keys + patch.entries.Keys ::
        if k !in patch.entries then origin.entries[k]
        else if k in origin.entries then Merge(origin.entries[k], patch.entries[k])
        else patch.entries[k])
    else patch
  }

  function MergeMaps(origin: Values, patch: Values): Values { Merge(Node(origin), Node(patch)).entries }

  /** One key of a merge of two maps. */
  lemma MergeAt(o: Values, p: Values, k: string)
    ensures var m := Merge(Node(o), Node(p));
            && m.Node? && (k in m.entries <==> k in o || k in p)
            && (k in p ==> m.entries[k] == if k in o then Merge(o[k], p[k]) else p[k])
            && (k in o && k !in p ==> m.entries[k] == o[k])
  {
  }

  lemma MergeLeaf(o: Value, p: Value)
    ensures !o.Node? || !p.Node? ==> Merge(o, p) == p
    ensures o.Node? && p.Node? ==> Merge(o, p).Node?
  {
  }

  /** What the loop stores under one key of the patch. */
  method MergeKey(o: Values, p: Values, k: string) returns (v: Value)
    requires k in p
    ensures v == MergeMaps(o, p)[k]
    decreases Node(p), 0
  {
    hide Merge;
    MergeAt(o, p, k);
    if k !in o {
      return p[k];
    }
    MergeLeaf(o[k], p[k]);
    if !o[k].Node? {
      return p[k];
    }
    if !p[k].Node? {
      return p[k];
    }
    assert p[k] == Node(p[k].entries) && p[k] == Node(p).entries[k];
    var inner := MergeValues(Some(o[k].entries), Some(p[k].entries));
    return Node(inner.value);
  }

  /** MergeValues, whatever order the keys of the patch come in; a nil map on either side changes nothing. */
  method MergeValues(origin: Option<Values>, patch: Option<Values>) returns (r: Option<Values>)
    ensures r == if origin == None || patch == None then origin else Some(MergeMaps(origin.value, patch.value))
    decreases if patch.Some? then Node(patch.value) else Leaf(""), 1
  {
    if origin == None || patch == None {
      return origin;
    }
    var o, p := origin.value, patch.value;
    ghost var goal := MergeMaps(o, p);
    forall k
      ensures k in goal <==> k in o || k in p
      ensures k in o && k !in p ==> goal[k] == o[k]
    {
      MergeAt(o, p, k);
    }
    hide MergeMaps, Merge;
    var merged, left := o, p.Keys;
    while left != {}
      invariant forall k :: k in left ==> k in p
      invariant forall k :: k in merged <==> k in o || (k in p && k !in left)
      invariant forall k :: k in merged && k !in left ==> k in goal && merged[k] == goal[k]
      decreases |left|
    {
      var k :| k in left;
      var v := MergeKey(o, p, k);
      merged := merged[k := v];
      left := left - {k};
    }
    assert merged == goal;
    return Some(merged);
  }

  // ---- what is found where -------------------------------------------------------------------------------------

  function At(v: Value, path: seq<string>): Option<Value>
    decreases |path|
  {
    if path == [] then Some(v)
    else if v.Node? && path[0] in v.entries then At(v.entries[path[0]], path[1..])
    else None
  }

  /** The patch says nothing about a path: going down, a map of the patch lacks the next key. */
  predicate Untouched(patch: Value, path: seq<string>)
    decreases |path|
  {
    patch.Node? && path != [] && (path[0] !in patch.entries || Untouched(patch.entries[path[0]], path[1..]))
  }

  predicate HasLeaf(v: Value, path: seq<string>, content: string) { At(v, path) == Some(Leaf(content)) }

  /** Exactly the leaves of the patch, and those leaves of the origin the patch says nothing about. */
  lemma {:induction false} LeavesOfMerge(o: Value, p: Value, path: seq<string>, content: string)
    ensures HasLeaf(Merge(o, p), path, content) <==>
            HasLeaf(p, path, content) || (Untouched(p, path) && HasLeaf(o, path, content))
    decreases |path|
  {
    if o.Node? && p.Node? && path != [] && path[0] in o.entries && path[0] in p.entries {
      LeavesOfMerge(o.entries[path[0]], p.entries[path[0]], path[1..], content);
    }
  }

  /** No map in it is empty. */
  predicate NoEmptyMap(v: Value)
  {
    v.Leaf? || (v.entries != map[] && forall k :: k in v.entries ==> NoEmptyMap(v.entries[k]))
  }

  lemma {:induction false} SomeLeaf(v: Value) returns (path: seq<string>, content: string)
    requires NoEmptyMap(v)
    ensures HasLeaf(v, path, content)
    decreases v
  {
    if v.Leaf? {
      path, content := [], v.content;
    } else {
      var k :| k in v.entries;
      var rest, c := SomeLeaf(v.entries[k]);
      path, content := [k] + rest, c;
      assert path[1..] == rest;
    }
  }

  ghost predicate SameLeaves(a: Value, b: Value)
  {
    forall path, content :: HasLeaf(a, path, content) <==> HasLeaf(b, path, content)
  }

  lemma SameLeavesBelow(a: Value, b: Value, k: string)
    requires SameLeaves(a, b) && a.Node? && b.Node? && k in a.entries && k in b.entries
    ensures SameLeaves(a.entries[k], b.entries[k])
  {
    forall path, content
      ensures HasLeaf(a.entries[k], path, content) <==> HasLeaf(b.entries[k], path, content)
    {
      assert ([k] + path)[1..] == path;
      assert HasLeaf(a, [k] + path, content) <==> HasLeaf(b, [k] + path, content);
    }
  }

  lemma KeysFollow(a: Value, b: Value, k: string)
    requires SameLeaves(a, b) && a.Node? && b.Node? && k in a.entries && NoEmptyMap(a)
    ensures k in b.entries
  {
    var path, content := SomeLeaf(a.entries[k]);
    assert ([k] + path)[1..] == path;
    assert HasLeaf(a, [k] + path, content);
  }

  /** Leaves are all there is to know: without empty maps, values with the same leaves are the same. */
  lemma {:induction false} LeavesDetermine(a: Value, b: Value)
    requires NoEmptyMap(a) && NoEmptyMap(b) && SameLeaves(a, b)
    ensures a == b
  {
    if a.Leaf? {
      assert HasLeaf(a, [], a.content);
    } else if b.Leaf? {
      assert HasLeaf(b, [], b.content);
    } else {
      forall k
        ensures k in a.entries <==> k in b.entries
        ensures k in a.entries && k in b.entries ==> a.entries[k] == b.entries[k]
      {
        if k in a.entries { KeysFollow(a, b, k); }
        if k in b.entries { KeysFollow(b, a, k); }
        if k in a.entries && k in b.entries {
          SameLeavesBelow(a, b, k);
          LeavesDetermine(a.entries[k], b.entries[k]);
        }
      }
      assert a.entries == b.entries;
    }
  }

  /** A merge brings in no empty map, so it is the one such value with the leaves stated above. */
  lemma {:induction false} MergeHasNoEmptyMap(o: Value, p: Value)
    requires NoEmptyMap(o) && NoEmptyMap(p)
    ensures NoEmptyMap(Merge(o, p))
    decreases p
  {
    if o.Node? && p.Node? {
      var m := Merge(o, p);
      var one :| one in o.entries;
      assert one in m.entries;
      forall k | k in m.entries
        ensures NoEmptyMap(m.entries[k])
      {
        if k in o.entries && k in p.entries { MergeHasNoEmptyMap(o.entries[k], p.entries[k]); }
      }
    }
  }

  // ---- stability -------------------------------------------------------------------------------------------------

  /** Merging with itself changes nothing. */
  lemma {:induction false} MergeSelf(v: Value)
    ensures Merge(v, v) == v
  {
    if v.Node? {
      forall k | k in v.entries
        ensures Merge(v, v).entries[k] == v.entries[k]
      {
        MergeSelf(v.entries[k]);
      }
      assert Merge(v, v).entries == v.entries;
    }
  }

  /** A patch applied twice is a patch applied once. */
  lemma {:induction false} MergeTwice(o: Value, p: Value)
    ensures Merge(Merge(o, p), p) == Merge(o, p)
    decreases p
  {
    MergeSelf(p);
    if o.Node? && p.Node? {
      var m := Merge(o, p);
      forall k | k in m.entries
        ensures Merge(m, p).entries[k] == m.entries[k]
      {
        if k in p.entries && k in o.entries { MergeTwice(o.entries[k], p.entries[k]); }
        if k in p.entries && k !in o.entries { MergeSelf(p.entries[k]); }
      }
      assert Merge(m, p).entries == m.entries;
    }
  }

  /** Layering defaults under values that already have them changes nothing. */
  lemma {:induction false} DefaultsAreStable(d: Value, u: Value)
    ensures Merge(d, Merge(d, u)) == Merge(d, u)
    decreases u
  {
    if d.Node? && u.Node? {
      var m := Merge(d, u);
      forall k | k in m.entries
        ensures Merge(d, m).entries[k] == m.entries[k]
      {
        if k in d.entries && k in u.entries { DefaultsAreStable(d.entries[k], u.entries[k]); }
        if k in d.entries && k !in u.entries { MergeSelf(d.entries[k]); }
      }
      assert Merge(d, m).entries == m.entries;
    }
  }

  /** The values after defaulting a number of times. */
  function Defaulted(d: Value, u: Value, times: nat): Value
  {
    if times == 0 then u else Merge(d, Defaulted(d, u, times - 1))
  }

  /** Defaulting again and again gives what defaulting once gives. */
  lemma {:induction false} DefaultingIsIdempotent(d: Value, u: Value, times: nat)
    requires times > 0
    ensures Defaulted(d, u, times) == Merge(d, u)
  {
    if times > 1 {
      DefaultingIsIdempotent(d, u, times - 1);
      DefaultsAreStable(d, u);
    } else {
      assert Defaulted(d, u, 0) == u;
    }
  }
}
