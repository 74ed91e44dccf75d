/** The environment of the Milvus container: what a reconcile makes of the variables it finds there. */
module EnvMerge {
  import opened Common

  /** A variable; `value` stands for its value or the reference it is taken from. */
  datatype EnvVar = EnvVar(name: string, value: string)

  type Env = seq<EnvVar>

  // ---- merging --------------------------------------------------------------------------------------------------

  predicate Has(env: Env, name: string) { exists i :: 0 <= i < |env| && env[i].name == name }

  /** Whether position i is the last one with its name. */
  predicate IsLast(env: Env, i: nat)
    requires i < |env|
  {
    forall j :: i < j < |env| ==> env[j].name != env[i].name
  }

  function LastOf(env: Env, name: string): (v: EnvVar)
    requires Has(env, name)
    ensures v.name == name
  {
    if env[|env| - 1].name == name then env[|env| - 1]
    else
      assert Has(env[..|env| - 1], name) by {
        var i :| 0 <= i < |env| && env[i].name == name;
        assert env[..|env| - 1][i] == env[i];
      }
      LastOf(env[..|env| - 1], name)
  }

  /** The variables of `dst` that `src` does not have, repeated names included. */
  function Fresh(src: Env, dst: Env): Env
  {
    if dst == [] then []
    else Fresh(src, dst[..|dst| - 1]) + (if Has(src, dst[|dst| - 1].name) then [] else [dst[|dst| - 1]])
  }

  /** `src` with the last occurrence of each name in `dst` replaced by the last value in `dst`. */
  function Overwritten(src: Env, dst: Env): (r: Env)
    ensures |r| == |src|
    ensures forall i :: 0 <= i < |r| ==>
              r[i] == if IsLast(src, i) && Has(dst, src[i].name) then LastOf(dst, src[i].name) else src[i]
    ensures forall i :: 0 <= i < |r| ==> r[i].name == src[i].name
  {
    seq(|src|, i requires 0 <= i < |src| =>
      if IsLast(src, i) && Has(dst, src[i].name) then LastOf(dst, src[i].name) else src[i])
  }

  function Merge(src: Env, dst: Env): Env { Overwritten(src, dst) + Fresh(src, dst) }

  lemma {:induction false} FreshOfNone(dst: Env)
    ensures Fresh([], dst) == dst
  {
    if dst != [] {
      FreshOfNone(dst[..|dst| - 1]);
      assert dst == dst[..|dst| - 1] + [dst[|dst| - 1]];
    }
  }

  lemma OverwriteSnoc(src: Env, dst: Env, n: nat)
    requires n < |dst|
    ensures Has(dst[..n + 1], dst[n].name) && LastOf(dst[..n + 1], dst[n].name) == dst[n]
    ensures forall name :: Has(dst[..n + 1], name) <==> Has(dst[..n], name) || name == dst[n].name
    ensures forall name :: Has(dst[..n], name) && name != dst[n].name ==>
              LastOf(dst[..n + 1], name) == LastOf(dst[..n], name)
  {
    var a, b := dst[..n], dst[..n + 1];
    assert b[n] == dst[n] && b[..n] == a;
    forall name
      ensures Has(b, name) <==> Has(a, name) || name == dst[n].name
    {
      if i :| 0 <= i < |a| && a[i].name == name { assert b[i].name == name; }
      if i :| 0 <= i < |b| && b[i].name == name { assert i == n || a[i].name == name; }
    }
  }

  method IndexByName(src: Env) returns (index: map<string, nat>)
    ensures forall name :: name in index <==> Has(src, name)
    ensures forall name :: name in index ==> index[name] < |src| && src[index[name]].name == name && IsLast(src, index[name])
  {
    index := map[];
    for i := 0 to |src|
      invariant forall name :: name in index <==> exists j :: 0 <= j < i && src[j].name == name
      invariant forall name :: name in index ==> index[name] < i && src[index[name]].name == name
      invariant forall name :: name in index ==> forall j :: index[name] < j < i ==> src[j].name != name
    {
      index := index[src[i].name := i];
    }
  }

  lemma OverwriteStep(src: Env, dst: Env, n: nat, k: nat)
    requires n < |dst| && k < |src| && src[k].name == dst[n].name && IsLast(src, k)
    ensures Merge(src, dst[..n + 1]) == Merge(src, dst[..n])[k := dst[n]]
  {
    hide LastOf;
    OverwriteSnoc(src, dst, n);
    assert dst[..n + 1][..n] == dst[..n] && dst[..n + 1][n] == dst[n];
    assert Has(src, dst[n].name);
    hide Has;
    var a, b := Overwritten(src, dst[..n]), Overwritten(src, dst[..n + 1]);
    forall i | 0 <= i < |src|
      ensures b[i] == if i == k then dst[n] else a[i]
    {
      OnlyLast(src, i, k);
    }
    assert b == a[k := dst[n]];
  }

  lemma OnlyLast(src: Env, i: nat, k: nat)
    requires i < |src| && k < |src| && IsLast(src, k)
    ensures src[i].name == src[k].name && IsLast(src, i) ==> i == k
  {
  }

  lemma AppendStep(src: Env, dst: Env, n: nat)
    requires n < |dst| && !Has(src, dst[n].name)
    ensures Merge(src, dst[..n + 1]) == Merge(src, dst[..n]) + [dst[n]]
  {
    hide LastOf;
    OverwriteSnoc(src, dst, n);
    assert dst[..n + 1][..n] == dst[..n] && dst[..n + 1][n] == dst[n];
    var a, b := Overwritten(src, dst[..n]), Overwritten(src, dst[..n + 1]);
    forall i | 0 <= i < |src|
      ensures b[i] == a[i]
    {
      assert Has(src, src[i].name);
    }
    assert b == a;
  }

  /** MergeEnvVar. */
  method MergeEnvVar(src: Env, dst: Env) returns (merged: Env)
    ensures merged == Merge(src, dst)
  {
    if |src| == 0 {
      FreshOfNone(dst);
      return dst;
    }
    if |dst| == 0 {
      return src;
    }
    var index := IndexByName(src);
    merged := src;
    assert dst[..0] == [] && Merge(src, []) == src;
    hide Merge, Has, IsLast;
    for i := 0 to |dst|
      invariant |merged| >= |src| && merged == Merge(src, dst[..i])
    {
      var v := dst[i];
      if v.name in index {
        OverwriteStep(src, dst, i, index[v.name]);
        merged := merged[index[v.name] := v];
      } else {
        AppendStep(src, dst, i);
        merged := merged + [v];
      }
    }
    assert dst[..|dst|] == dst;
  }

  // ---- what a merge contains ----------------------------------------------------------------------------------

  /** The last value of a name is what counts for the container. */
  function Effective(env: Env, name: string): Option<EnvVar> { if Has(env, name) then Some(LastOf(env, name)) else None }

  lemma {:induction false} LastOfAt(env: Env, i: nat)
    requires i < |env| && IsLast(env, i)
    ensures Has(env, env[i].name) && LastOf(env, env[i].name) == env[i]
  {
    if i < |env| - 1 {
      assert env[|env| - 1].name != env[i].name;
      LastOfAt(env[..|env| - 1], i);
    }
  }

  lemma {:induction false} LastIndex(env: Env, name: string) returns (i: nat)
    requires Has(env, name)
    ensures i < |env| && env[i].name == name && IsLast(env, i) && LastOf(env, name) == env[i]
  {
    i := |env| - 1;
    if env[i].name != name {
      var k :| 0 <= k < |env| && env[k].name == name;
      assert env[..|env| - 1][k] == env[k];
      i := LastIndex(env[..|env| - 1], name);
    }
    LastOfAt(env, i);
  }

  lemma {:induction false} FreshHas(src: Env, dst: Env, name: string)
    ensures Has(Fresh(src, dst), name) <==> Has(dst, name) && !Has(src, name)
    ensures Has(Fresh(src, dst), name) ==> LastOf(Fresh(src, dst), name) == LastOf(dst, name)
  {
    assert !Has([], name);
    hide Has, LastOf;
    if dst != [] {
      var init, last := dst[..|dst| - 1], dst[|dst| - 1];
      FreshHas(src, init, name);
      HasSnoc(init, last, name);
      HasSnoc(Fresh(src, init), last, name);
      assert dst == init + [last];
      assert Fresh(src, dst) == if Has(src, last.name) then Fresh(src, init) else Fresh(src, init) + [last];
    }
  }

  lemma HasSnoc(env: Env, v: EnvVar, name: string)
    ensures Has(env + [v], name) <==> Has(env, name) || v.name == name
    ensures v.name == name ==> LastOf(env + [v], name) == v
    ensures v.name != name && Has(env, name) ==> LastOf(env + [v], name) == LastOf(env, name)
  {
    var e := env + [v];
    assert e[..|e| - 1] == env;
    if i :| 0 <= i < |env| && env[i].name == name { assert e[i].name == name; }
    if v.name == name { assert e[|env|].name == name; }
    if i :| 0 <= i < |e| && e[i].name == name { assert i == |env| || env[i].name == name; }
  }

  lemma {:induction false} HasConcat(a: Env, b: Env, name: string)
    ensures Has(a + b, name) <==> Has(a, name) || Has(b, name)
    ensures Has(b, name) ==> LastOf(a + b, name) == LastOf(b, name)
    ensures Has(a, name) && !Has(b, name) ==> LastOf(a + b, name) == LastOf(a, name)
  {
    if b == [] {
      assert a + b == a;
    } else {
      var init, last := b[..|b| - 1], b[|b| - 1];
      HasConcat(a, init, name);
      HasSnoc(init, last, name);
      HasSnoc(a + init, last, name);
      assert a + b == (a + init) + [last] && b == init + [last];
    }
  }

  lemma OverwrittenHas(src: Env, dst: Env, name: string)
    ensures Has(Overwritten(src, dst), name) <==> Has(src, name)
    ensures Has(src, name) ==>
              LastOf(Overwritten(src, dst), name) == if Has(dst, name) then LastOf(dst, name) else LastOf(src, name)
  {
    var o := Overwritten(src, dst);
    if i :| 0 <= i < |o| && o[i].name == name { assert src[i].name == name; }
    if i :| 0 <= i < |src| && src[i].name == name { assert o[i].name == name; }
    if Has(src, name) {
      var i := LastIndex(src, name);
      assert IsLast(o, i);
      LastOfAt(o, i);
    }
  }

  /** Every name of either side is there; what counts is the value of `dst` if it has one. */
  lemma MergeEffective(src: Env, dst: Env, name: string)
    ensures Effective(Merge(src, dst), name) == if Has(dst, name) then Effective(dst, name) else Effective(src, name)
  {
    hide Has, LastOf;
    OverwrittenHas(src, dst, name);
    FreshHas(src, dst, name);
    HasConcat(Overwritten(src, dst), Fresh(src, dst), name);
  }

  // ---- when a merge changes nothing --------------------------------------------------------------------------------

  /** `env` already has every variable of `dst`, with the value that counts. */
  ghost predicate Contains(env: Env, dst: Env)
  {
    forall name :: Has(dst, name) ==> Has(env, name) && LastOf(env, name) == LastOf(dst, name)
  }

  lemma {:induction false} NothingFresh(src: Env, dst: Env)
    requires forall i :: 0 <= i < |dst| ==> Has(src, dst[i].name)
    ensures Fresh(src, dst) == []
  {
    if dst != [] { NothingFresh(src, dst[..|dst| - 1]); }
  }

  lemma MergeOfContained(env: Env, dst: Env)
    requires Contains(env, dst)
    ensures Merge(env, dst) == env
  {
    forall i | 0 <= i < |dst|
      ensures Has(env, dst[i].name)
    {
      assert Has(dst, dst[i].name);
    }
    NothingFresh(env, dst);
    forall i | 0 <= i < |env|
      ensures Overwritten(env, dst)[i] == env[i]
    {
      if IsLast(env, i) { LastOfAt(env, i); }
    }
  }

  // ---- pruning ---------------------------------------------------------------------------------------------------

  const MANAGED := {"MINIO_ACCESS_KEY", "MINIO_ACCESS_KEY_ID", "MINIO_SECRET_KEY", "MINIO_SECRET_ACCESS_KEY",
                    "KAFKA_SASLUSERNAME", "KAFKA_SASLPASSWORD", "KAFKA_SSL_TLSKEYPASSWORD"}

  const LAYERED := "MILVUS_OPERATOR_LAYERED_CONFIG"

  predicate Undesired(v: EnvVar, desired: Env) { v.name in MANAGED && !Has(desired, v.name) }

  function Pruned(env: Env, desired: Env): Env
  {
    if env == [] then []
    else Pruned(env[..|env| - 1], desired) + (if Undesired(env[|env| - 1], desired) then [] else [env[|env| - 1]])
  }

  method PruneStorageCredentialEnv(env: Env, desired: Env) returns (result: Env)
    ensures result == Pruned(env, desired)
  {
    var names := {};
    for i := 0 to |desired|
      invariant forall n :: n in names <==> exists j :: 0 <= j < i && desired[j].name == n
    {
      names := names + {desired[i].name};
    }
    assert forall n :: n in names <==> Has(desired, n);
    hide Has;
    result := [];
    for i := 0 to |env|
      invariant result == Pruned(env[..i], desired)
    {
      assert env[..i + 1][..i] == env[..i];
      if env[i].name in MANAGED && env[i].name !in names {
        continue;
      }
      result := result + [env[i]];
    }
    assert env[..|env|] == env;
  }

  predicate Clean(env: Env, desired: Env) { forall i :: 0 <= i < |env| ==> !Undesired(env[i], desired) }

  lemma {:induction false} PrunedIsClean(env: Env, desired: Env)
    ensures Clean(Pruned(env, desired), desired)
  {
    hide Undesired;
    if env != [] { PrunedIsClean(env[..|env| - 1], desired); }
  }

  lemma {:induction false} PruneOfClean(env: Env, desired: Env)
    requires Clean(env, desired)
    ensures Pruned(env, desired) == env
  {
    hide Undesired;
    if env != [] {
      PruneOfClean(env[..|env| - 1], desired);
      assert env == env[..|env| - 1] + [env[|env| - 1]];
    }
  }

  lemma {:induction false} FreshIsFrom(src: Env, dst: Env)
    ensures forall i :: 0 <= i < |Fresh(src, dst)| ==> Has(dst, Fresh(src, dst)[i].name)
  {
    if dst != [] {
      var init, last := dst[..|dst| - 1], dst[|dst| - 1];
      FreshIsFrom(src, init);
      assert dst == init + [last];
      forall name | Has(init, name) || name == last.name ensures Has(dst, name) { HasSnoc(init, last, name); }
    }
  }

  lemma MergeStaysClean(src: Env, dst: Env, desired: Env)
    requires Clean(src, desired) && forall i :: 0 <= i < |dst| ==> Has(desired, dst[i].name) || dst[i].name !in MANAGED
    ensures Clean(Merge(src, dst), desired)
  {
    var o, f := Overwritten(src, dst), Fresh(src, dst);
    FreshIsFrom(src, dst);
    forall i | 0 <= i < |f|
      ensures !Undesired(f[i], desired)
    {
      var k :| 0 <= k < |dst| && dst[k].name == f[i].name;
    }
    forall i | 0 <= i < |o|
      ensures !Undesired(o[i], desired)
    {
      assert o[i].name == src[i].name && !Undesired(src[i], desired);
    }
  }

  // ---- the pipeline -----------------------------------------------------------------------------------------------

  function Updated(env: Env, desired: Env, layered: bool): Env
  {
    Merge(Merge(Pruned(env, desired), desired), [Flag(layered)])
  }

  function Flag(layered: bool): EnvVar { EnvVar(LAYERED, if layered then "true" else "false") }

  method UpdateEnv(env: Env, desired: Env, layered: bool) returns (r: Env)
    ensures r == Updated(env, desired, layered)
  {
    hide Merge;
    r := PruneStorageCredentialEnv(env, desired);
    r := MergeEnvVar(r, desired);
    r := MergeEnvVar(r, [Flag(layered)]);
  }

  lemma FlagIsUnmanaged()
    ensures LAYERED !in MANAGED
  {
    assert LAYERED[1] == 'I' && LAYERED[2] == 'L';
    forall n | n in MANAGED
      ensures n[2] != 'L'
    {
    }
  }

  /** No managed credential is left that the spec does not ask for. */
  lemma NoUndesiredCredential(env: Env, desired: Env, layered: bool)
    ensures Clean(Updated(env, desired, layered), desired)
  {
    hide Merge, Undesired;
    PrunedIsClean(env, desired);
    FlagIsUnmanaged();
    assert forall i :: 0 <= i < |desired| ==> Has(desired, desired[i].name);
    MergeStaysClean(Pruned(env, desired), desired, desired);
    MergeStaysClean(Merge(Pruned(env, desired), desired), [Flag(layered)], desired);
  }

  /** What counts for the container: the flag, then the desired value, then what was there if it is not a stale credential. */
  lemma EffectiveEnv(env: Env, desired: Env, layered: bool, name: string)
    ensures Effective(Updated(env, desired, layered), name) ==
            if name == LAYERED then Some(Flag(layered))
            else if Has(desired, name) then Effective(desired, name)
            else if name in MANAGED then None
            else Effective(env, name)
  {
    var flag := [Flag(layered)];
    assert flag[0].name == LAYERED && (Has(flag, name) <==> name == LAYERED);
    hide Merge;
    MergeEffective(Merge(Pruned(env, desired), desired), flag, name);
    MergeEffective(Pruned(env, desired), desired, name);
    if !Has(desired, name) { PrunedEffective(env, desired, name); }
  }

  lemma {:induction false} PrunedEffective(env: Env, desired: Env, name: string)
    requires !Has(desired, name)
    ensures Effective(Pruned(env, desired), name) == if name in MANAGED then None else Effective(env, name)
  {
    assert !Has([], name);
    hide Has, LastOf;
    if env != [] {
      var init, last := env[..|env| - 1], env[|env| - 1];
      PrunedEffective(init, desired, name);
      HasSnoc(init, last, name);
      HasSnoc(Pruned(init, desired), last, name);
      assert env == init + [last];
      assert Pruned(env, desired) == if Undesired(last, desired) then Pruned(init, desired) else Pruned(init, desired) + [last];
    }
  }

  // ---- idempotence ---------------------------------------------------------------------------------------------------

  lemma MergeContains(src: Env, dst: Env)
    ensures Contains(Merge(src, dst), dst)
  {
    hide Has, LastOf, Merge;
    forall name | Has(dst, name)
      ensures Has(Merge(src, dst), name) && LastOf(Merge(src, dst), name) == LastOf(dst, name)
    {
      MergeEffective(src, dst, name);
    }
  }

  /** Writing one variable over an environment that has it changes the last occurrence of its name. */
  lemma MergeOne(env: Env, v: EnvVar, k: nat)
    requires k < |env| && env[k].name == v.name && IsLast(env, k)
    ensures Merge(env, [v]) == env[k := v]
  {
    var d := [v];
    assert d[..0 + 1] == d && d[..0] == [];
    OverwriteStep(env, d, 0, k);
    assert Merge(env, []) == env;
  }

  /** If the desired variables include the flag, merging them after the flag goes back to before the flag. */
  lemma DesiredUndoesFlag(m: Env, desired: Env, v: EnvVar, k: nat)
    requires Contains(m, desired) && Has(desired, v.name) && k < |m| && m[k].name == v.name && IsLast(m, k)
    ensures Merge(m[k := v], desired) == m
  {
    var f := m[k := v];
    assert forall i :: 0 <= i < |m| ==> f[i].name == m[i].name;
    forall i | 0 <= i < |desired|
      ensures Has(f, desired[i].name)
    {
      assert Has(desired, desired[i].name);
      var j :| 0 <= j < |m| && m[j].name == desired[i].name;
      assert f[j].name == desired[i].name;
    }
    NothingFresh(f, desired);
    forall i | 0 <= i < |m|
      ensures Overwritten(f, desired)[i] == m[i]
    {
      assert IsLast(f, i) <==> IsLast(m, i);
      if IsLast(m, i) { LastOfAt(m, i); }
    }
  }

  /** One variable more, of a name that is not desired, does not matter to the desired ones. */
  lemma ContainsDespite(m: Env, desired: Env, v: EnvVar)
    requires Contains(m, desired) && !Has(desired, v.name)
    ensures Contains(Merge(m, [v]), desired)
  {
    var one := [v];
    assert forall name :: Has(one, name) ==> name == v.name;
    hide Has, LastOf, Merge;
    forall name | Has(desired, name)
      ensures Has(Merge(m, one), name) && LastOf(Merge(m, one), name) == LastOf(desired, name)
    {
      MergeEffective(m, one, name);
    }
  }

  /**
   The pipeline is idempotent for all lists, repeated names included: reconciling an unchanged
   spec again leaves the environment, and with it the pod template, as it is.
   */
  lemma UpdateIsIdempotent(env: Env, desired: Env, layered: bool)
    ensures Updated(Updated(env, desired, layered), desired, layered) == Updated(env, desired, layered)
  {
    hide Has, LastOf, Merge, Pruned, Clean;
    var v := Flag(layered);
    var m := Merge(Pruned(env, desired), desired);
    var f := Merge(m, [v]);
    NoUndesiredCredential(env, desired, layered);
    PruneOfClean(f, desired);
    MergeContains(Pruned(env, desired), desired);
    MergeContains(m, [v]);
    if Has(desired, v.name) {
      var k := LastIndex(m, v.name);
      MergeOne(m, v, k);
      DesiredUndoesFlag(m, desired, v, k);
    } else {
      ContainsDespite(m, desired, v);
      MergeOfContained(f, desired);
      MergeOfContained(f, [v]);
    }
  }

  // ---- the pipeline in full ------------------------------------------------------------------------------------------

  /** One desired variable more: it takes the place of the last one of its name among the existing, or comes at the end. */
  lemma MergeOneMore(src: Env, dst: Env, v: EnvVar, k: nat)
    ensures Merge(src, []) == src
    ensures k < |src| && src[k].name == v.name && (forall j :: k < j < |src| ==> src[j].name != v.name) ==>
              |Merge(src, dst)| >= |src| && Merge(src, dst + [v]) == Merge(src, dst)[k := v]
    ensures (forall j :: 0 <= j < |src| ==> src[j].name != v.name) ==> Merge(src, dst + [v]) == Merge(src, dst) + [v]
  {
    var d := dst + [v];
    assert d[..|dst|] == dst && d[..|dst| + 1] == d && d[|dst|] == v;
    assert Merge(src, []) == src;
    hide Merge, LastOf;
    assert |Merge(src, dst)| >= |src| by { MergeLength(src, dst); }
    if k < |src| && src[k].name == v.name && forall j :: k < j < |src| ==> src[j].name != v.name {
      OverwriteStep(src, d, |dst|, k);
    }
    if forall j :: 0 <= j < |src| ==> src[j].name != v.name {
      AppendStep(src, d, |dst|);
    }
  }

  lemma MergeLength(src: Env, dst: Env)
    ensures |Merge(src, dst)| >= |src|
  {
  }

  /** Which credentials go when they are no longer desired, and what the flag says. */
  lemma StaleCredentialsGo(env: Env, desired: Env, layered: bool, name: string)
    requires forall i :: 0 <= i < |desired| ==> desired[i].name != name
    ensures var after := Effective(Updated(env, desired, layered), name);
            if name in {"MINIO_ACCESS_KEY", "MINIO_ACCESS_KEY_ID", "MINIO_SECRET_KEY", "MINIO_SECRET_ACCESS_KEY",
                        "KAFKA_SASLUSERNAME", "KAFKA_SASLPASSWORD", "KAFKA_SSL_TLSKEYPASSWORD"}
            then after == None
            else if name == "MILVUS_OPERATOR_LAYERED_CONFIG"
            then after == Some(EnvVar(name, if layered then "true" else "false"))
            else after == Effective(env, name)
  {
    hide Effective, Updated;
    EffectiveEnv(env, desired, layered, name);
    FlagIsUnmanaged();
    assert !Has(desired, name);
  }

  lemma PruneOne(v: EnvVar, desired: Env)
    ensures Pruned([v], desired) == if v.name in MANAGED && !Has(desired, v.name) then [] else [v]
  {
    hide Has;
    assert [v][..0] == [];
  }

  /** Everything else stays where it is: pruning only takes out, and keeps the order. */
  lemma {:induction false} PruneParts(a: Env, b: Env, desired: Env)
    ensures Pruned(a + b, desired) == Pruned(a, desired) + Pruned(b, desired)
  {
    hide Undesired;
    if b == [] {
      assert a + b == a;
    } else {
      PruneParts(a, b[..|b| - 1], desired);
      assert (a + b)[..|a + b| - 1] == a + b[..|b| - 1];
    }
  }
}
