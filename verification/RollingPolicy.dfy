/** Rolling-update policies: merging, admission, the effective strategy and its integer steps. */
module RollingPolicy {
  import opened Common
  import opened GoStrings

  /** A Kubernetes int-or-string amount. */
  datatype Amount = IntVal(n: int) | StrVal(s: string)

  datatype Policy = Policy(maxSurge: Option<Amount>, maxUnavailable: Option<Amount>)

  datatype Strategy = Recreate | RollingUpdate(policy: Option<Policy>)

  datatype Steps = Steps(surge: int, unavailable: int)

  datatype PolicyError = BadAmount(fieldName: string) | UnavailableOver100 | NoProgress

  function FloorPercent(p: int, total: int): int { (p * total) / 100 }

  function CeilPercent(p: int, total: int): int { -((-(p * total)) / 100) }

  /** The number in front of a trailing percent sign, if the string has that form. */
  function PercentOf(s: string): Option<int>
  {
    if s != "" && s[|s| - 1] == '%' then Atoi(s[..|s| - 1]) else None
  }

  /** Digits followed by one percent sign. */
  predicate IsValidPercent(s: string)
  {
    |s| >= 2 && s[|s| - 1] == '%' && AllDigits(s[..|s| - 1])
  }

  /** Scales an amount to `total`; None is the error of a string that is no percentage. */
  function Scaled(a: Amount, total: int, roundUp: bool): Option<int>
  {
    match a
    case IntVal(n) => Some(n)
    case StrVal(s) =>
      match PercentOf(s)
      case None => None
      case Some(p) => Some(if roundUp then CeilPercent(p, total) else FloorPercent(p, total))
  }

  // ---- merging -------------------------------------------------------------------------

  function MergedPolicy(global: Option<Policy>, component: Option<Policy>): (m: Option<Policy>)
  {
    if global == None && component == None then None
    else
      var base := if global.Some? then global.value else Policy(None, None);
      var over := if component.Some? then component.value else Policy(None, None);
      Some(Policy(if over.maxSurge.Some? then over.maxSurge else base.maxSurge,
                  if over.maxUnavailable.Some? then over.maxUnavailable else base.maxUnavailable))
  }

  method MergeRollingUpdate(global: Option<Policy>, component: Option<Policy>) returns (merged: Option<Policy>)
    ensures merged == MergedPolicy(global, component)
    ensures merged == None <==> global == None && component == None
    ensures component.Some? && component.value.maxSurge.Some? ==>
              merged.value.maxSurge == component.value.maxSurge
    ensures component.Some? && component.value.maxUnavailable.Some? ==>
              merged.value.maxUnavailable == component.value.maxUnavailable
    ensures merged.Some? && (component == None || component.value.maxSurge == None) ==>
              merged.value.maxSurge == if global.Some? then global.value.maxSurge else None
    ensures merged.Some? && (component == None || component.value.maxUnavailable == None) ==>
              merged.value.maxUnavailable == if global.Some? then global.value.maxUnavailable else None
  {
    if global == None && component == None {
      return None;
    }
    var m := if global.Some? then global.value else Policy(None, None);
    if component.Some? {
      var override := component.value;
      if override.maxSurge.Some? {
        m := m.(maxSurge := override.maxSurge);
      }
      if override.maxUnavailable.Some? {
        m := m.(maxUnavailable := override.maxUnavailable);
      }
    }
    merged := Some(m);
  }

  // ---- admission -----------------------------------------------------------------------

  predicate WellFormedAmount(a: Amount)
  {
    && (a.IntVal? ==> a.n >= 0)
    && (a.StrVal? ==> IsValidPercent(a.s) && PercentOf(a.s).Some?)
  }

  function AmountErrors(fieldName: string, a: Option<Amount>): seq<PolicyError>
  {
    if a == None then []
    else if !WellFormedAmount(a.value) then [BadAmount(fieldName)]
    else if fieldName == "maxUnavailable" && a.value.StrVal? && Scaled(a.value, 100, false).value > 100
    then [UnavailableOver100]
    else []
  }

  function AmountsErrors(p: Policy): seq<PolicyError>
  {
    AmountErrors("maxSurge", p.maxSurge) + AmountErrors("maxUnavailable", p.maxUnavailable)
  }

  predicate ZeroAt100(p: Policy)
  {
    && (p.maxSurge.Some? && Scaled(p.maxSurge.value, 100, true) == Some(0))
    && (p.maxUnavailable.Some? ==> Scaled(p.maxUnavailable.value, 100, false) == Some(0))
  }

  /** Every error the webhook reports for one policy. */
  function PolicyErrors(ru: Option<Policy>): seq<PolicyError>
  {
    if ru == None then []
    else if AmountsErrors(ru.value) != [] then AmountsErrors(ru.value)
    else if ZeroAt100(ru.value) then [NoProgress]
    else []
  }

  lemma PercentScale(s: string)
    requires IsValidPercent(s) && PercentOf(s).Some?
    ensures PercentOf(s).value >= 0
    ensures FloorPercent(PercentOf(s).value, 100) == PercentOf(s).value == CeilPercent(PercentOf(s).value, 100)
  {
    assert IsDigit(s[..|s| - 1][0]);
  }

  /** validateRollingUpdate: checks the two amounts in turn, then the pair at scale 100. */
  method ValidateRollingUpdate(ru: Option<Policy>) returns (errs: seq<PolicyError>)
    ensures errs == PolicyErrors(ru)
  {
    if ru == None {
      return [];
    }
    var p := ru.value;
    var items := [("maxSurge", p.maxSurge), ("maxUnavailable", p.maxUnavailable)];
    errs := [];
    for i := 0 to |items|
      invariant i == 0 ==> errs == []
      invariant i == 1 ==> errs == AmountErrors("maxSurge", p.maxSurge)
      invariant i == 2 ==> errs == AmountsErrors(p)
    {
      var (name, value) := items[i];
      if value == None {
        continue;
      }
      var v := value.value;
      var valid := (v.IntVal? && v.n >= 0) || (v.StrVal? && IsValidPercent(v.s));
      var n := Scaled(v, 100, false);
      if v.StrVal? && valid && n.Some? {
        PercentScale(v.s);
      }
      if !valid || n == None || n.value < 0 {
        errs := errs + [BadAmount(name)];
      } else if name == "maxUnavailable" && v.StrVal? && n.value > 100 {
        errs := errs + [UnavailableOver100];
      }
    }
    if |errs| > 0 {
      return;
    }
    var surge, unavailable := 1, 0;
    if p.maxSurge.Some? {
      surge := Scaled(p.maxSurge.value, 100, true).value;
    }
    if p.maxUnavailable.Some? {
      unavailable := Scaled(p.maxUnavailable.value, 100, false).value;
    }
    if surge == 0 && unavailable == 0 {
      errs := errs + [NoProgress];
    }
  }

  /** The errors of every configured component, judged by its policy merged with the global one, in order. */
  function ComponentErrors(global: Option<Policy>, components: seq<Option<Option<Policy>>>): seq<PolicyError>
  {
    if components == [] then []
    else
      var last := components[|components| - 1];
      ComponentErrors(global, components[..|components| - 1])
      + (if last.Some? then PolicyErrors(MergedPolicy(global, last.value)) else [])
  }

  /** validateRollingUpdates: the global policy, then every configured component merged over it. */
  method ValidateRollingUpdates(global: Option<Policy>, components: seq<Option<Option<Policy>>>)
    returns (errs: seq<PolicyError>)
    ensures errs == PolicyErrors(global) + ComponentErrors(global, components)
  {
    hide PolicyErrors, MergedPolicy;
    errs := ValidateRollingUpdate(global);
    for i := 0 to |components|
      invariant errs == PolicyErrors(global) + ComponentErrors(global, components[..i])
    {
      assert components[..i + 1][..i] == components[..i];
      if components[i].Some? {
        var effective := MergeRollingUpdate(global, components[i].value);
        var more := ValidateRollingUpdate(effective);
        errs := errs + more;
      }
    }
    assert components[..|components|] == components;
  }

  /** A Milvus is admitted exactly when the global policy and every merged component policy are. */
  lemma {:induction false} AdmittedIff(global: Option<Policy>, components: seq<Option<Option<Policy>>>)
    ensures ComponentErrors(global, components) == [] <==>
            forall i :: 0 <= i < |components| && components[i].Some? ==>
                          PolicyErrors(MergedPolicy(global, components[i].value)) == []
  {
    hide PolicyErrors, MergedPolicy;
    if components != [] {
      AdmittedIff(global, components[..|components| - 1]);
      assert forall i :: 0 <= i < |components| - 1 ==> components[..|components| - 1][i] == components[i];
    }
  }

  /**
   What is admitted, amount by amount: a count that is not negative, or digits and a percent sign
   that fit an integer; a percentage of unavailable replicas is at most 100.
   */
  lemma AmountAdmittedIff(fieldName: string, a: Amount)
    requires fieldName == "maxSurge" || fieldName == "maxUnavailable"
    ensures match a
            case IntVal(n) => AmountErrors(fieldName, Some(a)) == if n >= 0 then [] else [BadAmount(fieldName)]
            case StrVal(s) =>
              if |s| >= 2 && s[|s| - 1] == '%' && AllDigits(s[..|s| - 1]) && DigitsValue(s[..|s| - 1]) <= INT64_MAX
              then AmountErrors(fieldName, Some(a)) ==
                   if fieldName == "maxUnavailable" && DigitsValue(s[..|s| - 1]) > 100 then [UnavailableOver100] else []
              else AmountErrors(fieldName, Some(a)) == [BadAmount(fieldName)]
  {
    if a.StrVal? && |a.s| >= 2 && a.s[|a.s| - 1] == '%' && AllDigits(a.s[..|a.s| - 1]) {
      assert IsDigit(a.s[..|a.s| - 1][0]);
    }
  }

  /** The amount p%. */
  function Percent(p: nat): Amount { StrVal(Itoa(p) + "%") }

  lemma PercentReads(p: nat)
    requires p <= INT64_MAX
    ensures PercentOf(Percent(p).s) == Some(p) && WellFormedAmount(Percent(p))
  {
    AtoiOfItoa(p);
    assert Percent(p).s[..|Percent(p).s| - 1] == Itoa(p);
  }

  /** An amount that means zero. */
  predicate MeansZero(a: Amount) { a == IntVal(0) || (a.StrVal? && PercentOf(a.s) == Some(0)) }

  /** Of the policies with admitted amounts, exactly those without any step are refused. */
  lemma NoProgressIff(p: Policy)
    requires AmountsErrors(p) == []
    ensures PolicyErrors(Some(p)) == [NoProgress] <==>
            p.maxSurge.Some? && MeansZero(p.maxSurge.value) && (p.maxUnavailable.Some? ==> MeansZero(p.maxUnavailable.value))
    ensures PolicyErrors(Some(p)) in {[], [NoProgress]}
  {
    if p.maxSurge.Some? && p.maxSurge.value.StrVal? { PercentScale(p.maxSurge.value.s); }
    if p.maxUnavailable.Some? && p.maxUnavailable.value.StrVal? { PercentScale(p.maxUnavailable.value.s); }
  }

  // ---- the effective strategy and its steps ----------------------------------------------

  const DEFAULT_POLICY := Policy(Some(IntVal(1)), Some(IntVal(0)))
  const EVERYTHING := Policy(Some(StrVal("100%")), Some(StrVal("100%")))

  /** GetDeploymentStrategy; `useRolling` is the active-standby decision of the component. */
  function EffectiveStrategy(force: bool, useRolling: bool, global: Option<Policy>, component: Option<Policy>): Strategy
  {
    if force then RollingUpdate(Some(EVERYTHING))
    else if useRolling then RollingUpdate(MergedPolicy(Some(DEFAULT_POLICY), MergedPolicy(global, component)))
    else Recreate
  }

  function RolloutSteps(strategy: Strategy, replicas: int): Steps
  {
    if strategy.Recreate? || strategy.policy == None then Steps(1, 0)
    else
      var ru := strategy.policy.value;
      var scaledSurge := if ru.maxSurge.Some? then Scaled(ru.maxSurge.value, replicas, true) else None;
      var surge := if scaledSurge.Some? && scaledSurge.value >= 0 then scaledSurge.value else 1;
      var scaledDown := if ru.maxUnavailable.Some? then Scaled(ru.maxUnavailable.value, replicas, false) else None;
      var unavailable :=
        if scaledDown == None || scaledDown.value < 0 then 0
        else if surge == 0 && scaledDown.value == 0 && Scaled(ru.maxUnavailable.value, 100, false).value > 0 then 1
        else scaledDown.value;
      Steps(surge, Min(unavailable, Max(0, replicas)))
  }

  lemma PercentProduct(p: int, r: int)
    requires p >= 0 && r >= 1
    ensures p * r >= 0 && (p > 0 <==> p * r > 0)
  {
    if p > 0 { assert p * r >= r; }
  }

  /** Rounding at any scale of at least one keeps a surge positive exactly when it is positive at 100. */
  lemma SurgeSign(a: Amount, replicas: int)
    requires WellFormedAmount(a) && replicas >= 1
    ensures Scaled(a, replicas, true).Some? && Scaled(a, 100, true).Some?
    ensures Scaled(a, replicas, true).value >= 0
    ensures Scaled(a, replicas, true).value > 0 <==> Scaled(a, 100, true).value > 0
    ensures Scaled(a, 100, true).value >= 0
  {
    if a.StrVal? {
      PercentScale(a.s);
      PercentProduct(PercentOf(a.s).value, replicas);
    }
  }

  lemma UnavailableSign(a: Amount, replicas: int)
    requires WellFormedAmount(a) && replicas >= 1
    ensures Scaled(a, replicas, false).Some? && Scaled(a, 100, false).Some?
    ensures Scaled(a, replicas, false).value >= 0
    ensures Scaled(a, replicas, false).value > 0 ==> Scaled(a, 100, false).value > 0
    ensures Scaled(a, 100, false).value >= 0
  {
    if a.StrVal? {
      PercentScale(a.s);
      PercentProduct(PercentOf(a.s).value, replicas);
    }
  }

  /** Steps are always usable numbers, whatever the policy says. */
  lemma StepsInRange(strategy: Strategy, replicas: int)
    requires replicas >= 0
    ensures var s := RolloutSteps(strategy, replicas);
            s.surge >= 0 && 0 <= s.unavailable <= replicas
  {
  }

  /** For amounts of the right shape, admission rejects exactly the policies that would stall, at every scale. */
  lemma AdmittedIffProgress(global: Option<Policy>, component: Option<Policy>, replicas: int)
    requires replicas >= 1
    requires var m := MergedPolicy(global, component); m.Some? ==> AmountsErrors(m.value) == []
    ensures PolicyErrors(MergedPolicy(global, component)) == [] <==>
            RolloutSteps(EffectiveStrategy(false, true, global, component), replicas) != Steps(0, 0)
  {
    var m := MergedPolicy(global, component);
    if m.Some? {
      assert AmountErrors("maxSurge", m.value.maxSurge) == [];
      assert AmountErrors("maxUnavailable", m.value.maxUnavailable) == [];
      if m.value.maxSurge.Some? { SurgeSign(m.value.maxSurge.value, replicas); }
      if m.value.maxUnavailable.Some? { UnavailableSign(m.value.maxUnavailable.value, replicas); }
    }
  }

  /** No admitted policy can stall a rollout, in any update mode. */
  lemma NoAdmittedPolicyStalls(force: bool, useRolling: bool, global: Option<Policy>, component: Option<Policy>,
                               replicas: int)
    requires replicas >= 1
    requires PolicyErrors(MergedPolicy(global, component)) == []
    ensures var s := RolloutSteps(EffectiveStrategy(force, useRolling, global, component), replicas);
            s != Steps(0, 0) && s.surge >= 0 && 0 <= s.unavailable <= replicas
  {
    StepsInRange(EffectiveStrategy(force, useRolling, global, component), replicas);
    if force {
      AllPercent();
      PercentProduct(100, replicas);
    } else if useRolling {
      AdmittedIffProgress(global, component, replicas);
    }
  }

  lemma AllPercent()
    ensures PercentOf("100%") == Some(100)
  {
    assert "100%"[..3] == "100";
    assert "100"[..2] == "10";
    assert "10"[..1] == "1";
    assert "1"[..0] == "";
    assert DigitsValue("1") == 1;
    assert DigitsValue("10") == 10;
    assert DigitsValue("100") == 100;
  }

  // ---- what the steps amount to ---------------------------------------------------------------

  /** The policy in force under rolling updates: the component's amounts, then the global ones, then (1, 0). */
  lemma EffectivePolicy(global: Option<Policy>, component: Option<Policy>)
    ensures var s := EffectiveStrategy(false, true, global, component);
            && s.RollingUpdate? && s.policy.Some?
            && s.policy.value.maxSurge == (if component.Some? && component.value.maxSurge.Some? then component.value.maxSurge
                                           else if global.Some? && global.value.maxSurge.Some? then global.value.maxSurge
                                           else Some(IntVal(1)))
            && s.policy.value.maxUnavailable ==
               (if component.Some? && component.value.maxUnavailable.Some? then component.value.maxUnavailable
                else if global.Some? && global.value.maxUnavailable.Some? then global.value.maxUnavailable
                else Some(IntVal(0)))
  {
  }

  /** Strings that are no percentage. */
  predicate Malformed(a: Amount) { a.StrVal? && (a.s == "" || a.s[|a.s| - 1] != '%' || Atoi(a.s[..|a.s| - 1]) == None) }

  /** A percentage of surge is rounded up, a count stands as it is, anything else is one. */
  lemma SurgeMeans(ru: Policy, r: nat, p: nat)
    requires p <= INT64_MAX
    ensures var s := RolloutSteps(RollingUpdate(Some(ru)), r).surge;
            && (ru.maxSurge == Some(Percent(p)) ==> 100 * (s - 1) < p * r <= 100 * s)
            && (ru.maxSurge.Some? && ru.maxSurge.value.IntVal? ==> s == if ru.maxSurge.value.n >= 0 then ru.maxSurge.value.n else 1)
            && (ru.maxSurge == None || Malformed(ru.maxSurge.value) ==> s == 1)
  {
    PercentReads(p);
    assert p * r >= 0;
  }

  /**
   A percentage of unavailable replicas is rounded down and capped at all of them; without surge a
   positive one is at least one. A count stands, capped. Anything else is none.
   */
  lemma UnavailableMeans(ru: Policy, r: nat, q: nat)
    requires q <= INT64_MAX
    ensures var t := RolloutSteps(RollingUpdate(Some(ru)), r);
            var u := t.unavailable;
            && (ru.maxUnavailable == Some(Percent(q)) ==>
                  if t.surge == 0 && q > 0 && q * r < 100 then u == Min(1, r)
                  else u <= r && 100 * u <= q * r && (u == r || q * r < 100 * (u + 1)))
            && (ru.maxUnavailable.Some? && ru.maxUnavailable.value.IntVal? ==>
                  u == if ru.maxUnavailable.value.n >= 0 then Min(ru.maxUnavailable.value.n, r) else 0)
            && (ru.maxUnavailable == None || Malformed(ru.maxUnavailable.value) ==> u == 0)
  {
    PercentReads(q);
    PercentScale(Percent(q).s);
    assert q * r >= 0;
  }

  /** Without rolling updates one replica more at a time; in force mode all of them at once, both ways. */
  lemma FixedSteps(useRolling: bool, global: Option<Policy>, component: Option<Policy>, r: nat)
    ensures RolloutSteps(EffectiveStrategy(false, false, global, component), r) == Steps(1, 0)
    ensures RolloutSteps(EffectiveStrategy(true, useRolling, global, component), r) == Steps(r, r)
  {
    AllPercent();
    assert FloorPercent(100, r) == r && CeilPercent(100, r) == r;
  }
}
