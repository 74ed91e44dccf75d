/** Volume claims of StatefulSets: which replica a claim belongs to, and which claims a scale-down deletes. */
module PvcNames {
  import opened Common
  import opened GoStrings

  const INT32_LIMIT := 0x8000_0000

  /** Conversion to a 32-bit integer keeps the low bits. */
  function ToInt32(v: int): int { (v + INT32_LIMIT) % 0x1_0000_0000 - INT32_LIMIT }

  /** What follows the prefix, as an ordinal; signs are accepted as the parser accepts them. */
  function OrdinalAfter(name: string, prefix: string): Option<int>
  {
    if !HasPrefix(name, prefix) then None
    else
      var v := Atoi(name[|prefix|..]);
      if v == None || v.value < 0 then None else Some(ToInt32(v.value))
  }

  function MatchOrdinal(name: string, prefixes: seq<string>): Option<int>
  {
    if prefixes == [] then None
    else
      var v := OrdinalAfter(name, prefixes[0]);
      if v.Some? then v else MatchOrdinal(name, prefixes[1..])
  }

  method MatchStatefulSetPvcOrdinal(name: string, prefixes: seq<string>) returns (r: Option<int>)
    ensures r == MatchOrdinal(name, prefixes)
  {
    for i := 0 to |prefixes|
      invariant MatchOrdinal(name, prefixes) == MatchOrdinal(name, prefixes[i..])
    {
      assert prefixes[i..][1..] == prefixes[i + 1..];
      var prefix := prefixes[i];
      if !HasPrefix(name, prefix) {
        continue;
      }
      var v := Atoi(name[|prefix|..]);
      if v == None || v.value < 0 {
        continue;
      }
      return Some(ToInt32(v.value));
    }
    return None;
  }

  function Prefix(template: string, sts: string): string { template + "-" + sts + "-" }

  function Prefixes(templates: seq<string>, sts: string): (ps: seq<string>)
    ensures |ps| == |templates| && forall i :: 0 <= i < |ps| ==> ps[i] == Prefix(templates[i], sts)
  {
    seq(|templates|, i requires 0 <= i < |templates| => Prefix(templates[i], sts))
  }

  function ClaimName(template: string, sts: string, ordinal: nat): string { Prefix(template, sts) + Itoa(ordinal) }

  // ---- parsing back ---------------------------------------------------------------------------------------------

  /** A string with a dash after its first character is no number. */
  lemma DashIsNoNumber(s: string, k: nat)
    requires 0 < k < |s| && s[k] == '-'
    ensures Atoi(s) == None
  {
    var signed := s[0] == '-' || s[0] == '+';
    var body := if signed then s[1..] else s;
    assert body[if signed then k - 1 else k] == '-';
  }

  /** A minus sign before a number gives that number only if it is zero. */
  lemma MinusIsNegative(n: int)
    requires 0 <= n < INT32_LIMIT
    ensures Atoi("-" + Itoa(n)) == Some(-n)
  {
    ItoaValue(n);
    assert ("-" + Itoa(n))[1..] == Itoa(n);
  }

  lemma PrefixTooLong(own: string, digits: string, prefix: string)
    requires AllDigits(digits) && prefix != "" && prefix[|prefix| - 1] == '-' && |prefix| > |own|
    ensures !HasPrefix(own + digits, prefix)
  {
    var name := own + digits;
    assert |prefix| <= |name| ==> name[|prefix| - 1] == digits[|prefix| - 1 - |own|];
  }

  /** No prefix reads another ordinal out of a claim's name. */
  lemma NoOtherReading(template: string, sts: string, n: nat, prefix: string)
    requires n < INT32_LIMIT && prefix != "" && prefix[|prefix| - 1] == '-'
    ensures OrdinalAfter(ClaimName(template, sts, n), prefix) in {None, Some(n)}
  {
    hide Atoi, AllDigits;
    var own, digits := Prefix(template, sts), Itoa(n);
    var name := own + digits;
    assert own[|own| - 1] == '-';
    if |prefix| > |own| {
      PrefixTooLong(own, digits, prefix);
      return;
    }
    var rest := own[|prefix|..] + digits;
    assert name[|prefix|..] == rest;
    if |prefix| == |own| {
      assert rest == digits;
      AtoiOfItoa(n);
    } else if |prefix| == |own| - 1 {
      assert rest == "-" + digits;
      MinusIsNegative(n);
    } else {
      DashIsNoNumber(rest, |own| - 1 - |prefix|);
    }
  }

  lemma {:induction false} MatchedByOne(name: string, prefixes: seq<string>, i: nat, n: int)
    requires i < |prefixes| && OrdinalAfter(name, prefixes[i]) == Some(n)
    requires forall j :: 0 <= j < |prefixes| ==> OrdinalAfter(name, prefixes[j]) in {None, Some(n)}
    ensures MatchOrdinal(name, prefixes) == Some(n)
  {
    hide OrdinalAfter;
    if i > 0 && OrdinalAfter(name, prefixes[0]) == None { MatchedByOne(name, prefixes[1..], i - 1, n); }
  }

  /** The name of a claim yields its ordinal, whichever templates are listed and tried first. */
  lemma ClaimParsesBack(templates: seq<string>, sts: string, i: nat, n: nat)
    requires i < |templates| && n < INT32_LIMIT
    ensures MatchOrdinal(ClaimName(templates[i], sts, n), Prefixes(templates, sts)) == Some(n)
  {
    hide Prefixes;
    var name, ps := ClaimName(templates[i], sts, n), Prefixes(templates, sts);
    AtoiOfItoa(n);
    assert name[|ps[i]|..] == Itoa(n);
    forall j | 0 <= j < |ps|
      ensures OrdinalAfter(name, ps[j]) in {None, Some(n)}
    {
      NoOtherReading(templates[i], sts, n, ps[j]);
    }
    MatchedByOne(name, ps, i, n);
  }

  // ---- deployment groups ----------------------------------------------------------------------------------------

  predicate AlphaNumeric(c: char) { IsDigit(c) || 'a' <= c <= 'z' }

  /** A DNS label, section 2.1 of RFC 1123, as every group name is: not empty, and without a dash at its end. */
  predicate DnsLabel(s: string)
  {
    && 0 < |s| <= 63 && AlphaNumeric(s[0]) && AlphaNumeric(s[|s| - 1])
    && forall i :: 0 <= i < |s| ==> AlphaNumeric(s[i]) || s[i] == '-'
  }

  /** A claim of a group's StatefulSet is never taken for one of the ungrouped StatefulSet, for one template name. */
  lemma GroupClaimIsNotMatched(template: string, sts: string, group: string, n: nat)
    requires group != ""
    ensures MatchOrdinal(ClaimName(template, sts + "-" + group, n), [Prefix(template, sts)]) == None
  {
    var name := ClaimName(template, sts + "-" + group, n);
    var rest := group + "-" + Itoa(n);
    assert name == Prefix(template, sts) + rest;
    assert name[|Prefix(template, sts)|..] == rest;
    assert rest[|group|] == '-';
    DashIsNoNumber(rest, |group|);
  }

  lemma {:induction false} MatchedIff(name: string, prefixes: seq<string>)
    ensures MatchOrdinal(name, prefixes).Some? <==> exists i :: 0 <= i < |prefixes| && OrdinalAfter(name, prefixes[i]).Some?
  {
    hide OrdinalAfter;
    if prefixes != [] {
      MatchedIff(name, prefixes[1..]);
      assert forall i :: 1 <= i < |prefixes| ==> prefixes[i] == prefixes[1..][i - 1];
    }
  }

  /** A prefix reads an ordinal out of a group's claim exactly when it is the whole of what comes before the ordinal. */
  lemma GroupReading(own: string, n: nat, prefix: string)
    requires n <= INT64_MAX && |own| >= 2 && own[|own| - 1] == '-' && own[|own| - 2] != '-'
    requires prefix != "" && prefix[|prefix| - 1] == '-'
    ensures OrdinalAfter(own + Itoa(n), prefix).Some? <==> prefix == own
  {
    hide Atoi, AllDigits;
    var digits := Itoa(n);
    var name := own + digits;
    if |prefix| > |own| {
      PrefixTooLong(own, digits, prefix);
      return;
    }
    assert name[..|prefix|] == own[..|prefix|];
    var rest := own[|prefix|..] + digits;
    assert name[|prefix|..] == rest;
    if |prefix| == |own| {
      assert rest == digits;
      AtoiOfItoa(n);
    } else if |prefix| == |own| - 1 {
      assert own[..|prefix|][|prefix| - 1] == own[|own| - 2];
    } else {
      DashIsNoNumber(rest, |own| - 1 - |prefix|);
    }
  }

  lemma SamePrefixIff(template: string, sts: string, own: string)
    ensures Prefix(template, sts) == own + "-" <==> template + "-" + sts == own
  {
    assert Prefix(template, sts) == (template + "-" + sts) + "-";
    assert (own + "-")[..|own|] == own;
    assert Prefix(template, sts)[..|template + "-" + sts|] == template + "-" + sts;
  }

  /**
   With any templates: the claim of a group is taken for one of the ungrouped StatefulSet exactly
   when some listed template spells out the group's template, name and group.
   */
  lemma GroupClaimMatchedIff(templates: seq<string>, template: string, sts: string, group: string, n: nat)
    requires group != "" && group[|group| - 1] != '-' && n <= INT64_MAX
    ensures MatchOrdinal(ClaimName(template, sts + "-" + group, n), Prefixes(templates, sts)).Some? <==>
            exists i :: 0 <= i < |templates| && templates[i] + "-" + sts == template + "-" + sts + "-" + group
  {
    var base := template + "-" + sts + "-" + group;
    var ps := Prefixes(templates, sts);
    assert Prefix(template, sts + "-" + group) == base + "-";
    var name := ClaimName(template, sts + "-" + group, n);
    assert name == (base + "-") + Itoa(n);
    assert base[|base| - 1] == group[|group| - 1];
    hide OrdinalAfter, Prefixes, ClaimName;
    MatchedIff(name, ps);
    forall i | 0 <= i < |ps|
      ensures OrdinalAfter(name, ps[i]).Some? <==> templates[i] + "-" + sts == base
    {
      GroupReading(base + "-", n, ps[i]);
      SamePrefixIff(templates[i], sts, base);
    }
  }

  /** It does happen: the claim of a group that reads as another template's ungrouped claim. */
  lemma GroupClaimCanBeMistaken()
    ensures DnsLabel("x-qn")
    ensures MatchOrdinal(ClaimName("data", "qn" + "-" + "x-qn", 7), Prefixes(["data", "data-qn-x"], "qn")) == Some(7)
  {
    assert ClaimName("data", "qn" + "-" + "x-qn", 7) == ClaimName("data-qn-x", "qn", 7);
    ClaimParsesBack(["data", "data-qn-x"], "qn", 1, 7);
  }

  // ---- scaling down -----------------------------------------------------------------------------------------------

  datatype Claim = Claim(name: string, terminating: bool)

  predicate Stale(c: Claim, prefixes: seq<string>, desired: int)
  {
    !c.terminating && MatchOrdinal(c.name, prefixes).Some? && MatchOrdinal(c.name, prefixes).value >= desired
  }

  function Kept(claims: seq<Claim>, prefixes: seq<string>, desired: int): seq<Claim>
  {
    if claims == [] then []
    else Kept(claims[..|claims| - 1], prefixes, desired)
         + (if Stale(claims[|claims| - 1], prefixes, desired) then [] else [claims[|claims| - 1]])
  }

  /** cleanupScaledDownStatefulSetPVCs: what is left of the listed claims. */
  method CleanupScaledDown(claims: seq<Claim>, templates: seq<string>, sts: string, desired: int)
    returns (left: seq<Claim>)
    ensures left == if templates == [] then claims else Kept(claims, Prefixes(templates, sts), desired)
  {
    if |templates| == 0 {
      return claims;
    }
    var prefixes := [];
    for i := 0 to |templates|
      invariant |prefixes| == i && forall j :: 0 <= j < i ==> prefixes[j] == Prefix(templates[j], sts)
    {
      prefixes := prefixes + [templates[i] + "-" + sts + "-"];
    }
    assert prefixes == Prefixes(templates, sts);
    left := [];
    for i := 0 to |claims|
      invariant left == Kept(claims[..i], prefixes, desired)
    {
      assert claims[..i + 1][..i] == claims[..i];
      var claim := claims[i];
      if claim.terminating {
        left := left + [claim];
        continue;
      }
      var ordinal := MatchStatefulSetPvcOrdinal(claim.name, prefixes);
      if ordinal == None || ordinal.value < desired {
        left := left + [claim];
      }
    }
    assert claims[..|claims|] == claims;
  }

  lemma {:induction false} KeptIff(claims: seq<Claim>, prefixes: seq<string>, desired: int, c: Claim)
    ensures c in Kept(claims, prefixes, desired) <==> c in claims && !Stale(c, prefixes, desired)
  {
    hide Stale;
    if claims != [] {
      KeptIff(claims[..|claims| - 1], prefixes, desired, c);
      assert claims == claims[..|claims| - 1] + [claims[|claims| - 1]];
    }
  }

  /** A scale-down removes the claim of a replica exactly when the replica is no longer wanted. */
  lemma ScaleDownDeletesExactly(claims: seq<Claim>, templates: seq<string>, sts: string, desired: int, i: nat, n: nat,
                                terminating: bool)
    requires i < |templates| && n < INT32_LIMIT
    ensures var c := Claim(ClaimName(templates[i], sts, n), terminating);
            c in Kept(claims, Prefixes(templates, sts), desired) <==> c in claims && (terminating || n < desired)
  {
    ClaimParsesBack(templates, sts, i, n);
    KeptIff(claims, Prefixes(templates, sts), desired, Claim(ClaimName(templates[i], sts, n), terminating));
  }

  // ---- ordinals beyond 32 bits --------------------------------------------------------------------------------------

  /** A claim's ordinal is read modulo 2^32, into the signed range. */
  lemma OrdinalWraps(template: string, sts: string, n: nat, k: nat)
    requires n <= INT64_MAX && -0x8000_0000 <= n - k * 0x1_0000_0000 < 0x8000_0000
    ensures MatchOrdinal(ClaimName(template, sts, n), [Prefix(template, sts)]) == Some(n - k * 0x1_0000_0000)
  {
    hide Atoi;
    var name, p := ClaimName(template, sts, n), Prefix(template, sts);
    AtoiOfItoa(n);
    assert name[|p|..] == Itoa(n);
    WrapBy(n, k);
    assert OrdinalAfter(name, p) == Some(ToInt32(n));
  }

  lemma WrapBy(n: nat, k: nat)
    requires -0x8000_0000 <= n - k * 0x1_0000_0000 < 0x8000_0000
    ensures ToInt32(n) == n - k * 0x1_0000_0000
  {
    var v := n - k * 0x1_0000_0000 + 0x8000_0000;
    assert n + 0x8000_0000 == k * 0x1_0000_0000 + v && 0 <= v < 0x1_0000_0000;
  }

  /** So a claim with an ordinal that wraps to a negative one outlives every scale-down. */
  lemma WrappedClaimIsKept(claims: seq<Claim>, template: string, sts: string, desired: nat, n: nat, terminating: bool)
    requires 0x8000_0000 <= n < 0x1_0000_0000
    ensures var c := Claim(ClaimName(template, sts, n), terminating);
            c in Kept(claims, Prefixes([template], sts), desired) <==> c in claims
  {
    OrdinalWraps(template, sts, n, 1);
    hide MatchOrdinal;
    assert Prefixes([template], sts) == [Prefix(template, sts)];
    KeptIff(claims, Prefixes([template], sts), desired, Claim(ClaimName(template, sts, n), terminating));
  }
}
