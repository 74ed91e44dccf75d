/** The parts of Go's strings and strconv packages that the operator relies on. */
module GoStrings {
  import opened Common

  const INT64_MIN := -0x8000_0000_0000_0000
  const INT64_MAX := 0x7FFF_FFFF_FFFF_FFFF

  predicate IsDigit(c: char) { '0' <= c <= '9' }

  predicate AllDigits(s: string) { forall i :: 0 <= i < |s| ==> IsDigit(s[i]) }

  function DigitsValue(s: string): (v: nat)
    requires AllDigits(s)
  {
    if s == [] then 0
    else DigitsValue(s[..|s| - 1]) * 10 + (s[|s| - 1] as int - '0' as int)
  }

  /** strconv.Atoi on a 64-bit platform: an optional sign, then digits only, then a range check. */
  function Atoi(s: string): (v: Option<int>)
  {
    var signed := s != "" && (s[0] == '-' || s[0] == '+');
    var body := if signed then s[1..] else s;
    if body == "" || !AllDigits(body) then None
    else
      var n: int := DigitsValue(body);
      var v: int := if signed && s[0] == '-' then -n else n;
      if INT64_MIN <= v <= INT64_MAX then Some(v) else None
  }

  function DigitChar(d: nat): (c: char)
    requires d < 10
    ensures IsDigit(c) && c as int - '0' as int == d
  {
    ('0' as int + d) as char
  }

  /** strconv.Itoa on a non-negative number. */
  function Itoa(n: nat): (s: string)
    ensures s != "" && AllDigits(s)
  {
    if n < 10 then [DigitChar(n)] else Itoa(n / 10) + [DigitChar(n % 10)]
  }

  lemma {:induction false} ItoaValue(n: nat)
    ensures DigitsValue(Itoa(n)) == n
  {
    var s := Itoa(n);
    if n < 10 {
      assert s[..|s| - 1] == [];
    } else {
      ItoaValue(n / 10);
      assert s[..|s| - 1] == Itoa(n / 10);
    }
  }

  /** Printing a non-negative number and parsing it back is the identity. */
  lemma AtoiOfItoa(n: nat)
    requires n <= INT64_MAX
    ensures Atoi(Itoa(n)) == Some(n)
  {
    ItoaValue(n);
    assert IsDigit(Itoa(n)[0]);
  }

  /** What is read as a number: digits, alone or behind one sign, of a value within 64 bits; nothing else. */
  lemma AtoiReads(sign: string, digits: string)
    requires sign == "" || sign == "+" || sign == "-"
    requires digits != "" && AllDigits(digits)
    ensures var v: int := if sign == "-" then 0 - DigitsValue(digits) else DigitsValue(digits);
            Atoi(sign + digits) ==
            if -0x8000_0000_0000_0000 <= v <= 0x7FFF_FFFF_FFFF_FFFF then Some(v) else None
  {
    assert IsDigit(digits[0]);
    if sign == "" { assert sign + digits == digits; } else { assert (sign + digits)[1..] == digits; }
  }

  lemma AtoiRefuses(s: string)
    requires forall sign, digits :: sign in {"", "+", "-"} && s == sign + digits ==> digits == "" || !AllDigits(digits)
    ensures Atoi(s) == None
  {
    assert s == "" + s;
    if s != "" && (s[0] == '-' || s[0] == '+') {
      assert s == [s[0]] + s[1..];
      assert [s[0]] in {"", "+", "-"};
    }
  }

  predicate HasPrefix(s: string, prefix: string) { prefix <= s }

  /** strings.Split on a one-character separator: always at least one part. */
  function Split(s: string, sep: char): (parts: seq<string>)
    ensures |parts| >= 1
  {
    if s == "" then [""]
    else if s[0] == sep then [""] + Split(s[1..], sep)
    else
      var rest := Split(s[1..], sep);
      [[s[0]] + rest[0]] + rest[1..]
  }

  function Join(parts: seq<string>, sep: string): string
  {
    if parts == [] then "" else if |parts| == 1 then parts[0] else parts[0] + sep + Join(parts[1..], sep)
  }

  lemma JoinSnoc(a: seq<string>, b: seq<string>, sep: string)
    requires |a| == 1 && |b| >= 1
    ensures Join((a + b)[..|b|], sep) == if |b| == 1 then a[0] else a[0] + sep + Join(b[..|b| - 1], sep)
  {
    assert (a + b)[..|b|] == a + b[..|b| - 1];
    assert |b| > 1 ==> (a + b[..|b| - 1])[1..] == b[..|b| - 1];
  }

  lemma JoinHead(c: char, parts: seq<string>, sep: string)
    requires |parts| >= 1
    ensures Join([[c] + parts[0]] + parts[1..], sep) == [c] + Join(parts, sep)
  {
    assert ([[c] + parts[0]] + parts[1..])[1..] == parts[1..];
  }

  /** The parts are those of `s` cut at every separator, seen from the end. */
  predicate CutAtLast(s: string, parts: seq<string>, sep: char)
    requires |parts| >= 1
  {
    && (|parts| >= 2 <==> sep in s)
    && sep !in parts[|parts| - 1]
    && (|parts| >= 2 ==> s == Join(parts[..|parts| - 1], [sep]) + [sep] + parts[|parts| - 1])
    && (|parts| == 1 ==> parts == [s])
  }

  lemma CutAtSeparator(s: string, rest: seq<string>, sep: char)
    requires s != "" && s[0] == sep && |rest| >= 1 && CutAtLast(s[1..], rest, sep)
    ensures CutAtLast(s, [""] + rest, sep)
  {
    hide Join;
    JoinSnoc([""], rest, [sep]);
    var parts, last := [""] + rest, rest[|rest| - 1];
    var front := Join(parts[..|rest|], [sep]);
    assert |parts| == |rest| + 1 && parts[|parts| - 1] == last;
    assert s == [sep] + s[1..];
    assert sep in s;
    if |rest| == 1 {
      assert s == front + [sep] + last;
    } else {
      assert s == front + [sep] + last by {
        var j := Join(rest[..|rest| - 1], [sep]);
        assert front == [sep] + j && s[1..] == j + [sep] + last;
      }
    }
  }

  lemma CutAfterHead(s: string, rest: seq<string>, sep: char)
    requires s != "" && s[0] != sep && |rest| >= 1 && CutAtLast(s[1..], rest, sep)
    ensures CutAtLast(s, [[s[0]] + rest[0]] + rest[1..], sep)
  {
    hide Join;
    var parts := [[s[0]] + rest[0]] + rest[1..];
    assert s == [s[0]] + s[1..];
    if |rest| >= 2 {
      JoinHead(s[0], rest[..|rest| - 1], [sep]);
      assert parts[..|parts| - 1] == [[s[0]] + rest[0]] + rest[..|rest| - 1][1..];
    }
  }

  /** Splitting cuts at every separator, so the last part is what follows the last one. */
  lemma {:induction false} SplitLast(s: string, sep: char)
    ensures CutAtLast(s, Split(s, sep), sep)
  {
    if s != "" {
      hide CutAtLast;
      SplitLast(s[1..], sep);
      if s[0] == sep { CutAtSeparator(s, Split(s[1..], sep), sep); } else { CutAfterHead(s, Split(s[1..], sep), sep); }
    }
  }
}
