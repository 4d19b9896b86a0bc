/** The test for host addresses: exactly the dotted quads of numbers up to 255 in their usual spelling. */
module Ipv4 {
  import opened Prelude
  import opened Extractor
  import Regex
  import Redactor
  import Patterns

  /** Where the first part ends. */
  function DotEnd(s: string): (n: nat)
    ensures n <= |s| && (n < |s| ==> s[n] == '.') && forall k | 0 <= k < n :: s[k] != '.'
  {
    if s == "" || s[0] == '.' then 0 else 1 + DotEnd(s[1..])
  }

  /** `strings.Split` at dots. */
  function Parts(s: string): seq<string> {
    var n := DotEnd(s);
    if n == |s| then [s] else [s[..n]] + Parts(s[n + 1..])
  }

  predicate AllDigits(p: string) { forall k | 0 <= k < |p| :: IsDigit(p[k]) }

  /** `strconv.Atoi`: an optional sign and digits; a number that does not fit counts as too large. */
  function Atoi(p: string): Option<int> {
    var digits := if p != "" && (p[0] == '+' || p[0] == '-') then p[1..] else p;
    if digits == "" || !AllDigits(digits) then None
    else Some(if p[0] == '-' then -Value(digits) else Value(digits))
  }

  /** One of the four numbers: no leading zero, at most 255. */
  predicate ValidPart(p: string) {
    p != "" && (|p| == 1 || p[0] != '0') && Atoi(p).Some? && 0 <= Atoi(p).value <= 255
  }

  predicate Valid(s: string) {
    |Parts(s)| == 4 && forall k | 0 <= k < 4 :: ValidPart(Parts(s)[k])
  }

  /** `validateIPv4`. */
  method ValidateIPv4(s: string) returns (ok: bool)
    ensures ok == Valid(s)
  {
    var parts := Parts(s);
    if |parts| != 4 { return false; }
    for k := 0 to |parts|
      invariant forall i | 0 <= i < k :: ValidPart(parts[i])
    {
      var p := parts[k];
      if |p| == 0 { return false; }
      if |p| > 1 && p[0] == '0' { return false; }
      var n := Atoi(p);
      if n.None? || n.value < 0 || n.value > 255 { return false; }
    }
    return true;
  }

  // ---- spelling ----

  lemma {:induction false} ValuePositive(p: string)
    requires p != "" && AllDigits(p)
    ensures Value(p) >= 0 && (p[0] != '0' ==> Value(p) >= 1)
  {
    if |p| > 1 {
      assert p[..|p| - 1][0] == p[0];
      ValuePositive(p[..|p| - 1]);
    } else {
      assert p[..0] == "";
    }
  }

  /** A number without a leading zero is spelled in one way. */
  lemma {:induction false} SpelledOnce(p: string)
    requires p != "" && AllDigits(p) && (|p| == 1 || p[0] != '0')
    ensures Value(p) >= 0 && Itoa(Value(p)) == p
  {
    ValuePositive(p);
    if |p| > 1 {
      var init := p[..|p| - 1];
      assert init[0] == p[0];
      ValuePositive(init);
      SpelledOnce(init);
      assert Value(p) / 10 == Value(init) && Value(p) % 10 == Last(p) as int - '0' as int;
      assert p == init + [Last(p)];
    } else {
      assert p[..0] == "" && p == [Last(p)];
    }
  }

  lemma {:induction false} ItoaLeads(n: nat)
    ensures Itoa(n) != "" && AllDigits(Itoa(n)) && (|Itoa(n)| == 1 || Itoa(n)[0] != '0')
    ensures n > 0 ==> Itoa(n)[0] != '0'
  {
    ItoaValue(n);
    if n >= 10 { ItoaLeads(n / 10); }
  }

  /** Of digits, the valid parts are the numbers up to 255. */
  lemma PartExactly(p: string)
    requires AllDigits(p)
    ensures ValidPart(p) <==> exists n: nat :: n <= 255 && p == Itoa(n)
  {
    if ValidPart(p) {
      SpelledOnce(p);
      assert p == Itoa(Value(p));
    }
    if n: nat :| n <= 255 && p == Itoa(n) {
      ItoaLeads(n);
      ItoaValue(n);
    }
  }

  // ---- four parts ----

  function Dotted(a: string, b: string, c: string, d: string): string {
    Join(a, Join(b, Join(c, d)))
  }

  function Join(a: string, rest: string): string { a + "." + rest }

  lemma {:induction false} FirstPart(a: string, rest: string)
    requires forall k | 0 <= k < |a| :: a[k] != '.'
    ensures Parts(Join(a, rest)) == [a] + Parts(rest)
  {
    var s := Join(a, rest);
    assert s[|a|] == '.' && forall k | 0 <= k < |a| :: s[k] == a[k];
    assert DotEnd(s) == |a|;
    assert s[..|a|] == a && s[|a| + 1..] == rest;
  }

  lemma OnePart(a: string)
    requires forall k | 0 <= k < |a| :: a[k] != '.'
    ensures Parts(a) == [a]
  {
  }

  lemma Prepended(a: string, rest: string, ps: seq<string>)
    requires AllDigits(a) && Parts(rest) == ps
    ensures Parts(Join(a, rest)) == [a] + ps
  {
    FirstPart(a, rest);
  }

  lemma DottedParts(a: string, b: string, c: string, d: string)
    requires AllDigits(a) && AllDigits(b) && AllDigits(c) && AllDigits(d)
    ensures Parts(Dotted(a, b, c, d)) == [a, b, c, d]
  {
    OnePart(d);
    Prepended(c, d, [d]);
    assert [c] + [d] == [c, d];
    Prepended(b, Join(c, d), [c, d]);
    assert [b] + [c, d] == [b, c, d];
    Prepended(a, Join(b, Join(c, d)), [b, c, d]);
    assert [a] + [b, c, d] == [a, b, c, d];
  }

  /** Joining the parts with dots gives the text back. */
  lemma SplitOff(s: string)
    requires |Parts(s)| > 1
    ensures |Parts(s)[0]| + 1 <= |s| && s == Join(Parts(s)[0], s[|Parts(s)[0]| + 1..])
    ensures Parts(s)[1..] == Parts(s[|Parts(s)[0]| + 1..])
  {
    var n := DotEnd(s);
    assert s == s[..n] + "." + s[n + 1..];
  }

  lemma LastPart(s: string)
    requires |Parts(s)| == 1
    ensures Parts(s)[0] == s
  {
    var n := DotEnd(s);
    if n < |s| { SomePart(s[n + 1..]); }
  }

  lemma SomePart(s: string)
    ensures Parts(s) != []
  {
  }

  lemma FourParts(s: string)
    requires |Parts(s)| == 4
    ensures s == Dotted(Parts(s)[0], Parts(s)[1], Parts(s)[2], Parts(s)[3])
  {
    SplitOff(s);
    var s1 := s[|Parts(s)[0]| + 1..];
    SplitOff(s1);
    var s2 := s1[|Parts(s1)[0]| + 1..];
    SplitOff(s2);
    var s3 := s2[|Parts(s2)[0]| + 1..];
    LastPart(s3);
  }

  predicate DigitsAndDots(s: string) { forall k | 0 <= k < |s| :: IsDigit(s[k]) || s[k] == '.' }

  lemma {:induction false} PartsAreDigits(s: string)
    requires DigitsAndDots(s)
    ensures forall k | 0 <= k < |Parts(s)| :: AllDigits(Parts(s)[k])
  {
    var n := DotEnd(s);
    if n < |s| { PartsAreDigits(s[n + 1..]); }
  }

  /** Some number up to 255 is spelled like this. */
  ghost predicate SmallNumber(p: string) { exists n: nat :: n <= 255 && p == Itoa(n) }

  ghost predicate Quad(s: string) {
    exists a, b, c, d ::
      s == Dotted(a, b, c, d) && SmallNumber(a) && SmallNumber(b) && SmallNumber(c) && SmallNumber(d)
  }

  lemma SmallIsDigits(p: string)
    requires SmallNumber(p)
    ensures AllDigits(p) && ValidPart(p)
  {
    var n: nat :| n <= 255 && p == Itoa(n);
    ItoaLeads(n);
    PartExactly(p);
  }

  lemma ValidIsQuad(s: string)
    requires DigitsAndDots(s) && Valid(s)
    ensures Quad(s)
  {
    var p := Parts(s);
    PartsAreDigits(s);
    FourParts(s);
    forall k | 0 <= k < 4 ensures SmallNumber(p[k]) { PartExactly(p[k]); }
  }

  lemma QuadIsValid(a: string, b: string, c: string, d: string)
    requires SmallNumber(a) && SmallNumber(b) && SmallNumber(c) && SmallNumber(d)
    ensures Valid(Dotted(a, b, c, d))
  {
    SmallIsDigits(a);
    SmallIsDigits(b);
    SmallIsDigits(c);
    SmallIsDigits(d);
    DottedParts(a, b, c, d);
  }

  /** What the expression for addresses can match is accepted exactly if it is four numbers up to 255 with dots between. */
  lemma {:induction false} Ipv4Exactly(s: string)
    requires DigitsAndDots(s)
    ensures Valid(s) <==> Quad(s)
  {
    if Valid(s) { ValidIsQuad(s); }
    if Quad(s) {
      var a, b, c, d :|
        s == Dotted(a, b, c, d) && SmallNumber(a) && SmallNumber(b) && SmallNumber(c) && SmallNumber(d);
      QuadIsValid(a, b, c, d);
    }
  }

  // ---- what the expression for addresses matches ----

  lemma {:induction false} OctetsText(s: string, i: nat, j: nat, n: nat)
    requires n > 0 && Patterns.Octets(s, i, j, n)
    ensures i <= j <= |s| && forall l | i <= l < j :: IsDigit(s[l]) || s[l] == '.'
    decreases n
  {
    var k: nat :| 1 <= k <= 3 && Patterns.OctetAt(s, i, k, j, n);
    forall l | i <= l < i + k ensures IsDigit(s[l]) {
      Patterns.DigitClasses(s[l]);
    }
    if n > 1 { OctetsText(s, i + k + 1, j, n - 1); }
  }

  /** A match of the pattern table's expression is accepted exactly if it is such a quad. */
  lemma {:induction false} MatchExactly(s: string, i: nat, j: nat)
    requires Regex.Matches(Redactor.IPV4, s, i, j)
    ensures Valid(s[i..j]) <==> Quad(s[i..j])
  {
    Patterns.Ipv4Pattern(s, i, j);
    OctetsText(s, i, j, 4);
    Ipv4Exactly(s[i..j]);
  }
}
