/**
 The pattern-based redactor: five passes, each replacing the matches its
 validator accepts by a bracketed marker.  The regular-expression engine and
 the IPv4 validator are parameters; whatever they answer, no social security
 number is left, and no later pass can bring one back.
 */
module Redactor {
  import opened Prelude
  import opened Regex
  import Luhn

  datatype Check = Always | LuhnCheck | Ipv4Check

  datatype Pattern = Pattern(re: Re, category: string, check: Check, tag: string)

  // ---- the pattern table ----

  const D := One(DIGITS)
  const GAP := Maybe(One(" -"))
  const DOT := One(".")

  const EMAIL := Chain([
    Edge, AtLeast(One(LOWER + UPPER + DIGITS + "._%+-"), 1), One("@"),
    AtLeast(One(LOWER + UPPER + DIGITS + ".-"), 1), DOT, AtLeast(One(LOWER + UPPER), 2), Edge])

  const SSN := Chain([Edge, Times(D, 3, 3), One("-"), Times(D, 2, 2), One("-"), Times(D, 4, 4), Edge])

  const FOURS := Chain([GAP, Times(D, 4, 4), GAP, Times(D, 4, 4), GAP, Times(D, 4, 4)])

  const VISA := Chain([One("4"), Times(D, 3, 3), FOURS])

  const MASTERCARD := Chain([One("5"), One("12345"), Times(D, 2, 2), FOURS])

  const MASTERCARD_2 := Cat(
    Alt(Chain([One("2"), One("2"), Alt(Cat(One("2"), One("123456789")), Cat(One("3456789"), D))]),
        Alt(Chain([One("2"), One("3456"), Times(D, 2, 2)]),
            Chain([One("2"), One("7"), Alt(Cat(One("01"), D), Cat(One("2"), One("0")))]))),
    FOURS)

  const AMEX := Chain([One("3"), One("47"), Times(D, 2, 2), GAP, Times(D, 6, 6), GAP, Times(D, 5, 5)])

  const CARD := Chain([Edge, Alt(VISA, Alt(MASTERCARD, Alt(MASTERCARD_2, AMEX))), Edge])

  const PHONE_GAP := Maybe(One("-. \t\n\r\U{000C}"))

  const LOCAL_PHONE := Chain([
    Maybe(One("(")), One("23456789"), Times(D, 2, 2), Maybe(One(")")), PHONE_GAP,
    Times(D, 3, 3), PHONE_GAP, Times(D, 4, 4), Edge])

  const INTERNATIONAL_PHONE := Chain([One("+"), One("1"), PHONE_GAP, LOCAL_PHONE])

  const PHONE := Alt(INTERNATIONAL_PHONE, Cat(Edge, LOCAL_PHONE))

  const OCTET := Times(D, 1, 3)

  const IPV4 := Chain([Edge, OCTET, DOT, OCTET, DOT, OCTET, DOT, OCTET, Edge])

  const PATTERNS := [
    Pattern(EMAIL, "EMAIL", Always, "CC6.1"),
    Pattern(SSN, "SSN", Always, "CC6.1"),
    Pattern(CARD, "CC_NUMBER", LuhnCheck, "CC6.1"),
    Pattern(PHONE, "PHONE", Always, "CC6.1"),
    Pattern(IPV4, "IP_ADDRESS", Ipv4Check, "CC6.1")]

  /** `redactionMarker`. */
  function Marker(p: Pattern): string {
    "[REDACTED:" + p.category + ":" + p.tag + "]"
  }

  predicate Accepts(p: Pattern, ipv4: string -> bool, m: string) {
    match p.check
    case Always => true
    case LuhnCheck => Luhn.Valid(m)
    case Ipv4Check => ipv4(m)
  }

  // ---- one pass ----

  /** The text with every span replaced by the marker. */
  function Replaced(s: string, ms: seq<Span>, marker: string): string
    requires Ordered(s, ms)
    decreases |ms|
  {
    if ms == [] then s
    else
      var m := Last(ms);
      Replaced(s[..m.lo], ms[..|ms| - 1], marker) + marker + s[m.hi..]
  }

  /** Of the first `k` spans, those whose text the validator accepts. */
  function Kept(p: Pattern, ipv4: string -> bool, s: string, ms: seq<Span>, k: nat): (r: seq<Span>)
    requires Ordered(s, ms) && k <= |ms|
    ensures Ordered(s[..Cut(ms, k)], r)
    decreases k
  {
    if k == 0 then []
    else
      var r := Kept(p, ipv4, s, ms, k - 1);
      assert k > 1 ==> ms[k - 2].hi <= ms[k - 1].lo;
      if Accepts(p, ipv4, s[ms[k - 1].lo..ms[k - 1].hi]) then r + [ms[k - 1]] else r
  }

  /** Where the text between match `k - 1` and match `k` begins. */
  function Cut(ms: seq<Span>, k: nat): nat
    requires k <= |ms|
  {
    if k == 0 then 0 else ms[k - 1].hi
  }

  lemma ReplacedExtends(s: string, n: nat, n': nat, ms: seq<Span>, marker: string)
    requires n <= n' <= |s| && Ordered(s[..n], ms) && Ordered(s[..n'], ms)
    ensures Replaced(s[..n'], ms, marker) == Replaced(s[..n], ms, marker) + s[n..n']
  {
    if ms != [] {
      var m := Last(ms);
      assert s[..n'][..m.lo] == s[..n][..m.lo];
      assert s[..n'][m.hi..] == s[..n][m.hi..] + s[n..n'];
    } else {
      assert s[..n'] == s[..n] + s[n..n'];
    }
  }

  lemma AppendSpan(s: string, m: Span, kept: seq<Span>, marker: string)
    requires m.lo <= m.hi <= |s| && Ordered(s[..m.lo], kept)
    ensures Ordered(s[..m.hi], kept + [m])
    ensures Replaced(s[..m.hi], kept + [m], marker) == Replaced(s[..m.lo], kept, marker) + marker
  {
    assert (kept + [m])[..|kept|] == kept;
    assert s[..m.hi][..m.lo] == s[..m.lo] && s[..m.hi][m.hi..] == "";
  }

  /** The text up to a cut, rewritten. */
  ghost function Upto(p: Pattern, ipv4: string -> bool, s: string, ms: seq<Span>, k: nat): string
    requires Ordered(s, ms) && k <= |ms|
  {
    Replaced(s[..Cut(ms, k)], Kept(p, ipv4, s, ms, k), Marker(p))
  }

  lemma AcceptStep(s: string, cut: nat, m: Span, r: seq<Span>, marker: string)
    requires cut <= m.lo <= m.hi <= |s| && Ordered(s[..cut], r)
    ensures Ordered(s[..m.hi], r + [m])
    ensures Replaced(s[..m.hi], r + [m], marker) == Replaced(s[..cut], r, marker) + s[cut..m.lo] + marker
  {
    ReplacedExtends(s, cut, m.lo, r, marker);
    AppendSpan(s, m, r, marker);
  }

  lemma SplitTail(x: string, s: string, i: nat, j: nat, k: nat)
    requires i <= j <= k <= |s|
    ensures x + s[i..k] == x + s[i..j] + s[j..k]
  {
    assert s[i..k] == s[i..j] + s[j..k];
  }

  lemma RejectStep(s: string, cut: nat, m: Span, r: seq<Span>, marker: string)
    requires cut <= m.lo <= m.hi <= |s| && Ordered(s[..cut], r)
    ensures Ordered(s[..m.hi], r)
    ensures Replaced(s[..m.hi], r, marker) == Replaced(s[..cut], r, marker) + s[cut..m.lo] + s[m.lo..m.hi]
  {
    var x := Replaced(s[..cut], r, marker);
    ReplacedExtends(s, cut, m.hi, r, marker);
    SplitTail(x, s, cut, m.lo, m.hi);
  }

  lemma UptoNext(p: Pattern, ipv4: string -> bool, s: string, ms: seq<Span>, k: nat)
    requires Ordered(s, ms) && k < |ms|
    ensures var m := ms[k];
            Upto(p, ipv4, s, ms, k + 1)
            == Upto(p, ipv4, s, ms, k) + s[Cut(ms, k)..m.lo]
               + (if Accepts(p, ipv4, s[m.lo..m.hi]) then Marker(p) else s[m.lo..m.hi])
  {
    var m, r := ms[k], Kept(p, ipv4, s, ms, k);
    assert k > 0 ==> ms[k - 1].hi <= ms[k].lo;
    if Accepts(p, ipv4, s[m.lo..m.hi]) {
      AcceptStep(s, Cut(ms, k), m, r, Marker(p));
    } else {
      RejectStep(s, Cut(ms, k), m, r, Marker(p));
    }
  }

  /** One pass: the accepted matches are replaced. */
  ghost function Pass(p: Pattern, ipv4: string -> bool, s: string, ms: seq<Span>): string
    requires Ordered(s, ms)
  {
    Replaced(s, Kept(p, ipv4, s, ms, |ms|), Marker(p))
  }

  lemma UptoEnd(p: Pattern, ipv4: string -> bool, s: string, ms: seq<Span>)
    requires Ordered(s, ms)
    ensures Upto(p, ipv4, s, ms, |ms|) + s[Cut(ms, |ms|)..] == Pass(p, ipv4, s, ms)
  {
    assert s[..|s|] == s;
    ReplacedExtends(s, Cut(ms, |ms|), |s|, Kept(p, ipv4, s, ms, |ms|), Marker(p));
  }

  /** `ReplaceAllStringFunc`: copies the text between the matches and the matches that are rejected. */
  method ReplaceAll(p: Pattern, ipv4: string -> bool, s: string, ms: seq<Span>) returns (out: string, hit: bool)
    requires Ordered(s, ms)
    ensures out == Pass(p, ipv4, s, ms)
    ensures hit == (Kept(p, ipv4, s, ms, |ms|) != [])
  {
    out, hit := "", false;
    var cut := 0;
    for k := 0 to |ms|
      invariant cut == Cut(ms, k) && out == Upto(p, ipv4, s, ms, k)
      invariant hit == (Kept(p, ipv4, s, ms, k) != [])
    {
      UptoNext(p, ipv4, s, ms, k);
      var text := s[ms[k].lo..ms[k].hi];
      var accepted := Accepts(p, ipv4, text);
      out := out + s[cut..ms[k].lo] + (if accepted then Marker(p) else text);
      hit, cut := hit || accepted, ms[k].hi;
    }
    UptoEnd(p, ipv4, s, ms);
    out := out + s[cut..];
  }

  // ---- what a pass does to each match ----

  /** The text up to the end of match `k - 1`: what `valid` accepts becomes the marker, all else is copied. */
  function Rewritten(s: string, ms: seq<Span>, valid: string -> bool, marker: string, k: nat): string
    requires Ordered(s, ms) && k <= |ms|
    decreases k
  {
    if k == 0 then ""
    else
      var m := ms[k - 1];
      assert k > 1 ==> ms[k - 2].hi <= m.lo;
      Rewritten(s, ms, valid, marker, k - 1) + s[Cut(ms, k - 1)..m.lo]
      + (if valid(s[m.lo..m.hi]) then marker else s[m.lo..m.hi])
  }

  /** The whole text, rewritten. */
  function RewriteAll(s: string, ms: seq<Span>, valid: string -> bool, marker: string): string
    requires Ordered(s, ms)
  {
    Rewritten(s, ms, valid, marker, |ms|) + s[Cut(ms, |ms|)..]
  }

  /** The text of match `j` is accepted. */
  predicate ValidAt(s: string, ms: seq<Span>, valid: string -> bool, j: nat)
    requires Ordered(s, ms) && j < |ms|
  {
    valid(s[ms[j].lo..ms[j].hi])
  }

  /** Some match is accepted. */
  predicate SomeValid(s: string, ms: seq<Span>, valid: string -> bool)
    requires Ordered(s, ms)
  {
    exists j | 0 <= j < |ms| :: ValidAt(s, ms, valid, j)
  }

  /** The validator of a pattern, as a test on texts. */
  ghost predicate Validates(p: Pattern, ipv4: string -> bool, valid: string -> bool) {
    forall x :: Accepts(p, ipv4, x) == valid(x)
  }

  lemma RewrittenNext(s: string, ms: seq<Span>, valid: string -> bool, marker: string, k: nat)
    requires Ordered(s, ms) && k < |ms|
    ensures Cut(ms, k) <= ms[k].lo <= ms[k].hi <= |s|
    ensures var m := ms[k];
            Rewritten(s, ms, valid, marker, k + 1)
            == Rewritten(s, ms, valid, marker, k) + s[Cut(ms, k)..m.lo]
               + (if valid(s[m.lo..m.hi]) then marker else s[m.lo..m.hi])
  {
    assert k > 0 ==> ms[k - 1].hi <= ms[k].lo;
  }

  lemma UptoStart(p: Pattern, ipv4: string -> bool, s: string, ms: seq<Span>)
    requires Ordered(s, ms)
    ensures Upto(p, ipv4, s, ms, 0) == ""
  {
    assert s[..0] == "";
  }

  lemma NextRewrites(p: Pattern, ipv4: string -> bool, s: string, ms: seq<Span>, valid: string -> bool, k: nat)
    requires Ordered(s, ms) && k < |ms| && Validates(p, ipv4, valid)
    requires Upto(p, ipv4, s, ms, k) == Rewritten(s, ms, valid, Marker(p), k)
    ensures Upto(p, ipv4, s, ms, k + 1) == Rewritten(s, ms, valid, Marker(p), k + 1)
  {
    UptoNext(p, ipv4, s, ms, k);
    RewrittenNext(s, ms, valid, Marker(p), k);
    assert Accepts(p, ipv4, s[ms[k].lo..ms[k].hi]) == valid(s[ms[k].lo..ms[k].hi]);
  }

  lemma {:induction false} UptoRewrites(p: Pattern, ipv4: string -> bool, s: string, ms: seq<Span>, valid: string -> bool, k: nat)
    requires Ordered(s, ms) && k <= |ms| && Validates(p, ipv4, valid)
    ensures Upto(p, ipv4, s, ms, k) == Rewritten(s, ms, valid, Marker(p), k)
    decreases k
  {
    if k == 0 {
      UptoStart(p, ipv4, s, ms);
    } else {
      UptoRewrites(p, ipv4, s, ms, valid, k - 1);
      NextRewrites(p, ipv4, s, ms, valid, k - 1);
    }
  }

  lemma {:induction false} KeptSome(p: Pattern, ipv4: string -> bool, s: string, ms: seq<Span>, valid: string -> bool, k: nat)
    requires Ordered(s, ms) && k <= |ms| && Validates(p, ipv4, valid)
    ensures Kept(p, ipv4, s, ms, k) != [] <==> exists j | 0 <= j < k :: ValidAt(s, ms, valid, j)
    decreases k
  {
    if k > 0 {
      var m := ms[k - 1];
      KeptSome(p, ipv4, s, ms, valid, k - 1);
      assert Accepts(p, ipv4, s[m.lo..m.hi]) == ValidAt(s, ms, valid, k - 1);
    }
  }

  /** A pass replaces exactly the matches its validator accepts, and hits if there is one. */
  lemma {:induction false} PassRewrites(p: Pattern, ipv4: string -> bool, s: string, ms: seq<Span>, valid: string -> bool)
    requires Ordered(s, ms) && Validates(p, ipv4, valid)
    ensures Pass(p, ipv4, s, ms) == RewriteAll(s, ms, valid, Marker(p))
    ensures Kept(p, ipv4, s, ms, |ms|) != [] <==> SomeValid(s, ms, valid)
  {
    UptoRewrites(p, ipv4, s, ms, valid, |ms|);
    KeptSome(p, ipv4, s, ms, valid, |ms|);
    UptoEnd(p, ipv4, s, ms);
  }
}
