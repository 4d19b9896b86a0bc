/** `RegexRedactor.Redact` and what its result and its category list promise. */
module Redaction {
  import opened Prelude
  import opened Regex
  import opened Redactor
  import opened Cleanliness
  import Luhn

  /** The regular-expression engine: given an expression and a text, the matches it reports. */
  type Engine = (Re, string) -> seq<Span>

  /** The matches the engine reports for the redactor's patterns are in order and disjoint. */
  ghost predicate Orders(find: Engine, ps: seq<Pattern>) {
    forall k, s | 0 <= k < |ps| :: InOrder(find, ps[k], s)
  }

  predicate InOrder(find: Engine, p: Pattern, s: string) {
    Ordered(s, find(p.re, s))
  }

  /** They are what a leftmost search finds. */
  ghost predicate Searches(find: Engine, ps: seq<Pattern>) {
    Orders(find, ps) && forall k, s | 0 <= k < |ps| :: Search(find, ps[k], s)
  }

  ghost predicate Search(find: Engine, p: Pattern, s: string) {
    FoundAll(p.re, s, find(p.re, s))
  }

  /** One pass over a text. */
  ghost function PassOn(find: Engine, ps: seq<Pattern>, ipv4: string -> bool, s: string, k: nat): string
    requires Orders(find, ps) && k < |ps|
  {
    assert InOrder(find, ps[k], s);
    Pass(ps[k], ipv4, s, find(ps[k].re, s))
  }

  /** The text after the first `n` passes. */
  ghost function Text(find: Engine, ps: seq<Pattern>, ipv4: string -> bool, input: string, n: nat): string
    requires Orders(find, ps) && n <= |ps|
    decreases n
  {
    if n == 0 then input else PassOn(find, ps, ipv4, Text(find, ps, ipv4, input, n - 1), n - 1)
  }

  /** Pass `n` replaced something. */
  ghost predicate Hits(find: Engine, ps: seq<Pattern>, ipv4: string -> bool, input: string, n: nat)
    requires Orders(find, ps) && n < |ps|
  {
    var s := Text(find, ps, ipv4, input, n);
    var ms := find(ps[n].re, s);
    assert InOrder(find, ps[n], s);
    Kept(ps[n], ipv4, s, ms, |ms|) != []
  }

  // ---- the pattern table ----

  /** A pattern that cuts no word and leaves an inert marker. */
  predicate Tidy(p: Pattern) {
    StartsClean(p.re) && EndsClean(p.re) && Inert(Marker(p))
  }

  predicate AllTidy(ps: seq<Pattern>) {
    forall k | 0 <= k < |ps| :: Tidy(ps[k])
  }

  lemma InertMarker(p: Pattern)
    requires p.tag == "CC6.1" && forall k | 0 <= k < |p.category| :: !IsDigit(p.category[k])
    ensures Inert(Marker(p))
  {
    var m, c := Marker(p), |p.category|;
    assert m == "[REDACTED:" + p.category + ":CC6.1]";
    assert forall k | 0 <= k < 10 :: m[k] == "[REDACTED:"[k];
    assert forall k | 10 <= k < 10 + c :: m[k] == p.category[k - 10];
    assert forall k | 10 + c <= k < |m| :: m[k] == ":CC6.1]"[k - 10 - c];
  }

  lemma ChainTidy(rs: seq<Re>, category: string, check: Check)
    requires rs != [] && StartsClean(rs[0]) && EndsClean(Last(rs))
    requires forall k | 0 <= k < |category| :: !IsDigit(category[k])
    ensures Tidy(Pattern(Chain(rs), category, check, "CC6.1"))
  {
    ChainEdges(rs);
    InertMarker(Pattern(Chain(rs), category, check, "CC6.1"));
  }

  lemma AltEdges(a: Re, b: Re)
    requires StartsClean(a) && EndsClean(a) && StartsClean(b) && EndsClean(b)
    ensures StartsClean(Alt(a, b)) && EndsClean(Alt(a, b))
  {
  }

  lemma PhoneTidy()
    ensures Tidy(Pattern(PHONE, "PHONE", Always, "CC6.1"))
  {
    assert forall c | c in "+" :: c == '+';
    ChainEdges([One("+"), One("1"), PHONE_GAP, LOCAL_PHONE]);
    ChainEdges([
      Maybe(One("(")), One("23456789"), Times(D, 2, 2), Maybe(One(")")), PHONE_GAP,
      Times(D, 3, 3), PHONE_GAP, Times(D, 4, 4), Edge]);
    assert StartsClean(INTERNATIONAL_PHONE) && EndsClean(INTERNATIONAL_PHONE);
    AltEdges(INTERNATIONAL_PHONE, Cat(Edge, LOCAL_PHONE));
    InertMarker(Pattern(PHONE, "PHONE", Always, "CC6.1"));
  }

  /** All five patterns are tidy, and one of them takes every social security number. */
  lemma TableIsTidy()
    ensures AllTidy(PATTERNS)
    ensures PATTERNS[1].re == SSN && PATTERNS[1].check.Always?
  {
    ChainTidy([
      Edge, AtLeast(One(LOWER + UPPER + DIGITS + "._%+-"), 1), One("@"),
      AtLeast(One(LOWER + UPPER + DIGITS + ".-"), 1), DOT, AtLeast(One(LOWER + UPPER), 2), Edge], "EMAIL", Always);
    ChainTidy([Edge, Times(D, 3, 3), One("-"), Times(D, 2, 2), One("-"), Times(D, 4, 4), Edge], "SSN", Always);
    ChainTidy([Edge, Alt(VISA, Alt(MASTERCARD, Alt(MASTERCARD_2, AMEX))), Edge], "CC_NUMBER", LuhnCheck);
    PhoneTidy();
    ChainTidy([Edge, OCTET, DOT, OCTET, DOT, OCTET, DOT, OCTET, Edge], "IP_ADDRESS", Ipv4Check);
  }

  lemma CardIsSolid()
    ensures Solid(CARD)
  {
    SolidChain([GAP, Times(D, 4, 4), GAP, Times(D, 4, 4), GAP, Times(D, 4, 4)], 1);
    assert Solid(FOURS);
    SolidChain([One("4"), Times(D, 3, 3), FOURS], 0);
    SolidChain([One("5"), One("12345"), Times(D, 2, 2), FOURS], 0);
    SolidChain([One("3"), One("47"), Times(D, 2, 2), GAP, Times(D, 6, 6), GAP, Times(D, 5, 5)], 0);
    assert Solid(VISA) && Solid(MASTERCARD) && Solid(MASTERCARD_2) && Solid(AMEX);
    SolidChain([Edge, Alt(VISA, Alt(MASTERCARD, Alt(MASTERCARD_2, AMEX))), Edge], 1);
  }

  lemma PhoneIsSolid()
    ensures Solid(PHONE)
  {
    SolidChain([
      Maybe(One("(")), One("23456789"), Times(D, 2, 2), Maybe(One(")")), PHONE_GAP,
      Times(D, 3, 3), PHONE_GAP, Times(D, 4, 4), Edge], 1);
    SolidChain([One("+"), One("1"), PHONE_GAP, LOCAL_PHONE], 0);
    assert Solid(LOCAL_PHONE) && Solid(INTERNATIONAL_PHONE);
  }

  /** The five expressions have no empty matches. */
  lemma TableIsSolid()
    ensures forall k | 0 <= k < |PATTERNS| :: Solid(PATTERNS[k].re)
  {
    SolidChain([
      Edge, AtLeast(One(LOWER + UPPER + DIGITS + "._%+-"), 1), One("@"),
      AtLeast(One(LOWER + UPPER + DIGITS + ".-"), 1), DOT, AtLeast(One(LOWER + UPPER), 2), Edge], 2);
    SolidChain([Edge, Times(D, 3, 3), One("-"), Times(D, 2, 2), One("-"), Times(D, 4, 4), Edge], 2);
    CardIsSolid();
    PhoneIsSolid();
    SolidChain([Edge, OCTET, DOT, OCTET, DOT, OCTET, DOT, OCTET, Edge], 2);
  }

  /** There is an engine that searches for the patterns of the table. */
  lemma SomeEngine()
    ensures exists find: Engine :: Searches(find, PATTERNS)
  {
    TableIsSolid();
    var find: Engine := (re, s) => Leftmost(re, s, 0);
    forall k, s | 0 <= k < |PATTERNS| ensures InOrder(find, PATTERNS[k], s) && Search(find, PATTERNS[k], s) {
      SearchExists(PATTERNS[k].re, s);
    }
    assert Searches(find, PATTERNS);
  }

  // ---- passes ----

  lemma {:induction false} KeptAreClean(p: Pattern, ipv4: string -> bool, s: string, ms: seq<Span>, k: nat)
    requires Ordered(s, ms) && k <= |ms| && CleanCuts(s, ms)
    ensures CleanCuts(s, Kept(p, ipv4, s, ms, k))
    decreases k
  {
    if k > 0 { KeptAreClean(p, ipv4, s, ms, k - 1); }
  }

  lemma {:induction false} AllKept(p: Pattern, ipv4: string -> bool, s: string, ms: seq<Span>, k: nat)
    requires Ordered(s, ms) && k <= |ms| && p.check.Always?
    ensures Kept(p, ipv4, s, ms, k) == ms[..k]
    decreases k
  {
    if k > 0 { AllKept(p, ipv4, s, ms, k - 1); }
  }

  /** A pass of any tidy pattern keeps a text free; the pass that searches for the numbers makes any text free. */
  lemma PassIsFree(find: Engine, ps: seq<Pattern>, ipv4: string -> bool, s: string, k: nat)
    requires Searches(find, ps) && k < |ps| && Tidy(ps[k])
    requires SsnFree(s) || (ps[k].re == SSN && ps[k].check.Always?)
    ensures SsnFree(PassOn(find, ps, ipv4, s, k))
  {
    var p := ps[k];
    var ms := find(p.re, s);
    assert Search(find, ps[k], s);
    FoundAreClean(p.re, s, ms);
    KeptAreClean(p, ipv4, s, ms, |ms|);
    if SsnFree(s) {
      StaysFree(s, Kept(p, ipv4, s, ms, |ms|), Marker(p));
    } else {
      SearchCovers(s, ms);
      AllKept(p, ipv4, s, ms, |ms|);
      assert ms[..|ms|] == ms;
      BecomesFree(s, ms, Marker(p));
    }
  }

  /** The pass leaves no number in any text. */
  ghost predicate Clears(find: Engine, ps: seq<Pattern>, ipv4: string -> bool, k: nat)
    requires Orders(find, ps) && k < |ps|
  {
    forall s :: SsnFree(PassOn(find, ps, ipv4, s, k))
  }

  /** The pass brings none into a text that has none. */
  ghost predicate Keeps(find: Engine, ps: seq<Pattern>, ipv4: string -> bool, k: nat)
    requires Orders(find, ps) && k < |ps|
  {
    forall s | SsnFree(s) :: SsnFree(PassOn(find, ps, ipv4, s, k))
  }

  lemma SsnPassClears(find: Engine, ps: seq<Pattern>, ipv4: string -> bool, k: nat)
    requires Searches(find, ps) && k < |ps| && Tidy(ps[k]) && ps[k].re == SSN && ps[k].check.Always?
    ensures Clears(find, ps, ipv4, k)
  {
    forall s ensures SsnFree(PassOn(find, ps, ipv4, s, k)) { PassIsFree(find, ps, ipv4, s, k); }
  }

  lemma TidyPassKeeps(find: Engine, ps: seq<Pattern>, ipv4: string -> bool, k: nat)
    requires Searches(find, ps) && k < |ps| && Tidy(ps[k])
    ensures Keeps(find, ps, ipv4, k)
  {
    forall s | SsnFree(s) ensures SsnFree(PassOn(find, ps, ipv4, s, k)) { PassIsFree(find, ps, ipv4, s, k); }
  }

  lemma {:induction false} StaysClear(find: Engine, ps: seq<Pattern>, ipv4: string -> bool, input: string, j: nat, n: nat)
    requires Orders(find, ps) && j < n <= |ps|
    requires Clears(find, ps, ipv4, j) && forall k | j < k < n :: Keeps(find, ps, ipv4, k)
    ensures SsnFree(Text(find, ps, ipv4, input, n))
    decreases n
  {
    if n - 1 > j {
      StaysClear(find, ps, ipv4, input, j, n - 1);
      assert Keeps(find, ps, ipv4, n - 1);
    }
  }

  /** From the pass on that searches for them, no social security number is left in the text. */
  lemma {:induction false} NoSsnLeft(find: Engine, ps: seq<Pattern>, ipv4: string -> bool, input: string, j: nat, n: nat)
    requires Searches(find, ps) && j < n <= |ps| && AllTidy(ps)
    requires ps[j].re == SSN && ps[j].check.Always?
    ensures SsnFree(Text(find, ps, ipv4, input, n))
  {
    assert Tidy(ps[j]);
    SsnPassClears(find, ps, ipv4, j);
    forall k | j < k < n ensures Keeps(find, ps, ipv4, k) {
      assert Tidy(ps[k]);
      TidyPassKeeps(find, ps, ipv4, k);
    }
    StaysClear(find, ps, ipv4, input, j, n);
  }

  /** The redactor of the table leaves none. */
  lemma {:induction false} RedactedIsFree(find: Engine, ipv4: string -> bool, input: string)
    requires Searches(find, PATTERNS)
    ensures SsnFree(Text(find, PATTERNS, ipv4, input, |PATTERNS|))
  {
    TableIsTidy();
    NoSsnLeft(find, PATTERNS, ipv4, input, 1, |PATTERNS|);
  }

  // ---- categories ----

  /** Lexicographic order on strings. */
  predicate Before(a: string, b: string) {
    if a == "" then b != ""
    else b != "" && (a[0] < b[0] || (a[0] == b[0] && Before(a[1..], b[1..])))
  }

  const ALPHABETICAL := ["CC_NUMBER", "EMAIL", "IP_ADDRESS", "PHONE", "SSN"]

  /** The categories in a set, in alphabetical order. */
  method SortedCategories(found: set<string>) returns (cats: seq<string>)
    requires forall c | c in found :: c in ALPHABETICAL
    ensures forall c :: c in cats <==> c in found
    ensures forall i, j | 0 <= i < j < |cats| :: Before(cats[i], cats[j])
  {
    cats := [];
    for k := 0 to |ALPHABETICAL|
      invariant forall c :: c in cats <==> c in found && c in ALPHABETICAL[..k]
      invariant forall i | 0 <= i < |cats| :: cats[i] in ALPHABETICAL[..k]
      invariant forall i, j | 0 <= i < j < |cats| :: Before(cats[i], cats[j])
    {
      assert ALPHABETICAL[..k + 1] == ALPHABETICAL[..k] + [ALPHABETICAL[k]];
      assert forall i | 0 <= i < k :: Before(ALPHABETICAL[i], ALPHABETICAL[k]);
      if ALPHABETICAL[k] in found {
        cats := cats + [ALPHABETICAL[k]];
      }
    }
    assert ALPHABETICAL[..|ALPHABETICAL|] == ALPHABETICAL;
  }

  /** The categories of the first `n` passes that replaced something. */
  ghost function Found(find: Engine, ps: seq<Pattern>, ipv4: string -> bool, input: string, n: nat): (r: set<string>)
    requires Orders(find, ps) && n <= |ps|
    decreases n
  {
    if n == 0 then {}
    else
      var r := Found(find, ps, ipv4, input, n - 1);
      if Hits(find, ps, ipv4, input, n - 1) then r + {ps[n - 1].category} else r
  }

  /** The sorted list has a place for the pattern's category. */
  predicate Listed(p: Pattern) { p.category in ALPHABETICAL }

  lemma {:induction false} FoundAreListed(find: Engine, ps: seq<Pattern>, ipv4: string -> bool, input: string, n: nat)
    requires Orders(find, ps) && n <= |ps| && forall k | 0 <= k < |ps| :: Listed(ps[k])
    ensures forall c | c in Found(find, ps, ipv4, input, n) :: c in ALPHABETICAL
    decreases n
  {
    if n > 0 {
      FoundAreListed(find, ps, ipv4, input, n - 1);
      assert Listed(ps[n - 1]);
    }
  }

  /** Passes that replace nothing leave the text alone. */
  lemma {:induction false} NothingFound(find: Engine, ps: seq<Pattern>, ipv4: string -> bool, input: string, n: nat)
    requires Orders(find, ps) && n <= |ps| && Found(find, ps, ipv4, input, n) == {}
    ensures Text(find, ps, ipv4, input, n) == input
    decreases n
  {
    if n > 0 {
      assert !Hits(find, ps, ipv4, input, n - 1);
      NothingFound(find, ps, ipv4, input, n - 1);
    }
  }

  lemma {:induction false} NextPass(find: Engine, ps: seq<Pattern>, ipv4: string -> bool, input: string, n: nat)
    requires Orders(find, ps) && n < |ps|
    ensures var p, s := ps[n], Text(find, ps, ipv4, input, n);
            var ms := find(p.re, s);
            && Ordered(s, ms)
            && Text(find, ps, ipv4, input, n + 1) == Pass(p, ipv4, s, ms)
            && Found(find, ps, ipv4, input, n + 1)
               == Found(find, ps, ipv4, input, n) + (if Kept(p, ipv4, s, ms, |ms|) != [] then {p.category} else {})
  {
    var p, s := ps[n], Text(find, ps, ipv4, input, n);
    assert InOrder(find, p, s);
    assert Hits(find, ps, ipv4, input, n) <==> Kept(p, ipv4, s, find(p.re, s), |find(p.re, s)|) != [];
  }

  /** The loop of `Redact` over the patterns. */
  method RunPasses(find: Engine, ps: seq<Pattern>, ipv4: string -> bool, input: string)
    returns (result: string, found: set<string>)
    requires Orders(find, ps)
    ensures result == Text(find, ps, ipv4, input, |ps|)
    ensures found == Found(find, ps, ipv4, input, |ps|)
  {
    result, found := input, {};
    for n := 0 to |ps|
      invariant result == Text(find, ps, ipv4, input, n)
      invariant found == Found(find, ps, ipv4, input, n)
    {
      NextPass(find, ps, ipv4, input, n);
      var p, hit := ps[n], false;
      result, hit := ReplaceAll(p, ipv4, result, find(p.re, result));
      if hit { found := found + {p.category}; }
    }
  }

  // ---- what each pattern of the table does ----

  /**
   Pass `k` turns exactly the matches that `valid` accepts into `marker` and
   copies the rest; `category` is found exactly if there was such a match.
   */
  ghost predicate PassIs(find: Engine, ps: seq<Pattern>, ipv4: string -> bool, input: string, k: nat,
                         category: string, marker: string, valid: string -> bool)
    requires Orders(find, ps) && k < |ps|
  {
    var s := Text(find, ps, ipv4, input, k);
    var ms := find(ps[k].re, s);
    && Ordered(s, ms)
    && Text(find, ps, ipv4, input, k + 1) == RewriteAll(s, ms, valid, marker)
    && (category in Found(find, ps, ipv4, input, |ps|) <==> SomeValid(s, ms, valid))
  }

  /** Patterns of different categories do not answer for each other. */
  predicate Categories(ps: seq<Pattern>) {
    forall i, j | 0 <= i < j < |ps| :: ps[i].category != ps[j].category
  }

  lemma FoundNext(find: Engine, ps: seq<Pattern>, ipv4: string -> bool, input: string, n: nat)
    requires Orders(find, ps) && n < |ps|
    ensures Found(find, ps, ipv4, input, n + 1)
            == Found(find, ps, ipv4, input, n) + if Hits(find, ps, ipv4, input, n) then {ps[n].category} else {}
  {
  }

  lemma {:induction false} FoundExactly(find: Engine, ps: seq<Pattern>, ipv4: string -> bool, input: string, k: nat, n: nat)
    requires Orders(find, ps) && Categories(ps) && k < |ps| && n <= |ps|
    ensures ps[k].category in Found(find, ps, ipv4, input, n) <==> k < n && Hits(find, ps, ipv4, input, k)
    decreases n
  {
    if n > 0 {
      var m: nat := n - 1;
      FoundExactly(find, ps, ipv4, input, k, m);
      FoundNext(find, ps, ipv4, input, m);
      assert ps[m].category == ps[k].category <==> m == k;
    }
  }

  lemma {:induction false} OnePass(find: Engine, ps: seq<Pattern>, ipv4: string -> bool, input: string, k: nat,
                                   category: string, marker: string, valid: string -> bool)
    requires Orders(find, ps) && Categories(ps) && k < |ps| && Validates(ps[k], ipv4, valid)
    requires ps[k].category == category && Marker(ps[k]) == marker
    ensures PassIs(find, ps, ipv4, input, k, category, marker, valid)
  {
    var s := Text(find, ps, ipv4, input, k);
    NextPass(find, ps, ipv4, input, k);
    PassRewrites(ps[k], ipv4, s, find(ps[k].re, s), valid);
    FoundExactly(find, ps, ipv4, input, k, |ps|);
  }

  /** The test of a pattern without a validator. */
  predicate Anything(x: string) { true }

  lemma TableCategories()
    ensures Categories(PATTERNS)
  {
    var names := ["EMAIL", "SSN", "CC_NUMBER", "PHONE", "IP_ADDRESS"];
    assert forall k | 0 <= k < 5 :: PATTERNS[k].category == names[k];
    assert |names[0]| == 5 && |names[1]| == 3 && |names[2]| == 9 && |names[4]| == 10;
    assert names[0][0] == 'E' && names[3][0] == 'P';
  }

  lemma EmailMarker()
    ensures Marker(PATTERNS[0]) == "[REDACTED:EMAIL:CC6.1]"
  {
    MarkerText(PATTERNS[0], "EMAIL");
  }

  lemma SsnMarker()
    ensures Marker(PATTERNS[1]) == "[REDACTED:SSN:CC6.1]"
  {
    MarkerText(PATTERNS[1], "SSN");
  }

  lemma CardMarker()
    ensures Marker(PATTERNS[2]) == "[REDACTED:CC_NUMBER:CC6.1]"
  {
    MarkerText(PATTERNS[2], "CC_NUMBER");
  }

  lemma PhoneMarker()
    ensures Marker(PATTERNS[3]) == "[REDACTED:PHONE:CC6.1]"
  {
    MarkerText(PATTERNS[3], "PHONE");
  }

  lemma AddressMarker()
    ensures Marker(PATTERNS[4]) == "[REDACTED:IP_ADDRESS:CC6.1]"
  {
    var p := Pattern(IPV4, "IP_ADDRESS", Ipv4Check, "CC6.1");
    AddressText(p);
    assert PATTERNS[4] == p;
  }

  lemma AddressText(p: Pattern)
    requires p.category == "IP_ADDRESS" && p.tag == "CC6.1"
    ensures Marker(p) == "[REDACTED:IP_ADDRESS:CC6.1]"
  {
    MarkerText(p, "IP_ADDRESS");
  }

  lemma MarkerText(p: Pattern, category: string)
    requires p.category == category && p.tag == "CC6.1"
    ensures Marker(p) == "[REDACTED:" + category + ":CC6.1]"
  {
    assert ":" + "CC6.1" + "]" == ":CC6.1]";
  }

  lemma Validators(ipv4: string -> bool)
    ensures Validates(PATTERNS[0], ipv4, Anything) && Validates(PATTERNS[1], ipv4, Anything)
    ensures Validates(PATTERNS[2], ipv4, Luhn.Valid)
    ensures Validates(PATTERNS[3], ipv4, Anything) && Validates(PATTERNS[4], ipv4, ipv4)
  {
  }

  /** Every e-mail address, social security number and phone number that matches is replaced. */
  lemma {:induction false} MatchesReplaced(find: Engine, ipv4: string -> bool, input: string)
    requires Orders(find, PATTERNS)
    ensures PassIs(find, PATTERNS, ipv4, input, 0, "EMAIL", "[REDACTED:EMAIL:CC6.1]", Anything)
    ensures PassIs(find, PATTERNS, ipv4, input, 1, "SSN", "[REDACTED:SSN:CC6.1]", Anything)
    ensures PassIs(find, PATTERNS, ipv4, input, 3, "PHONE", "[REDACTED:PHONE:CC6.1]", Anything)
  {
    TableCategories();
    EmailMarker();
    SsnMarker();
    PhoneMarker();
    Validators(ipv4);
    OnePass(find, PATTERNS, ipv4, input, 0, "EMAIL", "[REDACTED:EMAIL:CC6.1]", Anything);
    OnePass(find, PATTERNS, ipv4, input, 1, "SSN", "[REDACTED:SSN:CC6.1]", Anything);
    OnePass(find, PATTERNS, ipv4, input, 3, "PHONE", "[REDACTED:PHONE:CC6.1]", Anything);
  }

  /** A card number is replaced exactly if its checksum is right. */
  lemma {:induction false} CardsReplaced(find: Engine, ipv4: string -> bool, input: string)
    requires Orders(find, PATTERNS)
    ensures PassIs(find, PATTERNS, ipv4, input, 2, "CC_NUMBER", "[REDACTED:CC_NUMBER:CC6.1]", Luhn.Valid)
  {
    TableCategories();
    CardMarker();
    Validators(ipv4);
    OnePass(find, PATTERNS, ipv4, input, 2, "CC_NUMBER", "[REDACTED:CC_NUMBER:CC6.1]", Luhn.Valid);
  }

  /** An address is replaced exactly if the test for addresses accepts it. */
  lemma {:induction false} AddressesReplaced(find: Engine, ipv4: string -> bool, input: string)
    requires Orders(find, PATTERNS)
    ensures PassIs(find, PATTERNS, ipv4, input, 4, "IP_ADDRESS", "[REDACTED:IP_ADDRESS:CC6.1]", ipv4)
  {
    TableCategories();
    AddressMarker();
    Validators(ipv4);
    OnePass(find, PATTERNS, ipv4, input, 4, "IP_ADDRESS", "[REDACTED:IP_ADDRESS:CC6.1]", ipv4);
  }

  lemma TableIsListed()
    ensures forall k | 0 <= k < |PATTERNS| :: Listed(PATTERNS[k])
  {
    assert ALPHABETICAL[0] == "CC_NUMBER" && ALPHABETICAL[1] == "EMAIL" && ALPHABETICAL[2] == "IP_ADDRESS";
    assert ALPHABETICAL[3] == "PHONE" && ALPHABETICAL[4] == "SSN";
  }

  /**
   `Redact`: no social security number is left, the categories are exactly those
   of the passes that replaced something, and without any the text is unchanged.
   */
  method Redact(find: Engine, ipv4: string -> bool, input: string) returns (result: string, cats: seq<string>)
    requires Searches(find, PATTERNS)
    ensures result == Text(find, PATTERNS, ipv4, input, |PATTERNS|) && SsnFree(result)
    ensures forall c :: c in cats <==> c in Found(find, PATTERNS, ipv4, input, |PATTERNS|)
    ensures forall i, j | 0 <= i < j < |cats| :: Before(cats[i], cats[j])
    ensures cats == [] ==> result == input
  {
    var found;
    result, found := RunPasses(find, PATTERNS, ipv4, input);
    RedactedIsFree(find, ipv4, input);
    TableIsListed();
    FoundAreListed(find, PATTERNS, ipv4, input, |PATTERNS|);
    cats := SortedCategories(found);
    if found == {} {
      NothingFound(find, PATTERNS, ipv4, input, |PATTERNS|);
    } else {
      var c :| c in found;
      assert c in cats;
    }
  }
}
