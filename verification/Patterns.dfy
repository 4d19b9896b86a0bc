/**
 What the expressions of the pattern table mean: for each of them, exactly
 which stretches of a text it matches, in terms of digits, letters and
 separators.
 */
module Patterns {
  import opened Prelude
  import opened Regex
  import opened Redactor
  import opened Cleanliness

  // ---- one link and then the rest ----

  lemma OneThen(of: string, b: Re, s: string, i: nat, j: nat)
    ensures Matches(Cat(One(of), b), s, i, j) <==> i < |s| && s[i] in of && Matches(b, s, i + 1, j)
  {
    if Matches(Cat(One(of), b), s, i, j) { var k := SplitCat(One(of), b, s, i, j); }
    if i < |s| && s[i] in of && Matches(b, s, i + 1, j) { CatMatches(One(of), b, s, i, i + 1, j); }
  }

  /** An optional character of a class is there or not. */
  predicate Skips(s: string, i: nat, k: nat, of: string) {
    k == i || (k == i + 1 && i < |s| && s[i] in of)
  }

  lemma MaybeThen(of: string, b: Re, s: string, i: nat, j: nat)
    ensures Matches(Cat(Maybe(One(of)), b), s, i, j)
            <==> Matches(b, s, i, j) || (i < |s| && s[i] in of && Matches(b, s, i + 1, j))
  {
    var m := Maybe(One(of));
    if Matches(Cat(m, b), s, i, j) { var k := SplitCat(m, b, s, i, j); }
    if Matches(b, s, i, j) { CatMatches(m, b, s, i, i, j); }
    if i < |s| && s[i] in of && Matches(b, s, i + 1, j) {
      assert Matches(One(of), s, i, i + 1);
      CatMatches(m, b, s, i, i + 1, j);
    }
  }

  /** `n` characters of a class, and then the rest. */
  ghost predicate RunAt(of: string, n: nat, b: Re, s: string, i: nat, j: nat) {
    AllIn(s, i, n, of) && Matches(b, s, i + n, j)
  }

  lemma RangeThen(of: string, lo: nat, hi: nat, b: Re, s: string, i: nat, j: nat)
    ensures Matches(Cat(Times(One(of), lo, hi), b), s, i, j) <==> exists n: nat | lo <= n <= hi :: RunAt(of, n, b, s, i, j)
  {
    var t := Times(One(of), lo, hi);
    if Matches(Cat(t, b), s, i, j) {
      var k := SplitCat(t, b, s, i, j);
      var n: nat :| lo <= n <= hi && Repeats(One(of), n, s, i, k);
      RepeatOne(of, n, s, i, k);
      assert RunAt(of, n, b, s, i, j);
    }
    if n: nat :| lo <= n <= hi && RunAt(of, n, b, s, i, j) {
      RepeatOne(of, n, s, i, i + n);
      CatMatches(t, b, s, i, i + n, j);
    }
  }

  lemma ManyThen(of: string, lo: nat, b: Re, s: string, i: nat, j: nat)
    ensures Matches(Cat(AtLeast(One(of), lo), b), s, i, j) <==> exists n: nat | lo <= n :: RunAt(of, n, b, s, i, j)
  {
    var t := AtLeast(One(of), lo);
    if Matches(Cat(t, b), s, i, j) {
      var k := SplitCat(t, b, s, i, j);
      var n: nat :| lo <= n && Repeats(One(of), n, s, i, k);
      RepeatOne(of, n, s, i, k);
      assert RunAt(of, n, b, s, i, j);
    }
    if n: nat :| lo <= n && RunAt(of, n, b, s, i, j) {
      RepeatOne(of, n, s, i, i + n);
      CatMatches(t, b, s, i, i + n, j);
    }
  }

  lemma EdgeLast(s: string, i: nat, j: nat)
    ensures Matches(Edge, s, i, j) <==> i == j <= |s| && AtEdge(s, j)
  {
  }

  // ---- addresses of hosts ----

  /** `n` groups of one to three digits, with a dot between any two, from `i` to `j`. */
  ghost predicate Octets(s: string, i: nat, j: nat, n: nat)
    requires n > 0
    decreases n, 1
  {
    exists k: nat | 1 <= k <= 3 :: OctetAt(s, i, k, j, n)
  }

  /** The first of them has `k` digits. */
  ghost predicate OctetAt(s: string, i: nat, k: nat, j: nat, n: nat)
    requires n > 0
    decreases n, 0
  {
    && AllIn(s, i, k, DIGITS)
    && if n == 1 then i + k == j else i + k < |s| && s[i + k] == '.' && Octets(s, i + k + 1, j, n - 1)
  }

  function OctetRe(n: nat): Re
    requires n > 0
  {
    if n == 1 then Cat(OCTET, Edge) else Cat(OCTET, Cat(DOT, OctetRe(n - 1)))
  }

  lemma {:induction false} OctetsMatch(s: string, i: nat, j: nat, n: nat)
    requires n > 0
    ensures Matches(OctetRe(n), s, i, j) <==> Octets(s, i, j, n) && AtEdge(s, j)
    decreases n
  {
    var b := if n == 1 then Edge else Cat(DOT, OctetRe(n - 1));
    RangeThen(DIGITS, 1, 3, b, s, i, j);
    forall k: nat ensures RunAt(DIGITS, k, b, s, i, j) <==> OctetAt(s, i, k, j, n) && AtEdge(s, j) {
      if n > 1 {
        OneThen(".", OctetRe(n - 1), s, i + k, j);
        OctetsMatch(s, i + k + 1, j, n - 1);
      }
    }
  }

  lemma Ipv4IsNested()
    ensures IPV4 == Cat(Edge, OctetRe(4))
  {
    var t := [OCTET, Edge];
    ChainCons(OCTET, [Edge]);
    assert [OCTET] + [Edge] == t && Chain(t) == OctetRe(1);
    DottedCons(t, 1);
    DottedCons([OCTET, DOT] + t, 2);
    DottedCons([OCTET, DOT] + ([OCTET, DOT] + t), 3);
    var u := [OCTET, DOT] + ([OCTET, DOT] + ([OCTET, DOT] + t));
    ChainCons(Edge, u);
    assert [Edge] + u == [Edge, OCTET, DOT, OCTET, DOT, OCTET, DOT, OCTET, Edge];
  }

  lemma DottedCons(t: seq<Re>, n: nat)
    requires t != [] && n > 0 && Chain(t) == OctetRe(n)
    ensures Chain([OCTET, DOT] + t) == OctetRe(n + 1)
  {
    ChainCons(DOT, t);
    ChainCons(OCTET, [DOT] + t);
    assert [OCTET, DOT] + t == [OCTET] + ([DOT] + t);
  }

  /** Four groups of one to three digits with dots between them, not part of a longer word. */
  lemma {:induction false} Ipv4Pattern(s: string, i: nat, j: nat)
    ensures Matches(IPV4, s, i, j) <==> AtEdge(s, i) && Octets(s, i, j, 4) && AtEdge(s, j)
  {
    Ipv4IsNested();
    EdgeThen(OctetRe(4), s, i, j);
    OctetsMatch(s, i, j, 4);
  }

  // ---- mail addresses ----

  const LETTERS := LOWER + UPPER
  const USER_CHARS := LOWER + UPPER + DIGITS + "._%+-"
  const HOST_CHARS := LOWER + UPPER + DIGITS + ".-"

  const MAIL_END := Cat(AtLeast(One(LETTERS), 2), Edge)
  const MAIL_HOST := Cat(AtLeast(One(HOST_CHARS), 1), Cat(DOT, MAIL_END))
  const MAIL_REST := Cat(One("@"), MAIL_HOST)

  /** The part before the `@`. */
  predicate UserAt(s: string, i: nat, at: nat) {
    i < at < |s| && AllIn(s, i, at - i, USER_CHARS) && s[at] == '@'
  }

  /** The part behind it, with its last dot at `dot`: at least two letters follow. */
  predicate HostAt(s: string, i: nat, dot: nat, j: nat) {
    && i < dot && dot + 2 < j <= |s| && AllIn(s, i, dot - i, HOST_CHARS)
    && s[dot] == '.' && AllIn(s, dot + 1, j - dot - 1, LETTERS)
  }

  ghost predicate Host(s: string, i: nat, j: nat) {
    exists dot: nat :: HostAt(s, i, dot, j)
  }

  ghost predicate MailAt(s: string, i: nat, at: nat, j: nat) {
    UserAt(s, i, at) && Host(s, at + 1, j)
  }

  ghost predicate Mail(s: string, i: nat, j: nat) {
    exists at: nat :: MailAt(s, i, at, j)
  }

  lemma EmailIsNested()
    ensures EMAIL == Cat(Edge, Cat(AtLeast(One(USER_CHARS), 1), MAIL_REST))
  {
    var user, host, end := AtLeast(One(USER_CHARS), 1), AtLeast(One(HOST_CHARS), 1), AtLeast(One(LETTERS), 2);
    var t1 := [Edge];
    var t2 := [end] + t1;
    var t3 := [DOT] + t2;
    var t4 := [host] + t3;
    var t5 := [One("@")] + t4;
    var t6 := [user] + t5;
    ChainCons(end, t1);
    ChainCons(DOT, t2);
    ChainCons(host, t3);
    ChainCons(One("@"), t4);
    ChainCons(user, t5);
    ChainCons(Edge, t6);
    assert [Edge] + t6 == [Edge, user, One("@"), host, DOT, end, Edge];
  }

  lemma EndMatches(s: string, i: nat, j: nat)
    ensures Matches(MAIL_END, s, i, j) <==> i + 2 <= j <= |s| && AllIn(s, i, j - i, LETTERS) && AtEdge(s, j)
  {
    ManyThen(LETTERS, 2, Edge, s, i, j);
    if i + 2 <= j <= |s| && AllIn(s, i, j - i, LETTERS) && AtEdge(s, j) {
      assert RunAt(LETTERS, j - i, Edge, s, i, j);
    }
  }

  lemma DotMatches(s: string, i: nat, n: nat, j: nat)
    requires n >= 1
    ensures RunAt(HOST_CHARS, n, Cat(DOT, MAIL_END), s, i, j) <==> HostAt(s, i, i + n, j) && AtEdge(s, j)
  {
    OneThen(".", MAIL_END, s, i + n, j);
    EndMatches(s, i + n + 1, j);
  }

  lemma HostMatches(s: string, i: nat, j: nat)
    ensures Matches(MAIL_HOST, s, i, j) <==> Host(s, i, j) && AtEdge(s, j)
  {
    var rest := Cat(DOT, MAIL_END);
    ManyThen(HOST_CHARS, 1, rest, s, i, j);
    if Matches(MAIL_HOST, s, i, j) {
      var n: nat :| 1 <= n && RunAt(HOST_CHARS, n, rest, s, i, j);
      DotMatches(s, i, n, j);
    }
    if Host(s, i, j) && AtEdge(s, j) {
      var dot: nat :| HostAt(s, i, dot, j);
      DotMatches(s, i, dot - i, j);
      assert RunAt(HOST_CHARS, dot - i, rest, s, i, j);
    }
  }

  lemma UserMatches(s: string, i: nat, n: nat, j: nat)
    requires n >= 1
    ensures RunAt(USER_CHARS, n, MAIL_REST, s, i, j) <==> MailAt(s, i, i + n, j) && AtEdge(s, j)
  {
    OneThen("@", MAIL_HOST, s, i + n, j);
    HostMatches(s, i + n + 1, j);
  }

  /** A mail address, not part of a longer word. */
  lemma {:induction false} EmailPattern(s: string, i: nat, j: nat)
    ensures Matches(EMAIL, s, i, j) <==> AtEdge(s, i) && Mail(s, i, j) && AtEdge(s, j)
  {
    EmailIsNested();
    EdgeThen(Cat(AtLeast(One(USER_CHARS), 1), MAIL_REST), s, i, j);
    ManyThen(USER_CHARS, 1, MAIL_REST, s, i, j);
    if n: nat :| 1 <= n && RunAt(USER_CHARS, n, MAIL_REST, s, i, j) { UserMatches(s, i, n, j); }
    if Mail(s, i, j) && AtEdge(s, j) {
      var at: nat :| MailAt(s, i, at, j);
      UserMatches(s, i, at - i, j);
      assert RunAt(USER_CHARS, at - i, MAIL_REST, s, i, j);
    }
  }

  // ---- card numbers ----

  /** Groups of digits of the given sizes, each behind an optional blank or dash, from `i` to `j`. */
  predicate Gapped(s: string, i: nat, j: nat, sizes: seq<nat>)
    decreases |sizes|
  {
    if sizes == [] then i == j <= |s|
    else GroupThen(s, i, j, sizes) || (i < |s| && s[i] in " -" && GroupThen(s, i + 1, j, sizes))
  }

  predicate GroupThen(s: string, i: nat, j: nat, sizes: seq<nat>)
    requires sizes != []
    decreases |sizes|, 0
  {
    AllIn(s, i, sizes[0], DIGITS) && Gapped(s, i + sizes[0], j, sizes[1..])
  }

  function GapList(sizes: seq<nat>): seq<Re> {
    if sizes == [] then [] else [GAP, Times(D, sizes[0], sizes[0])] + GapList(sizes[1..])
  }

  lemma GapCons(n: nat, t: seq<Re>)
    ensures Chain([GAP, Times(D, n, n)]) == Cat(GAP, Times(D, n, n))
    ensures t != [] ==> Chain([GAP, Times(D, n, n)] + t) == Cat(GAP, Cat(Times(D, n, n), Chain(t)))
  {
    ChainCons(GAP, [Times(D, n, n)]);
    assert [GAP] + [Times(D, n, n)] == [GAP, Times(D, n, n)];
    if t != [] {
      ChainCons(Times(D, n, n), t);
      ChainCons(GAP, [Times(D, n, n)] + t);
      assert [GAP] + ([Times(D, n, n)] + t) == [GAP, Times(D, n, n)] + t;
    }
  }

  lemma {:induction false} GapsMatch(s: string, i: nat, j: nat, sizes: seq<nat>)
    requires sizes != []
    ensures Matches(Chain(GapList(sizes)), s, i, j) <==> Gapped(s, i, j, sizes)
    decreases |sizes|
  {
    var n, t := sizes[0], sizes[1..];
    GapCons(n, GapList(t));
    if t == [] {
      assert GapList(sizes) == [GAP, Times(D, n, n)];
      MaybeThen(" -", Times(D, n, n), s, i, j);
      TimesOne(DIGITS, n, s, i, j);
      TimesOne(DIGITS, n, s, i + 1, j);
      assert forall k: nat :: Gapped(s, k, j, t) <==> k == j <= |s|;
      assert GroupThen(s, i, j, sizes) <==> Matches(Times(D, n, n), s, i, j);
      assert GroupThen(s, i + 1, j, sizes) <==> Matches(Times(D, n, n), s, i + 1, j);
      assert Chain(GapList(sizes)) == Cat(GAP, Times(D, n, n));
      assert Matches(Cat(GAP, Times(D, n, n)), s, i, j) <==> Gapped(s, i, j, sizes);
    } else {
      var b := Chain(GapList(t));
      MaybeThen(" -", Cat(Times(D, n, n), b), s, i, j);
      RunThen(DIGITS, n, b, s, i, j);
      RunThen(DIGITS, n, b, s, i + 1, j);
      GapsMatch(s, i + n, j, t);
      GapsMatch(s, i + 1 + n, j, t);
    }
  }

  lemma FoursMatch(s: string, i: nat, j: nat)
    ensures Matches(FOURS, s, i, j) <==> Gapped(s, i, j, [4, 4, 4])
  {
    GapsMatch(s, i, j, [4, 4, 4]);
    assert [4, 4, 4][1..] == [4, 4] && [4, 4][1..] == [4] && [4][1..] == [];
    assert GapList([4, 4, 4]) == [GAP, Times(D, 4, 4), GAP, Times(D, 4, 4), GAP, Times(D, 4, 4)];
  }

  function Digit(c: char): int { c as int - '0' as int }

  /** The number that the four digits from `i` on spell. */
  function Number(s: string, i: nat): int
    requires i + 4 <= |s|
  {
    1000 * Digit(s[i]) + 100 * Digit(s[i + 1]) + 10 * Digit(s[i + 2]) + Digit(s[i + 3])
  }

  /** Four digits that spell a number between `lo` and `hi`. */
  predicate Leads(s: string, i: nat, lo: int, hi: int) {
    AllIn(s, i, 4, DIGITS) && lo <= Number(s, i) <= hi
  }

  lemma DigitClasses(c: char)
    ensures c in DIGITS <==> '0' <= c <= '9'
    ensures c in "12345" <==> '1' <= c <= '5'
    ensures c in "123456789" <==> '1' <= c <= '9'
    ensures c in "3456789" <==> '3' <= c <= '9'
    ensures c in "3456" <==> '3' <= c <= '6'
    ensures c in "01" <==> '0' <= c <= '1'
    ensures c in "47" <==> c == '4' || c == '7'
  {
    assert DIGITS[0] == '0' && DIGITS[1] == '1' && DIGITS[2] == '2' && DIGITS[3] == '3' && DIGITS[4] == '4';
    assert DIGITS[5] == '5' && DIGITS[6] == '6' && DIGITS[7] == '7' && DIGITS[8] == '8' && DIGITS[9] == '9';
    assert "123456789"[0] == '1' && "123456789"[1] == '2' && "123456789"[2] == '3' && "123456789"[3] == '4';
    assert "123456789"[4] == '5' && "123456789"[5] == '6' && "123456789"[6] == '7' && "123456789"[7] == '8';
    assert "123456789"[8] == '9';
    assert "12345"[0] == '1' && "12345"[1] == '2' && "12345"[2] == '3' && "12345"[3] == '4' && "12345"[4] == '5';
    assert "3456789"[0] == '3' && "3456789"[1] == '4' && "3456789"[2] == '5' && "3456789"[3] == '6';
    assert "3456789"[4] == '7' && "3456789"[5] == '8' && "3456789"[6] == '9';
    assert "3456"[0] == '3' && "3456"[1] == '4' && "3456"[2] == '5' && "3456"[3] == '6';
    assert "01"[0] == '0' && "01"[1] == '1' && "47"[0] == '4' && "47"[1] == '7';
  }

  lemma LeadDigits(s: string, i: nat)
    requires AllIn(s, i, 4, DIGITS)
    ensures forall k | i <= k < i + 4 :: 0 <= Digit(s[k]) <= 9
  {
    forall k | i <= k < i + 4 ensures 0 <= Digit(s[k]) <= 9 { DigitClasses(s[k]); }
  }

  lemma FourLead(a: int, b: int, c: int, d: int)
    requires 0 <= a <= 9 && 0 <= b <= 9 && 0 <= c <= 9 && 0 <= d <= 9
    ensures a == 4 <==> 4000 <= 1000 * a + 100 * b + 10 * c + d <= 4999
  {
  }

  lemma VisaMatches(s: string, i: nat, j: nat)
    ensures Matches(VISA, s, i, j) <==> Leads(s, i, 4000, 4999) && Gapped(s, i + 4, j, [4, 4, 4])
  {
    ChainCons(Times(D, 3, 3), [FOURS]);
    ChainCons(One("4"), [Times(D, 3, 3)] + [FOURS]);
    assert [One("4")] + ([Times(D, 3, 3)] + [FOURS]) == [One("4"), Times(D, 3, 3), FOURS];
    OneThen("4", Cat(Times(D, 3, 3), FOURS), s, i, j);
    RunThen(DIGITS, 3, FOURS, s, i + 1, j);
    FoursMatch(s, i + 4, j);
    if i < |s| { DigitClasses(s[i]); }
    if AllIn(s, i, 4, DIGITS) {
      LeadDigits(s, i);
      FourLead(Digit(s[i]), Digit(s[i + 1]), Digit(s[i + 2]), Digit(s[i + 3]));
    }
  }

  /** Two given first digits, two more, and the rest. */
  lemma TwoThen(a: string, b: string, rest: Re, s: string, i: nat, j: nat)
    ensures Matches(Chain([One(a), One(b), Times(D, 2, 2), rest]), s, i, j)
            <==> i + 4 <= |s| && s[i] in a && s[i + 1] in b && AllIn(s, i + 2, 2, DIGITS) && Matches(rest, s, i + 4, j)
  {
    TwoIsNested(a, b, rest);
    NestedTwo(a, b, rest, s, i, j);
  }

  lemma NestedTwo(a: string, b: string, rest: Re, s: string, i: nat, j: nat)
    ensures Matches(Cat(One(a), Cat(One(b), Cat(Times(D, 2, 2), rest))), s, i, j)
            <==> i + 4 <= |s| && s[i] in a && s[i + 1] in b && AllIn(s, i + 2, 2, DIGITS) && Matches(rest, s, i + 4, j)
  {
    OneThen(a, Cat(One(b), Cat(Times(D, 2, 2), rest)), s, i, j);
    OneThen(b, Cat(Times(D, 2, 2), rest), s, i + 1, j);
    RunThen(DIGITS, 2, rest, s, i + 2, j);
  }

  lemma TwoIsNested(a: string, b: string, rest: Re)
    ensures Chain([One(a), One(b), Times(D, 2, 2), rest]) == Cat(One(a), Cat(One(b), Cat(Times(D, 2, 2), rest)))
  {
    ChainCons(Times(D, 2, 2), [rest]);
    ChainCons(One(b), [Times(D, 2, 2)] + [rest]);
    ChainCons(One(a), [One(b)] + ([Times(D, 2, 2)] + [rest]));
    assert [One(a)] + ([One(b)] + ([Times(D, 2, 2)] + [rest])) == [One(a), One(b), Times(D, 2, 2), rest];
  }

  /** Four characters, looked at one by one. */
  lemma FourChars(s: string, i: nat)
    requires i + 4 <= |s|
    ensures AllIn(s, i, 4, DIGITS)
            <==> 0 <= Digit(s[i]) <= 9 && 0 <= Digit(s[i + 1]) <= 9 && 0 <= Digit(s[i + 2]) <= 9 && 0 <= Digit(s[i + 3]) <= 9
    ensures AllIn(s, i + 2, 2, DIGITS) <==> 0 <= Digit(s[i + 2]) <= 9 && 0 <= Digit(s[i + 3]) <= 9
  {
    forall k | i <= k < i + 4 ensures s[k] in DIGITS <==> 0 <= Digit(s[k]) <= 9 { DigitClasses(s[k]); }
    assert AllIn(s, i, 4, DIGITS) <==> s[i] in DIGITS && s[i + 1] in DIGITS && s[i + 2] in DIGITS && s[i + 3] in DIGITS;
  }

  lemma FiveLead(a: int, b: int, c: int, d: int)
    requires 0 <= a <= 9 && 0 <= b <= 9 && 0 <= c <= 9 && 0 <= d <= 9
    ensures a == 5 && 1 <= b <= 5 <==> 5100 <= 1000 * a + 100 * b + 10 * c + d <= 5599
  {
  }

  lemma MastercardMatches(s: string, i: nat, j: nat)
    ensures Matches(MASTERCARD, s, i, j) <==> Leads(s, i, 5100, 5599) && Gapped(s, i + 4, j, [4, 4, 4])
  {
    TwoThen("5", "12345", FOURS, s, i, j);
    FoursMatch(s, i + 4, j);
    if i + 4 <= |s| {
      FourChars(s, i);
      DigitClasses(s[i]);
      DigitClasses(s[i + 1]);
      var a, b, c, d := Digit(s[i]), Digit(s[i + 1]), Digit(s[i + 2]), Digit(s[i + 3]);
      if AllIn(s, i, 4, DIGITS) { FiveLead(a, b, c, d); }
    }
  }

  lemma ThreeLead(a: int, b: int, c: int, d: int)
    requires 0 <= a <= 9 && 0 <= b <= 9 && 0 <= c <= 9 && 0 <= d <= 9
    ensures a == 3 && (b == 4 || b == 7)
            <==> 3400 <= 1000 * a + 100 * b + 10 * c + d <= 3499 || 3700 <= 1000 * a + 100 * b + 10 * c + d <= 3799
  {
  }

  lemma AmexMatches(s: string, i: nat, j: nat)
    ensures Matches(AMEX, s, i, j)
            <==> (Leads(s, i, 3400, 3499) || Leads(s, i, 3700, 3799)) && Gapped(s, i + 4, j, [6, 5])
  {
    var rest := Chain(GapList([6, 5]));
    AmexIsNested();
    NestedTwo("3", "47", rest, s, i, j);
    GapsMatch(s, i + 4, j, [6, 5]);
    if i + 4 <= |s| {
      FourChars(s, i);
      DigitClasses(s[i]);
      DigitClasses(s[i + 1]);
      var a, b, c, d := Digit(s[i]), Digit(s[i + 1]), Digit(s[i + 2]), Digit(s[i + 3]);
      if AllIn(s, i, 4, DIGITS) { ThreeLead(a, b, c, d); }
    }
  }

  lemma AmexIsNested()
    ensures AMEX == Cat(One("3"), Cat(One("47"), Cat(Times(D, 2, 2), Chain(GapList([6, 5])))))
  {
    var t := [GAP, Times(D, 6, 6), GAP, Times(D, 5, 5)];
    assert [6, 5][1..] == [5] && [5][1..] == [];
    assert GapList([6, 5]) == t;
    ChainCons(Times(D, 2, 2), t);
    ChainCons(One("47"), [Times(D, 2, 2)] + t);
    ChainCons(One("3"), [One("47")] + ([Times(D, 2, 2)] + t));
    assert [One("3")] + ([One("47")] + ([Times(D, 2, 2)] + t))
        == [One("3"), One("47"), Times(D, 2, 2), GAP, Times(D, 6, 6), GAP, Times(D, 5, 5)];
  }

  // ---- the numbers from 2221 to 2720 ----

  const LOW := Chain([One("2"), One("2"), Alt(Cat(One("2"), One("123456789")), Cat(One("3456789"), D))])
  const MIDDLE := Chain([One("2"), One("3456"), Times(D, 2, 2)])
  const HIGH := Chain([One("2"), One("7"), Alt(Cat(One("01"), D), Cat(One("2"), One("0")))])

  /** The four characters are digits. */
  predicate Four(a: int, b: int, c: int, d: int) {
    0 <= a <= 9 && 0 <= b <= 9 && 0 <= c <= 9 && 0 <= d <= 9
  }

  lemma TwoLead(a: int, b: int, c: int, d: int)
    requires Four(a, b, c, d)
    ensures 2221 <= 1000 * a + 100 * b + 10 * c + d <= 2720
            <==> a == 2 && ((b == 2 && ((c == 2 && d >= 1) || c >= 3)) || 3 <= b <= 6 || (b == 7 && (c <= 1 || (c == 2 && d == 0))))
  {
  }

  lemma PairMatches(a: string, b: string, s: string, i: nat, j: nat)
    ensures Matches(Cat(One(a), One(b)), s, i, j) <==> j == i + 2 <= |s| && s[i] in a && s[i + 1] in b
  {
    OneThen(a, One(b), s, i, j);
  }

  lemma TripleIsNested(a: string, b: string, rest: Re)
    ensures Chain([One(a), One(b), rest]) == Cat(One(a), Cat(One(b), rest))
  {
    ChainCons(One(b), [rest]);
    ChainCons(One(a), [One(b)] + [rest]);
    assert [One(a)] + ([One(b)] + [rest]) == [One(a), One(b), rest];
  }

  lemma LowMatches(s: string, i: nat, j: nat)
    ensures Matches(LOW, s, i, j)
            <==> j == i + 4 <= |s| && s[i] == '2' && s[i + 1] == '2'
                 && ((s[i + 2] == '2' && '1' <= s[i + 3] <= '9') || ('3' <= s[i + 2] <= '9' && '0' <= s[i + 3] <= '9'))
  {
    var last := Alt(Cat(One("2"), One("123456789")), Cat(One("3456789"), D));
    TripleIsNested("2", "2", last);
    OneThen("2", Cat(One("2"), last), s, i, j);
    OneThen("2", last, s, i + 1, j);
    PairMatches("2", "123456789", s, i + 2, j);
    PairMatches("3456789", DIGITS, s, i + 2, j);
    if i + 4 <= |s| {
      DigitClasses(s[i + 2]);
      DigitClasses(s[i + 3]);
    }
  }

  lemma MiddleMatches(s: string, i: nat, j: nat)
    ensures Matches(MIDDLE, s, i, j)
            <==> j == i + 4 <= |s| && s[i] == '2' && '3' <= s[i + 1] <= '6' && AllIn(s, i + 2, 2, DIGITS)
  {
    TripleIsNested("2", "3456", Times(D, 2, 2));
    OneThen("2", Cat(One("3456"), Times(D, 2, 2)), s, i, j);
    OneThen("3456", Times(D, 2, 2), s, i + 1, j);
    TimesOne(DIGITS, 2, s, i + 2, j);
    if i + 4 <= |s| { DigitClasses(s[i + 1]); }
  }

  lemma HighMatches(s: string, i: nat, j: nat)
    ensures Matches(HIGH, s, i, j)
            <==> j == i + 4 <= |s| && s[i] == '2' && s[i + 1] == '7'
                 && (('0' <= s[i + 2] <= '1' && '0' <= s[i + 3] <= '9') || (s[i + 2] == '2' && s[i + 3] == '0'))
  {
    var last := Alt(Cat(One("01"), D), Cat(One("2"), One("0")));
    TripleIsNested("2", "7", last);
    OneThen("2", Cat(One("7"), last), s, i, j);
    OneThen("7", last, s, i + 1, j);
    PairMatches("01", DIGITS, s, i + 2, j);
    PairMatches("2", "0", s, i + 2, j);
    if i + 4 <= |s| {
      DigitClasses(s[i + 2]);
      DigitClasses(s[i + 3]);
    }
  }

  /** The three alternatives together are the numbers from 2221 to 2720. */
  lemma TwoSeriesMatches(s: string, i: nat, k: nat)
    ensures Matches(Alt(LOW, Alt(MIDDLE, HIGH)), s, i, k) <==> k == i + 4 && Leads(s, i, 2221, 2720)
  {
    LowMatches(s, i, k);
    MiddleMatches(s, i, k);
    HighMatches(s, i, k);
    if i + 4 <= |s| {
      FourChars(s, i);
      var a, b, c, d := Digit(s[i]), Digit(s[i + 1]), Digit(s[i + 2]), Digit(s[i + 3]);
      if Four(a, b, c, d) { TwoLead(a, b, c, d); }
    }
  }

  /** A lead of fixed length, and then the rest. */
  lemma LeadThen(lead: Re, n: nat, ok: bool, b: Re, s: string, i: nat, j: nat)
    requires forall k: nat :: Matches(lead, s, i, k) <==> k == i + n && ok
    ensures Matches(Cat(lead, b), s, i, j) <==> ok && Matches(b, s, i + n, j)
  {
    if Matches(Cat(lead, b), s, i, j) { var k := SplitCat(lead, b, s, i, j); }
    if ok && Matches(b, s, i + n, j) {
      assert Matches(lead, s, i, i + n);
      CatMatches(lead, b, s, i, i + n, j);
    }
  }

  lemma Mastercard2Matches(s: string, i: nat, j: nat)
    ensures Matches(MASTERCARD_2, s, i, j) <==> Leads(s, i, 2221, 2720) && Gapped(s, i + 4, j, [4, 4, 4])
  {
    var lead, ok := Alt(LOW, Alt(MIDDLE, HIGH)), Leads(s, i, 2221, 2720);
    assert MASTERCARD_2 == Cat(lead, FOURS);
    forall k: nat ensures Matches(lead, s, i, k) <==> k == i + 4 && ok { TwoSeriesMatches(s, i, k); }
    LeadThen(lead, 4, ok, FOURS, s, i, j);
    FoursMatch(s, i + 4, j);
  }

  lemma {:induction false} GappedFits(s: string, i: nat, j: nat, sizes: seq<nat>)
    requires Gapped(s, i, j, sizes)
    ensures i <= j <= |s|
    decreases |sizes|
  {
    if sizes != [] {
      if GroupThen(s, i, j, sizes) {
        GappedFits(s, i + sizes[0], j, sizes[1..]);
      } else {
        GappedFits(s, i + 1 + sizes[0], j, sizes[1..]);
      }
    }
  }

  /** Sixteen digits of one of three series in groups of four, or fifteen in groups of four, six and five. */
  predicate CardAt(s: string, i: nat, j: nat) {
    || ((Leads(s, i, 4000, 4999) || Leads(s, i, 5100, 5599) || Leads(s, i, 2221, 2720)) && Gapped(s, i + 4, j, [4, 4, 4]))
    || ((Leads(s, i, 3400, 3499) || Leads(s, i, 3700, 3799)) && Gapped(s, i + 4, j, [6, 5]))
  }

  const ISSUERS := Alt(VISA, Alt(MASTERCARD, Alt(MASTERCARD_2, AMEX)))

  lemma CardFits(s: string, i: nat, j: nat)
    requires CardAt(s, i, j)
    ensures i <= j <= |s|
  {
    if Gapped(s, i + 4, j, [4, 4, 4]) { GappedFits(s, i + 4, j, [4, 4, 4]); } else { GappedFits(s, i + 4, j, [6, 5]); }
  }

  lemma AltMatches(a: Re, b: Re, s: string, i: nat, j: nat)
    ensures Matches(Alt(a, b), s, i, j) <==> Matches(a, s, i, j) || Matches(b, s, i, j)
  {
  }

  lemma IssuersMatch(s: string, i: nat, j: nat)
    ensures Matches(ISSUERS, s, i, j) <==> CardAt(s, i, j)
  {
    AltMatches(VISA, Alt(MASTERCARD, Alt(MASTERCARD_2, AMEX)), s, i, j);
    AltMatches(MASTERCARD, Alt(MASTERCARD_2, AMEX), s, i, j);
    AltMatches(MASTERCARD_2, AMEX, s, i, j);
    VisaMatches(s, i, j);
    MastercardMatches(s, i, j);
    Mastercard2Matches(s, i, j);
    AmexMatches(s, i, j);
  }

  /** A card number, not part of a longer word. */
  lemma {:induction false} CardPattern(s: string, i: nat, j: nat)
    ensures Matches(CARD, s, i, j) <==> AtEdge(s, i) && CardAt(s, i, j) && AtEdge(s, j)
  {
    ChainCons(ISSUERS, [Edge]);
    ChainCons(Edge, [ISSUERS] + [Edge]);
    assert [Edge] + ([ISSUERS] + [Edge]) == [Edge, ISSUERS, Edge];
    EdgeThen(Cat(ISSUERS, Edge), s, i, j);
    IssuersMatch(s, i, j);
    if Matches(Cat(ISSUERS, Edge), s, i, j) { var k := SplitCat(ISSUERS, Edge, s, i, j); }
    if CardAt(s, i, j) && AtEdge(s, j) {
      CardFits(s, i, j);
      assert Matches(Edge, s, j, j);
      CatMatches(ISSUERS, Edge, s, i, j, j);
    }
  }

  // ---- phone numbers ----

  const SEPARATORS := "-. \t\n\r\U{000C}"

  predicate CharAt(s: string, i: nat, of: string) { i < |s| && s[i] in of }

  /** The last four digits, up to `j`. */
  predicate Subscriber(s: string, i: nat, j: nat) { AllIn(s, i, 4, DIGITS) && j == i + 4 }

  /** The three digits before them, and perhaps a separator between. */
  predicate Exchange(s: string, i: nat, j: nat) {
    AllIn(s, i, 3, DIGITS) && (Subscriber(s, i + 3, j) || (CharAt(s, i + 3, SEPARATORS) && Subscriber(s, i + 4, j)))
  }

  predicate Separated(s: string, i: nat, j: nat) {
    Exchange(s, i, j) || (CharAt(s, i, SEPARATORS) && Exchange(s, i + 1, j))
  }

  /** The area code, which does not begin with 0 or 1, perhaps in brackets. */
  predicate Area(s: string, i: nat, j: nat) {
    && CharAt(s, i, "23456789") && AllIn(s, i + 1, 2, DIGITS)
    && (Separated(s, i + 3, j) || (CharAt(s, i + 3, ")") && Separated(s, i + 4, j)))
  }

  predicate Local(s: string, i: nat, j: nat) { Area(s, i, j) || (CharAt(s, i, "(") && Area(s, i + 1, j)) }

  /** With the country code, anywhere; without it, not inside a word. */
  predicate Phone(s: string, i: nat, j: nat) {
    || (CharAt(s, i, "+") && CharAt(s, i + 1, "1") && (Local(s, i + 2, j) || (CharAt(s, i + 2, SEPARATORS) && Local(s, i + 3, j))))
    || (AtEdge(s, i) && Local(s, i, j))
  }

  const SUBSCRIBER := Cat(Times(D, 4, 4), Edge)
  const EXCHANGE := Cat(Times(D, 3, 3), Cat(PHONE_GAP, SUBSCRIBER))
  const AFTER_AREA := Cat(Maybe(One(")")), Cat(PHONE_GAP, EXCHANGE))
  const AREA := Cat(One("23456789"), Cat(Times(D, 2, 2), AFTER_AREA))

  lemma LocalIsNested()
    ensures LOCAL_PHONE == Cat(Maybe(One("(")), AREA)
  {
    var t1 := [Edge];
    var t2 := [Times(D, 4, 4)] + t1;
    var t3 := [PHONE_GAP] + t2;
    var t4 := [Times(D, 3, 3)] + t3;
    var t5 := [PHONE_GAP] + t4;
    var t6 := [Maybe(One(")"))] + t5;
    var t7 := [Times(D, 2, 2)] + t6;
    var t8 := [One("23456789")] + t7;
    ChainCons(Times(D, 4, 4), t1);
    ChainCons(PHONE_GAP, t2);
    ChainCons(Times(D, 3, 3), t3);
    ChainCons(PHONE_GAP, t4);
    ChainCons(Maybe(One(")")), t5);
    ChainCons(Times(D, 2, 2), t6);
    ChainCons(One("23456789"), t7);
    ChainCons(Maybe(One("(")), t8);
    assert [Maybe(One("("))] + t8 == [
      Maybe(One("(")), One("23456789"), Times(D, 2, 2), Maybe(One(")")), PHONE_GAP,
      Times(D, 3, 3), PHONE_GAP, Times(D, 4, 4), Edge];
  }

  lemma SubscriberMatches(s: string, i: nat, j: nat)
    ensures Matches(SUBSCRIBER, s, i, j) <==> Subscriber(s, i, j) && AtEdge(s, j)
  {
    RunThen(DIGITS, 4, Edge, s, i, j);
  }

  lemma ExchangeMatches(s: string, i: nat, j: nat)
    ensures Matches(EXCHANGE, s, i, j) <==> Exchange(s, i, j) && AtEdge(s, j)
  {
    RunThen(DIGITS, 3, Cat(PHONE_GAP, SUBSCRIBER), s, i, j);
    MaybeThen(SEPARATORS, SUBSCRIBER, s, i + 3, j);
    SubscriberMatches(s, i + 3, j);
    SubscriberMatches(s, i + 4, j);
  }

  lemma SeparatedMatches(s: string, i: nat, j: nat)
    ensures Matches(Cat(PHONE_GAP, EXCHANGE), s, i, j) <==> Separated(s, i, j) && AtEdge(s, j)
  {
    MaybeThen(SEPARATORS, EXCHANGE, s, i, j);
    ExchangeMatches(s, i, j);
    ExchangeMatches(s, i + 1, j);
  }

  lemma AreaMatches(s: string, i: nat, j: nat)
    ensures Matches(AREA, s, i, j) <==> Area(s, i, j) && AtEdge(s, j)
  {
    OneThen("23456789", Cat(Times(D, 2, 2), AFTER_AREA), s, i, j);
    RunThen(DIGITS, 2, AFTER_AREA, s, i + 1, j);
    MaybeThen(")", Cat(PHONE_GAP, EXCHANGE), s, i + 3, j);
    SeparatedMatches(s, i + 3, j);
    SeparatedMatches(s, i + 4, j);
    assert CharAt(s, i + 3, ")") <==> i + 3 < |s| && s[i + 3] in ")";
  }

  lemma LocalMatches(s: string, i: nat, j: nat)
    ensures Matches(LOCAL_PHONE, s, i, j) <==> Local(s, i, j) && AtEdge(s, j)
  {
    LocalIsNested();
    MaybeThen("(", AREA, s, i, j);
    AreaMatches(s, i, j);
    AreaMatches(s, i + 1, j);
    assert CharAt(s, i, "(") <==> i < |s| && s[i] in "(";
  }

  lemma InternationalMatches(s: string, i: nat, j: nat)
    ensures Matches(INTERNATIONAL_PHONE, s, i, j)
            <==> CharAt(s, i, "+") && CharAt(s, i + 1, "1") && AtEdge(s, j)
                 && (Local(s, i + 2, j) || (CharAt(s, i + 2, SEPARATORS) && Local(s, i + 3, j)))
  {
    var rest := Cat(PHONE_GAP, LOCAL_PHONE);
    ChainCons(PHONE_GAP, [LOCAL_PHONE]);
    ChainCons(One("1"), [PHONE_GAP] + [LOCAL_PHONE]);
    ChainCons(One("+"), [One("1")] + ([PHONE_GAP] + [LOCAL_PHONE]));
    assert [One("+")] + ([One("1")] + ([PHONE_GAP] + [LOCAL_PHONE])) == [One("+"), One("1"), PHONE_GAP, LOCAL_PHONE];
    OneThen("+", Cat(One("1"), rest), s, i, j);
    OneThen("1", rest, s, i + 1, j);
    MaybeThen(SEPARATORS, LOCAL_PHONE, s, i + 2, j);
    LocalMatches(s, i + 2, j);
    LocalMatches(s, i + 3, j);
  }

  /** A phone number that ends with a word. */
  lemma {:induction false} PhonePattern(s: string, i: nat, j: nat)
    ensures Matches(PHONE, s, i, j) <==> Phone(s, i, j) && AtEdge(s, j)
  {
    AltMatches(INTERNATIONAL_PHONE, Cat(Edge, LOCAL_PHONE), s, i, j);
    InternationalMatches(s, i, j);
    EdgeThen(LOCAL_PHONE, s, i, j);
    LocalMatches(s, i, j);
  }
}
