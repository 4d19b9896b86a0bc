/**
 The regular expressions of the pattern table and what it means for one to
 match a stretch of text.  Which matches an engine reports is left open, except
 that it searches from left to right without overlaps.
 */
module Regex {
  import opened Prelude

  datatype Re =
    | Edge                          // \b
    | One(of: string)               // one character of a class
    | Cat(a: Re, b: Re)
    | Alt(a: Re, b: Re)
    | Maybe(a: Re)
    | Times(a: Re, lo: nat, hi: nat)
    | AtLeast(a: Re, lo: nat)

  const LOWER := "abcdefghijklmnopqrstuvwxyz"
  const UPPER := "ABCDEFGHIJKLMNOPQRSTUVWXYZ"
  const DIGITS := "0123456789"

  /** `\w`, the ASCII word characters. */
  predicate Word(c: char) {
    'a' <= c <= 'z' || 'A' <= c <= 'Z' || '0' <= c <= '9' || c == '_'
  }

  predicate WordAt(s: string, i: int) { 0 <= i < |s| && Word(s[i]) }

  predicate AtEdge(s: string, i: int) { WordAt(s, i - 1) != WordAt(s, i) }

  /** A cut at `i` would go through a word. */
  predicate Inside(s: string, i: int) { WordAt(s, i - 1) && WordAt(s, i) }

  ghost predicate Matches(re: Re, s: string, i: nat, j: nat)
    decreases re, 0
  {
    && i <= j <= |s|
    && match re
       case Edge => i == j && AtEdge(s, i)
       case One(of) => j == i + 1 && s[i] in of
       case Cat(a, b) => exists k :: i <= k <= j && Matches(a, s, i, k) && Matches(b, s, k, j)
       case Alt(a, b) => Matches(a, s, i, j) || Matches(b, s, i, j)
       case Maybe(a) => i == j || Matches(a, s, i, j)
       case Times(a, lo, hi) => exists n :: lo <= n <= hi && Repeats(a, n, s, i, j)
       case AtLeast(a, lo) => exists n :: lo <= n && Repeats(a, n, s, i, j)
  }

  ghost predicate Repeats(a: Re, n: nat, s: string, i: nat, j: nat)
    decreases a, n + 1
  {
    && i <= j <= |s|
    && if n == 0 then i == j
       else exists k :: i <= k <= j && Matches(a, s, i, k) && Repeats(a, n - 1, s, k, j)
  }

  // ---- edges ----

  /** No match can begin in the middle of a word. */
  predicate StartsClean(re: Re) {
    match re
    case Edge => true
    case One(of) => forall c | c in of :: !Word(c)
    case Cat(a, _) => StartsClean(a)
    case Alt(a, b) => StartsClean(a) && StartsClean(b)
    case _ => false
  }

  /** No match can end in the middle of a word. */
  predicate EndsClean(re: Re) {
    match re
    case Edge => true
    case One(of) => forall c | c in of :: !Word(c)
    case Cat(_, b) => EndsClean(b)
    case Alt(a, b) => EndsClean(a) && EndsClean(b)
    case _ => false
  }

  lemma {:induction false} StartIsClean(re: Re, s: string, i: nat, j: nat)
    requires StartsClean(re) && Matches(re, s, i, j)
    ensures !Inside(s, i)
  {
    match re
    case Cat(a, b) =>
      var k :| i <= k <= j && Matches(a, s, i, k) && Matches(b, s, k, j);
      StartIsClean(a, s, i, k);
    case Alt(a, b) =>
      if Matches(a, s, i, j) { StartIsClean(a, s, i, j); } else { StartIsClean(b, s, i, j); }
    case _ =>
  }

  lemma {:induction false} EndIsClean(re: Re, s: string, i: nat, j: nat)
    requires EndsClean(re) && Matches(re, s, i, j)
    ensures !Inside(s, j)
  {
    match re
    case Cat(a, b) =>
      var k :| i <= k <= j && Matches(a, s, i, k) && Matches(b, s, k, j);
      EndIsClean(b, s, k, j);
    case Alt(a, b) =>
      if Matches(a, s, i, j) { EndIsClean(a, s, i, j); } else { EndIsClean(b, s, i, j); }
    case _ =>
  }

  /** A sequence of expressions. */
  function Chain(rs: seq<Re>): Re
    requires rs != []
  {
    if |rs| == 1 then rs[0] else Cat(rs[0], Chain(rs[1..]))
  }

  lemma {:induction false} ChainEdges(rs: seq<Re>)
    requires rs != []
    ensures StartsClean(Chain(rs)) == StartsClean(rs[0])
    ensures EndsClean(Chain(rs)) == EndsClean(Last(rs))
  {
    if |rs| > 1 { ChainEdges(rs[1..]); }
  }

  // ---- repeated character classes ----

  /** n characters of a class. */
  predicate AllIn(s: string, i: nat, n: nat, of: string) {
    i + n <= |s| && forall k | i <= k < i + n :: s[k] in of
  }

  lemma FirstRepeat(a: Re, n: nat, s: string, i: nat, j: nat) returns (k: nat)
    requires n > 0 && Repeats(a, n, s, i, j)
    ensures i <= k <= j && Matches(a, s, i, k) && Repeats(a, n - 1, s, k, j)
  {
    k :| i <= k <= j && Matches(a, s, i, k) && Repeats(a, n - 1, s, k, j);
  }

  lemma {:induction false} RepeatOne(of: string, n: nat, s: string, i: nat, j: nat)
    ensures Repeats(One(of), n, s, i, j) <==> j == i + n && AllIn(s, i, n, of)
  {
    if n > 0 {
      RepeatOne(of, n - 1, s, i + 1, j);
      if j == i + n && AllIn(s, i, n, of) {
        assert Matches(One(of), s, i, i + 1);
      }
      if Repeats(One(of), n, s, i, j) {
        var k := FirstRepeat(One(of), n, s, i, j);
        assert k == i + 1;
      }
    }
  }

  lemma {:induction false} TimesOne(of: string, n: nat, s: string, i: nat, j: nat)
    ensures Matches(Times(One(of), n, n), s, i, j) <==> j == i + n && AllIn(s, i, n, of)
  {
    RepeatOne(of, n, s, i, j);
  }

  // ---- searching ----

  datatype Span = Span(lo: nat, hi: nat)

  predicate Ordered(s: string, ms: seq<Span>) {
    && (forall k | 0 <= k < |ms| :: ms[k].lo <= ms[k].hi <= |s|)
    && (forall k, l | 0 <= k < l < |ms| :: ms[k].hi <= ms[l].lo)
  }

  /** The position lies inside a span. */
  ghost predicate Covered(ms: seq<Span>, i: nat) {
    exists k :: 0 <= k < |ms| && ms[k].lo <= i < ms[k].hi
  }

  /** Leftmost search: a match that was not reported begins inside one that was. */
  ghost predicate FoundAll(re: Re, s: string, ms: seq<Span>) {
    && Ordered(s, ms)
    && (forall k | 0 <= k < |ms| :: Matches(re, s, ms[k].lo, ms[k].hi))
    && forall i: nat, j: nat | Matches(re, s, i, j) :: Covered(ms, i)
  }

  // ---- such a search exists ----

  /** Every match takes at least one character. */
  predicate Solid(re: Re) {
    match re
    case Edge => false
    case One(_) => true
    case Cat(a, b) => Solid(a) || Solid(b)
    case Alt(a, b) => Solid(a) && Solid(b)
    case Maybe(_) => false
    case Times(a, lo, _) => lo > 0 && Solid(a)
    case AtLeast(a, lo) => lo > 0 && Solid(a)
  }

  lemma {:induction false} SolidMatch(re: Re, s: string, i: nat, j: nat)
    requires Solid(re) && Matches(re, s, i, j)
    ensures i < j
    decreases re
  {
    match re
    case Cat(a, b) =>
      var k :| i <= k <= j && Matches(a, s, i, k) && Matches(b, s, k, j);
      if Solid(a) { SolidMatch(a, s, i, k); } else { SolidMatch(b, s, k, j); }
    case Alt(a, b) =>
      if Matches(a, s, i, j) { SolidMatch(a, s, i, j); } else { SolidMatch(b, s, i, j); }
    case Times(a, lo, hi) =>
      var n :| lo <= n <= hi && Repeats(a, n, s, i, j);
      var k := FirstRepeat(a, n, s, i, j);
      SolidMatch(a, s, i, k);
    case AtLeast(a, lo) =>
      var n :| lo <= n && Repeats(a, n, s, i, j);
      var k := FirstRepeat(a, n, s, i, j);
      SolidMatch(a, s, i, k);
    case _ =>
  }

  /** One solid link makes the chain solid. */
  lemma {:induction false} SolidChain(rs: seq<Re>, k: nat)
    requires k < |rs| && Solid(rs[k])
    ensures Solid(Chain(rs))
  {
    if |rs| > 1 && k > 0 { SolidChain(rs[1..], k - 1); }
  }

  /** Some match begins at `i`. */
  ghost predicate Begins(re: Re, s: string, i: nat) {
    exists j: nat :: Matches(re, s, i, j)
  }

  /** A match at or after `from` that no other begins before. */
  ghost predicate First(re: Re, s: string, from: nat, m: Span) {
    && from <= m.lo && Matches(re, s, m.lo, m.hi)
    && forall i: nat | from <= i && Begins(re, s, i) :: m.lo <= i
  }

  lemma {:induction false} SomeFirst(re: Re, s: string, from: nat, i: nat)
    requires from <= i && Begins(re, s, i)
    ensures exists m :: First(re, s, from, m)
    decreases i
  {
    if h: nat :| from <= h < i && Begins(re, s, h) {
      SomeFirst(re, s, from, h);
    } else {
      var j: nat :| Matches(re, s, i, j);
      assert First(re, s, from, Span(i, j));
    }
  }

  /** A leftmost search from a position on. */
  ghost function Leftmost(re: Re, s: string, from: nat): seq<Span>
    decreases |s| - from
  {
    if m :| First(re, s, from, m) && from < m.hi then [m] + Leftmost(re, s, m.hi) else []
  }

  /** The spans are matches that begin at `from` or later. */
  ghost predicate MatchesFrom(re: Re, s: string, from: nat, ms: seq<Span>) {
    forall k | 0 <= k < |ms| :: from <= ms[k].lo && Matches(re, s, ms[k].lo, ms[k].hi)
  }

  /** What a leftmost search from `from` on must report. */
  ghost predicate FoundFrom(re: Re, s: string, from: nat, ms: seq<Span>) {
    && Ordered(s, ms) && MatchesFrom(re, s, from, ms)
    && forall i: nat | from <= i && Begins(re, s, i) :: Covered(ms, i)
  }

  lemma CoveredNext(m: Span, rest: seq<Span>, i: nat)
    requires m.lo <= i < m.hi || Covered(rest, i)
    ensures Covered([m] + rest, i)
  {
    var ms := [m] + rest;
    assert ms[0] == m && forall k | 0 <= k < |rest| :: ms[k + 1] == rest[k];
  }

  lemma MatchesNext(re: Re, s: string, from: nat, m: Span, rest: seq<Span>)
    requires from <= m.lo <= m.hi <= |s| && Matches(re, s, m.lo, m.hi) && Ordered(s, rest)
    requires MatchesFrom(re, s, m.hi, rest)
    ensures MatchesFrom(re, s, from, [m] + rest) && Ordered(s, [m] + rest)
  {
  }

  lemma {:induction false} LeftmostFound(re: Re, s: string, from: nat)
    requires Solid(re)
    ensures FoundFrom(re, s, from, Leftmost(re, s, from))
    decreases |s| - from
  {
    if i: nat :| from <= i && Begins(re, s, i) {
      SomeFirst(re, s, from, i);
      var f :| First(re, s, from, f);
      SolidMatch(re, s, f.lo, f.hi);
      var m :| First(re, s, from, m) && from < m.hi && Leftmost(re, s, from) == [m] + Leftmost(re, s, m.hi);
      var rest := Leftmost(re, s, m.hi);
      LeftmostFound(re, s, m.hi);
      MatchesNext(re, s, from, m, rest);
      forall i: nat | from <= i && Begins(re, s, i) ensures Covered([m] + rest, i) { CoveredNext(m, rest, i); }
    } else {
      assert forall m | First(re, s, from, m) :: Begins(re, s, m.lo);
    }
  }

  /** An expression whose matches are never empty can be searched for. */
  lemma SearchExists(re: Re, s: string)
    requires Solid(re)
    ensures FoundAll(re, s, Leftmost(re, s, 0))
  {
    LeftmostFound(re, s, 0);
    forall i: nat, j: nat | Matches(re, s, i, j) ensures Covered(Leftmost(re, s, 0), i) {
      assert Begins(re, s, i);
    }
  }

  /** Both edges of every span are at the rim of a word, if at a word at all. */
  predicate CleanCuts(s: string, ms: seq<Span>) {
    forall k | 0 <= k < |ms| :: !Inside(s, ms[k].lo) && !Inside(s, ms[k].hi)
  }

  lemma FoundAreClean(re: Re, s: string, ms: seq<Span>)
    requires StartsClean(re) && EndsClean(re) && FoundAll(re, s, ms)
    ensures CleanCuts(s, ms)
  {
    forall k | 0 <= k < |ms| ensures !Inside(s, ms[k].lo) && !Inside(s, ms[k].hi) {
      StartIsClean(re, s, ms[k].lo, ms[k].hi);
      EndIsClean(re, s, ms[k].lo, ms[k].hi);
    }
  }
}
