/** Why no social security number survives the redactor's passes. */
module Cleanliness {
  import opened Prelude
  import opened Regex
  import opened Redactor

  /** NNN-NN-NNNN. */
  predicate SsnText(x: string) {
    && |x| == 11 && x[3] == '-' && x[6] == '-'
    && forall k | 0 <= k < 11 && k != 3 && k != 6 :: x[k] in DIGITS
  }

  /** NNN-NN-NNNN at `p`, not part of a longer word. */
  predicate SsnAt(s: string, p: nat) {
    p + 11 <= |s| && SsnText(s[p..p + 11]) && AtEdge(s, p) && AtEdge(s, p + 11)
  }

  ghost predicate SsnFree(s: string) { forall p: nat :: !SsnAt(s, p) }

  lemma CatMatches(a: Re, b: Re, s: string, i: nat, k: nat, j: nat)
    requires Matches(a, s, i, k) && Matches(b, s, k, j)
    ensures Matches(Cat(a, b), s, i, j)
  {
  }

  lemma SplitCat(a: Re, b: Re, s: string, i: nat, j: nat) returns (k: nat)
    requires Matches(Cat(a, b), s, i, j)
    ensures i <= k <= j && Matches(a, s, i, k) && Matches(b, s, k, j)
  {
    k :| i <= k <= j && Matches(a, s, i, k) && Matches(b, s, k, j);
  }

  /** A run of n characters of a class, and then something. */
  lemma {:induction false} RunThen(of: string, n: nat, b: Re, s: string, i: nat, j: nat)
    ensures Matches(Cat(Times(One(of), n, n), b), s, i, j) <==> AllIn(s, i, n, of) && Matches(b, s, i + n, j)
  {
    if Matches(Cat(Times(One(of), n, n), b), s, i, j) {
      var k := SplitCat(Times(One(of), n, n), b, s, i, j);
      TimesOne(of, n, s, i, k);
    }
    if AllIn(s, i, n, of) && Matches(b, s, i + n, j) {
      TimesOne(of, n, s, i, i + n);
      CatMatches(Times(One(of), n, n), b, s, i, i + n, j);
    }
  }

  lemma DashThen(b: Re, s: string, i: nat, j: nat)
    ensures Matches(Cat(One("-"), b), s, i, j) <==> i < |s| && s[i] == '-' && Matches(b, s, i + 1, j)
  {
    if Matches(Cat(One("-"), b), s, i, j) {
      var k := SplitCat(One("-"), b, s, i, j);
      assert s[i] in "-";
    }
    if i < |s| && s[i] == '-' && Matches(b, s, i + 1, j) {
      assert s[i] in "-";
      CatMatches(One("-"), b, s, i, i + 1, j);
    }
  }

  lemma EdgeThen(b: Re, s: string, i: nat, j: nat)
    ensures Matches(Cat(Edge, b), s, i, j) <==> AtEdge(s, i) && Matches(b, s, i, j)
  {
    if AtEdge(s, i) && Matches(b, s, i, j) {
      assert Matches(Edge, s, i, i);
      CatMatches(Edge, b, s, i, i, j);
    }
  }

  /** The expression in the pattern table means what `SsnAt` says. */
  lemma {:induction false} SsnPattern(s: string, i: nat, j: nat)
    ensures Matches(SSN, s, i, j) <==> SsnAt(s, i) && j == i + 11
  {
    var r4 := Cat(Times(D, 4, 4), Edge);
    var r3 := Cat(One("-"), r4);
    var r2 := Cat(Times(D, 2, 2), r3);
    var r1 := Cat(One("-"), r2);
    var r0 := Cat(Times(D, 3, 3), r1);
    SsnIsNested();
    EdgeThen(r0, s, i, j);
    RunThen(DIGITS, 3, r1, s, i, j);
    DashThen(r2, s, i + 3, j);
    RunThen(DIGITS, 2, r3, s, i + 4, j);
    DashThen(r4, s, i + 6, j);
    RunThen(DIGITS, 4, Edge, s, i + 7, j);
    assert Matches(Edge, s, i + 11, j) <==> j == i + 11 <= |s| && AtEdge(s, j);
    TextByRuns(s, i);
  }

  lemma TextByRuns(s: string, i: nat)
    ensures i + 11 <= |s| && SsnText(s[i..i + 11])
            <==> AllIn(s, i, 3, DIGITS) && i + 3 < |s| && s[i + 3] == '-' && AllIn(s, i + 4, 2, DIGITS)
                 && i + 6 < |s| && s[i + 6] == '-' && AllIn(s, i + 7, 4, DIGITS)
  {
    if i + 11 <= |s| {
      var x := s[i..i + 11];
      assert forall k | 0 <= k < 11 :: x[k] == s[i + k];
      assert forall k | i <= k < i + 11 :: s[k] == x[k - i];
    }
  }

  lemma ChainCons(r: Re, rs: seq<Re>)
    requires rs != []
    ensures Chain([r] + rs) == Cat(r, Chain(rs))
  {
    assert ([r] + rs)[1..] == rs;
  }

  lemma SsnIsNested()
    ensures SSN == Cat(Edge, Cat(Times(D, 3, 3), Cat(One("-"), Cat(Times(D, 2, 2), Cat(One("-"), Cat(Times(D, 4, 4), Edge))))))
  {
    var t1 := [Edge];
    var t2 := [Times(D, 4, 4)] + t1;
    var t3 := [One("-")] + t2;
    var t4 := [Times(D, 2, 2)] + t3;
    var t5 := [One("-")] + t4;
    var t6 := [Times(D, 3, 3)] + t5;
    ChainCons(Times(D, 4, 4), t1);
    ChainCons(One("-"), t2);
    ChainCons(Times(D, 2, 2), t3);
    ChainCons(One("-"), t4);
    ChainCons(Times(D, 3, 3), t5);
    ChainCons(Edge, t6);
    assert [Edge] + t6 == [Edge, Times(D, 3, 3), One("-"), Times(D, 2, 2), One("-"), Times(D, 4, 4), Edge];
  }

  // ---- replacing cannot create one ----

  /** A marker: brackets at both ends, and nowhere two digits in a row. */
  predicate Inert(m: string) {
    && |m| >= 2 && m[0] == '[' && Last(m) == ']'
    && forall k | 0 <= k < |m| - 1 :: !(IsDigit(m[k]) && IsDigit(m[k + 1]))
  }

  /** A character that occurs in a social security number. */
  predicate SsnChar(c: char) { c in DIGITS || c == '-' }

  lemma NotSsn(s: string, p: nat, k: nat)
    requires p + 11 <= |s| && k < 11 && !SsnChar(s[p + k])
    ensures !SsnAt(s, p)
  {
    assert s[p..p + 11][k] == s[p + k];
  }

  lemma NotTwoDigits(s: string, p: nat)
    requires p + 11 <= |s| && !(IsDigit(s[p]) && IsDigit(s[p + 1]))
    ensures !SsnAt(s, p)
  {
    assert s[p..p + 11][0] == s[p] && s[p..p + 11][1] == s[p + 1];
  }

  /** Whether there is an occurrence depends on the eleven characters and their two neighbours. */
  lemma SameWindow(s: string, p: nat, t: string, q: nat)
    requires p + 11 <= |s| && q + 11 <= |t| && s[p..p + 11] == t[q..q + 11]
    requires SsnText(s[p..p + 11]) ==> WordAt(s, p - 1) == WordAt(t, q - 1) && WordAt(s, p + 11) == WordAt(t, q + 11)
    ensures SsnAt(s, p) == SsnAt(t, q)
  {
    assert s[p] == s[p..p + 11][0] == t[q];
    assert s[p + 10] == s[p..p + 11][10] == t[q + 10];
  }

  /** Text before a bracket: an occurrence ends there just as it would at the end of the text. */
  lemma SsnPrefix(w: string, t: string, p: nat)
    requires p + 11 <= |w| && (t == "" || !Word(t[0]))
    ensures SsnAt(w + t, p) == SsnAt(w, p)
  {
    assert (w + t)[p..p + 11] == w[p..p + 11];
    SameWindow(w + t, p, w, p);
  }

  lemma SsnSuffix(w: string, t: string, p: nat)
    requires |w| <= p && p + 11 <= |w + t| && (w == "" || !Word(Last(w)))
    ensures SsnAt(w + t, p) == SsnAt(t, p - |w|)
  {
    var q := p - |w|;
    assert (w + t)[p..p + 11] == t[q..q + 11];
    SameWindow(w + t, p, t, q);
  }

  /** No occurrence touches a marker. */
  lemma MarkerBlocks(w: string, m: string, t: string, p: nat)
    requires Inert(m) && p + 11 <= |w + m + t| && |w| < p + 11 && p < |w + m|
    ensures !SsnAt(w + m + t, p)
  {
    var s := w + m + t;
    assert forall k | 0 <= k < |m| :: s[|w| + k] == m[k];
    if p <= |w| {
      assert s[p + (|w| - p)] == m[0];
      NotSsn(s, p, |w| - p);
    } else if |w + m| <= p + 11 {
      assert s[p + (|w + m| - 1 - p)] == m[|m| - 1];
      NotSsn(s, p, |w + m| - 1 - p);
    } else {
      assert m[p - |w|] == s[p] && m[p + 1 - |w|] == s[p + 1];
      NotTwoDigits(s, p);
    }
  }

  /** An occurrence in text around a marker lies entirely before or after the marker. */
  lemma AroundMarker(w: string, m: string, t: string, p: nat)
    requires Inert(m) && SsnAt(w + m + t, p)
    ensures (p + 11 <= |w| && SsnAt(w, p)) || (|w + m| <= p && SsnAt(t, p - |w + m|))
  {
    if p + 11 <= |w| {
      assert w + m + t == w + (m + t) && (m + t)[0] == m[0];
      SsnPrefix(w, m + t, p);
    } else if |w + m| <= p {
      assert Last(w + m) == Last(m);
      SsnSuffix(w + m, t, p);
    } else {
      MarkerBlocks(w, m, t, p);
    }
  }

  /** Cutting the text at a clean place creates no occurrence. */
  lemma CutBefore(s: string, n: nat, p: nat)
    requires n <= |s| && !Inside(s, n) && SsnAt(s[..n], p)
    ensures SsnAt(s, p)
  {
    var x := s[..n];
    assert s[p..p + 11] == x[p..p + 11];
    assert s[p + 10] == x[p..p + 11][10];
    SameWindow(x, p, s, p);
  }

  lemma CutAfter(s: string, n: nat, p: nat)
    requires n <= |s| && !Inside(s, n) && SsnAt(s[n..], p)
    ensures SsnAt(s, n + p)
  {
    var x := s[n..];
    assert s[n + p..n + p + 11] == x[p..p + 11];
    assert s[n + p] == x[p..p + 11][0];
    SameWindow(x, p, s, n + p);
  }

  lemma CleanPrefix(s: string, ms: seq<Span>, n: nat)
    requires Ordered(s, ms) && CleanCuts(s, ms) && n <= |s| && forall k | 0 <= k < |ms| :: ms[k].hi <= n
    ensures Ordered(s[..n], ms) && CleanCuts(s[..n], ms)
  {
    forall k | 0 <= k < |ms| ensures !Inside(s[..n], ms[k].lo) && !Inside(s[..n], ms[k].hi) {
      assert !Inside(s, ms[k].lo) && !Inside(s, ms[k].hi);
    }
  }

  /** Where an occurrence in rewritten text comes from: a place of the original after or before the last span. */
  lemma {:induction false} Origin(s: string, m: Span, w: string, marker: string, p: nat)
    requires m.lo <= m.hi <= |s| && !Inside(s, m.lo) && !Inside(s, m.hi) && Inert(marker)
    requires SsnAt(w + marker + s[m.hi..], p)
    ensures SsnAt(w, p) || exists q: nat :: m.hi <= q && SsnAt(s, q)
  {
    AroundMarker(w, marker, s[m.hi..], p);
    if !SsnAt(w, p) {
      CutAfter(s, m.hi, p - |w + marker|);
    }
  }

  /** Replacing at clean cuts by markers creates no occurrence. */
  lemma {:induction false} StaysFree(s: string, ms: seq<Span>, marker: string)
    requires Ordered(s, ms) && CleanCuts(s, ms) && Inert(marker) && SsnFree(s)
    ensures SsnFree(Replaced(s, ms, marker))
    decreases |ms|
  {
    if ms != [] {
      var m, rest := Last(ms), ms[..|ms| - 1];
      assert !Inside(s, m.lo) && !Inside(s, m.hi);
      forall p: nat ensures !SsnAt(s[..m.lo], p) {
        if SsnAt(s[..m.lo], p) { CutBefore(s, m.lo, p); }
      }
      CleanPrefix(s, rest, m.lo);
      StaysFree(s[..m.lo], rest, marker);
      forall p: nat ensures !SsnAt(Replaced(s, ms, marker), p) {
        if SsnAt(Replaced(s, ms, marker), p) { Origin(s, m, Replaced(s[..m.lo], rest, marker), marker, p); }
      }
    }
  }

  /** Every occurrence begins where a span begins. */
  ghost predicate Covers(s: string, ms: seq<Span>) {
    forall p: nat | SsnAt(s, p) :: exists k :: 0 <= k < |ms| && ms[k].lo == p < ms[k].hi
  }

  /** Replacing every occurrence leaves none. */
  lemma {:induction false} BecomesFree(s: string, ms: seq<Span>, marker: string)
    requires Ordered(s, ms) && CleanCuts(s, ms) && Inert(marker) && Covers(s, ms)
    ensures SsnFree(Replaced(s, ms, marker))
    decreases |ms|
  {
    if ms != [] {
      var m, rest := Last(ms), ms[..|ms| - 1];
      assert !Inside(s, m.lo) && !Inside(s, m.hi);
      CleanPrefix(s, rest, m.lo);
      CoversPrefix(s, ms);
      BecomesFree(s[..m.lo], rest, marker);
      NoneAfter(s, ms);
      forall p: nat ensures !SsnAt(Replaced(s, ms, marker), p) {
        if SsnAt(Replaced(s, ms, marker), p) { Origin(s, m, Replaced(s[..m.lo], rest, marker), marker, p); }
      }
    }
  }

  lemma NoneAfter(s: string, ms: seq<Span>)
    requires ms != [] && Ordered(s, ms) && Covers(s, ms)
    ensures forall q: nat | Last(ms).hi <= q :: !SsnAt(s, q)
  {
    assert forall k | 0 <= k < |ms| - 1 :: ms[k].hi <= Last(ms).lo;
  }

  lemma CoversPrefix(s: string, ms: seq<Span>)
    requires ms != [] && Ordered(s, ms) && CleanCuts(s, ms) && Covers(s, ms)
    ensures Covers(s[..Last(ms).lo], ms[..|ms| - 1])
  {
    var n, rest := Last(ms).lo, ms[..|ms| - 1];
    assert !Inside(s, n);
    forall p: nat | SsnAt(s[..n], p) ensures exists k :: 0 <= k < |rest| && rest[k].lo == p < rest[k].hi {
      CutBefore(s, n, p);
      var k :| 0 <= k < |ms| && ms[k].lo == p < ms[k].hi;
      assert rest[k].lo == p;
    }
  }

  /** Two occurrences never overlap. */
  lemma {:induction false} NoOverlap(s: string, p: nat, q: nat)
    requires SsnAt(s, p) && p < q < p + 11
    ensures !SsnAt(s, q)
  {
    var x, d := s[p..p + 11], q - p;
    assert s[q] == x[d] && s[q - 1] == x[d - 1];
    if d >= 8 {
      assert x[d - 1] in DIGITS && x[d] in DIGITS;
      assert Inside(s, q);
    } else if q + 11 <= |s| {
      var y := s[q..q + 11];
      assert y[3] == s[q + 3] == x[d + 3] && y[0] == x[d];
      assert d == 3 ==> y[0] == '-';
      assert d != 3 ==> y[3] in DIGITS;
    }
  }

  lemma SearchCovers(s: string, ms: seq<Span>)
    requires FoundAll(SSN, s, ms)
    ensures Covers(s, ms)
  {
    forall p: nat | SsnAt(s, p) ensures exists k :: 0 <= k < |ms| && ms[k].lo == p < ms[k].hi {
      SsnPattern(s, p, p + 11);
      var k :| 0 <= k < |ms| && ms[k].lo <= p < ms[k].hi;
      SsnPattern(s, ms[k].lo, ms[k].hi);
      if ms[k].lo < p { NoOverlap(s, ms[k].lo, p); }
    }
  }
}
