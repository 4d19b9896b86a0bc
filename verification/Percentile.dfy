/**
 Nearest-rank percentiles: the walk over a histogram's buckets finds the same
 value as the element of that rank in the sorted list of samples.
 */
module Percentile {
  import opened Prelude

  /** `maxLatencyBucketMS`. */
  const BUCKETS: nat := 100

  /** What a sample reads as: whole milliseconds, or 100 for everything the buckets do not cover. */
  function Clamp(ms: int): nat {
    if 0 <= ms < BUCKETS then ms else BUCKETS
  }

  function Clamped(s: seq<int>): (c: seq<nat>)
    ensures |c| == |s|
    ensures forall i | 0 <= i < |s| :: c[i] == Clamp(s[i])
  {
    seq(|s|, i requires 0 <= i < |s| => Clamp(s[i]))
  }

  // ---- the reference: a sorted list ----

  predicate Sorted(s: seq<nat>) {
    forall i, j | 0 <= i < j < |s| :: s[i] <= s[j]
  }

  function Insert(s: seq<nat>, x: nat): seq<nat> {
    if s == [] || Last(s) <= x then s + [x] else Insert(s[..|s| - 1], x) + [Last(s)]
  }

  function Sort(s: seq<nat>): seq<nat> {
    if s == [] then [] else Insert(Sort(s[..|s| - 1]), Last(s))
  }

  lemma LastIsLargest(s: seq<nat>, y: nat)
    requires Sorted(s) && y in s
    ensures y <= Last(s)
  {
    var i :| 0 <= i < |s| && s[i] == y;
    assert i < |s| - 1 ==> s[i] <= s[|s| - 1];
  }

  lemma AppendSorted(s: seq<nat>, y: nat)
    requires Sorted(s) && forall z | z in s :: z <= y
    ensures Sorted(s + [y]) && multiset(s + [y]) == multiset(s) + multiset{y}
  {
    assert forall i | 0 <= i < |s| :: s[i] in s;
  }

  lemma {:induction false} InsertSorted(s: seq<nat>, x: nat)
    requires Sorted(s)
    ensures Sorted(Insert(s, x)) && multiset(Insert(s, x)) == multiset(s) + multiset{x}
    ensures forall y | y in Insert(s, x) :: y == x || y in s
  {
    forall y | y in s ensures y <= Last(s) { LastIsLargest(s, y); }
    if s == [] || Last(s) <= x {
      AppendSorted(s, x);
    } else {
      var init := s[..|s| - 1];
      assert s == init + [Last(s)];
      InsertSorted(init, x);
      AppendSorted(Insert(init, x), Last(s));
    }
  }

  lemma {:induction false} SortSorted(s: seq<nat>)
    ensures Sorted(Sort(s)) && multiset(Sort(s)) == multiset(s)
    ensures |Sort(s)| == |s|
  {
    if s != [] {
      SortSorted(s[..|s| - 1]);
      InsertSorted(Sort(s[..|s| - 1]), Last(s));
      assert s == s[..|s| - 1] + [Last(s)];
    }
    assert |multiset(Sort(s))| == |multiset(s)|;
  }

  /** rank = ceil(N * p), at least 1, for p = num/den. */
  function Rank(n: nat, num: nat, den: nat): (r: nat)
    requires n > 0 && 0 < den && num <= den
    ensures 1 <= r <= n
    ensures num > 0 ==> (r - 1) * den < n * num <= r * den
  {
    CeilBounds(n, num, den);
    var c := (n * num + den - 1) / den;
    if c == 0 then 1 else c
  }

  lemma CeilBounds(n: nat, num: nat, den: nat)
    requires n > 0 && 0 < den && num <= den
    ensures var c := (n * num + den - 1) / den;
            && (num == 0 ==> c == 0)
            && (num > 0 ==> 1 <= c <= n && (c - 1) * den < n * num <= c * den)
  {
    var m := n * num;
    var c := (m + den - 1) / den;
    assert m <= n * den;
    DivBounds(m + den - 1, den);
    if num > 0 {
      assert m >= 1;
      assert c > n ==> (c - 1) * den >= n * den;
    } else {
      assert m == 0;
    }
  }

  lemma DivBounds(a: nat, d: nat)
    requires d > 0
    ensures (a / d) * d <= a < (a / d) * d + d
  {
  }

  /** The definition: the element of that rank in the sorted list. */
  function Nearest(samples: seq<int>, num: nat, den: nat): nat
    requires 0 < den && num <= den
  {
    if samples == [] then 0
    else
      SortSorted(Clamped(samples));
      Sort(Clamped(samples))[Rank(|samples|, num, den) - 1]
  }

  // ---- cumulative counts ----

  function CountUpTo(s: seq<nat>, v: nat): nat {
    if s == [] then 0 else CountUpTo(s[..|s| - 1], v) + (if Last(s) <= v then 1 else 0)
  }

  function Cumulative(m: multiset<nat>, v: nat): nat {
    m[v] + (if v == 0 then 0 else Cumulative(m, v - 1))
  }

  lemma {:induction false} CumulativeAdd(m: multiset<nat>, x: nat, v: nat)
    ensures Cumulative(m + multiset{x}, v) == Cumulative(m, v) + (if x <= v then 1 else 0)
  {
    if v > 0 { CumulativeAdd(m, x, v - 1); }
  }

  lemma {:induction false} CumulativeNone(v: nat)
    ensures Cumulative(multiset{}, v) == 0
  {
    if v > 0 { CumulativeNone(v - 1); }
  }

  lemma {:induction false} CountIsCumulative(s: seq<nat>, v: nat)
    ensures CountUpTo(s, v) == Cumulative(multiset(s), v)
  {
    if s == [] {
      CumulativeNone(v);
    } else {
      CountIsCumulative(s[..|s| - 1], v);
      CumulativeAdd(multiset(s[..|s| - 1]), Last(s), v);
      assert s == s[..|s| - 1] + [Last(s)];
    }
  }

  lemma {:induction false} CountBound(s: seq<nat>, v: nat)
    ensures CountUpTo(s, v) <= |s|
  {
    if s != [] { CountBound(s[..|s| - 1], v); }
  }

  lemma {:induction false} CountAll(s: seq<nat>, v: nat)
    requires forall i | 0 <= i < |s| :: s[i] <= v
    ensures CountUpTo(s, v) == |s|
  {
    if s != [] { CountAll(s[..|s| - 1], v); }
  }

  /** In a sorted list, counting up to a value and looking at a rank are the same question. */
  lemma {:induction false} SortedRank(s: seq<nat>, k: nat, v: nat)
    requires Sorted(s) && k < |s|
    ensures s[k] <= v <==> k < CountUpTo(s, v)
  {
    var init := s[..|s| - 1];
    CountBound(init, v);
    if Last(s) <= v {
      CountAll(init, v);
    } else if k < |init| {
      SortedRank(init, k, v);
    }
  }

  lemma {:induction false} RankIsFirstReached(c: seq<nat>, s: seq<nat>, rank: nat, i: nat)
    requires Sorted(s) && multiset(s) == multiset(c) && 1 <= rank <= |s|
    requires Cumulative(multiset(c), i) >= rank
    requires i > 0 ==> Cumulative(multiset(c), i - 1) < rank
    ensures s[rank - 1] == i
  {
    CountIsCumulative(s, i);
    SortedRank(s, rank - 1, i);
    if i > 0 {
      CountIsCumulative(s, i - 1);
      SortedRank(s, rank - 1, i - 1);
    }
  }

  /** The walk: the first bucket at which the cumulative count reaches the rank holds the answer. */
  lemma {:induction false} WalkFindsRank(samples: seq<int>, rank: nat, i: nat)
    requires 1 <= rank <= |samples|
    requires Cumulative(multiset(Clamped(samples)), i) >= rank
    requires i > 0 ==> Cumulative(multiset(Clamped(samples)), i - 1) < rank
    ensures |Sort(Clamped(samples))| == |samples| && Sort(Clamped(samples))[rank - 1] == i
  {
    SortSorted(Clamped(samples));
    RankIsFirstReached(Clamped(samples), Sort(Clamped(samples)), rank, i);
  }

  /** The percentile: the share of samples up to it reaches num/den, the share below it does not. */
  lemma {:induction false} NearestIsQuantile(samples: seq<int>, num: nat, den: nat)
    requires samples != [] && 0 < num <= den
    ensures var c, v := Clamped(samples), Nearest(samples, num, den);
            && |samples| * num <= CountUpTo(c, v) * den
            && (v > 0 ==> CountUpTo(c, v - 1) * den < |samples| * num)
  {
    var c, v, r := Clamped(samples), Nearest(samples, num, den), Rank(|samples|, num, den);
    SortSorted(c);
    CountsAtRank(Sort(c), c, r - 1);
    ProductAtMost(r, CountUpTo(c, v), den);
    if v > 0 { ProductAtMost(CountUpTo(c, v - 1), r - 1, den); }
  }

  lemma CountsAtRank(s: seq<nat>, c: seq<nat>, k: nat)
    requires Sorted(s) && multiset(s) == multiset(c) && k < |s|
    ensures k < CountUpTo(c, s[k]) && (s[k] > 0 ==> CountUpTo(c, s[k] - 1) <= k)
  {
    SameCount(s, c, s[k]);
    SortedRank(s, k, s[k]);
    if s[k] > 0 {
      SameCount(s, c, s[k] - 1);
      SortedRank(s, k, s[k] - 1);
    }
  }

  lemma SameCount(s: seq<nat>, c: seq<nat>, v: nat)
    requires multiset(s) == multiset(c)
    ensures CountUpTo(s, v) == CountUpTo(c, v)
  {
    CountIsCumulative(s, v);
    CountIsCumulative(c, v);
  }

  lemma ProductAtMost(a: nat, b: nat, d: nat)
    requires a <= b
    ensures a * d <= b * d
  {
  }

  lemma {:induction false} CumulativeTotal(samples: seq<int>)
    ensures Cumulative(multiset(Clamped(samples)), BUCKETS) == |samples|
  {
    CountIsCumulative(Clamped(samples), BUCKETS);
    CountAll(Clamped(samples), BUCKETS);
  }

  lemma RankMonotone(n: nat, num: nat, num': nat, den: nat)
    requires n > 0 && 0 < den && num <= num' <= den
    ensures Rank(n, num, den) <= Rank(n, num', den)
  {
    var a, b := n * num + den - 1, n * num' + den - 1;
    assert n * num <= n * num';
    DivMonotone(a, b, den);
  }

  lemma DivMonotone(a: nat, b: nat, d: nat)
    requires a <= b && d > 0
    ensures a / d <= b / d
  {
    DivBounds(a, d);
    DivBounds(b, d);
    var q, r := a / d, b / d;
    assert q > r ==> q * d >= (r + 1) * d;
  }

  /** A larger percentile is never smaller. */
  lemma NearestMonotone(samples: seq<int>, num: nat, num': nat, den: nat)
    requires 0 < den && num <= num' <= den
    ensures Nearest(samples, num, den) <= Nearest(samples, num', den)
  {
    if samples != [] {
      SortSorted(Clamped(samples));
      RankMonotone(|samples|, num, num', den);
    }
  }
}
