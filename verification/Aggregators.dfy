/**
 The aggregator: a window of latency samples and persisted log entries, kept
 as counters, a histogram and category maps, and summarised at its end.
 */
module Aggregators {
  import opened Prelude
  import opened Percentile
  import opened Session

  /** What a window has seen: latencies in milliseconds, and entries reported written. */
  datatype Window = Window(samples: seq<int>, audited: seq<Log>)

  const NO_TRAFFIC := Window([], [])

  // ---- categories ----

  /** The categories an entry contributes; the response side counts only if it is there. */
  function Categories(e: Log, response: bool): seq<string> {
    if !response then e.request.categories
    else if e.response.payload != "" then e.response.categories
    else []
  }

  function Bump(m: map<string, nat>, c: string): map<string, nat> {
    m[c := (if c in m then m[c] else 0) + 1]
  }

  function BumpAll(m: map<string, nat>, cats: seq<string>): map<string, nat> {
    if cats == [] then m else Bump(BumpAll(m, cats[..|cats| - 1]), Last(cats))
  }

  function Tally(es: seq<Log>, response: bool): map<string, nat> {
    if es == [] then map[] else BumpAll(Tally(es[..|es| - 1], response), Categories(Last(es), response))
  }

  function Detected(es: seq<Log>, response: bool): nat {
    if es == [] then 0 else Detected(es[..|es| - 1], response) + |Categories(Last(es), response)|
  }

  function Responses(es: seq<Log>): nat {
    if es == [] then 0 else Responses(es[..|es| - 1]) + (if Last(es).response.payload != "" then 1 else 0)
  }

  /** How often a category occurs in the entries. */
  function Mentions(es: seq<Log>, response: bool, c: string): nat {
    if es == [] then 0 else Mentions(es[..|es| - 1], response, c) + multiset(Categories(Last(es), response))[c]
  }

  function Get(m: map<string, nat>, c: string): nat {
    if c in m then m[c] else 0
  }

  ghost function Sum(m: map<string, nat>): nat
    decreases m.Keys
  {
    if m == map[] then 0
    else
      var c :| c in m;
      assert (m - {c}).Keys == m.Keys - {c};
      m[c] + Sum(m - {c})
  }

  lemma {:induction false} SumRemove(m: map<string, nat>, c: string)
    requires c in m
    ensures Sum(m) == m[c] + Sum(m - {c})
    decreases m.Keys
  {
    var d :| d in m && Sum(m) == m[d] + Sum(m - {d});
    if d != c {
      assert (m - {d}).Keys == m.Keys - {d} && (m - {c}).Keys == m.Keys - {c};
      SumRemove(m - {d}, c);
      SumRemove(m - {c}, d);
      assert m - {d} - {c} == m - {c} - {d};
    }
  }

  lemma {:induction false} BumpSum(m: map<string, nat>, c: string)
    ensures Sum(Bump(m, c)) == Sum(m) + 1
  {
    SumRemove(Bump(m, c), c);
    assert Bump(m, c) - {c} == m - {c};
    if c in m { SumRemove(m, c); } else { assert m - {c} == m; }
  }

  lemma {:induction false} BumpAllSum(m: map<string, nat>, cats: seq<string>)
    ensures Sum(BumpAll(m, cats)) == Sum(m) + |cats|
  {
    if cats != [] {
      BumpAllSum(m, cats[..|cats| - 1]);
      BumpSum(BumpAll(m, cats[..|cats| - 1]), Last(cats));
    }
  }

  /** The PII total of a window is the sum over its categories. */
  lemma {:induction false} TallySum(es: seq<Log>, response: bool)
    ensures Sum(Tally(es, response)) == Detected(es, response)
  {
    if es != [] {
      TallySum(es[..|es| - 1], response);
      BumpAllSum(Tally(es[..|es| - 1], response), Categories(Last(es), response));
    }
  }

  lemma {:induction false} BumpAllCounts(m: map<string, nat>, cats: seq<string>, c: string)
    ensures Get(BumpAll(m, cats), c) == Get(m, c) + multiset(cats)[c]
  {
    if cats != [] {
      BumpAllCounts(m, cats[..|cats| - 1], c);
      assert cats == cats[..|cats| - 1] + [Last(cats)];
    }
  }

  /** Each category's number is how often it was found. */
  lemma {:induction false} TallyCounts(es: seq<Log>, response: bool, c: string)
    ensures Get(Tally(es, response), c) == Mentions(es, response, c)
  {
    if es != [] {
      TallyCounts(es[..|es| - 1], response, c);
      BumpAllCounts(Tally(es[..|es| - 1], response), Categories(Last(es), response), c);
    }
  }

  /** The entries that have a response side. */
  function WithResponse(es: seq<Log>): seq<Log> {
    if es == [] then []
    else WithResponse(es[..|es| - 1]) + if Last(es).response.payload != "" then [Last(es)] else []
  }

  function RequestFinds(es: seq<Log>): nat {
    if es == [] then 0 else RequestFinds(es[..|es| - 1]) + |Last(es).request.categories|
  }

  function ResponseFinds(es: seq<Log>): nat {
    if es == [] then 0 else ResponseFinds(es[..|es| - 1]) + |Last(es).response.categories|
  }

  /** Responses are counted, and their categories, exactly where there is a response side; requests always. */
  lemma {:induction false} SidesCounted(es: seq<Log>)
    ensures Responses(es) == |WithResponse(es)|
    ensures Detected(es, true) == ResponseFinds(WithResponse(es))
    ensures Detected(es, false) == RequestFinds(es)
  {
    if es != [] {
      var r := WithResponse(es[..|es| - 1]);
      SidesCounted(es[..|es| - 1]);
      assert (r + [Last(es)])[..|r|] == r && r + [] == r;
      assert Last(r + [Last(es)]) == Last(es);
      if Last(es).response.payload != "" {
        assert WithResponse(es) == r + [Last(es)];
      }
    }
  }

  /** How many samples the buckets do not cover. */
  function Outside(samples: seq<int>): nat {
    if samples == [] then 0
    else Outside(samples[..|samples| - 1]) + if 0 <= Last(samples) < 100 then 0 else 1
  }

  lemma {:induction false} OverflowCounts(samples: seq<int>)
    ensures multiset(Clamped(samples))[BUCKETS] == Outside(samples)
  {
    if samples != [] {
      var init := samples[..|samples| - 1];
      OverflowCounts(init);
      assert samples == init + [Last(samples)];
      ClampedAppend(init, Last(samples));
    }
  }

  // ---- the report ----

  datatype Summary = Summary(
    processed: nat, audited: nat, dropped: nat, coverage: real,
    pii: nat, byCategory: map<string, nat>, p50: nat, p95: nat, p99: nat, overflow: nat,
    ioErrors: nat, partial: bool,
    responses: nat, responsePii: nat, responseByCategory: map<string, nat>, responseDrops: nat)

  function Coverage(audited: nat, dropped: nat): (r: real)
    ensures 0.0 <= r <= 100.0
    ensures dropped == 0 && audited > 0 ==> r == 100.0
  {
    if audited + dropped > 0 then audited as real / (audited + dropped) as real * 100.0 else 0.0
  }

  /** Coverage is a hundred times the audited share of what could be audited, and nothing where there was nothing. */
  lemma CoverageIsShare(audited: nat, dropped: nat)
    ensures Coverage(audited, dropped) * (audited + dropped) as real == 100.0 * audited as real
    ensures audited + dropped == 0 ==> Coverage(audited, dropped) == 0.0
  {
  }

  function Summarize(w: Window, io: nat, dropped: nat, responseDropped: nat, partial: bool): Summary {
    var n := Responses(w.audited);
    var withResponses := n > 0 || responseDropped > 0;
    Summary(
      |w.samples|, |w.audited|, dropped, Coverage(|w.audited|, dropped),
      Detected(w.audited, false), Tally(w.audited, false),
      Nearest(w.samples, 50, 100), Nearest(w.samples, 95, 100), Nearest(w.samples, 99, 100),
      multiset(Clamped(w.samples))[BUCKETS], io, partial,
      if withResponses then n else 0,
      if withResponses then Detected(w.audited, true) else 0,
      if withResponses then Tally(w.audited, true) else map[],
      if withResponses then responseDropped else 0)
  }

  lemma {:induction false} NoResponses(es: seq<Log>)
    requires Responses(es) == 0
    ensures Detected(es, true) == 0 && Tally(es, true) == map[]
  {
    if es != [] { NoResponses(es[..|es| - 1]); }
  }

  /** What a reader of a report may rely on. */
  lemma SummaryIsConsistent(w: Window, io: nat, dropped: nat, responseDropped: nat, partial: bool)
    ensures var r := Summarize(w, io, dropped, responseDropped, partial);
            && r.p50 <= r.p95 <= r.p99 <= BUCKETS
            && r.pii == Sum(r.byCategory)
            && (forall c :: Get(r.byCategory, c) == Mentions(w.audited, false, c))
            && r.responses == Responses(w.audited)
            && r.responsePii == Detected(w.audited, true) == Sum(r.responseByCategory)
            && r.responseDrops == responseDropped
  {
    NearestMonotone(w.samples, 50, 95, 100);
    NearestMonotone(w.samples, 95, 99, 100);
    NearestBounded(w.samples, 99, 100);
    TallySum(w.audited, false);
    TallySum(w.audited, true);
    forall c ensures Get(Tally(w.audited, false), c) == Mentions(w.audited, false, c) { TallyCounts(w.audited, false, c); }
    if Responses(w.audited) == 0 { NoResponses(w.audited); }
  }

  /** And what its numbers count. */
  lemma {:induction false} SummaryIsExact(w: Window, io: nat, dropped: nat, responseDropped: nat, partial: bool)
    ensures var r := Summarize(w, io, dropped, responseDropped, partial);
            && r.processed == |w.samples| && r.audited == |w.audited| && r.dropped == dropped
            && r.ioErrors == io && r.partial == partial && r.overflow == Outside(w.samples)
            && r.coverage == Coverage(r.audited, r.dropped)
            && r.p50 == Nearest(w.samples, 50, 100) && r.p95 == Nearest(w.samples, 95, 100)
            && r.p99 == Nearest(w.samples, 99, 100)
            && r.pii == RequestFinds(w.audited)
            && r.responses == |WithResponse(w.audited)| && r.responsePii == ResponseFinds(WithResponse(w.audited))
  {
    OverflowCounts(w.samples);
    SidesCounted(w.audited);
    if Responses(w.audited) == 0 { NoResponses(w.audited); }
  }

  lemma NearestBounded(samples: seq<int>, num: nat, den: nat)
    requires 0 < den && num <= den
    ensures Nearest(samples, num, den) <= BUCKETS
  {
    if samples != [] {
      var s := Sort(Clamped(samples));
      SortSorted(Clamped(samples));
      assert s[Rank(|samples|, num, den) - 1] in multiset(s);
    }
  }

  lemma ClampedAppend(samples: seq<int>, ms: int)
    ensures multiset(Clamped(samples + [ms])) == multiset(Clamped(samples)) + multiset{Clamp(ms)}
  {
    assert Clamped(samples + [ms]) == Clamped(samples) + [Clamp(ms)];
  }

  class Aggregator {
    var requestsAudited: nat
    var piiDetected: nat
    var eventsByCategory: map<string, nat>
    var latencySamples: nat
    const latencyBuckets: array<nat>
    var latencyOverflow: nat
    var responsesAudited: nat
    var responsePIIDetected: nat
    var responseEventsByCategory: map<string, nat>
    ghost var window: Window

    /** The histogram holds the samples, bucket by bucket. */
    ghost predicate Histogram()
      reads this, latencyBuckets
    {
      var m := multiset(Clamped(window.samples));
      && latencyBuckets.Length == BUCKETS
      && latencySamples == |window.samples|
      && latencyOverflow == m[BUCKETS]
      && forall i: nat | i < BUCKETS :: latencyBuckets[i] == m[i]
    }

    /** The counters and maps are those of the entries. */
    ghost predicate Counters()
      reads this
    {
      && requestsAudited == |window.audited|
      && piiDetected == Detected(window.audited, false)
      && eventsByCategory == Tally(window.audited, false)
      && responsesAudited == Responses(window.audited)
      && responsePIIDetected == Detected(window.audited, true)
      && responseEventsByCategory == Tally(window.audited, true)
    }

    ghost predicate Valid()
      reads this, latencyBuckets
    {
      Histogram() && Counters()
    }

    constructor ()
      ensures Valid() && window == NO_TRAFFIC && fresh(latencyBuckets)
    {
      latencyBuckets := new nat[BUCKETS](_ => 0);
      requestsAudited, piiDetected, eventsByCategory := 0, 0, map[];
      latencySamples, latencyOverflow := 0, 0;
      responsesAudited, responsePIIDetected, responseEventsByCategory := 0, 0, map[];
      window := NO_TRAFFIC;
    }

    method RecordLatency(ms: int)
      requires Valid()
      modifies this`latencySamples, this`latencyOverflow, this`window, latencyBuckets
      ensures Valid() && window == old(window).(samples := old(window).samples + [ms])
    {
      ClampedAppend(window.samples, ms);
      latencySamples := latencySamples + 1;
      if ms >= 0 && ms < BUCKETS {
        latencyBuckets[ms] := latencyBuckets[ms] + 1;
      } else {
        latencyOverflow := latencyOverflow + 1;
      }
      window := window.(samples := window.samples + [ms]);
    }

    /** Adds one entry's categories to one of the maps. */
    static method Count(m: map<string, nat>, cats: seq<string>) returns (m': map<string, nat>)
      ensures m' == BumpAll(m, cats)
    {
      m' := m;
      for i := 0 to |cats|
        invariant m' == BumpAll(m, cats[..i])
      {
        assert cats[..i + 1][..i] == cats[..i];
        m' := m'[cats[i] := (if cats[i] in m' then m'[cats[i]] else 0) + 1];
      }
      assert cats[..|cats|] == cats;
    }

    method IngestOne(entry: Log)
      requires Valid()
      modifies this`requestsAudited, this`piiDetected, this`eventsByCategory, this`window
      modifies this`responsesAudited, this`responsePIIDetected, this`responseEventsByCategory
      ensures Valid() && window == old(window).(audited := old(window).audited + [entry])
    {
      var es := window.audited;
      assert (es + [entry])[..|es|] == es;
      requestsAudited := requestsAudited + 1;
      piiDetected := piiDetected + |entry.request.categories|;
      eventsByCategory := Count(eventsByCategory, entry.request.categories);
      if entry.response.payload != "" {
        responsesAudited := responsesAudited + 1;
        responsePIIDetected := responsePIIDetected + |entry.response.categories|;
        responseEventsByCategory := Count(responseEventsByCategory, entry.response.categories);
      }
      window := window.(audited := es + [entry]);
    }

    method Ingest(batch: seq<Log>)
      requires Valid()
      modifies this`requestsAudited, this`piiDetected, this`eventsByCategory, this`window
      modifies this`responsesAudited, this`responsePIIDetected, this`responseEventsByCategory
      ensures Valid() && window == old(window).(audited := old(window).audited + batch)
    {
      ghost var es := window.audited;
      assert es + batch[..0] == es;
      for i := 0 to |batch|
        invariant Valid() && window.samples == old(window).samples && window.audited == es + batch[..i]
      {
        assert es + batch[..i + 1] == es + batch[..i] + [batch[i]];
        IngestOne(batch[i]);
      }
      assert batch[..|batch|] == batch;
    }

    /** ceil(N * num/den), at least 1. */
    method TargetCount(num: nat, den: nat) returns (target: nat)
      requires latencySamples > 0 && 0 < den && num <= den
      ensures target == Rank(latencySamples, num, den)
    {
      CeilBounds(latencySamples, num, den);
      target := (latencySamples * num + den - 1) / den;
      if target == 0 { target := 1; }
    }

    /** The first bucket at which the cumulative count reaches the target. */
    method Walk(target: nat) returns (ms: nat)
      requires Valid() && 1 <= target <= latencySamples
      ensures ms <= BUCKETS && Cumulative(multiset(Clamped(window.samples)), ms) >= target
      ensures ms > 0 ==> Cumulative(multiset(Clamped(window.samples)), ms - 1) < target
    {
      ghost var m := multiset(Clamped(window.samples));
      var cumulative: nat := 0;
      CumulativeTotal(window.samples);
      for i: nat := 0 to BUCKETS
        invariant cumulative < target
        invariant cumulative == if i == 0 then 0 else Cumulative(m, i - 1)
      {
        cumulative := cumulative + latencyBuckets[i];
        assert cumulative == Cumulative(m, i);
        if cumulative >= target { return i; }
      }
      return BUCKETS;
    }

    /** The walk over the buckets finds the element of rank ceil(N * num/den) of the sorted samples. */
    method ComputePercentile(num: nat, den: nat) returns (ms: nat)
      requires Valid() && 0 < den && num <= den
      ensures ms == Nearest(window.samples, num, den)
    {
      if latencySamples == 0 { return 0; }
      var target := TargetCount(num, den);
      ms := Walk(target);
      WalkFindsRank(window.samples, target, ms);
    }

    /** Bucket counts and overflow add up to the samples. */
    lemma BucketsAddUp()
      requires Valid()
      ensures Cumulative(multiset(Clamped(window.samples)), BUCKETS - 1) + latencyOverflow == latencySamples
    {
      CumulativeTotal(window.samples);
    }

    /** The report of the window so far. */
    method Snapshot(ioErrors: nat, droppedCount: nat, responseDroppedCount: nat, partial: bool)
      returns (summary: Summary)
      requires Valid()
      ensures summary == Summarize(window, ioErrors, droppedCount, responseDroppedCount, partial)
    {
      var auditable := requestsAudited + droppedCount;
      var coverage := 0.0;
      if auditable > 0 {
        coverage := requestsAudited as real / auditable as real * 100.0;
      }
      var p50 := ComputePercentile(50, 100);
      var p95 := ComputePercentile(95, 100);
      var p99 := ComputePercentile(99, 100);
      summary := Summary(
        latencySamples, requestsAudited, droppedCount, coverage, piiDetected, eventsByCategory,
        p50, p95, p99, latencyOverflow, ioErrors, partial, 0, 0, map[], 0);
      if responsesAudited > 0 || responseDroppedCount > 0 {
        summary := summary.(responses := responsesAudited, responsePii := responsePIIDetected,
                            responseByCategory := responseEventsByCategory, responseDrops := responseDroppedCount);
      }
    }

    method SnapshotAndReset(ioErrors: nat, droppedCount: nat, responseDroppedCount: nat, partial: bool)
      returns (summary: Summary)
      requires Valid()
      modifies this, latencyBuckets
      ensures Valid() && window == NO_TRAFFIC
      ensures summary == Summarize(old(window), ioErrors, droppedCount, responseDroppedCount, partial)
    {
      summary := Snapshot(ioErrors, droppedCount, responseDroppedCount, partial);
      requestsAudited, piiDetected, eventsByCategory := 0, 0, map[];
      latencySamples, latencyOverflow := 0, 0;
      forall i | 0 <= i < latencyBuckets.Length { latencyBuckets[i] := 0; }
      responsesAudited, responsePIIDetected, responseEventsByCategory := 0, 0, map[];
      window := NO_TRAFFIC;
    }
  }
}
