/**
 Evidence reports over a whole run.  Traffic, drops, flush results and write
 errors happen at any time, also between the reads of one report; the reports
 still add up to the totals.
 */
module Evidence {
  import opened Prelude
  import opened Session
  import opened Percentile
  import opened Aggregators

  /** The counters a report in the making has read so far. */
  datatype Reading = Reading(drops: Option<nat>, errors: Option<nat>, responses: Option<nat>)

  const NOTHING_READ := Reading(None, None, None)

  /**
   The monotone counters, the current window, what was last reported, and the
   reports made.  `persisted` and `latencies` are history: the entries reported
   written by `Flush` and the latencies recorded, over all windows.
   */
  datatype State = State(
    drops: nat, errors: nat, responseDrops: nat, window: Window,
    lastDrops: nat, lastErrors: nat, lastResponses: nat, reading: Reading,
    reports: seq<Summary>, persisted: seq<Log>, latencies: seq<int>, final: bool)

  const START := State(0, 0, 0, NO_TRAFFIC, 0, 0, 0, NOTHING_READ, [], [], [], false)

  datatype Act =
    | Latency(ms: int)
    | Drop
    | ResponseDrop
    | WriteError                                // Flush returned an error
    | Persist(batch: seq<Log>, written: nat)    // Flush returned `written`
    | ReadDrops | ReadErrors | ReadResponses
    | Report(partial: bool)                     // by the ticker, or the final, partial one

  predicate CanDo(s: State, a: Act) {
    match a
    case Persist(batch, written) => written <= |batch|
    case ReadDrops => !s.final && s.reading.drops.None?
    case ReadErrors => !s.final && s.reading.errors.None?
    case ReadResponses => !s.final && s.reading.responses.None?
    case Report(_) => !s.final && s.reading.drops.Some? && s.reading.errors.Some? && s.reading.responses.Some?
    case _ => true
  }

  /** Differences of unsigned counters, as the reports compute them. */
  function Since(now: nat, last: nat): nat {
    if last <= now then now - last else 0
  }

  function Next(s: State, a: Act): State
    requires CanDo(s, a)
  {
    match a
    case Latency(ms) =>
      s.(window := s.window.(samples := s.window.samples + [ms]), latencies := s.latencies + [ms])
    case Drop => s.(drops := s.drops + 1)
    case ResponseDrop => s.(responseDrops := s.responseDrops + 1)
    case WriteError => s.(errors := s.errors + 1)
    case Persist(batch, written) =>
      s.(window := s.window.(audited := s.window.audited + batch[..written]),
         persisted := s.persisted + batch[..written])
    case ReadDrops => s.(reading := s.reading.(drops := Some(s.drops)))
    case ReadErrors => s.(reading := s.reading.(errors := Some(s.errors)))
    case ReadResponses => s.(reading := s.reading.(responses := Some(s.responseDrops)))
    case Report(partial) =>
      var r := s.reading;
      s.(reports := s.reports + [Summarize(s.window,
                                           Since(r.errors.value, s.lastErrors),
                                           Since(r.drops.value, s.lastDrops),
                                           Since(r.responses.value, s.lastResponses), partial)],
         window := NO_TRAFFIC, reading := NOTHING_READ, final := partial,
         lastDrops := r.drops.value, lastErrors := r.errors.value, lastResponses := r.responses.value)
  }

  ghost predicate Run(acts: seq<Act>)
    decreases |acts|, 0
  {
    acts == [] || (Run(acts[..|acts| - 1]) && CanDo(After(acts[..|acts| - 1]), Last(acts)))
  }

  ghost function After(acts: seq<Act>): State
    requires Run(acts)
    decreases |acts|, 1
  {
    if acts == [] then START else Next(After(acts[..|acts| - 1]), Last(acts))
  }

  // ---- sums over reports ----

  datatype Totals = Totals(dropped: nat, errors: nat, responseDrops: nat, audited: nat, processed: nat, pii: nat)

  function Sums(rs: seq<Summary>): Totals {
    if rs == [] then Totals(0, 0, 0, 0, 0, 0)
    else
      var t := Sums(rs[..|rs| - 1]);
      var r := Last(rs);
      Totals(t.dropped + r.dropped, t.errors + r.ioErrors, t.responseDrops + r.responseDrops,
             t.audited + r.audited, t.processed + r.processed, t.pii + r.pii)
  }

  /** A value read for the report in the making lies between the last report's and the present one. */
  predicate Between(last: nat, read: Option<nat>, now: nat) {
    last <= now && (read.Some? ==> last <= read.value <= now)
  }

  ghost predicate Telescoped(s: State) {
    var t := Sums(s.reports);
    && t.dropped == s.lastDrops && t.errors == s.lastErrors && t.responseDrops == s.lastResponses
    && Between(s.lastDrops, s.reading.drops, s.drops)
    && Between(s.lastErrors, s.reading.errors, s.errors)
    && Between(s.lastResponses, s.reading.responses, s.responseDrops)
    && t.audited + |s.window.audited| == |s.persisted|
    && t.processed + |s.window.samples| == |s.latencies|
    && t.pii + Detected(s.window.audited, false) == Detected(s.persisted, false)
  }

  lemma {:induction false} DetectedConcat(a: seq<Log>, b: seq<Log>)
    ensures Detected(a + b, false) == Detected(a, false) + Detected(b, false)
  {
    if b == [] {
      assert a + b == a;
    } else {
      assert (a + b)[..|a + b| - 1] == a + b[..|b| - 1];
      DetectedConcat(a, b[..|b| - 1]);
    }
  }

  lemma {:induction false} NextTelescoped(s: State, a: Act)
    requires Telescoped(s) && CanDo(s, a)
    ensures Telescoped(Next(s, a))
  {
    match a
    case Persist(batch, written) =>
      DetectedConcat(s.window.audited, batch[..written]);
      DetectedConcat(s.persisted, batch[..written]);
    case Report(partial) =>
      var s' := Next(s, a);
      assert s'.reports[..|s'.reports| - 1] == s.reports;
      var r := s.reading;
      SummaryIsConsistent(s.window, Since(r.errors.value, s.lastErrors), Since(r.drops.value, s.lastDrops),
                          Since(r.responses.value, s.lastResponses), partial);
    case _ =>
  }

  /**
   After any run: the reports' drops, errors and response drops add up to the
   values last read; audited entries, latencies and PII detections are each in
   exactly one report or in the current window.
   */
  lemma {:induction false} ReportsTelescope(acts: seq<Act>)
    requires Run(acts)
    ensures Telescoped(After(acts))
    decreases |acts|
  {
    if acts != [] {
      ReportsTelescope(acts[..|acts| - 1]);
      NextTelescoped(After(acts[..|acts| - 1]), Last(acts));
    }
  }

  lemma {:induction false} OneMore(acts: seq<Act>, a: Act)
    requires Run(acts + [a])
    ensures Run(acts) && CanDo(After(acts), a) && After(acts + [a]) == Next(After(acts), a)
  {
    assert (acts + [a])[..|acts|] == acts;
  }

  /** When the counters have come to rest before the final report, the reports add up to the totals. */
  lemma {:induction false} FinalReportBalances(acts: seq<Act>, shut: seq<Act>)
    requires Run(acts + shut) && Run(acts) && After(acts).reading == NOTHING_READ && !After(acts).final
    requires shut == [ReadDrops, ReadResponses, ReadErrors, Report(true)]
    ensures var s := After(acts);
            Sums(After(acts + shut).reports)
            == Totals(s.drops, s.errors, s.responseDrops, |s.persisted|, |s.latencies|, Detected(s.persisted, false))
  {
    var a1 := acts + [ReadDrops];
    var a2 := a1 + [ReadResponses];
    var a3 := a2 + [ReadErrors];
    var a4 := a3 + [Report(true)];
    assert acts + shut == a4;
    OneMore(a3, Report(true));
    OneMore(a2, ReadErrors);
    OneMore(a1, ReadResponses);
    OneMore(acts, ReadDrops);
    ReportsTelescope(a4);
    assert After(a4).window == NO_TRAFFIC;
  }

  /** In every report the PII total is the sum over the categories, and the percentiles are ordered. */
  lemma {:induction false} ReportsAreConsistent(acts: seq<Act>, i: nat)
    requires Run(acts) && i < |After(acts).reports|
    ensures var r := After(acts).reports[i];
            r.pii == Sum(r.byCategory) && r.responsePii == Sum(r.responseByCategory) && r.p50 <= r.p95 <= r.p99
    decreases |acts|
  {
    var s := After(acts[..|acts| - 1]);
    if i < |s.reports| {
      ReportsAreConsistent(acts[..|acts| - 1], i);
    } else {
      var a := Last(acts);
      var r := s.reading;
      SummaryIsConsistent(s.window, Since(r.errors.value, s.lastErrors), Since(r.drops.value, s.lastDrops),
                          Since(r.responses.value, s.lastResponses), a.partial);
    }
  }
}
