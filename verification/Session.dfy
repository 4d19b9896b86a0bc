/**
 The session tracker on values: which log entries are held, and every attempt
 to emit one.  A sequence of submissions, sweeps and the final sweep is a run;
 the theorems say what a run makes of the two sides of one request.
 */
module Session {
  import opened Prelude

  datatype RequestSide = RequestSide(
    originalHash: string, redactedPayload: string, redactedHash: string, categories: seq<string>,
    extractor: string, captureComplete: bool)

  datatype ResponseSide = ResponseSide(
    payload: string, hash: string, categories: seq<string>, complete: bool, extractor: string)

  /** `TelemetryLog`. */
  datatype Log = Log(
    rid: nat, timestamp: int, version: string, level: string, fieldsScanned: nat,
    request: RequestSide, response: ResponseSide)

  const NO_RESPONSE := ResponseSide("", "", [], false, "")

  /** `mergeResponse`: fields that are empty in the source leave the destination alone. */
  function Merge(dst: Log, src: Log): Log {
    var d, s := dst.response, src.response;
    dst.(response := ResponseSide(
           if s.payload != "" then s.payload else d.payload,
           if s.hash != "" then s.hash else d.hash,
           if s.categories != [] then s.categories else d.categories,
           if s.complete then s.complete else d.complete,
           if s.extractor != "" then s.extractor else d.extractor))
  }

  /** Into a request entry, as the workers make them, the whole response side is copied. */
  lemma MergeCopies(dst: Log, src: Log)
    requires dst.response == NO_RESPONSE
    ensures Merge(dst, src) == dst.(response := src.response)
  {
  }

  datatype Held = Held(log: Log, createdAt: int)

  /** `attempts` is history: every record `emit` was called with, accepted by the channel or not. */
  datatype Tracker = Tracker(held: map<nat, Held>, attempts: seq<Log>)

  const EMPTY := Tracker(map[], [])

  function Emit(t: Tracker, rec: Log): Tracker {
    t.(attempts := t.attempts + [rec])
  }

  function Release(t: Tracker, rid: nat): Tracker
    requires rid in t.held
  {
    t.(held := t.held - {rid})
  }

  function Hold(t: Tracker, entry: Log, now: int): Tracker {
    t.(held := t.held[entry.rid := Held(entry, now)])
  }

  function SubmitRequest(bidir: bool, t: Tracker, entry: Log, now: int): Tracker {
    if !bidir then Emit(t, entry)
    else if entry.rid in t.held then
      Release(Emit(t, Merge(entry, t.held[entry.rid].log)), entry.rid)
    else Hold(t, entry, now)
  }

  /** Without response capture, one request after the other. */
  function AllRequests(entries: seq<Log>, now: int): Tracker {
    if entries == [] then EMPTY
    else SubmitRequest(false, AllRequests(entries[..|entries| - 1], now), Last(entries), now)
  }

  /** Then every entry goes out at once, in order, even one whose id was seen before, and nothing is held. */
  lemma {:induction false} RequestsPassThrough(entries: seq<Log>, now: int)
    ensures AllRequests(entries, now) == Tracker(map[], entries)
  {
    if entries != [] { RequestsPassThrough(entries[..|entries| - 1], now); }
  }

  function SubmitResponse(t: Tracker, entry: Log, now: int): Tracker {
    if entry.rid in t.held then
      Release(Emit(t, Merge(t.held[entry.rid].log, entry)), entry.rid)
    else Hold(t, entry, now)
  }

  /** One visit of a sweep's loop. */
  function Visit(t: Tracker, rid: nat, stale: bool): Tracker {
    if rid in t.held && stale then Release(Emit(t, t.held[rid].log), rid) else t
  }

  predicate Expired(ttl: int, t: Tracker, rid: nat, now: int) {
    rid in t.held && now - t.held[rid].createdAt > ttl
  }

  /** `sweep`; the map is visited in the order `order`. */
  function Sweep(ttl: int, t: Tracker, now: int, order: seq<nat>): Tracker {
    if order == [] then t
    else
      var t' := Sweep(ttl, t, now, order[..|order| - 1]);
      Visit(t', Last(order), Expired(ttl, t', Last(order), now))
  }

  /** The final sweep. */
  function Flush(t: Tracker, order: seq<nat>): Tracker {
    if order == [] then t else Visit(Flush(t, order[..|order| - 1]), Last(order), true)
  }

  datatype Event =
    | Request(log: Log, now: int)
    | Response(log: Log, now: int)
    | Ticker(now: int, order: seq<nat>)
    | Stop(order: seq<nat>)

  function Step(ttl: int, t: Tracker, e: Event): Tracker {
    match e
    case Request(log, now) => SubmitRequest(true, t, log, now)
    case Response(log, now) => SubmitResponse(t, log, now)
    case Ticker(now, order) => Sweep(ttl, t, now, order)
    case Stop(order) => Flush(t, order)
  }

  function After(ttl: int, es: seq<Event>): Tracker {
    if es == [] then EMPTY else Step(ttl, After(ttl, es[..|es| - 1]), Last(es))
  }

  /** A sweep visits every key of the map. */
  predicate Covers(t: Tracker, e: Event) {
    e.Ticker? || e.Stop? ==> forall r | r in t.held :: r in e.order
  }

  predicate Run(ttl: int, es: seq<Event>) {
    es == [] || (Run(ttl, es[..|es| - 1]) && Covers(After(ttl, es[..|es| - 1]), Last(es)))
  }

  // ---- half-way through a sweep ----

  /** `todo` was not visited yet; of the rest nothing expired is left. */
  ghost predicate Sweeping(ttl: int, before: Tracker, t: Tracker, now: int, order: seq<nat>, todo: set<nat>) {
    && t == Sweep(ttl, before, now, order)
    && todo <= t.held.Keys <= before.held.Keys
    && forall r | r in before.held.Keys - todo :: r in order && !Expired(ttl, t, r, now)
  }

  lemma {:induction false} SweepingNext(ttl: int, before: Tracker, t: Tracker, now: int, order: seq<nat>,
                                        todo: set<nat>, id: nat)
    requires Sweeping(ttl, before, t, now, order, todo) && id in todo
    ensures Sweeping(ttl, before, Visit(t, id, Expired(ttl, t, id, now)), now, order + [id], todo - {id})
  {
    var order' := order + [id];
    assert order'[..|order'| - 1] == order && Last(order') == id;
    var t' := Visit(t, id, Expired(ttl, t, id, now));
    forall r | r in before.held.Keys - (todo - {id}) ensures r in order' && !Expired(ttl, t', r, now) {
      if r != id { assert r in before.held.Keys - todo && r in order; }
    }
  }

  ghost predicate Flushing(before: Tracker, t: Tracker, order: seq<nat>) {
    && t == Flush(before, order) && t.held.Keys <= before.held.Keys
    && forall r | r in before.held.Keys - t.held.Keys :: r in order
  }

  lemma {:induction false} FlushingNext(before: Tracker, t: Tracker, order: seq<nat>, id: nat)
    requires Flushing(before, t, order) && id in t.held
    ensures Flushing(before, Visit(t, id, true), order + [id])
  {
    var order' := order + [id];
    assert order'[..|order'| - 1] == order && Last(order') == id;
    forall r | r in before.held.Keys - (t.held.Keys - {id}) ensures r in order' {
      if r != id { assert r in before.held.Keys - t.held.Keys && r in order; }
    }
    assert Visit(t, id, true).held.Keys == t.held.Keys - {id};
  }

  // ---- one request id ----

  predicate Submits(e: Event, rid: nat) { (e.Request? || e.Response?) && e.log.rid == rid }

  function Of(s: seq<Log>, rid: nat): seq<Log> {
    if s == [] then [] else Of(s[..|s| - 1], rid) + (if Last(s).rid == rid then [Last(s)] else [])
  }

  lemma OfAppend(s: seq<Log>, x: Log, rid: nat)
    ensures Of(s + [x], rid) == Of(s, rid) + (if x.rid == rid then [x] else [])
  {
    assert (s + [x])[..|s|] == s;
  }

  /** What the tracker knows about one id. */
  datatype Trace = Trace(held: Option<Held>, attempts: seq<Log>)

  function TraceOf(t: Tracker, rid: nat): Trace {
    Trace(if rid in t.held then Some(t.held[rid]) else None, Of(t.attempts, rid))
  }

  /** The session of one id goes; nothing happens to an id without one. */
  function Gone(x: Trace): Trace {
    if x.held.Some? then Trace(None, x.attempts + [x.held.value.log]) else x
  }

  function Submitted(x: Trace, e: Event): Trace
    requires e.Request? || e.Response?
  {
    if x.held.None? then Trace(Some(Held(e.log, e.now)), x.attempts)
    else
      var both := if e.Request? then Merge(e.log, x.held.value.log) else Merge(x.held.value.log, e.log);
      Trace(None, x.attempts + [both])
  }

  /** Does the event end a session begun at `since`? */
  predicate Ends(ttl: int, e: Event, since: int) {
    e.Stop? || (e.Ticker? && e.now - since > ttl)
  }

  /** The same step, seen from one id. */
  function TraceStep(ttl: int, x: Trace, e: Event, rid: nat): Trace {
    if Submits(e, rid) then Submitted(x, e)
    else if x.held.Some? && Ends(ttl, e, x.held.value.createdAt) then Gone(x)
    else x
  }

  ghost predicate Keyed(t: Tracker) { forall r | r in t.held :: t.held[r].log.rid == r }

  lemma {:induction false} VisitTrace(t: Tracker, v: nat, stale: bool, rid: nat)
    requires Keyed(t)
    ensures Keyed(Visit(t, v, stale))
    ensures TraceOf(Visit(t, v, stale), rid) == if v == rid && stale then Gone(TraceOf(t, rid)) else TraceOf(t, rid)
  {
    if v in t.held && stale { OfAppend(t.attempts, t.held[v].log, rid); }
  }

  lemma {:induction false} SweepTrace(ttl: int, t: Tracker, now: int, order: seq<nat>, rid: nat)
    requires Keyed(t)
    ensures Keyed(Sweep(ttl, t, now, order))
    ensures TraceOf(Sweep(ttl, t, now, order), rid)
            == if rid in order && Expired(ttl, t, rid, now) then Gone(TraceOf(t, rid)) else TraceOf(t, rid)
  {
    if order != [] {
      var t' := Sweep(ttl, t, now, order[..|order| - 1]);
      SweepTrace(ttl, t, now, order[..|order| - 1], rid);
      VisitTrace(t', Last(order), Expired(ttl, t', Last(order), now), rid);
      assert rid in order <==> rid in order[..|order| - 1] || rid == Last(order);
      assert TraceOf(t', rid).held.Some? ==> t'.held[rid] == TraceOf(t', rid).held.value;
    }
  }

  lemma {:induction false} FlushTrace(t: Tracker, order: seq<nat>, rid: nat)
    requires Keyed(t)
    ensures Keyed(Flush(t, order))
    ensures TraceOf(Flush(t, order), rid) == if rid in order then Gone(TraceOf(t, rid)) else TraceOf(t, rid)
  {
    if order != [] {
      FlushTrace(t, order[..|order| - 1], rid);
      VisitTrace(Flush(t, order[..|order| - 1]), Last(order), true, rid);
    }
  }

  lemma {:induction false} SubmitTrace(t: Tracker, e: Event, rid: nat)
    requires Keyed(t) && (e.Request? || e.Response?)
    ensures Keyed(Step(0, t, e))
    ensures TraceOf(Step(0, t, e), rid) == if e.log.rid == rid then Submitted(TraceOf(t, rid), e) else TraceOf(t, rid)
  {
    if e.log.rid in t.held {
      var was := t.held[e.log.rid].log;
      OfAppend(t.attempts, if e.Request? then Merge(e.log, was) else Merge(was, e.log), rid);
    }
  }

  /** The tracker treats every id on its own. */
  lemma {:induction false} StepTrace(ttl: int, t: Tracker, e: Event, rid: nat)
    requires Keyed(t) && Covers(t, e)
    ensures Keyed(Step(ttl, t, e))
    ensures TraceOf(Step(ttl, t, e), rid) == TraceStep(ttl, TraceOf(t, rid), e, rid)
  {
    match e
    case Ticker(now, order) => SweepTrace(ttl, t, now, order, rid);
    case Stop(order) => FlushTrace(t, order, rid);
    case _ => SubmitTrace(t, e, rid);
  }

  lemma {:induction false} RunKeyed(ttl: int, es: seq<Event>)
    requires Run(ttl, es)
    ensures Keyed(After(ttl, es))
  {
    if es != [] {
      RunKeyed(ttl, es[..|es| - 1]);
      StepTrace(ttl, After(ttl, es[..|es| - 1]), Last(es), 0);
    }
  }

  /** The session begun at `since` is ended by one of these events. */
  predicate SweptIn(ttl: int, es: seq<Event>, since: int) {
    exists i :: 0 <= i < |es| && Ends(ttl, es[i], since)
  }

  lemma SweptLast(ttl: int, es: seq<Event>, since: int)
    requires es != []
    ensures SweptIn(ttl, es, since) <==> SweptIn(ttl, es[..|es| - 1], since) || Ends(ttl, Last(es), since)
  {
    forall i | 0 <= i < |es| - 1 ensures Ends(ttl, es[..|es| - 1][i], since) == Ends(ttl, es[i], since) {
    }
  }

  predicate Without(es: seq<Event>, rid: nat) {
    forall i | 0 <= i < |es| :: !Submits(es[i], rid)
  }

  /** Events that do not submit a side of the id can only end its session. */
  lemma {:induction false} Quiet(ttl: int, before: seq<Event>, es: seq<Event>, rid: nat)
    requires Run(ttl, before + es)
    requires Without(es, rid)
    ensures Run(ttl, before)
    ensures var x := TraceOf(After(ttl, before), rid);
            TraceOf(After(ttl, before + es), rid)
            == if x.held.Some? && SweptIn(ttl, es, x.held.value.createdAt) then Gone(x) else x
    decreases |es|
  {
    if es == [] {
      assert before + es == before;
    } else {
      var init := es[..|es| - 1];
      var x := TraceOf(After(ttl, before), rid);
      assert (before + es)[..|before + es| - 1] == before + init;
      Quiet(ttl, before, init, rid);
      RunKeyed(ttl, before + init);
      StepTrace(ttl, After(ttl, before + init), Last(es), rid);
      assert Last(before + es) == Last(es) == es[|es| - 1];
      if x.held.Some? { SweptLast(ttl, es, x.held.value.createdAt); }
    }
  }

  lemma {:induction false} OneMore(ttl: int, before: seq<Event>, e: Event, rid: nat)
    requires Run(ttl, before + [e])
    ensures Run(ttl, before)
    ensures TraceOf(After(ttl, before + [e]), rid) == TraceStep(ttl, TraceOf(After(ttl, before), rid), e, rid)
  {
    assert (before + [e])[..|before|] == before;
    RunKeyed(ttl, before);
    StepTrace(ttl, After(ttl, before), e, rid);
  }

  lemma {:induction false} RunPrefix(ttl: int, a: seq<Event>, b: seq<Event>)
    requires Run(ttl, a + b)
    ensures Run(ttl, a)
    decreases |b|
  {
    if b == [] {
      assert a + b == a;
    } else {
      assert (a + b)[..|a + b| - 1] == a + b[..|b| - 1];
      RunPrefix(ttl, a, b[..|b| - 1]);
    }
  }

  /** The record both sides of a request make. */
  function Both(e: Event, f: Event): Log
    requires (e.Request? && f.Response?) || (e.Response? && f.Request?)
  {
    if e.Request? then Merge(e.log, f.log) else Merge(f.log, e.log)
  }

  /** The first side of a request is held. */
  lemma {:induction false} FirstHeld(ttl: int, a: seq<Event>, first: Event, rid: nat)
    requires Run(ttl, a + [first]) && Without(a, rid) && Submits(first, rid)
    ensures TraceOf(After(ttl, a + [first]), rid) == Trace(Some(Held(first.log, first.now)), [])
  {
    OneMore(ttl, a, first, rid);
    assert [] + a == a;
    Quiet(ttl, [], a, rid);
    assert TraceOf(After(ttl, []), rid) == Trace(None, []);
  }

  /** The second side finds it, or finds it gone. */
  lemma {:induction false} SecondSide(ttl: int, before: seq<Event>, first: Event, mid: seq<Event>, second: Event, rid: nat)
    requires Run(ttl, before + mid + [second]) && Without(mid, rid)
    requires Submits(first, rid) && Submits(second, rid) && first.Request? != second.Request?
    requires Run(ttl, before) && TraceOf(After(ttl, before), rid) == Trace(Some(Held(first.log, first.now)), [])
    ensures TraceOf(After(ttl, before + mid + [second]), rid)
            == if SweptIn(ttl, mid, first.now) then Trace(Some(Held(second.log, second.now)), [first.log])
               else Trace(None, [Both(first, second)])
  {
    OneMore(ttl, before + mid, second, rid);
    Quiet(ttl, before, mid, rid);
  }

  /**
   The two sides of a request, each submitted once: if no sweep between them
   finds the session expired, one record comes out and nothing is held;
   otherwise the sides stay apart for ever, two records or one and a held one.
   */
  lemma {:induction false} PairOutcome(ttl: int, a: seq<Event>, first: Event, mid: seq<Event>, second: Event,
                                       rest: seq<Event>, rid: nat)
    requires Run(ttl, a + [first] + mid + [second] + rest)
    requires Without(a, rid) && Without(mid, rid) && Without(rest, rid)
    requires Submits(first, rid) && Submits(second, rid) && first.Request? != second.Request?
    ensures var x := TraceOf(After(ttl, a + [first] + mid + [second] + rest), rid);
            if SweptIn(ttl, mid, first.now) then
              x == if SweptIn(ttl, rest, second.now) then Trace(None, [first.log, second.log])
                   else Trace(Some(Held(second.log, second.now)), [first.log])
            else x == Trace(None, [Both(first, second)])
  {
    var s1 := a + [first];
    var s3 := s1 + mid + [second];
    RunPrefix(ttl, s3, rest);
    RunPrefix(ttl, s1 + mid, [second]);
    RunPrefix(ttl, s1, mid);
    FirstHeld(ttl, a, first, rid);
    SecondSide(ttl, s1, first, mid, second, rid);
    Quiet(ttl, s3, rest, rid);
  }

  /** A side that stays alone is held until a sweep finds it expired or the final sweep comes; then it goes out as it is. */
  lemma {:induction false} SingleOutcome(ttl: int, a: seq<Event>, first: Event, rest: seq<Event>, rid: nat)
    requires Run(ttl, a + [first] + rest) && Without(a, rid) && Without(rest, rid) && Submits(first, rid)
    ensures TraceOf(After(ttl, a + [first] + rest), rid)
            == if SweptIn(ttl, rest, first.now) then Trace(None, [first.log])
               else Trace(Some(Held(first.log, first.now)), [])
  {
    RunPrefix(ttl, a + [first], rest);
    FirstHeld(ttl, a, first, rid);
    Quiet(ttl, a + [first], rest, rid);
  }

  lemma RunNext(ttl: int, es: seq<Event>, e: Event)
    requires Run(ttl, es) && Covers(After(ttl, es), e)
    ensures Run(ttl, es + [e]) && After(ttl, es + [e]) == Step(ttl, After(ttl, es), e)
  {
    assert (es + [e])[..|es|] == es;
  }

  /** The events of a request that a tick splits: its response comes one unit after the time to live. */
  function Split(ttl: nat, q: Log, r: Log): (es: seq<Event>)
    requires q.rid == r.rid
    ensures es == [] + [Request(q, 0)] + [Ticker(ttl + 1, [q.rid])] + [Response(r, ttl + 1)] + [Stop([q.rid])]
  {
    [Request(q, 0), Ticker(ttl + 1, [q.rid]), Response(r, ttl + 1), Stop([q.rid])]
  }

  lemma SplitRuns(ttl: nat, q: Log, r: Log)
    requires q.rid == r.rid
    ensures Run(ttl, Split(ttl, q, r))
  {
    var e1, e2, e3 := [] + [Request(q, 0)], [Ticker(ttl + 1, [q.rid])], [Response(r, ttl + 1)];
    RunNext(ttl, [], Request(q, 0));
    RunNext(ttl, e1, Ticker(ttl + 1, [q.rid]));
    OneMore(ttl, e1, Ticker(ttl + 1, [q.rid]), q.rid);
    RunNext(ttl, e1 + e2, Response(r, ttl + 1));
    SweepShrinks(ttl, After(ttl, e1), ttl + 1, [q.rid]);
    RunNext(ttl, e1 + e2 + e3, Stop([q.rid]));
  }

  lemma {:induction false} SweepShrinks(ttl: int, t: Tracker, now: int, order: seq<nat>)
    ensures Sweep(ttl, t, now, order).held.Keys <= t.held.Keys
  {
    if order != [] { SweepShrinks(ttl, t, now, order[..|order| - 1]); }
  }

  /** One record per request is not what the tracker promises: for any two sides there is a run that emits both apart. */
  lemma {:induction false} PairIsSplit(ttl: nat, q: Log, r: Log)
    requires q.rid == r.rid
    ensures Run(ttl, Split(ttl, q, r)) && Of(After(ttl, Split(ttl, q, r)).attempts, q.rid) == [q, r]
  {
    SplitRuns(ttl, q, r);
    var mid, rest := [Ticker(ttl + 1, [q.rid])], [Stop([q.rid])];
    assert Ends(ttl, mid[0], 0) && Ends(ttl, rest[0], ttl + 1);
    PairOutcome(ttl, [], Request(q, 0), mid, Response(r, ttl + 1), rest, q.rid);
  }

  /** The record does not depend on which side came first. */
  lemma {:induction false} OrderDoesNotMatter(ttl: int, rid: nat, req: Log, resp: Log,
                           a: seq<Event>, t1: int, mid: seq<Event>, t2: int, rest: seq<Event>,
                           b: seq<Event>, u1: int, mid': seq<Event>, u2: int, rest': seq<Event>)
    requires req.rid == rid == resp.rid
    requires Run(ttl, a + [Request(req, t1)] + mid + [Response(resp, t2)] + rest)
    requires Run(ttl, b + [Response(resp, u1)] + mid' + [Request(req, u2)] + rest')
    requires Without(a, rid) && Without(mid, rid) && Without(rest, rid)
    requires Without(b, rid) && Without(mid', rid) && Without(rest', rid)
    requires !SweptIn(ttl, mid, t1) && !SweptIn(ttl, mid', u1)
    ensures Of(After(ttl, a + [Request(req, t1)] + mid + [Response(resp, t2)] + rest).attempts, rid)
            == Of(After(ttl, b + [Response(resp, u1)] + mid' + [Request(req, u2)] + rest').attempts, rid)
            == [Merge(req, resp)]
  {
    PairOutcome(ttl, a, Request(req, t1), mid, Response(resp, t2), rest, rid);
    PairOutcome(ttl, b, Response(resp, u1), mid', Request(req, u2), rest', rid);
  }

  /** With a clock that does not run backwards, sides at most `ttl` apart are never separated by a tick. */
  lemma TimelyPairIsNotSwept(ttl: int, mid: seq<Event>, t1: int, t2: int)
    requires t2 - t1 <= ttl
    requires forall i | 0 <= i < |mid| :: !mid[i].Stop? && (mid[i].Ticker? ==> mid[i].now <= t2)
    ensures !SweptIn(ttl, mid, t1)
  {
  }

  /** After the final sweep nothing is held. */
  lemma {:induction false} NothingHeldAfterStop(ttl: int, es: seq<Event>, order: seq<nat>)
    requires Run(ttl, es + [Stop(order)])
    ensures After(ttl, es + [Stop(order)]).held == map[]
  {
    var t := After(ttl, es + [Stop(order)]);
    forall r: nat ensures r !in t.held {
      OneMore(ttl, es, Stop(order), r);
      assert TraceOf(t, r).held.None?;
    }
    assert t.held.Keys == {};
  }
}
