/**
 Everything behind the audit queue as one transition system: per direction an
 assembler, N workers and a bridge; then the session tracker with its sweeper,
 the collector with its asynchronous flush, and the shutdown waiter that closes
 the stages one after the other.  Any enabled component may take the next step.
 */
module Pipeline {
  import opened Prelude

  /** One side of a request: a dispatched payload and, later, the log entry made from it. */
  datatype Item = Item(rid: nat, response: bool)

  /** A record for the collector: one side, or both sides merged. */
  datatype Record = Record(parts: seq<Item>)

  // ---- channels ----

  /** `misused` records what Go answers with a panic: a send on, or a second close of, a closed channel. */
  datatype Chan<T> = Chan(items: seq<T>, closed: bool, misused: bool)

  function Open<T>(): Chan<T> { Chan([], false, false) }

  predicate Accepts<T>(cap: nat, c: Chan<T>) { !c.closed && |c.items| < cap }

  /** `select { case c <- x: default: }`. */
  function Offer<T>(cap: nat, c: Chan<T>, x: T): Chan<T> {
    if c.closed then c.(misused := true)
    else if |c.items| < cap then c.(items := c.items + [x])
    else c
  }

  function Shut<T>(c: Chan<T>): Chan<T> {
    if c.closed then c.(misused := true) else c.(closed := true)
  }

  function Tail<T>(c: Chan<T>): Chan<T>
    requires c.items != []
  {
    c.(items := c.items[1..])
  }

  predicate Drained<T>(c: Chan<T>) { c.closed && c.items == [] }

  // ---- one direction: audit queue, assembler, workers, bridge ----

  datatype Worker = Waiting | Busy(item: Item) | Exited

  datatype Bridge = Listening | Carrying(item: Item) | Gone

  /**
   `dispatched`, `dropped` and `submitted` are history: payloads accepted by
   the worker queue, entries counted in `resultDropped`, entries handed to the
   session tracker.
   */
  datatype Line = Line(
    queue: Chan<nat>, running: bool, input: Chan<Item>, workers: seq<Worker>, results: Chan<Item>, bridge: Bridge,
    dispatched: seq<Item>, dropped: seq<Item>, submitted: seq<Item>)

  datatype Config = Config(lines: nat, workers: nat, workerCap: nat, collectorCap: nat, batchSize: nat, bidir: bool)
  {
    /** What the flags' validation demands; a response line exists only with response capture. */
    predicate Valid() {
      && 1 <= lines <= 2 && workers > 0 && workerCap > 0 && collectorCap > 0 && batchSize > 0
      && (lines == 2 ==> bidir)
    }
  }

  datatype LineAct =
    | Enqueue(block: nat)
    | Assemble(payload: Option<Item>)  // one block; it may complete a payload
    | StopAssembler                    // queue closed and drained: close the worker queue
    | Take(w: nat)
    | Deliver(w: nat)
    | Exit(w: nat)
    | Fetch
    | StopBridge

  predicate CanLine(l: Line, response: bool, a: LineAct) {
    match a
    case Enqueue(_) => !l.queue.closed
    case Assemble(p) => l.running && l.queue.items != [] && (p.Some? ==> p.value.response == response)
    case StopAssembler => l.running && Drained(l.queue)
    case Take(w) => w < |l.workers| && l.workers[w].Waiting? && l.input.items != []
    case Deliver(w) => w < |l.workers| && l.workers[w].Busy?
    case Exit(w) => w < |l.workers| && l.workers[w].Waiting? && Drained(l.input)
    case Fetch => l.bridge.Listening? && l.results.items != []
    case StopBridge => l.bridge.Listening? && Drained(l.results)
  }

  function LineStep(c: Config, l: Line, a: LineAct): Line
    requires CanLine(l, true, a) || CanLine(l, false, a)
  {
    match a
    case Enqueue(b) => l.(queue := l.queue.(items := l.queue.items + [b]))
    case Assemble(None) => l.(queue := Tail(l.queue))
    case Assemble(Some(x)) =>
      l.(queue := Tail(l.queue), input := Offer(c.workerCap, l.input, x),
         dispatched := if Accepts(c.workerCap, l.input) then l.dispatched + [x] else l.dispatched)
    case StopAssembler => l.(running := false, input := Shut(l.input))
    case Take(w) => l.(workers := l.workers[w := Busy(l.input.items[0])], input := Tail(l.input))
    case Deliver(w) =>
      var x := l.workers[w].item;
      l.(workers := l.workers[w := Waiting], results := Offer(c.collectorCap, l.results, x),
         dropped := if Accepts(c.collectorCap, l.results) then l.dropped else l.dropped + [x])
    case Exit(w) => l.(workers := l.workers[w := Exited])
    case Fetch => l.(bridge := Carrying(l.results.items[0]), results := Tail(l.results))
    case StopBridge => l.(bridge := Gone)
  }

  // ---- collector ----

  datatype Phase = Collecting | Draining | Stopped

  /** `flushed` and `consumed` are history: records handed to finished flushes, records received. */
  datatype Collector = Collector(
    phase: Phase, active: seq<Record>, inflight: Option<seq<Record>>, backlog: nat,
    flushed: seq<Record>, consumed: seq<Record>)

  function TryFlush(k: Collector): Collector {
    if k.active == [] then k
    else if k.inflight.Some? then k.(backlog := k.backlog + 1)
    else k.(inflight := Some(k.active), active := [])
  }

  function Collect(batchSize: nat, k: Collector, r: Record): Collector {
    var k1 := k.(active := k.active + [r], consumed := k.consumed + [r]);
    if |k1.active| >= batchSize then TryFlush(k1) else k1
  }

  function FlushReturns(k: Collector): Collector
    requires k.inflight.Some?
  {
    k.(flushed := k.flushed + k.inflight.value, inflight := None)
  }

  /** The synchronous flush of the rest, after the wait for the one in flight. */
  function FinalFlush(k: Collector): Collector {
    k.(flushed := k.flushed + k.active, active := [], phase := Stopped)
  }

  function InFlight(k: Collector): seq<Record> {
    if k.inflight.Some? then k.inflight.value else []
  }

  // ---- the whole ----

  /** Where the shutdown stands; `k` is the direction. */
  datatype Stage =
    | Serving
    | CloseQueue(k: nat) | AwaitAssembler(k: nat) | AwaitWorkers(k: nat) | CloseResults(k: nat) | AwaitBridge(k: nat)
    | CancelTracker | AwaitTracker | CloseOutput | AwaitCollector
    | Done

  function Order(st: Stage): nat {
    match st
    case Serving => 0
    case CloseQueue(k) => 1 + 5 * k
    case AwaitAssembler(k) => 2 + 5 * k
    case AwaitWorkers(k) => 3 + 5 * k
    case CloseResults(k) => 4 + 5 * k
    case AwaitBridge(k) => 5 + 5 * k
    case CancelTracker => 11
    case AwaitTracker => 12
    case CloseOutput => 13
    case AwaitCollector => 14
    case Done => 15
  }

  function Later(lines: nat, st: Stage): Stage {
    match st
    case Serving => CloseQueue(0)
    case CloseQueue(k) => AwaitAssembler(k)
    case AwaitAssembler(k) => AwaitWorkers(k)
    case AwaitWorkers(k) => CloseResults(k)
    case CloseResults(k) => AwaitBridge(k)
    case AwaitBridge(k) => if k + 1 < lines then CloseQueue(k + 1) else CancelTracker
    case CancelTracker => AwaitTracker
    case AwaitTracker => CloseOutput
    case CloseOutput => AwaitCollector
    case _ => Done
  }

  datatype State = State(
    lines: seq<Line>, held: map<nat, Item>, cancelled: bool, sweeping: bool,
    out: Chan<Record>, refused: seq<Record>, coll: Collector, stage: Stage)

  datatype Act =
    | OnLine(k: nat, a: LineAct)
    | Submit(k: nat)           // SubmitRequest or SubmitResponse, under the mutex
    | Expire(rid: nat)         // one eviction of the sweeper, by TTL or after the cancellation
    | StopSweeper
    | Receive | Tick | FlushDone | Drain | Finish
    | Signal                   // the process is told to stop
    | Wait                     // one step of waitPipeline

  function NewLine(c: Config): Line {
    Line(Open(), true, Open(), seq(c.workers, _ => Waiting), Open(), Listening, [], [], [])
  }

  function Init(c: Config): State {
    State(seq(c.lines, _ => NewLine(c)), map[], false, c.bidir, Open(), [],
          Collector(Collecting, [], None, 0, [], []), Serving)
  }

  /** What the waiter waits for has happened. */
  predicate Ready(s: State) {
    match s.stage
    case Serving => false
    case CloseQueue(k) => k < |s.lines|
    case AwaitAssembler(k) => k < |s.lines| && !s.lines[k].running
    case AwaitWorkers(k) => k < |s.lines| && forall w | 0 <= w < |s.lines[k].workers| :: s.lines[k].workers[w].Exited?
    case CloseResults(k) => k < |s.lines|
    case AwaitBridge(k) => k < |s.lines| && s.lines[k].bridge.Gone?
    case CancelTracker => true
    case AwaitTracker => !s.sweeping
    case CloseOutput => true
    case AwaitCollector => s.coll.phase.Stopped?
    case Done => false
  }

  function Advance(s: State): State
    requires Ready(s)
  {
    var s' := s.(stage := Later(|s.lines|, s.stage));
    match s.stage
    case CloseQueue(k) => s'.(lines := s.lines[k := s.lines[k].(queue := Shut(s.lines[k].queue))])
    case CloseResults(k) => s'.(lines := s.lines[k := s.lines[k].(results := Shut(s.lines[k].results))])
    case CancelTracker => s'.(cancelled := true)
    case CloseOutput => s'.(out := Shut(s.out))
    case _ => s'
  }

  /** `emit`: a full collector channel loses the record. */
  function Emit(c: Config, s: State, r: Record): State {
    s.(out := Offer(c.collectorCap, s.out, r),
       refused := if Accepts(c.collectorCap, s.out) then s.refused else s.refused + [r])
  }

  /** `SubmitRequest` and `SubmitResponse`. */
  function ToTracker(c: Config, s: State, x: Item): State {
    if !c.bidir then Emit(c, s, Record([x]))
    else if x.rid in s.held then Emit(c, s.(held := s.held - {x.rid}), Record([s.held[x.rid], x]))
    else s.(held := s.held[x.rid := x])
  }

  predicate CanDo(c: Config, s: State, a: Act) {
    match a
    case OnLine(k, la) => k < |s.lines| && CanLine(s.lines[k], k == 1, la)
    case Submit(k) => k < |s.lines| && s.lines[k].bridge.Carrying?
    case Expire(rid) => s.sweeping && rid in s.held
    case StopSweeper => s.sweeping && s.cancelled && s.held == map[]
    case Receive => s.coll.phase.Collecting? && s.out.items != []
    case Tick => s.coll.phase.Collecting?
    case FlushDone => s.coll.inflight.Some?
    case Drain => s.coll.phase.Collecting? && Drained(s.out)
    case Finish => s.coll.phase.Draining? && s.coll.inflight.None?
    case Signal => s.stage.Serving?
    case Wait => Ready(s)
  }

  function Next(c: Config, s: State, a: Act): State
    requires CanDo(c, s, a)
  {
    match a
    case OnLine(k, la) => s.(lines := s.lines[k := LineStep(c, s.lines[k], la)])
    case Submit(k) =>
      var l := s.lines[k];
      var x := l.bridge.item;
      ToTracker(c, s.(lines := s.lines[k := l.(bridge := Listening, submitted := l.submitted + [x])]), x)
    case Expire(rid) => Emit(c, s.(held := s.held - {rid}), Record([s.held[rid]]))
    case StopSweeper => s.(sweeping := false)
    case Receive => s.(out := Tail(s.out), coll := Collect(c.batchSize, s.coll, s.out.items[0]))
    case Tick => s.(coll := TryFlush(s.coll))
    case FlushDone => s.(coll := FlushReturns(s.coll))
    case Drain => s.(coll := s.coll.(phase := Draining))
    case Finish => s.(coll := FinalFlush(s.coll))
    case Signal => s.(stage := Later(|s.lines|, s.stage))
    case Wait => Advance(s)
  }

  ghost predicate Run(c: Config, acts: seq<Act>)
    decreases |acts|, 0
  {
    acts == [] || (Run(c, acts[..|acts| - 1]) && CanDo(c, After(c, acts[..|acts| - 1]), Last(acts)))
  }

  ghost function After(c: Config, acts: seq<Act>): State
    requires Run(c, acts)
    decreases |acts|, 1
  {
    if acts == [] then Init(c) else Next(c, After(c, acts[..|acts| - 1]), Last(acts))
  }

  // ---- closing order ----

  /** A line when the waiter is `at` steps into it: 1 closes its queue, ..., 5 waits for its bridge. */
  ghost predicate LineOk(l: Line, at: int) {
    && |l.workers| > 0
    && (l.queue.closed <==> at > 1)
    && (l.running <==> !l.input.closed)
    && (!l.running ==> Drained(l.queue))
    && (at > 2 ==> !l.running)
    && (forall w | 0 <= w < |l.workers| :: l.workers[w].Exited? ==> Drained(l.input))
    && (at > 3 ==> forall w | 0 <= w < |l.workers| :: l.workers[w].Exited?)
    && (l.results.closed <==> at > 4)
    && (l.bridge.Gone? ==> Drained(l.results))
    && (at > 5 ==> l.bridge.Gone?)
    && !l.queue.misused && !l.input.misused && !l.results.misused
  }

  predicate StageFits(n: nat, st: Stage) {
    (st.CloseQueue? || st.AwaitAssembler? || st.AwaitWorkers? || st.CloseResults? || st.AwaitBridge?) ==> st.k < n
  }

  ghost predicate LinesOk(c: Config, s: State) {
    && |s.lines| == c.lines && StageFits(c.lines, s.stage)
    && forall k | 0 <= k < |s.lines| :: LineOk(s.lines[k], Order(s.stage) - 5 * k)
  }

  ghost predicate TrackerOk(c: Config, s: State) {
    var at := Order(s.stage);
    && (s.cancelled <==> at > 11)
    && (!c.bidir ==> !s.sweeping)
    && (!s.sweeping ==> s.held == map[] && (c.bidir ==> s.cancelled))
    && (at > 12 ==> !s.sweeping)
    && (forall r | r in s.held :: s.held[r].rid == r)
    && (s.out.closed <==> at > 13) && !s.out.misused
  }

  ghost predicate CollectorOk(s: State) {
    var k := s.coll;
    && k.flushed + InFlight(k) + k.active == k.consumed
    && (!k.phase.Collecting? ==> Drained(s.out))
    && (k.phase.Stopped? ==> k.active == [] && k.inflight.None?)
    && (Order(s.stage) > 14 ==> k.phase.Stopped?)
  }

  ghost predicate Safe(c: Config, s: State) { LinesOk(c, s) && TrackerOk(c, s) && CollectorOk(s) }

  lemma InitSafe(c: Config)
    requires c.Valid()
    ensures Safe(c, Init(c))
  {
  }

  lemma LineStepOk(c: Config, l: Line, at: int, response: bool, a: LineAct)
    requires LineOk(l, at) && CanLine(l, response, a)
    ensures LineOk(LineStep(c, l, a), at)
  {
  }

  lemma OnLineSafe(c: Config, s: State, k: nat, a: LineAct)
    requires Safe(c, s) && CanDo(c, s, OnLine(k, a))
    ensures Safe(c, Next(c, s, OnLine(k, a)))
  {
    LineStepOk(c, s.lines[k], Order(s.stage) - 5 * k, k == 1, a);
  }

  lemma SubmitSafe(c: Config, s: State, k: nat)
    requires c.Valid() && Safe(c, s) && CanDo(c, s, Submit(k))
    ensures Safe(c, Next(c, s, Submit(k)))
  {
    assert LineOk(s.lines[k], Order(s.stage) - 5 * k);
  }

  lemma AdvanceLine(l: Line, at: int)
    requires LineOk(l, at) && (at == 2 ==> !l.running) && (at == 5 ==> l.bridge.Gone?)
    requires at == 3 ==> forall w | 0 <= w < |l.workers| :: l.workers[w].Exited?
    ensures at == 1 ==> LineOk(l.(queue := Shut(l.queue)), at + 1)
    ensures at == 4 ==> LineOk(l.(results := Shut(l.results)), at + 1)
    ensures at != 1 && at != 4 ==> LineOk(l, at + 1)
  {
  }

  /** Before its turn and after it, a line does not notice the waiter. */
  lemma IdleLine(l: Line, at: int, at': int)
    requires LineOk(l, at) && ((at <= 1 && at' <= 1) || (at > 5 && at' > 5))
    ensures LineOk(l, at')
  {
  }

  /** How one step of the waiter moves it along a line. */
  lemma AdvancedStage(s: State, k: nat)
    requires Ready(s) && StageFits(|s.lines|, s.stage) && |s.lines| <= 2 && k < |s.lines|
    ensures var at, at' := Order(s.stage) - 5 * k, Order(Later(|s.lines|, s.stage)) - 5 * k;
            if 1 <= at < 5 then at' == at + 1 else if at == 5 then at' > 5
            else (at <= 1 && at' <= 1) || (at > 5 && at' > 5)
  {
  }

  /** What it does to the line. */
  lemma AdvancedLine(s: State, k: nat)
    requires Ready(s) && StageFits(|s.lines|, s.stage) && |s.lines| <= 2 && k < |s.lines|
    ensures Advance(s).stage == Later(|s.lines|, s.stage)
    ensures var at := Order(s.stage) - 5 * k;
            Advance(s).lines[k] == if at == 1 then s.lines[k].(queue := Shut(s.lines[k].queue))
                                   else if at == 4 then s.lines[k].(results := Shut(s.lines[k].results))
                                   else s.lines[k]
  {
  }

  lemma ReadyLine(c: Config, s: State, k: nat)
    requires LinesOk(c, s) && c.lines <= 2 && Ready(s) && k < |s.lines|
    ensures var at := Order(s.stage) - 5 * k;
            && LineOk(s.lines[k], at) && (at == 2 ==> !s.lines[k].running) && (at == 5 ==> s.lines[k].bridge.Gone?)
            && (at == 3 ==> forall w | 0 <= w < |s.lines[k].workers| :: s.lines[k].workers[w].Exited?)
  {
  }

  lemma WaitLine(c: Config, s: State, k: nat)
    requires LinesOk(c, s) && c.lines <= 2 && Ready(s) && k < |s.lines|
    ensures LineOk(Advance(s).lines[k], Order(Advance(s).stage) - 5 * k)
  {
    var at := Order(s.stage) - 5 * k;
    AdvancedStage(s, k);
    AdvancedLine(s, k);
    ReadyLine(c, s, k);
    if 1 <= at <= 5 { AdvanceLine(s.lines[k], at); }
    if !(1 <= at < 5) { IdleLine(s.lines[k], if at == 5 then 6 else at, Order(Advance(s).stage) - 5 * k); }
  }

  lemma WaitLines(c: Config, s: State)
    requires c.Valid() && Safe(c, s) && Ready(s)
    ensures LinesOk(c, Advance(s))
  {
    forall k | 0 <= k < |s.lines| ensures LineOk(Advance(s).lines[k], Order(Advance(s).stage) - 5 * k) {
      WaitLine(c, s, k);
    }
  }

  lemma WaitSafe(c: Config, s: State)
    requires c.Valid() && Safe(c, s) && Ready(s)
    ensures Safe(c, Advance(s))
  {
    WaitLines(c, s);
  }

  lemma CollectLossless(batchSize: nat, k: Collector, r: Record)
    requires k.flushed + InFlight(k) + k.active == k.consumed
    ensures var k' := Collect(batchSize, k, r); k'.flushed + InFlight(k') + k'.active == k'.consumed
  {
    assert k.flushed + InFlight(k) + (k.active + [r]) == k.consumed + [r];
  }

  lemma CollectSafe(c: Config, s: State, a: Act)
    requires c.Valid() && Safe(c, s) && CanDo(c, s, a)
    requires a.Receive? || a.Tick? || a.FlushDone? || a.Drain? || a.Finish?
    ensures Safe(c, Next(c, s, a))
  {
    if a.Receive? { CollectLossless(c.batchSize, s.coll, s.out.items[0]); }
    assert CollectorOk(Next(c, s, a));
  }

  lemma {:induction false} NextSafe(c: Config, s: State, a: Act)
    requires c.Valid() && Safe(c, s) && CanDo(c, s, a)
    ensures Safe(c, Next(c, s, a))
  {
    match a
    case OnLine(k, la) => OnLineSafe(c, s, k, la);
    case Submit(k) => SubmitSafe(c, s, k);
    case Expire(_) =>
    case StopSweeper =>
    case Signal =>
    case Wait => WaitSafe(c, s);
    case _ => CollectSafe(c, s, a);
  }

  lemma {:induction false} RunSafe(c: Config, acts: seq<Act>)
    requires c.Valid() && Run(c, acts)
    ensures Safe(c, After(c, acts))
    decreases |acts|
  {
    if acts == [] {
      InitSafe(c);
    } else {
      RunSafe(c, acts[..|acts| - 1]);
      NextSafe(c, After(c, acts[..|acts| - 1]), Last(acts));
    }
  }

  // ---- main result: nobody sends on, or closes, a closed channel ----

  /** Under every schedule of assemblers, workers, bridges, sweeper, collector and waiter. */
  lemma {:induction false} NoPanic(c: Config, acts: seq<Act>)
    requires c.Valid() && Run(c, acts)
    ensures var s := After(c, acts);
            && !s.out.misused
            && forall k | 0 <= k < |s.lines| ::
                 !s.lines[k].queue.misused && !s.lines[k].input.misused && !s.lines[k].results.misused
  {
    RunSafe(c, acts);
  }

  /** The collector is a lossless queue with one flush at a time. */
  lemma {:induction false} CollectorIsFifo(c: Config, acts: seq<Act>)
    requires c.Valid() && Run(c, acts)
    ensures var k := After(c, acts).coll;
            && k.flushed + InFlight(k) + k.active == k.consumed
            && (k.phase.Stopped? ==> k.flushed == k.consumed && Drained(After(c, acts).out))
  {
    RunSafe(c, acts);
  }

  // ---- shutdown ends ----

  function WorkersWork(ws: seq<Worker>): nat {
    if ws == [] then 0
    else (match ws[0] case Waiting => 1 case Busy(_) => 9 case Exited => 0) + WorkersWork(ws[1..])
  }

  function LineWork(l: Line): nat {
    12 * |l.queue.items| + (if l.running then 1 else 0) + 10 * |l.input.items| + WorkersWork(l.workers)
    + 6 * |l.results.items| + (match l.bridge case Listening => 1 case Carrying(_) => 6 case Gone => 0)
  }

  function LinesWork(ls: seq<Line>): nat {
    if ls == [] then 0 else LineWork(ls[0]) + LinesWork(ls[1..])
  }

  function CollectorWork(k: Collector): nat {
    2 * |k.active| + (if k.inflight.Some? then 1 else 0)
    + (match k.phase case Collecting => 2 case Draining => 1 case Stopped => 0)
  }

  /** What is left to do, weighted so that every hop makes it less. */
  function Work(s: State): nat {
    LinesWork(s.lines) + 4 * |s.held| + (if s.sweeping then 1 else 0) + 3 * |s.out.items|
    + CollectorWork(s.coll) + (if Order(s.stage) < 15 then 15 - Order(s.stage) else 0)
  }

  lemma {:induction false} WorkersUpdate(ws: seq<Worker>, w: nat, v: Worker)
    requires w < |ws|
    ensures WorkersWork(ws[w := v]) + WorkersWork([ws[w]]) == WorkersWork(ws) + WorkersWork([v])
  {
    if w > 0 {
      assert ws[w := v][1..] == ws[1..][w - 1 := v];
      WorkersUpdate(ws[1..], w - 1, v);
    } else {
      assert ws[w := v][1..] == ws[1..];
    }
  }

  lemma {:induction false} LinesUpdate(ls: seq<Line>, k: nat, l: Line)
    requires k < |ls|
    ensures LinesWork(ls[k := l]) + LineWork(ls[k]) == LinesWork(ls) + LineWork(l)
  {
    if k > 0 {
      assert ls[k := l][1..] == ls[1..][k - 1 := l];
      LinesUpdate(ls[1..], k - 1, l);
    } else {
      assert ls[k := l][1..] == ls[1..];
    }
  }

  lemma LineStepWork(c: Config, l: Line, response: bool, a: LineAct)
    requires CanLine(l, response, a)
    ensures if a.Enqueue? then LineWork(LineStep(c, l, a)) == LineWork(l) + 12
            else LineWork(LineStep(c, l, a)) < LineWork(l)
  {
    match a
    case Take(w) => WorkersUpdate(l.workers, w, Busy(l.input.items[0]));
    case Deliver(w) => WorkersUpdate(l.workers, w, Waiting);
    case Exit(w) => WorkersUpdate(l.workers, w, Exited);
    case _ =>
  }

  lemma SubmitWork(c: Config, s: State, k: nat)
    requires CanDo(c, s, Submit(k))
    ensures Work(Next(c, s, Submit(k))) < Work(s)
  {
    var l := s.lines[k];
    var x := l.bridge.item;
    var l' := l.(bridge := Listening, submitted := l.submitted + [x]);
    LinesUpdate(s.lines, k, l');
    TrackerWork(c, s.(lines := s.lines[k := l']), x);
  }

  /** The tracker passes on what it gets, or keeps it for less than it cost to bring. */
  lemma TrackerWork(c: Config, s: State, x: Item)
    ensures Work(ToTracker(c, s, x)) <= Work(s) + 4
  {
    assert x.rid in s.held ==> |s.held - {x.rid}| == |s.held| - 1;
  }

  lemma LaterOrder(n: nat, st: Stage)
    requires StageFits(n, st) && n <= 2 && !st.Done?
    ensures Order(st) < Order(Later(n, st)) <= 15
  {
  }

  lemma AdvanceWork(s: State)
    requires Ready(s) && StageFits(|s.lines|, s.stage) && |s.lines| <= 2
    ensures Work(Advance(s)) < Work(s)
  {
    LaterOrder(|s.lines|, s.stage);
    var s' := Advance(s);
    assert LinesWork(s'.lines) == LinesWork(s.lines) by {
      if s.stage.CloseQueue? {
        LinesUpdate(s.lines, s.stage.k, s.lines[s.stage.k].(queue := Shut(s.lines[s.stage.k].queue)));
      } else if s.stage.CloseResults? {
        LinesUpdate(s.lines, s.stage.k, s.lines[s.stage.k].(results := Shut(s.lines[s.stage.k].results)));
      }
    }
  }

  /** Steps that no component of the pipeline takes by itself: new blocks, the collector's clock, the signal. */
  predicate External(a: Act) {
    a.Tick? || a.Signal? || (a.OnLine? && a.a.Enqueue?)
  }

  lemma OnLineWork(c: Config, s: State, k: nat, la: LineAct)
    requires CanDo(c, s, OnLine(k, la))
    ensures !la.Enqueue? ==> Work(Next(c, s, OnLine(k, la))) < Work(s)
  {
    LineStepWork(c, s.lines[k], k == 1, la);
    LinesUpdate(s.lines, k, LineStep(c, s.lines[k], la));
  }

  lemma ExpireWork(c: Config, s: State, rid: nat)
    requires CanDo(c, s, Expire(rid))
    ensures Work(Next(c, s, Expire(rid))) < Work(s)
  {
    assert |s.held - {rid}| == |s.held| - 1;
  }

  lemma CollectWork(c: Config, s: State, a: Act)
    requires c.Valid() && CanDo(c, s, a) && (a.Receive? || a.Tick? || a.FlushDone? || a.Drain? || a.Finish?)
    ensures if a.Tick? then Work(Next(c, s, a)) <= Work(s) else Work(Next(c, s, a)) < Work(s)
  {
  }

  /** Every internal step leaves less work; a tick leaves no more; only a new block adds some. */
  lemma {:induction false} StepWork(c: Config, s: State, a: Act)
    requires c.Valid() && Safe(c, s) && CanDo(c, s, a)
    ensures !External(a) ==> Work(Next(c, s, a)) < Work(s)
    ensures a.Tick? || a.Signal? ==> Work(Next(c, s, a)) <= Work(s)
  {
    match a
    case OnLine(k, la) => OnLineWork(c, s, k, la);
    case Submit(k) => SubmitWork(c, s, k);
    case Expire(rid) => ExpireWork(c, s, rid);
    case Wait => AdvanceWork(s);
    case Signal =>
    case StopSweeper =>
    case _ => CollectWork(c, s, a);
  }

  function InternalSteps(acts: seq<Act>): nat {
    if acts == [] then 0 else InternalSteps(acts[..|acts| - 1]) + (if External(Last(acts)) then 0 else 1)
  }

  /** From any reachable state on, the work there bounds the steps that remain, unless new blocks arrive. */
  lemma {:induction false} ShutdownBound(c: Config, before: seq<Act>, later: seq<Act>)
    requires c.Valid() && Run(c, before + later) && Run(c, before)
    requires forall i | 0 <= i < |later| :: !(later[i].OnLine? && later[i].a.Enqueue?)
    ensures InternalSteps(later) + Work(After(c, before + later)) <= Work(After(c, before))
    decreases |later|
  {
    if later == [] {
      assert before + later == before;
    } else {
      var acts := before + later;
      assert acts[..|acts| - 1] == before + later[..|later| - 1];
      ShutdownBound(c, before, later[..|later| - 1]);
      RunSafe(c, acts[..|acts| - 1]);
      StepWork(c, After(c, acts[..|acts| - 1]), Last(acts));
    }
  }

  /** Once a queue is closed, no block can be added to it. */
  lemma {:induction false} ClosedQueueStaysClosed(c: Config, acts: seq<Act>, a: Act, k: nat)
    requires c.Valid() && Run(c, acts) && CanDo(c, After(c, acts), a)
    requires k < c.lines && Order(After(c, acts).stage) > 1 + 5 * k
    ensures !(a.OnLine? && a.k == k && a.a.Enqueue?)
    ensures Order(Next(c, After(c, acts), a).stage) > 1 + 5 * k
  {
    RunSafe(c, acts);
    assert LineOk(After(c, acts).lines[k], Order(After(c, acts).stage) - 5 * k);
    StageOnlyGrows(c, After(c, acts), a);
  }

  lemma StageOnlyGrows(c: Config, s: State, a: Act)
    requires c.Valid() && LinesOk(c, s) && CanDo(c, s, a)
    ensures Order(s.stage) <= Order(Next(c, s, a).stage)
  {
    if a.Wait? || a.Signal? { LaterOrder(|s.lines|, s.stage); }
  }

  lemma LineMoves(l: Line, k: nat, at: int) returns (a: LineAct)
    requires LineOk(l, at)
    requires at == 2 ==> l.running
    requires at == 3 ==> exists w :: 0 <= w < |l.workers| && !l.workers[w].Exited?
    requires at == 5 ==> l.bridge.Listening?
    requires at == 2 || at == 3 || at == 5
    ensures !a.Enqueue? && CanLine(l, k == 1, a)
  {
    if at == 2 {
      a := if l.queue.items == [] then StopAssembler else Assemble(None);
    } else if at == 3 {
      var w :| 0 <= w < |l.workers| && !l.workers[w].Exited?;
      a := if l.workers[w].Busy? then Deliver(w) else if l.input.items != [] then Take(w) else Exit(w);
    } else {
      a := if l.results.items != [] then Fetch else StopBridge;
    }
  }

  /** While the shutdown is under way, some component can always take an internal step. */
  lemma {:induction false} ShutdownProgress(c: Config, acts: seq<Act>) returns (a: Act)
    requires c.Valid() && Run(c, acts) && !After(c, acts).stage.Serving? && !After(c, acts).stage.Done?
    ensures !External(a) && CanDo(c, After(c, acts), a)
  {
    var s := After(c, acts);
    RunSafe(c, acts);
    if Ready(s) {
      a := Wait;
    } else if s.stage.AwaitTracker? {
      if s.held == map[] { a := StopSweeper; } else { var r :| r in s.held; a := Expire(r); }
    } else if s.stage.AwaitCollector? {
      a := if s.coll.phase.Draining? then (if s.coll.inflight.Some? then FlushDone else Finish)
           else if s.out.items != [] then Receive else Drain;
    } else if s.stage.AwaitAssembler? || s.stage.AwaitWorkers? || s.stage.AwaitBridge? {
      var k := s.stage.k;
      assert LineOk(s.lines[k], Order(s.stage) - 5 * k);
      if s.lines[k].bridge.Carrying? {
        a := Submit(k);
      } else {
        var la := LineMoves(s.lines[k], k, Order(s.stage) - 5 * k);
        a := OnLine(k, la);
      }
    }
  }
}
