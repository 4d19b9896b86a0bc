/**
 `startCollector` as the loop it is: entries go into the active batch, which is
 handed to a flush as a whole; a second flush never starts while one runs.
 The events say in which order arrivals, ticks and the end of the running
 flush reach the loop.  The loop refines the collector of Pipeline.dfy, whose
 steps the scheduler there interleaves with everything else.
 */
module CollectorLoop {
  import opened Prelude
  import opened Pipeline

  datatype Event = Arrival | TickerFired | FlushReturned

  function Concat(batches: seq<seq<Record>>): seq<Record> {
    if batches == [] then [] else Concat(batches[..|batches| - 1]) + Last(batches)
  }

  lemma ConcatAppend(batches: seq<seq<Record>>, b: seq<Record>)
    ensures Concat(batches + [b]) == Concat(batches) + b
  {
    assert (batches + [b])[..|batches|] == batches;
  }

  /**
   In every run: after an entry a flush is running or the batch is not full; a tick
   leaves entries only behind a running flush; each flush put off is counted.
   */
  lemma {:induction false} FlushesInTime(c: Config, acts: seq<Act>, a: Act)
    requires c.Valid() && Pipeline.Run(c, acts) && CanDo(c, After(c, acts), a)
    ensures var k, k' := After(c, acts).coll, Next(c, After(c, acts), a).coll;
            && (a.Receive? ==> k'.inflight.Some? || |k'.active| < c.batchSize)
            && (a.Tick? ==> k'.active == [] || k.inflight.Some?)
            && (a.Receive? && k.inflight.None? && |k.active| + 1 >= c.batchSize ==>
                  k'.inflight == Some(k.active + [After(c, acts).out.items[0]]))
            && (a.Tick? && k.inflight.None? && k.active != [] ==> k'.inflight == Some(k.active))
            && k'.backlog == k.backlog + if k.inflight.Some? && (
                               (a.Receive? && |k.active| + 1 >= c.batchSize) || (a.Tick? && k.active != []))
                             then 1 else 0
  {
  }

  const NEW_COLLECTOR := Collector(Collecting, [], None, 0, [], [])

  /** The collector after one event; an arrival needs an entry, a return a running flush. */
  function React(batchSize: nat, input: seq<Record>, k: Collector, e: Event): Collector {
    match e
    case Arrival => if |k.consumed| < |input| then Collect(batchSize, k, input[|k.consumed|]) else k
    case TickerFired => TryFlush(k)
    case FlushReturned => if k.inflight.Some? then FlushReturns(k) else k
  }

  function Replay(batchSize: nat, input: seq<Record>, events: seq<Event>): Collector {
    if events == [] then NEW_COLLECTOR
    else React(batchSize, input, Replay(batchSize, input, events[..|events| - 1]), Last(events))
  }

  /** The input is closed: what is left of it arrives, the running flush ends, the rest is flushed. */
  function WindUp(batchSize: nat, input: seq<Record>, k: Collector): Collector
    decreases |input| - |k.consumed|
  {
    if |k.consumed| < |input| then WindUp(batchSize, input, React(batchSize, input, k, Arrival))
    else FinalFlush(React(batchSize, input, k, FlushReturned))
  }

  /** Every record is in a finished flush, the running one or the active batch, in order of arrival. */
  ghost predicate Lossless(input: seq<Record>, k: Collector) {
    |k.consumed| <= |input| && k.consumed == input[..|k.consumed|] && k.flushed + InFlight(k) + k.active == k.consumed
  }

  lemma ReactLossless(batchSize: nat, input: seq<Record>, k: Collector, e: Event)
    requires Lossless(input, k)
    ensures Lossless(input, React(batchSize, input, k, e))
  {
    if e.Arrival? && |k.consumed| < |input| {
      var n := |k.consumed|;
      assert input[..n + 1] == input[..n] + [input[n]];
      CollectLossless(batchSize, k, input[n]);
    } else if e.TickerFired? {
      assert k.flushed + InFlight(k) + k.active == k.flushed + (InFlight(k) + k.active);
    }
  }

  lemma {:induction false} WindUpLossless(batchSize: nat, input: seq<Record>, k: Collector)
    requires Lossless(input, k)
    ensures WindUp(batchSize, input, k).flushed == input
    decreases |input| - |k.consumed|
  {
    if |k.consumed| < |input| {
      ReactLossless(batchSize, input, k, Arrival);
      WindUpLossless(batchSize, input, React(batchSize, input, k, Arrival));
    } else {
      assert input[..|input|] == input;
    }
  }

  /** The variables that the loop, its closure and the flush goroutine share; `handed` lists the batches given to the flush function so far. */
  class Loop {
    var activeBatch: seq<Record>
    var flushing: bool
    var handed: seq<seq<Record>>
    var flushBacklog: nat
    var received: nat
    ghost var consumed: seq<Record>

    ghost predicate Valid()
      reads this
    {
      && received == |consumed| && (flushing ==> handed != [])
      && forall i | 0 <= i < |handed| :: handed[i] != []
    }

    ghost function View(): Collector
      reads this
      requires Valid()
    {
      Collector(Collecting, activeBatch, if flushing then Some(Last(handed)) else None, flushBacklog,
                Concat(if flushing then handed[..|handed| - 1] else handed), consumed)
    }

    constructor ()
      ensures Valid() && View() == NEW_COLLECTOR && handed == []
    {
      activeBatch, flushing, handed, flushBacklog, received, consumed := [], false, [], 0, 0, [];
    }

    /** `tryFlush`: swap the buffers unless there is nothing to flush or a flush is running. */
    method TryFlushBatch()
      requires Valid()
      modifies this`activeBatch, this`flushing, this`handed, this`flushBacklog
      ensures Valid() && View() == TryFlush(old(View())) && old(handed) <= handed
      ensures old(activeBatch) != [] && !old(flushing) ==>
                && handed == old(handed) + [old(activeBatch)] && activeBatch == [] && flushing
                && flushBacklog == old(flushBacklog)
      ensures old(activeBatch) == [] || old(flushing) ==>
                && handed == old(handed) && activeBatch == old(activeBatch) && flushing == old(flushing)
                && flushBacklog == old(flushBacklog) + if old(activeBatch) == [] then 0 else 1
    {
      if |activeBatch| == 0 { return; }
      if flushing {
        flushBacklog := flushBacklog + 1;
        return;
      }
      assert (handed + [activeBatch])[..|handed|] == handed;
      handed := handed + [activeBatch];
      activeBatch, flushing := [], true;
    }

    method Take(batchSize: nat, entry: Record)
      requires Valid()
      modifies this
      ensures Valid() && View() == Collect(batchSize, old(View()), entry) && old(handed) <= handed
      ensures received == old(received) + 1
      ensures var full := old(activeBatch) + [entry];
              if |full| < batchSize || old(flushing) then
                && activeBatch == full && handed == old(handed) && flushing == old(flushing)
                && flushBacklog == old(flushBacklog) + if |full| < batchSize then 0 else 1
              else
                && activeBatch == [] && handed == old(handed) + [full] && flushing
                && flushBacklog == old(flushBacklog)
    {
      activeBatch, received, consumed := activeBatch + [entry], received + 1, consumed + [entry];
      if |activeBatch| >= batchSize { TryFlushBatch(); }
    }

    method FlushEnds()
      requires Valid()
      modifies this`flushing
      ensures Valid() && handed == old(handed)
      ensures View() == if old(flushing) then FlushReturns(old(View())) else old(View())
    {
      if flushing { ConcatAppend(handed[..|handed| - 1], Last(handed)); }
      assert flushing ==> handed[..|handed| - 1] + [Last(handed)] == handed;
      flushing := false;
    }
  }

  /** The select loop while the input is open. */
  method HandleEvents(loop: Loop, batchSize: nat, input: seq<Record>, events: seq<Event>)
    requires loop.Valid() && loop.View() == NEW_COLLECTOR && loop.handed == []
    modifies loop
    ensures loop.Valid() && loop.View() == Replay(batchSize, input, events) && Lossless(input, loop.View())
    ensures NoTicks(events) ==> FullBatches(loop.handed, batchSize)
  {
    for e := 0 to |events|
      invariant loop.Valid() && loop.View() == Replay(batchSize, input, events[..e]) && Lossless(input, loop.View())
      invariant NoTicks(events) ==> FullBatches(loop.handed, batchSize)
    {
      ghost var k := loop.View();
      assert events[..e + 1][..e] == events[..e];
      ReactLossless(batchSize, input, k, events[e]);
      HandleEvent(loop, batchSize, input, events[e]);
      assert Last(events[..e + 1]) == events[e];
    }
    assert events[..|events|] == events;
  }

  /** No batch is smaller than the batch size. */
  predicate FullBatches(batches: seq<seq<Record>>, batchSize: nat) {
    forall i | 0 <= i < |batches| :: |batches[i]| >= batchSize
  }

  predicate NoTicks(events: seq<Event>) {
    forall i | 0 <= i < |events| :: !events[i].TickerFired?
  }

  method HandleEvent(loop: Loop, batchSize: nat, input: seq<Record>, e: Event)
    requires loop.Valid()
    modifies loop
    ensures loop.Valid() && loop.View() == React(batchSize, input, old(loop.View()), e)
    ensures old(loop.handed) <= loop.handed
    ensures e.Arrival? && old(loop.received) < |input| ==> loop.flushing || |loop.activeBatch| < batchSize
    ensures e.TickerFired? ==> loop.activeBatch == [] || old(loop.flushing)
    ensures !e.TickerFired? && FullBatches(old(loop.handed), batchSize) ==> FullBatches(loop.handed, batchSize)
  {
    match e
    case Arrival =>
      if loop.received < |input| {
        loop.Take(batchSize, input[loop.received]);
      }
    case TickerFired => loop.TryFlushBatch();
    case FlushReturned => loop.FlushEnds();
  }

  /** What is still on its way when the input is closed arrives first. */
  method ReceiveRest(loop: Loop, batchSize: nat, input: seq<Record>)
    requires loop.Valid() && Lossless(input, loop.View())
    modifies loop
    ensures loop.Valid() && Lossless(input, loop.View()) && |loop.consumed| == |input|
    ensures WindUp(batchSize, input, loop.View()) == WindUp(batchSize, input, old(loop.View()))
    ensures FullBatches(old(loop.handed), batchSize) ==> FullBatches(loop.handed, batchSize)
  {
    ghost var k0 := loop.View();
    while loop.received < |input|
      invariant loop.Valid() && Lossless(input, loop.View())
      invariant WindUp(batchSize, input, loop.View()) == WindUp(batchSize, input, k0)
      invariant FullBatches(old(loop.handed), batchSize) ==> FullBatches(loop.handed, batchSize)
      decreases |input| - loop.received
    {
      ghost var k := loop.View();
      ReactLossless(batchSize, input, k, Arrival);
      loop.Take(batchSize, input[loop.received]);
    }
  }

  /** The wait for the running flush, and the last one. */
  method Finish(loop: Loop) returns (batches: seq<seq<Record>>, backlog: nat)
    requires loop.Valid()
    modifies loop
    ensures batches == old(loop.handed) + if old(loop.activeBatch) == [] then [] else [old(loop.activeBatch)]
    ensures forall i | 0 <= i < |batches| :: batches[i] != []
    ensures var k := old(loop.View());
            var f := FinalFlush(if k.inflight.Some? then FlushReturns(k) else k);
            Concat(batches) == f.flushed && backlog == f.backlog
  {
    loop.FlushEnds();
    batches, backlog := loop.handed, loop.flushBacklog;
    if |loop.activeBatch| > 0 {
      ConcatAppend(batches, loop.activeBatch);
      batches := batches + [loop.activeBatch];
    }
  }

  /**
   The event loop until the input is closed, then the wait for the running
   flush and the final one.  `input` is everything sent before the close;
   `batches` is what the flush function was called with, one call at a time.
   */
  method StartCollector(batchSize: nat, input: seq<Record>, events: seq<Event>)
    returns (batches: seq<seq<Record>>, backlog: nat)
    requires batchSize > 0
    ensures Concat(batches) == input
    ensures forall i | 0 <= i < |batches| :: batches[i] != []
    ensures NoTicks(events) ==> forall i | 0 <= i < |batches| - 1 :: |batches[i]| >= batchSize
    ensures var k := WindUp(batchSize, input, Replay(batchSize, input, events));
            Concat(batches) == k.flushed && backlog == k.backlog
  {
    var loop := new Loop();
    HandleEvents(loop, batchSize, input, events);
    WindUpLossless(batchSize, input, loop.View());
    ReceiveRest(loop, batchSize, input);
    batches, backlog := Finish(loop);
  }
}
