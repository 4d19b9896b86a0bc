/**
 The only ways in which the pipeline loses an entry: a worker queue, a result
 queue or the collector channel that is full at that moment.  With room in all
 three, everything that was assembled is flushed by the end of the shutdown.
 */
module Losses {
  import opened Prelude
  import opened Pipeline
  import opened Conservation

  // ---- one step on a line ----

  /** A worker delivers to a result queue without room. */
  predicate FindsResultsFull(c: Config, l: Line, a: LineAct) {
    a.Deliver? && |l.results.items| >= c.collectorCap
  }

  /** The assembler completes a payload while the worker queue is without room. */
  predicate FindsInputFull(c: Config, l: Line, a: LineAct) {
    a.Assemble? && a.payload.Some? && |l.input.items| >= c.workerCap
  }

  /** `resultDropped` counts a delivered entry exactly if the result queue is full; otherwise the entry is its last. */
  lemma DroppedExactlyWhen(c: Config, l: Line, at: int, response: bool, a: LineAct)
    requires LineOk(l, at) && CanLine(l, response, a)
    ensures var l' := LineStep(c, l, a);
            && l'.dropped == l.dropped + (if FindsResultsFull(c, l, a) then [l.workers[a.w].item] else [])
            && (a.Deliver? ==>
                  && l'.workers == l.workers[a.w := Waiting]
                  && l'.results.items
                     == l.results.items + if FindsResultsFull(c, l, a) then [] else [l.workers[a.w].item])
  {
    assert l.dropped + [] == l.dropped && l.results.items + [] == l.results.items;
  }

  /** A completed payload is dispatched exactly if the worker queue has room; then it is its last. */
  lemma DispatchedExactlyIf(c: Config, l: Line, at: int, response: bool, a: LineAct)
    requires LineOk(l, at) && CanLine(l, response, a)
    ensures var l' := LineStep(c, l, a);
            var sent := if a.Assemble? && a.payload.Some? && !FindsInputFull(c, l, a) then [a.payload.value] else [];
            && l'.dispatched == l.dispatched + sent
            && (a.Assemble? ==> l'.input.items == l.input.items + sent && l'.queue.items == l.queue.items[1..])
  {
    assert l.dispatched + [] == l.dispatched && l.input.items + [] == l.input.items;
  }

  /** Workers and bridge take the oldest entry there is. */
  lemma OldestFirst(c: Config, l: Line, response: bool, a: LineAct)
    requires CanLine(l, response, a) && (a.Take? || a.Fetch?)
    ensures var l' := LineStep(c, l, a);
            if a.Take? then
              && [l'.workers[a.w].item] + l'.input.items == l.input.items
              && l'.workers == l.workers[a.w := l'.workers[a.w]] && l'.results == l.results
            else
              && [l'.bridge.item] + l'.results.items == l.results.items && l'.input == l.input && l'.workers == l.workers
  {
  }

  lemma NextWorkers(c: Config, s: State, a: Act, k: nat)
    requires CanDo(c, s, a) && k < |Next(c, s, a).lines|
    ensures k < |s.lines| && |Next(c, s, a).lines[k].workers| == |s.lines[k].workers|
  {
  }

  /** Every line keeps the number of workers it was configured with. */
  lemma {:induction false} WorkersStay(c: Config, acts: seq<Act>, k: nat)
    requires Run(c, acts) && k < |After(c, acts).lines|
    ensures |After(c, acts).lines[k].workers| == c.workers
    decreases |acts|
  {
    if acts != [] {
      NextWorkers(c, After(c, acts[..|acts| - 1]), Last(acts), k);
      WorkersStay(c, acts[..|acts| - 1], k);
    }
  }

  // ---- one step behind the lines ----

  /** The record an action sends to the collector, if it sends one: a side alone, or both sides of a request. */
  function Sends(c: Config, s: State, a: Act): Option<Record>
    requires CanDo(c, s, a)
  {
    match a
    case Expire(rid) => Some(Record([s.held[rid]]))
    case Submit(k) =>
      var x := s.lines[k].bridge.item;
      if !c.bidir then Some(Record([x]))
      else if x.rid in s.held then Some(Record([s.held[x.rid], x]))
      else None
    case _ => None
  }

  /** The record finds the collector channel without room. */
  predicate FindsOutFull(c: Config, s: State, a: Act)
    requires CanDo(c, s, a)
  {
    Sends(c, s, a).Some? && |s.out.items| >= c.collectorCap
  }

  lemma OpenWhileSending(c: Config, s: State, a: Act)
    requires c.Valid() && Safe(c, s) && CanDo(c, s, a) && (a.Submit? || a.Expire?)
    ensures !s.out.closed
  {
    if a.Submit? { assert LineOk(s.lines[a.k], Order(s.stage) - 5 * a.k); }
  }

  /** A record is refused exactly if the collector channel is full; otherwise it is its last. */
  lemma RefusedExactlyWhen(c: Config, s: State, a: Act)
    requires c.Valid() && Safe(c, s) && CanDo(c, s, a)
    ensures var s' := Next(c, s, a);
            && s'.refused == s.refused + (if FindsOutFull(c, s, a) then [Sends(c, s, a).value] else [])
            && (a.Submit? || a.Expire? ==>
                  s'.out.items
                  == s.out.items + if Sends(c, s, a).Some? && !FindsOutFull(c, s, a) then [Sends(c, s, a).value] else [])
  {
    assert s.refused + [] == s.refused && s.out.items + [] == s.out.items;
    if a.Submit? || a.Expire? { OpenWhileSending(c, s, a); }
  }

  /** The first side of a request is held, the second releases it, and so does the sweeper. */
  lemma HeldExactly(c: Config, s: State, a: Act)
    requires c.Valid() && CanDo(c, s, a) && (!c.bidir ==> s.held == map[])
    ensures var s' := Next(c, s, a);
            match a
            case Expire(rid) => s'.held == s.held - {rid}
            case Submit(k) =>
              var x := s.lines[k].bridge.item;
              && s'.lines[k].bridge.Listening?
              && s'.held == (if c.bidir && x.rid !in s.held then s.held[x.rid := x] else s.held - {x.rid})
            case _ => s'.held == s.held
  {
    assert a.Submit? && s.lines[a.k].bridge.item.rid !in s.held ==> s.held - {s.lines[a.k].bridge.item.rid} == s.held;
  }

  // ---- runs that never find a queue full ----

  /** The action finds room in the queue it sends to, if it sends to one. */
  predicate FindsRoom(c: Config, s: State, a: Act)
    requires CanDo(c, s, a)
  {
    && !FindsOutFull(c, s, a)
    && (a.OnLine? ==> !FindsResultsFull(c, s.lines[a.k], a.a) && !FindsInputFull(c, s.lines[a.k], a.a))
  }

  ghost predicate AlwaysRoom(c: Config, acts: seq<Act>)
    requires Run(c, acts)
    decreases |acts|
  {
    acts == [] || (AlwaysRoom(c, acts[..|acts| - 1]) && FindsRoom(c, After(c, acts[..|acts| - 1]), Last(acts)))
  }

  /** The payloads that the assembler of line `k` completed in a run. */
  function Completed(acts: seq<Act>, k: nat): seq<Item> {
    if acts == [] then []
    else
      var a := Last(acts);
      Completed(acts[..|acts| - 1], k)
      + if a.OnLine? && a.k == k && a.a.Assemble? && a.a.payload.Some? then [a.a.payload.value] else []
  }

  /** Line `k` has dispatched all it completed, and dropped nothing. */
  ghost predicate Undamaged(s: State, acts: seq<Act>, k: nat)
    requires k < |s.lines|
  {
    s.lines[k].dropped == [] && s.lines[k].dispatched == Completed(acts, k)
  }

  lemma CompletedNext(acts: seq<Act>, a: Act, k: nat)
    ensures Completed(acts + [a], k)
            == Completed(acts, k)
               + if a.OnLine? && a.k == k && a.a.Assemble? && a.a.payload.Some? then [a.a.payload.value] else []
  {
    assert (acts + [a])[..|acts|] == acts;
  }

  /** A line changes by its own actions, apart from what the waiter and the tracker do to its bridge and queues. */
  lemma OtherUndamaged(c: Config, s: State, a: Act, k: nat)
    requires CanDo(c, s, a) && k < |s.lines| && !(a.OnLine? && a.k == k)
    ensures k < |Next(c, s, a).lines|
    ensures Next(c, s, a).lines[k].dropped == s.lines[k].dropped
    ensures Next(c, s, a).lines[k].dispatched == s.lines[k].dispatched
  {
  }

  lemma NextUndamaged(c: Config, s: State, acts: seq<Act>, a: Act, k: nat)
    requires LinesOk(c, s) && CanDo(c, s, a) && FindsRoom(c, s, a)
    requires k < |s.lines| && Undamaged(s, acts, k)
    ensures k < |Next(c, s, a).lines| && Undamaged(Next(c, s, a), acts + [a], k)
  {
    CompletedNext(acts, a, k);
    if a.OnLine? && a.k == k {
      var at := Order(s.stage) - 5 * k;
      assert LineOk(s.lines[k], at);
      DroppedExactlyWhen(c, s.lines[k], at, k == 1, a.a);
      DispatchedExactlyIf(c, s.lines[k], at, k == 1, a.a);
    } else {
      OtherUndamaged(c, s, a, k);
    }
  }

  lemma SameLines(c: Config, acts: seq<Act>)
    requires c.Valid() && Run(c, acts)
    ensures |After(c, acts).lines| == c.lines
  {
    RunSafe(c, acts);
  }

  /** A run in which no queue is ever found full drops and refuses nothing. */
  lemma {:induction false} RoomLosesNothing(c: Config, acts: seq<Act>)
    requires c.Valid() && Run(c, acts) && AlwaysRoom(c, acts)
    ensures After(c, acts).refused == []
    ensures forall k | 0 <= k < |After(c, acts).lines| :: Undamaged(After(c, acts), acts, k)
    decreases |acts|
  {
    if acts != [] {
      var init, a := acts[..|acts| - 1], Last(acts);
      assert acts == init + [a];
      RoomLosesNothing(c, init);
      SameLines(c, init);
      SameLines(c, acts);
      RunSafe(c, init);
      RefusedExactlyWhen(c, After(c, init), a);
      forall k | 0 <= k < |After(c, acts).lines| ensures Undamaged(After(c, acts), acts, k) {
        NextUndamaged(c, After(c, init), init, a, k);
      }
    }
  }

  /** How often an item was completed, on all lines. */
  function CompletedCount(acts: seq<Act>, n: nat, x: Item): nat {
    if n == 0 then 0 else CompletedCount(acts, n - 1, x) + Count(Completed(acts, n - 1), x)
  }

  lemma {:induction false} DispatchedTotal(s: State, acts: seq<Act>, n: nat, x: Item)
    requires n <= |s.lines| && forall k | 0 <= k < |s.lines| :: Undamaged(s, acts, k)
    ensures AllAt(s.lines[..n], Dispatched, x) == CompletedCount(acts, n, x)
  {
    if n > 0 {
      DispatchedTotal(s, acts, n - 1, x);
      assert Undamaged(s, acts, n - 1);
      AllAtAppend(s.lines[..n - 1], s.lines[n - 1], Dispatched, x);
      assert s.lines[..n - 1] + [s.lines[n - 1]] == s.lines[..n];
    }
  }

  lemma {:induction false} AllAtAppend(ls: seq<Line>, l: Line, p: Place, x: Item)
    ensures AllAt(ls + [l], p, x) == AllAt(ls, p, x) + At(l, p, x)
  {
    if ls == [] {
      assert ls + [l] == [l] && [l][1..] == [];
    } else {
      assert (ls + [l])[1..] == ls[1..] + [l];
      AllAtAppend(ls[1..], l, p, x);
    }
  }

  lemma {:induction false} NoneDropped(ls: seq<Line>, x: Item)
    requires forall k | 0 <= k < |ls| :: ls[k].dropped == []
    ensures AllAt(ls, Dropped, x) == 0
  {
    if ls != [] { NoneDropped(ls[1..], x); }
  }

  lemma UndamagedTotals(s: State, acts: seq<Act>, x: Item)
    requires forall k | 0 <= k < |s.lines| :: Undamaged(s, acts, k)
    ensures AllAt(s.lines, Dispatched, x) == CompletedCount(acts, |s.lines|, x)
    ensures AllAt(s.lines, Dropped, x) == 0
  {
    assert forall k | 0 <= k < |s.lines| && Undamaged(s, acts, k) :: s.lines[k].dropped == [];
    NoneDropped(s.lines, x);
    DispatchedTotal(s, acts, |s.lines|, x);
    assert s.lines[..|s.lines|] == s.lines;
  }

  /** With room all the way, every completed payload has been flushed, as often as it was completed, when the shutdown is done. */
  lemma {:induction false} RoomFlushesAll(c: Config, acts: seq<Act>, x: Item)
    requires c.Valid() && Run(c, acts) && AlwaysRoom(c, acts) && After(c, acts).stage.Done?
    ensures Recorded(After(c, acts).coll.flushed, x) == CompletedCount(acts, c.lines, x)
  {
    SameLines(c, acts);
    RoomLosesNothing(c, acts);
    UndamagedTotals(After(c, acts), acts, x);
    ShutdownDelivers(c, acts, x);
  }
}
