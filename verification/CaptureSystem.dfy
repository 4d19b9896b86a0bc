/**
 The capture path as one transition system: any number of readers, the block
 pool, the bounded queue, the assembler and a clock.  Between any two steps of
 one reader every other component may run.  A pool miss, a refused send and
 the worker queue's answer are free choices, so the theorems hold for every
 schedule and every load.
 */
module CaptureSystem {
  import opened Prelude
  import opened ReaderProtocol
  import opened Reassembly

  /** Block size, number of pooled blocks, queue slots and assembler limits. */
  datatype Config = Config(bs: nat, blocks: nat, qcap: nat, limits: Limits)
  {
    ghost predicate Valid() { bs > 0 && blocks > 0 }
  }

  /**
   Request ids are handed out by a counter, so readers are indexed by them.
   `finished` and `noisy` are history: what `Read` had returned when `finish`
   ran, and the requests whose source delivered bytes after that.
   */
  datatype State = State(
    readers: seq<Reader>, world: World, queueClosed: bool,
    held: Option<Block>, asm: Asm, running: bool, clock: int,
    finished: map<nat, seq<byte>>, noisy: set<nat>)

  datatype Act =
    | Open                              // a request body is wrapped by a new reader
    | ReaderStep(i: nat, o: Outcome)
    | Receive                           // the assembler takes a block off the queue
    | Handle(accepted: bool)            // processBlock
    | SweepOne(rid: nat)                // one eviction of sweepStale
    | Tick(dt: nat)
    | CloseQueue
    | Stop                              // queue closed and drained: leave the event loop
    | EvictAtStop(rid: nat)

  function AllBlocks(n: nat): multiset<nat> {
    if n == 0 then multiset{} else AllBlocks(n - 1) + multiset{n - 1}
  }

  function Init(c: Config): State {
    State([], World(AllBlocks(c.blocks), []), false, None, NO_BUFFERS, true, 0, map[], {})
  }

  predicate CanDo(c: Config, s: State, a: Act) {
    match a
    case Open => true
    case ReaderStep(i, o) =>
      && i < |s.readers| && Enabled(s.readers[i], o) && Fits(c.bs, s.readers[i])
      && Possible(c.qcap, s.world, o) && (o.Sent? ==> !s.queueClosed)
    case Receive => s.running && s.held.None? && s.world.queue != []
    case Handle(_) => s.held.Some?
    case SweepOne(rid) => s.running && s.held.None? && IsStale(c.limits, s.asm, rid, s.clock)
    case Tick(_) => true
    case CloseQueue => !s.queueClosed
    case Stop => s.running && s.held.None? && s.queueClosed && s.world.queue == []
    case EvictAtStop(rid) => !s.running && rid in s.asm.inflight
  }

  function Next(c: Config, s: State, a: Act): State
    requires CanDo(c, s, a)
  {
    match a
    case Open => s.(readers := s.readers + [NewReader(|s.readers|)])
    case ReaderStep(i, o) =>
      var r, r' := s.readers[i], Step(c.bs, s.readers[i], o);
      s.(readers := s.readers[i := r'], world := StepWorld(c.blocks, s.world, r, o),
         finished := if r'.finalized && !r.finalized then s.finished[i := r'.read] else s.finished,
         noisy := if Silent(r, o) then s.noisy else s.noisy + {i})
    case Receive =>
      s.(held := Some(s.world.queue[0]), world := s.world.(queue := s.world.queue[1..]))
    case Handle(accepted) =>
      s.(held := None,
         asm := Process(c.limits, s.asm, s.held.value, s.clock, accepted),
         world := s.world.(pool := PutOne(c.blocks, s.world.pool, s.held.value.id)))
    case SweepOne(rid) => s.(asm := Evict(s.asm, rid))
    case Tick(dt) => s.(clock := s.clock + dt)
    case CloseQueue => s.(queueClosed := true)
    case Stop => s.(running := false)
    case EvictAtStop(rid) => s.(asm := ShutDown(s.asm, rid))
  }

  /** A run: every action is possible where it is taken. */
  ghost predicate Run(c: Config, acts: seq<Act>)
    decreases |acts|, 0
  {
    acts == [] || (Run(c, acts[..|acts| - 1]) && CanDo(c, After(c, acts[..|acts| - 1]), Last(acts)))
  }

  ghost function After(c: Config, acts: seq<Act>): State
    requires Run(c, acts)
    decreases |acts|, 1
  {
    if acts == [] then Init(c) else Next(c, After(c, acts[..|acts| - 1]), Last(acts))
  }

  // ---- ownership ----

  /** Blocks on their way through the queue and the assembler's hands, oldest first. */
  function Line(s: State): seq<Block> {
    (if s.held.Some? then [s.held.value] else []) + s.world.queue
  }

  function LineCount(q: seq<Block>, b: nat): nat {
    if q == [] then 0 else Is(q[0].id, b) + LineCount(q[1..], b)
  }

  function HandsCount(rs: seq<Reader>, b: nat): nat {
    if rs == [] then 0 else HandsCount(rs[..|rs| - 1], b) + HandCount(Last(rs), b)
  }

  function HandsSize(rs: seq<Reader>): nat {
    if rs == [] then 0 else HandsSize(rs[..|rs| - 1]) + HandSize(Last(rs))
  }

  /** How many places hold buffer `b`. */
  function Places(s: State, b: nat): nat {
    s.world.pool[b] + HandsCount(s.readers, b) + LineCount(Line(s), b)
  }

  function PlacesTaken(s: State): nat {
    |s.world.pool| + HandsSize(s.readers) + |Line(s)|
  }

  ghost predicate Owned(c: Config, s: State) {
    && (forall b: nat :: Places(s, b) == if b < c.blocks then 1 else 0)
    && PlacesTaken(s) == c.blocks
  }

  lemma {:induction false} AllBlocksCount(n: nat, b: nat)
    ensures AllBlocks(n)[b] == (if b < n then 1 else 0) && |AllBlocks(n)| == n
  {
    if n > 0 { AllBlocksCount(n - 1, b); }
  }

  lemma {:induction false} HandsUpdate(rs: seq<Reader>, i: nat, r: Reader, b: nat)
    requires i < |rs|
    ensures HandsCount(rs[i := r], b) + HandCount(rs[i], b) == HandsCount(rs, b) + HandCount(r, b)
    ensures HandsSize(rs[i := r]) + HandSize(rs[i]) == HandsSize(rs) + HandSize(r)
  {
    var n := |rs| - 1;
    if i == n {
      assert rs[i := r][..n] == rs[..n];
    } else {
      assert rs[i := r][..n] == rs[..n][i := r];
      HandsUpdate(rs[..n], i, r, b);
    }
  }

  lemma {:induction false} HandsBound(rs: seq<Reader>, i: nat)
    requires i < |rs|
    ensures HandSize(rs[i]) <= HandsSize(rs)
  {
    if i < |rs| - 1 { HandsBound(rs[..|rs| - 1], i); }
  }

  lemma {:induction false} LineAppend(q: seq<Block>, x: Block, b: nat)
    ensures LineCount(q + [x], b) == LineCount(q, b) + Is(x.id, b)
  {
    if q == [] {
      assert q + [x] == [x] && [x][1..] == [];
    } else {
      assert (q + [x])[1..] == q[1..] + [x];
      LineAppend(q[1..], x, b);
    }
  }

  lemma InitOwned(c: Config)
    ensures Owned(c, Init(c))
  {
    forall b: nat ensures Places(Init(c), b) == if b < c.blocks then 1 else 0 { AllBlocksCount(c.blocks, b); }
    AllBlocksCount(c.blocks, 0);
    assert Line(Init(c)) == [];
  }

  lemma ReaderStepOwned(c: Config, s: State, i: nat, o: Outcome)
    requires Owned(c, s) && CanDo(c, s, ReaderStep(i, o))
    ensures Owned(c, Next(c, s, ReaderStep(i, o)))
  {
    var r := s.readers[i];
    var s' := Next(c, s, ReaderStep(i, o));
    assert Line(s') == if o.Sent? then Line(s) + [Offered(r)] else Line(s);
    forall b: nat ensures Places(s', b) == Places(s, b) { ReaderStepPlaces(c, s, i, o, b); }
    ReaderStepTaken(c, s, i, o);
  }

  lemma {:induction false} ReaderStepPlaces(c: Config, s: State, i: nat, o: Outcome, b: nat)
    requires PlacesTaken(s) == c.blocks && CanDo(c, s, ReaderStep(i, o))
    requires Line(Next(c, s, ReaderStep(i, o))) == if o.Sent? then Line(s) + [Offered(s.readers[i])] else Line(s)
    ensures Places(Next(c, s, ReaderStep(i, o)), b) == Places(s, b)
  {
    ReaderStepPool(c, s, i, o, b);
    StepBalance(c.bs, s.readers[i], o, b);
    HandsUpdate(s.readers, i, Step(c.bs, s.readers[i], o), b);
    if o.Sent? { LineAppend(Line(s), Offered(s.readers[i]), b); }
  }

  lemma {:induction false} ReaderStepTaken(c: Config, s: State, i: nat, o: Outcome)
    requires PlacesTaken(s) == c.blocks && CanDo(c, s, ReaderStep(i, o))
    requires Line(Next(c, s, ReaderStep(i, o))) == if o.Sent? then Line(s) + [Offered(s.readers[i])] else Line(s)
    ensures PlacesTaken(Next(c, s, ReaderStep(i, o))) == PlacesTaken(s)
  {
    ReaderStepPool(c, s, i, o, 0);
    StepBalance(c.bs, s.readers[i], o, 0);
    HandsUpdate(s.readers, i, Step(c.bs, s.readers[i], o), 0);
  }

  /** What a reader puts back fits into the pool. */
  lemma {:induction false} ReaderStepPool(c: Config, s: State, i: nat, o: Outcome, b: nat)
    requires PlacesTaken(s) == c.blocks && CanDo(c, s, ReaderStep(i, o))
    ensures var pool := Next(c, s, ReaderStep(i, o)).world.pool;
            var puts := Puts(s.readers[i], o);
            && |pool| == |s.world.pool| + |puts| - (if o.Got? then 1 else 0)
            && pool[b] == s.world.pool[b] + Occurrences(puts, b) - (if o.Got? then Is(o.id, b) else 0)
  {
    HandsBound(s.readers, i);
    StepBalance(c.bs, s.readers[i], o, b);
    PutAllFits(c.blocks, if o.Got? then s.world.pool - multiset{o.id} else s.world.pool, Puts(s.readers[i], o), b);
  }

  lemma HandleOwned(c: Config, s: State, accepted: bool)
    requires Owned(c, s) && CanDo(c, s, Handle(accepted))
    ensures Owned(c, Next(c, s, Handle(accepted)))
  {
    var s' := Next(c, s, Handle(accepted));
    assert Line(s) == [s.held.value] + Line(s') && Line(s)[1..] == Line(s');
    assert forall b: nat :: Places(s', b) == Places(s, b);
  }

  /** Every action moves buffers between places and neither loses nor duplicates one. */
  lemma NextOwned(c: Config, s: State, a: Act)
    requires Owned(c, s) && CanDo(c, s, a)
    ensures Owned(c, Next(c, s, a))
  {
    var s' := Next(c, s, a);
    match a
    case Open =>
      assert s'.readers[..|s'.readers| - 1] == s.readers;
      assert forall b: nat :: Places(s', b) == Places(s, b);
    case ReaderStep(i, o) => ReaderStepOwned(c, s, i, o);
    case Receive =>
      assert Line(s') == Line(s);
      assert forall b: nat :: Places(s', b) == Places(s, b);
    case Handle(accepted) => HandleOwned(c, s, accepted);
    case _ =>
      assert forall b: nat :: Places(s', b) == Places(s, b);
  }

  // ---- one request on its way through queue and table ----

  /** The blocks of one request in a line of blocks. */
  function Of(q: seq<Block>, rid: nat): seq<Block> {
    if q == [] then [] else (if q[0].rid == rid then [q[0]] else []) + Of(q[1..], rid)
  }

  lemma {:induction false} OfAppend(q: seq<Block>, x: Block, rid: nat)
    ensures Of(q + [x], rid) == Of(q, rid) + (if x.rid == rid then [x] else [])
  {
    var tail := if x.rid == rid then [x] else [];
    if q == [] {
      assert q + [x] == [x] && [x][1..] == [];
      assert Of([x], rid) == tail + Of([], rid) == tail;
    } else {
      var head := if q[0].rid == rid then [q[0]] else [];
      assert (q + [x])[1..] == q[1..] + [x] && (q + [x])[0] == q[0];
      OfAppend(q[1..], x, rid);
      assert head + (Of(q[1..], rid) + tail) == (head + Of(q[1..], rid)) + tail;
    }
  }

  /** How the buffer lives of a request ended, other than by a stray block. */
  function Fates(c: seq<Closing>, rid: nat): seq<Why> {
    if c == [] then []
    else Fates(c[..|c| - 1], rid) + (if Last(c).rid == rid && Last(c).why != Mismatch then [Last(c).why] else [])
  }

  /** The payloads of one request among those dispatched. */
  function OutFor(out: seq<Payload>, rid: nat): seq<Payload> {
    if out == [] then [] else OutFor(out[..|out| - 1], rid) + (if Last(out).rid == rid then [Last(out)] else [])
  }

  lemma FatesAppend(c: seq<Closing>, x: Closing, rid: nat)
    ensures Fates(c + [x], rid) == Fates(c, rid) + (if x.rid == rid && x.why != Mismatch then [x.why] else [])
  {
    assert (c + [x])[..|c|] == c;
  }

  lemma OutAppend(out: seq<Payload>, x: Payload, rid: nat)
    ensures OutFor(out + [x], rid) == OutFor(out, rid) + (if x.rid == rid then [x] else [])
  {
    assert (out + [x])[..|out|] == out;
  }

  /**
   How the table stands for a request of which the assembler has handled the
   first `n` of the blocks `sent`: a buffer holds exactly those blocks; a
   request that was handled and has no buffer is over; a payload is the whole
   finished stream; an abort ends a life only if the stream ends with one; and
   a request has no buffer only if its life was ended, a block of it was
   refused by the budget, or it began with an abort.
   */
  ghost predicate Life(sent: seq<Block>, n: nat, a: Asm, rid: nat)
    requires n <= |sent|
  {
    && (rid in a.inflight ==>
          && 0 < n && !Ended(sent[..n])
          && a.inflight[rid].nextSeq == n
          && a.inflight[rid].data == Content(sent[..n]))
    && Ending(sent, n, Fates(a.ended, rid), OutFor(a.out, rid), rid in a.inflight, rid in a.refused, rid)
  }

  /** The same for what is over: endings, payloads and refusals of the request. */
  ghost predicate Ending(sent: seq<Block>, n: nat, fates: seq<Why>, out: seq<Payload>,
                         buffered: bool, refused: bool, rid: nat)
    requires n <= |sent|
  {
    && (n == 0 || buffered ==> fates == [])
    && |fates| <= 1
    && (Dispatched in fates <==> out != [])
    && (Aborted in fates ==> n == |sent| > 0 && Last(sent).abort)
    && (out != [] ==> n == |sent| > 0 && Last(sent).final && out == [Payload(rid, Content(sent))])
    && (0 < n && !buffered ==> fates != [] || refused || sent[0].abort)
  }

  /** The table's entries for request `j` are the same in both. */
  ghost predicate SameFor(a: Asm, a': Asm, j: nat) {
    && (j in a'.inflight <==> j in a.inflight)
    && (j in a.inflight ==> a'.inflight[j] == a.inflight[j])
    && Fates(a'.ended, j) == Fates(a.ended, j)
    && OutFor(a'.out, j) == OutFor(a.out, j)
    && (j in a'.refused <==> j in a.refused)
  }

  lemma SameLife(sent: seq<Block>, n: nat, a: Asm, a': Asm, j: nat)
    requires n <= |sent| && Life(sent, n, a, j) && SameFor(a, a', j)
    ensures Life(sent, n, a', j)
  {
  }

  lemma {:induction false} DropFrame(a: Asm, rid: nat, why: Why, j: nat)
    requires rid in a.inflight && j != rid
    ensures SameFor(a, Drop(a, rid, why), j)
  {
    var d := Drop(a, rid, why);
    FatesAppend(a.ended, Closing(rid, why), j);
    assert d.inflight == a.inflight - {rid} && d.out == a.out && d.ended == a.ended + [Closing(rid, why)];
    assert j in d.inflight <==> j in a.inflight;
  }

  lemma {:induction false} SettleFrame(l: Limits, a: Asm, rid: nat, final: bool, accepted: bool, j: nat)
    requires rid in a.inflight && j != rid
    ensures SameFor(a, Settle(l, a, rid, final, accepted), j)
  {
    forall w { DropFrame(a, rid, w, j); }
    OutAppend(a.out, Payload(rid, a.inflight[rid].data), j);
  }

  /** Handling a block leaves every other request's entries alone. */
  lemma {:induction false} ProcessFrame(l: Limits, a: Asm, blk: Block, now: int, accepted: bool, j: nat)
    requires j != blk.rid
    ensures SameFor(a, Process(l, a, blk, now, accepted), j)
  {
    if blk.abort {
      if blk.rid in a.inflight { DropFrame(a, blk.rid, Aborted, j); }
    } else if blk.rid in a.inflight || a.bytes + |blk.data| <= l.budget {
      var a1 := Ensure(a, blk.rid, now);
      if blk.seqNo != a1.inflight[blk.rid].nextSeq {
        DropFrame(a1, blk.rid, Mismatch, j);
      } else {
        SettleFrame(l, Append(a1, blk, now), blk.rid, blk.final, accepted, j);
      }
    }
  }

  /** Closing the request's buffer with the `n`-th block: the request is over. */
  lemma {:induction false} CloseLife(sent: seq<Block>, n: nat, a: Asm, rid: nat, why: Why)
    requires 0 < n <= |sent| && rid in a.inflight && why != Mismatch && why != Dispatched
    requires why == Aborted ==> n == |sent| && Last(sent).abort
    requires Fates(a.ended, rid) == [] && OutFor(a.out, rid) == []
    ensures Life(sent, n, Drop(a, rid, why), rid) && Fates(Drop(a, rid, why).ended, rid) == [why]
  {
    FatesAppend(a.ended, Closing(rid, why), rid);
  }

  /** Dispatching the buffer with the final block: the payload is the whole stream. */
  lemma {:induction false} DispatchLife(sent: seq<Block>, a: Asm, rid: nat)
    requires sent != [] && Last(sent).final && rid in a.inflight && a.inflight[rid].data == Content(sent)
    requires Fates(a.ended, rid) == [] && OutFor(a.out, rid) == []
    ensures Life(sent, |sent|, Drop(a, rid, Dispatched).(out := a.out + [Payload(rid, a.inflight[rid].data)]), rid)
  {
    FatesAppend(a.ended, Closing(rid, Dispatched), rid);
    OutAppend(a.out, Payload(rid, a.inflight[rid].data), rid);
  }

  lemma {:induction false} SettleLife(l: Limits, a: Asm, rid: nat, sent: seq<Block>, n: nat, accepted: bool)
    requires 0 < n <= |sent| && rid in a.inflight
    requires a.inflight[rid].data == Content(sent[..n]) && (!sent[n - 1].final ==> a.inflight[rid].nextSeq == n)
    requires !sent[n - 1].abort && (sent[n - 1].final ==> n == |sent|)
    requires Fates(a.ended, rid) == [] && OutFor(a.out, rid) == []
    ensures Life(sent, n, Settle(l, a, rid, sent[n - 1].final, accepted), rid)
  {
    assert Last(sent[..n]) == sent[n - 1];
    if |a.inflight[rid].data| > l.maxPayload {
      CloseLife(sent, n, a, rid, Oversized);
    } else if a.bytes > l.budget {
      CloseLife(sent, n, a, rid, OverBudget);
    } else if sent[n - 1].final && accepted {
      assert sent[..n] == sent;
      DispatchLife(sent, a, rid);
    } else if sent[n - 1].final {
      CloseLife(sent, n, a, rid, QueueFull);
    }
  }

  /** A block that the budget turns away, for a request without a buffer. */
  lemma {:induction false} RefuseLife(sent: seq<Block>, n: nat, a: Asm, rid: nat)
    requires n < |sent| && Life(sent, n, a, rid) && rid !in a.inflight && !Ended(sent[..n])
    ensures Life(sent, n + 1, a.(budgetHits := a.budgetHits + 1, refused := a.refused + [rid]), rid)
  {
    assert Aborted in Fates(a.ended, rid) ==> n == |sent|;
  }

  /** A stray block of a request that is over: its fresh buffer goes at once. */
  lemma {:induction false} StrayLife(sent: seq<Block>, n: nat, a: Asm, rid: nat, now: int)
    requires 0 < n < |sent| && Life(sent, n, a, rid) && rid !in a.inflight
    ensures Life(sent, n + 1, Drop(Ensure(a, rid, now), rid, Mismatch), rid)
  {
    var d := Drop(Ensure(a, rid, now), rid, Mismatch);
    FatesAppend(a.ended, Closing(rid, Mismatch), rid);
    assert Fates(d.ended, rid) == Fates(a.ended, rid);
    assert rid !in d.inflight;
  }

  /** An abort block. */
  lemma {:induction false} AbortLife(sent: seq<Block>, n: nat, a: Asm, rid: nat)
    requires n < |sent| && Life(sent, n, a, rid) && sent[n].abort && n + 1 == |sent|
    ensures Life(sent, n + 1, if rid in a.inflight then Drop(a, rid, Aborted) else a, rid)
  {
    if rid in a.inflight { CloseLife(sent, n + 1, a, rid, Aborted); }
  }

  /** The block that the request's buffer expects, or its first one. */
  lemma {:induction false} TakeLife(l: Limits, a: Asm, sent: seq<Block>, n: nat, bs: nat, rid: nat, now: int, accepted: bool)
    requires n < |sent| <= SEQ_LIMIT && Stream(bs, rid, sent) && Life(sent, n, a, rid) && !sent[n].abort
    requires n + 1 == SEQ_LIMIT ==> sent[n].Flagged()
    requires rid in a.inflight || n == 0
    ensures Ensure(a, rid, now).inflight[rid].nextSeq == sent[n].seqNo
    ensures Life(sent, n + 1, Settle(l, Append(Ensure(a, rid, now), sent[n], now), rid, sent[n].final, accepted), rid)
  {
    var a2 := Append(Ensure(a, rid, now), sent[n], now);
    assert sent[..n + 1] == sent[..n] + [sent[n]];
    ContentAppend(sent[..n], sent[n]);
    assert n == 0 ==> sent[..n] == [];
    SettleLife(l, a2, rid, sent, n + 1, accepted);
  }

  /**
   The heart of the protocol: handling the next block of a request advances
   its life by one.  A buffer that exists expects exactly that block, and a
   request that is over stays over.
   */
  lemma {:induction false} ProcessLife(l: Limits, a: Asm, sent: seq<Block>, n: nat, bs: nat, rid: nat, now: int, accepted: bool)
    requires n < |sent| <= SEQ_LIMIT && Stream(bs, rid, sent) && Life(sent, n, a, rid)
    requires n + 1 == SEQ_LIMIT ==> sent[n].Flagged()
    ensures Life(sent, n + 1, Process(l, a, sent[n], now, accepted), rid)
  {
    if sent[n].abort {
      AbortLife(sent, n, a, rid);
    } else if rid !in a.inflight && a.bytes + |sent[n].data| > l.budget {
      assert n > 0 ==> Last(sent[..n]) == sent[n - 1];
      RefuseLife(sent, n, a, rid);
    } else if rid in a.inflight || n == 0 {
      TakeLife(l, a, sent, n, bs, rid, now, accepted);
    } else {
      StrayLife(sent, n, a, rid, now);
    }
  }
}
