/** What every run of the capture system keeps, and what that means for a payload, a block and a request. */
module CaptureTheorems {
  import opened Prelude
  import opened ReaderProtocol
  import opened Reassembly
  import opened CaptureSystem

  /** The blocks of request `i` that the assembler has not handled yet. */
  function Pending(s: State, i: nat): seq<Block> {
    Of(Line(s), i)
  }

  /** The request's numbering has not wrapped, and its source was silent after the end of the body. */
  predicate Regular(s: State, i: nat)
    requires i < |s.readers|
  {
    s.readers[i].acquired < SEQ_LIMIT && i !in s.noisy
  }

  /** What is pending for a request is the tail of what it sent; the rest was handled. */
  ghost predicate Tracks(sent: seq<Block>, pending: seq<Block>, a: Asm, rid: nat) {
    && |pending| <= |sent| && sent[|sent| - |pending|..] == pending
    && Life(sent, |sent| - |pending|, a, rid)
  }

  ghost predicate RequestOk(c: Config, s: State, i: nat)
    requires i < |s.readers|
  {
    var r := s.readers[i];
    && r.rid == i && Tagged(c.bs, r)
    && (Regular(s, i) ==> Inv(c.bs, r) && Tracks(r.sent, Pending(s, i), s.asm, i))
  }

  /** A request that does not exist yet has left no trace. */
  ghost predicate NoTrace(s: State, i: nat) {
    && Pending(s, i) == [] && i !in s.asm.inflight
    && Fates(s.asm.ended, i) == [] && OutFor(s.asm.out, i) == []
  }

  ghost predicate SystemInv(c: Config, s: State) {
    && Owned(c, s)
    && (forall i | 0 <= i < |s.readers| :: RequestOk(c, s, i))
    && (forall i: nat | i >= |s.readers| :: NoTrace(s, i))
    && Ledger(s.asm)
    && (s.running ==> Accounted(c.limits, s.asm))
    && (!s.running ==> s.queueClosed && Line(s) == [])
  }

  lemma InitSystem(c: Config)
    requires c.Valid()
    ensures SystemInv(c, Init(c))
  {
    InitOwned(c);
    assert Line(Init(c)) == [];
  }

  // ---- one action, seen from one request ----

  lemma {:induction false} SendTracks(sent: seq<Block>, pending: seq<Block>, a: Asm, rid: nat, b: Block)
    requires Tracks(sent, pending, a, rid) && !Ended(sent)
    ensures Tracks(sent + [b], pending + [b], a, rid)
  {
    var n := |sent| - |pending|;
    assert (sent + [b])[..n] == sent[..n];
    assert (sent + [b])[n..] == sent[n..] + [b];
  }

  lemma SuffixHead(sent: seq<Block>, pending: seq<Block>)
    requires 0 < |pending| <= |sent| && sent[|sent| - |pending|..] == pending
    ensures sent[|sent| - |pending|] == pending[0] && sent[|sent| - |pending| + 1..] == pending[1..]
  {
    var n := |sent| - |pending|;
    assert sent[n] == sent[n..][0];
    assert sent[n + 1..] == sent[n..][1..];
  }

  /** What the life of a request needs to know of its reader. */
  lemma NumberedStream(bs: nat, r: Reader)
    requires Inv(bs, r) && r.acquired < SEQ_LIMIT
    ensures Stream(bs, r.rid, r.sent) && |r.sent| <= SEQ_LIMIT
    ensures |r.sent| == SEQ_LIMIT ==> Last(r.sent).Flagged()
  {
  }

  lemma {:induction false} HandleOwn(l: Limits, a: Asm, now: int, accepted: bool, r: Reader, bs: nat, pending: seq<Block>)
    requires Inv(bs, r) && r.acquired < SEQ_LIMIT && Tracks(r.sent, pending, a, r.rid) && pending != []
    ensures Tracks(r.sent, pending[1..], Process(l, a, pending[0], now, accepted), r.rid)
  {
    var n := |r.sent| - |pending|;
    SuffixHead(r.sent, pending);
    NumberedStream(bs, r);
    ProcessLife(l, a, r.sent, n, bs, r.rid, now, accepted);
    assert |r.sent| - |pending[1..]| == n + 1;
  }

  lemma {:induction false} HandleOther(l: Limits, a: Asm, blk: Block, now: int, accepted: bool, sent: seq<Block>,
                                       pending: seq<Block>, rid: nat)
    requires Tracks(sent, pending, a, rid) && blk.rid != rid
    ensures Tracks(sent, pending, Process(l, a, blk, now, accepted), rid)
  {
    ProcessFrame(l, a, blk, now, accepted, rid);
    SameLife(sent, |sent| - |pending|, a, Process(l, a, blk, now, accepted), rid);
  }

  /** Handling any block: the request's own advances its life, another one leaves it alone. */
  lemma {:induction false} HandleTracks(l: Limits, a: Asm, blk: Block, now: int, accepted: bool, r: Reader, bs: nat,
                                        pending: seq<Block>, rest: seq<Block>)
    requires Inv(bs, r) && r.acquired < SEQ_LIMIT && Tracks(r.sent, pending, a, r.rid)
    requires pending == (if blk.rid == r.rid then [blk] else []) + rest
    ensures Tracks(r.sent, rest, Process(l, a, blk, now, accepted), r.rid)
  {
    if blk.rid == r.rid {
      assert pending[0] == blk && pending[1..] == rest;
      HandleOwn(l, a, now, accepted, r, bs, pending);
    } else {
      assert pending == rest;
      HandleOther(l, a, blk, now, accepted, r.sent, pending, r.rid);
    }
  }

  lemma {:induction false} EvictTracks(sent: seq<Block>, pending: seq<Block>, a: Asm, a': Asm, rid: nat, why: Why, j: nat)
    requires Tracks(sent, pending, a, j) && rid in a.inflight && (why == Stale || why == Shutdown)
    requires a'.inflight == a.inflight - {rid} && a'.out == a.out && a'.ended == a.ended + [Closing(rid, why)]
    requires a'.refused == a.refused
    ensures Tracks(sent, pending, a', j)
  {
    var n := |sent| - |pending|;
    if rid == j {
      CloseLife(sent, n, a, rid, why);
      SameLife(sent, n, Drop(a, rid, why), a', j);
    } else {
      DropFrame(a, rid, why, j);
      SameLife(sent, n, a, a', j);
    }
  }

  lemma {:induction false} StepPending(c: Config, s: State, i: nat, o: Outcome, j: nat)
    requires CanDo(c, s, ReaderStep(i, o)) && s.readers[i].rid == i && Tagged(c.bs, s.readers[i])
    ensures Pending(Next(c, s, ReaderStep(i, o)), j)
            == Pending(s, j) + (if o.Sent? && j == i then [Offered(s.readers[i])] else [])
  {
    var s' := Next(c, s, ReaderStep(i, o));
    assert Line(s') == if o.Sent? then Line(s) + [Offered(s.readers[i])] else Line(s);
    if o.Sent? { OfAppend(Line(s), Offered(s.readers[i]), j); }
  }

  lemma OwnStep(c: Config, s: State, i: nat, o: Outcome)
    requires c.Valid() && CanDo(c, s, ReaderStep(i, o)) && RequestOk(c, s, i)
    ensures RequestOk(c, Next(c, s, ReaderStep(i, o)), i)
  {
    var r := s.readers[i];
    StepTagged(c.bs, r, o);
    StepPending(c, s, i, o, i);
    if Regular(Next(c, s, ReaderStep(i, o)), i) {
      StepInv(c.bs, r, o);
      if o.Sent? { SendTracks(r.sent, Pending(s, i), s.asm, i, Offered(r)); }
    }
  }

  lemma ReaderStepRequest(c: Config, s: State, i: nat, o: Outcome, j: nat)
    requires c.Valid() && CanDo(c, s, ReaderStep(i, o)) && j < |s.readers|
    requires RequestOk(c, s, i) && RequestOk(c, s, j)
    ensures RequestOk(c, Next(c, s, ReaderStep(i, o)), j)
  {
    if i == j { OwnStep(c, s, i, o); } else { StepPending(c, s, i, o, j); }
  }

  lemma HandlePending(c: Config, s: State, accepted: bool, j: nat)
    requires CanDo(c, s, Handle(accepted))
    ensures Pending(s, j)
            == (if s.held.value.rid == j then [s.held.value] else []) + Pending(Next(c, s, Handle(accepted)), j)
  {
    var s' := Next(c, s, Handle(accepted));
    assert Line(s) == [s.held.value] + Line(s') && Line(s)[1..] == Line(s');
  }

  lemma HandleRequest(c: Config, s: State, accepted: bool, j: nat)
    requires c.Valid() && CanDo(c, s, Handle(accepted)) && j < |s.readers| && RequestOk(c, s, j)
    ensures RequestOk(c, Next(c, s, Handle(accepted)), j)
  {
    HandlePending(c, s, accepted, j);
    if Regular(s, j) {
      HandleTracks(c.limits, s.asm, s.held.value, s.clock, accepted, s.readers[j], c.bs,
                   Pending(s, j), Pending(Next(c, s, Handle(accepted)), j));
    }
  }

  /** A stale sweep or the eviction at shutdown ends the request's one life. */
  lemma EvictRequest(c: Config, s: State, rid: nat, why: Why, a': Asm, j: nat)
    requires rid in s.asm.inflight && j < |s.readers| && (why == Stale || why == Shutdown) && RequestOk(c, s, j)
    requires a'.inflight == s.asm.inflight - {rid} && a'.out == s.asm.out
    requires a'.ended == s.asm.ended + [Closing(rid, why)] && a'.refused == s.asm.refused
    ensures RequestOk(c, s.(asm := a'), j)
  {
    assert Line(s.(asm := a')) == Line(s);
    if Regular(s, j) { EvictTracks(s.readers[j].sent, Pending(s, j), s.asm, a', rid, why, j); }
  }

  lemma OpenRequest(c: Config, s: State, j: nat)
    requires c.Valid() && j <= |s.readers|
    requires if j < |s.readers| then RequestOk(c, s, j) else NoTrace(s, j)
    ensures RequestOk(c, Next(c, s, Open), j)
  {
    assert Line(Next(c, s, Open)) == Line(s);
    if j == |s.readers| { InitInv(c.bs, j); }
  }

  lemma NextRequest(c: Config, s: State, a: Act, j: nat)
    requires c.Valid() && SystemInv(c, s) && CanDo(c, s, a) && j < |Next(c, s, a).readers|
    ensures RequestOk(c, Next(c, s, a), j)
  {
    assert j < |s.readers| ==> RequestOk(c, s, j);
    match a
    case Open =>
      assert j == |s.readers| ==> NoTrace(s, j);
      OpenRequest(c, s, j);
    case ReaderStep(i, o) =>
      assert RequestOk(c, s, i);
      ReaderStepRequest(c, s, i, o, j);
    case Handle(accepted) => HandleRequest(c, s, accepted, j);
    case SweepOne(rid) => EvictRequest(c, s, rid, Stale, Evict(s.asm, rid), j);
    case EvictAtStop(rid) => EvictRequest(c, s, rid, Shutdown, ShutDown(s.asm, rid), j);
    case _ => assert Line(Next(c, s, a)) == Line(s);
  }

  lemma NextNoTrace(c: Config, s: State, a: Act, j: nat)
    requires c.Valid() && SystemInv(c, s) && CanDo(c, s, a) && j >= |Next(c, s, a).readers|
    ensures NoTrace(Next(c, s, a), j)
  {
    var s' := Next(c, s, a);
    assert NoTrace(s, j);
    match a
    case ReaderStep(i, o) =>
      assert RequestOk(c, s, i);
      StepPending(c, s, i, o, j);
    case Handle(accepted) =>
      HandlePending(c, s, accepted, j);
      ProcessFrame(c.limits, s.asm, s.held.value, s.clock, accepted, j);
    case SweepOne(rid) => DropFrame(s.asm, rid, Stale, j); assert Line(s') == Line(s);
    case EvictAtStop(rid) => DropFrame(s.asm, rid, Shutdown, j); assert Line(s') == Line(s);
    case _ => assert Line(s') == Line(s);
  }

  lemma NextTable(c: Config, s: State, a: Act)
    requires c.Valid() && SystemInv(c, s) && CanDo(c, s, a)
    ensures var s' := Next(c, s, a);
            && Ledger(s'.asm)
            && (s'.running ==> Accounted(c.limits, s'.asm))
            && (!s'.running ==> s'.queueClosed && Line(s') == [])
  {
    match a
    case Handle(accepted) =>
      ProcessLedger(c.limits, s.asm, s.held.value, s.clock, accepted);
      ProcessAccounted(c.limits, s.asm, s.held.value, s.clock, accepted);
    case SweepOne(rid) =>
      EvictLedger(s.asm, rid);
      EvictAccounted(c.limits, s.asm, rid);
    case EvictAtStop(rid) => EvictLedger(s.asm, rid);
    case _ =>
  }

  lemma {:induction false} NextSystem(c: Config, s: State, a: Act)
    requires c.Valid() && SystemInv(c, s) && CanDo(c, s, a)
    ensures SystemInv(c, Next(c, s, a))
  {
    var s' := Next(c, s, a);
    NextOwned(c, s, a);
    NextTable(c, s, a);
    forall i | 0 <= i < |s'.readers| ensures RequestOk(c, s', i) { NextRequest(c, s, a, i); }
    forall i: nat | i >= |s'.readers| ensures NoTrace(s', i) { NextNoTrace(c, s, a, i); }
  }

  /** The invariant holds after every run. */
  lemma {:induction false} RunInvariant(c: Config, acts: seq<Act>)
    requires c.Valid() && Run(c, acts)
    ensures SystemInv(c, After(c, acts))
    decreases |acts|
  {
    if acts == [] {
      InitSystem(c);
    } else {
      RunInvariant(c, acts[..|acts| - 1]);
      NextSystem(c, After(c, acts[..|acts| - 1]), Last(acts));
    }
  }

  // ---- main results, for every run ----

  lemma {:induction false} OutForMember(out: seq<Payload>, p: Payload)
    requires p in out
    ensures p in OutFor(out, p.rid)
  {
    if p != Last(out) { OutForMember(out[..|out| - 1], p); }
  }

  /**
   End-to-end fidelity: a dispatched payload is exactly what the request's
   `Read` calls returned up to `finish` - no gap, no prefix, no mixture -
   and it is the only payload of its request.
   */
  lemma {:induction false} Fidelity(c: Config, acts: seq<Act>, p: Payload)
    requires c.Valid() && Run(c, acts) && p in After(c, acts).asm.out
    ensures p.rid < |After(c, acts).readers|
    ensures var s := After(c, acts);
            Regular(s, p.rid) ==>
              var r := s.readers[p.rid];
              && p.data == r.read && r.finalized && FullCapture(r)
              && OutFor(s.asm.out, p.rid) == [p]
  {
    var s := After(c, acts);
    RunInvariant(c, acts);
    OutForMember(s.asm.out, p);
    assert p.rid >= |s.readers| ==> NoTrace(s, p.rid);
    assert RequestOk(c, s, p.rid);
  }

  /**
   What a finished reader had returned does not change afterwards, and a
   silent source adds nothing to it: "up to finish" is "for ever".
   */
  lemma {:induction false} FinishedReadIsFixed(c: Config, s: State, a: Act, i: nat)
    requires CanDo(c, s, a) && i < |s.readers| && s.readers[i].finalized
    ensures var s' := Next(c, s, a);
            && s'.readers[i].finalized
            && (i in s.finished ==> i in s'.finished && s'.finished[i] == s.finished[i])
            && (i !in s'.noisy ==> s'.readers[i].read == s.readers[i].read)
  {
    if a.ReaderStep? && a.i == i && Silent(s.readers[i], a.o) { StepFinalized(c.bs, s.readers[i], a.o); }
  }

  /** Each buffer is in exactly one place: the pool, one reader's hands, the queue, the assembler. */
  lemma {:induction false} BlockOwnership(c: Config, acts: seq<Act>, b: nat)
    requires c.Valid() && Run(c, acts)
    ensures Places(After(c, acts), b) == if b < c.blocks then 1 else 0
    ensures PlacesTaken(After(c, acts)) == c.blocks
  {
    RunInvariant(c, acts);
  }

  /** `Put` never finds the pool full, so its losing branch is never taken. */
  lemma {:induction false} PutNeverLoses(c: Config, acts: seq<Act>, i: nat, o: Outcome)
    requires c.Valid() && Run(c, acts)
    ensures After(c, acts).held.Some? ==> |After(c, acts).world.pool| < c.blocks
    ensures CanDo(c, After(c, acts), ReaderStep(i, o)) ==>
              var s := After(c, acts);
              (if o.Got? then |s.world.pool| - 1 else |s.world.pool|) + |Puts(s.readers[i], o)| <= c.blocks
  {
    var s := After(c, acts);
    RunInvariant(c, acts);
    if CanDo(c, s, ReaderStep(i, o)) {
      HandsBound(s.readers, i);
      StepBalance(c.bs, s.readers[i], o, 0);
    }
  }

  /** After `Close`, exactly one outcome: nothing read, complete with no drop, or lost with one drop. */
  lemma {:induction false} CaptureOutcome(c: Config, acts: seq<Act>, i: nat)
    requires c.Valid() && Run(c, acts) && i < |After(c, acts).readers| && Regular(After(c, acts), i)
    requires After(c, acts).readers[i].closed && After(c, acts).readers[i].pc.Idle?
    ensures var r := After(c, acts).readers[i];
            && (NothingRead(r) || FullCapture(r) || Lost(r))
            && !(NothingRead(r) && FullCapture(r)) && !(FullCapture(r) && Lost(r)) && !(Lost(r) && NothingRead(r))
  {
    RunInvariant(c, acts);
    assert RequestOk(c, After(c, acts), i);
    ClosedOutcome(c.bs, After(c, acts).readers[i]);
  }

  /** What the readers enqueue: gap-free numbers, full unflagged blocks, a prefix of the bytes read. */
  lemma {:induction false} EmittedStream(c: Config, acts: seq<Act>, i: nat)
    requires c.Valid() && Run(c, acts) && i < |After(c, acts).readers| && Regular(After(c, acts), i)
    ensures var r := After(c, acts).readers[i];
            && (forall k | 0 <= k < |r.sent| :: r.sent[k].rid == i && r.sent[k].seqNo == k)
            && (forall k | 0 <= k < |r.sent| - 1 :: !r.sent[k].Flagged() && |r.sent[k].data| == c.bs)
            && (forall k | 0 <= k < |r.sent| :: !(r.sent[k].final && r.sent[k].abort))
            && Content(r.sent) <= r.read
  {
    RunInvariant(c, acts);
    assert RequestOk(c, After(c, acts), i);
    StreamShape(c.bs, After(c, acts).readers[i]);
  }

  /** How many of the request's blocks the assembler has handled. */
  function Handled(s: State, i: nat): int
    requires i < |s.readers|
  {
    |s.readers[i].sent| - |Pending(s, i)|
  }

  /** The request was seen by the assembler and has no buffer: it was rejected, evicted or dispatched. */
  predicate Over(s: State, i: nat) {
    i < |s.readers| && Handled(s, i) > 0 && i !in s.asm.inflight
  }

  /**
   FIFO sequencing: a block that finds a buffer carries exactly the number the
   buffer expects; the mismatch branch is only ever taken for a buffer that
   the block itself has just created for a request that is over.
   */
  lemma {:induction false} FifoSequencing(c: Config, acts: seq<Act>)
    requires c.Valid() && Run(c, acts) && After(c, acts).held.Some?
    requires After(c, acts).held.value.rid < |After(c, acts).readers|
    requires Regular(After(c, acts), After(c, acts).held.value.rid)
    ensures var s := After(c, acts);
            var b := s.held.value;
            && b.seqNo == Handled(s, b.rid)
            && (b.rid in s.asm.inflight ==> b.seqNo == s.asm.inflight[b.rid].nextSeq)
            && (b.rid !in s.asm.inflight && b.seqNo != 0 <==> Over(s, b.rid))
  {
    var s := After(c, acts);
    var b := s.held.value;
    RunInvariant(c, acts);
    assert RequestOk(c, s, b.rid);
    assert Line(s)[0] == b;
    var sent, p := s.readers[b.rid].sent, Pending(s, b.rid);
    assert sent[|sent| - |p|] == sent[|sent| - |p|..][0] == b;
  }

  /** A held block always belongs to a known request. */
  lemma {:induction false} HeldIsKnown(c: Config, acts: seq<Act>)
    requires c.Valid() && Run(c, acts) && After(c, acts).held.Some?
    ensures After(c, acts).held.value.rid < |After(c, acts).readers|
  {
    var s := After(c, acts);
    RunInvariant(c, acts);
    assert Line(s)[0] == s.held.value;
    assert s.held.value.rid >= |s.readers| ==> NoTrace(s, s.held.value.rid);
  }

  /** One reassembly life per request: at most one ending, at most one dispatch. */
  lemma {:induction false} OneLife(c: Config, acts: seq<Act>, i: nat)
    requires c.Valid() && Run(c, acts)
    requires i < |After(c, acts).readers| ==> Regular(After(c, acts), i)
    ensures var a := After(c, acts).asm;
            && |OutFor(a.out, i)| <= |Fates(a.ended, i)| <= 1
            && (OutFor(a.out, i) != [] <==> Dispatched in Fates(a.ended, i))
            && (i in a.inflight ==> Fates(a.ended, i) == [])
  {
    var s := After(c, acts);
    RunInvariant(c, acts);
    if i < |s.readers| {
      assert RequestOk(c, s, i);
      AtMostOne(s.readers[i].sent, Pending(s, i), s.asm, i);
    } else {
      assert NoTrace(s, i);
    }
  }

  lemma AtMostOne(sent: seq<Block>, pending: seq<Block>, a: Asm, rid: nat)
    requires Tracks(sent, pending, a, rid)
    ensures |OutFor(a.out, rid)| <= |Fates(a.ended, rid)| <= 1
    ensures OutFor(a.out, rid) != [] <==> Dispatched in Fates(a.ended, rid)
    ensures rid in a.inflight ==> Fates(a.ended, rid) == []
  {
  }

  /** Lives started equal buffers live plus every kind of ending; the counters count their own kind. */
  lemma {:induction false} LivesAddUp(c: Config, acts: seq<Act>)
    requires c.Valid() && Run(c, acts)
    ensures var a := After(c, acts).asm;
            var e := a.ended;
            && |a.begun| == |a.inflight| + |a.out| + CountWhy(e, Aborted) + CountWhy(e, Mismatch)
                            + a.oversized + CountWhy(e, OverBudget) + a.stale + a.queueFull + CountWhy(e, Shutdown)
            && (forall r :: CountOpened(a.begun, r) == CountFor(e, r) + (if r in a.inflight then 1 else 0))
            && a.budgetHits == CountWhy(e, OverBudget) + |a.refused|
  {
    RunInvariant(c, acts);
    EndingsPartition(After(c, acts).asm.ended);
  }

  /** `inflightBytes` is the sum of the buffer lengths, within 0..budget, and no buffer exceeds its limit. */
  lemma {:induction false} InflightAccounting(c: Config, acts: seq<Act>)
    requires c.Valid() && Run(c, acts) && After(c, acts).running
    ensures var a := After(c, acts).asm;
            && 0 <= a.bytes == Total(a.inflight) <= c.limits.budget
            && forall r | r in a.inflight :: |a.inflight[r].data| <= c.limits.maxPayload
  {
    RunInvariant(c, acts);
  }

  /** A limit, a sweep, a full worker queue or the shutdown took the buffer. */
  predicate Evicted(why: Why) {
    why == Oversized || why == OverBudget || why == Stale || why == QueueFull || why == Shutdown
  }

  /**
   Nothing disappears silently: a request whose complete stream the assembler
   has handled was dispatched whole, or its one buffer was evicted for exactly
   one reason, or the budget refused a block of it and no buffer of it outlived
   a stray block.
   */
  lemma {:induction false} NoSilentLoss(c: Config, acts: seq<Act>, i: nat)
    requires c.Valid() && Run(c, acts) && i < |After(c, acts).readers| && Regular(After(c, acts), i)
    requires var s := After(c, acts); FullCapture(s.readers[i]) && Pending(s, i) == []
    ensures var s := After(c, acts);
            var fates := Fates(s.asm.ended, i);
            && i !in s.asm.inflight
            && if fates == [] then i in s.asm.refused && OutFor(s.asm.out, i) == []
               else if fates == [Dispatched] then OutFor(s.asm.out, i) == [Payload(i, s.readers[i].read)]
               else |fates| == 1 && Evicted(fates[0]) && OutFor(s.asm.out, i) == []
  {
    var s := After(c, acts);
    var sent := s.readers[i].sent;
    RunInvariant(c, acts);
    assert RequestOk(c, s, i);
    StreamShape(c.bs, s.readers[i]);
    assert sent[..|sent|] == sent;
    OnlyRealFates(s.asm.ended, i);
    FateOfFinished(sent, Fates(s.asm.ended, i), OutFor(s.asm.out, i), i in s.asm.inflight, i in s.asm.refused, i);
  }

  lemma {:induction false} OnlyRealFates(c: seq<Closing>, rid: nat)
    ensures Mismatch !in Fates(c, rid)
  {
    if c != [] { OnlyRealFates(c[..|c| - 1], rid); }
  }

  lemma FateOfFinished(sent: seq<Block>, fates: seq<Why>, out: seq<Payload>, buffered: bool, refused: bool, rid: nat)
    requires Ending(sent, |sent|, fates, out, buffered, refused, rid) && !buffered && Mismatch !in fates
    requires sent != [] && !Last(sent).abort && !sent[0].abort
    ensures fates == [] ==> refused && out == []
    ensures forall k | 0 <= k < |fates| ::
              |fates| == 1 && if fates[k] == Dispatched then out == [Payload(rid, Content(sent))]
                              else Evicted(fates[k]) && out == []
  {
  }

  // ---- the stale sweep ----

  /** When the request's latest block was handled. */
  ghost function FedAt(c: Config, acts: seq<Act>, i: nat): int
    requires Run(c, acts)
  {
    if acts == [] then 0
    else
      var s := After(c, acts[..|acts| - 1]);
      if Last(acts).Handle? && s.held.value.rid == i then s.clock else FedAt(c, acts[..|acts| - 1], i)
  }

  lemma NextSeen(c: Config, s: State, a: Act, i: nat)
    requires CanDo(c, s, a) && i in Next(c, s, a).asm.inflight
    ensures var b := Next(c, s, a).asm.inflight[i];
            if a.Handle? && s.held.value.rid == i then b.lastSeen == s.clock
            else i in s.asm.inflight && b == s.asm.inflight[i]
  {
    if a.Handle? {
      if s.held.value.rid == i {
        TableAfter(c.limits, s.asm, s.held.value, s.clock, a.accepted);
      } else {
        ProcessFrame(c.limits, s.asm, s.held.value, s.clock, a.accepted, i);
      }
    }
  }

  lemma {:induction false} BufferSeen(c: Config, acts: seq<Act>, i: nat)
    requires Run(c, acts) && i in After(c, acts).asm.inflight
    ensures After(c, acts).asm.inflight[i].lastSeen == FedAt(c, acts, i)
    decreases |acts|
  {
    if acts != [] {
      var init := acts[..|acts| - 1];
      NextSeen(c, After(c, init), Last(acts), i);
      if i in After(c, init).asm.inflight { BufferSeen(c, init, i); }
    }
  }

  /** A sweep may evict a request exactly if it is buffered and its latest block was handled longer ago than the timeout. */
  lemma {:induction false} SweptExactlyWhen(c: Config, acts: seq<Act>, i: nat)
    requires Run(c, acts) && After(c, acts).running && After(c, acts).held.None?
    ensures CanDo(c, After(c, acts), SweepOne(i)) <==>
              i in After(c, acts).asm.inflight && After(c, acts).clock - FedAt(c, acts, i) > c.limits.timeout
  {
    if i in After(c, acts).asm.inflight { BufferSeen(c, acts, i); }
  }
}
