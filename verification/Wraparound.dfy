/**
 What the 32-bit block numbers are good for: a request that is over stays over
 until it has acquired more than 2^32 blocks.  That the bound is needed is
 shown by runs of the smallest configuration - one pooled block of one byte,
 one queue slot - in which one request's numbers wrap.
 */
module Wraparound {
  import opened Prelude
  import opened ReaderProtocol
  import opened Reassembly
  import opened CaptureSystem
  import opened CaptureTheorems
  import opened Segments

  // ---- numbering ----

  /** In every run a reader's next number is its block count, wrapped. */
  ghost predicate Wraps(r: Reader) {
    && r.seqNo == r.acquired % SEQ_LIMIT
    && (r.pc.SendSentinel? ==> r.pc.blk.seqNo == r.seqNo)
  }

  lemma StepWraps(bs: nat, r: Reader, o: Outcome)
    requires Wraps(r) && Fits(bs, r) && Enabled(r, o)
    ensures Wraps(Step(bs, r, o))
    ensures Step(bs, r, o).acquired == r.acquired + 1 ==>
              var b := Step(bs, r, o).current;
              b.Some? && b.value.seqNo == r.acquired % SEQ_LIMIT
  {
    NextWraps(r.acquired);
  }

  /** The block that a reader acquires after 2^32 others is numbered 0 again. */
  lemma {:induction false} NumberingWraps(c: Config, acts: seq<Act>, i: nat, o: Outcome)
    requires c.Valid() && Run(c, acts) && CanDo(c, After(c, acts), ReaderStep(i, o))
    requires var r := After(c, acts).readers[i];
             r.acquired == SEQ_LIMIT && Step(c.bs, r, o).acquired == r.acquired + 1
    ensures var b := Step(c.bs, After(c, acts).readers[i], o).current; b.Some? && b.value.seqNo == 0
  {
    RunWraps(c, acts, i);
    StepWraps(c.bs, After(c, acts).readers[i], o);
  }

  lemma {:induction false} RunWraps(c: Config, acts: seq<Act>, i: nat)
    requires c.Valid() && Run(c, acts) && i < |After(c, acts).readers|
    ensures Wraps(After(c, acts).readers[i])
    decreases |acts|
  {
    if acts != [] {
      var s, a := After(c, acts[..|acts| - 1]), Last(acts);
      if i < |s.readers| { RunWraps(c, acts[..|acts| - 1], i); }
      if a.ReaderStep? && a.i == i { StepWraps(c.bs, s.readers[i], a.o); }
    }
  }

  /** Until 2^32 blocks were acquired only a request's first block can carry number 0. */
  ghost predicate FirstIsZero(r: Reader) {
    && Wraps(r)
    && (r.acquired <= SEQ_LIMIT ==>
          && (r.current.Some? || r.sent != [] ==> r.acquired > 0)
          && (r.current.Some? && r.sent != [] ==> r.current.value.seqNo != 0)
          && (r.pc.Sentinel? || r.pc.SendSentinel? ==> r.seqNo != 0)
          && forall k | 1 <= k < |r.sent| :: r.sent[k].seqNo != 0)
  }

  lemma SendFirst(bs: nat, r: Reader)
    requires FirstIsZero(r) && Fits(bs, r) && Enabled(r, Sent)
    ensures FirstIsZero(Step(bs, r, Sent))
  {
    StepWraps(bs, r, Sent);
    var r' := Step(bs, r, Sent);
    assert r'.sent == r.sent + [Offered(r)];
    assert forall k | 1 <= k < |r'.sent| :: r'.sent[k] == if k < |r.sent| then r.sent[k] else Offered(r);
  }

  lemma OtherFirst(bs: nat, r: Reader, o: Outcome)
    requires FirstIsZero(r) && Fits(bs, r) && Enabled(r, o) && !o.Sent?
    ensures FirstIsZero(Step(bs, r, o))
  {
    StepWraps(bs, r, o);
    assert Step(bs, r, o).sent == r.sent;
  }

  lemma StepFirst(bs: nat, r: Reader, o: Outcome)
    requires FirstIsZero(r) && Fits(bs, r) && Enabled(r, o)
    ensures FirstIsZero(Step(bs, r, o))
  {
    if o.Sent? { SendFirst(bs, r); } else { OtherFirst(bs, r, o); }
  }

  lemma {:induction false} RunFirst(c: Config, acts: seq<Act>, i: nat)
    requires c.Valid() && Run(c, acts) && i < |After(c, acts).readers|
    ensures FirstIsZero(After(c, acts).readers[i])
    decreases |acts|
  {
    if acts != [] {
      var s, a := After(c, acts[..|acts| - 1]), Last(acts);
      if i < |s.readers| { RunFirst(c, acts[..|acts| - 1], i); }
      if a.ReaderStep? && a.i == i { StepFirst(c.bs, s.readers[i], a.o); }
    }
  }

  /** The held block of a request that is over is not its first one. */
  lemma {:induction false} HeldNumber(c: Config, acts: seq<Act>)
    requires c.Valid() && Run(c, acts) && After(c, acts).held.Some?
    requires Over(After(c, acts), After(c, acts).held.value.rid)
    ensures var s := After(c, acts);
            s.held.value.seqNo == 0 ==> s.readers[s.held.value.rid].acquired > SEQ_LIMIT
  {
    var s := After(c, acts);
    var i, b := s.held.value.rid, s.held.value;
    RunFirst(c, acts, i);
    RunSegments(c, acts);
    assert SegmentOk(c, s, i);
    assert Line(s)[0] == b;
    SuffixHead(s.readers[i].sent, Pending(s, i));
  }

  // ---- restarts ----

  lemma ProcessStaysOver(l: Limits, a: Asm, blk: Block, now: int, accepted: bool)
    requires blk.rid !in a.inflight && blk.seqNo != 0
    ensures var a' := Process(l, a, blk, now, accepted);
            && blk.rid !in a'.inflight && a'.out == a.out
            && Fates(a'.ended, blk.rid) == Fates(a.ended, blk.rid)
  {
    FatesAppend(a.ended, Closing(blk.rid, Mismatch), blk.rid);
  }

  /**
   Once a request is over, no action starts it again, ends it again or
   dispatches it, as long as it has not acquired more than 2^32 blocks.
   */
  lemma {:induction false} NeverRestarts(c: Config, acts: seq<Act>, a: Act, i: nat)
    requires c.Valid() && Run(c, acts) && CanDo(c, After(c, acts), a)
    requires Over(After(c, acts), i) && After(c, acts).readers[i].acquired <= SEQ_LIMIT
    ensures var s, s' := After(c, acts), Next(c, After(c, acts), a);
            && Over(s', i)
            && Fates(s'.asm.ended, i) == Fates(s.asm.ended, i)
            && OutFor(s'.asm.out, i) == OutFor(s.asm.out, i)
  {
    var s := After(c, acts);
    var s' := Next(c, s, a);
    RunInvariant(c, acts);
    match a
    case Open => assert Line(s') == Line(s);
    case ReaderStep(j, o) =>
      assert RequestOk(c, s, j);
      StepTagged(c.bs, s.readers[j], o);
      StepPending(c, s, j, o, i);
    case Handle(accepted) =>
      HandlePending(c, s, accepted, i);
      if s.held.value.rid == i {
        HeldNumber(c, acts);
        ProcessStaysOver(c.limits, s.asm, s.held.value, s.clock, accepted);
      } else {
        ProcessFrame(c.limits, s.asm, s.held.value, s.clock, accepted, i);
      }
    case SweepOne(rid) => DropFrame(s.asm, rid, Stale, i); assert Line(s') == Line(s);
    case EvictAtStop(rid) => DropFrame(s.asm, rid, Shutdown, i); assert Line(s') == Line(s);
    case _ => assert Line(s') == Line(s);
  }

  /**
   A request that is over gets a buffer again exactly by a welcome block that
   is not the last: one numbered 0, which a reader sends only after its
   numbering has wrapped.
   */
  lemma {:induction false} WrappedNumberRestarts(c: Config, acts: seq<Act>, accepted: bool)
    requires c.Valid() && Run(c, acts) && CanDo(c, After(c, acts), Handle(accepted))
    requires Over(After(c, acts), After(c, acts).held.value.rid)
    ensures var s := After(c, acts);
            var b := s.held.value;
            && (b.rid in Next(c, s, Handle(accepted)).asm.inflight <==> Welcome(c.limits, s.asm, b) && !b.final)
            && (Welcome(c.limits, s.asm, b) ==> b.seqNo == 0)
            && (b.seqNo == 0 ==> s.readers[b.rid].acquired > SEQ_LIMIT)
  {
    var s := After(c, acts);
    var b := s.held.value;
    BufferedExactlyWhen(c.limits, s.asm, b, s.clock, accepted);
    HeldNumber(c, acts);
  }

  // ---- runs in which the numbers wrap ----

  /** One block of one byte, one queue slot; payloads of at most one byte, a budget of one byte. */
  const TINY := Config(1, 1, 1, Limits(1, 1, 0))

  // ---- building a run ----

  /** Some run of the configuration ends in this state. */
  ghost predicate Reachable(s: State) {
    exists acts :: Run(TINY, acts) && After(TINY, acts) == s
  }

  lemma StartReachable()
    ensures Reachable(Init(TINY))
  {
    assert Run(TINY, []) && After(TINY, []) == Init(TINY);
  }

  lemma NextReachable(s: State, a: Act)
    requires Reachable(s) && CanDo(TINY, s, a)
    ensures Reachable(Next(TINY, s, a))
  {
    var acts :| Run(TINY, acts) && After(TINY, acts) == s;
    var more := acts + [a];
    assert more[..|more| - 1] == acts;
    assert Run(TINY, more) && After(TINY, more) == Next(TINY, s, a);
  }

  // ---- one byte at a time ----

  /** The block that carries byte number `n`. */
  function Carrier(n: nat, x: byte): Block {
    Block(0, 0, n % SEQ_LIMIT, [x], false, false)
  }

  /** A reader between two calls, after `n` blocks. */
  function Resting(n: nat, read: seq<byte>, sent: seq<Block>): Reader {
    Reader(0, None, false, false, false, n % SEQ_LIMIT, Idle, read, sent, 0, n)
  }

  /** The table after `n` blocks: the very first one, and the one after 2^32, has a buffer. */
  function Table(n: nat, x: byte): map<nat, Buffer> {
    if n == 1 || n == SEQ_LIMIT + 1 then map[0 := Buffer([x], 1, 0)] else map[]
  }

  predicate Tabled(a: Asm, n: nat, x: byte) {
    && a.inflight == Table(n, x) && a.bytes == |Table(n, x)| && a.out == []
    && a.oversized == if n < 2 then 0 else 1
  }

  /** `n` bytes were read, sent and handled, one block each. */
  predicate Rested(s: State, n: nat, x: byte) {
    && |s.readers| == 1 && s.readers[0] == Resting(n, s.readers[0].read, s.readers[0].sent)
    && |s.readers[0].read| == n && |s.readers[0].sent| == n && !FinalSent(s.readers[0])
    && s.world == World(multiset{0}, []) && !s.queueClosed && s.held == None && s.running && s.clock == 0
    && Tabled(s.asm, n, x)
  }

  /** After one more byte: its block is in the queue. */
  function Queued(s: State, n: nat, x: byte): State
    requires Rested(s, n, x)
  {
    var r := s.readers[0];
    s.(readers := [Resting(n + 1, r.read + [x], r.sent + [Carrier(n, x)])], world := World(multiset{}, [Carrier(n, x)]))
  }

  /** The reader's five steps of one `Read`. */
  lemma ReadSteps(r: Reader, n: nat, x: byte)
    requires r == Resting(n, r.read, r.sent)
    ensures var r1 := r.(read := r.read + [x], pc := Capture([x], false));
            var r2 := Adopt(r1, 0);
            var r3 := r2.(current := Some(Carrier(n, x)), pc := SendEdge(false));
            var r4 := Enqueued(r2, Carrier(n, x)).(current := None, pc := Capture([], false));
            && Step(1, r, CallRead([x], false)) == r1 && Step(1, r1, Got(0)) == r2 && Step(1, r2, Local) == r3
            && Step(1, r3, Sent) == r4 && Step(1, r4, Local) == r4.(pc := Idle)
            && r4.(pc := Idle) == Resting(n + 1, r.read + [x], r.sent + [Carrier(n, x)])
  {
    NextWraps(n);
    assert [] + [x][..1] == [x] && [x][1..] == [];
  }

  /** The same steps on pool and queue. */
  lemma ReadByte(s: State, n: nat, x: byte)
    requires Reachable(s) && Rested(s, n, x)
    ensures Reachable(Queued(s, n, x))
  {
    var r := s.readers[0];
    ReadSteps(r, n, x);
    var r1 := r.(read := r.read + [x], pc := Capture([x], false));
    var r2 := Adopt(r1, 0);
    var r3 := r2.(current := Some(Carrier(n, x)), pc := SendEdge(false));
    var r4 := Enqueued(r2, Carrier(n, x)).(current := None, pc := Capture([], false));
    var empty := World(multiset{}, []);
    ReaderMoves(s, CallRead([x], false), s.(readers := [r1]));
    ReaderMoves(s.(readers := [r1]), Got(0), s.(readers := [r2], world := empty));
    ReaderMoves(s.(readers := [r2], world := empty), Local, s.(readers := [r3], world := empty));
    ReaderMoves(s.(readers := [r3], world := empty), Sent, s.(readers := [r4], world := World(multiset{}, [Carrier(n, x)])));
    ReaderMoves(s.(readers := [r4], world := World(multiset{}, [Carrier(n, x)])), Local, Queued(s, n, x));
  }

  /** A step of the one reader that neither finishes nor gives anything back. */
  lemma ReaderMoves(s: State, o: Outcome, s': State)
    requires Reachable(s) && |s.readers| == 1 && CanDo(TINY, s, ReaderStep(0, o)) && Puts(s.readers[0], o) == []
    requires Silent(s.readers[0], o) && Step(1, s.readers[0], o).finalized == s.readers[0].finalized
    requires s' == s.(readers := [Step(1, s.readers[0], o)],
                      world := World(if o.Got? then s.world.pool - multiset{o.id} else s.world.pool,
                                     if o.Sent? then s.world.queue + [Offered(s.readers[0])] else s.world.queue))
    ensures Reachable(s')
  {
    assert Next(TINY, s, ReaderStep(0, o)) == s';
    NextReachable(s, ReaderStep(0, o));
  }

  /** Handling byte number `n`. */
  lemma HandleByte(a: Asm, n: nat, x: byte)
    requires n <= SEQ_LIMIT && Tabled(a, n, x)
    ensures Tabled(Process(TINY.limits, a, Carrier(n, x), 0, true), n + 1, x)
  {
    var a' := Process(TINY.limits, a, Carrier(n, x), 0, true);
    if n == 1 {
      assert a'.inflight == map[];
    } else if n == 0 || n == SEQ_LIMIT {
      assert [] + [x] == [x];
    } else {
      assert a'.inflight == map[];
    }
  }

  /** The assembler takes the block from the queue. */
  function Taken(s: State, n: nat, x: byte): State
    requires Rested(s, n, x)
  {
    Queued(s, n, x).(world := World(multiset{}, []), held := Some(Carrier(n, x)))
  }

  lemma TakeByte(s: State, n: nat, x: byte)
    requires Reachable(s) && Rested(s, n, x)
    ensures Reachable(Taken(s, n, x)) && CanDo(TINY, Taken(s, n, x), Handle(true))
  {
    ReadByte(s, n, x);
    assert Next(TINY, Queued(s, n, x), Receive) == Taken(s, n, x);
    NextReachable(Queued(s, n, x), Receive);
  }

  /** One round: read, send, take, handle. */
  lemma Round(s: State, n: nat, x: byte) returns (s': State)
    requires n <= SEQ_LIMIT && Reachable(s) && Rested(s, n, x)
    ensures Reachable(s') && Rested(s', n + 1, x) && s' == Next(TINY, Taken(s, n, x), Handle(true))
  {
    TakeByte(s, n, x);
    HandleByte(s.asm, n, x);
    NextReachable(Taken(s, n, x), Handle(true));
    s' := Next(TINY, Taken(s, n, x), Handle(true));
  }

  lemma {:induction false} Rounds(n: nat, x: byte) returns (s: State)
    requires n <= SEQ_LIMIT + 1
    ensures Reachable(s) && Rested(s, n, x)
  {
    if n == 0 {
      StartReachable();
      NextReachable(Init(TINY), Open);
      s := Next(TINY, Init(TINY), Open);
      assert AllBlocks(1) == AllBlocks(0) + multiset{0} == multiset{0};
    } else {
      s := Rounds(n - 1, x);
      s := Round(s, n - 1, x);
    }
  }

  // ---- what goes wrong ----

  /** The one block in the assembler's hands is all that is pending. */
  lemma TakenIsOver(s: State, n: nat, x: byte)
    requires Rested(s, n, x) && n > 0 && Table(n, x) == map[]
    ensures Over(Taken(s, n, x), 0)
  {
    var t, b := Taken(s, n, x), Carrier(n, x);
    assert Line(t) == [b] && [b][1..] == [];
    assert Of([b], 0) == [b];
  }

  /**
   A request that was rejected starts again: it is over, its block numbered 0
   is handled, and it has a buffer.
   */
  lemma Restarts(x: byte) returns (acts: seq<Act>)
    ensures Run(TINY, acts) && CanDo(TINY, After(TINY, acts), Handle(true))
    ensures var s := After(TINY, acts);
            && Over(s, 0) && s.readers[0].acquired == SEQ_LIMIT + 1 && s.asm.oversized == 1
            && s.held.value.rid == 0 && s.held.value.seqNo == 0
            && 0 in Next(TINY, s, Handle(true)).asm.inflight
  {
    var s := Rounds(SEQ_LIMIT, x);
    TakeByte(s, SEQ_LIMIT, x);
    TakenIsOver(s, SEQ_LIMIT, x);
    HandleByte(s.asm, SEQ_LIMIT, x);
    acts :| Run(TINY, acts) && After(TINY, acts) == Taken(s, SEQ_LIMIT, x);
  }

  // ---- the end of the body ----

  /** `Close` after `n` bytes. */
  function AfterClose(s: State, n: nat, x: byte): State
    requires Rested(s, n, x)
  {
    Next(TINY, s, ReaderStep(0, CallClose))
  }

  lemma CloseReachable(s: State, n: nat, x: byte)
    requires Reachable(s) && Rested(s, n, x)
    ensures Reachable(AfterClose(s, n, x))
    ensures var t := AfterClose(s, n, x);
            && t.readers == [s.readers[0].(finalized := true, closed := true,
                                           pc := if n % SEQ_LIMIT == 0 then Idle else Sentinel)]
            && t.world == s.world && t.asm == s.asm && t.held == None && t.running && t.clock == 0
            && t.finished == s.finished[0 := s.readers[0].read]
  {
    NextReachable(s, ReaderStep(0, CallClose));
  }

  /** A body of exactly 2^32 full blocks looks empty to `finish`: no final block, no drop, nothing held. */
  lemma FullTurnLooksEmpty(x: byte) returns (acts: seq<Act>)
    ensures Run(TINY, acts) && |After(TINY, acts).readers| == 1
    ensures var r := After(TINY, acts).readers[0];
            && r.closed && r.pc.Idle? && |r.read| == SEQ_LIMIT && HandSize(r) == 0
            && !NothingRead(r) && !FullCapture(r) && !Lost(r)
  {
    var s := Rounds(SEQ_LIMIT, x);
    CloseReachable(s, SEQ_LIMIT, x);
    acts :| Run(TINY, acts) && After(TINY, acts) == AfterClose(s, SEQ_LIMIT, x);
  }

  /** The sentinel after 2^32 + 1 bytes. */
  const SENTINEL := Block(0, 0, 1, [], true, false)

  lemma SentinelSteps(r: Reader)
    requires r.pc == Sentinel && r.rid == 0 && r.current == None && r.seqNo == 1
    ensures var r' := r.(pc := SendSentinel(SENTINEL));
            && Step(1, r, Got(0)) == r' && Puts(r, Got(0)) == []
            && Step(1, r', Sent) == Enqueued(r, SENTINEL).(pc := Idle) && Puts(r', Sent) == [] && Offered(r') == SENTINEL
  {
  }

  lemma SentinelQueued(t: State, r: Reader) returns (t': State)
    requires Reachable(t) && t.readers == [r] && t.world == World(multiset{0}, []) && !t.queueClosed
    requires r.pc == Sentinel && r.rid == 0 && r.current == None && r.seqNo == 1
    ensures t' == t.(readers := [Enqueued(r, SENTINEL).(pc := Idle)], world := World(multiset{}, [SENTINEL]))
    ensures Reachable(t')
  {
    SentinelSteps(r);
    var t1 := t.(readers := [r.(pc := SendSentinel(SENTINEL))], world := World(multiset{}, []));
    ReaderMoves(t, Got(0), t1);
    t' := t1.(readers := [Enqueued(r, SENTINEL).(pc := Idle)], world := World(multiset{}, [SENTINEL]));
    ReaderMoves(t1, Sent, t');
  }

  lemma SentinelTaken(s: State, x: byte) returns (t: State)
    requires Reachable(s) && Rested(s, SEQ_LIMIT + 1, x)
    ensures Reachable(t) && t.held == Some(SENTINEL) && t.asm == s.asm && t.clock == 0
    ensures t.finished == s.finished[0 := s.readers[0].read]
  {
    CloseReachable(s, SEQ_LIMIT + 1, x);
    t := SentinelQueued(AfterClose(s, SEQ_LIMIT + 1, x), AfterClose(s, SEQ_LIMIT + 1, x).readers[0]);
    NextReachable(t, Receive);
    t := Next(TINY, t, Receive);
  }

  lemma DispatchTail(a: Asm, x: byte)
    requires Tabled(a, SEQ_LIMIT + 1, x)
    ensures Process(TINY.limits, a, SENTINEL, 0, true).out == [Payload(0, [x])]
  {
    assert [x] + [] == [x];
    assert [] + [Payload(0, [x])] == [Payload(0, [x])];
  }

  /** A payload of one byte is dispatched as complete for a body of 2^32 + 1 bytes. */
  lemma WrongPayload(x: byte) returns (acts: seq<Act>)
    ensures Run(TINY, acts)
    ensures var s := After(TINY, acts);
            s.asm.out == [Payload(0, [x])] && 0 in s.finished && |s.finished[0]| == SEQ_LIMIT + 1
  {
    var s := Rounds(SEQ_LIMIT + 1, x);
    var t := SentinelTaken(s, x);
    DispatchTail(s.asm, x);
    NextReachable(t, Handle(true));
    acts :| Run(TINY, acts) && After(TINY, acts) == Next(TINY, t, Handle(true));
  }
}
