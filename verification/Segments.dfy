/**
 Fidelity without assumptions: whatever the source delivers after the end of
 the body and however often the block numbers wrap, a dispatched payload is a
 tail of what `Read` had returned when `finish` ran, and it begins at a
 multiple of 2^32 blocks.
 */
module Segments {
  import opened Prelude
  import opened ReaderProtocol
  import opened Reassembly
  import opened CaptureSystem
  import opened CaptureTheorems

  // ---- what a reader enqueues ----

  /** A full block that carries the wrapped number `k`. */
  predicate Plain(bs: nat, b: Block, k: nat) {
    !b.final && b.seqNo == k % SEQ_LIMIT && |b.data| == bs
  }

  /** The first `n` blocks are numbered in order, full, and none is final. */
  predicate Chain(bs: nat, sent: seq<Block>, n: nat)
    requires n <= |sent|
  {
    forall k | 0 <= k < n :: Plain(bs, sent[k], k)
  }

  /** A final block has room left, and an empty one is never number 0. */
  predicate Closes(bs: nat, b: Block, f: nat) {
    |b.data| < bs && (b.data == [] ==> f % SEQ_LIMIT != 0)
  }

  /** The final block `f` ends a chain that holds all bytes `fin`, and no other block is final. */
  ghost predicate Finishes(bs: nat, sent: seq<Block>, f: nat, fin: Option<seq<byte>>)
    requires f < |sent|
  {
    && Chain(bs, sent, f) && sent[f].seqNo == f % SEQ_LIMIT && Closes(bs, sent[f], f)
    && fin == Some(Content(sent[..f + 1]))
    && forall k | f < k < |sent| :: !sent[k].final
  }

  ghost predicate Finals(bs: nat, sent: seq<Block>, fin: Option<seq<byte>>) {
    forall f | 0 <= f < |sent| && sent[f].final :: Finishes(bs, sent, f, fin)
  }

  predicate AllOf(sent: seq<Block>, rid: nat) {
    forall k | 0 <= k < |sent| :: sent[k].rid == rid
  }

  /** A held block has room, and between two reads it is not empty. */
  predicate Partial(bs: nat, r: Reader) {
    r.current.Some? ==> |Held(r)| < bs && (Todo(r) == [] ==> Held(r) != [])
  }

  /** While the reader is at work on the body. */
  ghost predicate Growing(bs: nat, r: Reader) {
    && Chain(bs, r.sent, |r.sent|)
    && !r.pc.Sentinel? && !r.pc.SendSentinel? && !r.pc.SendFinal?
    && (!r.abandoned ==>
          && r.seqNo == r.acquired % SEQ_LIMIT
          && r.acquired == |r.sent| + (if r.current.Some? then 1 else 0)
          && (r.current.Some? ==> !r.current.value.final && r.current.value.seqNo == |r.sent| % SEQ_LIMIT)
          && (r.pc.Extend? || r.pc.SendFull? || r.pc.SendEdge? || r.pc.SendAbort? ==> |Held(r)| == bs)
          && (r.pc.Extend? || r.pc.SendFull? ==> Todo(r) != [])
          && (r.pc.Idle? || r.pc.Capture? ==> Partial(bs, r))
          && (!r.pc.SendAbort? ==> Content(r.sent) + Held(r) + Todo(r) == r.read))
  }

  /** While `finish` is sending the last block. */
  ghost predicate Finishing(bs: nat, r: Reader, fin: seq<byte>) {
    && Chain(bs, r.sent, |r.sent|)
    && match r.pc
       case SendFinal =>
         && r.current.Some? && r.current.value.final && r.current.value.seqNo == |r.sent| % SEQ_LIMIT
         && 0 < |Held(r)| < bs
         && fin == Content(r.sent) + Held(r)
       case SendSentinel(b) =>
         && r.current.None? && b.final && b.seqNo == |r.sent| % SEQ_LIMIT != 0
         && b.data == [] && fin == Content(r.sent)
       case _ => r.current.None? && r.seqNo == |r.sent| % SEQ_LIMIT != 0 && fin == Content(r.sent)
  }

  /** What holds of every reader, with `fin` the bytes read when `finish` ran. */
  ghost predicate Emits(bs: nat, r: Reader, fin: Option<seq<byte>>) {
    && Tagged(bs, r) && AllOf(r.sent, r.rid) && Finals(bs, r.sent, fin)
    && (fin.Some? <==> r.finalized) && (fin.Some? ==> fin.value <= r.read)
    && (r.abandoned ==> r.pc.Idle? && r.current.None?)
    && if !r.finalized then Growing(bs, r)
       else if r.pc.Sentinel? || r.pc.SendSentinel? || r.pc.SendFinal? then Finishing(bs, r, fin.value)
       else r.current.Some? ==> !r.current.value.final
  }

  /** The history of `finish` after a step. */
  function Mark(r: Reader, r': Reader, fin: Option<seq<byte>>): Option<seq<byte>> {
    if r'.finalized && !r.finalized then Some(r'.read) else fin
  }

  lemma NewEmits(bs: nat, rid: nat)
    ensures Emits(bs, NewReader(rid), None)
  {
  }

  lemma KeepFinish(bs: nat, sent: seq<Block>, b: Block, f: nat, fin: Option<seq<byte>>)
    requires f < |sent| && Finishes(bs, sent, f, fin) && !b.final
    ensures Finishes(bs, sent + [b], f, fin)
  {
    assert (sent + [b])[..f + 1] == sent[..f + 1];
  }

  lemma SendPlain(bs: nat, sent: seq<Block>, b: Block, fin: Option<seq<byte>>)
    requires Finals(bs, sent, fin) && !b.final
    ensures Finals(bs, sent + [b], fin) && Content(sent + [b]) == Content(sent) + b.data
    ensures Chain(bs, sent, |sent|) && Plain(bs, b, |sent|) ==> Chain(bs, sent + [b], |sent| + 1)
  {
    var s := sent + [b];
    ContentAppend(sent, b);
    forall f | 0 <= f < |s| && s[f].final ensures Finishes(bs, s, f, fin) {
      assert s[f] == sent[f];
      KeepFinish(bs, sent, b, f, fin);
    }
  }

  lemma SendLast(bs: nat, sent: seq<Block>, b: Block)
    requires Chain(bs, sent, |sent|) && b.final && b.seqNo == |sent| % SEQ_LIMIT && Closes(bs, b, |sent|)
    ensures Finals(bs, sent + [b], Some(Content(sent) + b.data))
  {
    var s := sent + [b];
    ContentAppend(sent, b);
    assert s[..|sent| + 1] == s;
    assert forall k | 0 <= k < |sent| :: Plain(bs, sent[k], k) && s[k] == sent[k];
    assert Finishes(bs, s, |sent|, Some(Content(sent) + b.data));
  }

  /** `finish`, from the loop or from `Close`. */
  lemma FinishEmits(bs: nat, r: Reader, fin: Option<seq<byte>>)
    requires Emits(bs, r, fin) && !r.abandoned && (r.pc.Idle? || (r.pc.Capture? && r.pc.todo == []))
    ensures Emits(bs, StartFinish(r), Mark(r, StartFinish(r), fin))
  {
    assert Content(r.sent) + Held(r) + [] == Content(r.sent) + Held(r);
    assert Content(r.sent) + [] == Content(r.sent);
    if !r.finalized { NoFinals(bs, r.sent, Some(r.read)); }
  }

  lemma NoFinals(bs: nat, sent: seq<Block>, fin: Option<seq<byte>>)
    requires Chain(bs, sent, |sent|)
    ensures Finals(bs, sent, fin)
  {
    assert forall k | 0 <= k < |sent| :: Plain(bs, sent[k], k);
  }

  lemma ReadEmits(bs: nat, r: Reader, data: seq<byte>, eof: bool, fin: Option<seq<byte>>)
    requires Emits(bs, r, fin) && r.pc.Idle?
    ensures var r' := Step(bs, r, CallRead(data, eof)); Emits(bs, r', Mark(r, r', fin))
  {
    if data == [] {
      assert r.read + data == r.read;
      if eof && !r.abandoned { FinishEmits(bs, r, fin); }
    } else if !r.abandoned && !r.finalized {
      assert Content(r.sent) + Held(r) + [] == r.read;
    }
  }

  lemma CloseEmits(bs: nat, r: Reader, fin: Option<seq<byte>>)
    requires Emits(bs, r, fin) && r.pc.Idle?
    ensures var r' := Step(bs, r, CallClose); Emits(bs, r', Mark(r, r', fin))
  {
    if !r.closed && !r.abandoned {
      FinishEmits(bs, r, fin);
      assert Step(bs, r, CallClose) == StartFinish(r).(closed := true);
    }
  }

  lemma MoveBytes(done: seq<byte>, held: seq<byte>, todo: seq<byte>, n: nat)
    requires n <= |todo|
    ensures done + (held + todo[..n]) + todo[n..] == done + held + todo
  {
    assert todo == todo[..n] + todo[n..];
  }

  lemma CopyEmits(bs: nat, r: Reader, fin: Option<seq<byte>>)
    requires bs > 0 && Emits(bs, r, fin) && r.pc.Capture? && r.pc.todo != [] && r.current.Some?
    ensures Emits(bs, CopyIn(bs, r), fin)
  {
    MoveBytes(Content(r.sent), Held(r), r.pc.todo, Room(bs, r.current.value, r.pc.todo));
  }

  lemma AcquireEmits(bs: nat, r: Reader, id: nat, fin: Option<seq<byte>>)
    requires bs > 0 && Emits(bs, r, fin) && r.pc.Capture? && r.pc.todo != [] && r.current.None?
    ensures Emits(bs, Adopt(r, id), fin) && Emits(bs, GiveUp(r), fin)
  {
    NextWraps(r.acquired);
  }

  lemma CaptureEmits(bs: nat, r: Reader, o: Outcome, fin: Option<seq<byte>>)
    requires bs > 0 && Emits(bs, r, fin) && Enabled(r, o) && r.pc.Capture?
    ensures Emits(bs, Step(bs, r, o), Mark(r, Step(bs, r, o), fin))
  {
    if r.pc.todo == [] {
      if r.pc.eof { FinishEmits(bs, r, fin); }
    } else if r.current.Some? {
      CopyEmits(bs, r, fin);
    } else {
      AcquireEmits(bs, r, if o.Got? then o.id else 0, fin);
    }
  }

  lemma FullEmits(bs: nat, r: Reader, o: Outcome, fin: Option<seq<byte>>)
    requires bs > 0 && Emits(bs, r, fin) && Enabled(r, o) && r.pc.SendFull?
    ensures Emits(bs, Step(bs, r, o), fin)
  {
    if o.Sent? {
      SendPlain(bs, r.sent, r.current.value, fin);
      NextWraps(r.acquired);
    }
  }

  lemma EdgeEmits(bs: nat, r: Reader, o: Outcome, fin: Option<seq<byte>>)
    requires bs > 0 && Emits(bs, r, fin) && Enabled(r, o) && (r.pc.SendEdge? || r.pc.SendAbort?)
    ensures Emits(bs, Step(bs, r, o), fin)
  {
    if o.Sent? { SendPlain(bs, r.sent, r.current.value, fin); }
  }

  lemma LastEmits(bs: nat, r: Reader, o: Outcome, fin: Option<seq<byte>>)
    requires bs > 0 && Emits(bs, r, fin) && Enabled(r, o) && (r.pc.Sentinel? || r.pc.SendSentinel? || r.pc.SendFinal?)
    ensures Emits(bs, Step(bs, r, o), Mark(r, Step(bs, r, o), fin))
  {
    if o.Sent? {
      SendLast(bs, r.sent, Offered(r));
      assert Content(r.sent) + [] == Content(r.sent);
    }
  }

  /** Every step of a reader keeps it, for any source and any number of blocks. */
  lemma StepEmits(bs: nat, r: Reader, o: Outcome, fin: Option<seq<byte>>)
    requires bs > 0 && Emits(bs, r, fin) && Enabled(r, o)
    ensures Emits(bs, Step(bs, r, o), Mark(r, Step(bs, r, o), fin))
  {
    match r.pc
    case Idle => if o.CallRead? { ReadEmits(bs, r, o.data, o.eof, fin); } else { CloseEmits(bs, r, fin); }
    case Capture(_, _) => CaptureEmits(bs, r, o, fin);
    case Extend(_, _) =>
    case SendFull(_, _, _) => FullEmits(bs, r, o, fin);
    case SendEdge(_) => EdgeEmits(bs, r, o, fin);
    case SendAbort => EdgeEmits(bs, r, o, fin);
    case _ => LastEmits(bs, r, o, fin);
  }

  // ---- what the assembler makes of it ----

  /** `data` is what the blocks from `m` up to the `n`-th carry, and `m` is a multiple of 2^32. */
  ghost predicate OpenedAt(sent: seq<Block>, m: nat, n: nat, data: seq<byte>)
    requires n <= |sent|
  {
    m < n && m % SEQ_LIMIT == 0 && data == Content(sent[m..n])
  }

  ghost predicate Segment(sent: seq<Block>, n: nat, data: seq<byte>)
    requires n <= |sent|
  {
    exists m: nat :: OpenedAt(sent, m, n, data)
  }

  /** After `n` handled blocks a buffer holds the blocks from a multiple of 2^32 on. */
  ghost predicate Buffered(bs: nat, sent: seq<Block>, n: nat, a: Asm, rid: nat)
    requires n <= |sent|
  {
    rid in a.inflight && Chain(bs, sent, n) ==>
      && a.inflight[rid].nextSeq == n % SEQ_LIMIT
      && Segment(sent, n, a.inflight[rid].data)
  }

  /** At most one payload was dispatched: the blocks from a multiple of 2^32 to the final one. */
  ghost predicate Delivered(sent: seq<Block>, n: nat, out: seq<Payload>, rid: nat)
    requires n <= |sent|
  {
    out == [] || exists f: nat | f < n :: DeliveredAt(sent, f, out, rid)
  }

  ghost predicate DeliveredAt(sent: seq<Block>, f: nat, out: seq<Payload>, rid: nat)
    requires f < |sent|
  {
    sent[f].final && |out| == 1 && out[0].rid == rid && Segment(sent, f + 1, out[0].data)
  }

  ghost predicate SegmentLife(bs: nat, sent: seq<Block>, n: nat, a: Asm, rid: nat) {
    n <= |sent| && Buffered(bs, sent, n, a, rid) && Delivered(sent, n, OutFor(a.out, rid), rid)
  }

  /** Once a buffer is gone only the payloads matter. */
  lemma GoneLife(bs: nat, sent: seq<Block>, n: nat, a: Asm, a': Asm, rid: nat)
    requires SegmentLife(bs, sent, n, a, rid) && n < |sent|
    requires rid !in a'.inflight && OutFor(a'.out, rid) == OutFor(a.out, rid)
    ensures SegmentLife(bs, sent, n + 1, a', rid)
  {
  }

  lemma LongerSegment(sent: seq<Block>, n: nat, data: seq<byte>)
    requires n < |sent| && Segment(sent, n, data)
    ensures Segment(sent, n + 1, data + sent[n].data)
  {
    var m: nat :| OpenedAt(sent, m, n, data);
    assert sent[m..n + 1] == sent[m..n] + [sent[n]];
    ContentAppend(sent[m..n], sent[n]);
    assert OpenedAt(sent, m, n + 1, data + sent[n].data);
  }

  lemma NewSegment(sent: seq<Block>, n: nat)
    requires n < |sent| && n % SEQ_LIMIT == 0
    ensures Segment(sent, n + 1, [] + sent[n].data)
  {
    var one := sent[n..n + 1];
    assert one == [sent[n]] && one[..0] == [];
    assert Content(one) == Content(one[..0]) + sent[n].data;
    assert OpenedAt(sent, n, n + 1, [] + sent[n].data);
  }

  /** The block that a buffer takes lengthens its segment. */
  lemma GrowSegment(bs: nat, sent: seq<Block>, n: nat, a: Asm, rid: nat, now: int)
    requires n < |sent| && Buffered(bs, sent, n, a, rid) && Chain(bs, sent, n) && sent[n].rid == rid
    requires sent[n].seqNo == n % SEQ_LIMIT && Ensure(a, rid, now).inflight[rid].nextSeq == sent[n].seqNo
    ensures var b := Append(Ensure(a, rid, now), sent[n], now).inflight[rid];
            b.nextSeq == (n + 1) % SEQ_LIMIT && Segment(sent, n + 1, b.data)
  {
    NextWraps(n);
    if rid in a.inflight { LongerSegment(sent, n, a.inflight[rid].data); } else { NewSegment(sent, n); }
  }

  /** Before a final block is handled no payload has been dispatched. */
  lemma NothingYet(bs: nat, sent: seq<Block>, n: nat, out: seq<Payload>, rid: nat, fin: Option<seq<byte>>)
    requires n < |sent| && Finals(bs, sent, fin) && sent[n].final && Delivered(sent, n, out, rid)
    ensures out == []
  {
    assert forall f | 0 <= f < n && sent[f].final :: Finishes(bs, sent, f, fin);
  }

  lemma DispatchSegment(sent: seq<Block>, n: nat, a: Asm, rid: nat)
    requires n < |sent| && rid in a.inflight && sent[n].final && OutFor(a.out, rid) == []
    requires Segment(sent, n + 1, a.inflight[rid].data)
    ensures Delivered(sent, n + 1, OutFor(a.out + [Payload(rid, a.inflight[rid].data)], rid), rid)
  {
    var p := Payload(rid, a.inflight[rid].data);
    OutAppend(a.out, p, rid);
    assert OutFor(a.out + [p], rid) == [p];
    assert DeliveredAt(sent, n, [p], rid);
  }

  lemma SettleSegment(l: Limits, bs: nat, sent: seq<Block>, n: nat, a: Asm, rid: nat, accepted: bool)
    requires n < |sent| && rid in a.inflight && Delivered(sent, n, OutFor(a.out, rid), rid)
    requires sent[n].final ==> OutFor(a.out, rid) == [] && Segment(sent, n + 1, a.inflight[rid].data)
    requires Buffered(bs, sent, n + 1, a, rid)
    ensures SegmentLife(bs, sent, n + 1, Settle(l, a, rid, sent[n].final, accepted), rid)
  {
    if sent[n].final { DispatchSegment(sent, n, a, rid); }
  }

  lemma AbsorbSegment(l: Limits, bs: nat, sent: seq<Block>, n: nat, a: Asm, rid: nat, now: int, accepted: bool,
                      fin: Option<seq<byte>>)
    requires n < |sent| && Finals(bs, sent, fin) && SegmentLife(bs, sent, n, a, rid) && sent[n].rid == rid
    requires Ensure(a, rid, now).inflight[rid].nextSeq == sent[n].seqNo
    ensures SegmentLife(bs, sent, n + 1, Reassembly.Absorb(l, Ensure(a, rid, now), sent[n], now, accepted), rid)
  {
    var a2 := Append(Ensure(a, rid, now), sent[n], now);
    if sent[n].final {
      assert Finishes(bs, sent, n, fin);
      NothingYet(bs, sent, n, OutFor(a.out, rid), rid, fin);
      GrowSegment(bs, sent, n, a, rid, now);
    } else if Chain(bs, sent, n + 1) {
      assert Plain(bs, sent[n], n);
      GrowSegment(bs, sent, n, a, rid, now);
    }
    assert Chain(bs, sent, n + 1) && sent[n].final ==> Plain(bs, sent[n], n);
    SettleSegment(l, bs, sent, n, a2, rid, accepted);
  }

  /** Handling the request's next block. */
  lemma ProcessSegment(l: Limits, bs: nat, sent: seq<Block>, n: nat, a: Asm, rid: nat, now: int, accepted: bool,
                       fin: Option<seq<byte>>)
    requires n < |sent| && Finals(bs, sent, fin) && SegmentLife(bs, sent, n, a, rid) && sent[n].rid == rid
    ensures SegmentLife(bs, sent, n + 1, Process(l, a, sent[n], now, accepted), rid)
  {
    var blk := sent[n];
    var a' := Process(l, a, blk, now, accepted);
    if !blk.abort && (rid in a.inflight || a.bytes + |blk.data| <= l.budget)
       && blk.seqNo == Ensure(a, rid, now).inflight[rid].nextSeq {
      assert a' == Take(l, Ensure(a, rid, now), blk, now, accepted);
      AbsorbSegment(l, bs, sent, n, a, rid, now, accepted, fin);
    } else {
      GoneLife(bs, sent, n, a, a', rid);
    }
  }

  // ---- the composed system ----

  /** What request `i` had read when it was finished, if it was. */
  function FinishedBytes(s: State, i: nat): Option<seq<byte>> {
    if i in s.finished then Some(s.finished[i]) else None
  }

  ghost predicate Follows(bs: nat, sent: seq<Block>, pending: seq<Block>, a: Asm, rid: nat) {
    && |pending| <= |sent| && sent[|sent| - |pending|..] == pending
    && SegmentLife(bs, sent, |sent| - |pending|, a, rid)
  }

  ghost predicate SegmentOk(c: Config, s: State, i: nat)
    requires i < |s.readers|
  {
    var r := s.readers[i];
    r.rid == i && Emits(c.bs, r, FinishedBytes(s, i)) && Follows(c.bs, r.sent, Pending(s, i), s.asm, i)
  }

  /** One more block is sent: what was handled stays as it was. */
  lemma SendFollows(bs: nat, sent: seq<Block>, pending: seq<Block>, a: Asm, rid: nat, b: Block)
    requires Follows(bs, sent, pending, a, rid)
    ensures Follows(bs, sent + [b], pending + [b], a, rid)
  {
    var n := |sent| - |pending|;
    assert (sent + [b])[n..] == sent[n..] + [b];
    SamePrefix(bs, sent, sent + [b], n, a, rid);
  }

  lemma SamePrefix(bs: nat, sent: seq<Block>, sent': seq<Block>, n: nat, a: Asm, rid: nat)
    requires sent <= sent' && SegmentLife(bs, sent, n, a, rid)
    ensures SegmentLife(bs, sent', n, a, rid)
  {
    assert Chain(bs, sent', n) ==> Chain(bs, sent, n);
    forall k: nat, d | k <= n && Segment(sent, k, d) ensures Segment(sent', k, d) {
      var m: nat :| OpenedAt(sent, m, k, d);
      assert sent'[m..k] == sent[m..k];
      assert OpenedAt(sent', m, k, d);
    }
    forall f: nat, out | f < n && DeliveredAt(sent, f, out, rid) ensures DeliveredAt(sent', f, out, rid) {
    }
  }

  /** Another component's action on the table that keeps the request's buffer or removes it. */
  lemma SameFollows(bs: nat, sent: seq<Block>, pending: seq<Block>, a: Asm, a': Asm, rid: nat)
    requires Follows(bs, sent, pending, a, rid) && OutFor(a'.out, rid) == OutFor(a.out, rid)
    requires rid in a'.inflight ==> rid in a.inflight && a'.inflight[rid] == a.inflight[rid]
    ensures Follows(bs, sent, pending, a', rid)
  {
  }

  lemma StepSegment(c: Config, s: State, i: nat, o: Outcome, j: nat)
    requires c.Valid() && CanDo(c, s, ReaderStep(i, o)) && j < |s.readers| && SegmentOk(c, s, i) && SegmentOk(c, s, j)
    ensures SegmentOk(c, Next(c, s, ReaderStep(i, o)), j)
  {
    var r := s.readers[i];
    StepTagged(c.bs, r, o);
    StepPending(c, s, i, o, j);
    if i == j {
      StepEmits(c.bs, r, o, FinishedBytes(s, i));
      if o.Sent? { SendFollows(c.bs, r.sent, Pending(s, i), s.asm, i, Offered(r)); }
    }
  }

  lemma HandleFollows(l: Limits, bs: nat, r: Reader, pending: seq<Block>, a: Asm, now: int, accepted: bool,
                      fin: Option<seq<byte>>)
    requires Emits(bs, r, fin) && Follows(bs, r.sent, pending, a, r.rid) && pending != []
    ensures Follows(bs, r.sent, pending[1..], Process(l, a, pending[0], now, accepted), r.rid)
  {
    SuffixHead(r.sent, pending);
    ProcessSegment(l, bs, r.sent, |r.sent| - |pending|, a, r.rid, now, accepted, fin);
  }

  lemma OtherFollows(l: Limits, bs: nat, sent: seq<Block>, pending: seq<Block>, a: Asm, blk: Block, now: int,
                     accepted: bool, j: nat)
    requires Follows(bs, sent, pending, a, j) && blk.rid != j
    ensures Follows(bs, sent, pending, Process(l, a, blk, now, accepted), j)
  {
    ProcessFrame(l, a, blk, now, accepted, j);
    SameFollows(bs, sent, pending, a, Process(l, a, blk, now, accepted), j);
  }

  lemma HandleAnyFollows(l: Limits, bs: nat, r: Reader, pending: seq<Block>, rest: seq<Block>, a: Asm, blk: Block,
                         now: int, accepted: bool, fin: Option<seq<byte>>)
    requires Emits(bs, r, fin) && Follows(bs, r.sent, pending, a, r.rid)
    requires pending == (if blk.rid == r.rid then [blk] else []) + rest
    ensures Follows(bs, r.sent, rest, Process(l, a, blk, now, accepted), r.rid)
  {
    if blk.rid == r.rid {
      assert pending[0] == blk && pending[1..] == rest;
      HandleFollows(l, bs, r, pending, a, now, accepted, fin);
    } else {
      assert pending == rest;
      OtherFollows(l, bs, r.sent, pending, a, blk, now, accepted, r.rid);
    }
  }

  lemma HandleSegment(c: Config, s: State, accepted: bool, j: nat)
    requires CanDo(c, s, Handle(accepted)) && j < |s.readers| && SegmentOk(c, s, j)
    ensures SegmentOk(c, Next(c, s, Handle(accepted)), j)
  {
    HandlePending(c, s, accepted, j);
    HandleAnyFollows(c.limits, c.bs, s.readers[j], Pending(s, j), Pending(Next(c, s, Handle(accepted)), j), s.asm,
                     s.held.value, s.clock, accepted, FinishedBytes(s, j));
  }

  /** An action that leaves the readers and the payloads alone. */
  lemma QuietSegment(c: Config, s: State, s': State, j: nat)
    requires j < |s.readers| && SegmentOk(c, s, j) && s'.readers == s.readers && s'.finished == s.finished
    requires Line(s') == Line(s) && s'.asm.out == s.asm.out
    requires j in s'.asm.inflight ==> j in s.asm.inflight && s'.asm.inflight[j] == s.asm.inflight[j]
    ensures SegmentOk(c, s', j)
  {
    SameFollows(c.bs, s.readers[j].sent, Pending(s, j), s.asm, s'.asm, j);
  }

  lemma OpenSegment(c: Config, s: State, j: nat)
    requires c.Valid() && j <= |s.readers|
    requires if j < |s.readers| then SegmentOk(c, s, j) else NoTrace(s, j) && j !in s.finished
    ensures SegmentOk(c, Next(c, s, Open), j)
  {
    assert Line(Next(c, s, Open)) == Line(s);
    NewEmits(c.bs, j);
  }

  ghost predicate AllSegments(c: Config, s: State) {
    && (forall i | 0 <= i < |s.readers| :: SegmentOk(c, s, i))
    && forall i | i in s.finished :: i < |s.readers|
  }

  lemma NextSegmentOk(c: Config, s: State, a: Act, j: nat)
    requires c.Valid() && SystemInv(c, s) && AllSegments(c, s) && CanDo(c, s, a) && j < |Next(c, s, a).readers|
    ensures SegmentOk(c, Next(c, s, a), j)
  {
    assert j < |s.readers| ==> SegmentOk(c, s, j);
    assert j >= |s.readers| ==> NoTrace(s, j);
    match a
    case ReaderStep(i, o) =>
      assert SegmentOk(c, s, i);
      StepSegment(c, s, i, o, j);
    case Handle(accepted) => HandleSegment(c, s, accepted, j);
    case Open => OpenSegment(c, s, j);
    case _ =>
      assert Line(Next(c, s, a)) == Line(s);
      QuietSegment(c, s, Next(c, s, a), j);
  }

  lemma {:induction false} RunSegments(c: Config, acts: seq<Act>)
    requires c.Valid() && Run(c, acts)
    ensures AllSegments(c, After(c, acts))
    decreases |acts|
  {
    if acts != [] {
      var s, s' := After(c, acts[..|acts| - 1]), After(c, acts);
      RunInvariant(c, acts[..|acts| - 1]);
      RunSegments(c, acts[..|acts| - 1]);
      forall i | 0 <= i < |s'.readers| ensures SegmentOk(c, s', i) { NextSegmentOk(c, s, Last(acts), i); }
    }
  }

  // ---- fidelity ----

  /** Full blocks: the first `n` carry `n * bs` bytes. */
  lemma {:induction false} ChainContent(bs: nat, sent: seq<Block>, n: nat)
    requires n <= |sent| && Chain(bs, sent, n)
    ensures |Content(sent[..n])| == n * bs
  {
    if n > 0 {
      ChainContent(bs, sent, n - 1);
      assert Plain(bs, sent[n - 1], n - 1);
      assert sent[..n][..n - 1] == sent[..n - 1];
    }
  }

  lemma {:induction false} ContentConcat(a: seq<Block>, b: seq<Block>)
    ensures Content(a + b) == Content(a) + Content(b)
  {
    if b == [] {
      assert a + b == a;
    } else {
      assert (a + b)[..|a + b| - 1] == a + b[..|b| - 1];
      ContentConcat(a, b[..|b| - 1]);
    }
  }

  /** `data` is `whole` without its first `q * 2^32` blocks, and not empty if some are missing. */
  predicate TailFrom(bs: nat, whole: seq<byte>, data: seq<byte>, q: nat) {
    q * SEQ_LIMIT * bs <= |whole| && data == whole[q * SEQ_LIMIT * bs..] && (q > 0 ==> data != [])
  }

  lemma SegmentNotEmpty(bs: nat, sent: seq<Block>, m: nat, f: nat)
    requires bs > 0 && m <= f < |sent| && Chain(bs, sent, f) && Closes(bs, sent[f], f) && m % SEQ_LIMIT == 0
    ensures Content(sent[m..f + 1]) != []
  {
    var one := sent[m..m + 1];
    assert one == [sent[m]] && one[..0] == [] && Content(one) == Content(one[..0]) + sent[m].data;
    assert m < f ==> Plain(bs, sent[m], m);
    assert sent[m..f + 1] == one + sent[m + 1..f + 1];
    ContentConcat(one, sent[m + 1..f + 1]);
  }

  lemma SegmentIsTail(bs: nat, sent: seq<Block>, f: nat, data: seq<byte>, whole: seq<byte>)
    requires bs > 0 && f < |sent| && Chain(bs, sent, f) && Closes(bs, sent[f], f)
    requires whole == Content(sent[..f + 1]) && Segment(sent, f + 1, data)
    ensures exists q: nat :: TailFrom(bs, whole, data, q)
  {
    var m: nat :| OpenedAt(sent, m, f + 1, data);
    var q := m / SEQ_LIMIT;
    assert m == q * SEQ_LIMIT;
    assert sent[..f + 1] == sent[..m] + sent[m..f + 1];
    ContentConcat(sent[..m], sent[m..f + 1]);
    ChainContent(bs, sent, m);
    SegmentNotEmpty(bs, sent, m, f);
    assert TailFrom(bs, whole, data, q);
  }

  lemma FinalOfPayload(bs: nat, sent: seq<Block>, n: nat, p: Payload, out: seq<Payload>, fin: Option<seq<byte>>)
    returns (f: nat)
    requires Finals(bs, sent, fin) && n <= |sent| && Delivered(sent, n, out, p.rid) && p in out
    ensures f < n && out == [p] && Segment(sent, f + 1, p.data) && Finishes(bs, sent, f, fin)
  {
    f :| f < n && DeliveredAt(sent, f, out, p.rid);
  }

  lemma DeliveredIsTail(bs: nat, sent: seq<Block>, n: nat, p: Payload, out: seq<Payload>, fin: Option<seq<byte>>)
    requires bs > 0 && Finals(bs, sent, fin) && n <= |sent| && Delivered(sent, n, out, p.rid) && p in out
    ensures out == [p] && fin.Some? && exists q: nat :: TailFrom(bs, fin.value, p.data, q)
  {
    var f := FinalOfPayload(bs, sent, n, p, out, fin);
    SegmentIsTail(bs, sent, f, p.data, fin.value);
  }

  /**
   In every run, whatever the source delivers and however long the body is: a
   request has at most one payload, and that is a tail of what `Read` had
   returned when `finish` ran, cut off at a multiple of 2^32 blocks.
   */
  lemma {:induction false} PayloadIsTail(c: Config, acts: seq<Act>, p: Payload)
    requires c.Valid() && Run(c, acts) && p in After(c, acts).asm.out
    ensures var s := After(c, acts);
            && p.rid < |s.readers| && p.rid in s.finished && s.finished[p.rid] <= s.readers[p.rid].read
            && OutFor(s.asm.out, p.rid) == [p]
            && exists q: nat :: TailFrom(c.bs, s.finished[p.rid], p.data, q)
  {
    var s := After(c, acts);
    RunInvariant(c, acts);
    RunSegments(c, acts);
    OutForMember(s.asm.out, p);
    assert p.rid >= |s.readers| ==> NoTrace(s, p.rid);
    assert SegmentOk(c, s, p.rid);
    var sent, pending := s.readers[p.rid].sent, Pending(s, p.rid);
    DeliveredIsTail(c.bs, sent, |sent| - |pending|, p, OutFor(s.asm.out, p.rid), FinishedBytes(s, p.rid));
  }

  lemma ShortTail(bs: nat, whole: seq<byte>, data: seq<byte>, q: nat)
    requires TailFrom(bs, whole, data, q) && |whole| <= SEQ_LIMIT * bs
    ensures data == whole
  {
    assert q > 0 ==> q * (SEQ_LIMIT * bs) >= SEQ_LIMIT * bs;
  }

  /** A body of no more bytes than 2^32 blocks hold is delivered whole, with no assumption on the source. */
  lemma {:induction false} FaithfulBelow(c: Config, acts: seq<Act>, p: Payload)
    requires c.Valid() && Run(c, acts) && p in After(c, acts).asm.out
    requires p.rid in After(c, acts).finished ==> |After(c, acts).finished[p.rid]| <= SEQ_LIMIT * c.bs
    ensures p.rid in After(c, acts).finished && p.data == After(c, acts).finished[p.rid]
  {
    PayloadIsTail(c, acts, p);
    var whole := After(c, acts).finished[p.rid];
    var q: nat :| TailFrom(c.bs, whole, p.data, q);
    ShortTail(c.bs, whole, p.data, q);
  }
}
