/**
 One request's segmenter as a state machine on values.

 Between two interactions with the pool or the queue the code of `auditReader`
 touches nothing that is shared, so one step of the machine is one such
 interaction together with the local code that follows it.  The answer that
 the pool or the queue gives is the step's `Outcome`; the same machine is
 refined by the class in TeeReader.dfy (where the answers come from real
 objects) and driven by the scheduler of CaptureSystem.dfy (where other
 readers and the assembler run between any two steps).
 */
module ReaderProtocol {
  import opened Prelude

  /** Sequence numbers are 32-bit and wrap around. */
  const SEQ_LIMIT: nat := 0x1_0000_0000

  /** A block as a value: `id` is the identity of the pooled buffer. */
  datatype Block = Block(id: nat, rid: nat, seqNo: nat, data: seq<byte>, final: bool, abort: bool)
  {
    predicate Flagged() { final || abort }
  }

  /** A block as `Get` hands it out: reset, then tagged by the reader. */
  function Fresh(id: nat, rid: nat, seqNo: nat): Block {
    Block(id, rid, seqNo, [], false, false)
  }

  /** Where a reader stands: the shared operation it performs next. */
  datatype Pc =
    | Idle                                            // no call in progress
    | Capture(todo: seq<byte>, eof: bool)             // head of the capture loop
    | Extend(todo: seq<byte>, eof: bool)              // block full, more data: get the next one
    | SendFull(todo: seq<byte>, eof: bool, next: Block) // next block in hand: send the full one
    | SendEdge(eof: bool)                             // block full, data used up: send it
    | SendAbort                                       // send the abort-marked block, then give up
    | Sentinel                                        // last block already sent: get an empty one
    | SendSentinel(blk: Block)                        // send the empty final block
    | SendFinal                                       // send the current block as the final one

  /**
   The fields of `auditReader` and its program position.  `read`, `sent`,
   `drops` and `acquired` are history: the bytes `Read` returned, the blocks
   accepted by the queue, the calls to the drop recorder, and the number of
   data blocks acquired (`seqNo` without the wrap-around).
   */
  datatype Reader = Reader(
    rid: nat, current: Option<Block>, abandoned: bool, finalized: bool, closed: bool, seqNo: nat,
    pc: Pc, read: seq<byte>, sent: seq<Block>, drops: nat, acquired: nat)

  function NewReader(rid: nat): Reader {
    Reader(rid, None, false, false, false, 0, Idle, [], [], 0, 0)
  }

  datatype Outcome =
    | CallRead(data: seq<byte>, eof: bool)  // the source returned these bytes (and io.EOF)
    | CallClose
    | Local                                 // copy bytes, leave the loop
    | Got(id: nat) | Missed                 // pool.Get
    | Sent | Refused                        // non-blocking send

  /** Which answers make sense where the reader stands. */
  predicate Enabled(r: Reader, o: Outcome) {
    match r.pc
    case Idle => o.CallRead? || o.CallClose?
    case Capture(todo, _) =>
      if todo == [] || r.current.Some? then o.Local? else o.Got? || o.Missed?
    case Extend(_, _) => r.current.Some? && (o.Got? || o.Missed?)
    case Sentinel => r.current.None? && (o.Got? || o.Missed?)
    case SendSentinel(_) => r.current.None? && (o.Sent? || o.Refused?)
    case _ => r.current.Some? && (o.Sent? || o.Refused?)
  }

  /** `abandon` and its inlined copies, once the block in hand is dealt with. */
  function GiveUp(r: Reader): Reader {
    r.(current := None, abandoned := true, drops := r.drops + 1, pc := Idle)
  }

  /** `finish` up to its first shared operation. */
  function StartFinish(r: Reader): Reader {
    if r.finalized then
      r.(pc := Idle)
    else
      var f := r.(finalized := true);
      if r.current.None? then
        if r.seqNo == 0 then f.(pc := Idle) else f.(pc := Sentinel)
      else
        f.(current := Some(r.current.value.(final := true)), pc := SendFinal)
  }

  function NextSeq(n: nat): nat { (n + 1) % SEQ_LIMIT }

  lemma NextWraps(n: nat)
    ensures NextSeq(n % SEQ_LIMIT) == (n + 1) % SEQ_LIMIT
  {
  }

  function Adopt(r: Reader, id: nat): Reader {
    r.(current := Some(Fresh(id, r.rid, r.seqNo)), seqNo := NextSeq(r.seqNo), acquired := r.acquired + 1)
  }

  function Enqueued(r: Reader, b: Block): Reader {
    r.(sent := r.sent + [b])
  }

  /** `AuditBlock.Write` on values: the block filled, and how much was taken. */
  function Room(bs: nat, b: Block, todo: seq<byte>): (n: nat)
    requires |b.data| <= bs
    ensures n <= |todo|
  {
    Min(bs - |b.data|, |todo|)
  }

  function CopyIn(bs: nat, r: Reader): Reader
    requires r.pc.Capture? && r.current.Some? && |r.current.value.data| <= bs
  {
    var n := Room(bs, r.current.value, r.pc.todo);
    var b := r.current.value.(data := r.current.value.data + r.pc.todo[..n]);
    var rest := r.pc.todo[n..];
    var pc := if |b.data| < bs then Capture(rest, r.pc.eof)
              else if rest != [] then Extend(rest, r.pc.eof)
              else SendEdge(r.pc.eof);
    r.(current := Some(b), pc := pc)
  }

  predicate Fits(bs: nat, r: Reader) {
    r.current.Some? ==> |r.current.value.data| <= bs
  }

  function MarkAbort(r: Reader): Reader
    requires r.current.Some?
  {
    r.(current := Some(r.current.value.(abort := true)), pc := SendAbort)
  }

  /** One step of `Read`, `capture`, `finish`, `abandon` or `Close`. */
  function Step(bs: nat, r: Reader, o: Outcome): Reader
    requires Enabled(r, o) && Fits(bs, r)
  {
    match r.pc
    case Idle => (
      match o
      case CallRead(data, eof) =>
        var r1 := r.(read := r.read + data);
        if data != [] && !r.abandoned then r1.(pc := Capture(data, eof))
        else if eof && !r.abandoned then StartFinish(r1)
        else r1
      case _ =>
        if r.closed then r
        else
          var r1 := r.(closed := true);
          if !r.abandoned then StartFinish(r1) else r1.(current := None))
    case Capture(todo, eof) =>
      if todo == [] then (if eof then StartFinish(r) else r.(pc := Idle))
      else if r.current.Some? then CopyIn(bs, r)
      else if o.Got? then Adopt(r, o.id)
      else GiveUp(r)
    case Extend(todo, eof) =>
      if o.Got? then r.(pc := SendFull(todo, eof, Fresh(o.id, 0, 0))) else MarkAbort(r)
    case SendFull(todo, eof, next) =>
      if o.Sent? then Adopt(Enqueued(r, r.current.value), next.id).(pc := Capture(todo, eof)) else GiveUp(r)
    case SendEdge(eof) =>
      if o.Sent? then Enqueued(r, r.current.value).(current := None, pc := Capture([], eof)) else MarkAbort(r)
    case SendAbort =>
      GiveUp(if o.Sent? then Enqueued(r, r.current.value) else r)
    case Sentinel =>
      if o.Got? then r.(pc := SendSentinel(Fresh(o.id, r.rid, r.seqNo).(final := true))) else GiveUp(r)
    case SendSentinel(b) =>
      if o.Sent? then Enqueued(r, b).(pc := Idle) else GiveUp(r)
    case SendFinal =>
      if o.Sent? then Enqueued(r, r.current.value).(current := None, pc := Idle)
      else r.(current := None, drops := r.drops + 1, pc := Idle)
  }

  /** What holds of a reader even when its numbering has wrapped: sizes and tags. */
  predicate Tagged(bs: nat, r: Reader) {
    && Fits(bs, r)
    && (r.current.Some? ==> r.current.value.rid == r.rid)
    && (r.pc.SendSentinel? ==> r.pc.blk.rid == r.rid)
  }

  lemma {:induction false} StepTagged(bs: nat, r: Reader, o: Outcome)
    requires Tagged(bs, r) && Enabled(r, o)
    ensures Tagged(bs, Step(bs, r, o))
    ensures Step(bs, r, o).rid == r.rid && r.acquired <= Step(bs, r, o).acquired
    ensures Step(bs, r, o).sent == if o.Sent? then r.sent + [Offered(r)] else r.sent
  {
  }

  lemma StepFinalized(bs: nat, r: Reader, o: Outcome)
    requires Fits(bs, r) && Enabled(r, o) && Silent(r, o) && r.finalized
    ensures Step(bs, r, o).read == r.read && Step(bs, r, o).finalized
  {
    if o.CallRead? { assert r.read + o.data == r.read; }
  }

  // ---- what a step does to the pool and to the queue ----

  /** The block a sending reader offers to the queue. */
  function Offered(r: Reader): Block
    requires r.pc.SendSentinel? || r.current.Some?
  {
    if r.pc.SendSentinel? then r.pc.blk else r.current.value
  }

  /** The blocks given back by `pool.Put` during the step. */
  function Puts(r: Reader, o: Outcome): seq<nat>
    requires Enabled(r, o)
  {
    if o.Refused? then
      if r.pc.SendEdge? then []           // kept, to be offered again as an abort block
      else if r.pc.SendFull? then [r.current.value.id, r.pc.next.id]
      else [Offered(r).id]
    else if o.CallClose? && !r.closed && r.abandoned && r.current.Some? then [r.current.value.id]
    else []
  }

  function Is(id: nat, b: nat): nat { if id == b then 1 else 0 }

  /** How many times buffer `b` is in a reader's hands. */
  function HandCount(r: Reader, b: nat): nat {
    (if r.current.Some? then Is(r.current.value.id, b) else 0) +
    (if r.pc.SendFull? then Is(r.pc.next.id, b) else if r.pc.SendSentinel? then Is(r.pc.blk.id, b) else 0)
  }

  /** How many buffers a reader holds. */
  function HandSize(r: Reader): nat {
    (if r.current.Some? then 1 else 0) + (if r.pc.SendFull? || r.pc.SendSentinel? then 1 else 0)
  }

  function Occurrences(ids: seq<nat>, b: nat): nat {
    if ids == [] then 0 else Is(ids[0], b) + Occurrences(ids[1..], b)
  }

  /** The pool (identities of the free buffers) and the queue, as one reader sees them. */
  datatype World = World(pool: multiset<nat>, queue: seq<Block>)

  /** `BlockPool.Put`: a full pool would lose the block. */
  function PutOne(cap: nat, pool: multiset<nat>, id: nat): multiset<nat> {
    if |pool| < cap then pool + multiset{id} else pool
  }

  function PutAll(cap: nat, pool: multiset<nat>, ids: seq<nat>): multiset<nat>
    decreases |ids|
  {
    if ids == [] then pool else PutAll(cap, PutOne(cap, pool, ids[0]), ids[1..])
  }

  /** An acquisition needs a free buffer; an accepted send needs a free slot. */
  predicate Possible(qcap: nat, w: World, o: Outcome) {
    && (o.Got? ==> o.id in w.pool)
    && (o.Sent? ==> |w.queue| < qcap)
  }

  function StepWorld(cap: nat, w: World, r: Reader, o: Outcome): World
    requires Enabled(r, o)
  {
    var pool := if o.Got? then w.pool - multiset{o.id} else w.pool;
    World(PutAll(cap, pool, Puts(r, o)), if o.Sent? then w.queue + [Offered(r)] else w.queue)
  }

  /** `Put` loses nothing while the pool has room for what comes back. */
  lemma {:induction false} PutAllFits(cap: nat, pool: multiset<nat>, ids: seq<nat>, b: nat)
    requires |pool| + |ids| <= cap
    ensures |PutAll(cap, pool, ids)| == |pool| + |ids|
    ensures PutAll(cap, pool, ids)[b] == pool[b] + Occurrences(ids, b)
    decreases |ids|
  {
    if ids != [] { PutAllFits(cap, PutOne(cap, pool, ids[0]), ids[1..], b); }
  }

  /** No buffer appears or disappears in a step: what is put and sent is what was held or taken. */
  lemma {:induction false} StepBalance(bs: nat, r: Reader, o: Outcome, b: nat)
    requires Enabled(r, o) && Fits(bs, r)
    ensures HandCount(Step(bs, r, o), b) + Occurrences(Puts(r, o), b) + (if o.Sent? then Is(Offered(r).id, b) else 0)
            == HandCount(r, b) + (if o.Got? then Is(o.id, b) else 0)
    ensures HandSize(Step(bs, r, o)) + |Puts(r, o)| + (if o.Sent? then 1 else 0)
            == HandSize(r) + (if o.Got? then 1 else 0)
  {
    var ids := Puts(r, o);
    if |ids| == 2 {
      assert ids[1..] == [ids[1]] && [ids[1]][1..] == [];
      assert Occurrences([ids[1]], b) == Is(ids[1], b);
      assert Occurrences(ids, b) == Is(ids[0], b) + Is(ids[1], b);
    } else if |ids| == 1 {
      assert ids[1..] == [];
      assert Occurrences(ids, b) == Is(ids[0], b);
    }
  }

  // ---- the shape of the emitted stream ----

  function Content(s: seq<Block>): seq<byte> {
    if s == [] then [] else Content(s[..|s| - 1]) + Last(s).data
  }

  lemma {:induction false} ContentAppend(s: seq<Block>, b: Block)
    ensures Content(s + [b]) == Content(s) + b.data
  {
    assert (s + [b])[..|s + [b]| - 1] == s;
  }

  predicate Ended(s: seq<Block>) { s != [] && Last(s).Flagged() }

  predicate FinalSent(r: Reader) { r.sent != [] && Last(r.sent).final }

  function Held(r: Reader): seq<byte> {
    if r.current.Some? then r.current.value.data else []
  }

  function Todo(r: Reader): seq<byte> {
    match r.pc
    case Capture(todo, _) => todo
    case Extend(todo, _) => todo
    case SendFull(todo, _, _) => todo
    case _ => []
  }

  /** Everything enqueued so far: numbered 0.., full except a final block, flagged at most at the end. */
  ghost predicate Stream(bs: nat, rid: nat, s: seq<Block>) {
    forall i | 0 <= i < |s| ::
      && s[i].rid == rid && s[i].seqNo == i
      && |s[i].data| <= bs && (!s[i].final ==> |s[i].data| == bs)
      && !(s[i].final && s[i].abort)
      && (i < |s| - 1 ==> !s[i].Flagged())
  }

  /** The block in hand carries the next number; nothing is held once the stream has ended. */
  ghost predicate InHand(bs: nat, r: Reader) {
    && r.seqNo == r.acquired
    && |r.sent| <= r.acquired + (if FinalSent(r) then 1 else 0)
    && (r.current.Some? ==>
          var b := r.current.value;
          && b.rid == r.rid && b.seqNo == |r.sent| && r.acquired == |r.sent| + 1
          && |b.data| <= bs && !Ended(r.sent) && !r.abandoned)
    && (r.current.None? && !Ended(r.sent) && !r.abandoned && (r.finalized ==> !r.pc.Idle?) ==>
          r.acquired == |r.sent|)
    && (match r.pc
        case Idle =>
          r.current.Some? ==> |Held(r)| < bs && !r.current.value.Flagged() && !r.finalized
        case Capture(_, _) =>
          && !r.finalized
          && (r.current.Some? ==> |Held(r)| < bs && !r.current.value.Flagged())
        case SendAbort =>
          r.current.Some? && |Held(r)| == bs && r.current.value.abort && !r.current.value.final && !r.finalized
        case Sentinel =>
          r.current.None? && r.finalized && r.sent != []
        case SendSentinel(b) =>
          && r.current.None? && r.finalized && r.sent != []
          && b == Fresh(b.id, r.rid, |r.sent|).(final := true)
        case SendFinal =>
          r.current.Some? && |Held(r)| < bs && r.current.value.final && !r.current.value.abort && r.finalized
        case _ =>
          && r.current.Some? && |Held(r)| == bs && !r.current.value.Flagged() && !r.finalized
          && (r.pc.Extend? || r.pc.SendFull? ==> Todo(r) != []))
    && (!r.pc.Idle? ==> !r.abandoned && !Ended(r.sent))
  }

  /** No byte is lost, reordered or invented while the capture is alive. */
  ghost predicate Faithful(r: Reader) {
    && Content(r.sent) <= r.read
    && Content(r.sent) + Held(r) <= r.read
    && (!r.abandoned && !Ended(r.sent) && (r.finalized ==> !r.pc.Idle?) && !r.pc.SendAbort? ==>
          Content(r.sent) + Held(r) + Todo(r) == r.read)
    && (FinalSent(r) ==> Content(r.sent) == r.read && r.finalized && !r.abandoned)
    && (Ended(r.sent) && !FinalSent(r) ==> r.abandoned)
  }

  /** The drop recorder is called at most once, and exactly when the capture is lost. */
  ghost predicate Counted(r: Reader) {
    && (r.abandoned ==> r.drops == 1 && r.pc.Idle? && r.current.None?)
    && (!r.abandoned && !(r.finalized && r.pc.Idle?) ==> r.drops == 0)
    && (r.finalized && r.pc.Idle? && !r.abandoned ==>
          || (r.drops == 0 && FinalSent(r))
          || (r.drops == 0 && r.sent == [] && r.read == [])
          || (r.drops == 1 && !FinalSent(r)))
    && (r.closed ==> r.finalized || r.abandoned)
  }

  ghost predicate Inv(bs: nat, r: Reader) {
    && Stream(bs, r.rid, r.sent)
    && InHand(bs, r)
    && Faithful(r)
    && Counted(r)
  }

  /** The source keeps io.ReadCloser's word: no bytes after EOF or Close was seen. */
  predicate Silent(r: Reader, o: Outcome) {
    o.CallRead? && r.finalized ==> o.data == []
  }

  lemma InitInv(bs: nat, rid: nat)
    requires bs > 0
    ensures Inv(bs, NewReader(rid))
  {
  }

  lemma {:induction false} StreamAppend(bs: nat, rid: nat, s: seq<Block>, b: Block)
    requires Stream(bs, rid, s) && !Ended(s)
    requires b.rid == rid && b.seqNo == |s| && |b.data| <= bs && (!b.final ==> |b.data| == bs)
    requires !(b.final && b.abort)
    ensures Stream(bs, rid, s + [b])
    ensures Content(s + [b]) == Content(s) + b.data
  {
    ContentAppend(s, b);
  }

  lemma {:induction false} FinishInv(bs: nat, r: Reader)
    requires bs > 0 && Inv(bs, r) && !r.abandoned && (r.pc.Idle? || (r.pc.Capture? && r.pc.todo == []))
    ensures Inv(bs, StartFinish(r)) && StartFinish(r).finalized
  {
  }

  lemma {:induction false} StepIdle(bs: nat, r: Reader, o: Outcome)
    requires bs > 0 && Inv(bs, r) && Enabled(r, o) && Silent(r, o) && r.pc.Idle?
    ensures Inv(bs, Step(bs, r, o))
  {
    if !r.abandoned { FinishInv(bs, r); }
    if o.CallRead? {
      assert r.read + o.data == if o.data == [] then r.read else r.read + o.data;
      if o.data != [] && !r.abandoned {
        assert Content(r.sent) + Held(r) + [] == Content(r.sent) + Held(r);
      }
    } else if !r.closed && !r.abandoned {
      assert Step(bs, r, o) == StartFinish(r).(closed := true);
    }
  }

  lemma {:induction false} StepCopy(bs: nat, r: Reader)
    requires bs > 0 && Inv(bs, r) && r.pc.Capture? && r.pc.todo != [] && r.current.Some?
    ensures Inv(bs, CopyIn(bs, r))
  {
    var n := Room(bs, r.current.value, r.pc.todo);
    assert r.pc.todo == r.pc.todo[..n] + r.pc.todo[n..];
    assert Content(r.sent) + (Held(r) + r.pc.todo[..n]) + r.pc.todo[n..] == r.read;
  }

  lemma {:induction false} StepAcquire(bs: nat, r: Reader, id: nat)
    requires bs > 0 && Inv(bs, r) && r.pc.Capture? && r.pc.todo != [] && r.current.None?
    requires Adopt(r, id).acquired < SEQ_LIMIT
    ensures Inv(bs, Adopt(r, id)) && Inv(bs, GiveUp(r))
  {
  }

  lemma {:induction false} StepCapture(bs: nat, r: Reader, o: Outcome)
    requires bs > 0 && Inv(bs, r) && Enabled(r, o) && r.pc.Capture?
    requires Step(bs, r, o).acquired < SEQ_LIMIT
    ensures Inv(bs, Step(bs, r, o))
  {
    if r.pc.todo == [] {
      if r.pc.eof { FinishInv(bs, r); }
    } else if r.current.Some? {
      StepCopy(bs, r);
    } else if o.Got? {
      StepAcquire(bs, r, o.id);
    }
  }

  lemma {:induction false} StepExtend(bs: nat, r: Reader, o: Outcome)
    requires bs > 0 && Inv(bs, r) && Enabled(r, o) && (r.pc.Extend? || r.pc.Sentinel?)
    ensures Inv(bs, Step(bs, r, o))
  {
  }

  lemma {:induction false} StepSendMid(bs: nat, r: Reader, o: Outcome)
    requires bs > 0 && Inv(bs, r) && Enabled(r, o) && (r.pc.SendFull? || r.pc.SendEdge?)
    requires Step(bs, r, o).acquired < SEQ_LIMIT
    ensures Inv(bs, Step(bs, r, o))
  {
    if o.Sent? { StreamAppend(bs, r.rid, r.sent, Offered(r)); }
  }

  lemma StepSendLast(bs: nat, r: Reader, o: Outcome)
    requires bs > 0 && Inv(bs, r) && Enabled(r, o) && (r.pc.SendAbort? || r.pc.SendSentinel? || r.pc.SendFinal?)
    ensures Inv(bs, Step(bs, r, o))
  {
    if o.Sent? { StreamAppend(bs, r.rid, r.sent, Offered(r)); }
  }

  /** Every step keeps the invariant, as long as the 32-bit numbering has not wrapped. */
  lemma {:induction false} StepInv(bs: nat, r: Reader, o: Outcome)
    requires bs > 0 && Inv(bs, r) && Enabled(r, o) && Silent(r, o)
    requires Step(bs, r, o).acquired < SEQ_LIMIT
    ensures Inv(bs, Step(bs, r, o))
  {
    match r.pc
    case Idle => StepIdle(bs, r, o);
    case Capture(_, _) => StepCapture(bs, r, o);
    case Extend(_, _) => StepExtend(bs, r, o);
    case Sentinel => StepExtend(bs, r, o);
    case SendFull(_, _, _) => StepSendMid(bs, r, o);
    case SendEdge(_) => StepSendMid(bs, r, o);
    case _ => StepSendLast(bs, r, o);
  }

  // ---- what the invariant means to a caller ----

  /**
   Work left in the call in progress.  A held block always has room, so every
   pass of the capture loop consumes at least one byte.
   */
  function Work(r: Reader): nat {
    match r.pc
    case Idle => 0
    case Capture(todo, _) => 8 * |todo| + (if r.current.None? then 5 else 4)
    case Extend(todo, _) => 8 * |todo| + 7
    case SendFull(todo, _, _) => 8 * |todo| + 6
    case SendEdge(_) => 7
    case SendAbort => 1
    case Sentinel => 3
    case SendSentinel(_) => 2
    case SendFinal => 1
  }

  /** `Read` and `Close` terminate whatever the pool and the queue answer. */
  lemma CallsTerminate(bs: nat, r: Reader, o: Outcome)
    requires bs > 0 && Inv(bs, r) && Enabled(r, o) && !r.pc.Idle?
    ensures Work(Step(bs, r, o)) < Work(r)
    ensures Work(Step(bs, r, o)) == 0 <==> Step(bs, r, o).pc.Idle?
  {
    if r.pc.Capture? && r.pc.todo != [] && r.current.Some? {
      assert Room(bs, r.current.value, r.pc.todo) >= 1;
    }
  }

  /** A call that has not returned can always go on. */
  lemma NeverStuck(bs: nat, r: Reader)
    requires bs > 0 && Inv(bs, r) && !r.pc.Idle?
    ensures Enabled(r, Local) || (Enabled(r, Missed) && forall id :: Enabled(r, Got(id))) || (Enabled(r, Sent) && Enabled(r, Refused))
  {
  }

  predicate NothingRead(r: Reader) { r.read == [] && r.sent == [] && r.drops == 0 }
  predicate FullCapture(r: Reader) { FinalSent(r) && Content(r.sent) == r.read && r.drops == 0 }
  predicate Lost(r: Reader) { !FinalSent(r) && r.drops == 1 }

  /** After `Close` has returned, exactly one of the three outcomes holds, and nothing is held. */
  lemma ClosedOutcome(bs: nat, r: Reader)
    requires bs > 0 && Inv(bs, r) && r.closed && r.pc.Idle?
    ensures NothingRead(r) || FullCapture(r) || Lost(r)
    ensures !(NothingRead(r) && FullCapture(r)) && !(FullCapture(r) && Lost(r)) && !(Lost(r) && NothingRead(r))
    ensures r.current.None? && HandSize(r) == 0
  {
  }

  /** Numbers 0..k-1 in order, full unflagged blocks up to the last one, a prefix of the bytes read. */
  lemma StreamShape(bs: nat, r: Reader)
    requires bs > 0 && Inv(bs, r)
    ensures forall i | 0 <= i < |r.sent| :: r.sent[i].rid == r.rid && r.sent[i].seqNo == i
    ensures forall i | 0 <= i < |r.sent| - 1 :: !r.sent[i].Flagged() && |r.sent[i].data| == bs
    ensures forall i | 0 <= i < |r.sent| :: !(r.sent[i].final && r.sent[i].abort)
    ensures Content(r.sent) <= r.read
  {
  }

  /**
   The assumption on the source is needed: if it still delivers a byte after
   EOF, `Close` leaves that byte's block in the reader for ever.
   */
  lemma LateBytesStrandABlock(x: byte)
    ensures var r0 := NewReader(7);
            var r1 := Step(2, r0, CallRead([x], true));
            var r2 := Step(2, Step(2, Step(2, r1, Got(0)), Local), Local);
            var r3 := Step(2, r2, Sent);
            var r4 := Step(2, r3, CallRead([x], false));
            var r5 := Step(2, Step(2, Step(2, r4, Got(1)), Local), Local);
            var r6 := Step(2, r5, CallClose);
            r3.pc.Idle? && !Silent(r3, CallRead([x], false)) && r6.closed && r6.pc.Idle? && HandSize(r6) == 1
  {
    var r1 := Step(2, NewReader(7), CallRead([x], true));
    assert r1.pc == Capture([x], true);
    var r2 := Step(2, Step(2, Step(2, r1, Got(0)), Local), Local);
    assert r2.pc == SendFinal;
    var r3 := Step(2, r2, Sent);
    var r4 := Step(2, r3, CallRead([x], false));
    assert r4.pc == Capture([x], false);
    var r5 := Step(2, Step(2, Step(2, r4, Got(1)), Local), Local);
    assert r5.pc.Idle?;
  }
}
