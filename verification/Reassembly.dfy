/**
 The assembler's in-flight table on values: what one block, one stale sweep
 and the shutdown eviction do to the buffers, to the byte account and to the
 counters.  The class in Assembler.dfy refines these functions; the scheduler
 of CaptureSystem.dfy calls them.
 */
module Reassembly {
  import opened Prelude
  import opened ReaderProtocol

  datatype Buffer = Buffer(data: seq<byte>, nextSeq: nat, lastSeen: int)

  datatype Payload = Payload(rid: nat, data: seq<byte>)

  /** Every way in which a buffer leaves the in-flight table. */
  datatype Why = Aborted | Mismatch | Oversized | OverBudget | Stale | QueueFull | Dispatched | Shutdown

  datatype Closing = Closing(rid: nat, why: Why)

  datatype Limits = Limits(maxPayload: nat, budget: nat, timeout: int)

  /**
   `begun` and `ended` are history: one entry for every insertion into and
   every deletion from the table.  `refused` lists the requests of the blocks
   that the budget turned away before a buffer was made.  `out` lists the payloads accepted by the
   worker queue.
   */
  datatype Asm = Asm(
    inflight: map<nat, Buffer>, bytes: int,
    oversized: nat, stale: nat, queueFull: nat, budgetHits: nat,
    begun: seq<nat>, ended: seq<Closing>, refused: seq<nat>, out: seq<Payload>)

  const NO_BUFFERS := Asm(map[], 0, 0, 0, 0, 0, [], [], [], [])

  function Drop(a: Asm, rid: nat, why: Why): Asm
    requires rid in a.inflight
  {
    a.(inflight := a.inflight - {rid}, bytes := a.bytes - |a.inflight[rid].data|,
       ended := a.ended + [Closing(rid, why)])
  }

  function Ensure(a: Asm, rid: nat, now: int): (a': Asm)
    ensures rid in a'.inflight
  {
    if rid in a.inflight then a
    else a.(inflight := a.inflight[rid := Buffer([], 0, now)], begun := a.begun + [rid])
  }

  function Append(a: Asm, blk: Block, now: int): (a': Asm)
    requires blk.rid in a.inflight
    ensures blk.rid in a'.inflight
  {
    var buf := a.inflight[blk.rid];
    a.(inflight := a.inflight[blk.rid := Buffer(buf.data + blk.data, NextSeq(buf.nextSeq), now)],
       bytes := a.bytes + |blk.data|)
  }

  /** `processBlock`; `accepted` is the worker queue's answer, if it is asked. */
  function Process(l: Limits, a: Asm, blk: Block, now: int, accepted: bool): Asm {
    var rid := blk.rid;
    if blk.abort then
      if rid in a.inflight then Drop(a, rid, Aborted) else a
    else if rid !in a.inflight && a.bytes + |blk.data| > l.budget then
      a.(budgetHits := a.budgetHits + 1, refused := a.refused + [rid])
    else
      Take(l, Ensure(a, rid, now), blk, now, accepted)
  }

  /** A block that carries data, for a request that has a buffer by now. */
  function Take(l: Limits, a: Asm, blk: Block, now: int, accepted: bool): Asm
    requires blk.rid in a.inflight
  {
    if blk.seqNo != a.inflight[blk.rid].nextSeq then
      Drop(a, blk.rid, Mismatch)
    else
      Absorb(l, a, blk, now, accepted)
  }

  /** The block that the buffer expects. */
  function Absorb(l: Limits, a: Asm, blk: Block, now: int, accepted: bool): Asm
    requires blk.rid in a.inflight
  {
    Settle(l, Append(a, blk, now), blk.rid, blk.final, accepted)
  }

  /** The limits and the dispatch, once the block's bytes are appended. */
  function Settle(l: Limits, a: Asm, rid: nat, final: bool, accepted: bool): Asm
    requires rid in a.inflight
  {
    if |a.inflight[rid].data| > l.maxPayload then
      Drop(a, rid, Oversized).(oversized := a.oversized + 1)
    else if a.bytes > l.budget then
      Drop(a, rid, OverBudget).(budgetHits := a.budgetHits + 1)
    else if !final then
      a
    else if accepted then
      Drop(a, rid, Dispatched).(out := a.out + [Payload(rid, a.inflight[rid].data)])
    else
      Drop(a, rid, QueueFull).(queueFull := a.queueFull + 1)
  }

  predicate IsStale(l: Limits, a: Asm, rid: nat, now: int) {
    rid in a.inflight && now - a.inflight[rid].lastSeen > l.timeout
  }

  /** One iteration of `sweepStale`'s loop body that evicts. */
  function Evict(a: Asm, rid: nat): Asm
    requires rid in a.inflight
  {
    Drop(a, rid, Stale).(stale := a.stale + 1)
  }

  /** One deletion of the eviction that follows the closing of the queue; the byte count is no longer kept. */
  function ShutDown(a: Asm, rid: nat): Asm
    requires rid in a.inflight
  {
    Drop(a, rid, Shutdown).(bytes := a.bytes)
  }

  /** A whole sweep, in the order `ids` in which the map was visited. */
  function EvictAll(a: Asm, ids: seq<nat>): Asm {
    if ids == [] then a
    else
      var a' := EvictAll(a, ids[..|ids| - 1]);
      if Last(ids) in a'.inflight then Evict(a', Last(ids)) else a'
  }

  function ShutDownAll(a: Asm, ids: seq<nat>): Asm {
    if ids == [] then a
    else
      var a' := ShutDownAll(a, ids[..|ids| - 1]);
      if Last(ids) in a'.inflight then ShutDown(a', Last(ids)) else a'
  }

  /** Half-way through a sweep: `gone` were stale and are gone, `todo` were not looked at yet. */
  ghost predicate Sweeping(l: Limits, before: Asm, a: Asm, gone: seq<nat>, todo: set<nat>, now: int) {
    && a == EvictAll(before, gone) && a.stale == before.stale + |gone|
    && |a.inflight| + |gone| == |before.inflight|
    && todo <= a.inflight.Keys
    && a.inflight == map r | r in before.inflight
                             && (r in todo || !IsStale(l, before, r, now)) :: before.inflight[r]
  }

  lemma SweepingNext(l: Limits, before: Asm, a: Asm, gone: seq<nat>, todo: set<nat>, now: int, id: nat)
    requires Sweeping(l, before, a, gone, todo, now) && id in todo
    ensures if IsStale(l, a, id, now) then Sweeping(l, before, Evict(a, id), gone + [id], todo - {id}, now)
            else Sweeping(l, before, a, gone, todo - {id}, now)
  {
    assert (gone + [id])[..|gone|] == gone;
  }

  /** Last seen longer ago than the timeout allows. */
  function TooOld(l: Limits, m: map<nat, Buffer>, now: int): set<nat> {
    set r | r in m && now - m[r].lastSeen > l.timeout
  }

  /** The sweep keeps what was seen within the timeout, and removes and counts exactly the rest. */
  lemma SweepExactly(l: Limits, before: Asm, a: Asm, gone: seq<nat>, now: int)
    requires Sweeping(l, before, a, gone, {}, now)
    ensures forall r :: r in a.inflight <==> r in before.inflight && now - before.inflight[r].lastSeen <= l.timeout
    ensures forall r | r in a.inflight :: a.inflight[r] == before.inflight[r]
    ensures a.stale == before.stale + |TooOld(l, before.inflight, now)|
  {
    var aged := TooOld(l, before.inflight, now);
    assert before.inflight.Keys == a.inflight.Keys + aged && a.inflight.Keys !! aged;
    assert |before.inflight.Keys| == |a.inflight.Keys| + |aged|;
  }

  lemma ShutDownAllAppend(before: Asm, gone: seq<nat>, id: nat)
    requires id in ShutDownAll(before, gone).inflight
    ensures ShutDownAll(before, gone + [id]) == ShutDown(ShutDownAll(before, gone), id)
  {
    assert (gone + [id])[..|gone|] == gone;
  }

  // ---- the byte account ----

  ghost function Total(m: map<nat, Buffer>): nat
    decreases m.Keys
  {
    if m == map[] then 0
    else
      var k :| k in m;
      assert (m - {k}).Keys == m.Keys - {k};
      |m[k].data| + Total(m - {k})
  }

  lemma {:induction false} TotalRemove(m: map<nat, Buffer>, k: nat)
    requires k in m
    ensures Total(m) == |m[k].data| + Total(m - {k})
    decreases m.Keys
  {
    var j :| j in m && Total(m) == |m[j].data| + Total(m - {j});
    if j != k {
      assert (m - {j}).Keys == m.Keys - {j} && (m - {k}).Keys == m.Keys - {k};
      TotalRemove(m - {j}, k);
      TotalRemove(m - {k}, j);
      assert m - {j} - {k} == m - {k} - {j};
    }
  }

  lemma TotalUpdate(m: map<nat, Buffer>, k: nat, b: Buffer)
    ensures Total(m[k := b]) == |b.data| + Total(m - {k})
  {
    TotalRemove(m[k := b], k);
    assert m[k := b] - {k} == m - {k};
  }

  ghost predicate Accounted(l: Limits, a: Asm) {
    && a.bytes == Total(a.inflight) <= l.budget
    && forall r | r in a.inflight :: |a.inflight[r].data| <= l.maxPayload
  }

  lemma DropAccounted(a: Asm, rid: nat, why: Why)
    requires rid in a.inflight && a.bytes == Total(a.inflight)
    ensures Drop(a, rid, why).bytes == Total(Drop(a, rid, why).inflight)
    ensures Drop(a, rid, why).bytes <= a.bytes
  {
    TotalRemove(a.inflight, rid);
  }

  lemma AppendAccounted(a: Asm, blk: Block, now: int)
    requires a.bytes == Total(a.inflight)
    ensures var a1 := Ensure(a, blk.rid, now);
            a1.bytes == Total(a1.inflight) && Append(a1, blk, now).bytes == Total(Append(a1, blk, now).inflight)
  {
    var a1 := Ensure(a, blk.rid, now);
    if blk.rid !in a.inflight {
      TotalUpdate(a.inflight, blk.rid, Buffer([], 0, now));
      assert a.inflight - {blk.rid} == a.inflight;
    }
    TotalUpdate(a1.inflight, blk.rid, Append(a1, blk, now).inflight[blk.rid]);
    TotalRemove(a1.inflight, blk.rid);
  }

  /** The limits restore the account for the one buffer that has just grown. */
  lemma SettleAccounted(l: Limits, a: Asm, rid: nat, final: bool, accepted: bool)
    requires rid in a.inflight && a.bytes == Total(a.inflight)
    requires Total(a.inflight - {rid}) <= l.budget
    requires forall r | r in a.inflight && r != rid :: |a.inflight[r].data| <= l.maxPayload
    ensures Accounted(l, Settle(l, a, rid, final, accepted))
  {
    TotalRemove(a.inflight, rid);
  }

  /** `inflightBytes` is the sum of the buffer lengths and stays within the budget. */
  lemma {:induction false} ProcessAccounted(l: Limits, a: Asm, blk: Block, now: int, accepted: bool)
    requires Accounted(l, a)
    ensures Accounted(l, Process(l, a, blk, now, accepted))
    ensures 0 <= Process(l, a, blk, now, accepted).bytes <= l.budget
  {
    var rid := blk.rid;
    if blk.abort {
      if rid in a.inflight { DropAccounted(a, rid, Aborted); }
    } else if rid in a.inflight || a.bytes + |blk.data| <= l.budget {
      var a1 := Ensure(a, rid, now);
      AppendAccounted(a, blk, now);
      if blk.seqNo != a1.inflight[rid].nextSeq {
        DropAccounted(a1, rid, Mismatch);
      } else {
        var a2 := Append(a1, blk, now);
        TotalRemove(a1.inflight, rid);
        assert a2.inflight - {rid} == a1.inflight - {rid};
        SettleAccounted(l, a2, rid, blk.final, accepted);
      }
    }
  }

  lemma EvictAccounted(l: Limits, a: Asm, rid: nat)
    requires Accounted(l, a) && rid in a.inflight
    ensures Accounted(l, Evict(a, rid))
  {
    DropAccounted(a, rid, Stale);
  }

  // ---- when a block completes a payload ----

  function Expected(a: Asm, rid: nat): nat {
    if rid in a.inflight then a.inflight[rid].nextSeq else 0
  }

  function Collected(a: Asm, rid: nat): nat {
    if rid in a.inflight then |a.inflight[rid].data| else 0
  }

  /** The block continues its request, and its bytes stay within both limits. */
  predicate Welcome(l: Limits, a: Asm, blk: Block) {
    && !blk.abort && blk.seqNo == Expected(a, blk.rid)
    && Collected(a, blk.rid) + |blk.data| <= l.maxPayload
    && a.bytes + |blk.data| <= l.budget
  }

  /** A payload is dispatched exactly by a welcome final block that the worker queue takes. */
  lemma {:induction false} DispatchedExactlyWhen(l: Limits, a: Asm, blk: Block, now: int, accepted: bool)
    ensures Process(l, a, blk, now, accepted).out != a.out <==> Welcome(l, a, blk) && blk.final && accepted
  {
  }

  /** A request is buffered after its block exactly if the block was welcome and not the last. */
  lemma {:induction false} BufferedExactlyWhen(l: Limits, a: Asm, blk: Block, now: int, accepted: bool)
    ensures blk.rid in Process(l, a, blk, now, accepted).inflight <==> Welcome(l, a, blk) && !blk.final
  {
  }

  // ---- which counter, and which ending ----

  /** The budget turns the first block of a request away before a buffer is made. */
  predicate TurnedAway(l: Limits, a: Asm, blk: Block) {
    !blk.abort && blk.rid !in a.inflight && a.bytes + |blk.data| > l.budget
  }

  /** The block's bytes are appended: it is the one the request's buffer, old or new, waits for. */
  predicate Appended(l: Limits, a: Asm, blk: Block) {
    !blk.abort && !TurnedAway(l, a, blk) && blk.seqNo == Expected(a, blk.rid)
  }

  /** The buffer becomes longer than a payload may be. */
  predicate TooLong(l: Limits, a: Asm, blk: Block) {
    Appended(l, a, blk) && Collected(a, blk.rid) + |blk.data| > l.maxPayload
  }

  /** The buffer is not too long, but all buffers together are. */
  predicate TooMuch(l: Limits, a: Asm, blk: Block) {
    Appended(l, a, blk) && Collected(a, blk.rid) + |blk.data| <= l.maxPayload && a.bytes + |blk.data| > l.budget
  }

  /** A number for a truth value. */
  function Bit(b: bool): nat { if b then 1 else 0 }

  /** Each counter grows by one exactly for its own kind of block, and the stale counter for none. */
  lemma {:induction false} CountersExactlyWhen(l: Limits, a: Asm, blk: Block, now: int, accepted: bool)
    ensures var a' := Process(l, a, blk, now, accepted);
            && a'.oversized == a.oversized + Bit(TooLong(l, a, blk))
            && a'.budgetHits == a.budgetHits + Bit(TurnedAway(l, a, blk) || TooMuch(l, a, blk))
            && a'.queueFull == a.queueFull + Bit(Welcome(l, a, blk) && blk.final && !accepted)
            && a'.stale == a.stale
            && a'.refused == a.refused + if TurnedAway(l, a, blk) then [blk.rid] else []
  {
    assert a.refused + [] == a.refused;
  }

  /** The deletion that a block causes, if any, and its reason. */
  function EndingOf(l: Limits, a: Asm, blk: Block, accepted: bool): Option<Why> {
    if blk.abort then if blk.rid in a.inflight then Some(Aborted) else None
    else if TurnedAway(l, a, blk) then None
    else if blk.seqNo != Expected(a, blk.rid) then Some(Mismatch)
    else if TooLong(l, a, blk) then Some(Oversized)
    else if TooMuch(l, a, blk) then Some(OverBudget)
    else if blk.final then Some(if accepted then Dispatched else QueueFull)
    else None
  }

  /** Exactly that deletion is recorded. */
  lemma {:induction false} EndedExactlyWhen(l: Limits, a: Asm, blk: Block, now: int, accepted: bool)
    ensures Process(l, a, blk, now, accepted).ended
            == a.ended + match EndingOf(l, a, blk, accepted) case Some(why) => [Closing(blk.rid, why)] case None => []
    ensures Process(l, a, blk, now, accepted).begun
            == a.begun + if blk.abort || TurnedAway(l, a, blk) || blk.rid in a.inflight then [] else [blk.rid]
  {
    assert a.ended + [] == a.ended && a.begun + [] == a.begun;
  }

  /** The bytes collected for a request so far. */
  function Bytes(a: Asm, rid: nat): seq<byte> {
    if rid in a.inflight then a.inflight[rid].data else []
  }

  /**
   The table after a block: a welcome block that is not the last leaves the
   grown buffer, seen now and waiting for the next number; after any other
   block the request has none, and no other request notices.
   */
  lemma {:induction false} TableAfter(l: Limits, a: Asm, blk: Block, now: int, accepted: bool)
    ensures var a' := Process(l, a, blk, now, accepted);
            && a'.inflight
               == (if Welcome(l, a, blk) && !blk.final
                   then a.inflight[blk.rid := Buffer(Bytes(a, blk.rid) + blk.data, NextSeq(blk.seqNo), now)]
                   else a.inflight - {blk.rid})
            && a'.out
               == a.out + (if Welcome(l, a, blk) && blk.final && accepted
                           then [Payload(blk.rid, Bytes(a, blk.rid) + blk.data)] else [])
  {
    assert blk.rid !in a.inflight ==> a.inflight - {blk.rid} == a.inflight;
    assert a.out + [] == a.out;
  }

  // ---- the ledger of buffer lives ----

  function CountWhy(c: seq<Closing>, w: Why): nat {
    if c == [] then 0 else CountWhy(c[..|c| - 1], w) + (if Last(c).why == w then 1 else 0)
  }

  function CountFor(c: seq<Closing>, rid: nat): nat {
    if c == [] then 0 else CountFor(c[..|c| - 1], rid) + (if Last(c).rid == rid then 1 else 0)
  }

  function CountOpened(o: seq<nat>, rid: nat): nat {
    if o == [] then 0 else CountOpened(o[..|o| - 1], rid) + (if Last(o) == rid then 1 else 0)
  }

  lemma CountAppend(c: seq<Closing>, x: Closing)
    ensures forall w :: CountWhy(c + [x], w) == CountWhy(c, w) + (if x.why == w then 1 else 0)
    ensures forall r :: CountFor(c + [x], r) == CountFor(c, r) + (if x.rid == r then 1 else 0)
  {
    assert (c + [x])[..|c|] == c;
  }

  lemma OpenAppend(o: seq<nat>, x: nat)
    ensures forall r :: CountOpened(o + [x], r) == CountOpened(o, r) + (if x == r then 1 else 0)
  {
    assert (o + [x])[..|o|] == o;
  }

  /** Insertions match deletions plus what is still there, in total and for each request. */
  ghost predicate Balanced(a: Asm) {
    && |a.begun| == |a.inflight| + |a.ended|
    && forall r :: CountOpened(a.begun, r) == CountFor(a.ended, r) + (if r in a.inflight then 1 else 0)
  }

  /** Each counter counts its own ending, and every dispatch is one payload. */
  ghost predicate Tallied(a: Asm) {
    && a.oversized == CountWhy(a.ended, Oversized)
    && a.stale == CountWhy(a.ended, Stale)
    && a.queueFull == CountWhy(a.ended, QueueFull)
    && |a.out| == CountWhy(a.ended, Dispatched)
    && a.budgetHits == CountWhy(a.ended, OverBudget) + |a.refused|
  }

  ghost predicate Ledger(a: Asm) { Balanced(a) && Tallied(a) }

  lemma {:induction false} DropBalanced(a: Asm, rid: nat, why: Why)
    requires rid in a.inflight && Balanced(a)
    ensures Balanced(Drop(a, rid, why))
  {
    CountAppend(a.ended, Closing(rid, why));
    assert (a.inflight - {rid}).Keys == a.inflight.Keys - {rid};
  }

  lemma {:induction false} DropTallied(a: Asm, rid: nat, why: Why)
    requires rid in a.inflight && Tallied(a)
    ensures var d := Drop(a, rid, why);
            && Tallied(d.(oversized := if why == Oversized then a.oversized + 1 else a.oversized,
                          stale := if why == Stale then a.stale + 1 else a.stale,
                          queueFull := if why == QueueFull then a.queueFull + 1 else a.queueFull,
                          budgetHits := if why == OverBudget then a.budgetHits + 1 else a.budgetHits,
                          out := if why == Dispatched then a.out + [Payload(rid, a.inflight[rid].data)] else a.out))
  {
    CountAppend(a.ended, Closing(rid, why));
  }

  /** Deleting a buffer and counting it keeps the ledger. */
  lemma {:induction false} DropLedger(a: Asm, rid: nat, why: Why)
    requires rid in a.inflight && Ledger(a)
    ensures var d := Drop(a, rid, why);
            Ledger(d.(oversized := if why == Oversized then a.oversized + 1 else a.oversized,
                      stale := if why == Stale then a.stale + 1 else a.stale,
                      queueFull := if why == QueueFull then a.queueFull + 1 else a.queueFull,
                      budgetHits := if why == OverBudget then a.budgetHits + 1 else a.budgetHits,
                      out := if why == Dispatched then a.out + [Payload(rid, a.inflight[rid].data)] else a.out))
  {
    DropBalanced(a, rid, why);
    DropTallied(a, rid, why);
  }

  lemma EnsureLedger(a: Asm, rid: nat, now: int)
    requires Ledger(a)
    ensures Ledger(Ensure(a, rid, now))
  {
    if rid !in a.inflight {
      OpenAppend(a.begun, rid);
      assert a.inflight[rid := Buffer([], 0, now)].Keys == a.inflight.Keys + {rid};
    }
  }

  lemma AppendLedger(a: Asm, blk: Block, now: int)
    requires Ledger(a) && blk.rid in a.inflight
    ensures Ledger(Append(a, blk, now))
  {
    assert Append(a, blk, now).inflight.Keys == a.inflight.Keys;
  }

  /** Every block keeps the ledger. */
  lemma {:induction false} ProcessLedger(l: Limits, a: Asm, blk: Block, now: int, accepted: bool)
    requires Ledger(a)
    ensures Ledger(Process(l, a, blk, now, accepted))
  {
    var rid := blk.rid;
    if blk.abort {
      if rid in a.inflight { DropLedger(a, rid, Aborted); }
    } else if rid in a.inflight || a.bytes + |blk.data| <= l.budget {
      var a1 := Ensure(a, rid, now);
      EnsureLedger(a, rid, now);
      if blk.seqNo != a1.inflight[rid].nextSeq {
        DropLedger(a1, rid, Mismatch);
      } else {
        AppendLedger(a1, blk, now);
        SettleLedger(l, Append(a1, blk, now), rid, blk.final, accepted);
      }
    }
  }

  lemma {:induction false} LimitLedger(a: Asm, rid: nat)
    requires Ledger(a) && rid in a.inflight
    ensures Ledger(Drop(a, rid, Oversized).(oversized := a.oversized + 1))
    ensures Ledger(Drop(a, rid, OverBudget).(budgetHits := a.budgetHits + 1))
  {
    DropLedger(a, rid, Oversized);
    DropLedger(a, rid, OverBudget);
  }

  lemma {:induction false} FinalLedger(a: Asm, rid: nat)
    requires Ledger(a) && rid in a.inflight
    ensures Ledger(Drop(a, rid, Dispatched).(out := a.out + [Payload(rid, a.inflight[rid].data)]))
    ensures Ledger(Drop(a, rid, QueueFull).(queueFull := a.queueFull + 1))
  {
    DropLedger(a, rid, Dispatched);
    DropLedger(a, rid, QueueFull);
  }

  lemma {:induction false} SettleLedger(l: Limits, a: Asm, rid: nat, final: bool, accepted: bool)
    requires Ledger(a) && rid in a.inflight
    ensures Ledger(Settle(l, a, rid, final, accepted))
  {
    var a' := Settle(l, a, rid, final, accepted);
    if |a.inflight[rid].data| > l.maxPayload {
      LimitLedger(a, rid);
      assert a' == Drop(a, rid, Oversized).(oversized := a.oversized + 1);
    } else if a.bytes > l.budget {
      LimitLedger(a, rid);
      assert a' == Drop(a, rid, OverBudget).(budgetHits := a.budgetHits + 1);
    } else if final {
      FinalLedger(a, rid);
    }
  }

  lemma EvictLedger(a: Asm, rid: nat)
    requires Ledger(a) && rid in a.inflight
    ensures Ledger(Evict(a, rid)) && Ledger(ShutDown(a, rid))
  {
    DropBalanced(a, rid, Stale);
    DropTallied(a, rid, Stale);
    DropBalanced(a, rid, Shutdown);
    DropTallied(a, rid, Shutdown);
  }

  /** A whole sweep keeps the account and the ledger, whatever the order of the visits. */
  lemma {:induction false} SweepKeeps(l: Limits, a: Asm, ids: seq<nat>)
    requires Accounted(l, a) && Ledger(a)
    ensures Accounted(l, EvictAll(a, ids)) && Ledger(EvictAll(a, ids))
  {
    if ids != [] {
      var a' := EvictAll(a, ids[..|ids| - 1]);
      SweepKeeps(l, a, ids[..|ids| - 1]);
      if Last(ids) in a'.inflight {
        EvictLedger(a', Last(ids));
        EvictAccounted(l, a', Last(ids));
      }
    }
  }

  /** The endings partition the ended lives. */
  lemma {:induction false} EndingsPartition(c: seq<Closing>)
    ensures |c| == CountWhy(c, Aborted) + CountWhy(c, Mismatch) + CountWhy(c, Oversized) + CountWhy(c, OverBudget)
                   + CountWhy(c, Stale) + CountWhy(c, QueueFull) + CountWhy(c, Dispatched) + CountWhy(c, Shutdown)
  {
    if c != [] { EndingsPartition(c[..|c| - 1]); }
  }
}
