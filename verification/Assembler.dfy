/**
 The assembler on the heap: buffers that own growing byte arrays, blocks that
 go back to the pool, payloads handed to the worker queue.  Its state is tied
 to the value functions of Reassembly.dfy, and the arrays of buffers and
 payloads are kept apart from the arrays of the pooled blocks.
 */
module Assembler {
  import opened Prelude
  import opened ReaderProtocol
  import opened Reassembly
  import opened Blocks

  /** `payloadBuffer`: bytes accumulated for one request. */
  class PayloadBuffer {
    ghost const rid: nat
    var data: array<byte>      // backing array of the slice
    var len: nat
    var nextSeq: nat
    var lastSeen: int
    ghost var bytes: seq<byte> // the slice's contents

    ghost predicate Valid()
      reads this, data
    {
      |bytes| == len <= data.Length && forall i | 0 <= i < len :: data[i] == bytes[i]
    }

    ghost function View(): Buffer
      reads this
    {
      Buffer(bytes, nextSeq, lastSeen)
    }

    constructor (ghost rid: nat, now: int)
      ensures this.rid == rid && Valid() && fresh(data) && View() == Buffer([], 0, now)
    {
      this.rid := rid;
      data := new byte[0];
      len, nextSeq, lastSeen, bytes := 0, 0, now, [];
    }

    /** `append`: in place while the array has room, else into a larger copy. */
    method Append(src: AuditBlock, now: int)
      requires Valid() && src.Valid() && src.Data != data
      modifies this, data
      ensures Valid() && (data == old(data) || fresh(data))
      ensures View() == Buffer(old(bytes) + src.bytes, NextSeq(old(nextSeq)), now)
    {
      if len + src.Used > data.Length {
        var larger := new byte[2 * (len + src.Used)];
        forall i | 0 <= i < len { larger[i] := data[i]; }
        data := larger;
      }
      forall i | 0 <= i < src.Used { data[len + i] := src.Data[i]; }
      len := len + src.Used;
      bytes := bytes + src.bytes;
      nextSeq := NextSeq(nextSeq);
      lastSeen := now;
    }
  }

  /** A buffer object stands for request `r` with value `v`. */
  ghost predicate Represents(b: PayloadBuffer, r: nat, v: Buffer)
    reads b, b.data
  {
    b.rid == r && b.Valid() && b.View() == v
  }

  /** `assembledPayload`: the buffer's slice, handed over without a copy. */
  datatype AssembledPayload = AssembledPayload(requestID: nat, data: array<byte>, len: nat, complete: bool)

  ghost predicate Holds(p: AssembledPayload, msg: Payload)
    reads p.data
  {
    && p.complete && p.requestID == msg.rid && p.len == |msg.data| <= p.data.Length
    && forall k | 0 <= k < p.len :: p.data[k] == msg.data[k]
  }

  /** The worker queue; `msgs` are the values of the payloads when they were sent. */
  class WorkerQueue {
    const cap: nat
    var ch: seq<AssembledPayload>
    ghost var msgs: seq<Payload>

    constructor (cap: nat)
      ensures this.cap == cap && ch == [] && msgs == []
    {
      this.cap := cap;
      ch, msgs := [], [];
    }

    ghost function Arrays(): set<array<byte>>
      reads this
    {
      set p | p in ch :: p.data
    }

    /** Nobody has written to the bytes of a payload since it was dispatched. */
    ghost predicate Intact()
      reads this, Arrays()
    {
      && |msgs| == |ch|
      && forall i | 0 <= i < |ch| :: Holds(ch[i], msgs[i])
    }

    method Offer(p: AssembledPayload, ghost msg: Payload) returns (ok: bool)
      requires Intact() && Holds(p, msg)
      modifies this
      ensures Intact()
      ensures ok == old(|ch| < cap)
      ensures ch == if ok then old(ch) + [p] else old(ch)
      ensures msgs == if ok then old(msgs) + [msg] else old(msgs)
    {
      if |ch| < cap {
        ch, msgs := ch + [p], msgs + [msg];
        return true;
      }
      return false;
    }
  }

  /** An entry of the in-flight table: the buffer object and its value. */
  datatype Entry = Entry(buf: PayloadBuffer, ghost v: Buffer)

  ghost function Values(m: map<nat, Entry>): map<nat, Buffer> {
    map r | r in m :: m[r].v
  }

  lemma ValuesUpdate(m: map<nat, Entry>, r: nat, e: Entry)
    ensures Values(m[r := e]) == Values(m)[r := e.v]
  {
  }

  lemma ValuesRemove(m: map<nat, Entry>, r: nat)
    ensures Values(m - {r}) == Values(m) - {r}
  {
  }

  class Table {
    const pool: BlockPool
    const worker: WorkerQueue
    const limits: Limits
    var inflight: map<nat, Entry>
    var inflightBytes: int
    var oversized: nat
    var stale: nat
    var queueFull: nat
    var budgetHits: nat
    ghost var begun: seq<nat>
    ghost var ended: seq<Closing>
    ghost var refused: seq<nat>
    ghost var out: seq<Payload>
    ghost var bufs: set<PayloadBuffer>
    ghost var owner: map<array<byte>, PayloadBuffer> // which buffer an array belongs to

    constructor (pool: BlockPool, worker: WorkerQueue, limits: Limits)
      requires pool.Valid() && worker.ch == [] && worker.msgs == []
      ensures this.pool == pool && this.worker == worker && this.limits == limits
      ensures Valid() && View() == NO_BUFFERS
    {
      this.pool, this.worker, this.limits := pool, worker, limits;
      inflight, inflightBytes := map[], 0;
      oversized, stale, queueFull, budgetHits := 0, 0, 0, 0;
      begun, ended, refused, out, owner, bufs := [], [], [], [], map[], {};
    }

    ghost function View(): Asm
      reads this
    {
      Asm(Values(inflight), inflightBytes, oversized, stale, queueFull, budgetHits, begun, ended, refused, out)
    }

    /** A buffer's array belongs to that buffer alone, and never to a pooled block. */
    ghost predicate Owns(b: PayloadBuffer)
      reads `owner, b
    {
      b.data in owner && owner[b.data] == b && b.data !in pool.owner
    }

    /** The in-flight buffers: values, identities and arrays. */
    ghost predicate ValidTable()
      reads `inflight, `bufs, `owner, bufs, owner.Keys
    {
      forall r | r in inflight :: Sound(r)
    }

    ghost predicate Sound(r: nat)
      requires r in inflight
      reads `inflight, `bufs, `owner, bufs, owner.Keys
    {
      var b := inflight[r].buf;
      b in bufs && b.data in owner && Represents(b, r, inflight[r].v) && Owns(b)
    }

    /** What has been dispatched shares no array with a buffer or a pooled block. */
    ghost predicate ValidOut()
      reads `owner, worker, worker.Arrays()
    {
      && worker.Intact()
      && forall p | p in worker.ch :: p.data !in owner && p.data !in pool.owner
    }

    ghost predicate Valid()
      reads this, pool, bufs, owner.Keys, worker, worker.Arrays()
    {
      pool.Valid() && ValidTable() && ValidOut()
    }

    method Remove(rid: nat, ghost why: Why)
      requires ValidTable() && rid in inflight
      modifies this`inflight, this`ended, this`owner
      ensures ValidTable() && View() == Drop(old(View()), rid, why).(bytes := old(inflightBytes))
      ensures inflight == old(inflight) - {rid} && owner == old(owner) - {old(inflight)[rid].buf.data}
    {
      ghost var b := inflight[rid].buf;
      ValuesRemove(inflight, rid);
      inflight := inflight - {rid};
      ended := ended + [Closing(rid, why)];
      owner := owner - {b.data};
      forall r | r in inflight ensures Sound(r) { assert old(Sound(r)); }
    }

    method Delete(rid: nat, ghost why: Why)
      requires ValidTable() && rid in inflight
      modifies this`inflight, this`inflightBytes, this`ended, this`owner
      ensures ValidTable() && View() == Drop(old(View()), rid, why)
      ensures inflight == old(inflight) - {rid} && owner == old(owner) - {old(inflight)[rid].buf.data}
    {
      assert Sound(rid);
      Charge(0 - inflight[rid].buf.len);
      Remove(rid, why);
    }

    /** Other requests are untouched by what happens to `rid`. */
    ghost predicate OthersSound(rid: nat)
      reads `inflight, `bufs, `owner, bufs, owner.Keys
    {
      forall r | r in inflight && r != rid :: Sound(r)
    }

    /** The table entry of `rid` and its array are replaced. */
    method Store(rid: nat, b: PayloadBuffer, ghost v: Buffer)
      requires OthersSound(rid) && b in bufs && Represents(b, rid, v)
      requires b.data !in pool.owner && (b.data in owner ==> owner[b.data] == b)
      modifies this`inflight, this`owner
      ensures ValidTable() && View() == old(View()).(inflight := old(Values(inflight))[rid := v])
      ensures inflight == old(inflight)[rid := Entry(b, v)] && owner == old(owner)[b.data := b]
    {
      ValuesUpdate(inflight, rid, Entry(b, v));
      inflight := inflight[rid := Entry(b, v)];
      owner := owner[b.data := b];
      forall r | r in inflight ensures Sound(r) {
        if r != rid { assert old(Sound(r)); }
      }
    }

    method Insert(rid: nat, now: int)
      requires ValidTable() && rid !in inflight
      modifies this`inflight, this`begun, this`owner, this`bufs
      ensures ValidTable() && View() == Ensure(old(View()), rid, now)
      ensures rid in inflight && fresh(inflight[rid].buf) && fresh(inflight[rid].buf.data)
      ensures inflight == old(inflight)[rid := inflight[rid]]
      ensures owner == old(owner)[inflight[rid].buf.data := inflight[rid].buf]
    {
      var b := new PayloadBuffer(rid, now);
      begun := begun + [rid];
      bufs := bufs + {b};
      assert OthersSound(rid) by {
        forall r | r in inflight ensures Sound(r) { assert old(Sound(r)); }
      }
      Store(rid, b, b.View());
    }

    /** The value of a buffer after a block. */
    ghost function Grown(v: Buffer, blk: AuditBlock, now: int): Buffer
      reads blk
    {
      Buffer(v.data + blk.bytes, NextSeq(v.nextSeq), now)
    }

    method Fill(rid: nat, blk: AuditBlock, now: int) returns (growth: int)
      requires ValidTable() && rid in inflight && blk.Data in pool.owner && blk.Valid() && blk.RequestID == rid
      modifies this`inflight, this`owner, inflight[rid].buf, inflight[rid].buf.data
      ensures ValidTable() && rid in inflight && inflight[rid].buf == old(inflight)[rid].buf
      ensures growth == |blk.bytes|
      ensures View() == Reassembly.Append(old(View()), blk.View(), now).(bytes := old(inflightBytes))
      ensures owner == old(owner)[inflight[rid].buf.data := inflight[rid].buf]
      ensures inflight[rid].buf.data == old(inflight[rid].buf.data) || fresh(inflight[rid].buf.data)
    {
      assert Sound(rid);
      var b := inflight[rid].buf;
      ghost var v := Grown(inflight[rid].v, blk, now);
      var oldLen := b.len;
      b.Append(blk, now);
      growth := b.len - oldLen;
      assert OthersSound(rid) by {
        forall r | r in inflight && r != rid ensures Sound(r) { assert old(Sound(r)); }
      }
      Store(rid, b, v);
    }

    /** A change of `inflightBytes`. */
    method Charge(n: int)
      requires ValidTable()
      modifies this`inflightBytes
      ensures ValidTable() && View() == old(View()).(bytes := old(inflightBytes) + n)
    {
      inflightBytes := inflightBytes + n;
    }

    method AppendTo(rid: nat, blk: AuditBlock, now: int)
      requires ValidTable() && rid in inflight && blk.Data in pool.owner && blk.Valid() && blk.RequestID == rid
      modifies this`inflight, this`inflightBytes, this`owner, inflight[rid].buf, inflight[rid].buf.data
      ensures ValidTable() && View() == Reassembly.Append(old(View()), blk.View(), now)
      ensures rid in inflight && inflight[rid].buf == old(inflight)[rid].buf
      ensures owner == old(owner)[inflight[rid].buf.data := inflight[rid].buf]
      ensures inflight[rid].buf.data == old(inflight[rid].buf.data) || fresh(inflight[rid].buf.data)
    {
      var growth := Fill(rid, blk, now);
      Charge(growth);
    }

    /** The non-blocking send to the worker queue, which drops the payload and counts it if the queue is full. */
    method Send(p: AssembledPayload, ghost msg: Payload)
      requires ValidTable() && ValidOut() && Holds(p, msg) && p.data !in owner && p.data !in pool.owner
      modifies this`out, this`queueFull, worker
      ensures ValidTable() && ValidOut()
      ensures old(worker.ch) <= worker.ch && old(worker.msgs) <= worker.msgs
      ensures View() == if old(|worker.ch| < worker.cap) then old(View()).(out := old(out) + [msg])
                        else old(View()).(queueFull := old(queueFull) + 1)
    {
      var ok := worker.Offer(p, msg);
      if ok { out := out + [msg]; } else { queueFull := queueFull + 1; }
    }

    /** The payload takes the buffer's array; a full worker queue drops it. */
    method Dispatch(rid: nat)
      requires ValidTable() && ValidOut() && rid in inflight
      modifies this`inflight, this`inflightBytes, this`ended, this`owner, this`queueFull, this`out, worker
      ensures ValidTable() && ValidOut()
      ensures View() == if old(|worker.ch| < worker.cap)
                        then Drop(old(View()), rid, Dispatched)
                             .(out := old(out) + [Payload(rid, old(inflight[rid].v.data))])
                        else Drop(old(View()), rid, QueueFull).(queueFull := old(queueFull) + 1)
      ensures old(worker.ch) <= worker.ch && old(worker.msgs) <= worker.msgs
    {
      assert Sound(rid);
      var b := inflight[rid].buf;
      var p := AssembledPayload(rid, b.data, b.len, true);
      ghost var msg := Payload(rid, inflight[rid].v.data);
      ghost var why := if |worker.ch| < worker.cap then Dispatched else QueueFull;
      Delete(rid, why);
      ghost var deleted := View();
      assert deleted == Drop(old(View()), rid, why);
      Send(p, msg);
    }

    /** The request's buffer object and its array: all that one block may touch. */
    ghost function Touched(rid: nat): (o: set<object>)
      reads this, bufs
    {
      if rid in inflight && inflight[rid].buf in bufs then {inflight[rid].buf, inflight[rid].buf.data} else {}
    }

    /** A limit was exceeded. */
    method Discard(rid: nat, oversize: bool)
      requires ValidTable() && ValidOut() && rid in inflight
      modifies this`inflight, this`inflightBytes, this`ended, this`owner, this`oversized, this`budgetHits
      ensures ValidTable() && ValidOut()
      ensures View() == if oversize then Drop(old(View()), rid, Oversized).(oversized := old(oversized) + 1)
                        else Drop(old(View()), rid, OverBudget).(budgetHits := old(budgetHits) + 1)
    {
      Delete(rid, if oversize then Oversized else OverBudget);
      if oversize { oversized := oversized + 1; } else { budgetHits := budgetHits + 1; }
    }

    /** The two limits and the dispatch, for the buffer that has just grown. */
    method SettleBlock(rid: nat, final: bool)
      requires ValidTable() && ValidOut() && rid in inflight
      modifies this`inflight, this`inflightBytes, this`ended, this`owner, this`out
      modifies this`oversized, this`budgetHits, this`queueFull, worker
      ensures ValidTable() && ValidOut()
      ensures View() == Settle(limits, old(View()), rid, final, old(|worker.ch| < worker.cap))
      ensures old(worker.ch) <= worker.ch && old(worker.msgs) <= worker.msgs
    {
      assert Sound(rid);
      if inflight[rid].buf.len > limits.maxPayload {
        Discard(rid, true);
      } else if inflightBytes > limits.budget {
        Discard(rid, false);
      } else if final {
        Dispatch(rid);
      }
    }

    /** The block that the buffer expects. */
    method Absorb(blk: AuditBlock, now: int)
      requires ValidTable() && ValidOut() && blk.Data in pool.owner && blk.Valid() && blk.RequestID in inflight
      modifies this, worker, Touched(blk.RequestID)
      ensures ValidTable() && ValidOut()
      ensures View() == Reassembly.Absorb(limits, old(View()), old(blk.View()), now, old(|worker.ch| < worker.cap))
      ensures old(worker.ch) <= worker.ch && old(worker.msgs) <= worker.msgs
    {
      assert Sound(blk.RequestID);
      AppendTo(blk.RequestID, blk, now);
      ghost var grown := View();
      assert grown == Reassembly.Append(old(View()), blk.View(), now);
      SettleBlock(blk.RequestID, blk.Final);
    }

    /** The next block of a request that has a buffer, up to its return to the pool. */
    method TakeBlock(blk: AuditBlock, now: int)
      requires ValidTable() && ValidOut() && blk.Data in pool.owner && blk.Valid() && blk.RequestID in inflight
      modifies this, worker, Touched(blk.RequestID)
      ensures ValidTable() && ValidOut()
      ensures View() == Take(limits, old(View()), old(blk.View()), now, old(|worker.ch| < worker.cap))
      ensures old(worker.ch) <= worker.ch && old(worker.msgs) <= worker.msgs
    {
      var rid := blk.RequestID;
      assert Sound(rid);
      if blk.Seq != inflight[rid].buf.nextSeq {
        Delete(rid, Mismatch);
      } else {
        Absorb(blk, now);
      }
    }

    /** A block that is not an abort: everything but its return to the pool. */
    method Accept(blk: AuditBlock, now: int)
      requires ValidTable() && ValidOut() && blk.Data in pool.owner && blk.Valid()
      requires blk.RequestID in inflight || inflightBytes + blk.Used <= limits.budget
      modifies this, worker, Touched(blk.RequestID)
      ensures ValidTable() && ValidOut()
      ensures View() == Take(limits, Ensure(old(View()), blk.RequestID, now), old(blk.View()), now,
                             old(|worker.ch| < worker.cap))
      ensures old(worker.ch) <= worker.ch && old(worker.msgs) <= worker.msgs
    {
      if blk.RequestID !in inflight {
        Insert(blk.RequestID, now);
      }
      ghost var inserted := View();
      assert inserted == Ensure(old(View()), blk.RequestID, now);
      TakeBlock(blk, now);
    }

    /** Everything `processBlock` does with a block but its return to the pool. */
    method HandleBlock(blk: AuditBlock, now: int)
      requires ValidTable() && ValidOut() && blk.Data in pool.owner && blk.Valid()
      modifies this, worker, Touched(blk.RequestID)
      ensures ValidTable() && ValidOut()
      ensures View() == Process(limits, old(View()), old(blk.View()), now, old(|worker.ch| < worker.cap))
      ensures old(worker.ch) <= worker.ch && old(worker.msgs) <= worker.msgs
    {
      var rid := blk.RequestID;
      if blk.Abort {
        if rid in inflight { Delete(rid, Aborted); }
      } else if rid !in inflight && inflightBytes + blk.Used > limits.budget {
        budgetHits, refused := budgetHits + 1, refused + [rid];
      } else {
        Accept(blk, now);
      }
    }

    method GiveBack(blk: AuditBlock)
      requires Valid() && blk in pool.all && blk !in pool.ch
      modifies pool`ch, pool`free
      ensures Valid() && View() == old(View())
      ensures pool.free == PutOne(pool.capacity, old(pool.free), blk.id)
    {
      pool.Put(blk);
      forall r | r in inflight ensures Sound(r) { assert old(Sound(r)); }
    }

    /** `processBlock`: the table is the value function's, and the block is back in the pool. */
    method ProcessBlock(blk: AuditBlock, now: int)
      requires Valid() && blk in pool.all && blk !in pool.ch && blk.Valid()
      modifies this, worker, pool`ch, pool`free, Touched(blk.RequestID)
      ensures Valid()
      ensures View() == Process(limits, old(View()), old(blk.View()), now, old(|worker.ch| < worker.cap))
      ensures pool.free == PutOne(pool.capacity, old(pool.free), blk.id)
      ensures old(worker.ch) <= worker.ch && old(worker.msgs) <= worker.msgs
    {
      HandleBlock(blk, now);
      GiveBack(blk);
    }

    method EvictStale(rid: nat)
      requires ValidTable() && ValidOut() && rid in inflight
      modifies this`inflight, this`inflightBytes, this`ended, this`owner, this`stale
      ensures ValidTable() && ValidOut() && View() == Evict(old(View()), rid)
    {
      Delete(rid, Stale);
      stale := stale + 1;
    }

    /** `sweepStale`: exactly the stale buffers go, each counted once. */
    method SweepStale(now: int) returns (ghost gone: seq<nat>)
      requires ValidTable() && ValidOut()
      modifies this`inflight, this`inflightBytes, this`ended, this`owner, this`stale
      ensures ValidTable() && ValidOut()
      ensures View() == EvictAll(old(View()), gone)
      ensures var m, m' := old(View()).inflight, View().inflight;
              && (forall r :: r in m' <==> r in m && now - m[r].lastSeen <= limits.timeout)
              && (forall r | r in m' :: m'[r] == m[r])
              && stale == old(stale) + |TooOld(limits, m, now)|
    {
      var todo := inflight.Keys;
      gone := [];
      ghost var before := View();
      while todo != {}
        invariant ValidTable() && ValidOut() && Sweeping(limits, before, View(), gone, todo, now)
        decreases todo
      {
        var id :| id in todo;
        SweepingNext(limits, before, View(), gone, todo, now, id);
        assert Sound(id);
        todo := todo - {id};
        if now - inflight[id].buf.lastSeen > limits.timeout {
          EvictStale(id);
          gone := gone + [id];
        }
      }
      SweepExactly(limits, before, View(), gone, now);
    }

    method Forget(rid: nat)
      requires ValidTable() && ValidOut() && rid in inflight
      modifies this`inflight, this`ended, this`owner
      ensures ValidTable() && ValidOut() && View() == ShutDown(old(View()), rid)
      ensures inflight == old(inflight) - {rid}
    {
      Remove(rid, Shutdown);
    }

    /** The eviction that follows the closing of the audit queue. */
    method EvictRemaining() returns (ghost gone: seq<nat>)
      requires ValidTable() && ValidOut()
      modifies this`inflight, this`ended, this`owner
      ensures ValidTable() && ValidOut()
      ensures inflight == map[] && View() == ShutDownAll(old(View()), gone)
    {
      gone := [];
      ghost var before := View();
      while inflight != map[]
        invariant ValidTable() && ValidOut() && View() == ShutDownAll(before, gone)
        decreases inflight.Keys
      {
        var id :| id in inflight;
        ShutDownAllAppend(before, gone, id);
        Forget(id);
        gone := gone + [id];
      }
    }

    method Overwrite(blk: AuditBlock, p: seq<byte>)
      requires ValidTable() && ValidOut() && blk.Valid() && blk.Data in pool.owner
      modifies blk`Used, blk`bytes, blk.Data
      ensures ValidTable() && ValidOut()
    {
      var n := blk.Write(p);
      forall r | r in inflight ensures Sound(r) { assert old(Sound(r)); }
    }

    /** One block is taken from the pool, filled and given back. */
    method Reuse(p: seq<byte>)
      requires Valid()
      modifies pool, pool.all, pool.owner.Keys
      ensures Valid() && View() == old(View())
      ensures worker.ch == old(worker.ch) && worker.msgs == old(worker.msgs)
    {
      var blk := pool.Get();
      if blk == null { return; }
      Overwrite(blk, p);
      GiveBack(blk);
    }

    /**
     Other readers at work: any number of rounds of taking a block from the
     pool, filling it and giving it back.  Whatever they write, the buffers and
     the payloads already dispatched keep their bytes.
     */
    method Recycle(rounds: seq<seq<byte>>)
      requires Valid()
      modifies pool, pool.all, pool.owner.Keys
      ensures Valid() && View() == old(View())
      ensures worker.ch == old(worker.ch) && worker.msgs == old(worker.msgs)
    {
      for i := 0 to |rounds|
        invariant Valid() && View() == old(View())
        invariant worker.ch == old(worker.ch) && worker.msgs == old(worker.msgs)
      {
        Reuse(rounds[i]);
      }
    }
  }
}
