/**
 `auditReader` on the heap.  Every call is shown to play a script of the
 reader protocol: the class's new state and the new contents of pool and queue
 are those of the machine in ReaderProtocol.dfy, for the answers that the pool
 and the queue really gave.
 */
module TeeReader {
  import opened Prelude
  import opened ReaderProtocol
  import opened Blocks

  /** What stays fixed during a call. */
  datatype Env = Env(bs: nat, cap: nat, qcap: nat, queueClosed: bool)

  /** The answers a pool and a queue give when nobody else runs. */
  predicate Honest(e: Env, w: World, o: Outcome) {
    match o
    case Got(id) => id in w.pool
    case Missed => w.pool == multiset{}
    case Sent => !e.queueClosed && |w.queue| < e.qcap
    case Refused => e.queueClosed || |w.queue| >= e.qcap
    case _ => true
  }

  /** One step of the protocol, with honest answers. */
  ghost predicate Does(e: Env, r: Reader, w: World, o: Outcome, r': Reader, w': World) {
    && Fits(e.bs, r) && Enabled(r, o) && Honest(e, w, o)
    && r' == Step(e.bs, r, o) && w' == StepWorld(e.cap, w, r, o)
  }

  ghost predicate Moves(e: Env, t: seq<(Reader, World)>, script: seq<Outcome>, k: nat)
    requires |t| == |script| + 1 && k < |script|
  {
    Does(e, t[k].0, t[k].1, script[k], t[k + 1].0, t[k + 1].1)
  }

  /** The states `t` that a script passes through. */
  ghost predicate Path(e: Env, t: seq<(Reader, World)>, script: seq<Outcome>) {
    |t| == |script| + 1 && forall k | 0 <= k < |script| :: Moves(e, t, script, k)
  }

  /** The script takes the reader and the shared state from (r, w) to (r', w'). */
  ghost predicate Plays(e: Env, r: Reader, w: World, script: seq<Outcome>, r': Reader, w': World) {
    exists t :: Path(e, t, script) && t[0] == (r, w) && Last(t) == (r', w')
  }

  lemma PlaysNothing(e: Env, r: Reader, w: World)
    ensures Plays(e, r, w, [], r, w)
  {
    assert Path(e, [(r, w)], []);
  }

  lemma {:induction false} PlaysOne(e: Env, r0: Reader, w0: World, s: seq<Outcome>, r: Reader, w: World, o: Outcome, r': Reader, w': World)
    requires Plays(e, r0, w0, s, r, w) && Does(e, r, w, o, r', w')
    ensures Plays(e, r0, w0, s + [o], r', w')
    ensures !r.pc.Idle? ==> Within(s, s + [o])
  {
    var t :| Path(e, t, s) && t[0] == (r0, w0) && Last(t) == (r, w);
    var t', s' := t + [(r', w')], s + [o];
    forall k | 0 <= k < |s'| ensures Moves(e, t', s', k) {
      if k < |s| {
        assert Moves(e, t, s, k);
        assert t'[k] == t[k] && t'[k + 1] == t[k + 1] && s'[k] == s[k];
      } else {
        assert t'[k] == (r, w) && t'[k + 1] == (r', w') && s'[k] == o;
      }
    }
    assert Path(e, t', s') && t'[0] == t[0];
  }

  /** A call's answers are those the scheduler of CaptureSystem.dfy may give as well. */
  lemma HonestIsPossible(e: Env, w: World, o: Outcome)
    requires Honest(e, w, o)
    ensures Possible(e.qcap, w, o) && (o.Sent? ==> !e.queueClosed)
  {
  }

  /** A whole call keeps the reader's invariant, as each of its steps does. */
  lemma CallKeepsInv(e: Env, r: Reader, w: World, script: seq<Outcome>, r': Reader, w': World)
    requires e.bs > 0 && Inv(e.bs, r) && Plays(e, r, w, script, r', w') && r'.acquired < SEQ_LIMIT
    requires script != [] && NoCalls(script, 1) && Silent(r, script[0])
    ensures Inv(e.bs, r')
  {
    var t :| Path(e, t, script) && t[0] == (r, w) && Last(t) == (r', w');
    PathKeepsInv(e, t, script, |script|);
  }

  lemma {:induction false} PathKeepsInv(e: Env, t: seq<(Reader, World)>, script: seq<Outcome>, n: nat)
    requires e.bs > 0 && Path(e, t, script) && n <= |script| && Inv(e.bs, t[0].0)
    requires t[n].0.acquired < SEQ_LIMIT
    requires NoCalls(script, 1) && (script != [] ==> Silent(t[0].0, script[0]))
    ensures Inv(e.bs, t[n].0)
  {
    if n > 0 {
      assert Moves(e, t, script, n - 1);
      StepGrows(e.bs, t[n - 1].0, script[n - 1]);
      PathKeepsInv(e, t, script, n - 1);
      StepInv(e.bs, t[n - 1].0, script[n - 1]);
    }
  }

  lemma StepGrows(bs: nat, r: Reader, o: Outcome)
    requires Fits(bs, r) && Enabled(r, o)
    ensures r.acquired <= Step(bs, r, o).acquired
  {
  }

  class AuditReader {
    const pool: BlockPool
    const drops: DropCounter?
    const queue: BlockQueue
    const requestID: nat
    var current: AuditBlock?
    var abandoned: bool
    var finalized: bool
    var closed: bool
    var seqNo: nat
    // history: bytes returned by Read, blocks enqueued, captures lost, blocks acquired
    ghost var read: seq<byte>
    ghost var sent: seq<Block>
    ghost var lost: nat
    ghost var acquired: nat
    ghost var others: nat          // drops that other readers recorded

    /** Pool, queue and the blocks in hand share nothing; the recorder has counted every lost capture. */
    ghost predicate Disjoint(mine: set<AuditBlock>)
      reads pool, queue, `lost, `others, drops
    {
      && pool.Valid() && Distinct(queue.ch) && Recorded()
      && (forall b | b in queue.ch :: b in pool.all && b !in pool.ch)
      && (forall b | b in mine :: b in pool.all && b !in pool.ch && b !in queue.ch)
    }

    ghost predicate Recorded()
      reads `lost, `others, drops
    {
      drops != null ==> drops.Total == others + lost
    }

    ghost predicate Apart(mine: set<AuditBlock>)
      reads pool, queue, `lost, `others, drops, mine, queue.ch, (set b | b in mine :: b.Data), (set b | b in queue.ch :: b.Data)
    {
      && Disjoint(mine) && queue.Intact()
      && (forall b | b in mine :: b.Valid())
    }

    ghost function Mine(): set<AuditBlock>
      reads this
    {
      if current == null then {} else {current}
    }

    /** Between two calls: everything apart, and a held block has room left. */
    ghost predicate Valid()
      reads this, pool, queue, drops, Mine(), queue.ch, (set b | b in Mine() :: b.Data), (set b | b in queue.ch :: b.Data)
    {
      Apart(Mine()) && (current != null ==> current.Used < pool.blockSize)
    }

    ghost function E(): Env
      reads queue
    {
      Env(pool.blockSize, pool.capacity, queue.cap, queue.closed)
    }

    /** The reader's own fields, without the block in hand. */
    ghost function Bare(): Reader
      reads this
    {
      Reader(requestID, None, abandoned, finalized, closed, seqNo, Idle, read, sent, lost, acquired)
    }

    ghost function View(pc: Pc): Reader
      reads this, Mine()
    {
      Bare().(current := if current == null then None else Some(current.View()), pc := pc)
    }

    ghost function Shared(): World
      reads pool, queue
    {
      World(pool.free, queue.msgs)
    }

    /** The blocks that a call may write to: the free ones and the one in hand. */
    ghost function Reach(): set<AuditBlock>
      reads this, pool
    {
      (set b | b in pool.ch) + Mine()
    }

    /** Nothing of anyone else's, `extra` aside, comes into hand, pool or queue; drops only add up. */
    twostate predicate Stays(extra: set<AuditBlock>)
      reads this, pool, queue
    {
      && old(lost) <= lost
      && Reach() <= old(Reach()) + extra
      && (forall b | b in queue.ch :: b in old(queue.ch) || b in old(Reach()) || b in extra)
    }

    constructor (pool: BlockPool, drops: DropCounter?, queue: BlockQueue, requestID: nat)
      ensures this.pool == pool && this.drops == drops && this.queue == queue && this.requestID == requestID
      ensures current == null && View(Idle) == NewReader(requestID) && Recorded()
    {
      this.pool, this.drops, this.queue, this.requestID := pool, drops, queue, requestID;
      current, abandoned, finalized, closed, seqNo := null, false, false, false, 0;
      read, sent, lost, acquired := [], [], 0, 0;
      others := if drops == null then 0 else drops.Total;
    }

    /** `sendBlock`. */
    method SendBlock(blk: AuditBlock) returns (ok: bool)
      requires Apart({blk})
      modifies this`sent, queue`ch, queue`msgs
      ensures ok == (!queue.closed && old(|queue.ch|) < queue.cap)
      ensures queue.ch == if ok then old(queue.ch) + [blk] else old(queue.ch)
      ensures if ok then Apart({}) else Apart({blk})
      ensures Shared() == if ok then old(Shared()).(queue := old(Shared()).queue + [blk.View()]) else old(Shared())
      ensures Bare() == if ok then Enqueued(old(Bare()), blk.View()) else old(Bare())
      ensures Stays({blk})
    {
      ok := queue.Offer(blk);
      if ok { sent := sent + [blk.View()]; }
    }

    /** Offer a block; if it is refused, it goes back to the pool. */
    method SendOrPut(blk: AuditBlock) returns (ok: bool)
      requires Apart({blk})
      modifies this`sent, queue`ch, queue`msgs, pool`ch, pool`free
      ensures ok == (!queue.closed && old(|queue.ch|) < queue.cap)
      ensures queue.ch == if ok then old(queue.ch) + [blk] else old(queue.ch)
      ensures pool.ch == if !ok && |old(pool.ch)| < pool.capacity then old(pool.ch) + [blk] else old(pool.ch)
      ensures Apart({})
      ensures Shared() == if ok then old(Shared()).(queue := old(Shared()).queue + [blk.View()])
                          else old(Shared()).(pool := PutOne(pool.capacity, old(Shared()).pool, blk.id))
      ensures Bare() == if ok then Enqueued(old(Bare()), blk.View()) else old(Bare())
      ensures Stays({blk})
    {
      ok := SendBlock(blk);
      if !ok { pool.Put(blk); }
    }

    /** The end of a lost capture: count the drop. */
    method RecordDrop()
      requires Apart({})
      modifies this`lost, drops
      ensures Apart({}) && Shared() == old(Shared())
      ensures Bare() == old(Bare()).(drops := old(lost) + 1)
      ensures drops != null ==> drops.Total == old(drops.Total) + 1
    {
      if drops != null { drops.Increment(); }
      lost := lost + 1;
    }

    /** Count the drop and take no more. */
    method Lose()
      requires Apart({}) && current == null
      modifies this`lost, this`abandoned, drops
      ensures Apart({}) && Shared() == old(Shared()) && Bare() == GiveUp(old(Bare()))
    {
      RecordDrop();
      abandoned := true;
    }

    /** Tag a block with the request and the next number, and hold it. */
    method Tag(blk: AuditBlock)
      requires Apart({blk}) && blk.View() == Fresh(blk.id, 0, 0)
      modifies this`current, this`seqNo, this`acquired, blk`RequestID, blk`Seq
      ensures current == blk && Apart({current}) && current.View() == Fresh(blk.id, requestID, old(seqNo))
      ensures Bare() == Adopt(old(Bare()), blk.id).(current := None) && Shared() == old(Shared())
    {
      blk.RequestID := requestID;
      blk.Seq := seqNo;
      seqNo := NextSeq(seqNo);
      acquired := acquired + 1;
      current := blk;
    }

    method MarkBlock(abort: bool)
      requires current != null && Apart({current})
      modifies current`Abort, current`Final
      ensures Apart({current}) && Bare() == old(Bare()) && Shared() == old(Shared())
      ensures current.View() == if abort then old(current.View()).(abort := true) else old(current.View()).(final := true)
    {
      if abort { current.Abort := true; } else { current.Final := true; }
    }

    /** Give the block in hand away: to the queue, or if that refuses, back to the pool. */
    method Surrender(abort: bool) returns (ok: bool, ghost o: Outcome, ghost b: Block)
      requires current != null && Apart({current})
      modifies this`current, this`sent, queue`ch, queue`msgs, pool`ch, pool`free, current`Abort, current`Final
      ensures Apart({}) && current == null
      ensures b == if abort then old(current.View()).(abort := true) else old(current.View()).(final := true)
      ensures o == (if ok then Sent else Refused) && Honest(E(), old(Shared()), o)
      ensures Bare() == if o.Sent? then Enqueued(old(Bare()), b) else old(Bare())
      ensures Shared() == After(old(Shared()), o, b)
      ensures Stays({})
    {
      MarkBlock(abort);
      b := current.View();
      ok, o := GiveAway();
    }

    method GiveAway() returns (ok: bool, ghost o: Outcome)
      requires current != null && Apart({current})
      modifies this`current, this`sent, queue`ch, queue`msgs, pool`ch, pool`free
      ensures Apart({}) && current == null
      ensures o == (if ok then Sent else Refused) && Honest(E(), old(Shared()), o)
      ensures Bare() == if o.Sent? then Enqueued(old(Bare()), old(current.View())) else old(Bare())
      ensures Shared() == After(old(Shared()), o, old(current.View()))
      ensures Stays({})
    {
      ok := SendOrPut(current);
      o := if ok then Sent else Refused;
      current := null;
    }

    /** `abandon` with a block in hand: offer it as an abort signal, else give it back; count one drop. */
    method AbandonHeld() returns (ghost o: Outcome, ghost b: Block)
      requires current != null && Apart({current})
      modifies this`current, this`abandoned, this`sent, this`lost, queue`ch, queue`msgs, pool`ch, pool`free
      modifies current`Abort, current`Final, drops
      ensures Apart({}) && current == null && b == old(current.View()).(abort := true)
      ensures (o.Sent? || o.Refused?) && Honest(E(), old(Shared()), o)
      ensures Bare() == GiveUp(if o.Sent? then Enqueued(old(Bare()), b) else old(Bare()))
      ensures Shared() == After(old(Shared()), o, b)
      ensures Stays({})
    {
      var ok;
      ok, o, b := Surrender(true);
      Lose();
    }

    /** The pool and the queue after one block was sent or, refused, put back. */
    ghost function After(w: World, o: Outcome, b: Block): World {
      if o.Sent? then w.(queue := w.queue + [b]) else w.(pool := PutOne(pool.capacity, w.pool, b.id))
    }

    ghost function Without(w: World, id: nat): World {
      w.(pool := w.pool - multiset{id})
    }

    /** Get a block and tag it; `current` is what the reader holds afterwards. */
    method Acquire() returns (ghost o: Outcome)
      requires current == null && Apart({})
      modifies this`current, this`seqNo, this`acquired
      modifies pool`ch, pool`free, pool`Exhaustions, pool.ch
      ensures (o.Got? || o.Missed?) && Honest(E(), old(Shared()), o) && (o.Got? <==> current != null)
      ensures o.Missed? ==> Apart({}) && Bare() == old(Bare()) && Shared() == old(Shared())
      ensures o.Got? ==>
                && current in old(pool.ch) && Apart({current}) && current.View() == Fresh(o.id, requestID, old(seqNo))
                && Bare() == Adopt(old(Bare()), o.id).(current := None)
                && Shared() == Without(old(Shared()), o.id)
      ensures Stays({})
    {
      var blk: AuditBlock?;
      blk, o := TryGet();
      if blk != null { Tag(blk); }
    }

    /** Get a second block while the full one is still in hand. */
    method Second() returns (next: AuditBlock?, ghost o: Outcome)
      requires current != null && Apart({current})
      modifies pool`ch, pool`free, pool`Exhaustions, pool.ch
      ensures (o.Got? || o.Missed?) && Honest(E(), old(Shared()), o) && (o.Got? <==> next != null)
      ensures Bare() == old(Bare()) && current.View() == old(current.View())
      ensures o.Missed? ==> Apart({current}) && Shared() == old(Shared())
      ensures o.Got? ==>
                && next in old(pool.ch) && Apart({current, next}) && next != current && next.View() == Fresh(o.id, 0, 0)
                && Shared() == Without(old(Shared()), o.id)
      ensures Stays({})
    {
      next := pool.Get();
      o := if next == null then Missed else Got(next.id);
    }

    /** The refused send in mid-stream: the second block goes back as well. */
    method GiveBack(next: AuditBlock)
      requires Apart({next})
      modifies this`current, this`abandoned, this`lost, pool`ch, pool`free, drops
      ensures current == null && Apart({}) && Bare() == GiveUp(old(Bare()))
      ensures Shared() == After(old(Shared()), Refused, Fresh(next.id, 0, 0))
      ensures Stays({next})
    {
      pool.Put(next);
      current := null;
      Lose();
    }

    /** Send the full block and go on with the next one; if refused, give both back and give up. */
    method SendFullBlock(next: AuditBlock) returns (ghost o: Outcome)
      requires current != null && next != current && Apart({current, next}) && next.View() == Fresh(next.id, 0, 0)
      requires pool.blockSize > 0 && !abandoned
      modifies this`current, this`seqNo, this`acquired, this`abandoned, this`sent, this`lost
      modifies queue`ch, queue`msgs, pool`ch, pool`free, next`RequestID, next`Seq, drops
      ensures (o.Sent? || o.Refused?) && Honest(E(), old(Shared()), o)
      ensures o.Sent? ==>
                && current == next && current.View() == Fresh(next.id, requestID, old(seqNo))
                && Bare() == Adopt(Enqueued(old(Bare()), old(current.View())), next.id).(current := None)
      ensures o.Refused? ==> current == null && Bare() == GiveUp(old(Bare()))
      ensures Shared() == if o.Sent? then After(old(Shared()), o, old(current.View()))
                          else After(After(old(Shared()), o, old(current.View())), o, Fresh(next.id, 0, 0))
      ensures (abandoned <==> o.Refused?) && Valid() && Stays({next})
    {
      var ok;
      ok, o := SendHeld(next);
      if ok { Tag(next); } else { GiveBack(next); }
    }

    method SendHeld(next: AuditBlock) returns (ok: bool, ghost o: Outcome)
      requires current != null && next != current && Apart({current, next})
      modifies this`sent, queue`ch, queue`msgs, pool`ch, pool`free
      ensures o == (if ok then Sent else Refused) && Honest(E(), old(Shared()), o) && Apart({next})
      ensures Bare() == if o.Sent? then Enqueued(old(Bare()), current.View()) else old(Bare())
      ensures Shared() == After(old(Shared()), o, current.View())
      ensures Stays({next})
    {
      ok := SendOrPut(current);
      o := if ok then Sent else Refused;
    }

    method AcquireOrLose(ghost pc: Pc) returns (ghost o: Outcome)
      requires current == null && Apart({})
      modifies this`current, this`seqNo, this`acquired, this`abandoned, this`lost
      modifies pool`ch, pool`free, pool`Exhaustions, pool.ch, drops
      ensures (o.Got? || o.Missed?) && Honest(E(), old(Shared()), o) && (o.Got? <==> current != null)
      ensures o.Missed? ==> Apart({}) && View(Idle) == GiveUp(old(View(pc))) && Shared() == old(Shared())
      ensures o.Got? ==>
                && current in old(pool.ch) && Apart({current}) && current.Used == 0
                && View(pc) == Adopt(old(View(pc)), o.id) && Shared() == Without(old(Shared()), o.id)
      ensures Stays({})
    {
      o := Acquire();
      if current == null {
        Lose();
        assert View(Idle) == Bare();
      } else {
        assert View(pc) == Bare().(current := Some(current.View()), pc := pc);
      }
    }

    // ---- the calls: each one extends the script `s0` that led from (r, w) to here ----

    /** Loop head: hold a block, or give up. */
    method EnsureBlock(ghost todo: seq<byte>, ghost eof: bool, ghost r: Reader, ghost w: World, ghost s0: seq<Outcome>)
      returns (ghost s: seq<Outcome>)
      requires Valid() && current == null && !abandoned && todo != [] && pool.blockSize > 0
      requires Plays(E(), r, w, s0, View(Pc.Capture(todo, eof)), Shared())
      modifies this`current, this`seqNo, this`acquired, this`abandoned, this`lost
      modifies pool`ch, pool`free, pool`Exhaustions, pool.ch, drops
      ensures Valid() && (abandoned <==> current == null) && (current != null ==> current in old(pool.ch))
      ensures Within(s0, s)
      ensures Plays(E(), r, w, s, View(if abandoned then Idle else Pc.Capture(todo, eof)), Shared())
      ensures Stays({})
    {
      ghost var r1, w1 := View(Pc.Capture(todo, eof)), Shared();
      ghost var o := AcquireOrLose(Pc.Capture(todo, eof));
      GetPlays(E(), r, w, s0, r1, w1, o);
      s := s0 + [o];
    }

    /** Copy what fits into the block in hand. */
    method CopyBytes(todo: seq<byte>, ghost eof: bool, ghost r: Reader, ghost w: World, ghost s0: seq<Outcome>)
      returns (rest: seq<byte>, ghost s: seq<Outcome>)
      requires Valid() && current != null && todo != []
      requires Plays(E(), r, w, s0, View(Pc.Capture(todo, eof)), Shared())
      modifies current`Used, current`bytes, current.Data
      ensures Apart({current}) && |rest| < |todo| && current.Used <= pool.blockSize
      ensures current.Used < pool.blockSize ==> rest == []
      ensures Bare() == old(Bare()) && Shared() == old(Shared()) && Within(s0, s)
      ensures Plays(E(), r, w, s, View(Filled(pool.blockSize, current.Used, rest, eof)), Shared())
      ensures Stays({})
    {
      ghost var r1, w1 := View(Pc.Capture(todo, eof)), Shared();
      var n := current.Write(todo);
      rest := todo[n..];
      CopyPlays(E(), r, w, s0, r1, w1);
      s := s0 + [Local];
    }

    /** The abort signal. */
    method PlayAbandon(ghost r: Reader, ghost w: World, ghost s0: seq<Outcome>) returns (ghost s: seq<Outcome>)
      requires current != null && Apart({current}) && current.Used <= pool.blockSize
      requires Plays(E(), r, w, s0, MarkAbort(View(Idle)), Shared())
      modifies this`current, this`abandoned, this`sent, this`lost, queue`ch, queue`msgs, pool`ch, pool`free
      modifies current`Abort, current`Final, drops
      ensures abandoned && current == null && Valid() && Within(s0, s)
      ensures Plays(E(), r, w, s, View(Idle), Shared())
      ensures Stays({})
    {
      ghost var r1, w1 := MarkAbort(View(Idle)), Shared();
      ghost var o, b := AbandonHeld();
      AbortPlays(E(), r, w, s0, r1, w1, o);
      s := s0 + [o];
    }

    /** The send of a full block with the next one in hand. */
    method PlaySendFull(next: AuditBlock, ghost todo: seq<byte>, ghost eof: bool,
                        ghost r: Reader, ghost w: World, ghost s0: seq<Outcome>)
      returns (ghost s: seq<Outcome>)
      requires current != null && next != current && Apart({current, next}) && next.View() == Fresh(next.id, 0, 0)
      requires current.Used <= pool.blockSize && pool.blockSize > 0 && !abandoned
      requires Plays(E(), r, w, s0, View(Pc.SendFull(todo, eof, next.View())), Shared())
      modifies this`current, this`seqNo, this`acquired, this`abandoned, this`sent, this`lost
      modifies queue`ch, queue`msgs, pool`ch, pool`free, next`RequestID, next`Seq, drops
      ensures (abandoned <==> current == null) && Valid() && Within(s0, s)
      ensures Plays(E(), r, w, s, View(if abandoned then Idle else Pc.Capture(todo, eof)), Shared())
      ensures Stays({next})
    {
      ghost var r1, w1 := View(Pc.SendFull(todo, eof, next.View())), Shared();
      ghost var o := SendFullBlock(next);
      FullPlays(E(), r, w, s0, r1, w1, o, View(if abandoned then Idle else Pc.Capture(todo, eof)), Shared());
      s := s0 + [o];
    }

    /** Block full, data left: get the next block first, then send the full one. */
    method MidStream(ghost todo: seq<byte>, ghost eof: bool, ghost r: Reader, ghost w: World, ghost s0: seq<Outcome>)
      returns (ghost s: seq<Outcome>)
      requires current != null && Apart({current}) && current.Used <= pool.blockSize && pool.blockSize > 0 && !abandoned
      requires Plays(E(), r, w, s0, View(Pc.Extend(todo, eof)), Shared())
      modifies this`current, this`seqNo, this`acquired, this`abandoned, this`sent, this`lost
      modifies queue`ch, queue`msgs, pool`ch, pool`free, pool`Exhaustions, pool.ch
      modifies current`Abort, current`Final, drops
      ensures (abandoned <==> current == null) && Valid() && Within(s0, s)
      ensures Plays(E(), r, w, s, View(if abandoned then Idle else Pc.Capture(todo, eof)), Shared())
      ensures Stays({})
    {
      ghost var r1, w1 := View(Pc.Extend(todo, eof)), Shared();
      var next: AuditBlock?;
      ghost var o;
      next, o := Second();
      ExtendPlays(E(), r, w, s0, r1, w1, o);
      s := s0 + [o];
      if next == null {
        s := PlayAbandon(r, w, s);
      } else {
        s := PlaySendFull(next, todo, eof, r, w, s);
      }
    }

    method SendEdgeBlock() returns (ghost o: Outcome)
      requires current != null && Apart({current})
      modifies this`current, this`sent, queue`ch, queue`msgs
      ensures (o.Sent? || o.Refused?) && Honest(E(), old(Shared()), o)
      ensures o.Sent? ==>
                && current == null && Apart({}) && Bare() == Enqueued(old(Bare()), old(current.View()))
                && Shared() == old(Shared()).(queue := old(Shared()).queue + [old(current.View())])
      ensures o.Refused? ==>
                current == old(current) && Apart({current}) && Bare() == old(Bare()) && Shared() == old(Shared())
      ensures Stays({})
    {
      var ok := SendBlock(current);
      o := if ok then Sent else Refused;
      if ok { current := null; }
    }

    /** Block full, data used up: send it; if that is refused, offer it again as an abort signal. */
    method AtEdge(ghost eof: bool, ghost r: Reader, ghost w: World, ghost s0: seq<Outcome>) returns (ghost s: seq<Outcome>)
      requires current != null && Apart({current}) && current.Used <= pool.blockSize && !abandoned
      requires Plays(E(), r, w, s0, View(SendEdge(eof)), Shared())
      modifies this`current, this`abandoned, this`sent, this`lost, queue`ch, queue`msgs, pool`ch, pool`free
      modifies current`Abort, current`Final, drops
      ensures current == null && Valid() && Within(s0, s)
      ensures Plays(E(), r, w, s, View(if abandoned then Idle else Pc.Capture([], eof)), Shared())
      ensures Stays({})
    {
      ghost var r1, w1 := View(SendEdge(eof)), Shared();
      ghost var o := SendEdgeBlock();
      EdgePlays(E(), r, w, s0, r1, w1, o);
      s := s0 + [o];
      if current != null {
        s := PlayAbandon(r, w, s);
      }
    }

    /** What happens to a block after bytes were copied into it. */
    method AfterCopy(rest: seq<byte>, ghost eof: bool, ghost r: Reader, ghost w: World, ghost s0: seq<Outcome>)
      returns (ghost s: seq<Outcome>)
      requires current != null && Apart({current}) && current.Used <= pool.blockSize && pool.blockSize > 0 && !abandoned
      requires current.Used < pool.blockSize ==> rest == []
      requires Plays(E(), r, w, s0, View(Filled(pool.blockSize, current.Used, rest, eof)), Shared())
      modifies this`current, this`seqNo, this`acquired, this`abandoned, this`sent, this`lost
      modifies queue`ch, queue`msgs, pool`ch, pool`free, pool`Exhaustions, pool.ch
      modifies current`Abort, current`Final, drops
      ensures Valid() && (abandoned ==> current == null) && Within(s0, s)
      ensures Plays(E(), r, w, s, View(if abandoned then Idle else Pc.Capture(rest, eof)), Shared())
      ensures Stays({})
    {
      s := s0;
      if current.Remaining() == 0 {
        if rest != [] {
          s := MidStream(rest, eof, r, w, s);
        } else {
          s := AtEdge(eof, r, w, s);
        }
      }
    }

    /** One pass of the capture loop takes at least one byte off `todo`, or gives up. */
    method CapturePass(todo: seq<byte>, ghost eof: bool, ghost r: Reader, ghost w: World, ghost s0: seq<Outcome>)
      returns (rest: seq<byte>, ghost s: seq<Outcome>)
      requires Valid() && !abandoned && pool.blockSize > 0 && todo != []
      requires Plays(E(), r, w, s0, View(Pc.Capture(todo, eof)), Shared())
      modifies this`current, this`seqNo, this`acquired, this`abandoned, this`sent, this`lost
      modifies queue`ch, queue`msgs, pool`ch, pool`free, pool`Exhaustions, Reach(), (set b | b in Reach() :: b.Data), drops
      ensures Valid() && |rest| < |todo| && Within(s0, s) && (abandoned ==> current == null)
      ensures Plays(E(), r, w, s, View(if abandoned then Idle else Pc.Capture(rest, eof)), Shared())
      ensures Stays({})
    {
      s := s0;
      if current == null {
        s := EnsureBlock(todo, eof, r, w, s);
        if abandoned { return todo[1..], s; }
      }
      rest, s := CopyBytes(todo, eof, r, w, s);
      s := AfterCopy(rest, eof, r, w, s);
    }

    /** `capture`: until the data is used up or the capture given up. */
    method Capture(data: seq<byte>, ghost eof: bool, ghost r: Reader, ghost w: World, ghost s0: seq<Outcome>)
      returns (ghost s: seq<Outcome>)
      requires Valid() && !abandoned && pool.blockSize > 0
      requires Plays(E(), r, w, s0, View(Pc.Capture(data, eof)), Shared())
      modifies this`current, this`seqNo, this`acquired, this`abandoned, this`sent, this`lost
      modifies queue`ch, queue`msgs, pool`ch, pool`free, pool`Exhaustions, Reach(), (set b | b in Reach() :: b.Data), drops
      ensures Valid() && Within(s0, s) && (abandoned ==> current == null)
      ensures Plays(E(), r, w, s, View(if abandoned then Idle else Pc.Capture([], eof)), Shared())
      ensures Stays({})
    {
      s := s0;
      var rest := data;
      while rest != []
        invariant Valid() && !abandoned && Within(s0, s) && Stays({})
        invariant Plays(E(), r, w, s, View(Pc.Capture(rest, eof)), Shared())
        decreases |rest|
      {
        rest, s := CapturePass(rest, eof, r, w, s);
        if abandoned { return; }
      }
    }

    /** The empty final block: send it, or give it back and give up. */
    method PlaySentinel(blk: AuditBlock, ghost r: Reader, ghost w: World, ghost s0: seq<Outcome>)
      returns (ghost s: seq<Outcome>)
      requires current == null && Apart({blk}) && !abandoned
      requires Plays(E(), r, w, s0, View(Pc.SendSentinel(blk.View())), Shared())
      modifies this`abandoned, this`sent, this`lost, queue`ch, queue`msgs, pool`ch, pool`free, drops
      ensures current == null && Valid() && Within(s0, s)
      ensures Plays(E(), r, w, s, View(Idle), Shared())
      ensures Stays({blk})
    {
      ghost var r1, w1 := View(Pc.SendSentinel(blk.View())), Shared();
      ghost var o := SendSentinelBlock(blk);
      SentinelPlays(E(), r, w, s0, r1, w1, o);
      s := s0 + [o];
    }

    method SendSentinelBlock(blk: AuditBlock) returns (ghost o: Outcome)
      requires current == null && Apart({blk})
      modifies this`abandoned, this`sent, this`lost, queue`ch, queue`msgs, pool`ch, pool`free, drops
      ensures (o.Sent? || o.Refused?) && Honest(E(), old(Shared()), o) && Apart({})
      ensures Bare() == if o.Sent? then Enqueued(old(Bare()), old(blk.View())) else GiveUp(old(Bare()))
      ensures Shared() == After(old(Shared()), o, old(blk.View()))
      ensures Stays({blk})
    {
      var ok := SendOrPut(blk);
      o := if ok then Sent else Refused;
      if !ok { Lose(); }
    }

    /** The block in hand, sent as the final one; a refusal counts a drop but does not abandon. */
    method PlayFinal(ghost r: Reader, ghost w: World, ghost s0: seq<Outcome>) returns (ghost s: seq<Outcome>)
      requires current != null && Apart({current}) && finalized && !abandoned && current.Used <= pool.blockSize
      requires Plays(E(), r, w, s0, MarkFinal(View(Idle)), Shared())
      modifies this`current, this`sent, this`lost, queue`ch, queue`msgs, pool`ch, pool`free
      modifies current`Abort, current`Final, drops
      ensures current == null && Valid() && Within(s0, s)
      ensures Plays(E(), r, w, s, View(Idle), Shared())
      ensures Stays({})
    {
      ghost var r1, w1 := MarkFinal(View(Idle)), Shared();
      ghost var o := SendFinalBlock();
      FinalPlays(E(), r, w, s0, r1, w1, o);
      s := s0 + [o];
    }

    method SendFinalBlock() returns (ghost o: Outcome)
      requires current != null && Apart({current})
      modifies this`current, this`sent, this`lost, queue`ch, queue`msgs, pool`ch, pool`free
      modifies current`Abort, current`Final, drops
      ensures current == null && Apart({}) && (o.Sent? || o.Refused?) && Honest(E(), old(Shared()), o)
      ensures var b := old(current.View()).(final := true);
              && View(Idle) == (if o.Sent? then Enqueued(old(Bare()), b) else old(Bare()).(drops := old(lost) + 1))
              && Shared() == After(old(Shared()), o, b)
      ensures Stays({})
    {
      ghost var b;
      var ok;
      ok, o, b := Surrender(false);
      if !ok { RecordDrop(); }
      assert View(Idle) == Bare();
    }

    method TagSentinel(blk: AuditBlock)
      requires Apart({blk}) && blk.View() == Fresh(blk.id, 0, 0)
      modifies blk`RequestID, blk`Seq, blk`Final
      ensures Apart({blk}) && blk.View() == Fresh(blk.id, requestID, seqNo).(final := true)
      ensures Bare() == old(Bare()) && Shared() == old(Shared())
    {
      blk.RequestID := requestID;
      blk.Seq := seqNo;
      blk.Final := true;
    }

    /** A free block, or null. */
    method TryGet() returns (blk: AuditBlock?, ghost o: Outcome)
      requires Apart({})
      modifies pool`ch, pool`free, pool`Exhaustions, pool.ch
      ensures Bare() == old(Bare()) && (o.Got? || o.Missed?) && Honest(E(), old(Shared()), o) && (o.Got? <==> blk != null)
      ensures blk == null ==> Apart({}) && Shared() == old(Shared())
      ensures blk != null ==> blk in old(pool.ch) && Apart({blk}) && blk.View() == Fresh(o.id, 0, 0)
      ensures blk != null ==> Shared() == Without(old(Shared()), o.id)
      ensures Stays({})
    {
      blk := pool.Get();
      o := if blk == null then Missed else Got(blk.id);
    }

    /** The empty final block is acquired, tagged and sent. */
    method FinishWithSentinel(ghost r: Reader, ghost w: World, ghost s0: seq<Outcome>) returns (ghost s: seq<Outcome>)
      requires current == null && Apart({}) && !abandoned
      requires Plays(E(), r, w, s0, View(Sentinel), Shared())
      modifies this`abandoned, this`sent, this`lost
      modifies queue`ch, queue`msgs, pool`ch, pool`free, pool`Exhaustions, pool.ch, drops
      ensures current == null && Valid() && Within(s0, s)
      ensures Plays(E(), r, w, s, View(Idle), Shared())
      ensures Stays({})
    {
      ghost var r1, w1 := View(Sentinel), Shared();
      var blk: AuditBlock?;
      ghost var o;
      blk, o := TryGet();
      SentinelGetPlays(E(), r, w, s0, r1, w1, o);
      s := s0 + [o];
      if blk == null {
        Lose();
      } else {
        TagSentinel(blk);
        s := PlaySentinel(blk, r, w, s);
      }
    }

    /** `finish`, which the script has entered. */
    method Finish(ghost r: Reader, ghost w: World, ghost s0: seq<Outcome>) returns (ghost s: seq<Outcome>)
      requires Valid() && !abandoned && Plays(E(), r, w, s0, StartFinish(View(Idle)), Shared())
      modifies this`current, this`abandoned, this`finalized, this`sent, this`lost
      modifies queue`ch, queue`msgs, pool`ch, pool`free, pool`Exhaustions, pool.ch
      modifies Mine()`Abort, Mine()`Final, drops
      ensures Valid() && finalized && Within(s0, s)
      ensures Plays(E(), r, w, s, View(Idle), Shared())
      ensures Stays({})
    {
      s := s0;
      if finalized { return; }
      finalized := true;
      if current == null {
        if seqNo == 0 { return; }
        s := FinishWithSentinel(r, w, s);
      } else {
        s := PlayFinal(r, w, s);
      }
    }

    /** The rest of `Read` once `capture` has used up the data. */
    method AfterCapture(eof: bool, ghost r: Reader, ghost w: World, ghost s0: seq<Outcome>) returns (ghost s: seq<Outcome>)
      requires Valid() && !abandoned && Plays(E(), r, w, s0, View(Pc.Capture([], eof)), Shared())
      modifies this`current, this`abandoned, this`finalized, this`sent, this`lost
      modifies queue`ch, queue`msgs, pool`ch, pool`free, pool`Exhaustions, pool.ch
      modifies Mine()`Abort, Mine()`Final, drops
      ensures Valid() && Within(s0, s)
      ensures Plays(E(), r, w, s, View(Idle), Shared())
      ensures Stays({})
    {
      LeavePlays(E(), r, w, s0, View(Pc.Capture([], eof)), Shared());
      s := s0 + [Local];
      if eof { s := Finish(r, w, s); }
    }

    /** `capture` and, if the source has ended, `finish`. */
    method CaptureAll(data: seq<byte>, eof: bool, ghost r: Reader, ghost w: World, ghost s0: seq<Outcome>)
      returns (ghost s: seq<Outcome>)
      requires Valid() && !abandoned && pool.blockSize > 0
      requires Plays(E(), r, w, s0, View(Pc.Capture(data, eof)), Shared())
      modifies this`current, this`seqNo, this`acquired, this`abandoned, this`finalized, this`sent, this`lost
      modifies queue`ch, queue`msgs, pool`ch, pool`free, pool`Exhaustions, Reach(), (set b | b in Reach() :: b.Data), drops
      ensures Valid() && Within(s0, s)
      ensures Plays(E(), r, w, s, View(Idle), Shared())
      ensures Stays({})
    {
      s := Capture(data, eof, r, w, s0);
      if !abandoned { s := AfterCapture(eof, r, w, s); }
    }

    /** `Read`, given what the source returned; the caller sees just that. */
    method Read(data: seq<byte>, eof: bool) returns (n: nat, atEof: bool, ghost s: seq<Outcome>)
      requires Valid() && pool.blockSize > 0
      modifies this`current, this`seqNo, this`acquired, this`abandoned, this`finalized, this`sent, this`lost, this`read
      modifies queue`ch, queue`msgs, pool`ch, pool`free, pool`Exhaustions, Reach(), (set b | b in Reach() :: b.Data), drops
      ensures n == |data| && atEof == eof
      ensures Valid() && s != [] && s[0] == CallRead(data, eof) && NoCalls(s, 1)
      ensures Plays(E(), old(View(Idle)), old(Shared()), s, View(Idle), Shared())
      ensures Stays({})
    {
      n, atEof := |data|, eof;
      ghost var r, w := View(Idle), Shared();
      ReadPlays(E(), r, w, data, eof);
      s := [CallRead(data, eof)];
      read := read + data;
      if |data| > 0 && !abandoned {
        s := CaptureAll(data, eof, r, w, s);
      } else if eof && !abandoned {
        s := Finish(r, w, s);
      }
    }

    /** Takes in what other readers have recorded meanwhile. */
    ghost method NoticeDrops()
      requires drops != null ==> drops.Total >= lost
      modifies this`others
      ensures Recorded()
    {
      if drops != null { others := drops.Total - lost; }
    }

    /** The block in hand, if there is one, goes back to the pool. */
    method PutHeld()
      requires Valid()
      modifies this`current, pool`ch, pool`free
      ensures Valid() && View(Idle) == old(View(Idle)).(current := None)
      ensures Shared() == if old(current) == null then old(Shared()) else After(old(Shared()), Refused, old(current.View()))
      ensures Stays({})
    {
      if current != null { pool.Put(current); }
      current := null;
      assert View(Idle) == Bare();
    }

    /** `Close`: once; finishes a capture that is still going on. */
    method Close() returns (ghost s: seq<Outcome>)
      requires Valid()
      modifies this`current, this`abandoned, this`finalized, this`closed, this`sent, this`lost
      modifies queue`ch, queue`msgs, pool`ch, pool`free, pool`Exhaustions, pool.ch
      modifies Mine()`Abort, Mine()`Final, drops
      ensures Valid() && closed && s != [] && s[0] == CallClose && NoCalls(s, 1)
      ensures Plays(E(), old(View(Idle)), old(Shared()), s, View(Idle), Shared())
      ensures Stays({})
    {
      ghost var r, w := View(Idle), Shared();
      ClosePlays(E(), r, w);
      s := [CallClose];
      if closed { return; }
      MarkClosed();
      s := FinishOrRelease(r, w, s);
    }

    method MarkClosed()
      requires Valid()
      modifies this`closed
      ensures Valid() && closed && View(Idle) == old(View(Idle)).(closed := true) && Shared() == old(Shared())
      ensures Stays({})
    {
      closed := true;
    }

    /** What the first `Close` does with a capture that goes on, or with the block of one given up. */
    method FinishOrRelease(ghost r: Reader, ghost w: World, ghost s0: seq<Outcome>) returns (ghost s: seq<Outcome>)
      requires Valid()
      requires !abandoned ==> Plays(E(), r, w, s0, StartFinish(View(Idle)), Shared())
      requires abandoned ==>
                 Plays(E(), r, w, s0, View(Idle).(current := None),
                       if current == null then Shared() else After(Shared(), Refused, current.View()))
      modifies this`current, this`abandoned, this`finalized, this`sent, this`lost
      modifies queue`ch, queue`msgs, pool`ch, pool`free, pool`Exhaustions, pool.ch
      modifies Mine()`Abort, Mine()`Final, drops
      ensures Valid() && Within(s0, s)
      ensures Plays(E(), r, w, s, View(Idle), Shared())
      ensures Stays({})
    {
      s := s0;
      if !abandoned { s := Finish(r, w, s); } else { PutHeld(); }
    }
  }

  // ---- two readers on one pool ----

  /** Both readers are between calls on the same pool, queue and recorder, and hold different blocks. */
  ghost predicate SideBySide(a: AuditReader, b: AuditReader)
    reads a, b
  {
    && a != b && a.pool == b.pool && a.queue == b.queue && a.drops == b.drops
    && (a.current != null ==> a.current != b.current)
  }

  /** What one reader may write to is not in the other's hand. */
  lemma OutOfReach(a: AuditReader, b: AuditReader)
    requires SideBySide(a, b) && a.Disjoint(a.Mine()) && b.Disjoint(b.Mine()) && b.current != null
    ensures b.current !in a.Reach() && forall x | x in a.Reach() :: x.Data != b.current.Data
  {
  }

  /** Where the other reader stands after a call that brought only `reach` into hand, pool and queue. */
  lemma StillDisjoint(a: AuditReader, b: AuditReader, reach: set<AuditBlock>, queued: seq<AuditBlock>)
    requires a != b && a.pool == b.pool && a.queue == b.queue && a.drops == b.drops
    requires a.Disjoint(a.Mine()) && b.Recorded() && a.Reach() <= reach
    requires forall x | x in a.queue.ch :: x in queued || x in reach
    requires b.current != null ==> b.current in b.pool.all && b.current !in reach && b.current !in queued
    ensures SideBySide(a, b) && b.Disjoint(b.Mine())
  {
  }

  /** The call itself: the other's block is not touched. */
  method ReadApart(a: AuditReader, b: AuditReader, data: seq<byte>, eof: bool) returns (ghost s: seq<Outcome>)
    requires SideBySide(a, b) && a.Valid() && b.Valid()
    modifies a`current, a`seqNo, a`acquired, a`abandoned, a`finalized, a`sent, a`lost, a`read
    modifies a.queue`ch, a.queue`msgs, a.pool`ch, a.pool`free, a.pool`Exhaustions, a.drops
    modifies a.Reach(), (set x | x in a.Reach() :: x.Data)
    ensures a.Valid() && a.Stays({}) && (b.drops != null ==> b.drops.Total >= b.lost)
    ensures Plays(a.E(), old(a.View(Idle)), old(a.Shared()), s, a.View(Idle), a.Shared())
    ensures b.Bare() == old(b.Bare()) && b.current == old(b.current)
    ensures b.current != null ==> b.current.View() == old(b.current.View()) && b.current.Valid()
    ensures b.View(Idle) == old(b.View(Idle))
  {
    if b.current != null { OutOfReach(a, b); }
    var n, atEof;
    n, atEof, s := a.Read(data, eof);
  }

  /** The other reader takes in what was recorded, and all is well again. */
  ghost method CatchUp(a: AuditReader, b: AuditReader, reach: set<AuditBlock>, queued: seq<AuditBlock>)
    requires a != b && a.pool == b.pool && a.queue == b.queue && a.drops == b.drops
    requires a.Valid() && (b.drops != null ==> b.drops.Total >= b.lost) && a.Reach() <= reach
    requires forall x | x in a.queue.ch :: x in queued || x in reach
    requires b.current != null ==>
               && b.current in b.pool.all && b.current !in reach && b.current !in queued
               && b.current.Valid() && b.current.Used < b.pool.blockSize
    modifies b`others
    ensures SideBySide(a, b) && a.Valid() && b.Valid()
    ensures b.View(Idle) == old(b.View(Idle)) && a.View(Idle) == old(a.View(Idle))
  {
    b.NoticeDrops();
    StillDisjoint(a, b, reach, queued);
  }

  /** A call of one reader leaves the other's block, and all it knows, as they were. */
  method ReadBeside(a: AuditReader, b: AuditReader, data: seq<byte>, eof: bool) returns (ghost s: seq<Outcome>)
    requires SideBySide(a, b) && a.Valid() && b.Valid()
    modifies a`current, a`seqNo, a`acquired, a`abandoned, a`finalized, a`sent, a`lost, a`read, b`others
    modifies a.queue`ch, a.queue`msgs, a.pool`ch, a.pool`free, a.pool`Exhaustions, a.drops
    modifies a.Reach(), (set x | x in a.Reach() :: x.Data)
    ensures SideBySide(a, b) && a.Valid() && b.Valid()
    ensures b.View(Idle) == old(b.View(Idle))
    ensures Plays(a.E(), old(a.View(Idle)), old(a.Shared()), s, a.View(Idle), a.Shared())
  {
    if b.current != null { OutOfReach(a, b); }
    ghost var reach, queued := a.Reach(), a.queue.ch;
    s := ReadApart(a, b, data, eof);
    CatchUp(a, b, reach, queued);
  }

  // ---- the protocol's steps, with their results spelled out ----

  function Filled(bs: nat, used: nat, rest: seq<byte>, eof: bool): Pc {
    if used < bs then Pc.Capture(rest, eof) else if rest != [] then Pc.Extend(rest, eof) else SendEdge(eof)
  }

  function MarkFinal(r: Reader): Reader
    requires r.current.Some?
  {
    r.(finalized := true, current := Some(r.current.value.(final := true)), pc := SendFinal)
  }

  /** The script `s` extends `s0` by answers only: it starts with the same call and adds no other. */
  predicate Within(s0: seq<Outcome>, s: seq<Outcome>) {
    s0 != [] ==> s != [] && s[0] == s0[0] && (NoCalls(s0, 1) ==> NoCalls(s, 1))
  }

  predicate NoCalls(s: seq<Outcome>, from: nat) {
    forall k | from <= k < |s| :: !s[k].CallRead? && !s[k].CallClose?
  }

  lemma PutsOne(cap: nat, pool: multiset<nat>, a: nat)
    ensures PutAll(cap, pool, [a]) == PutOne(cap, pool, a)
  {
    assert [a][1..] == [];
  }

  lemma PutsTwo(cap: nat, pool: multiset<nat>, a: nat, b: nat)
    ensures PutAll(cap, pool, [a, b]) == PutOne(cap, PutOne(cap, pool, a), b)
  {
    assert [a, b][1..] == [b];
    PutsOne(cap, PutOne(cap, pool, a), b);
  }

  lemma ReadPlays(e: Env, r: Reader, w: World, data: seq<byte>, eof: bool)
    requires r.pc.Idle? && Fits(e.bs, r)
    ensures var r1 := r.(read := r.read + data);
            Plays(e, r, w, [CallRead(data, eof)],
                  if data != [] && !r.abandoned then r1.(pc := Pc.Capture(data, eof))
                  else if eof && !r.abandoned then StartFinish(r1) else r1, w)
  {
    PlaysNothing(e, r, w);
    var o := CallRead(data, eof);
    assert [] + [o] == [o];
    PlaysOne(e, r, w, [], r, w, o, Step(e.bs, r, o), w);
  }

  lemma ClosePlays(e: Env, r: Reader, w: World)
    requires r.pc.Idle? && Fits(e.bs, r)
    ensures r.closed ==> Plays(e, r, w, [CallClose], r, w)
    ensures !r.closed && !r.abandoned ==> Plays(e, r, w, [CallClose], StartFinish(r.(closed := true)), w)
    ensures !r.closed && r.abandoned ==>
              Plays(e, r, w, [CallClose], r.(closed := true, current := None),
                    if r.current.Some? then w.(pool := PutOne(e.cap, w.pool, r.current.value.id)) else w)
  {
    PlaysNothing(e, r, w);
    assert [] + [CallClose] == [CallClose];
    if r.current.Some? { PutsOne(e.cap, w.pool, r.current.value.id); }
    PlaysOne(e, r, w, [], r, w, CallClose, Step(e.bs, r, CallClose), StepWorld(e.cap, w, r, CallClose));
  }

  lemma LeavePlays(e: Env, r0: Reader, w0: World, s: seq<Outcome>, r: Reader, w: World)
    requires Plays(e, r0, w0, s, r, w) && r.pc.Capture? && r.pc.todo == [] && Fits(e.bs, r)
    ensures Within(s, s + [Local])
    ensures Plays(e, r0, w0, s + [Local], if r.pc.eof then StartFinish(r) else r.(pc := Idle), w)
  {
    PlaysOne(e, r0, w0, s, r, w, Local, Step(e.bs, r, Local), w);
  }

  lemma GetPlays(e: Env, r0: Reader, w0: World, s: seq<Outcome>, r: Reader, w: World, o: Outcome)
    requires Plays(e, r0, w0, s, r, w) && r.pc.Capture? && r.pc.todo != [] && r.current.None?
    requires (o.Got? || o.Missed?) && Honest(e, w, o)
    ensures Within(s, s + [o])
    ensures Plays(e, r0, w0, s + [o], if o.Got? then Adopt(r, o.id) else GiveUp(r),
                  if o.Got? then w.(pool := w.pool - multiset{o.id}) else w)
  {
    PlaysOne(e, r0, w0, s, r, w, o, Step(e.bs, r, o), StepWorld(e.cap, w, r, o));
  }

  lemma CopyPlays(e: Env, r0: Reader, w0: World, s: seq<Outcome>, r: Reader, w: World)
    requires Plays(e, r0, w0, s, r, w) && r.pc.Capture? && r.pc.todo != [] && r.current.Some? && Fits(e.bs, r)
    ensures Within(s, s + [Local])
    ensures Plays(e, r0, w0, s + [Local], CopyIn(e.bs, r), w)
  {
    PlaysOne(e, r0, w0, s, r, w, Local, Step(e.bs, r, Local), w);
  }

  lemma ExtendPlays(e: Env, r0: Reader, w0: World, s: seq<Outcome>, r: Reader, w: World, o: Outcome)
    requires Plays(e, r0, w0, s, r, w) && r.pc.Extend? && r.current.Some? && Fits(e.bs, r)
    requires (o.Got? || o.Missed?) && Honest(e, w, o)
    ensures Within(s, s + [o])
    ensures Plays(e, r0, w0, s + [o],
                  if o.Got? then r.(pc := Pc.SendFull(r.pc.todo, r.pc.eof, Fresh(o.id, 0, 0))) else MarkAbort(r),
                  if o.Got? then w.(pool := w.pool - multiset{o.id}) else w)
  {
    PlaysOne(e, r0, w0, s, r, w, o, Step(e.bs, r, o), StepWorld(e.cap, w, r, o));
  }

  lemma AbortPlays(e: Env, r0: Reader, w0: World, s: seq<Outcome>, r: Reader, w: World, o: Outcome)
    requires Plays(e, r0, w0, s, r, w) && r.pc.SendAbort? && r.current.Some? && Fits(e.bs, r)
    requires (o.Sent? || o.Refused?) && Honest(e, w, o)
    ensures Within(s, s + [o])
    ensures var b := r.current.value;
            Plays(e, r0, w0, s + [o], GiveUp(if o.Sent? then Enqueued(r, b) else r),
                  if o.Sent? then w.(queue := w.queue + [b]) else w.(pool := PutOne(e.cap, w.pool, b.id)))
  {
    PutsOne(e.cap, w.pool, r.current.value.id);
    PlaysOne(e, r0, w0, s, r, w, o, Step(e.bs, r, o), StepWorld(e.cap, w, r, o));
  }

  lemma FullPlays(e: Env, r0: Reader, w0: World, s: seq<Outcome>, r: Reader, w: World, o: Outcome, r': Reader, w': World)
    requires Plays(e, r0, w0, s, r, w) && r.pc.SendFull? && r.current.Some? && Fits(e.bs, r)
    requires (o.Sent? || o.Refused?) && Honest(e, w, o)
    requires var b := r.current.value;
             && r' == (if o.Sent? then Adopt(Enqueued(r, b), r.pc.next.id).(pc := Pc.Capture(r.pc.todo, r.pc.eof)) else GiveUp(r))
             && w' == (if o.Sent? then w.(queue := w.queue + [b])
                       else w.(pool := PutOne(e.cap, PutOne(e.cap, w.pool, b.id), r.pc.next.id)))
    ensures Within(s, s + [o]) && Plays(e, r0, w0, s + [o], r', w')
  {
    PutsTwo(e.cap, w.pool, r.current.value.id, r.pc.next.id);
    PlaysOne(e, r0, w0, s, r, w, o, r', w');
  }

  lemma EdgePlays(e: Env, r0: Reader, w0: World, s: seq<Outcome>, r: Reader, w: World, o: Outcome)
    requires Plays(e, r0, w0, s, r, w) && r.pc.SendEdge? && r.current.Some? && Fits(e.bs, r)
    requires (o.Sent? || o.Refused?) && Honest(e, w, o)
    ensures Within(s, s + [o])
    ensures var b := r.current.value;
            Plays(e, r0, w0, s + [o],
                  if o.Sent? then Enqueued(r, b).(current := None, pc := Pc.Capture([], r.pc.eof)) else MarkAbort(r),
                  if o.Sent? then w.(queue := w.queue + [b]) else w)
  {
    PlaysOne(e, r0, w0, s, r, w, o, Step(e.bs, r, o), StepWorld(e.cap, w, r, o));
  }

  lemma SentinelGetPlays(e: Env, r0: Reader, w0: World, s: seq<Outcome>, r: Reader, w: World, o: Outcome)
    requires Plays(e, r0, w0, s, r, w) && r.pc.Sentinel? && r.current.None?
    requires (o.Got? || o.Missed?) && Honest(e, w, o)
    ensures Within(s, s + [o])
    ensures Plays(e, r0, w0, s + [o],
                  if o.Got? then r.(pc := Pc.SendSentinel(Fresh(o.id, r.rid, r.seqNo).(final := true))) else GiveUp(r),
                  if o.Got? then w.(pool := w.pool - multiset{o.id}) else w)
  {
    PlaysOne(e, r0, w0, s, r, w, o, Step(e.bs, r, o), StepWorld(e.cap, w, r, o));
  }

  lemma SentinelPlays(e: Env, r0: Reader, w0: World, s: seq<Outcome>, r: Reader, w: World, o: Outcome)
    requires Plays(e, r0, w0, s, r, w) && r.pc.SendSentinel? && r.current.None?
    requires (o.Sent? || o.Refused?) && Honest(e, w, o)
    ensures Within(s, s + [o])
    ensures var b := r.pc.blk;
            Plays(e, r0, w0, s + [o], if o.Sent? then Enqueued(r, b).(pc := Idle) else GiveUp(r),
                  if o.Sent? then w.(queue := w.queue + [b]) else w.(pool := PutOne(e.cap, w.pool, b.id)))
  {
    PutsOne(e.cap, w.pool, r.pc.blk.id);
    PlaysOne(e, r0, w0, s, r, w, o, Step(e.bs, r, o), StepWorld(e.cap, w, r, o));
  }

  lemma FinalPlays(e: Env, r0: Reader, w0: World, s: seq<Outcome>, r: Reader, w: World, o: Outcome)
    requires Plays(e, r0, w0, s, r, w) && r.pc.SendFinal? && r.current.Some? && Fits(e.bs, r)
    requires (o.Sent? || o.Refused?) && Honest(e, w, o)
    ensures Within(s, s + [o])
    ensures var b := r.current.value;
            Plays(e, r0, w0, s + [o],
                  if o.Sent? then Enqueued(r, b).(current := None, pc := Idle)
                  else r.(current := None, drops := r.drops + 1, pc := Idle),
                  if o.Sent? then w.(queue := w.queue + [b]) else w.(pool := PutOne(e.cap, w.pool, b.id)))
  {
    PutsOne(e.cap, w.pool, r.current.value.id);
    PlaysOne(e, r0, w0, s, r, w, o, Step(e.bs, r, o), StepWorld(e.cap, w, r, o));
  }
}
