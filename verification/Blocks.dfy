/** Pooled audit blocks, the pool, the bounded block queue and the drop counter. */
module Blocks {
  import opened Prelude
  import opened ReaderProtocol

  datatype Direction = DirectionRequest | DirectionResponse

  /** A fixed-size byte buffer; `id` stands for the identity of the pointer. */
  class AuditBlock {
    ghost const id: nat
    const Data: array<byte>
    var Used: nat
    var Seq: nat
    var RequestID: nat
    var Final: bool
    var Abort: bool
    var Direction: Direction
    ghost var bytes: seq<byte>       // what has been written since the last reset

    ghost predicate Valid()
      reads this, Data
    {
      |bytes| == Used <= Data.Length && forall i | 0 <= i < Used :: Data[i] == bytes[i]
    }

    ghost function View(): Block
      reads this
    {
      Block(id, RequestID, Seq, bytes, Final, Abort)
    }

    constructor (size: nat, ghost id: nat)
      ensures this.id == id && fresh(Data) && Data.Length == size
      ensures Valid() && View() == Fresh(id, 0, 0) && Direction == DirectionRequest
    {
      this.id := id;
      Data := new byte[size];
      Used, Seq, RequestID, Final, Abort, Direction := 0, 0, 0, false, false, DirectionRequest;
      bytes := [];
    }

    function Remaining(): int
      reads this
    {
      Data.Length - Used
    }

    /** Appends as much of `p` as fits; the rest of the buffer keeps its bytes. */
    method Write(p: seq<byte>) returns (n: nat)
      requires Valid()
      modifies this`Used, this`bytes, Data
      ensures Valid() && n == Min(old(Remaining()), |p|)
      ensures View() == old(View()).(data := old(View()).data + p[..n])
      ensures Data[Used..] == old(Data[..])[Used..]
    {
      n := Min(Remaining(), |p|);
      forall i | 0 <= i < n { Data[Used + i] := p[i]; }
      Used, bytes := Used + n, bytes + p[..n];
    }

    method Reset()
      modifies this
      ensures Valid() && View() == Fresh(id, 0, 0) && Direction == DirectionRequest
    {
      Used, Seq, RequestID, Final, Abort, Direction := 0, 0, 0, false, false, DirectionRequest;
      bytes := [];
    }
  }

  ghost predicate Distinct(s: seq<AuditBlock>) {
    forall i, j | 0 <= i < j < |s| :: s[i] != s[j]
  }

  /** Blocks of one pool: numbered, same size, each its own array. */
  ghost predicate Separate(all: set<AuditBlock>, made: seq<AuditBlock>, owner: map<array<byte>, AuditBlock>, size: nat) {
    forall b | b in all ::
      && b.id < |made| && made[b.id] == b
      && b.Data in owner && owner[b.Data] == b && b.Data.Length == size
  }

  class BlockPool {
    const blockSize: nat
    const capacity: nat
    var ch: seq<AuditBlock>          // the buffered channel
    var Exhaustions: nat
    ghost const all: set<AuditBlock> // every block ever made
    ghost var free: multiset<nat>    // identities of the blocks in the channel
    ghost const made: seq<AuditBlock>
    ghost const owner: map<array<byte>, AuditBlock>

    ghost predicate Valid()
      reads this
    {
      && blockSize > 0 && |ch| <= capacity && Distinct(ch)
      && |free| == |ch|
      && (forall b | b in ch :: b in all && b.id in free)
      && Separate(all, made, owner, blockSize)
    }

    /** `NewBlockPool`: totalBytes / blockSize blocks, at least one. */
    constructor (totalBytes: int, blockSize: nat)
      requires blockSize > 0
      ensures Valid() && this.blockSize == blockSize
      ensures capacity == (if totalBytes / blockSize < 1 then 1 else totalBytes / blockSize)
      ensures |ch| == capacity && (set b | b in ch) == all && Exhaustions == 0
      ensures forall id: nat :: free[id] == if id < capacity then 1 else 0
      ensures forall i | 0 <= i < |ch| :: ch[i].id == i && ch[i].Valid() && fresh(ch[i]) && fresh(ch[i].Data)
    {
      this.blockSize := blockSize;
      var n: nat := if totalBytes / blockSize < 1 then 1 else totalBytes / blockSize;
      capacity := n;
      Exhaustions := 0;
      var s: seq<AuditBlock> := [];
      ghost var f: multiset<nat> := multiset{};
      ghost var o: map<array<byte>, AuditBlock> := map[];
      for i := 0 to n
        invariant |s| == i && Distinct(s)
        invariant forall k | 0 <= k < |s| ::
            s[k].id == k && s[k].Valid() && fresh(s[k]) && fresh(s[k].Data)
            && s[k].Data.Length == blockSize && s[k].Data in o && o[s[k].Data] == s[k]
        invariant forall d | d in o :: fresh(d)
        invariant |f| == i && forall id: nat :: f[id] == if id < i then 1 else 0
      {
        var b := new AuditBlock(blockSize, i);
        s := s + [b];
        o := o[b.Data := b];
        f := f + multiset{i};
      }
      ch, free := s, f;
      made, owner, all := s, o, set b | b in s;
    }

    method Get() returns (blk: AuditBlock?)
      requires Valid()
      modifies this`ch, this`free, this`Exhaustions, if ch == [] then {} else {ch[0]}
      ensures Valid()
      ensures old(ch) == [] ==> blk == null && ch == [] && free == old(free) == multiset{} && Exhaustions == old(Exhaustions) + 1
      ensures old(ch) != [] ==>
                && blk == old(ch)[0] && ch == old(ch)[1..] && Exhaustions == old(Exhaustions)
                && blk.Valid() && blk.View() == Fresh(blk.id, 0, 0)
                && blk.id in old(free) && free == old(free) - multiset{blk.id} && blk !in ch
    {
      if ch == [] {
        Exhaustions := Exhaustions + 1;
        return null;
      }
      blk := ch[0];
      ch, free := ch[1..], free - multiset{blk.id};
      blk.Reset();
    }

    method Put(blk: AuditBlock)
      requires Valid() && blk in all && blk !in ch
      modifies this`ch, this`free
      ensures Valid()
      ensures ch == if old(|ch| < capacity) then old(ch) + [blk] else old(ch)
      ensures free == PutOne(capacity, old(free), blk.id)
    {
      if |ch| < capacity {
        ch, free := ch + [blk], free + multiset{blk.id};
      }
    }
  }

  /**
   The audit queue: a bounded channel, sent to without blocking.  `msgs` are
   the values of the blocks when they were sent.
   */
  class BlockQueue {
    const cap: nat
    var ch: seq<AuditBlock>
    var closed: bool
    ghost var msgs: seq<Block>

    constructor (cap: nat)
      ensures this.cap == cap && ch == [] && msgs == [] && !closed
    {
      this.cap := cap;
      ch, msgs, closed := [], [], false;
    }

    /** Nobody has touched a block since it was sent. */
    ghost predicate Intact()
      reads this, ch, set b | b in ch :: b.Data
    {
      && |msgs| == |ch|
      && forall i | 0 <= i < |ch| :: ch[i].Valid() && ch[i].View() == msgs[i]
    }

    /** `sendBlock`: a full queue refuses, and so does a closed one (the panic is recovered). */
    method Offer(blk: AuditBlock) returns (ok: bool)
      requires blk.Valid()
      modifies this`ch, this`msgs
      ensures ok == (!closed && old(|ch|) < cap)
      ensures ch == if ok then old(ch) + [blk] else old(ch)
      ensures msgs == if ok then old(msgs) + [blk.View()] else old(msgs)
    {
      if !closed && |ch| < cap {
        ch, msgs := ch + [blk], msgs + [blk.View()];
        return true;
      }
      return false;
    }

    method Receive() returns (blk: AuditBlock)
      requires ch != [] && |msgs| == |ch|
      modifies this`ch, this`msgs
      ensures blk == old(ch)[0] && ch == old(ch)[1..] && msgs == old(msgs)[1..]
    {
      blk := ch[0];
      ch, msgs := ch[1..], msgs[1..];
    }

    method Close()
      modifies this`closed
      ensures closed
    {
      closed := true;
    }
  }

  /** Two counters: one monotone for the reports, one emptied by the poller. */
  class DropCounter {
    var Total: nat
    var Interval: nat

    method Increment()
      modifies this
      ensures Total == old(Total) + 1 && Interval == old(Interval) + 1
    {
      Total := Total + 1;
      Interval := Interval + 1;
    }

    method Poll() returns (interval: nat, total: nat)
      modifies this
      ensures interval == old(Interval) && total == Total == old(Total) && Interval == 0
    {
      interval := Interval;
      Interval := 0;
      total := Total;
    }
  }
}
