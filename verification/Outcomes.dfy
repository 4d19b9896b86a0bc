/**
 What becomes of a capture of any length whose source is silent after the end
 of the body: the three outcomes of `Close`, and the one family of bodies that
 has none of them.
 */
module Outcomes {
  import opened Prelude
  import opened ReaderProtocol
  import opened CaptureSystem
  import opened CaptureTheorems
  import opened Segments

  /** Every byte went out in a multiple of 2^32 full blocks, and no final block followed. */
  ghost predicate Unfinished(bs: nat, r: Reader) {
    !FinalSent(r) && Chain(bs, r.sent, |r.sent|) && |r.sent| % SEQ_LIMIT == 0 && Content(r.sent) == r.read
  }

  /** Drops and final blocks, along the way and at the end. */
  ghost predicate Accounts(bs: nat, r: Reader, fin: Option<seq<byte>>) {
    && (r.abandoned ==> r.drops == 1 && !FinalSent(r))
    && (!r.abandoned && !(r.finalized && r.pc.Idle?) ==> r.drops == 0 && !FinalSent(r))
    && (r.finalized ==>
          && fin == Some(r.read)
          && (r.pc.Idle? || r.pc.Sentinel? || r.pc.SendSentinel? || r.pc.SendFinal?)
          && (r.pc.Idle? ==> r.current.None?)
          && (r.pc.Idle? && !r.abandoned ==>
                || (r.drops == 0 && FinalSent(r))
                || (r.drops == 1 && !FinalSent(r))
                || (r.drops == 0 && Unfinished(bs, r))))
    && (r.closed ==> r.finalized || r.abandoned)
  }

  lemma ChainIsOpen(bs: nat, sent: seq<Block>)
    requires Chain(bs, sent, |sent|)
    ensures sent != [] ==> !Last(sent).final
  {
    assert sent != [] ==> Plain(bs, sent[|sent| - 1], |sent| - 1);
  }

  lemma FinishAccounts(bs: nat, r: Reader, fin: Option<seq<byte>>)
    requires Emits(bs, r, fin) && Accounts(bs, r, fin) && !r.abandoned
    requires r.pc.Idle? || (r.pc.Capture? && r.pc.todo == [])
    ensures Accounts(bs, StartFinish(r), Mark(r, StartFinish(r), fin)) && StartFinish(r).finalized
  {
    assert Content(r.sent) + [] + [] == Content(r.sent);
  }

  lemma IdleAccounts(bs: nat, r: Reader, o: Outcome, fin: Option<seq<byte>>)
    requires Emits(bs, r, fin) && Accounts(bs, r, fin) && Enabled(r, o) && Silent(r, o) && r.pc.Idle?
    ensures var r' := Step(bs, r, o); Accounts(bs, r', Mark(r, r', fin))
  {
    match o
    case CallRead(data, eof) =>
      if data == [] {
        assert r.read + data == r.read;
        if eof && !r.abandoned { FinishAccounts(bs, r, fin); }
      }
    case CallClose =>
      if !r.closed && !r.abandoned {
        FinishAccounts(bs, r, fin);
        assert Step(bs, r, o) == StartFinish(r).(closed := true);
      }
    case _ =>
  }

  lemma SendAccounts(bs: nat, r: Reader, o: Outcome, fin: Option<seq<byte>>)
    requires Emits(bs, r, fin) && Accounts(bs, r, fin) && Enabled(r, o) && !r.pc.Idle? && !r.pc.Capture?
    ensures Accounts(bs, Step(bs, r, o), fin)
  {
    if r.pc.Sentinel? || r.pc.SendSentinel? || r.pc.SendFinal? { ChainIsOpen(bs, r.sent); }
  }

  lemma StepAccounts(bs: nat, r: Reader, o: Outcome, fin: Option<seq<byte>>)
    requires Emits(bs, r, fin) && Accounts(bs, r, fin) && Enabled(r, o) && Silent(r, o)
    ensures var r' := Step(bs, r, o); Accounts(bs, r', Mark(r, r', fin))
  {
    match r.pc
    case Idle => IdleAccounts(bs, r, o, fin);
    case Capture(todo, eof) => if todo == [] && eof { FinishAccounts(bs, r, fin); }
    case _ => SendAccounts(bs, r, o, fin);
  }

  ghost predicate AccountsAt(c: Config, s: State, i: nat)
    requires i < |s.readers|
  {
    i !in s.noisy ==> Accounts(c.bs, s.readers[i], FinishedBytes(s, i))
  }

  lemma OwnAccounts(c: Config, s: State, i: nat, o: Outcome)
    requires CanDo(c, s, ReaderStep(i, o)) && SegmentOk(c, s, i) && AccountsAt(c, s, i)
    ensures AccountsAt(c, Next(c, s, ReaderStep(i, o)), i)
  {
    if i !in Next(c, s, ReaderStep(i, o)).noisy { StepAccounts(c.bs, s.readers[i], o, FinishedBytes(s, i)); }
  }

  lemma OtherAccounts(c: Config, s: State, a: Act, i: nat)
    requires CanDo(c, s, a) && i < |Next(c, s, a).readers| && !(a.ReaderStep? && a.i == i)
    requires if i < |s.readers| then AccountsAt(c, s, i) else i !in s.finished
    ensures AccountsAt(c, Next(c, s, a), i)
  {
  }

  lemma {:induction false} RunAccounts(c: Config, acts: seq<Act>, i: nat)
    requires c.Valid() && Run(c, acts) && i < |After(c, acts).readers|
    ensures AccountsAt(c, After(c, acts), i)
    decreases |acts|
  {
    if acts != [] {
      var init, a := acts[..|acts| - 1], Last(acts);
      var s := After(c, init);
      RunSegments(c, init);
      if i < |s.readers| { RunAccounts(c, init, i); }
      if a.ReaderStep? && a.i == i {
        assert SegmentOk(c, s, i);
        OwnAccounts(c, s, i, a.o);
      } else {
        OtherAccounts(c, s, a, i);
      }
    }
  }

  // ---- the outcomes of `Close` ----

  /** The body fills a positive multiple of 2^32 blocks, and nothing was dropped. */
  predicate FullTurns(bs: nat, r: Reader)
    requires bs > 0
  {
    r.drops == 0 && r.read != [] && |r.read| % (SEQ_LIMIT * bs) == 0
  }

  lemma ZeroRest(j: nat, bs: nat, l: nat)
    requires bs > 0 && j < SEQ_LIMIT && l < bs
    ensures j * bs + l < SEQ_LIMIT * bs && (j * bs + l == 0 ==> j == 0 && l == 0)
  {
    ProductBound(j, SEQ_LIMIT, bs);
    assert j > 0 ==> j * bs >= bs;
  }

  /** `f` full blocks and `l` bytes more are full turns exactly if `l` is zero and `f` a multiple of 2^32. */
  lemma TurnsOf(f: nat, l: nat, bs: nat)
    requires bs > 0 && l < bs
    ensures (f * bs + l) % (SEQ_LIMIT * bs) == 0 <==> l == 0 && f % SEQ_LIMIT == 0
  {
    var q, j := f / SEQ_LIMIT, f % SEQ_LIMIT;
    assert f * bs == q * (SEQ_LIMIT * bs) + j * bs;
    ZeroRest(j, bs, l);
    ModOf(f * bs + l, SEQ_LIMIT * bs, q, j * bs + l);
  }

  /** The length of a finished stream: full blocks and the final one. */
  lemma FinalLength(bs: nat, sent: seq<Block>)
    requires sent != [] && Chain(bs, sent, |sent| - 1)
    ensures |Content(sent)| == (|sent| - 1) * bs + |Last(sent).data|
  {
    ChainContent(bs, sent, |sent| - 1);
  }

  /** A complete capture never has the length of full turns; an unfinished one has. */
  lemma TurnsExactly(bs: nat, r: Reader, fin: Option<seq<byte>>)
    requires bs > 0 && Emits(bs, r, fin) && fin == Some(r.read)
    ensures FinalSent(r) ==> Content(r.sent) == r.read && |r.read| % (SEQ_LIMIT * bs) != 0
    ensures Unfinished(bs, r) ==> |r.read| % (SEQ_LIMIT * bs) == 0 && (r.read == [] <==> r.sent == [])
  {
    if FinalSent(r) {
      var f := |r.sent| - 1;
      assert Finishes(bs, r.sent, f, fin);
      assert r.sent[..f + 1] == r.sent;
      FinalLength(bs, r.sent);
      TurnsOf(f, |Last(r.sent).data|, bs);
    }
    if Unfinished(bs, r) {
      ChainContent(bs, r.sent, |r.sent|);
      assert r.sent[..|r.sent|] == r.sent;
      TurnsOf(|r.sent|, 0, bs);
      assert r.sent != [] ==> |r.sent| * bs >= bs;
    }
  }

  /**
   For a body of any length from a silent source, a closed capture has one of
   the three outcomes exactly unless the bytes fill a positive multiple of
   2^32 blocks and nothing was dropped; then every byte was sent, and no final
   block.
   */
  lemma {:induction false} OutcomeExactlyUnless(c: Config, acts: seq<Act>, i: nat)
    requires c.Valid() && Run(c, acts) && i < |After(c, acts).readers| && i !in After(c, acts).noisy
    requires After(c, acts).readers[i].closed && After(c, acts).readers[i].pc.Idle?
    ensures var r := After(c, acts).readers[i];
            && (NothingRead(r) || FullCapture(r) || Lost(r) <==> !FullTurns(c.bs, r))
            && (FullTurns(c.bs, r) ==> Unfinished(c.bs, r))
            && HandSize(r) == 0
  {
    var s := After(c, acts);
    RunSegments(c, acts);
    RunAccounts(c, acts, i);
    assert SegmentOk(c, s, i);
    if s.readers[i].finalized { TurnsExactly(c.bs, s.readers[i], FinishedBytes(s, i)); }
  }

  lemma {:induction false} NoHands(rs: seq<Reader>, b: nat)
    requires forall i | 0 <= i < |rs| :: HandSize(rs[i]) == 0
    ensures HandsCount(rs, b) == 0 && HandsSize(rs) == 0
  {
    if rs != [] { NoHands(rs[..|rs| - 1], b); }
  }

  /** When all readers of silent sources are closed and the queue is drained, every buffer is back in the pool. */
  lemma {:induction false} AllBlocksReturn(c: Config, acts: seq<Act>)
    requires c.Valid() && Run(c, acts)
    requires var s := After(c, acts);
             && Line(s) == []
             && forall i | 0 <= i < |s.readers| :: s.readers[i].closed && s.readers[i].pc.Idle? && i !in s.noisy
    ensures |After(c, acts).world.pool| == c.blocks
    ensures forall b: nat | b < c.blocks :: After(c, acts).world.pool[b] == 1
  {
    var s := After(c, acts);
    RunInvariant(c, acts);
    forall i | 0 <= i < |s.readers| ensures HandSize(s.readers[i]) == 0 {
      OutcomeExactlyUnless(c, acts, i);
    }
    NoHands(s.readers, 0);
    forall b: nat | b < c.blocks ensures s.world.pool[b] == 1 {
      NoHands(s.readers, b);
      assert Places(s, b) == 1;
    }
  }

  // ---- why a capture is lost ----

  /** The pool had no block for the reader, or the queue did not take one. */
  predicate Unlucky(a: Act, i: nat) {
    a.ReaderStep? && a.i == i && (a.o.Missed? || a.o.Refused?)
  }

  predicate AllLucky(acts: seq<Act>, i: nat) {
    forall k | 0 <= k < |acts| :: !Unlucky(acts[k], i)
  }

  /** Whether a drop was counted, or is about to be. */
  predicate Losing(r: Reader) { r.drops > 0 || r.pc.SendAbort? }

  lemma StepLosing(bs: nat, r: Reader, o: Outcome)
    requires Fits(bs, r) && Enabled(r, o) && (r.abandoned ==> r.drops > 0)
    ensures var r' := Step(bs, r, o);
            (r'.abandoned ==> r'.drops > 0) && (Losing(r') <==> Losing(r) || o.Missed? || o.Refused?)
  {
  }

  lemma LuckyNext(acts: seq<Act>, a: Act, i: nat)
    ensures AllLucky(acts + [a], i) <==> AllLucky(acts, i) && !Unlucky(a, i)
  {
    assert forall k | 0 <= k < |acts| :: (acts + [a])[k] == acts[k];
    assert (acts + [a])[|acts|] == a;
  }

  /** A drop is counted or about to be exactly if the reader had bad luck. */
  predicate LuckOk(s: State, acts: seq<Act>, i: nat) {
    if i < |s.readers| then
      (s.readers[i].abandoned ==> s.readers[i].drops > 0) && (Losing(s.readers[i]) <==> !AllLucky(acts, i))
    else AllLucky(acts, i)
  }

  lemma NextLuck(c: Config, s: State, acts: seq<Act>, a: Act, i: nat)
    requires CanDo(c, s, a) && LuckOk(s, acts, i)
    ensures LuckOk(Next(c, s, a), acts + [a], i)
  {
    LuckyNext(acts, a, i);
    if a.ReaderStep? && a.i == i { StepLosing(c.bs, s.readers[i], a.o); }
  }

  lemma {:induction false} RunLuck(c: Config, acts: seq<Act>, i: nat)
    requires Run(c, acts)
    ensures LuckOk(After(c, acts), acts, i)
    decreases |acts|
  {
    if acts != [] {
      RunLuck(c, acts[..|acts| - 1], i);
      NextLuck(c, After(c, acts[..|acts| - 1]), acts[..|acts| - 1], Last(acts), i);
      assert acts[..|acts| - 1] + [Last(acts)] == acts;
    }
  }

  /**
   A reader between two calls has counted a drop exactly if some `Get` found
   the pool empty or some send was refused.  A closed capture without such bad
   luck is complete, unless nothing was read or the body fills full turns.
   */
  lemma {:induction false} DropsExactlyWhen(c: Config, acts: seq<Act>, i: nat)
    requires c.Valid() && Run(c, acts) && i < |After(c, acts).readers| && After(c, acts).readers[i].pc.Idle?
    ensures After(c, acts).readers[i].drops > 0 <==> !AllLucky(acts, i)
    ensures var r := After(c, acts).readers[i];
            r.closed && AllLucky(acts, i) && i !in After(c, acts).noisy ==>
              NothingRead(r) || FullCapture(r) || FullTurns(c.bs, r)
  {
    RunLuck(c, acts, i);
    if After(c, acts).readers[i].closed && i !in After(c, acts).noisy { OutcomeExactlyUnless(c, acts, i); }
  }
}
