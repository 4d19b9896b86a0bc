/**
 What a reader holds after `Close` when the source is not silent: bytes that
 arrive after the capture was finished go into blocks again, and the last of
 them stays unless it was filled.
 */
module LateBytes {
  import opened Prelude
  import opened ReaderProtocol

  /** The number of bytes that arrived after `finish`. */
  function Late(r: Reader, o: Outcome, late: nat): nat {
    if o.CallRead? && r.finalized then late + |o.data| else late
  }

  // ---- remainders ----

  lemma ModAdd(a: nat, b: nat, m: nat)
    requires m > 0
    ensures (a % m + b) % m == (a + b) % m
  {
    var c := a % m + b;
    assert c == (c / m) * m + c % m && a == (a / m) * m + a % m;
    assert a + b == (a / m + c / m) * m + c % m;
    ModOf(a + b, m, a / m + c / m, c % m);
  }

  /** Equal remainders stay equal when both grow. */
  lemma ModGrow(a: nat, b: nat, n: nat, m: nat)
    requires m > 0 && a % m == b % m
    ensures (a + n) % m == (b + n) % m
  {
    ModAdd(a, n, m);
    ModAdd(b, n, m);
  }

  lemma ModFull(b: nat, m: nat)
    requires m > 0
    ensures (m + b) % m == b % m
  {
    assert m % m == 0;
    ModAdd(m, b, m);
  }

  // ---- the invariant ----

  /** A held block is neither empty nor full between two passes of the capture loop. */
  predicate Partial(bs: nat, r: Reader) {
    r.current.Some? ==> 0 < |Held(r)| < bs
  }

  /** The bytes still in the reader's hands are those that do not fill a block. */
  predicate Leftover(bs: nat, r: Reader, late: nat)
    requires bs > 0
  {
    r.finalized ==> (|Held(r)| + |Todo(r)|) % bs == late % bs
  }

  predicate LateInv(bs: nat, r: Reader, late: nat)
    requires bs > 0
  {
    && (!r.finalized ==> late == 0)
    && (r.abandoned ==> r.pc.Idle? && r.current.None?)
    && (r.closed ==> r.finalized || r.abandoned)
    && match r.pc
       case Idle => Partial(bs, r) && (r.abandoned || Leftover(bs, r, late))
       case Capture(todo, _) =>
         && (r.current.Some? ==> |Held(r)| < bs && (todo == [] ==> |Held(r)| > 0))
         && Leftover(bs, r, late)
       case SendAbort => r.current.Some?
       case Sentinel => r.finalized && late == 0 && r.current.None?
       case SendSentinel(_) => r.finalized && late == 0 && r.current.None?
       case SendFinal => r.finalized && late == 0
       case _ =>
         && r.current.Some? && |Held(r)| == bs && (r.pc.Extend? || r.pc.SendFull? ==> Todo(r) != [])
         && Leftover(bs, r, late)
  }

  lemma NewLate(bs: nat, rid: nat)
    requires bs > 0
    ensures LateInv(bs, NewReader(rid), 0)
  {
  }

  lemma FinishLate(bs: nat, r: Reader, late: nat)
    requires bs > 0 && LateInv(bs, r, late) && !r.abandoned && (r.pc.Idle? || (r.pc.Capture? && r.pc.todo == []))
    ensures LateInv(bs, StartFinish(r), late) && StartFinish(r).finalized
  {
  }

  lemma ReadLate(bs: nat, r: Reader, late: nat, data: seq<byte>, eof: bool)
    requires bs > 0 && LateInv(bs, r, late) && r.pc.Idle? && data != [] && !r.abandoned
    ensures LateInv(bs, r.(read := r.read + data, pc := Capture(data, eof)), Late(r, CallRead(data, eof), late))
  {
    if r.finalized { ModGrow(|Held(r)|, late, |data|, bs); }
  }

  lemma IdleLate(bs: nat, r: Reader, o: Outcome, late: nat)
    requires bs > 0 && LateInv(bs, r, late) && Fits(bs, r) && Enabled(r, o) && r.pc.Idle?
    ensures LateInv(bs, Step(bs, r, o), Late(r, o, late))
  {
    match o
    case CallRead(data, eof) =>
      if r.abandoned {
      } else if data != [] {
        ReadLate(bs, r, late, data, eof);
      } else if eof {
        FinishLate(bs, r.(read := r.read + data), late);
      }
    case CallClose =>
      if !r.closed && !r.abandoned {
        FinishLate(bs, r, late);
        assert Step(bs, r, o) == StartFinish(r).(closed := true);
      }
    case _ =>
  }

  lemma CopyLate(bs: nat, r: Reader, late: nat)
    requires bs > 0 && LateInv(bs, r, late) && r.pc.Capture? && r.pc.todo != [] && r.current.Some?
    ensures LateInv(bs, CopyIn(bs, r), late)
  {
    var r' := CopyIn(bs, r);
    assert |Held(r')| + |Todo(r')| == |Held(r)| + |Todo(r)|;
  }

  lemma CaptureLate(bs: nat, r: Reader, o: Outcome, late: nat)
    requires bs > 0 && LateInv(bs, r, late) && Fits(bs, r) && Enabled(r, o) && r.pc.Capture?
    ensures LateInv(bs, Step(bs, r, o), late)
  {
    if r.pc.todo == [] {
      if r.pc.eof { FinishLate(bs, r, late); }
    } else if r.current.Some? {
      CopyLate(bs, r, late);
    }
  }

  /** Every step keeps it, whatever the source delivers. */
  lemma StepLate(bs: nat, r: Reader, o: Outcome, late: nat)
    requires bs > 0 && LateInv(bs, r, late) && Fits(bs, r) && Enabled(r, o)
    ensures LateInv(bs, Step(bs, r, o), Late(r, o, late))
  {
    match r.pc
    case Idle => IdleLate(bs, r, o, late);
    case Capture(_, _) => CaptureLate(bs, r, o, late);
    case SendFull(todo, _, _) => ModFull(|todo|, bs);
    case SendEdge(_) => ModFull(0, bs);
    case _ =>
  }

  // ---- runs of one reader ----

  ghost predicate Playable(bs: nat, rid: nat, os: seq<Outcome>)
    decreases |os|, 0
  {
    os == [] || (
      && Playable(bs, rid, os[..|os| - 1])
      && Fits(bs, Played(bs, rid, os[..|os| - 1])) && Enabled(Played(bs, rid, os[..|os| - 1]), Last(os)))
  }

  ghost function Played(bs: nat, rid: nat, os: seq<Outcome>): Reader
    requires Playable(bs, rid, os)
    decreases |os|, 1
  {
    if os == [] then NewReader(rid) else Step(bs, Played(bs, rid, os[..|os| - 1]), Last(os))
  }

  /** The bytes that the source delivered after `finish` in a run. */
  ghost function LateIn(bs: nat, rid: nat, os: seq<Outcome>): nat
    requires Playable(bs, rid, os)
  {
    if os == [] then 0
    else Late(Played(bs, rid, os[..|os| - 1]), Last(os), LateIn(bs, rid, os[..|os| - 1]))
  }

  lemma {:induction false} PlayedLate(bs: nat, rid: nat, os: seq<Outcome>)
    requires bs > 0 && Playable(bs, rid, os)
    ensures LateInv(bs, Played(bs, rid, os), LateIn(bs, rid, os))
  {
    if os == [] {
      NewLate(bs, rid);
    } else {
      PlayedLate(bs, rid, os[..|os| - 1]);
      StepLate(bs, Played(bs, rid, os[..|os| - 1]), Last(os), LateIn(bs, rid, os[..|os| - 1]));
    }
  }

  /**
   A reader whose `Close` has returned holds a block exactly if it was not
   abandoned and the bytes that came after `finish` do not fill whole blocks.
   */
  lemma {:induction false} StrandedExactlyWhen(bs: nat, rid: nat, os: seq<Outcome>)
    requires bs > 0 && Playable(bs, rid, os)
    requires Played(bs, rid, os).closed && Played(bs, rid, os).pc.Idle?
    ensures HandSize(Played(bs, rid, os)) <= 1
    ensures HandSize(Played(bs, rid, os)) == 1
            <==> !Played(bs, rid, os).abandoned && LateIn(bs, rid, os) % bs != 0
  {
    PlayedLate(bs, rid, os);
    IdleHolds(bs, Played(bs, rid, os), LateIn(bs, rid, os));
  }

  lemma IdleHolds(bs: nat, r: Reader, late: nat)
    requires bs > 0 && LateInv(bs, r, late) && r.pc.Idle? && r.closed
    ensures HandSize(r) <= 1 && (HandSize(r) == 1 <==> !r.abandoned && late % bs != 0)
  {
    if !r.abandoned { ModSmall(|Held(r)|, bs); }
  }

  lemma ModSmall(a: nat, m: nat)
    requires a < m
    ensures a % m == a
  {
  }
}
