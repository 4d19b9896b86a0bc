/**
 No payload is lost or duplicated behind the assembler: in every reachable
 state each dispatched payload is in exactly one place, and after the shutdown
 it was flushed, counted as dropped, or refused by the full collector channel.
 */
module Conservation {
  import opened Prelude
  import opened Pipeline

  function Count(s: seq<Item>, x: Item): nat {
    if s == [] then 0 else (if s[0] == x then 1 else 0) + Count(s[1..], x)
  }

  function Hands(ws: seq<Worker>, x: Item): nat {
    if ws == [] then 0 else (if ws[0] == Busy(x) then 1 else 0) + Hands(ws[1..], x)
  }

  /** How often a side occurs in a sequence of records. */
  function Recorded(rs: seq<Record>, x: Item): nat {
    if rs == [] then 0 else Count(rs[0].parts, x) + Recorded(rs[1..], x)
  }

  /** The places on a line, and the two ends it is measured against. */
  datatype Place = Dispatched | Queued | InHand | Results | AtBridge | Dropped | Submitted

  function At(l: Line, p: Place, x: Item): nat {
    match p
    case Dispatched => Count(l.dispatched, x)
    case Queued => Count(l.input.items, x)
    case InHand => Hands(l.workers, x)
    case Results => Count(l.results.items, x)
    case AtBridge => if l.bridge == Carrying(x) then 1 else 0
    case Dropped => Count(l.dropped, x)
    case Submitted => Count(l.submitted, x)
  }

  function AllAt(ls: seq<Line>, p: Place, x: Item): nat {
    if ls == [] then 0 else At(ls[0], p, x) + AllAt(ls[1..], p, x)
  }

  ghost predicate LineBalanced(l: Line, x: Item) {
    At(l, Dispatched, x)
    == At(l, Queued, x) + At(l, InHand, x) + At(l, Results, x) + At(l, AtBridge, x) + At(l, Dropped, x) + At(l, Submitted, x)
  }

  function Held(s: State, x: Item): nat {
    if x.rid in s.held && s.held[x.rid] == x then 1 else 0
  }

  ghost predicate TrackerBalanced(s: State, x: Item) {
    AllAt(s.lines, Submitted, x)
    == Held(s, x) + Recorded(s.out.items, x) + Recorded(s.coll.consumed, x) + Recorded(s.refused, x)
  }

  ghost predicate LinesBalanced(ls: seq<Line>, x: Item) {
    forall k | 0 <= k < |ls| :: LineBalanced(ls[k], x)
  }

  ghost predicate Balanced(s: State, x: Item) {
    LinesBalanced(s.lines, x) && TrackerBalanced(s, x)
  }

  // ---- counting ----

  lemma {:induction false} CountAppend(s: seq<Item>, y: Item, x: Item)
    ensures Count(s + [y], x) == Count(s, x) + (if y == x then 1 else 0)
  {
    if s == [] {
      assert s + [y] == [y] && [y][1..] == [];
    } else {
      assert (s + [y])[1..] == s[1..] + [y];
      CountAppend(s[1..], y, x);
    }
  }

  lemma {:induction false} HandsUpdate(ws: seq<Worker>, w: nat, v: Worker, x: Item)
    requires w < |ws|
    ensures Hands(ws[w := v], x) + (if ws[w] == Busy(x) then 1 else 0) == Hands(ws, x) + (if v == Busy(x) then 1 else 0)
  {
    if w == 0 {
      assert ws[w := v][1..] == ws[1..];
    } else {
      assert ws[w := v][1..] == ws[1..][w - 1 := v];
      HandsUpdate(ws[1..], w - 1, v, x);
    }
  }

  lemma {:induction false} RecordedConcat(a: seq<Record>, b: seq<Record>, x: Item)
    ensures Recorded(a + b, x) == Recorded(a, x) + Recorded(b, x)
  {
    if a == [] {
      assert a + b == b;
    } else {
      assert (a + b)[1..] == a[1..] + b;
      RecordedConcat(a[1..], b, x);
    }
  }

  lemma RecordedOne(r: Record, x: Item)
    ensures Recorded([r], x) == Count(r.parts, x)
  {
    assert [r][1..] == [];
  }

  lemma {:induction false} AllAtUpdate(ls: seq<Line>, k: nat, l: Line, p: Place, x: Item)
    requires k < |ls|
    ensures AllAt(ls[k := l], p, x) + At(ls[k], p, x) == AllAt(ls, p, x) + At(l, p, x)
  {
    if k == 0 {
      assert ls[k := l][1..] == ls[1..];
    } else {
      assert ls[k := l][1..] == ls[1..][k - 1 := l];
      AllAtUpdate(ls[1..], k - 1, l, p, x);
    }
  }

  // ---- every step keeps the balance ----

  lemma {:induction false} LineStepBalanced(c: Config, l: Line, response: bool, a: LineAct, x: Item)
    requires CanLine(l, response, a) && LineBalanced(l, x)
    ensures LineBalanced(LineStep(c, l, a), x)
    ensures LineStep(c, l, a).submitted == l.submitted
  {
    match a
    case Assemble(Some(y)) =>
      CountAppend(l.dispatched, y, x);
      CountAppend(l.input.items, y, x);
    case Take(w) => HandsUpdate(l.workers, w, Busy(l.input.items[0]), x);
    case Deliver(w) =>
      HandsUpdate(l.workers, w, Waiting, x);
      CountAppend(l.results.items, l.workers[w].item, x);
      CountAppend(l.dropped, l.workers[w].item, x);
    case Exit(w) => HandsUpdate(l.workers, w, Exited, x);
    case _ =>
  }

  lemma {:induction false} EmitBalanced(c: Config, s: State, r: Record, x: Item)
    ensures var s' := Emit(c, s, r);
            && Recorded(s'.out.items, x) + Recorded(s'.refused, x)
               == Recorded(s.out.items, x) + Recorded(s.refused, x) + Count(r.parts, x)
            && s'.lines == s.lines && s'.coll == s.coll && s'.held == s.held
  {
    RecordedConcat(s.out.items, [r], x);
    RecordedConcat(s.refused, [r], x);
    RecordedOne(r, x);
  }

  lemma CountParts(a: Item, b: Item, x: Item)
    ensures Count([a], x) == (if a == x then 1 else 0)
    ensures Count([a, b], x) == (if a == x then 1 else 0) + (if b == x then 1 else 0)
  {
    assert [a][1..] == [] && [a, b][1..] == [b] && [b][1..] == [];
  }

  /** What the tracker holds and has emitted grows by the submitted side. */
  lemma {:induction false} SubmittedBalanced(c: Config, s: State, y: Item, x: Item)
    requires forall r | r in s.held :: s.held[r].rid == r
    requires !c.bidir ==> s.held == map[]
    ensures var s' := ToTracker(c, s, y);
            && Held(s', x) + Recorded(s'.out.items, x) + Recorded(s'.refused, x)
               == Held(s, x) + Recorded(s.out.items, x) + Recorded(s.refused, x) + (if y == x then 1 else 0)
            && s'.lines == s.lines && s'.coll == s.coll
  {
    CountParts(y, y, x);
    if !c.bidir {
      EmitBalanced(c, s, Record([y]), x);
    } else if y.rid in s.held {
      CountParts(s.held[y.rid], y, x);
      EmitBalanced(c, s.(held := s.held - {y.rid}), Record([s.held[y.rid], y]), x);
    }
  }

  /** Exchanging one line for a balanced one changes what was submitted by the difference. */
  lemma {:induction false} Exchange(ls: seq<Line>, k: nat, l: Line, x: Item)
    requires k < |ls| && LinesBalanced(ls, x) && LineBalanced(l, x)
    ensures LinesBalanced(ls[k := l], x)
    ensures AllAt(ls[k := l], Submitted, x) + Count(ls[k].submitted, x)
            == AllAt(ls, Submitted, x) + Count(l.submitted, x)
  {
    AllAtUpdate(ls, k, l, Submitted, x);
  }

  lemma {:induction false} OnLineBalanced(c: Config, s: State, k: nat, a: LineAct, x: Item)
    requires CanDo(c, s, OnLine(k, a)) && Balanced(s, x)
    ensures Balanced(Next(c, s, OnLine(k, a)), x)
  {
    LineStepBalanced(c, s.lines[k], k == 1, a, x);
    Exchange(s.lines, k, LineStep(c, s.lines[k], a), x);
  }

  lemma HandOver(l: Line, x: Item)
    requires l.bridge.Carrying? && LineBalanced(l, x)
    ensures LineBalanced(l.(bridge := Listening, submitted := l.submitted + [l.bridge.item]), x)
  {
    CountAppend(l.submitted, l.bridge.item, x);
  }

  lemma {:induction false} SubmitBalanced(c: Config, s: State, k: nat, x: Item)
    requires c.Valid() && Safe(c, s) && CanDo(c, s, Submit(k)) && Balanced(s, x)
    ensures Balanced(Next(c, s, Submit(k)), x)
  {
    var l := s.lines[k];
    var y := l.bridge.item;
    var l' := l.(bridge := Listening, submitted := l.submitted + [y]);
    HandOver(l, x);
    CountAppend(l.submitted, y, x);
    Exchange(s.lines, k, l', x);
    SubmittedBalanced(c, s.(lines := s.lines[k := l']), y, x);
  }

  lemma {:induction false} AdvanceBalanced(s: State, x: Item)
    requires Ready(s) && Balanced(s, x)
    ensures Balanced(Advance(s), x)
  {
    if s.stage.CloseQueue? {
      Exchange(s.lines, s.stage.k, s.lines[s.stage.k].(queue := Shut(s.lines[s.stage.k].queue)), x);
    } else if s.stage.CloseResults? {
      Exchange(s.lines, s.stage.k, s.lines[s.stage.k].(results := Shut(s.lines[s.stage.k].results)), x);
    }
  }

  lemma {:induction false} ExpiredBalanced(c: Config, s: State, rid: nat, x: Item)
    requires rid in s.held && forall r | r in s.held :: s.held[r].rid == r
    ensures var s' := Emit(c, s.(held := s.held - {rid}), Record([s.held[rid]]));
            && Held(s', x) + Recorded(s'.out.items, x) + Recorded(s'.refused, x)
               == Held(s, x) + Recorded(s.out.items, x) + Recorded(s.refused, x)
            && s'.lines == s.lines && s'.coll == s.coll
  {
    var y := s.held[rid];
    CountParts(y, y, x);
    EmitBalanced(c, s.(held := s.held - {rid}), Record([y]), x);
  }

  lemma {:induction false} ExpireBalanced(c: Config, s: State, rid: nat, x: Item)
    requires Safe(c, s) && CanDo(c, s, Expire(rid)) && Balanced(s, x)
    ensures Balanced(Next(c, s, Expire(rid)), x)
  {
    ExpiredBalanced(c, s, rid, x);
  }

  lemma {:induction false} ReceiveBalanced(c: Config, s: State, x: Item)
    requires CanDo(c, s, Receive) && Balanced(s, x)
    ensures Balanced(Next(c, s, Receive), x)
  {
    var r := s.out.items[0];
    RecordedConcat(s.coll.consumed, [r], x);
    RecordedOne(r, x);
  }

  lemma {:induction false} NextBalanced(c: Config, s: State, a: Act, x: Item)
    requires c.Valid() && Safe(c, s) && CanDo(c, s, a) && Balanced(s, x)
    ensures Balanced(Next(c, s, a), x)
  {
    match a
    case OnLine(k, la) => OnLineBalanced(c, s, k, la, x);
    case Submit(k) => SubmitBalanced(c, s, k, x);
    case Expire(rid) => ExpireBalanced(c, s, rid, x);
    case Receive => ReceiveBalanced(c, s, x);
    case Wait => AdvanceBalanced(s, x);
    case _ =>
  }

  lemma {:induction false} RunBalanced(c: Config, acts: seq<Act>, x: Item)
    requires c.Valid() && Run(c, acts)
    ensures Balanced(After(c, acts), x)
    decreases |acts|
  {
    if acts == [] {
      NewLineBalanced(c, x);
    } else {
      RunBalanced(c, acts[..|acts| - 1], x);
      RunSafe(c, acts[..|acts| - 1]);
      NextBalanced(c, After(c, acts[..|acts| - 1]), Last(acts), x);
    }
  }

  lemma {:induction false} AllWaiting(ws: seq<Worker>, x: Item)
    requires forall w | 0 <= w < |ws| :: !ws[w].Busy?
    ensures Hands(ws, x) == 0
  {
    if ws != [] { AllWaiting(ws[1..], x); }
  }

  lemma {:induction false} NoneAt(ls: seq<Line>, p: Place, x: Item)
    requires forall k | 0 <= k < |ls| :: At(ls[k], p, x) == 0
    ensures AllAt(ls, p, x) == 0
  {
    if ls != [] { NoneAt(ls[1..], p, x); }
  }

  lemma NewLineBalanced(c: Config, x: Item)
    ensures Balanced(Init(c), x)
  {
    AllWaiting(NewLine(c).workers, x);
    NoneAt(Init(c).lines, Submitted, x);
  }

  // ---- main results ----

  lemma {:induction false} SumBalanced(ls: seq<Line>, x: Item)
    requires forall k | 0 <= k < |ls| :: LineBalanced(ls[k], x)
    ensures AllAt(ls, Dispatched, x)
            == AllAt(ls, Queued, x) + AllAt(ls, InHand, x) + AllAt(ls, Results, x) + AllAt(ls, AtBridge, x)
               + AllAt(ls, Dropped, x) + AllAt(ls, Submitted, x)
  {
    if ls != [] { SumBalanced(ls[1..], x); }
  }

  /** Every dispatched payload is in exactly one place, whatever the schedule. */
  lemma {:induction false} NothingLost(c: Config, acts: seq<Act>, x: Item)
    requires c.Valid() && Run(c, acts)
    ensures var s := After(c, acts);
            AllAt(s.lines, Dispatched, x)
            == AllAt(s.lines, Queued, x) + AllAt(s.lines, InHand, x) + AllAt(s.lines, Results, x)
               + AllAt(s.lines, AtBridge, x) + AllAt(s.lines, Dropped, x)
               + Held(s, x) + Recorded(s.out.items, x) + Recorded(s.refused, x)
               + Recorded(s.coll.active, x) + Recorded(InFlight(s.coll), x) + Recorded(s.coll.flushed, x)
  {
    var s := After(c, acts);
    RunBalanced(c, acts, x);
    SumBalanced(s.lines, x);
    CollectorIsFifo(c, acts);
    RecordedConcat(s.coll.flushed + InFlight(s.coll), s.coll.active, x);
    RecordedConcat(s.coll.flushed, InFlight(s.coll), x);
  }

  lemma LineEmptied(l: Line, x: Item)
    requires LineOk(l, 6)
    ensures At(l, Queued, x) == At(l, InHand, x) == At(l, Results, x) == At(l, AtBridge, x) == 0
  {
    AllWaiting(l.workers, x);
    assert l.workers[0].Exited?;
  }

  /** After the shutdown every dispatched payload was flushed, dropped with its counter, or refused. */
  lemma {:induction false} ShutdownDelivers(c: Config, acts: seq<Act>, x: Item)
    requires c.Valid() && Run(c, acts) && After(c, acts).stage.Done?
    ensures var s := After(c, acts);
            AllAt(s.lines, Dispatched, x)
            == Recorded(s.coll.flushed, x) + AllAt(s.lines, Dropped, x) + Recorded(s.refused, x)
  {
    var s := After(c, acts);
    RunSafe(c, acts);
    NothingLost(c, acts, x);
    forall k | 0 <= k < |s.lines|
      ensures At(s.lines[k], Queued, x) == At(s.lines[k], InHand, x) == At(s.lines[k], Results, x)
              == At(s.lines[k], AtBridge, x) == 0
    {
      assert LineOk(s.lines[k], 15 - 5 * k);
      IdleLine(s.lines[k], 15 - 5 * k, 6);
      LineEmptied(s.lines[k], x);
    }
    NoneAt(s.lines, Queued, x);
    NoneAt(s.lines, InHand, x);
    NoneAt(s.lines, Results, x);
    NoneAt(s.lines, AtBridge, x);
  }
}
