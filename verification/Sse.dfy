/**
 Streamed responses: framing of server-sent events, and the assembly of the
 deltas of each choice or content block into one text.
 */
module Sse {
  import opened Prelude
  import opened Extractor

  // ---- framing ----

  const DATA := "data: "

  /** `unicode.IsSpace`. */
  predicate Blank(c: char) {
    || c == ' ' || '\t' <= c <= '\r' || c == '\U{85}' || c == '\U{A0}' || c == '\U{1680}'
    || '\U{2000}' <= c <= '\U{200A}' || c == '\U{2028}' || c == '\U{2029}' || c == '\U{202F}'
    || c == '\U{205F}' || c == '\U{3000}'
  }

  /** Where the first line ends. */
  function LineEnd(s: string): (n: nat)
    ensures n <= |s| && (n < |s| ==> s[n] == '\n') && forall k | 0 <= k < n :: s[k] != '\n'
  {
    if s == "" || s[0] == '\n' then 0 else 1 + LineEnd(s[1..])
  }

  /** `bytes.Split` at newlines. */
  function Lines(s: string): seq<string> {
    var n := LineEnd(s);
    if n == |s| then [s] else [s[..n]] + Lines(s[n + 1..])
  }

  function TrimCR(s: string): string {
    if s != "" && Last(s) == '\r' then TrimCR(s[..|s| - 1]) else s
  }

  function TrimRight(s: string): string {
    if s != "" && Blank(Last(s)) then TrimRight(s[..|s| - 1]) else s
  }

  function TrimLeft(s: string): string {
    if s != "" && Blank(s[0]) then TrimLeft(s[1..]) else s
  }

  function TrimSpace(s: string): string { TrimRight(TrimLeft(s)) }

  /** The payload of one line, if it has one. */
  function PayloadOf(line: string): Option<string> {
    var l := TrimCR(line);
    if !(DATA <= l) then None
    else
      var p := TrimSpace(l[|DATA|..]);
      if p == "" || p == "[DONE]" then None else Some(p)
  }

  function Payloads(lines: seq<string>): seq<string> {
    if lines == [] then []
    else
      Payloads(lines[..|lines| - 1])
      + (match PayloadOf(Last(lines)) case Some(p) => [p] case None => [])
  }

  /** `splitSSEChunks`. */
  method SplitSSEChunks(data: string) returns (chunks: seq<string>)
    ensures chunks == Payloads(Lines(data))
  {
    chunks := [];
    var lines := Lines(data);
    for i := 0 to |lines|
      invariant chunks == Payloads(lines[..i])
    {
      assert lines[..i + 1][..i] == lines[..i];
      var line := TrimCR(lines[i]);
      if DATA <= line {
        var payload := TrimSpace(line[|DATA|..]);
        if !(|payload| == 0 || payload == "[DONE]") {
          chunks := chunks + [payload];
        }
      }
    }
    assert lines[..|lines|] == lines;
  }

  /** A payload that survives framing: one line, no blanks at its ends, not the end marker. */
  predicate Plain(p: string) {
    && p != "" && p != "[DONE]" && !Blank(p[0]) && !Blank(Last(p))
    && forall k | 0 <= k < |p| :: p[k] != '\n'
  }

  /** One event per payload, lines ended by `eol`. */
  function Frames(ps: seq<string>, eol: string): string {
    if ps == [] then "" else DATA + ps[0] + eol + Frames(ps[1..], eol)
  }

  lemma {:induction false} FirstLine(a: string, rest: string)
    requires forall k | 0 <= k < |a| :: a[k] != '\n'
    ensures Lines(a + "\n" + rest) == [a] + Lines(rest)
  {
    var s := a + "\n" + rest;
    assert s[|a|] == '\n' && forall k | 0 <= k < |a| :: s[k] == a[k];
    assert LineEnd(s) == |a|;
    assert s[..|a|] == a && s[|a| + 1..] == rest;
  }

  lemma PayloadOfFrame(p: string, cr: string)
    requires Plain(p) && (cr == "" || cr == "\r")
    ensures PayloadOf(DATA + p + cr) == Some(p)
  {
    var l := DATA + p;
    assert Last(l) == Last(p);
    assert l + "" == l && (l + "\r")[..|l|] == l;
    assert TrimCR(l + cr) == l;
    assert l[|DATA|..] == p;
  }

  lemma {:induction false} PayloadsCons(x: string, ls: seq<string>)
    ensures Payloads([x] + ls) == (match PayloadOf(x) case Some(p) => [p] case None => []) + Payloads(ls)
  {
    if ls == [] {
      assert [x] + ls == [x] && [x][..0] == [];
    } else {
      assert ([x] + ls)[..|ls|] == [x] + ls[..|ls| - 1];
      PayloadsCons(x, ls[..|ls| - 1]);
    }
  }

  lemma FrameSplits(p: string, cr: string, rest: string)
    requires Plain(p) && (cr == "" || cr == "\r")
    ensures Payloads(Lines(DATA + p + (cr + "\n") + rest)) == [p] + Payloads(Lines(rest))
  {
    var first := DATA + p + cr;
    assert DATA + p + (cr + "\n") + rest == first + "\n" + rest;
    FirstLine(first, rest);
    PayloadOfFrame(p, cr);
    PayloadsCons(first, Lines(rest));
  }

  /** Framing and splitting give back the payloads, with either line ending. */
  lemma {:induction false} FramesRoundTrip(ps: seq<string>, cr: string)
    requires forall i | 0 <= i < |ps| :: Plain(ps[i])
    requires cr == "" || cr == "\r"
    ensures Payloads(Lines(Frames(ps, cr + "\n"))) == ps
  {
    if ps == [] {
      assert Lines("") == [""];
      PayloadsCons("", []);
    } else {
      FramesRoundTrip(ps[1..], cr);
      FrameSplits(ps[0], cr, Frames(ps[1..], cr + "\n"));
    }
  }

  predicate Blanks(s: string) { forall i | 0 <= i < |s| :: Blank(s[i]) }

  lemma {:induction false} TrimLeftBlanks(a: string, p: string)
    requires Blanks(a) && p != "" && !Blank(p[0])
    ensures TrimLeft(a + p) == p
  {
    if a != "" {
      assert (a + p)[1..] == a[1..] + p;
      TrimLeftBlanks(a[1..], p);
    } else {
      assert a + p == p;
    }
  }

  lemma {:induction false} TrimRightBlanks(p: string, b: string)
    requires Blanks(b) && p != "" && !Blank(Last(p))
    ensures TrimRight(p + b) == p
  {
    if b != "" {
      assert (p + b)[..|p + b| - 1] == p + b[..|b| - 1];
      TrimRightBlanks(p, b[..|b| - 1]);
    } else {
      assert p + b == p;
    }
  }

  /** Blanks around a payload are taken off, whether or not the line ends with a carriage return. */
  lemma {:induction false} BlanksIgnored(a: string, p: string, b: string)
    requires Plain(p) && Blanks(a) && Blanks(b)
    ensures PayloadOf(DATA + (a + p + b)) == Some(p)
  {
    var l := DATA + (a + p + b);
    TrimsSuffix(DATA + (a + p), b);
    assert l == DATA + (a + p) + b;
    var c :| c <= b && TrimCR(l) == DATA + (a + p) + c;
    assert TrimCR(l)[|DATA|..] == a + (p + c);
    assert forall i | 0 <= i < |c| :: c[i] == b[i];
    assert (p + c)[0] == p[0];
    TrimLeftBlanks(a, p + c);
    TrimRightBlanks(p, c);
  }

  lemma {:induction false} TrimsSuffix(s: string, b: string)
    requires s != "" && Last(s) != '\r'
    ensures exists c :: c <= b && TrimCR(s + b) == s + c
  {
    if b != "" && Last(b) == '\r' {
      assert (s + b)[..|s + b| - 1] == s + b[..|b| - 1];
      TrimsSuffix(s, b[..|b| - 1]);
      var c :| c <= b[..|b| - 1] && TrimCR(s + b[..|b| - 1]) == s + c;
      assert c <= b;
    } else if b == "" {
      assert s + b == s + "" == s;
    } else {
      assert Last(s + b) == Last(b);
      assert b <= b;
    }
  }

  // ---- deltas ----

  /** The index of a choice or block: a 64-bit integer. */
  type Index = i: int | -0x8000_0000_0000_0000 <= i < 0x8000_0000_0000_0000

  /** A counter as a 64-bit integer. */
  function Wrap(n: int): Index {
    (n + 0x8000_0000_0000_0000) % 0x1_0000_0000_0000_0000 - 0x8000_0000_0000_0000
  }

  /** One choice of an OpenAI chunk. */
  datatype Choice = Choice(index: Option<Index>, delta: Option<string>) | BrokenChoice

  /** One Anthropic event. */
  datatype Event = Event(kind: string, index: Option<Index>, text: Option<string>)

  /** A piece of text for the choice or block with a given index. */
  datatype Piece = Piece(key: Index, text: string)

  /** The text collected per index, as the builders hold it. */
  function Add(m: map<Index, string>, p: Piece): map<Index, string> {
    m[p.key := (if p.key in m then m[p.key] else "") + p.text]
  }

  function AddAll(m: map<Index, string>, ps: seq<Piece>): map<Index, string> {
    if ps == [] then m else Add(AddAll(m, ps[..|ps| - 1]), Last(ps))
  }

  /** The pieces of the first `k` choices; without an explicit index the array position counts. */
  function ChoicePieces(cs: seq<Choice>, k: nat): seq<Piece>
    requires k <= |cs|
  {
    if k == 0 then []
    else
      var c := cs[k - 1];
      ChoicePieces(cs, k - 1)
      + if c.Choice? && c.delta.Some? && c.delta.value != ""
        then [Piece(if c.index.Some? then c.index.value else Wrap(k - 1), c.delta.value)] else []
  }

  function ChunkPieces(chunks: seq<seq<Choice>>): seq<Piece> {
    if chunks == [] then []
    else ChunkPieces(chunks[..|chunks| - 1]) + ChoicePieces(Last(chunks), |Last(chunks)|)
  }

  function EventPieces(es: seq<Event>): seq<Piece> {
    if es == [] then []
    else
      var e := Last(es);
      EventPieces(es[..|es| - 1])
      + if e.kind == "content_block_delta" && e.index.Some? && e.text.Some? && e.text.value != ""
        then [Piece(e.index.value, e.text.value)] else []
  }

  lemma AddAllAppend(m: map<Index, string>, ps: seq<Piece>, p: Piece)
    ensures AddAll(m, ps + [p]) == Add(AddAll(m, ps), p)
  {
    assert (ps + [p])[..|ps|] == ps;
  }

  lemma {:induction false} AddAllConcat(m: map<Index, string>, ps: seq<Piece>, qs: seq<Piece>)
    ensures AddAll(m, ps + qs) == AddAll(AddAll(m, ps), qs)
  {
    if qs == [] {
      assert ps + qs == ps;
    } else {
      assert (ps + qs)[..|ps + qs| - 1] == ps + qs[..|qs| - 1];
      AddAllConcat(m, ps, qs[..|qs| - 1]);
    }
  }

  /** `%d` for any integer. */
  function Decimal(n: int): string {
    if n < 0 then "-" + Itoa(Abs(n)) else Itoa(n)
  }

  function Abs(n: int): nat {
    if n < 0 then -n else n
  }

  /** The keys in ascending order. */
  ghost function Ascending(keys: set<Index>): seq<Index>
    decreases keys
  {
    if keys == {} then []
    else
      SomeLeast(keys);
      var k :| Least(keys, k);
      [k] + Ascending(keys - {k})
  }

  predicate Least(keys: set<Index>, k: Index) {
    k in keys && forall j | j in keys :: k <= j
  }

  lemma {:induction false} SomeLeast(keys: set<Index>)
    requires keys != {}
    ensures exists k :: Least(keys, k)
    decreases |keys|
  {
    var k :| k in keys;
    assert forall i | i in keys :: i == k || i in keys - {k};
    if keys - {k} == {} {
      assert Least(keys, k);
    } else {
      SomeLeast(keys - {k});
      var j :| Least(keys - {k}, j);
      var l := if k <= j then k else j;
      assert Least(keys, l);
    }
  }

  /** One field per key, in ascending order. */
  ghost function KeyFields(m: map<Index, string>, keys: seq<Index>, before: string, after: string): seq<Field>
    requires forall k | k in keys :: k in m
  {
    if keys == [] then []
    else
      var k := keys[|keys| - 1];
      var fs := KeyFields(m, keys[..|keys| - 1], before, after);
      fs + [Field(m[k], before + Decimal(k) + after, |fs|)]
  }

  ghost function Fields(m: map<Index, string>, before: string, after: string): seq<Field> {
    AscendingKeys(m.Keys);
    KeyFields(m, Ascending(m.Keys), before, after)
  }

  lemma {:induction false} AscendingKeys(keys: set<Index>)
    ensures forall k :: k in Ascending(keys) <==> k in keys
    ensures forall i, j | 0 <= i < j < |Ascending(keys)| :: Ascending(keys)[i] < Ascending(keys)[j]
    decreases keys
  {
    if keys != {} {
      SomeLeast(keys);
      var k :| Least(keys, k) && Ascending(keys) == [k] + Ascending(keys - {k});
      AscendingKeys(keys - {k});
      forall j | 0 <= j < |Ascending(keys - {k})| ensures k < Ascending(keys - {k})[j] {
        assert Ascending(keys - {k})[j] in keys - {k};
      }
    }
  }

  // ---- the two stream extractors ----

  /** `sort.Ints` over the keys of the builders. */
  method SortedKeys(m: map<Index, string>) returns (keys: seq<Index>)
    ensures keys == Ascending(m.Keys)
  {
    keys := [];
    var left := m.Keys;
    while left != {}
      invariant keys + Ascending(left) == Ascending(m.Keys)
      decreases left
    {
      SomeLeast(left);
      var k :| k in left && forall j | j in left :: k <= j;
      assert Least(left, k);
      AscendingFirst(left, k);
      assert keys + ([k] + Ascending(left - {k})) == keys + [k] + Ascending(left - {k});
      keys, left := keys + [k], left - {k};
    }
    assert keys + [] == keys;
  }

  lemma OneLeast(keys: set<Index>, j: Index, k: Index)
    requires Least(keys, j) && Least(keys, k)
    ensures j == k
  {
  }

  lemma AscendingFirst(keys: set<Index>, k: Index)
    requires Least(keys, k)
    ensures Ascending(keys) == [k] + Ascending(keys - {k})
  {
    forall j: Index | Least(keys, j) ensures j == k { OneLeast(keys, j, k); }
    assert k in keys;
  }

  method KeysToFields(deltas: map<Index, string>, before: string, after: string) returns (fields: seq<Field>)
    requires NoneEmpty(deltas)
    ensures fields == Fields(deltas, before, after)
  {
    AscendingKeys(deltas.Keys);
    var keys := SortedKeys(deltas);
    fields := [];
    for i := 0 to |keys|
      invariant forall k | k in keys[..i] :: k in deltas
      invariant fields == KeyFields(deltas, keys[..i], before, after)
    {
      assert keys[i] in keys;
      assert keys[..i + 1][..i] == keys[..i];
      if |deltas[keys[i]]| > 0 {
        fields := fields + [Field(deltas[keys[i]], before + Decimal(keys[i]) + after, |fields|)];
      }
    }
    assert keys[..|keys|] == keys;
  }

  /** `openAIExtractor.extractSSE` from the parsed chunks. */
  method ExtractOpenAIStream(chunks: seq<seq<Choice>>) returns (fields: seq<Field>)
    ensures fields == Fields(AddAll(map[], ChunkPieces(chunks)), "choices[", "].delta.content")
  {
    var deltas: map<Index, string> := map[];
    for i := 0 to |chunks|
      invariant deltas == AddAll(map[], ChunkPieces(chunks[..i]))
      invariant NoneEmpty(deltas)
    {
      deltas := AddChunk(deltas, chunks[i]);
      AddAllConcat(map[], ChunkPieces(chunks[..i]), ChoicePieces(chunks[i], |chunks[i]|));
      assert chunks[..i + 1][..i] == chunks[..i];
    }
    assert chunks[..|chunks|] == chunks;
    fields := KeysToFields(deltas, "choices[", "].delta.content");
  }

  ghost predicate NoneEmpty(m: map<Index, string>) {
    forall k | k in m :: m[k] != ""
  }

  lemma AddKeepsText(m: map<Index, string>, p: Piece)
    requires NoneEmpty(m) && p.text != ""
    ensures NoneEmpty(Add(m, p))
  {
    var b := if p.key in m then m[p.key] else "";
    assert |b + p.text| > 0;
  }

  /** The key under which the choice at position `k` counts. */
  function KeyOf(c: Choice, k: nat): Index
    requires c.Choice?
  {
    if c.index.Some? then c.index.value else Wrap(k)
  }

  predicate HasDelta(c: Choice) { c.Choice? && c.delta.Some? && c.delta.value != "" }

  lemma ChoiceNext(m: map<Index, string>, cs: seq<Choice>, k: nat)
    requires k < |cs|
    ensures AddAll(m, ChoicePieces(cs, k + 1))
            == if HasDelta(cs[k]) then Add(AddAll(m, ChoicePieces(cs, k)), Piece(KeyOf(cs[k], k), cs[k].delta.value))
               else AddAll(m, ChoicePieces(cs, k))
  {
    if HasDelta(cs[k]) {
      AddAllAppend(m, ChoicePieces(cs, k), Piece(KeyOf(cs[k], k), cs[k].delta.value));
    } else {
      assert ChoicePieces(cs, k) + [] == ChoicePieces(cs, k);
    }
  }

  /** The choices of one chunk. */
  method AddChunk(deltas: map<Index, string>, choices: seq<Choice>) returns (deltas': map<Index, string>)
    requires NoneEmpty(deltas)
    ensures deltas' == AddAll(deltas, ChoicePieces(choices, |choices|)) && NoneEmpty(deltas')
  {
    deltas' := deltas;
    var arrayPos := 0;
    while arrayPos < |choices|
      invariant arrayPos <= |choices| && deltas' == AddAll(deltas, ChoicePieces(choices, arrayPos)) && NoneEmpty(deltas')
    {
      ChoiceNext(deltas, choices, arrayPos);
      match choices[arrayPos] {
        case BrokenChoice =>
        case Choice(index, delta) =>
          var idx := if index.Some? then index.value else Wrap(arrayPos);
          if delta.Some? && delta.value != "" {
            AddKeepsText(deltas', Piece(idx, delta.value));
            var b := if idx in deltas' then deltas'[idx] else "";
            deltas' := deltas'[idx := b + delta.value];
          }
      }
      arrayPos := arrayPos + 1;
    }
  }

  /** `anthropicExtractor.extractSSE` from the parsed events. */
  method ExtractAnthropicStream(events: seq<Event>) returns (fields: seq<Field>)
    ensures fields == Fields(AddAll(map[], EventPieces(events)), "content_block[", "].text")
  {
    var deltas: map<Index, string> := map[];
    for i := 0 to |events|
      invariant deltas == AddAll(map[], EventPieces(events[..i]))
      invariant NoneEmpty(deltas)
    {
      assert events[..i + 1][..i] == events[..i];
      assert EventPieces(events[..i]) + [] == EventPieces(events[..i]);
      var e := events[i];
      if e.kind == "content_block_delta" && e.index.Some? && e.text.Some? && e.text.value != "" {
        AddAllAppend(map[], EventPieces(events[..i]), Piece(e.index.value, e.text.value));
        AddKeepsText(deltas, Piece(e.index.value, e.text.value));
        var b := if e.index.value in deltas then deltas[e.index.value] else "";
        deltas := deltas[e.index.value := b + e.text.value];
      }
    }
    assert events[..|events|] == events;
    fields := KeysToFields(deltas, "content_block[", "].text");
  }

  // ---- cutting a delta ----

  lemma AddTwice(m: map<Index, string>, k: Index, x: string, y: string)
    ensures Add(Add(m, Piece(k, x)), Piece(k, y)) == Add(m, Piece(k, x + y))
  {
    var b := if k in m then m[k] else "";
    assert b + x + y == b + (x + y);
  }

  /** A piece, or nothing if it is empty. */
  function One(k: Index, x: string): seq<Piece> {
    if x != "" then [Piece(k, x)] else []
  }

  lemma CutPiece(m: map<Index, string>, k: Index, x: string, y: string)
    ensures AddAll(m, One(k, x) + One(k, y)) == AddAll(m, One(k, x + y))
  {
    AddTwice(m, k, x, y);
    if x != "" && y != "" {
      AddAllAppend(m, [Piece(k, x)], Piece(k, y));
    } else if x == "" {
      assert x + y == y && [] + One(k, y) == One(k, y);
    } else {
      assert x + y == x && One(k, x) + [] == One(k, x);
    }
  }

  /** In the middle of a stream a piece may arrive in two parts. */
  lemma CutInside(p: seq<Piece>, k: Index, x: string, y: string, q: seq<Piece>)
    ensures AddAll(map[], p + One(k, x) + One(k, y) + q) == AddAll(map[], p + One(k, x + y) + q)
  {
    var m := AddAll(map[], p);
    AddAllConcat(map[], p + One(k, x) + One(k, y), q);
    AddAllConcat(map[], p + One(k, x + y), q);
    assert p + One(k, x) + One(k, y) == p + (One(k, x) + One(k, y));
    AddAllConcat(map[], p, One(k, x) + One(k, y));
    AddAllConcat(map[], p, One(k, x + y));
    CutPiece(m, k, x, y);
  }

  lemma {:induction false} EventsConcat(a: seq<Event>, b: seq<Event>)
    ensures EventPieces(a + b) == EventPieces(a) + EventPieces(b)
  {
    if b == [] {
      assert a + b == a;
    } else {
      assert (a + b)[..|a + b| - 1] == a + b[..|b| - 1];
      EventsConcat(a, b[..|b| - 1]);
    }
  }

  function Delta(k: Index, x: string): Event { Event("content_block_delta", Some(k), Some(x)) }

  lemma OneEvent(k: Index, x: string)
    ensures EventPieces([Delta(k, x)]) == One(k, x)
  {
    assert [Delta(k, x)][..0] == [];
  }

  /** Cutting an Anthropic text delta in two leaves the extracted fields unchanged. */
  lemma AnthropicCut(a: seq<Event>, k: Index, x: string, y: string, b: seq<Event>)
    ensures Fields(AddAll(map[], EventPieces(a + [Delta(k, x), Delta(k, y)] + b)), "content_block[", "].text")
            == Fields(AddAll(map[], EventPieces(a + [Delta(k, x + y)] + b)), "content_block[", "].text")
  {
    var p, q := EventPieces(a), EventPieces(b);
    EventsConcat(a + [Delta(k, x), Delta(k, y)], b);
    assert a + [Delta(k, x), Delta(k, y)] == a + [Delta(k, x)] + [Delta(k, y)];
    EventsConcat(a + [Delta(k, x)], [Delta(k, y)]);
    EventsConcat(a, [Delta(k, x)]);
    EventsConcat(a + [Delta(k, x + y)], b);
    EventsConcat(a, [Delta(k, x + y)]);
    OneEvent(k, x);
    OneEvent(k, y);
    OneEvent(k, x + y);
    CutInside(p, k, x, y, q);
  }

  lemma {:induction false} ChoicesPrefix(cs: seq<Choice>, ds: seq<Choice>, k: nat)
    requires k <= |cs|
    ensures ChoicePieces(cs + ds, k) == ChoicePieces(cs, k)
  {
    if k > 0 { ChoicesPrefix(cs, ds, k - 1); }
  }

  /** Every choice carries its own index. */
  predicate Explicit(cs: seq<Choice>) {
    forall i | 0 <= i < |cs| :: cs[i].Choice? ==> cs[i].index.Some?
  }

  /** Choices with explicit indices count the same wherever they stand in the array. */
  lemma {:induction false} ChoicesConcat(cs: seq<Choice>, ds: seq<Choice>, k: nat)
    requires k <= |ds| && Explicit(ds)
    ensures ChoicePieces(cs + ds, |cs| + k) == ChoicePieces(cs, |cs|) + ChoicePieces(ds, k)
  {
    if k == 0 {
      ChoicesPrefix(cs, ds, |cs|);
    } else {
      ChoicesConcat(cs, ds, k - 1);
      assert (cs + ds)[|cs| + k - 1] == ds[k - 1];
    }
  }

  lemma {:induction false} ChunksConcat(a: seq<seq<Choice>>, b: seq<seq<Choice>>)
    ensures ChunkPieces(a + b) == ChunkPieces(a) + ChunkPieces(b)
  {
    if b == [] {
      assert a + b == a;
    } else {
      assert (a + b)[..|a + b| - 1] == a + b[..|b| - 1];
      ChunksConcat(a, b[..|b| - 1]);
    }
  }

  lemma OneChunk(c: seq<Choice>)
    ensures ChunkPieces([c]) == ChoicePieces(c, |c|)
  {
    assert [c][..0] == [];
  }

  function ChoiceDelta(k: Index, x: string): Choice { Choice(Some(k), Some(x)) }

  lemma OneChoice(k: Index, x: string)
    ensures ChoicePieces([ChoiceDelta(k, x)], 1) == One(k, x)
  {
    assert ChoicePieces([ChoiceDelta(k, x)], 0) == [];
  }

  lemma ChoiceLast(cs: seq<Choice>, k: Index, x: string)
    ensures var c := cs + [ChoiceDelta(k, x)]; ChoicePieces(c, |c|) == ChoicePieces(cs, |cs|) + One(k, x)
  {
    ChoicesConcat(cs, [ChoiceDelta(k, x)], 1);
    OneChoice(k, x);
  }

  lemma ChoiceFirst(k: Index, y: string, ds: seq<Choice>)
    requires Explicit(ds)
    ensures var c := [ChoiceDelta(k, y)] + ds; ChoicePieces(c, |c|) == One(k, y) + ChoicePieces(ds, |ds|)
  {
    ChoicesConcat([ChoiceDelta(k, y)], ds, |ds|);
    OneChoice(k, y);
  }

  /** An OpenAI chunk with a delta in it. */
  function Whole(cs: seq<Choice>, k: Index, x: string, ds: seq<Choice>): seq<seq<Choice>> {
    [cs + [ChoiceDelta(k, x)] + ds]
  }

  /**
   The chunk cut at the delta: the choices before it and the first part of the
   delta in one chunk, the second part and the rest in the next.
   */
  function Halves(cs: seq<Choice>, k: Index, x: string, y: string, ds: seq<Choice>): seq<seq<Choice>> {
    [cs + [ChoiceDelta(k, x)], [ChoiceDelta(k, y)] + ds]
  }

  lemma WholePieces(cs: seq<Choice>, k: Index, x: string, ds: seq<Choice>)
    requires Explicit(ds)
    ensures ChunkPieces(Whole(cs, k, x, ds)) == ChoicePieces(cs, |cs|) + One(k, x) + ChoicePieces(ds, |ds|)
  {
    OneChunk(cs + [ChoiceDelta(k, x)] + ds);
    ChoicesConcat(cs + [ChoiceDelta(k, x)], ds, |ds|);
    ChoiceLast(cs, k, x);
  }

  lemma HalvesPieces(cs: seq<Choice>, k: Index, x: string, y: string, ds: seq<Choice>)
    requires Explicit(ds)
    ensures ChunkPieces(Halves(cs, k, x, y, ds))
            == ChoicePieces(cs, |cs|) + One(k, x) + (One(k, y) + ChoicePieces(ds, |ds|))
  {
    var c1, c2 := cs + [ChoiceDelta(k, x)], [ChoiceDelta(k, y)] + ds;
    assert Halves(cs, k, x, y, ds) == [c1] + [c2];
    ChunksConcat([c1], [c2]);
    OneChunk(c1);
    OneChunk(c2);
    ChoiceLast(cs, k, x);
    ChoiceFirst(k, y, ds);
  }

  lemma Regroup(pa: seq<Piece>, pc: seq<Piece>, px: seq<Piece>, py: seq<Piece>, pd: seq<Piece>, pb: seq<Piece>)
    ensures pa + (pc + px + (py + pd)) + pb == (pa + pc) + px + py + (pd + pb)
    ensures pa + (pc + px + pd) + pb == (pa + pc) + px + (pd + pb)
  {
  }

  lemma InStream(a: seq<seq<Choice>>, m: seq<seq<Choice>>, b: seq<seq<Choice>>)
    ensures ChunkPieces(a + m + b) == ChunkPieces(a) + ChunkPieces(m) + ChunkPieces(b)
  {
    ChunksConcat(a + m, b);
    ChunksConcat(a, m);
  }

  /** Cutting an OpenAI delta in two chunks with the same explicit index leaves the extracted fields unchanged. */
  lemma OpenAICut(a: seq<seq<Choice>>, cs: seq<Choice>, k: Index, x: string, y: string, ds: seq<Choice>,
                  b: seq<seq<Choice>>)
    requires Explicit(ds)
    ensures Fields(AddAll(map[], ChunkPieces(a + Halves(cs, k, x, y, ds) + b)), "choices[", "].delta.content")
            == Fields(AddAll(map[], ChunkPieces(a + Whole(cs, k, x + y, ds) + b)), "choices[", "].delta.content")
  {
    var pa, pc, pd, pb := ChunkPieces(a), ChoicePieces(cs, |cs|), ChoicePieces(ds, |ds|), ChunkPieces(b);
    InStream(a, Halves(cs, k, x, y, ds), b);
    HalvesPieces(cs, k, x, y, ds);
    Regroup(pa, pc, One(k, x), One(k, y), pd, pb);
    InStream(a, Whole(cs, k, x + y, ds), b);
    WholePieces(cs, k, x + y, ds);
    Regroup(pa, pc, One(k, x + y), [], pd, pb);
    CutInside(pa + pc, k, x, y, pd + pb);
  }

  // ---- which deltas count ----

  /** A text delta of content block `k`. */
  predicate IsDelta(e: Event, k: Index, t: string) {
    e.kind == "content_block_delta" && e.index == Some(k) && e.text == Some(t) && t != ""
  }

  /** The next event adds its text to its block if it is a text delta, and nothing to any other block. */
  lemma NextEvent(es: seq<Event>, e: Event, k: Index)
    ensures TextOf(EventPieces(es + [e]), k)
            == TextOf(EventPieces(es), k)
               + if e.text.Some? && IsDelta(e, k, e.text.value) then e.text.value else ""
    ensures Arrived(EventPieces(es + [e]), k)
            <==> Arrived(EventPieces(es), k) || (e.text.Some? && IsDelta(e, k, e.text.value))
  {
    assert (es + [e])[..|es|] == es;
    if e.kind == "content_block_delta" && e.index.Some? && e.text.Some? && e.text.value != "" {
      NextPiece(EventPieces(es), Piece(e.index.value, e.text.value), k);
    } else {
      assert EventPieces(es) + [] == EventPieces(es);
    }
  }

  lemma NextPiece(ps: seq<Piece>, p: Piece, k: Index)
    ensures TextOf(ps + [p], k) == TextOf(ps, k) + if p.key == k then p.text else ""
    ensures Arrived(ps + [p], k) <==> Arrived(ps, k) || p.key == k
  {
    assert (ps + [p])[..|ps|] == ps;
    assert forall i | 0 <= i < |ps| :: (ps + [p])[i] == ps[i];
    assert (ps + [p])[|ps|] == p;
  }

  /** The text delta of a choice at position `n`: its own index counts, and without one its position. */
  predicate IsChoiceDelta(c: Choice, n: nat, k: Index, t: string) {
    c.Choice? && c.delta == Some(t) && t != "" && match c.index case Some(i) => k == i case None => k == Wrap(n)
  }

  /** The next choice of a chunk, likewise. */
  lemma NextChoice(cs: seq<Choice>, n: nat, k: Index)
    requires n < |cs|
    ensures TextOf(ChoicePieces(cs, n + 1), k)
            == TextOf(ChoicePieces(cs, n), k)
               + if cs[n].Choice? && cs[n].delta.Some? && IsChoiceDelta(cs[n], n, k, cs[n].delta.value)
                 then cs[n].delta.value else ""
    ensures Arrived(ChoicePieces(cs, n + 1), k)
            <==> Arrived(ChoicePieces(cs, n), k)
                 || (cs[n].Choice? && cs[n].delta.Some? && IsChoiceDelta(cs[n], n, k, cs[n].delta.value))
  {
    if cs[n].Choice? && cs[n].delta.Some? && cs[n].delta.value != "" {
      NextPiece(ChoicePieces(cs, n), Piece(KeyOf(cs[n], n), cs[n].delta.value), k);
    } else {
      assert ChoicePieces(cs, n) + [] == ChoicePieces(cs, n);
    }
  }

  lemma {:induction false} TrimmedIsPrefix(s: string)
    ensures TrimCR(s) <= s
  {
    if s != "" && Last(s) == '\r' { TrimmedIsPrefix(s[..|s| - 1]); }
  }

  /** A line without the prefix is no payload. */
  lemma OtherLinesIgnored(line: string)
    requires !(DATA <= line)
    ensures PayloadOf(line) == None
  {
    TrimmedIsPrefix(line);
  }

  /** Neither is an empty one, nor the end marker. */
  lemma MarkersIgnored(cr: string)
    requires cr == "" || cr == "\r"
    ensures PayloadOf(DATA + cr) == None && PayloadOf(DATA + "[DONE]" + cr) == None
  {
    var done := DATA + "[DONE]";
    assert (done + "\r")[..|done|] == done && done[|DATA|..] == "[DONE]";
    assert (DATA + "\r")[..|DATA|] == DATA && DATA[|DATA|..] == "";
    assert TrimCR(done + cr) == done && TrimCR(DATA + cr) == DATA;
  }

  // ---- what is collected ----

  /** All the text that arrived for one key, in order of arrival. */
  function TextOf(ps: seq<Piece>, k: Index): string {
    if ps == [] then "" else TextOf(ps[..|ps| - 1], k) + (if Last(ps).key == k then Last(ps).text else "")
  }

  /** Each key holds the concatenation of its pieces; keys without a piece are absent. */
  lemma {:induction false} CollectedText(ps: seq<Piece>, k: Index)
    ensures k in AddAll(map[], ps) <==> exists i :: 0 <= i < |ps| && ps[i].key == k
    ensures k in AddAll(map[], ps) ==> AddAll(map[], ps)[k] == TextOf(ps, k)
    ensures k !in AddAll(map[], ps) ==> TextOf(ps, k) == ""
  {
    if ps != [] {
      var init := ps[..|ps| - 1];
      CollectedText(init, k);
      if k in AddAll(map[], init) {
        var i :| 0 <= i < |init| && init[i].key == k;
        assert ps[i].key == k;
      }
      if Last(ps).key == k { assert ps[|ps| - 1].key == k; }
    }
  }

  lemma DecimalInjective(m: Index, n: Index)
    requires Decimal(m) == Decimal(n)
    ensures m == n
  {
    ItoaValue(Abs(m));
    ItoaValue(Abs(n));
    assert Decimal(m)[0] == '-' <==> m < 0;
    assert Decimal(n)[0] == '-' <==> n < 0;
    assert m < 0 ==> Decimal(m)[1..] == Itoa(Abs(m));
    assert n < 0 ==> Decimal(n)[1..] == Itoa(Abs(n));
  }

  lemma NoBracketInDecimal(n: Index)
    ensures ']' !in Decimal(n)
  {
    NoBracket(Abs(n));
  }

  lemma KeyPathInjective(before: string, rest: string, m: Index, n: Index)
    requires before + Decimal(m) + ("]" + rest) == before + Decimal(n) + ("]" + rest)
    ensures m == n
  {
    assert (before + Decimal(m) + ("]" + rest))[|before|..] == Decimal(m) + "]" + rest;
    assert (before + Decimal(n) + ("]" + rest))[|before|..] == Decimal(n) + "]" + rest;
    NoBracketInDecimal(m);
    NoBracketInDecimal(n);
    BracketSplits(Decimal(m), rest, Decimal(n), rest);
    DecimalInjective(m, n);
  }

  lemma {:induction false} KeyFieldsAt(m: map<Index, string>, keys: seq<Index>, before: string, after: string, i: nat)
    requires (forall k | k in keys :: k in m) && i < |keys|
    ensures var fs := KeyFields(m, keys, before, after);
            |fs| == |keys| && fs[i] == Field(m[keys[i]], before + Decimal(keys[i]) + after, i)
  {
    if i < |keys| - 1 {
      KeyFieldsAt(m, keys[..|keys| - 1], before, after, i);
    } else if i > 0 {
      KeyFieldsAt(m, keys[..|keys| - 1], before, after, i - 1);
    }
  }

  lemma FieldsAt(ps: seq<Piece>, before: string, after: string)
    ensures var keys, fs := Ascending(AddAll(map[], ps).Keys), Fields(AddAll(map[], ps), before, after);
            && |fs| == |keys|
            && forall i | 0 <= i < |fs| :: fs[i] == Field(TextOf(ps, keys[i]), before + Decimal(keys[i]) + after, i)
  {
    var m := AddAll(map[], ps);
    var keys, fs := Ascending(m.Keys), Fields(m, before, after);
    AscendingKeys(m.Keys);
    assert |fs| == |keys| by {
      if keys != [] { KeyFieldsAt(m, keys, before, after, 0); }
    }
    forall i | 0 <= i < |fs| ensures fs[i] == Field(TextOf(ps, keys[i]), before + Decimal(keys[i]) + after, i) {
      KeyFieldsAt(m, keys, before, after, i);
      CollectedText(ps, keys[i]);
    }
  }

  /** Some piece arrived for the key. */
  ghost predicate Arrived(ps: seq<Piece>, k: Index) {
    exists i | 0 <= i < |ps| :: ps[i].key == k
  }

  lemma ArrivedKeys(ps: seq<Piece>, k: Index)
    ensures Arrived(ps, k) <==> k in Ascending(AddAll(map[], ps).Keys)
  {
    CollectedText(ps, k);
    AscendingKeys(AddAll(map[], ps).Keys);
  }

  function KeyPath(before: string, k: Index, rest: string): string {
    before + Decimal(k) + ("]" + rest)
  }

  /** The texts and paths of the fields are those of the keys that a piece arrived for. */
  ghost predicate FieldsOf(fs: seq<Field>, ps: seq<Piece>, before: string, rest: string) {
    && (forall k | Arrived(ps, k) :: Carries(fs, TextOf(ps, k), KeyPath(before, k, rest)))
    && forall t, p | Carries(fs, t, p) :: exists k :: Arrived(ps, k) && p == KeyPath(before, k, rest) && t == TextOf(ps, k)
  }

  lemma FieldOfKey(ps: seq<Piece>, before: string, rest: string, k: Index)
    requires Arrived(ps, k)
    ensures Carries(Fields(AddAll(map[], ps), before, "]" + rest), TextOf(ps, k), KeyPath(before, k, rest))
  {
    var keys, fs := Ascending(AddAll(map[], ps).Keys), Fields(AddAll(map[], ps), before, "]" + rest);
    FieldsAt(ps, before, "]" + rest);
    ArrivedKeys(ps, k);
    var i :| 0 <= i < |keys| && keys[i] == k;
    assert fs[i].text == TextOf(ps, k);
  }

  /**
   The fields of a stream: exactly one for each key that a piece arrived for,
   with the key's whole text, numbered from 0, with distinct paths.
   */
  lemma {:induction false} StreamFieldsGood(ps: seq<Piece>, before: string, rest: string)
    ensures var fs := Fields(AddAll(map[], ps), before, "]" + rest);
            Numbered(fs, 0) && Distinct(fs) && FieldsOf(fs, ps, before, rest)
  {
    var keys, fs := Ascending(AddAll(map[], ps).Keys), Fields(AddAll(map[], ps), before, "]" + rest);
    FieldsAt(ps, before, "]" + rest);
    AscendingKeys(AddAll(map[], ps).Keys);
    forall i, j | 0 <= i < j < |fs| ensures fs[i].path != fs[j].path {
      if fs[i].path == fs[j].path { KeyPathInjective(before, rest, keys[i], keys[j]); }
    }
    forall k | Arrived(ps, k) ensures Carries(fs, TextOf(ps, k), KeyPath(before, k, rest)) {
      FieldOfKey(ps, before, rest, k);
    }
    forall t, p | Carries(fs, t, p)
      ensures exists k :: Arrived(ps, k) && p == KeyPath(before, k, rest) && t == TextOf(ps, k)
    {
      var i :| 0 <= i < |fs| && fs[i].text == t && fs[i].path == p;
      ArrivedKeys(ps, keys[i]);
    }
  }

  lemma StreamEntries(fs: seq<Field>, ps: seq<Piece>, before: string, rest: string, redact: string -> string)
    requires Distinct(fs) && FieldsOf(fs, ps, before, rest)
    ensures var m := PathMap(Redacted(fs, redact));
            && (forall k | Arrived(ps, k) ::
                  KeyPath(before, k, rest) in m && m[KeyPath(before, k, rest)] == redact(TextOf(ps, k)))
            && forall p | p in m :: exists k :: Arrived(ps, k) && p == KeyPath(before, k, rest)
  {
    EntryEach(fs, redact);
  }

  /**
   From a stream to the record: every choice or block that text arrived for has
   its own entry, holding all of that text, redacted, and there are no others.
   */
  lemma {:induction false} NoStreamContentLost(ps: seq<Piece>, before: string, rest: string, redact: string -> string)
    ensures var m := PathMap(Redacted(Fields(AddAll(map[], ps), before, "]" + rest), redact));
            && (forall k | Arrived(ps, k) ::
                  KeyPath(before, k, rest) in m && m[KeyPath(before, k, rest)] == redact(TextOf(ps, k)))
            && forall p | p in m :: exists k :: Arrived(ps, k) && p == KeyPath(before, k, rest)
  {
    StreamFieldsGood(ps, before, rest);
    StreamEntries(Fields(AddAll(map[], ps), before, "]" + rest), ps, before, rest, redact);
  }
}
