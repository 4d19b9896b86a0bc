/**
 Content extraction from a parsed request body: which texts are found, the
 path each is filed under, and why no two fields share a path.
 */
module Extractor {
  import opened Prelude

  /** An element of a content array; `Broken` is one the parser could not read. */
  datatype Part = Part(kind: string, text: Option<string>) | BrokenPart

  /** The value of a "content" or "system" key. */
  datatype Content = Absent | Text(text: string) | Parts(parts: seq<Part>) | Other

  datatype Message = Message(content: Content) | BrokenMessage

  datatype Body = Body(system: Content, messages: seq<Message>)

  datatype Field = Field(text: string, path: string, index: nat)

  // ---- decimal numbers ----

  function Digit(n: nat): char
    requires n < 10
  {
    '0' + n as char
  }

  /** `%d` for a number that is not negative. */
  function Itoa(n: nat): string {
    if n < 10 then [Digit(n)] else Itoa(n / 10) + [Digit(n % 10)]
  }

  function Value(s: string): int {
    if s == "" then 0 else 10 * Value(s[..|s| - 1]) + (Last(s) as int - '0' as int)
  }

  lemma {:induction false} ItoaValue(n: nat)
    ensures Value(Itoa(n)) == n && Itoa(n) != ""
    ensures forall k | 0 <= k < |Itoa(n)| :: '0' <= Itoa(n)[k] <= '9'
  {
    if n >= 10 {
      ItoaValue(n / 10);
      assert Itoa(n)[..|Itoa(n)| - 1] == Itoa(n / 10);
    } else {
      assert [Digit(n)][..0] == "";
    }
  }

  lemma ItoaInjective(m: nat, n: nat)
    requires Itoa(m) == Itoa(n)
    ensures m == n
  {
    ItoaValue(m);
    ItoaValue(n);
  }

  // ---- paths ----

  function PartPath(prefix: string, k: nat): string {
    prefix + "[" + Itoa(k) + "].text"
  }

  function MessagePath(m: nat): string {
    "messages[" + Itoa(m) + "].content"
  }

  /** Up to the first closing bracket two equal strings are equal. */
  lemma BracketSplits(a: string, u: string, b: string, v: string)
    requires a + "]" + u == b + "]" + v && ']' !in a && ']' !in b
    ensures a == b && u == v
  {
    var s := a + "]" + u;
    assert s == b + "]" + v;
    assert s[|a|] == ']' && forall k | 0 <= k < |a| :: s[k] == a[k];
    assert s[|b|] == ']' && forall k | 0 <= k < |b| :: s[k] == b[k];
    assert a == s[..|a|] && b == s[..|b|];
    assert u == s[|a| + 1..] && v == s[|b| + 1..];
  }

  lemma NoBracket(n: nat)
    ensures ']' !in Itoa(n)
  {
    ItoaValue(n);
  }

  lemma PartPathInjective(prefix: string, j: nat, k: nat)
    requires PartPath(prefix, j) == PartPath(prefix, k)
    ensures j == k
  {
    var n := |prefix| + 1;
    assert PartPath(prefix, j)[n..] == Itoa(j) + "]" + ".text";
    assert PartPath(prefix, k)[n..] == Itoa(k) + "]" + ".text";
    NoBracket(j);
    NoBracket(k);
    BracketSplits(Itoa(j), ".text", Itoa(k), ".text");
    ItoaInjective(j, k);
  }

  /** Paths that begin with the paths of two messages tell the messages apart. */
  lemma MessagePathInjective(m: nat, u: string, n: nat, v: string)
    requires MessagePath(m) + u == MessagePath(n) + v
    ensures m == n
  {
    var a, b := Itoa(m) + "]" + (".content" + u), Itoa(n) + "]" + (".content" + v);
    assert MessagePath(m) + u == "messages[" + a && MessagePath(n) + v == "messages[" + b;
    assert ("messages[" + a)[9..] == a && ("messages[" + b)[9..] == b;
    NoBracket(m);
    NoBracket(n);
    BracketSplits(Itoa(m), ".content" + u, Itoa(n), ".content" + v);
    ItoaInjective(m, n);
  }

  // ---- extraction ----

  /** A text part with something in it. */
  predicate Wanted(p: Part) {
    p.Part? && p.kind == "text" && p.text.Some? && p.text.value != ""
  }

  /** The fields of the first `k` parts of a content array. */
  function PartFields(parts: seq<Part>, prefix: string, start: nat, k: nat): seq<Field>
    requires k <= |parts|
  {
    if k == 0 then []
    else
      var fs := PartFields(parts, prefix, start, k - 1);
      if Wanted(parts[k - 1]) then fs + [Field(parts[k - 1].text.value, PartPath(prefix, k - 1), start + |fs|)] else fs
  }

  /** `extractContentParts`. */
  method ExtractContentParts(parts: seq<Part>, pathPrefix: string, startIndex: nat) returns (fields: seq<Field>)
    ensures fields == PartFields(parts, pathPrefix, startIndex, |parts|)
  {
    fields := [];
    var partIdx := 0;
    while partIdx < |parts|
      invariant partIdx <= |parts| && fields == PartFields(parts, pathPrefix, startIndex, partIdx)
    {
      match parts[partIdx] {
        case BrokenPart =>
        case Part(kind, text) =>
          if kind == "text" {
            if text.Some? && text.value != "" {
              fields := fields + [Field(text.value, pathPrefix + "[" + Itoa(partIdx) + "].text", startIndex + |fields|)];
            }
          }
      }
      partIdx := partIdx + 1;
    }
  }

  /** The fields of one "content" or "system" value. */
  function ContentFields(c: Content, path: string, start: nat): seq<Field> {
    match c
    case Text(t) => if t != "" then [Field(t, path, start)] else []
    case Parts(ps) => PartFields(ps, path, start, |ps|)
    case _ => []
  }

  /** `extractMessageContent`, and `extractSystem` with its path. */
  method ExtractContent(c: Content, path: string, startIndex: nat) returns (fields: seq<Field>)
    ensures fields == ContentFields(c, path, startIndex)
  {
    match c
    case Text(t) =>
      if t != "" { return [Field(t, path, startIndex)]; }
      return [];
    case Parts(ps) => fields := ExtractContentParts(ps, path, startIndex);
    case _ => return [];
  }

  function MessageFields(m: Message, k: nat, start: nat): seq<Field> {
    if m.BrokenMessage? then [] else ContentFields(m.content, MessagePath(k), start)
  }

  /** The fields of the first `k` messages. */
  function MessagesFields(ms: seq<Message>, start: nat, k: nat): seq<Field>
    requires k <= |ms|
  {
    if k == 0 then []
    else
      var fs := MessagesFields(ms, start, k - 1);
      fs + MessageFields(ms[k - 1], k - 1, start + |fs|)
  }

  /** `extractMessagesArray`. */
  method ExtractMessagesArray(ms: seq<Message>, startIndex: nat) returns (fields: seq<Field>)
    ensures fields == MessagesFields(ms, startIndex, |ms|)
  {
    fields := [];
    var msgIdx := 0;
    while msgIdx < |ms|
      invariant msgIdx <= |ms| && fields == MessagesFields(ms, startIndex, msgIdx)
    {
      match ms[msgIdx] {
        case BrokenMessage =>
          assert fields + [] == fields;
        case Message(content) =>
          var extracted := ExtractContent(content, "messages[" + Itoa(msgIdx) + "].content", startIndex + |fields|);
          fields := fields + extracted;
      }
      msgIdx := msgIdx + 1;
    }
  }

  /** All fields of a request body: the system prompt, where the format has one, then the messages. */
  function BodyFields(b: Body): seq<Field> {
    var sys := ContentFields(b.system, "system", 0);
    sys + MessagesFields(b.messages, |sys|, |b.messages|)
  }

  /** `anthropicExtractor.ExtractContent` for a body that is not a stream. */
  method ExtractAnthropic(b: Body) returns (fields: seq<Field>)
    ensures fields == BodyFields(b)
  {
    fields := ExtractContent(b.system, "system", 0);
    var rest := ExtractMessagesArray(b.messages, |fields|);
    fields := fields + rest;
  }

  /** `openAIExtractor.ExtractContent`: no system prompt of its own. */
  method ExtractOpenAI(b: Body) returns (fields: seq<Field>)
    ensures fields == BodyFields(b.(system := Absent))
  {
    fields := ExtractMessagesArray(b.messages, 0);
    assert [] + fields == fields;
  }

  // ---- indices and distinct paths ----

  /** Numbered consecutively from `start`. */
  predicate Numbered(fs: seq<Field>, start: nat) {
    forall i | 0 <= i < |fs| :: fs[i].index == start + i
  }

  predicate Distinct(fs: seq<Field>) {
    forall i, j | 0 <= i < j < |fs| :: fs[i].path != fs[j].path
  }

  /** Every path begins with this prefix. */
  predicate Under(fs: seq<Field>, prefix: string) {
    forall i | 0 <= i < |fs| :: prefix <= fs[i].path
  }

  lemma {:induction false} PartFieldsGood(ps: seq<Part>, prefix: string, start: nat, k: nat)
    requires k <= |ps|
    ensures var fs := PartFields(ps, prefix, start, k);
            && Numbered(fs, start) && Distinct(fs) && Under(fs, prefix)
            && forall i | 0 <= i < |fs| :: exists j :: 0 <= j < k && fs[i].path == PartPath(prefix, j)
  {
    if k > 0 {
      PartFieldsGood(ps, prefix, start, k - 1);
      var fs := PartFields(ps, prefix, start, k - 1);
      if Wanted(ps[k - 1]) {
        forall i | 0 <= i < |fs| ensures fs[i].path != PartPath(prefix, k - 1) {
          var j :| 0 <= j < k - 1 && fs[i].path == PartPath(prefix, j);
          if PartPath(prefix, j) == PartPath(prefix, k - 1) { PartPathInjective(prefix, j, k - 1); }
        }
        assert prefix <= PartPath(prefix, k - 1);
      }
    }
  }

  lemma ContentFieldsGood(c: Content, path: string, start: nat)
    ensures var fs := ContentFields(c, path, start); Numbered(fs, start) && Distinct(fs) && Under(fs, path)
  {
    if c.Parts? { PartFieldsGood(c.parts, path, start, |c.parts|); }
  }

  /** Every path belongs to one of the first `k` messages. */
  ghost predicate FromMessages(fs: seq<Field>, k: nat) {
    forall i | 0 <= i < |fs| :: exists j :: 0 <= j < k && MessagePath(j) <= fs[i].path
  }

  lemma MessageApart(fs: seq<Field>, gs: seq<Field>, k: nat)
    requires FromMessages(fs, k) && Under(gs, MessagePath(k)) && Distinct(fs) && Distinct(gs)
    ensures Distinct(fs + gs) && FromMessages(fs + gs, k + 1)
  {
    forall i, l | 0 <= i < |fs| && 0 <= l < |gs| ensures fs[i].path != gs[l].path {
      var j :| 0 <= j < k && MessagePath(j) <= fs[i].path;
      ApartByMessage(j, fs[i].path, k, gs[l].path);
    }
  }

  lemma MessageFieldsGood(m: Message, k: nat, start: nat)
    ensures var fs := MessageFields(m, k, start); Numbered(fs, start) && Distinct(fs) && Under(fs, MessagePath(k))
  {
    if m.Message? { ContentFieldsGood(m.content, MessagePath(k), start); }
  }

  lemma {:induction false} MessagesFieldsGood(ms: seq<Message>, start: nat, k: nat)
    requires k <= |ms|
    ensures var fs := MessagesFields(ms, start, k); Numbered(fs, start) && Distinct(fs) && FromMessages(fs, k)
  {
    if k > 0 {
      var fs := MessagesFields(ms, start, k - 1);
      var gs := MessageFields(ms[k - 1], k - 1, start + |fs|);
      MessagesFieldsGood(ms, start, k - 1);
      MessageFieldsGood(ms[k - 1], k - 1, start + |fs|);
      MessageApart(fs, gs, k - 1);
      assert MessagesFields(ms, start, k) == fs + gs;
    }
  }

  lemma ApartByMessage(m: nat, p: string, n: nat, q: string)
    requires MessagePath(m) <= p && MessagePath(n) <= q && m != n
    ensures p != q
  {
    if p == q {
      assert p == MessagePath(m) + p[|MessagePath(m)|..] == MessagePath(n) + q[|MessagePath(n)|..];
      MessagePathInjective(m, p[|MessagePath(m)|..], n, q[|MessagePath(n)|..]);
    }
  }

  /** Extracted paths are pairwise distinct and the indices are 0..n-1. */
  lemma ExtractionIsInjective(b: Body)
    ensures Numbered(BodyFields(b), 0) && Distinct(BodyFields(b))
  {
    var sys := ContentFields(b.system, "system", 0);
    ContentFieldsGood(b.system, "system", 0);
    MessagesFieldsGood(b.messages, |sys|, |b.messages|);
    var fs := MessagesFields(b.messages, |sys|, |b.messages|);
    forall i, j | 0 <= i < |sys| && 0 <= j < |fs| ensures sys[i].path != fs[j].path {
      assert "system"[0] == sys[i].path[0];
      var m :| 0 <= m < |b.messages| && MessagePath(m) <= fs[j].path;
      assert MessagePath(m)[0] == 'm' == fs[j].path[0];
    }
  }

  // ---- what a body holds, and that all of it is found ----

  /** Some field has this text under this path. */
  ghost predicate Carries(fs: seq<Field>, t: string, p: string) {
    exists i | 0 <= i < |fs| :: fs[i].text == t && fs[i].path == p
  }

  lemma CarriesConcat(fs: seq<Field>, gs: seq<Field>, t: string, p: string)
    ensures Carries(fs + gs, t, p) <==> Carries(fs, t, p) || Carries(gs, t, p)
  {
    if Carries(gs, t, p) {
      var i :| 0 <= i < |gs| && gs[i].text == t && gs[i].path == p;
      assert (fs + gs)[|fs| + i] == gs[i];
    }
    if Carries(fs, t, p) {
      var i :| 0 <= i < |fs| && fs[i].text == t && fs[i].path == p;
      assert (fs + gs)[i] == fs[i];
    }
  }

  /** One of the first `k` parts is a text part with text `t`, and `p` is its path. */
  ghost predicate PartHolds(ps: seq<Part>, prefix: string, k: nat, t: string, p: string)
    requires k <= |ps|
  {
    exists j | 0 <= j < k ::
      ps[j].Part? && ps[j].kind == "text" && ps[j].text == Some(t) && t != "" && p == prefix + "[" + Itoa(j) + "].text"
  }

  /** The non-empty text `t` stands in a content value, at path `p`. */
  ghost predicate ContentHolds(c: Content, path: string, t: string, p: string) {
    match c
    case Text(u) => u == t != "" && p == path
    case Parts(ps) => PartHolds(ps, path, |ps|, t, p)
    case _ => false
  }

  ghost predicate MessageHolds(m: Message, k: nat, t: string, p: string) {
    m.Message? && ContentHolds(m.content, "messages[" + Itoa(k) + "].content", t, p)
  }

  ghost predicate MessagesHold(ms: seq<Message>, k: nat, t: string, p: string)
    requires k <= |ms|
  {
    exists j | 0 <= j < k :: MessageHolds(ms[j], j, t, p)
  }

  ghost predicate BodyHolds(b: Body, t: string, p: string) {
    ContentHolds(b.system, "system", t, p) || MessagesHold(b.messages, |b.messages|, t, p)
  }

  lemma {:induction false} PartsFound(ps: seq<Part>, prefix: string, start: nat, k: nat, t: string, p: string)
    requires k <= |ps|
    ensures Carries(PartFields(ps, prefix, start, k), t, p) <==> PartHolds(ps, prefix, k, t, p)
  {
    if k > 0 {
      PartsFound(ps, prefix, start, k - 1, t, p);
      var fs := PartFields(ps, prefix, start, k - 1);
      if Wanted(ps[k - 1]) {
        var f := Field(ps[k - 1].text.value, PartPath(prefix, k - 1), start + |fs|);
        CarriesConcat(fs, [f], t, p);
        assert [f][0] == f;
      }
    }
  }

  lemma ContentFound(c: Content, path: string, start: nat, t: string, p: string)
    ensures Carries(ContentFields(c, path, start), t, p) <==> ContentHolds(c, path, t, p)
  {
    match c
    case Text(u) => if u != "" { assert ContentFields(c, path, start)[0] == Field(u, path, start); }
    case Parts(ps) => PartsFound(ps, path, start, |ps|, t, p);
    case _ =>
  }

  lemma MessageFound(m: Message, k: nat, start: nat, t: string, p: string)
    ensures Carries(MessageFields(m, k, start), t, p) <==> MessageHolds(m, k, t, p)
  {
    if m.Message? { ContentFound(m.content, MessagePath(k), start, t, p); }
  }

  lemma {:induction false} MessagesFound(ms: seq<Message>, start: nat, k: nat, t: string, p: string)
    requires k <= |ms|
    ensures Carries(MessagesFields(ms, start, k), t, p) <==> MessagesHold(ms, k, t, p)
  {
    if k > 0 {
      MessagesFound(ms, start, k - 1, t, p);
      var fs := MessagesFields(ms, start, k - 1);
      MessageFound(ms[k - 1], k - 1, start + |fs|, t, p);
      CarriesConcat(fs, MessageFields(ms[k - 1], k - 1, start + |fs|), t, p);
    }
  }

  /** A text is extracted under a path exactly if the body holds it there. */
  lemma BodyFound(b: Body, t: string, p: string)
    ensures Carries(BodyFields(b), t, p) <==> BodyHolds(b, t, p)
  {
    var sys := ContentFields(b.system, "system", 0);
    ContentFound(b.system, "system", 0, t, p);
    MessagesFound(b.messages, |sys|, |b.messages|, t, p);
    CarriesConcat(sys, MessagesFields(b.messages, |sys|, |b.messages|), t, p);
  }

  // ---- the record ----

  /** `buildRedactedPayload` before it is serialised. */
  function PathMap(fs: seq<Field>): map<string, string> {
    if fs == [] then map[] else PathMap(fs[..|fs| - 1])[Last(fs).path := Last(fs).text]
  }

  method BuildRedactedPayload(fields: seq<Field>) returns (m: map<string, string>)
    ensures m == PathMap(fields)
  {
    m := map[];
    for i := 0 to |fields|
      invariant m == PathMap(fields[..i])
    {
      assert fields[..i + 1][..i] == fields[..i];
      m := m[fields[i].path := fields[i].text];
    }
    assert fields[..|fields|] == fields;
  }

  lemma {:induction false} KeyIsPath(fs: seq<Field>, p: string) returns (i: nat)
    requires p in PathMap(fs)
    ensures i < |fs| && fs[i].path == p
  {
    if p == Last(fs).path { i := |fs| - 1; } else { i := KeyIsPath(fs[..|fs| - 1], p); }
  }

  lemma {:induction false} TextKept(fs: seq<Field>, i: nat)
    requires Distinct(fs) && i < |fs|
    ensures fs[i].path in PathMap(fs) && PathMap(fs)[fs[i].path] == fs[i].text
  {
    if i < |fs| - 1 { TextKept(fs[..|fs| - 1], i); }
  }

  lemma {:induction false} OneEntryEach(fs: seq<Field>)
    requires Distinct(fs)
    ensures |PathMap(fs)| == |fs|
  {
    if fs != [] {
      var init := fs[..|fs| - 1];
      OneEntryEach(init);
      if Last(fs).path in PathMap(init) {
        var i := KeyIsPath(init, Last(fs).path);
        assert false;
      }
      assert PathMap(fs).Keys == PathMap(init).Keys + {Last(fs).path};
    }
  }

  /** The fields with their texts redacted, as `processPayload` collects them. */
  function Redacted(fs: seq<Field>, redact: string -> string): (r: seq<Field>)
    ensures |r| == |fs|
    ensures forall i | 0 <= i < |fs| :: r[i] == fs[i].(text := redact(fs[i].text))
  {
    seq(|fs|, i requires 0 <= i < |fs| => fs[i].(text := redact(fs[i].text)))
  }

  /** `m` files exactly the given fields, each under its path with its redacted text. */
  ghost predicate Files(m: map<string, string>, fs: seq<Field>, redact: string -> string) {
    && |m| == |fs|
    && (forall t, p | Carries(fs, t, p) :: p in m && m[p] == redact(t))
    && forall p | p in m :: exists t :: Carries(fs, t, p)
  }

  lemma EntryEach(fs: seq<Field>, redact: string -> string)
    requires Distinct(fs)
    ensures Files(PathMap(Redacted(fs, redact)), fs, redact)
  {
    var rs := Redacted(fs, redact);
    var m := PathMap(rs);
    OneEntryEach(rs);
    forall t, p | Carries(fs, t, p) ensures p in m && m[p] == redact(t) {
      var i :| 0 <= i < |fs| && fs[i].text == t && fs[i].path == p;
      TextKept(rs, i);
    }
    forall p | p in m ensures exists t :: Carries(fs, t, p) {
      var i := KeyIsPath(rs, p);
      assert Carries(fs, fs[i].text, p);
    }
  }

  /**
   From a body to the record: every text that the body holds at a path has its
   own entry there, redacted, and every entry is such a text.
   */
  lemma NoContentLost(b: Body, redact: string -> string)
    ensures var m := PathMap(Redacted(BodyFields(b), redact));
            && |m| == |BodyFields(b)|
            && (forall t, p | BodyHolds(b, t, p) :: p in m && m[p] == redact(t))
            && forall p | p in m :: exists t :: BodyHolds(b, t, p) && m[p] == redact(t)
  {
    var fs := BodyFields(b);
    var m := PathMap(Redacted(fs, redact));
    ExtractionIsInjective(b);
    EntryEach(fs, redact);
    forall t, p ensures Carries(fs, t, p) <==> BodyHolds(b, t, p) { BodyFound(b, t, p); }
  }
}
