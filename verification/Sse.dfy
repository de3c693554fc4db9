/** JSON text of flat objects, as the stream writer prints it and a reader parses it. */
module Json {
  import opened Wrappers

  datatype Value = Null | Text(text: string)

  /** The members of an object, in order. */
  type Members = seq<(string, Value)>

  const HEX := "0123456789abcdef"

  /** Only quotes, backslashes and control characters are escaped (section 7 of RFC 8259). */
  function EscapeChar(c: char): string {
    if c == '"' then "\\\""
    else if c == '\\' then "\\\\"
    else if c as int == 8 then "\\b"
    else if c as int == 9 then "\\t"
    else if c as int == 10 then "\\n"
    else if c as int == 12 then "\\f"
    else if c as int == 13 then "\\r"
    else if c as int < 32 then "\\u00" + [HEX[c as int / 16], HEX[c as int % 16]]
    else [c]
  }

  function Escape(s: string): string {
    if s == "" then "" else EscapeChar(s[0]) + Escape(s[1..])
  }

  function PrintString(s: string): string {
    "\"" + Escape(s) + "\""
  }

  function PrintValue(v: Value): string {
    match v
    case Null => "null"
    case Text(s) => PrintString(s)
  }

  function PrintMember(m: (string, Value)): string {
    PrintString(m.0) + ":" + PrintValue(m.1)
  }

  function PrintRest(ms: Members): string {
    if ms == [] then "}" else "," + PrintMember(ms[0]) + PrintRest(ms[1..])
  }

  function PrintObject(ms: Members): string {
    if ms == [] then "{}" else "{" + PrintMember(ms[0]) + PrintRest(ms[1..])
  }

  // ---- Parsing ----

  function HexDigit(c: char): Option<int> {
    if '0' <= c <= '9' then Some(c as int - '0' as int)
    else if 'a' <= c <= 'f' then Some(c as int - 'a' as int + 10)
    else None
  }

  /** One character after a backslash, and how much text it takes. */
  function Unescape(t: string): Option<(char, nat)> {
    if t == "" then None
    else if t[0] == '"' then Some(('"', 1))
    else if t[0] == '\\' then Some(('\\', 1))
    else if t[0] == '/' then Some(('/', 1))
    else if t[0] == 'b' then Some((8 as char, 1))
    else if t[0] == 't' then Some((9 as char, 1))
    else if t[0] == 'n' then Some((10 as char, 1))
    else if t[0] == 'f' then Some((12 as char, 1))
    else if t[0] == 'r' then Some((13 as char, 1))
    else if t[0] == 'u' && |t| >= 5 && t[1] == '0' && t[2] == '0' && HexDigit(t[3]).Some? && HexDigit(t[4]).Some? then
      Some(((16 * HexDigit(t[3]).value + HexDigit(t[4]).value) as char, 5))
    else None
  }

  /** The rest of a string after its opening quote: the decoded text and what follows the closing one. */
  function ParseTail(t: string): Option<(string, string)>
    decreases |t|
  {
    if t == "" then None
    else if t[0] == '"' then Some(("", t[1..]))
    else if t[0] == '\\' then
      var u := Unescape(t[1..]);
      if u.None? || |t| < 1 + u.value.1 then None
      else
        var rest := ParseTail(t[1 + u.value.1..]);
        if rest.None? then None else Some(([u.value.0] + rest.value.0, rest.value.1))
    else if t[0] as int < 32 then None
    else
      var rest := ParseTail(t[1..]);
      if rest.None? then None else Some(([t[0]] + rest.value.0, rest.value.1))
  }

  function ParseString(t: string): Option<(string, string)> {
    if t == "" || t[0] != '"' then None else ParseTail(t[1..])
  }

  function ParseValue(t: string): Option<(Value, string)> {
    if |t| >= 4 && t[..4] == "null" then Some((Null, t[4..]))
    else
      var s := ParseString(t);
      if s.None? then None else Some((Text(s.value.0), s.value.1))
  }

  function ParseMember(t: string): Option<((string, Value), string)> {
    var key := ParseString(t);
    if key.None? || key.value.1 == "" || key.value.1[0] != ':' then None
    else
      var v := ParseValue(key.value.1[1..]);
      if v.None? then None else Some(((key.value.0, v.value.0), v.value.1))
  }

  lemma {:induction false} TailShorter(t: string)
    ensures ParseTail(t).Some? ==> |ParseTail(t).value.1| < |t|
    decreases |t|
  {
    if t != "" && t[0] != '"' {
      if t[0] == '\\' {
        var u := Unescape(t[1..]);
        if u.Some? && |t| >= 1 + u.value.1 {
          TailShorter(t[1 + u.value.1..]);
        }
      } else {
        TailShorter(t[1..]);
      }
    }
  }

  lemma MemberShorter(t: string)
    ensures ParseMember(t).Some? ==> |ParseMember(t).value.1| < |t|
  {
    if t != "" {
      TailShorter(t[1..]);
      var key := ParseString(t);
      if key.Some? && key.value.1 != "" {
        var v := key.value.1[1..];
        if v != "" {
          TailShorter(v[1..]);
        }
      }
    }
  }

  /** After a member: a closing brace that ends the text, or a comma and more members. */
  function ParseRest(t: string): Option<Members>
    decreases |t|
  {
    if t == "}" then Some([])
    else if t == "" || t[0] != ',' then None
    else
      var m := ParseMember(t[1..]);
      MemberShorter(t[1..]);
      if m.None? then None
      else
        var rest := ParseRest(m.value.1);
        if rest.None? then None else Some([m.value.0] + rest.value)
  }

  function ParseObject(t: string): Option<Members> {
    if t == "{}" then Some([])
    else if t == "" || t[0] != '{' then None
    else
      var m := ParseMember(t[1..]);
      if m.None? then None
      else
        var rest := ParseRest(m.value.1);
        if rest.None? then None else Some([m.value.0] + rest.value)
  }

  // ---- Round trip ----

  /** `t` starts with character `c`, escaped where it has to be, and goes on with `rest`. */
  predicate StartsWith(t: string, c: char, rest: string) {
    && t != "" && t[0] != '"'
    && if t[0] == '\\' then
         var u := Unescape(t[1..]);
         u.Some? && u.value.0 == c && |t| >= 1 + u.value.1 && t[1 + u.value.1..] == rest
       else t[0] == c && t[1..] == rest && c as int >= 32
  }

  lemma EscapedCharParses(c: char, rest: string)
    ensures StartsWith(EscapeChar(c) + rest, c, rest)
  {
    var e := EscapeChar(c);
    var t := e + rest;
    assert forall k | 0 <= k < |e| :: t[k] == e[k];
    assert t[|e|..] == rest;
    if c as int < 32 && |e| == 6 {
      var n := c as int;
      assert HexDigit(HEX[n / 16]) == Some(n / 16) && HexDigit(HEX[n % 16]) == Some(n % 16);
    }
  }

  lemma TailStep(t: string, c: char, rest: string, s: string, after: string)
    requires StartsWith(t, c, rest) && ParseTail(rest) == Some((s, after))
    ensures ParseTail(t) == Some(([c] + s, after))
  {
  }

  lemma TailEnds(after: string)
    ensures ParseTail("\"" + after) == Some(("", after))
  {
    assert ("\"" + after)[1..] == after;
  }

  lemma Joined(a: string, b: string, c: string)
    ensures (a + b) + c == a + (b + c)
  {
  }

  lemma Uncons<T>(s: seq<T>)
    requires |s| > 0
    ensures [s[0]] + s[1..] == s
  {
  }

  lemma EscapeParts(s: string, t: string)
    requires |s| > 0
    ensures Escape(s) + t == EscapeChar(s[0]) + (Escape(s[1..]) + t)
  {
    Joined(EscapeChar(s[0]), Escape(s[1..]), t);
  }

  lemma {:induction false} TailRoundTrip(s: string, after: string)
    ensures ParseTail(Escape(s) + ("\"" + after)) == Some((s, after))
    decreases |s|
  {
    var end := "\"" + after;
    if |s| == 0 {
      TailEnds(after);
      assert Escape(s) + end == end;
    } else {
      var t := Escape(s[1..]) + end;
      TailRoundTrip(s[1..], after);
      EscapedCharParses(s[0], t);
      TailStep(EscapeChar(s[0]) + t, s[0], t, s[1..], after);
      EscapeParts(s, end);
      Uncons(s);
    }
  }

  lemma StringRoundTrip(s: string, rest: string)
    ensures ParseString(PrintString(s) + rest) == Some((s, rest))
  {
    TailRoundTrip(s, rest);
    assert (PrintString(s) + rest)[1..] == Escape(s) + ("\"" + rest);
  }

  lemma ValueRoundTrip(v: Value, rest: string)
    ensures ParseValue(PrintValue(v) + rest) == Some((v, rest))
  {
    match v
    case Null =>
      assert ("null" + rest)[..4] == "null" && ("null" + rest)[4..] == rest;
    case Text(s) =>
      StringRoundTrip(s, rest);
      var t := PrintString(s) + rest;
      assert t[0] == '"';
      assert |t| >= 4 ==> t[..4][0] == '"';
  }

  lemma MemberRoundTrip(m: (string, Value), rest: string)
    ensures ParseMember(PrintMember(m) + rest) == Some((m, rest))
  {
    var tail := ":" + PrintValue(m.1) + rest;
    assert PrintMember(m) + rest == PrintString(m.0) + tail;
    StringRoundTrip(m.0, tail);
    assert tail[1..] == PrintValue(m.1) + rest;
    ValueRoundTrip(m.1, rest);
  }

  lemma RestStep(t: string, m: (string, Value), rest: string, ms: Members)
    requires t != "" && t[0] == ','
    requires ParseMember(t[1..]) == Some((m, rest)) && ParseRest(rest) == Some(ms)
    ensures ParseRest(t) == Some([m] + ms)
  {
    MemberShorter(t[1..]);
  }

  lemma ObjectStep(t: string, m: (string, Value), rest: string, ms: Members)
    requires |t| > 1 && t[0] == '{' && t[1] == '"'
    requires ParseMember(t[1..]) == Some((m, rest)) && ParseRest(rest) == Some(ms)
    ensures ParseObject(t) == Some([m] + ms)
  {
  }

  lemma RestMember(ms: Members)
    requires |ms| > 0
    ensures PrintRest(ms) != "" && PrintRest(ms)[0] == ','
    ensures ParseMember(PrintRest(ms)[1..]) == Some((ms[0], PrintRest(ms[1..])))
  {
    var t := "," + (PrintMember(ms[0]) + PrintRest(ms[1..]));
    assert PrintRest(ms) == t;
    assert t[1..] == PrintMember(ms[0]) + PrintRest(ms[1..]);
    MemberRoundTrip(ms[0], PrintRest(ms[1..]));
  }

  lemma ObjectMember(ms: Members)
    requires |ms| > 0
    ensures |PrintObject(ms)| > 1 && PrintObject(ms)[0] == '{' && PrintObject(ms)[1] == '"'
    ensures ParseMember(PrintObject(ms)[1..]) == Some((ms[0], PrintRest(ms[1..])))
  {
    var t := "{" + (PrintMember(ms[0]) + PrintRest(ms[1..]));
    assert PrintObject(ms) == t;
    assert t[1..] == PrintMember(ms[0]) + PrintRest(ms[1..]);
    MemberRoundTrip(ms[0], PrintRest(ms[1..]));
  }

  lemma {:induction false} RestRoundTrip(ms: Members)
    ensures ParseRest(PrintRest(ms)) == Some(ms)
    decreases |ms|
  {
    if |ms| > 0 {
      RestRoundTrip(ms[1..]);
      RestMember(ms);
      RestStep(PrintRest(ms), ms[0], PrintRest(ms[1..]), ms[1..]);
      Uncons(ms);
    }
  }

  /** Parsing what was printed gives back every member, whatever its text. */
  lemma ObjectRoundTrip(ms: Members)
    ensures ParseObject(PrintObject(ms)) == Some(ms)
  {
    if |ms| > 0 {
      RestRoundTrip(ms[1..]);
      ObjectMember(ms);
      ObjectStep(PrintObject(ms), ms[0], PrintRest(ms[1..]), ms[1..]);
      Uncons(ms);
    }
  }

  // ---- Which characters stay raw ----

  /** The characters a member's texts hold. */
  predicate MemberHas(m: (string, Value), c: char) {
    c in m.0 || (m.1.Text? && c in m.1.text)
  }

  predicate Has(ms: Members, c: char) {
    exists k :: 0 <= k < |ms| && MemberHas(ms[k], c)
  }

  lemma {:induction false} EscapeKeeps(s: string, c: char)
    requires c as int < 32 || c as int >= 128
    ensures c in Escape(s) <==> c in s && c as int >= 128
    decreases |s|
  {
    if s != "" {
      EscapeKeeps(s[1..], c);
      EscapeCharKeeps(s[0], c);
      assert s == [s[0]] + s[1..];
    }
  }

  lemma EscapeCharKeeps(d: char, c: char)
    requires c as int < 32 || c as int >= 128
    ensures c in EscapeChar(d) <==> c == d && c as int >= 128
  {
    if d as int < 32 {
      var n := d as int;
      assert HexDigit(HEX[n / 16]).Some? && HexDigit(HEX[n % 16]).Some?;
    }
  }

  lemma MemberKeeps(m: (string, Value), c: char)
    requires c as int < 32 || c as int >= 128
    ensures c in PrintMember(m) <==> MemberHas(m, c) && c as int >= 128
  {
    EscapeKeeps(m.0, c);
    if m.1.Text? {
      EscapeKeeps(m.1.text, c);
    }
  }

  lemma {:induction false} RestKeeps(ms: Members, c: char)
    requires c as int < 32 || c as int >= 128
    ensures c in PrintRest(ms) <==> Has(ms, c) && c as int >= 128
    decreases |ms|
  {
    if ms != [] {
      MemberKeeps(ms[0], c);
      RestKeeps(ms[1..], c);
      HasCons(ms, c);
    }
  }

  lemma HasCons(ms: Members, c: char)
    requires ms != []
    ensures Has(ms, c) <==> MemberHas(ms[0], c) || Has(ms[1..], c)
  {
    if Has(ms[1..], c) {
      var k :| 0 <= k < |ms[1..]| && MemberHas(ms[1..][k], c);
      assert MemberHas(ms[k + 1], c);
    }
    if Has(ms, c) && !MemberHas(ms[0], c) {
      var k :| 0 <= k < |ms| && MemberHas(ms[k], c);
      assert MemberHas(ms[1..][k - 1], c);
    }
  }

  /**
   Of the control and non-ASCII characters, the printed text holds exactly the non-ASCII
   ones its members hold: no raw line feed or carriage return, but any other line
   separator as it came.
   */
  lemma PrintedHolds(ms: Members, c: char)
    requires c as int < 32 || c as int >= 128
    ensures c in PrintObject(ms) <==> Has(ms, c) && c as int >= 128
  {
    if ms != [] {
      MemberKeeps(ms[0], c);
      RestKeeps(ms[1..], c);
      HasCons(ms, c);
    }
  }
}

/** Server-sent event frames: the gateway's writer and the adapters' reader loop. */
module Sse {
  import opened Wrappers
  import opened Json

  datatype Chunk = Chunk(content: string, finishReason: Option<string>, model: Option<string>)

  /** What the writer is fed: a provider that cannot chat, or chunks and perhaps an exception after them. */
  datatype Source =
    | NotChatCapable(provider: string)
    | Chunks(chunks: seq<Chunk>, failure: Option<string>)

  function Nullable(s: Option<string>): Value {
    match s
    case None => Null
    case Some(text) => Text(text)
  }

  function ChunkEvent(c: Chunk): Members {
    [("content", Text(c.content)), ("finish_reason", Nullable(c.finishReason)), ("model", Nullable(c.model))]
  }

  function ErrorEvent(message: string): Members {
    [("error", Text(message))]
  }

  function NotChatEvent(provider: string): Members {
    ErrorEvent("Provider " + provider + " does not support chat")
  }

  function ChunkEvents(chunks: seq<Chunk>): seq<Members> {
    if chunks == [] then [] else [ChunkEvent(chunks[0])] + ChunkEvents(chunks[1..])
  }

  /** The events a client is meant to receive. */
  function Events(source: Source): seq<Members> {
    match source
    case NotChatCapable(provider) => [NotChatEvent(provider)]
    case Chunks(chunks, failure) =>
      ChunkEvents(chunks) + if failure.Some? then [ErrorEvent(failure.value)] else []
  }

  function Frame(payload: string): string {
    "data: " + payload + "\n\n"
  }

  function EventFrame(event: Members): string {
    Frame(PrintObject(event))
  }

  function EventFrames(events: seq<Members>): string {
    if events == [] then "" else EventFrame(events[0]) + EventFrames(events[1..])
  }

  /** Every event in its frame and, for a provider that can chat, one closing `[DONE]`. */
  function Written(source: Source): string {
    EventFrames(Events(source)) + if source.Chunks? then Frame("[DONE]") else ""
  }

  lemma {:induction false} EventFramesSnoc(events: seq<Members>, e: Members)
    ensures EventFrames(events + [e]) == EventFrames(events) + EventFrame(e)
    decreases |events|
  {
    if events == [] {
      assert [] + [e] == [e] && [e][1..] == [];
      assert EventFrames([e]) == EventFrame(e) + "";
    } else {
      assert (events + [e])[1..] == events[1..] + [e];
      EventFramesSnoc(events[1..], e);
    }
  }

  lemma {:induction false} ChunkEventsSnoc(chunks: seq<Chunk>, c: Chunk)
    ensures ChunkEvents(chunks + [c]) == ChunkEvents(chunks) + [ChunkEvent(c)]
    decreases |chunks|
  {
    if chunks == [] {
      assert [] + [c] == [c] && [c][1..] == [];
    } else {
      assert (chunks + [c])[1..] == chunks[1..] + [c];
      ChunkEventsSnoc(chunks[1..], c);
    }
  }

  lemma WrittenNotChat(source: Source)
    requires source.NotChatCapable?
    ensures Written(source) == EventFrame(NotChatEvent(source.provider))
  {
    var e := NotChatEvent(source.provider);
    OneFrame(e);
    assert EventFrames([e]) + "" == EventFrames([e]);
  }

  /** The events before the end marker. */
  lemma WrittenChunks(source: Source)
    requires source.Chunks?
    ensures Written(source) == ChunkFrames(source.chunks, source.failure) + Frame("[DONE]")
  {
    var events := ChunkEvents(source.chunks);
    if source.failure.Some? {
      EventFramesSnoc(events, ErrorEvent(source.failure.value));
    } else {
      assert events + [] == events;
    }
  }

  function ChunkFrames(chunks: seq<Chunk>, failure: Option<string>): string {
    if failure.Some? then EventFrames(ChunkEvents(chunks)) + EventFrame(ErrorEvent(failure.value))
    else EventFrames(ChunkEvents(chunks))
  }

  lemma OneFrame(e: Members)
    ensures EventFrames([e]) == EventFrame(e)
  {
    EventFramesSnoc([], e);
    assert [] + [e] == [e];
    assert "" + EventFrame(e) == EventFrame(e);
  }

  lemma NextFrame(chunks: seq<Chunk>, i: nat)
    requires i < |chunks|
    ensures EventFrames(ChunkEvents(chunks[..i + 1])) == EventFrames(ChunkEvents(chunks[..i])) + EventFrame(ChunkEvent(chunks[i]))
  {
    assert chunks[..i + 1] == chunks[..i] + [chunks[i]];
    ChunkEventsSnoc(chunks[..i], chunks[i]);
    EventFramesSnoc(ChunkEvents(chunks[..i]), ChunkEvent(chunks[i]));
  }

  /** The inner generator: a frame for each chunk, one for the exception that ends them, if any, and the end marker. */
  method DataStream(chunks: seq<Chunk>, failure: Option<string>) returns (out: string)
    ensures out == ChunkFrames(chunks, failure) + Frame("[DONE]")
  {
    out := "";
    for i := 0 to |chunks|
      invariant out == EventFrames(ChunkEvents(chunks[..i]))
    {
      NextFrame(chunks, i);
      out := out + EventFrame(ChunkEvent(chunks[i]));
    }
    assert chunks[..|chunks|] == chunks;
    if failure.Some? {
      out := out + EventFrame(ErrorEvent(failure.value));
    }
    out := out + Frame("[DONE]");
  }

  /** The whole stream, its frames joined. */
  method SseStream(source: Source) returns (out: string)
    ensures out == Written(source)
  {
    match source
    case NotChatCapable(provider) =>
      WrittenNotChat(source);
      out := EventFrame(NotChatEvent(provider));
    case Chunks(chunks, failure) =>
      WrittenChunks(source);
      out := DataStream(chunks, failure);
  }

  // ---- Lines ----

  /** The characters that end a line; a carriage return also takes the line feed after it. */
  type LineEnds = set<char>

  /** Those of the event-stream format itself (section 9.2.5 of the WHATWG HTML Standard). */
  const EVENT_STREAM_ENDS: LineEnds := {'\n', '\r'}

  /** Those of a Python `str.splitlines`. */
  const UNICODE_ENDS: LineEnds :=
    {'\n', 11 as char, 12 as char, '\r', 28 as char, 29 as char, 30 as char, 133 as char, 8232 as char, 8233 as char}

  function LineLength(t: string, ends: LineEnds): (n: nat)
    ensures n <= |t|
  {
    if t == "" || t[0] in ends then 0 else 1 + LineLength(t[1..], ends)
  }

  function Lines(t: string, ends: LineEnds): seq<string>
    decreases |t|
  {
    var n := LineLength(t, ends);
    if t == "" then []
    else if n == |t| then [t]
    else if "\r\n" <= t[n..] then [t[..n]] + Lines(t[n + 2..], ends)
    else [t[..n]] + Lines(t[n + 1..], ends)
  }

  // ---- The reader loop ----

  predicate IsSpace(c: char) {
    var n := c as int;
    || 9 <= n <= 13 || 28 <= n <= 32 || n == 133 || n == 160 || n == 5760
    || 8192 <= n <= 8202 || n == 8232 || n == 8233 || n == 8239 || n == 8287 || n == 12288
  }

  function TrimStart(s: string): string {
    if s != "" && IsSpace(s[0]) then TrimStart(s[1..]) else s
  }

  function TrimEnd(s: string): string {
    if s != "" && IsSpace(s[|s| - 1]) then TrimEnd(s[..|s| - 1]) else s
  }

  function Strip(s: string): string {
    TrimEnd(TrimStart(s))
  }

  predicate IsData(line: string) {
    "data: " <= line
  }

  predicate IsDone(line: string) {
    IsData(line) && Strip(line[6..]) == "[DONE]"
  }

  /** The payloads handed to the JSON decoder, whether the end marker was met, and the lines left behind it. */
  datatype Reading = Reading(payloads: seq<string>, done: bool, unread: seq<string>)

  function Read(lines: seq<string>): Reading {
    if lines == [] then Reading([], false, [])
    else if IsDone(lines[0]) then Reading([], true, lines[1..])
    else if IsData(lines[0]) then Before([lines[0][6..]], Read(lines[1..]))
    else Read(lines[1..])
  }

  function Before(payloads: seq<string>, r: Reading): Reading {
    r.(payloads := payloads + r.payloads)
  }

  /** The loop itself, over the response's lines. */
  method ReadLoop(lines: seq<string>) returns (r: Reading)
    ensures r == Read(lines)
  {
    var payloads: seq<string> := [];
    var i := 0;
    while i < |lines|
      invariant 0 <= i <= |lines|
      invariant Read(lines) == Before(payloads, Read(lines[i..]))
    {
      var line := lines[i];
      assert lines[i..][0] == line && lines[i..][1..] == lines[i + 1..];
      i := i + 1;
      if !("data: " <= line) {
        continue;
      }
      var dataStr := line[6..];
      if Strip(dataStr) == "[DONE]" {
        return Reading(payloads, true, lines[i..]);
      }
      assert payloads + ([dataStr] + Read(lines[i..]).payloads) == (payloads + [dataStr]) + Read(lines[i..]).payloads;
      payloads := payloads + [dataStr];
    }
    return Reading(payloads, false, []);
  }

  // ---- Round trip ----

  /** Line ends a printed payload can be tested for: line feed, and otherwise control or non-ASCII characters. */
  predicate ProperEnds(ends: LineEnds) {
    '\n' in ends && forall c <- ends :: c as int < 32 || c as int >= 128
  }

  /** Text of the event holds `c`, and JSON leaves it as it is. */
  ghost predicate HasRaw(event: Members, c: char) {
    c as int >= 128 && Has(event, c)
  }

  /** No character that ends a line stays raw in the event. */
  ghost predicate OneLine(event: Members, ends: LineEnds) {
    forall c | c in ends :: !HasRaw(event, c)
  }

  ghost predicate AllOneLine(events: seq<Members>, ends: LineEnds) {
    forall e <- events :: OneLine(e, ends)
  }

  predicate NoEnd(s: string, ends: LineEnds) {
    forall k | 0 <= k < |s| :: s[k] !in ends
  }

  function Printed(events: seq<Members>): seq<string> {
    if events == [] then [] else [PrintObject(events[0])] + Printed(events[1..])
  }

  lemma {:induction false} LineStops(a: string, t: string, ends: LineEnds)
    requires NoEnd(a, ends) && t != "" && t[0] in ends
    ensures LineLength(a + t, ends) == |a|
    decreases |a|
  {
    if a == "" {
      assert a + t == t;
    } else {
      assert (a + t)[1..] == a[1..] + t;
      LineStops(a[1..], t, ends);
    }
  }

  /** The first line is what comes before the first line end. */
  lemma FirstLine(a: string, t: string, ends: LineEnds)
    requires NoEnd(a, ends) && t != "" && t[0] in ends
    ensures Lines(a + t, ends) != [] && Lines(a + t, ends)[0] == a
    ensures t[0] != '\r' ==> Lines(a + t, ends) == [a] + Lines(t[1..], ends)
  {
    LineStops(a, t, ends);
    assert (a + t)[..|a|] == a && (a + t)[|a|..] == t;
    assert (a + t)[|a| + 1..] == t[1..];
  }

  lemma FrameParts(payload: string, rest: string)
    ensures Frame(payload) + rest == ("data: " + payload) + ("\n" + ("\n" + rest))
  {
    assert "\n\n" == "\n" + "\n";
    Joined("data: " + payload, "\n\n", rest);
    Joined("\n", "\n", rest);
  }

  lemma DataLine(payload: string, ends: LineEnds)
    requires ProperEnds(ends) && NoEnd(payload, ends)
    ensures NoEnd("data: " + payload, ends)
  {
    var field := "data: ";
    assert forall k | 0 <= k < 6 :: 32 <= field[k] as int < 128;
  }

  lemma TwoLines(a: string, rest: string, ends: LineEnds)
    requires ProperEnds(ends) && NoEnd(a, ends)
    ensures Lines(a + ("\n" + ("\n" + rest)), ends) == [a] + ([""] + Lines(rest, ends))
  {
    var t := "\n" + rest;
    FirstLine(a, "\n" + t, ends);
    assert ("\n" + t)[1..] == t;
    FirstLine("", t, ends);
    assert "" + t == t && t[1..] == rest;
  }

  lemma FrameLines(payload: string, rest: string, ends: LineEnds)
    requires ProperEnds(ends) && NoEnd(payload, ends)
    ensures Lines(Frame(payload) + rest, ends) == ["data: " + payload] + ([""] + Lines(rest, ends))
  {
    FrameParts(payload, rest);
    DataLine(payload, ends);
    TwoLines("data: " + payload, rest, ends);
  }

  lemma {:induction false} TrimEndKeeps(s: string)
    requires s != "" && !IsSpace(s[0])
    ensures TrimEnd(s) != "" && TrimEnd(s)[0] == s[0]
    decreases |s|
  {
    if IsSpace(s[|s| - 1]) {
      TrimEndKeeps(s[..|s| - 1]);
    }
  }

  /** An object's text, or any start of it, is never taken for the end marker. */
  lemma NotDone(payload: string)
    requires payload != "" && payload[0] == '{'
    ensures IsData("data: " + payload) && !IsDone("data: " + payload) && ("data: " + payload)[6..] == payload
  {
    TrimEndKeeps(payload);
  }

  lemma PrintedStarts(event: Members)
    ensures PrintObject(event) != "" && PrintObject(event)[0] == '{'
  {
  }

  lemma OneLinePrinted(event: Members, ends: LineEnds)
    requires ProperEnds(ends) && OneLine(event, ends)
    ensures NoEnd(PrintObject(event), ends)
  {
    var p := PrintObject(event);
    forall k | 0 <= k < |p| ensures p[k] !in ends {
      if p[k] in ends {
        PrintedHolds(event, p[k]);
      }
    }
  }

  lemma ReadFrame(payload: string, lines: seq<string>)
    requires payload != "" && payload[0] == '{'
    ensures Read(["data: " + payload] + ([""] + lines)) == Before([payload], Read(lines))
  {
    NotDone(payload);
    ReadSkips(lines);
    var later := [""] + lines;
    assert (["data: " + payload] + later)[1..] == later;
  }

  lemma ReadSkips(lines: seq<string>)
    ensures Read([""] + lines) == Read(lines)
  {
    assert ([""] + lines)[1..] == lines;
    assert !IsData("");
  }

  lemma EventRead(event: Members, later: string, ends: LineEnds)
    requires ProperEnds(ends) && OneLine(event, ends)
    ensures Read(Lines(EventFrame(event) + later, ends)) == Before([PrintObject(event)], Read(Lines(later, ends)))
  {
    OneLinePrinted(event, ends);
    FrameLines(PrintObject(event), later, ends);
    PrintedStarts(event);
    ReadFrame(PrintObject(event), Lines(later, ends));
  }

  lemma BeforeJoins(a: seq<string>, b: seq<string>, r: Reading)
    ensures Before(a, Before(b, r)) == Before(a + b, r) && Before([], r) == r
  {
    assert a + (b + r.payloads) == (a + b) + r.payloads && [] + r.payloads == r.payloads;
  }

  lemma {:induction false} EventsRead(events: seq<Members>, rest: string, ends: LineEnds)
    requires ProperEnds(ends) && AllOneLine(events, ends)
    ensures Read(Lines(EventFrames(events) + rest, ends)) == Before(Printed(events), Read(Lines(rest, ends)))
    decreases |events|
  {
    var after := Read(Lines(rest, ends));
    if |events| == 0 {
      assert EventFrames(events) + rest == rest;
      BeforeJoins([], [], after);
    } else {
      var frames := EventFrames(events[1..]);
      EventsRead(events[1..], rest, ends);
      Joined(EventFrame(events[0]), frames, rest);
      EventRead(events[0], frames + rest, ends);
      BeforeJoins([PrintObject(events[0])], Printed(events[1..]), after);
    }
  }

  lemma DoneRead(ends: LineEnds)
    requires ProperEnds(ends)
    ensures Read(Lines(Frame("[DONE]"), ends)) == Reading([], true, [""])
  {
    assert Frame("[DONE]") == Frame("[DONE]") + "";
    FrameLines("[DONE]", "", ends);
    var line := "data: " + "[DONE]";
    assert line[6..] == "[DONE]";
    assert IsDone(line);
    assert [""] + Lines("", ends) == [""];
    assert ([line] + [""])[1..] == [""];
  }

  /** What a reader ought to make of a stream: every event, in order, then the marker if the provider can chat. */
  function Faithful(source: Source): Reading {
    Reading(Printed(Events(source)), source.Chunks?, if source.Chunks? then [""] else [])
  }

  lemma BeforeNone(payloads: seq<string>, done: bool, unread: seq<string>)
    ensures Before(payloads, Reading([], done, unread)) == Reading(payloads, done, unread)
  {
    assert payloads + [] == payloads;
  }

  lemma OneLineSuffices(source: Source, ends: LineEnds)
    requires ProperEnds(ends) && AllOneLine(Events(source), ends)
    ensures Read(Lines(Written(source), ends)) == Faithful(source)
  {
    var events := Events(source);
    if source.Chunks? {
      EventsRead(events, Frame("[DONE]"), ends);
      DoneRead(ends);
      BeforeNone(Printed(events), true, [""]);
    } else {
      EventsRead(events, "", ends);
      BeforeNone(Printed(events), false, []);
    }
  }

  // ---- A raw line end cuts its event short ----

  lemma {:induction false} FirstEnd(s: string, ends: LineEnds) returns (n: nat)
    requires !NoEnd(s, ends)
    ensures n < |s| && s[n] in ends && NoEnd(s[..n], ends)
    decreases |s|
  {
    if s[0] in ends {
      n := 0;
    } else {
      var k :| 0 <= k < |s| && s[k] in ends;
      assert s[1..][k - 1] == s[k];
      var m := FirstEnd(s[1..], ends);
      n := m + 1;
      assert forall j | 0 < j < n :: s[..n][j] == s[1..][..m][j - 1];
    }
  }

  lemma CutLine(a: string, t: string, ends: LineEnds)
    requires ProperEnds(ends) && NoEnd(a, ends) && t != "" && t[0] in ends && a != "" && a[0] == '{'
    ensures
      var r := Read(Lines("data: " + a + t, ends));
      r.payloads != [] && r.payloads[0] == a
  {
    DataLine(a, ends);
    FirstLine("data: " + a, t, ends);
    NotDone(a);
  }

  lemma CutFrame(p: string, n: nat, rest: string)
    requires n <= |p|
    ensures Frame(p) + rest == "data: " + p[..n] + (p[n..] + ("\n\n" + rest))
  {
    assert p == p[..n] + p[n..];
    Joined("data: ", p[..n], p[n..]);
    Joined("data: " + p, "\n\n", rest);
    Joined("data: " + p[..n], p[n..], "\n\n" + rest);
  }

  lemma CutRead(event: Members, rest: string, ends: LineEnds)
    requires ProperEnds(ends) && !OneLine(event, ends)
    ensures
      var r := Read(Lines(EventFrame(event) + rest, ends));
      r.payloads != [] && |r.payloads[0]| < |PrintObject(event)|
  {
    var p := PrintObject(event);
    var c :| c in ends && HasRaw(event, c);
    PrintedHolds(event, c);
    PrintedStarts(event);
    var n := FirstEnd(p, ends);
    CutFrame(p, n, rest);
    CutLine(p[..n], p[n..] + ("\n\n" + rest), ends);
  }

  /** Some payload is shorter than the one at its place. */
  ghost predicate SomeCut(printed: seq<string>, payloads: seq<string>) {
    exists k :: 0 <= k < |printed| && k < |payloads| && |payloads[k]| < |printed[k]|
  }

  lemma CutLater(p: string, printed: seq<string>, payloads: seq<string>)
    requires SomeCut(printed, payloads)
    ensures SomeCut([p] + printed, [p] + payloads)
  {
    var k :| 0 <= k < |printed| && k < |payloads| && |payloads[k]| < |printed[k]|;
    assert ([p] + payloads)[k + 1] == payloads[k] && ([p] + printed)[k + 1] == printed[k];
  }

  lemma {:induction false} EventIsCut(events: seq<Members>, rest: string, ends: LineEnds)
    requires ProperEnds(ends) && !AllOneLine(events, ends)
    ensures SomeCut(Printed(events), Read(Lines(EventFrames(events) + rest, ends)).payloads)
    decreases |events|
  {
    var frames := EventFrames(events[1..]);
    Joined(EventFrame(events[0]), frames, rest);
    if OneLine(events[0], ends) {
      EventRead(events[0], frames + rest, ends);
      EventIsCut(events[1..], rest, ends);
      CutLater(PrintObject(events[0]), Printed(events[1..]), Read(Lines(frames + rest, ends)).payloads);
    } else {
      CutRead(events[0], frames + rest, ends);
    }
  }

  /**
   The reader gets back exactly the events written, in order, and stops at the one end
   marker, if and only if no event's text holds a raw character that this reader ends
   lines at. JSON escaping takes care of line feeds and carriage returns.
   */
  lemma RoundTripIff(source: Source, ends: LineEnds)
    requires ProperEnds(ends)
    ensures Read(Lines(Written(source), ends)) == Faithful(source) <==> AllOneLine(Events(source), ends)
  {
    if AllOneLine(Events(source), ends) {
      OneLineSuffices(source, ends);
    } else {
      EventIsCut(Events(source), if source.Chunks? then Frame("[DONE]") else "", ends);
    }
  }

  /** By the event-stream format's own line ends the round trip never fails. */
  lemma EventStreamRoundTrip(source: Source)
    ensures Read(Lines(Written(source), EVENT_STREAM_ENDS)) == Faithful(source)
  {
    var ends := EVENT_STREAM_ENDS;
    assert forall c <- ends :: c as int < 32;
    assert AllOneLine(Events(source), ends);
    RoundTripIff(source, ends);
  }

  /** A reader that ends lines at every Unicode line end gets a chunk with U+2028 in it cut short. */
  lemma UnicodeEndsCut()
    ensures
      var source := Chunks([Chunk([8232 as char], None, None)], None);
      Read(Lines(Written(source), UNICODE_ENDS)) != Faithful(source)
  {
    var c := 8232 as char;
    var source := Chunks([Chunk([c], None, None)], None);
    RoundTripIff(source, UNICODE_ENDS);
    var event := ChunkEvent(source.chunks[0]);
    assert Events(source)[0] == event;
    assert MemberHas(event[0], c);
    assert HasRaw(event, c);
    assert !OneLine(event, UNICODE_ENDS);
  }

  // ---- Decoding ----

  function Decoded(payloads: seq<string>): seq<Option<Members>> {
    if payloads == [] then [] else [ParseObject(payloads[0])] + Decoded(payloads[1..])
  }

  function Whole(events: seq<Members>): seq<Option<Members>> {
    if events == [] then [] else [Some(events[0])] + Whole(events[1..])
  }

  lemma {:induction false} DecodedEvents(events: seq<Members>)
    ensures Decoded(Printed(events)) == Whole(events)
    decreases |events|
  {
    if events != [] {
      ObjectRoundTrip(events[0]);
      assert Printed(events)[1..] == Printed(events[1..]);
      DecodedEvents(events[1..]);
    }
  }

  /** The first value under a name. */
  function Member(event: Members, name: string): Option<Value> {
    if event == [] then None else if event[0].0 == name then Some(event[0].1) else Member(event[1..], name)
  }

  /** A chunk's fields as a client finds them, `null` where the chunk has none. */
  predicate ShowsChunk(event: Members, c: Chunk) {
    && Member(event, "content") == Some(Text(c.content))
    && Member(event, "finish_reason") == Some(if c.finishReason.None? then Null else Text(c.finishReason.value))
    && Member(event, "model") == Some(if c.model.None? then Null else Text(c.model.value))
    && Member(event, "error") == None && |event| == 3
  }

  predicate ShowsError(event: Members, message: string) {
    Member(event, "error") == Some(Text(message)) && |event| == 1
  }

  lemma ChunkShown(c: Chunk)
    ensures ShowsChunk(ChunkEvent(c), c)
  {
    var event := ChunkEvent(c);
    var later := event[1..];
    assert later[1..] == event[2..] && event[2..][1..] == event[3..] && event[3..] == [];
    assert event[0].0 == "content" && later[0].0 == "finish_reason" && event[2..][0].0 == "model";
    assert "content"[0] == 'c' && "finish_reason"[0] == 'f' && "model"[0] == 'm' && "error"[0] == 'e';
    assert Member(event[2..], "model") == Some(event[2].1) && Member(event[2..], "error") == Member(event[3..], "error");
  }

  lemma {:induction false} ChunksShown(chunks: seq<Chunk>, k: nat)
    requires k < |chunks|
    ensures |ChunkEvents(chunks)| == |chunks| && ShowsChunk(ChunkEvents(chunks)[k], chunks[k])
    decreases |chunks|
  {
    ChunkShown(chunks[0]);
    ChunkEventsCount(chunks[1..]);
    if k > 0 {
      ChunksShown(chunks[1..], k - 1);
    }
  }

  lemma {:induction false} ChunkEventsCount(chunks: seq<Chunk>)
    ensures |ChunkEvents(chunks)| == |chunks|
    decreases |chunks|
  {
    if chunks != [] {
      ChunkEventsCount(chunks[1..]);
    }
  }

  lemma {:induction false} WholeAt(events: seq<Members>, k: nat)
    requires k < |events|
    ensures |Whole(events)| == |events| && Whole(events)[k] == Some(events[k])
    decreases |events|
  {
    if k > 0 {
      WholeAt(events[1..], k - 1);
    } else {
      WholeCount(events[1..]);
    }
  }

  lemma {:induction false} WholeCount(events: seq<Members>)
    ensures |Whole(events)| == |events|
    decreases |events|
  {
    if events != [] {
      WholeCount(events[1..]);
    }
  }

  /** End to end: frame, split into lines, read, decode gives back the very events, and one end marker. */
  lemma StreamDecodes(source: Source, ends: LineEnds)
    requires ProperEnds(ends) && AllOneLine(Events(source), ends)
    ensures
      var r := Read(Lines(Written(source), ends));
      Decoded(r.payloads) == Whole(Events(source)) && r.done == source.Chunks?
  {
    RoundTripIff(source, ends);
    DecodedEvents(Events(source));
  }

  lemma ErrorShown(message: string)
    ensures ShowsError(ErrorEvent(message), message)
  {
  }

  lemma EventsShown(chunks: seq<Chunk>, failure: Option<string>)
    ensures
      var events := Events(Chunks(chunks, failure));
      && |events| == |chunks| + (if failure.Some? then 1 else 0)
      && (forall k | 0 <= k < |chunks| :: ShowsChunk(events[k], chunks[k]))
      && (failure.Some? ==> ShowsError(events[|chunks|], failure.value))
  {
    ChunkEventsCount(chunks);
    forall k | 0 <= k < |chunks| ensures ShowsChunk(ChunkEvents(chunks)[k], chunks[k]) {
      ChunksShown(chunks, k);
    }
    if failure.Some? {
      ErrorShown(failure.value);
    }
  }

  /** Decoded events of chunks and perhaps an exception: the fields of each chunk at its place, and then the error. */
  predicate Shows(decoded: seq<Option<Members>>, chunks: seq<Chunk>, failure: Option<string>) {
    && |decoded| == |chunks| + (if failure.Some? then 1 else 0)
    && (forall k | 0 <= k < |decoded| :: decoded[k].Some?)
    && (forall k | 0 <= k < |chunks| :: ShowsChunk(decoded[k].value, chunks[k]))
    && (failure.Some? ==> ShowsError(decoded[|chunks|].value, failure.value))
  }

  lemma EventsDecode(events: seq<Members>, chunks: seq<Chunk>, failure: Option<string>)
    requires events == Events(Chunks(chunks, failure))
    ensures Shows(Whole(events), chunks, failure)
  {
    EventsShown(chunks, failure);
    WholeCount(events);
    forall k | 0 <= k < |events| ensures Whole(events)[k] == Some(events[k]) {
      WholeAt(events, k);
    }
  }

  /**
   What a client finds in each decoded event: under `content`, `finish_reason` and `model`
   the fields of the chunk at its place, and under `error` the exception that ended them.
   */
  lemma StreamShows(chunks: seq<Chunk>, failure: Option<string>, ends: LineEnds)
    requires ProperEnds(ends) && AllOneLine(Events(Chunks(chunks, failure)), ends)
    ensures Shows(Decoded(Read(Lines(Written(Chunks(chunks, failure)), ends)).payloads), chunks, failure)
  {
    StreamDecodes(Chunks(chunks, failure), ends);
    EventsDecode(Events(Chunks(chunks, failure)), chunks, failure);
  }

  /** The one event of a provider that cannot chat says so under `error`. */
  lemma NotChatShows(provider: string, ends: LineEnds)
    requires ProperEnds(ends) && AllOneLine(Events(NotChatCapable(provider)), ends)
    ensures
      var decoded := Decoded(Read(Lines(Written(NotChatCapable(provider)), ends)).payloads);
      && |decoded| == 1 && decoded[0].Some?
      && ShowsError(decoded[0].value, "Provider " + provider + " does not support chat")
  {
    StreamDecodes(NotChatCapable(provider), ends);
    var event := NotChatEvent(provider);
    ErrorShown("Provider " + provider + " does not support chat");
    WholeAt([event], 0);
  }

  // ---- Streams written by others ----

  /** A carriage return ends a line by itself or with the line feed after it. */
  lemma ReturnEndsLine(a: string, rest: string, ends: LineEnds)
    requires NoEnd(a, ends) && '\r' in ends
    ensures Lines(a + ("\r\n" + rest), ends) == [a] + Lines(rest, ends)
    ensures rest == "" || rest[0] != '\n' ==> Lines(a + ("\r" + rest), ends) == [a] + Lines(rest, ends)
  {
    var both, one := "\r\n" + rest, "\r" + rest;
    LineStops(a, both, ends);
    LineStops(a, one, ends);
    assert (a + both)[..|a|] == a && (a + both)[|a|..] == both && (a + both)[|a| + 2..] == rest;
    assert (a + one)[..|a|] == a && (a + one)[|a|..] == one && (a + one)[|a| + 1..] == rest;
    assert "\r\n" <= one ==> rest != "" && one[1] == rest[0] == '\n';
  }

  predicate AllSpace(s: string) {
    forall k | 0 <= k < |s| :: IsSpace(s[k])
  }

  lemma {:induction false} TrimStartDrops(a: string, t: string)
    requires AllSpace(a) && t != "" && !IsSpace(t[0])
    ensures TrimStart(a + t) == t
    decreases |a|
  {
    if |a| == 0 {
      assert a + t == t;
    } else {
      assert (a + t)[1..] == a[1..] + t;
      TrimStartDrops(a[1..], t);
    }
  }

  lemma {:induction false} TrimEndDrops(t: string, b: string)
    requires AllSpace(b) && t != "" && !IsSpace(t[|t| - 1])
    ensures TrimEnd(t + b) == t
    decreases |b|
  {
    if |b| == 0 {
      assert t + b == t;
    } else {
      assert (t + b)[..|t + b| - 1] == t + b[..|b| - 1];
      TrimEndDrops(t, b[..|b| - 1]);
    }
  }

  lemma {:induction false} TrimStartSplits(s: string) returns (a: string)
    ensures AllSpace(a) && s == a + TrimStart(s)
    decreases |s|
  {
    a := "";
    if s != "" && IsSpace(s[0]) {
      var rest := TrimStartSplits(s[1..]);
      a := [s[0]] + rest;
    }
  }

  lemma {:induction false} TrimEndSplits(s: string) returns (b: string)
    ensures AllSpace(b) && s == TrimEnd(s) + b
    decreases |s|
  {
    b := "";
    if s != "" && IsSpace(s[|s| - 1]) {
      var front := TrimEndSplits(s[..|s| - 1]);
      b := front + [s[|s| - 1]];
    }
  }

  /** The marker with white space around it. */
  ghost predicate PaddedMarker(payload: string) {
    exists a, b :: AllSpace(a) && AllSpace(b) && payload == a + ("[DONE]" + b)
  }

  /** A payload ends the reading exactly if it is the marker but for white space around it. */
  lemma DoneIff(payload: string)
    ensures IsDone("data: " + payload) <==> PaddedMarker(payload)
  {
    var marker := "[DONE]";
    assert ("data: " + payload)[6..] == payload && "data: " <= "data: " + payload;
    if PaddedMarker(payload) {
      var a, b :| AllSpace(a) && AllSpace(b) && payload == a + (marker + b);
      TrimStartDrops(a, marker + b);
      TrimEndDrops(marker, b);
    }
    if Strip(payload) == marker {
      var a := TrimStartSplits(payload);
      var b := TrimEndSplits(TrimStart(payload));
      assert payload == a + (marker + b);
    }
  }
}
