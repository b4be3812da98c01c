/**
 Server-sent events between the gateway, which prints frames, and the browser client, which parses them
 from chunks that may split anywhere.  The format is a subset of the WHATWG HTML Living Standard,
 sections 9.2.5 and 9.2.6.
 */
module Sse {
  import opened Prelude

  datatype Event = Event(event: string, data: string)

  // ---------- printing ----------

  function Print(e: Event): string { "event: " + e.event + "\ndata: " + e.data + "\n\n" }

  function PrintAll(events: seq<Event>): string {
    if events == [] then "" else Print(events[0]) + PrintAll(events[1..])
  }

  // ---------- strings ----------

  /** White space and line terminators, as JavaScript's trim removes them. */
  predicate IsSpace(c: char) {
    || c == ' ' || '\t' <= c <= '\r' || c == '\U{00A0}' || c == '\U{1680}' || '\U{2000}' <= c <= '\U{200A}'
    || c == '\U{2028}' || c == '\U{2029}' || c == '\U{202F}' || c == '\U{205F}' || c == '\U{3000}' || c == '\U{FEFF}'
  }

  function TrimStart(s: string): string { if s != "" && IsSpace(s[0]) then TrimStart(s[1..]) else s }

  function TrimEnd(s: string): string { if s != "" && IsSpace(s[|s| - 1]) then TrimEnd(s[..|s| - 1]) else s }

  function Trim(s: string): string { TrimEnd(TrimStart(s)) }

  /** No line feed, and nothing to trim. */
  predicate Clean(s: string) {
    '\n' !in s && (s != "" ==> !IsSpace(s[0]) && !IsSpace(s[|s| - 1]))
  }

  predicate BlankAt(s: string, i: nat) { i + 1 < |s| && s[i] == '\n' && s[i + 1] == '\n' }

  /** The position of the first empty line. */
  function Separator(s: string): (r: Option<nat>)
    ensures r.Some? ==> BlankAt(s, r.value) && forall i: nat :: i < r.value ==> !BlankAt(s, i)
    ensures r.None? ==> forall i: nat :: !BlankAt(s, i)
  {
    if |s| < 2 then None
    else if BlankAt(s, 0) then Some(0)
    else
      var r := Separator(s[1..]);
      assert forall i: nat :: i > 0 ==> (BlankAt(s, i) <==> BlankAt(s[1..], i - 1));
      if r.None? then None else Some(r.value + 1)
  }

  function Lines(s: string): (lines: seq<string>)
    ensures lines != []
  {
    if s == "" then [""]
    else
      var rest := Lines(s[1..]);
      if s[0] == '\n' then [""] + rest else [[s[0]] + rest[0]] + rest[1..]
  }

  /** The pieces joined by line feeds. */
  function Join(pieces: seq<string>): string {
    if pieces == [] then "" else pieces[0] + JoinTail(pieces[1..])
  }

  function JoinTail(pieces: seq<string>): string {
    if pieces == [] then "" else "\n" + pieces[0] + JoinTail(pieces[1..])
  }

  // ---------- parsing ----------

  /** The event name after the lines: the last event field, or else the name before them. */
  function EventName(lines: seq<string>, name: string): string {
    if lines == [] then name
    else if "event:" <= lines[0] then EventName(lines[1..], Trim(lines[0][6..]))
    else EventName(lines[1..], name)
  }

  function DataPieces(lines: seq<string>): seq<string> {
    if lines == [] then []
    else if "data:" <= lines[0] then [Trim(lines[0][5..])] + DataPieces(lines[1..])
    else DataPieces(lines[1..])
  }

  function ParseFrame(raw: string): Event {
    Event(EventName(Lines(raw), "message"), Join(DataPieces(Lines(raw))))
  }

  /** The raw frames of a text, each without the empty line that ends it, and what is left over. */
  datatype Cut = Cut(frames: seq<string>, rest: string)

  function Frames(text: string): Cut
    decreases |text|
  {
    match Separator(text)
    case None => Cut([], text)
    case Some(i) =>
      var c := Frames(text[i + 2..]);
      Cut([text[..i]] + c.frames, c.rest)
  }

  function Parse(frames: seq<string>): seq<Event> {
    seq(|frames|, i requires 0 <= i < |frames| => ParseFrame(frames[i]))
  }

  /** The events of the complete frames of a text. */
  function Events(text: string): seq<Event> { Parse(Frames(text).frames) }

  function Concat(chunks: seq<string>): string {
    if chunks == [] then "" else Concat(chunks[..|chunks| - 1]) + chunks[|chunks| - 1]
  }

  // ---------- chunking does not matter ----------

  lemma SeparatorAppend(a: string, b: string)
    requires Separator(a).Some?
    ensures Separator(a + b) == Separator(a)
  {
    var i := Separator(a).value;
    assert forall j: nat :: j <= i ==> (BlankAt(a + b, j) <==> BlankAt(a, j));
  }

  /** Parsing may stop anywhere and go on with what is left over. */
  lemma {:induction false} FramesAppend(a: string, b: string)
    ensures var p := Frames(a);
            var q := Frames(p.rest + b);
            Frames(a + b) == Cut(p.frames + q.frames, q.rest)
    decreases |a|
  {
    match Separator(a)
    case None =>
      var q := Frames(a + b);
      assert [] + q.frames == q.frames;
    case Some(i) =>
      SeparatorAppend(a, b);
      assert (a + b)[..i] == a[..i] && (a + b)[i + 2..] == a[i + 2..] + b;
      var p := Frames(a[i + 2..]);
      var q := Frames(p.rest + b);
      FramesAppend(a[i + 2..], b);
      assert [a[..i]] + (p.frames + q.frames) == ([a[..i]] + p.frames) + q.frames;
  }

  lemma EventsAppend(a: string, b: string)
    ensures Events(a + b) == Events(a) + Events(Frames(a).rest + b)
    ensures Frames(a + b).rest == Frames(Frames(a).rest + b).rest
  {
    FramesAppend(a, b);
    var p, q := Frames(a), Frames(Frames(a).rest + b);
    ParseAppend(p.frames, q.frames);
  }

  lemma ParseAppend(x: seq<string>, y: seq<string>)
    ensures Parse(x + y) == Parse(x) + Parse(y)
  {}

  /** The lines of one frame, read in order. */
  method ReadFrame(raw: string) returns (e: Event)
    ensures e == ParseFrame(raw)
  {
    var event := "message";
    var dataLines: seq<string> := [];
    var lines := Lines(raw);
    var j := 0;
    while j < |lines|
      invariant 0 <= j <= |lines|
      invariant EventName(lines, "message") == EventName(lines[j..], event)
      invariant DataPieces(lines) == dataLines + DataPieces(lines[j..])
    {
      assert lines[j..][0] == lines[j] && lines[j..][1..] == lines[j + 1..];
      if "event:" <= lines[j] {
        assert lines[j][0] == "event:"[0] != "data:"[0];
        event := Trim(lines[j][6..]);
      } else if "data:" <= lines[j] {
        var piece := Trim(lines[j][5..]);
        assert dataLines + ([piece] + DataPieces(lines[j + 1..])) == (dataLines + [piece]) + DataPieces(lines[j + 1..]);
        dataLines := dataLines + [piece];
      }
      j := j + 1;
    }
    assert dataLines + [] == dataLines;
    return Event(event, Join(dataLines));
  }

  /** Taking one frame off the buffer. */
  lemma TakeFrame(done: seq<string>, buffer: string, i: nat)
    requires Separator(buffer) == Some(i)
    ensures var left := Frames(buffer[i + 2..]);
            && done + Frames(buffer).frames == (done + [buffer[..i]]) + left.frames && Frames(buffer).rest == left.rest
    ensures Parse(done + [buffer[..i]]) == Parse(done) + [ParseFrame(buffer[..i])]
  {
    var left := Frames(buffer[i + 2..]);
    assert done + ([buffer[..i]] + left.frames) == (done + [buffer[..i]]) + left.frames;
  }

  /** The complete frames of the buffer, taken off its front one by one. */
  method Drain(text: string) returns (events: seq<Event>, buffer: string)
    ensures events == Events(text) && buffer == Frames(text).rest
  {
    events, buffer := [], text;
    ghost var done: seq<string> := [];
    var separator := Separator(buffer);
    while separator.Some?
      invariant separator == Separator(buffer)
      invariant Frames(text) == Cut(done + Frames(buffer).frames, Frames(buffer).rest)
      invariant events == Parse(done)
      decreases |buffer|
    {
      var raw := buffer[..separator.value];
      var e := ReadFrame(raw);
      TakeFrame(done, buffer, separator.value);
      buffer := buffer[separator.value + 2..];
      done := done + [raw];
      events := events + [e];
      separator := Separator(buffer);
    }
    assert done + [] == done;
  }

  /** The client's parser.  Its events depend on the text only, not on how the text was cut into chunks. */
  method ReadSseEvents(chunks: seq<string>) returns (events: seq<Event>)
    ensures events == Events(Concat(chunks))
  {
    events := [];
    var buffer := "";
    var k := 0;
    while k < |chunks|
      invariant 0 <= k <= |chunks|
      invariant events == Events(Concat(chunks[..k])) && buffer == Frames(Concat(chunks[..k])).rest
    {
      assert chunks[..k + 1][..k] == chunks[..k];
      EventsAppend(Concat(chunks[..k]), chunks[k]);
      var found: seq<Event>;
      found, buffer := Drain(buffer + chunks[k]);
      events := events + found;
      k := k + 1;
    }
    assert chunks[..|chunks|] == chunks;
  }
}
