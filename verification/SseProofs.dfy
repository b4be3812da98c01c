/** Printing and parsing are inverse on the events they are meant for, and on no others. */
module SseProofs {
  import opened Prelude
  import opened Sse

  // ---------- trimming ----------

  lemma {:induction false} TrimStartFacts(s: string)
    ensures |TrimStart(s)| <= |s|
    ensures TrimStart(s) != "" ==> !IsSpace(TrimStart(s)[0])
    ensures forall c :: c in TrimStart(s) ==> c in s
  {
    if s != "" && IsSpace(s[0]) {
      TrimStartFacts(s[1..]);
    }
  }

  lemma {:induction false} TrimEndFacts(s: string)
    ensures TrimEnd(s) <= s
    ensures TrimEnd(s) != "" ==> !IsSpace(TrimEnd(s)[|TrimEnd(s)| - 1])
  {
    if s != "" && IsSpace(s[|s| - 1]) {
      TrimEndFacts(s[..|s| - 1]);
    }
  }

  lemma TrimCleans(s: string)
    requires '\n' !in s
    ensures Clean(Trim(s)) && |Trim(s)| <= |s|
  {
    TrimStartFacts(s);
    TrimEndFacts(TrimStart(s));
  }

  lemma TrimDropsLeadingSpace(s: string)
    ensures Trim(" " + s) == Trim(s)
    ensures Clean(s) ==> Trim(s) == s
  {
    assert (" " + s)[1..] == s;
  }

  // ---------- lines ----------

  lemma {:induction false} LinesPrefix(a: string, b: string)
    requires '\n' !in a
    ensures Lines(a + b) == [a + Lines(b)[0]] + Lines(b)[1..]
  {
    if a == "" {
      assert a + b == b && a + Lines(b)[0] == Lines(b)[0];
    } else {
      assert (a + b)[1..] == a[1..] + b && a == [a[0]] + a[1..];
      LinesPrefix(a[1..], b);
      var tail := Lines(b)[1..];
      assert [a[0]] + (a[1..] + Lines(b)[0]) == a + Lines(b)[0];
      assert ([a[1..] + Lines(b)[0]] + tail)[1..] == tail;
    }
  }

  lemma LinesBreak(a: string, b: string)
    requires '\n' !in a
    ensures Lines(a + "\n" + b) == [a] + Lines(b)
  {
    assert a + "\n" + b == a + ("\n" + b) && ("\n" + b)[1..] == b;
    LinesPrefix(a, "\n" + b);
    assert Lines("\n" + b) == [""] + Lines(b) && ([""] + Lines(b))[1..] == Lines(b);
    assert a + "" == a;
  }

  lemma {:induction false} LinesHaveNoBreak(s: string)
    ensures forall k :: 0 <= k < |Lines(s)| ==> '\n' !in Lines(s)[k]
  {
    if s != "" {
      LinesHaveNoBreak(s[1..]);
    }
  }

  lemma {:induction false} LinesJoin(s: string)
    ensures Join(Lines(s)) == s
  {
    if s != "" {
      LinesJoin(s[1..]);
      var rest := Lines(s[1..]);
      assert s == [s[0]] + s[1..];
      if s[0] == '\n' {
        assert ([""] + rest)[1..] == rest;
      } else {
        assert ([[s[0]] + rest[0]] + rest[1..])[1..] == rest[1..];
      }
    }
  }

  // ---------- one printed frame ----------

  function Head(e: Event): string { "event: " + e.event + "\ndata: " }

  function Raw(e: Event): string { Head(e) + e.data }

  /** In the head of a frame the only line feed is followed by the word data. */
  lemma HeadHasNoBlank(e: Event, t: string, j: nat)
    requires '\n' !in e.event && j < |Head(e)|
    ensures !BlankAt(Head(e) + t, j)
  {
    var s, p := Head(e) + t, 7 + |e.event|;
    assert s == "event: " + e.event + "\ndata: " + t;
    if 7 <= j < p {
      assert s[j] == e.event[j - 7] && s[j] in e.event;
    } else if j == p {
      assert s[p + 1] == "\ndata: "[1];
    } else if j > p {
      assert s[j] == "\ndata: "[j - p];
    } else {
      assert s[j] == "event: "[j];
    }
  }

  lemma PrintedSeparator(e: Event, t: string)
    requires Clean(e.event) && Clean(e.data)
    ensures Separator(Print(e) + t) == Some(|Raw(e)|)
    ensures (Print(e) + t)[..|Raw(e)|] == Raw(e) && (Print(e) + t)[|Raw(e)| + 2..] == t
  {
    var s := Print(e) + t;
    assert s == Head(e) + (e.data + "\n\n" + t);
    assert BlankAt(s, |Raw(e)|);
    forall j: nat | j < |Raw(e)| ensures !BlankAt(s, j) {
      if j < |Head(e)| {
        HeadHasNoBlank(e, e.data + "\n\n" + t, j);
      } else {
        assert s[j] == e.data[j - |Head(e)|] && s[j] in e.data;
      }
    }
  }

  lemma LinesOfHead(e: Event, d: string)
    requires '\n' !in e.event
    ensures Lines(Head(e) + d) == ["event: " + e.event, "data: " + Lines(d)[0]] + Lines(d)[1..]
  {
    assert Head(e) + d == "event: " + e.event + "\n" + ("data: " + d);
    LinesBreak("event: " + e.event, "data: " + d);
    LinesPrefix("data: ", d);
  }

  lemma ReadEventLine(name: string, rest: seq<string>, before: string)
    ensures EventName(["event: " + name] + rest, before) == EventName(rest, Trim(name))
    ensures DataPieces(["event: " + name] + rest) == DataPieces(rest)
  {
    var line := "event: " + name;
    assert ([line] + rest)[1..] == rest && line[6..] == " " + name && line[0] == 'e';
    assert "event:" <= line && !("data:" <= line);
    TrimDropsLeadingSpace(name);
  }

  lemma ReadDataLine(value: string, rest: seq<string>, name: string)
    ensures EventName(["data: " + value] + rest, name) == EventName(rest, name)
    ensures DataPieces(["data: " + value] + rest) == [Trim(value)] + DataPieces(rest)
  {
    var line := "data: " + value;
    assert ([line] + rest)[1..] == rest && line[5..] == " " + value && line[0] == 'd';
    assert "data:" <= line && !("event:" <= line);
    TrimDropsLeadingSpace(value);
  }

  lemma ParseLines(name: string, first: string, rest: seq<string>)
    ensures var lines := ["event: " + name, "data: " + first] + rest;
            && EventName(lines, "message") == EventName(rest, Trim(name))
            && Join(DataPieces(lines)) == Trim(first) + JoinTail(DataPieces(rest))
  {
    assert ["event: " + name, "data: " + first] + rest == ["event: " + name] + (["data: " + first] + rest);
    ReadEventLine(name, ["data: " + first] + rest, "message");
    ReadDataLine(first, rest, Trim(name));
    assert ([Trim(first)] + DataPieces(rest))[1..] == DataPieces(rest);
  }

  /** What the parser makes of a frame whose data part is d, possibly cut short or holding line feeds. */
  lemma ParseHead(e: Event, d: string)
    requires '\n' !in e.event
    ensures var rest := Lines(d)[1..];
            && ParseFrame(Head(e) + d).data == Trim(Lines(d)[0]) + JoinTail(DataPieces(rest))
            && ParseFrame(Head(e) + d).event == EventName(rest, Trim(e.event))
  {
    LinesOfHead(e, d);
    ParseLines(e.event, Lines(d)[0], Lines(d)[1..]);
  }

  lemma ParsePrinted(e: Event)
    requires Clean(e.event) && Clean(e.data)
    ensures ParseFrame(Raw(e)) == e
  {
    assert e.data + "" == e.data;
    LinesPrefix(e.data, "");
    assert Lines(e.data) == [e.data];
    ParseHead(e, e.data);
    TrimDropsLeadingSpace(e.event);
    TrimDropsLeadingSpace(e.data);
  }

  // ---------- round trip ----------

  predicate AllClean(events: seq<Event>) {
    forall i :: 0 <= i < |events| ==> Clean(events[i].event) && Clean(events[i].data)
  }

  /** Clean events come back as printed, in order, with nothing left over. */
  lemma {:induction false} RoundTrip(events: seq<Event>)
    requires AllClean(events)
    ensures Events(PrintAll(events)) == events && Frames(PrintAll(events)).rest == ""
  {
    if events != [] {
      var e, rest := events[0], PrintAll(events[1..]);
      RoundTrip(events[1..]);
      PrintedSeparator(e, rest);
      ParsePrinted(e);
      assert Frames(PrintAll(events)) == Cut([Raw(e)] + Frames(rest).frames, Frames(rest).rest);
      ParseAppend([Raw(e)], Frames(rest).frames);
      assert Parse([Raw(e)]) == [e] && events == [e] + events[1..];
    }
  }

  /** However the printed text is cut into chunks, the client reads exactly the printed events. */
  lemma RoundTripUnderChunking(events: seq<Event>, chunks: seq<string>)
    requires AllClean(events) && Concat(chunks) == PrintAll(events)
    ensures Events(Concat(chunks)) == events
  {
    RoundTrip(events);
  }

  /** A stream cut off anywhere has delivered a prefix of the printed events. */
  lemma CutStreamIsPrefix(events: seq<Event>, received: string, lost: string)
    requires AllClean(events) && received + lost == PrintAll(events)
    ensures Events(received) <= events
  {
    EventsAppend(received, lost);
    RoundTrip(events);
  }

  // ---------- exactly the clean events ----------

  lemma {:induction false} NameIsClean(lines: seq<string>, name: string)
    requires Clean(name) && forall k :: 0 <= k < |lines| ==> '\n' !in lines[k]
    ensures Clean(EventName(lines, name))
  {
    if lines != [] {
      if "event:" <= lines[0] {
        TrimCleans(lines[0][6..]);
        NameIsClean(lines[1..], Trim(lines[0][6..]));
      } else {
        NameIsClean(lines[1..], name);
      }
    }
  }

  /** Data lines lose their field name, so joining them gives less than joining all the lines. */
  lemma {:induction false} PiecesAreShorter(lines: seq<string>)
    requires forall k :: 0 <= k < |lines| ==> '\n' !in lines[k]
    ensures |JoinTail(DataPieces(lines))| <= |JoinTail(lines)|
    ensures DataPieces(lines) != [] ==> |JoinTail(DataPieces(lines))| < |JoinTail(lines)|
  {
    if lines != [] {
      PiecesAreShorter(lines[1..]);
      if "data:" <= lines[0] {
        var piece := Trim(lines[0][5..]);
        TrimCleans(lines[0][5..]);
        assert ([piece] + DataPieces(lines[1..]))[1..] == DataPieces(lines[1..]);
      }
    }
  }

  /** The first frame found in a printed event whose name has no line feed. */
  lemma FirstFrame(e: Event) returns (k: nat)
    requires '\n' !in e.event
    ensures k <= |e.data|
    ensures Frames(Print(e)).frames != [] && Frames(Print(e)).frames[0] == Head(e) + e.data[..k]
  {
    var s := Print(e);
    assert s == Head(e) + (e.data + "\n\n");
    assert BlankAt(s, |Head(e)| + |e.data|);
    var i := Separator(s).value;
    if i < |Head(e)| {
      HeadHasNoBlank(e, e.data + "\n\n", i);
    }
    k := i - |Head(e)|;
    assert s[..i] == Head(e) + e.data[..k];
  }

  lemma DataIsClean(e: Event, d: string)
    requires '\n' !in e.event && |d| <= |e.data| && e.data == ParseFrame(Head(e) + d).data
    ensures Clean(e.data)
  {
    var first, rest := Lines(d)[0], Lines(d)[1..];
    ParseHead(e, d);
    LinesHaveNoBreak(d);
    LinesJoin(d);
    TrimCleans(first);
    PiecesAreShorter(rest);
    if DataPieces(rest) == [] {
      assert Trim(first) + "" == Trim(first);
    }
  }

  /**
   The wire format carries an event faithfully if and only if its name and data have no line feed and
   nothing to trim.
   */
  lemma RoundTripsExactlyClean(e: Event)
    ensures Events(Print(e)) == [e] <==> Clean(e.event) && Clean(e.data)
  {
    assert Print(e) + "" == Print(e) && PrintAll([e]) == Print(e) + PrintAll([e][1..]);
    if Clean(e.event) && Clean(e.data) {
      RoundTrip([e]);
    } else if Events(Print(e)) == [e] {
      var raw := Frames(Print(e)).frames[0];
      assert Parse(Frames(Print(e)).frames)[0] == ParseFrame(raw) == e;
      LinesHaveNoBreak(raw);
      NameIsClean(Lines(raw), "message");
      var k := FirstFrame(e);
      DataIsClean(e, e.data[..k]);
    }
  }

  // ---------- frames the gateway does not print ----------

  lemma JoinOne(line: string)
    ensures Join([line]) == line
  {
    assert line + "" == line;
  }

  lemma JoinMore(line: string, rest: seq<string>)
    requires rest != []
    ensures Join([line] + rest) == line + "\n" + Join(rest)
  {
    assert ([line] + rest)[1..] == rest;
    assert line + ("\n" + rest[0] + JoinTail(rest[1..])) == line + "\n" + (rest[0] + JoinTail(rest[1..]));
  }

  /** Reading lines is the inverse of joining them. */
  lemma {:induction false} LinesOfJoin(lines: seq<string>)
    requires lines != [] && forall k :: 0 <= k < |lines| ==> '\n' !in lines[k]
    ensures Lines(Join(lines)) == lines
  {
    var line, rest := lines[0], lines[1..];
    assert lines == [line] + rest;
    if rest == [] {
      JoinOne(line);
      LinesPrefix(line, "");
      assert line + "" == line && [line] + [] == lines;
    } else {
      JoinMore(line, rest);
      LinesBreak(line, Join(rest));
      LinesOfJoin(rest);
    }
  }

  predicate IsField(line: string) { "event:" <= line || "data:" <= line }

  /** Comments, ids and retry times are skipped wherever they stand. */
  lemma {:induction false} OtherLinesAreSkipped(before: seq<string>, line: string, after: seq<string>, name: string)
    requires !IsField(line)
    ensures EventName(before + [line] + after, name) == EventName(before + after, name)
    ensures DataPieces(before + [line] + after) == DataPieces(before + after)
  {
    if before == [] {
      assert before + [line] + after == [line] + after && before + after == after;
      assert ([line] + after)[1..] == after;
    } else {
      var rest := before[1..];
      assert (before + [line] + after)[1..] == rest + [line] + after && (before + after)[1..] == rest + after;
      OtherLinesAreSkipped(rest, line, after, if "event:" <= before[0] then Trim(before[0][6..]) else name);
    }
  }

  /** Of several names the last one counts. */
  lemma {:induction false} LastNameCounts(before: seq<string>, line: string, after: seq<string>, name: string)
    requires "event:" <= line && forall k :: 0 <= k < |after| ==> !("event:" <= after[k])
    ensures EventName(before + [line] + after, name) == Trim(line[6..])
  {
    if before == [] {
      assert before + [line] + after == [line] + after && ([line] + after)[1..] == after;
      NoNameKeeps(after, Trim(line[6..]));
    } else {
      assert (before + [line] + after)[1..] == before[1..] + [line] + after;
      LastNameCounts(before[1..], line, after, if "event:" <= before[0] then Trim(before[0][6..]) else name);
    }
  }

  lemma {:induction false} NoNameKeeps(lines: seq<string>, name: string)
    requires forall k :: 0 <= k < |lines| ==> !("event:" <= lines[k])
    ensures EventName(lines, name) == name
  {
    if lines != [] {
      NoNameKeeps(lines[1..], name);
    }
  }

  function DataLines(pieces: seq<string>): seq<string> {
    seq(|pieces|, i requires 0 <= i < |pieces| => "data: " + pieces[i])
  }

  lemma {:induction false} DataLinesCarry(pieces: seq<string>)
    requires forall k :: 0 <= k < |pieces| ==> Clean(pieces[k])
    ensures DataPieces(DataLines(pieces)) == pieces
    ensures forall k :: 0 <= k < |pieces| ==> !("event:" <= DataLines(pieces)[k]) && '\n' !in DataLines(pieces)[k]
  {
    forall k | 0 <= k < |pieces| ensures !("event:" <= DataLines(pieces)[k]) && '\n' !in DataLines(pieces)[k] {
      assert DataLines(pieces)[k][0] == 'd' && "event:"[0] == 'e';
    }
    if pieces != [] {
      var line := DataLines(pieces)[0];
      assert DataLines(pieces)[1..] == DataLines(pieces[1..]);
      assert "data:" <= line && line[5..] == " " + pieces[0];
      TrimDropsLeadingSpace(pieces[0]);
      DataLinesCarry(pieces[1..]);
    }
  }

  /**
   A frame with any number of data lines, as the standard allows, is one event whose data are their contents joined by
   line feeds; without a name it is a message.
   */
  lemma DataLinesAreJoined(name: string, pieces: seq<string>)
    requires Clean(name) && pieces != [] && forall k :: 0 <= k < |pieces| ==> Clean(pieces[k])
    ensures ParseFrame(Join(["event: " + name] + DataLines(pieces))) == Event(name, Join(pieces))
    ensures ParseFrame(Join(DataLines(pieces))) == Event("message", Join(pieces))
  {
    var head, data := "event: " + name, DataLines(pieces);
    var lines := [head] + data;
    DataLinesCarry(pieces);
    LinesOfJoin(lines);
    LinesOfJoin(data);
    NoNameKeeps(data, "message");
    LastNameCounts([], head, data, "message");
    assert [] + [head] + data == lines && head[6..] == " " + name && lines[1..] == data;
    assert head[0] == 'e' && "data:"[0] == 'd';
    TrimDropsLeadingSpace(name);
  }
}
