/** The gateway's stream of a generation, the browser's reading of it, and the two put together. */
module SseStream {
  import opened Prelude
  import opened Sse
  import opened SseProofs
  import opened Generation

  // ---------- the gateway ----------

  /** What one turn of the gateway's loop meets. */
  datatype Tick = Message(event: Event) | Timeout | Stopped | Disconnected

  const HEARTBEAT := Event("heartbeat", "{}")

  predicate Ends(e: Event) { e.event == "completed" || e.event == "failed" }

  function Emitted(ticks: seq<Tick>): seq<Event> {
    if ticks == [] || ticks[0].Stopped? || ticks[0].Disconnected? then []
    else if ticks[0].Timeout? then [HEARTBEAT] + Emitted(ticks[1..])
    else if Ends(ticks[0].event) then [ticks[0].event]
    else [ticks[0].event] + Emitted(ticks[1..])
  }

  lemma PrintAllPush(events: seq<Event>, e: Event)
    ensures PrintAll(events + [e]) == PrintAll(events) + Print(e)
  {
    if events == [] {
      assert [e][1..] == [] && [] + [e] == [e];
      assert Print(e) + "" == Print(e) && "" + Print(e) == Print(e);
    } else {
      assert (events + [e])[1..] == events[1..] + [e];
      PrintAllPush(events[1..], e);
      assert Print(events[0]) + (PrintAll(events[1..]) + Print(e)) == (Print(events[0]) + PrintAll(events[1..]))
          + Print(e);
    }
  }

  lemma YieldMoves(done: seq<Event>, e: Event, rest: seq<Event>)
    ensures PrintAll(done + [e]) == PrintAll(done) + Print(e)
    ensures done + ([e] + rest) == (done + [e]) + rest
  {
    PrintAllPush(done, e);
  }

  lemma HeartbeatText()
    ensures Print(HEARTBEAT) == "event: heartbeat\ndata: {}\n\n"
  {}

  /** The generator loop of SSEService.stream; what it yields is the text of the emitted events. */
  method Stream(ticks: seq<Tick>) returns (text: string)
    ensures text == PrintAll(Emitted(ticks))
  {
    text := "";
    ghost var done: seq<Event> := [];
    var k := 0;
    assert ticks[0..] == ticks;
    while k < |ticks|
      invariant 0 <= k <= |ticks|
      invariant Emitted(ticks) == done + Emitted(ticks[k..])
      invariant text == PrintAll(done)
    {
      assert ticks[k..][0] == ticks[k] && ticks[k..][1..] == ticks[k + 1..];
      match ticks[k] {
        case Disconnected => assert done + [] == done; return;
        case Stopped => assert done + [] == done; return;
        case Timeout =>
          HeartbeatText();
          YieldMoves(done, HEARTBEAT, Emitted(ticks[k + 1..]));
          text := text + "event: heartbeat\ndata: {}\n\n";
          done := done + [HEARTBEAT];
        case Message(e) =>
          YieldMoves(done, e, Emitted(ticks[k + 1..]));
          text := text + ("event: " + e.event + "\ndata: " + e.data + "\n\n");
          if Ends(e) { return; }
          done := done + [e];
      }
      k := k + 1;
    }
    assert done + [] == done;
  }

  /** Only the last event can be a completed or failed one. */
  ghost predicate EndsOnlyLast(events: seq<Event>) {
    events == [] || forall e :: e in events[..|events| - 1] ==> !Ends(e)
  }

  lemma EndsOnlyLastPrepend(e: Event, rest: seq<Event>)
    requires EndsOnlyLast(rest) && !Ends(e)
    ensures EndsOnlyLast([e] + rest)
  {
    var events := [e] + rest;
    if rest != [] {
      assert events[..|events| - 1] == [e] + rest[..|rest| - 1];
    }
  }

  /** Nothing follows the first completed or failed event. */
  lemma {:induction false} NothingAfterTerminal(ticks: seq<Tick>)
    ensures EndsOnlyLast(Emitted(ticks))
  {
    if ticks != [] && !ticks[0].Stopped? && !ticks[0].Disconnected? {
      NothingAfterTerminal(ticks[1..]);
      if ticks[0].Timeout? {
        assert HEARTBEAT.event[0] == 'h' && "completed"[0] == 'c' && "failed"[0] == 'f';
        EndsOnlyLastPrepend(HEARTBEAT, Emitted(ticks[1..]));
      } else if !Ends(ticks[0].event) {
        EndsOnlyLastPrepend(ticks[0].event, Emitted(ticks[1..]));
      }
    }
  }

  /** A turn after which the loop goes on. */
  predicate GoesOn(tick: Tick) { tick.Timeout? || (tick.Message? && !Ends(tick.event)) }

  predicate PassesOn(tick: Tick, e: Event) {
    if tick.Message? then e == tick.event else tick.Timeout? && e == Event("heartbeat", "{}")
  }

  /**
   Turn by turn: a message is passed on and a wait that times out gives a heartbeat, up to the first turn that finds the
   subscription ended or the client gone, or brings a completed or failed event, which is still passed on.
   */
  lemma {:induction false} EmittedExactly(ticks: seq<Tick>, n: nat)
    requires n <= |ticks| && (forall k :: 0 <= k < n ==> GoesOn(ticks[k])) && (n < |ticks| ==> !GoesOn(ticks[n]))
    ensures var last := n < |ticks| && ticks[n].Message?;
            && |Emitted(ticks)| == n + (if last then 1 else 0)
            && (last ==> Emitted(ticks)[n] == ticks[n].event)
            && forall k :: 0 <= k < n ==> PassesOn(ticks[k], Emitted(ticks)[k])
  {
    if n > 0 {
      EmittedExactly(ticks[1..], n - 1);
    }
  }

  // ---------- the browser ----------

  /** The fields the client reads from a decoded data string. */
  datatype Payload = Payload(value: Option<string>, reason: Option<string>)

  datatype Chunk =
    | TokenChunk(value: string) | CompleteChunk(value: string) | CancelledChunk | FailedChunk(reason: string)

  function Show(events: seq<Event>, decode: string -> Payload, output: string): seq<Chunk> {
    if events == [] then []
    else
      var e, rest := events[0], events[1..];
      if e.event == "heartbeat" || e.data == "" then Show(rest, decode, output)
      else
        var parsed := decode(e.data);
        if e.event == "token" && parsed.value.Some? && parsed.value.value != "" then
          [TokenChunk(parsed.value.value)] + Show(rest, decode, output + parsed.value.value)
        else if e.event == "completed" then [CompleteChunk(output)]
        else if e.event == "failed" then
          [if parsed.reason == Some("cancelled") then CancelledChunk
           else FailedChunk(if parsed.reason.Some? then parsed.reason.value else "Generation failed")]
        else Show(rest, decode, output)
  }

  /** What one more event shows, and the output after it; the events after a terminal one are not read. */
  lemma ShowOne(events: seq<Event>, k: nat, decode: string -> Payload, output: string)
    requires k < |events|
    ensures var e, rest := events[k], events[k + 1..];
            var parsed := decode(e.data);
            Show(events[k..], decode, output) ==
            if e.event == "heartbeat" || e.data == "" then Show(rest, decode, output)
            else if e.event == "token" && parsed.value.Some? && parsed.value.value != "" then
              [TokenChunk(parsed.value.value)] + Show(rest, decode, output + parsed.value.value)
            else if e.event == "completed" then [CompleteChunk(output)]
            else if e.event == "failed" then
              [if parsed.reason == Some("cancelled") then CancelledChunk
               else FailedChunk(if parsed.reason.Some? then parsed.reason.value else "Generation failed")]
            else Show(rest, decode, output)
  {
    assert events[k..][0] == events[k] && events[k..][1..] == events[k + 1..];
  }

  lemma ShowNone(events: seq<Event>, decode: string -> Payload, output: string)
    requires events == []
    ensures Show(events, decode, output) == []
  {}

  /**
   A failed event with data ends what is shown: as cancelled exactly for that reason, else as a failure with its reason,
   or with a fixed text when it names none.
   */
  lemma FailureShown(events: seq<Event>, decode: string -> Payload, output: string)
    requires events != [] && events[0].event == "failed" && events[0].data != ""
    ensures var reason, shown := decode(events[0].data).reason, Show(events, decode, output);
            && |shown| == 1
            && (shown[0] == CancelledChunk <==> reason == Some("cancelled"))
            && (reason.None? ==> shown[0] == FailedChunk("Generation failed"))
            && (reason.Some? && reason.value != "cancelled" ==> shown[0] == FailedChunk(reason.value))
  {
    assert "failed"[0] == 'f' && "heartbeat"[0] == 'h' && "token"[0] == 't' && "completed"[0] == 'c';
  }

  /** streamGeneration after the connection is open. */
  method StreamGeneration(chunks: seq<string>, decode: string -> Payload) returns (shown: seq<Chunk>)
    ensures shown == Show(Events(Concat(chunks)), decode, "")
  {
    hide *;
    var events := ReadSseEvents(chunks);
    shown := [];
    var output := "";
    var k := 0;
    assert events[0..] == events;
    while k < |events|
      invariant 0 <= k <= |events|
      invariant Show(events, decode, "") == shown + Show(events[k..], decode, output)
    {
      var e := events[k];
      ShowOne(events, k, decode, output);
      k := k + 1;
      if e.event == "heartbeat" || e.data == "" { continue; }
      var parsed := decode(e.data);
      if e.event == "token" && parsed.value.Some? && parsed.value.value != "" {
        output := output + parsed.value.value;
        shown := shown + [TokenChunk(parsed.value.value)];
      } else if e.event == "completed" {
        return shown + [CompleteChunk(output)];
      } else if e.event == "failed" {
        if parsed.reason == Some("cancelled") {
          return shown + [CancelledChunk];
        }
        return shown + [FailedChunk(if parsed.reason.Some? then parsed.reason.value else "Generation failed")];
      }
    }
    ShowNone(events[k..], decode, output);
    assert shown + [] == shown;
  }

  // ---------- from the job to the browser ----------

  function PayloadOf(e: StreamEvent): Payload {
    match e
    case Token(value) => Payload(Some(value), None)
    case Completed => Payload(None, None)
    case Cancelled => Payload(None, Some("cancelled"))
    case Failed(reason) => Payload(None, Some(reason))
  }

  function NameOf(e: StreamEvent): string {
    match e
    case Token(_) => "token"
    case Completed => "completed"
    case Cancelled => "failed"
    case Failed(_) => "failed"
  }

  function OnWire(e: StreamEvent, encode: Payload -> string): Event { Event(NameOf(e), encode(PayloadOf(e))) }

  /**
   How a wait of the gateway ends: with a message, at the heartbeat timeout, or never, because the client has gone.
   */
  datatype Wait = Arrives | TimesOut | Gone

  /**
   What the gateway's loop meets when its subscription begins with pending still to be published.  A wait that times
   out cancels the subscription's generator, so the wait after it finds the subscription ended.
   */
  function Meets(pending: seq<StreamEvent>, waits: seq<Wait>, encode: Payload -> string): seq<Tick>
    decreases |waits|
  {
    if waits == [] then []
    else
      match waits[0]
      case Gone => [Disconnected]
      case TimesOut => [Timeout, Stopped]
      case Arrives =>
        if pending == [] then []
        else [Message(OnWire(pending[0], encode))] + Meets(pending[1..], waits[1..], encode)
  }

  /** The number of messages that arrive before the first wait that brings none. */
  function Arrivals(waits: seq<Wait>): nat {
    if waits == [] || !waits[0].Arrives? then 0 else 1 + Arrivals(waits[1..])
  }

  /** Encoded payloads are non-empty, clean on the wire, and decode to themselves, as compact JSON texts are. */
  ghost predicate FaithfulCodec(encode: Payload -> string, decode: string -> Payload) {
    forall p :: encode(p) != "" && Clean(encode(p)) && decode(encode(p)) == p
  }

  /** The chunk that a terminal event ends the stream with. */
  function FinalChunk(e: StreamEvent, output: string): Chunk {
    match e
    case Token(value) => TokenChunk(value)
    case Completed => CompleteChunk(output)
    case Cancelled => CancelledChunk
    case Failed(reason) => if reason == "cancelled" then CancelledChunk else FailedChunk(reason)
  }

  /** Empty tokens are not shown. */
  function TokenChunks(tokens: seq<string>): seq<Chunk> {
    if tokens == [] then []
    else if tokens[0] == "" then TokenChunks(tokens[1..])
    else [TokenChunk(tokens[0])] + TokenChunks(tokens[1..])
  }

  function Joined(output: string, tokens: seq<string>): string
    decreases |tokens|
  {
    if tokens == [] then output else Joined(output + tokens[0], tokens[1..])
  }

  lemma {:induction false} JoinedIsJoin(output: string, tokens: seq<string>)
    ensures Joined(output, tokens) == output + JoinTokens(tokens)
    decreases |tokens|
  {
    if tokens == [] {
      assert output + "" == output;
    } else {
      var n := |tokens| - 1;
      JoinedIsJoin(output, tokens[..n]);
      JoinedPush(output, tokens[..n], tokens[n]);
      assert tokens[..n] + [tokens[n]] == tokens;
      assert (output + JoinTokens(tokens[..n])) + tokens[n] == output + (JoinTokens(tokens[..n]) + tokens[n]);
    }
  }

  lemma {:induction false} JoinedPush(output: string, tokens: seq<string>, t: string)
    ensures Joined(output, tokens + [t]) == Joined(output, tokens) + t
    decreases |tokens|
  {
    if tokens == [] {
      assert [] + [t] == [t] && [t][1..] == [];
    } else {
      assert (tokens + [t])[1..] == tokens[1..] + [t] && (tokens + [t])[0] == tokens[0];
      JoinedPush(output + tokens[0], tokens[1..], t);
    }
  }

  lemma CleanPrepend(e: Event, rest: seq<Event>)
    requires Clean(e.event) && Clean(e.data) && AllClean(rest)
    ensures AllClean([e] + rest)
  {}

  lemma WireIsClean(e: StreamEvent, encode: Payload -> string, decode: string -> Payload)
    requires FaithfulCodec(encode, decode)
    ensures Clean(OnWire(e, encode).event) && Clean(OnWire(e, encode).data)
  {
    assert Clean(encode(PayloadOf(e)));
    assert Clean("token") && Clean("completed") && Clean("failed");
  }

  lemma {:induction false} MetIsClean(
    pending: seq<StreamEvent>, waits: seq<Wait>, encode: Payload -> string, decode: string -> Payload)
    requires FaithfulCodec(encode, decode)
    ensures AllClean(Emitted(Meets(pending, waits, encode)))
    decreases |waits|
  {
    if waits != [] {
      var ticks := Meets(pending, waits, encode);
      if waits[0].TimesOut? {
        assert ticks[1..] == [Stopped];
        assert Clean("heartbeat") && Clean("{}");
      } else if waits[0].Arrives? && pending != [] {
        MetIsClean(pending[1..], waits[1..], encode, decode);
        WireIsClean(pending[0], encode, decode);
        assert ticks[1..] == Meets(pending[1..], waits[1..], encode);
        CleanPrepend(ticks[0].event, Emitted(ticks[1..]));
        assert AllClean([ticks[0].event]);
      }
    }
  }

  /** A subscription that began after the terminal event shows nothing. */
  lemma ShowsNothing(waits: seq<Wait>, encode: Payload -> string, decode: string -> Payload)
    ensures Show(Emitted(Meets([], waits, encode)), decode, "") == []
  {
    if waits != [] && waits[0].TimesOut? {
      assert Meets([], waits, encode)[1..] == [Stopped];
      assert Emitted(Meets([], waits, encode)) == [HEARTBEAT];
    }
  }

  /** What the wire event of a token adds to what is shown. */
  lemma ShowsToken(token: string, rest: seq<Event>, output: string, encode: Payload -> string,
      decode: string -> Payload)
    requires FaithfulCodec(encode, decode)
    ensures Show([OnWire(Token(token), encode)] + rest, decode, output) ==
            (if token == "" then [] else [TokenChunk(token)]) + Show(rest, decode, output + token)
  {
    var payload, events := PayloadOf(Token(token)), [OnWire(Token(token), encode)] + rest;
    assert encode(payload) != "" && decode(encode(payload)) == payload;
    assert events[0] == OnWire(Token(token), encode) && events[1..] == rest;
    assert output + "" == output;
  }

  lemma ShowsFinal(last: StreamEvent, output: string, encode: Payload -> string, decode: string -> Payload)
    requires FaithfulCodec(encode, decode) && Terminal(last)
    ensures Show([OnWire(last, encode)], decode, output) == [FinalChunk(last, output)]
  {
    assert encode(PayloadOf(last)) != "" && decode(encode(PayloadOf(last))) == PayloadOf(last);
  }

  /**
   What is shown of a stream still to come: all of it, or the tokens that arrived before the first wait without one.
   */
  lemma {:induction false} ShowsPending(
    tokens: seq<string>, last: StreamEvent, waits: seq<Wait>, output: string, encode: Payload -> string,
      decode: string -> Payload)
    requires FaithfulCodec(encode, decode) && Terminal(last)
    ensures var n := Arrivals(waits);
            Show(Emitted(Meets(TokenEvents(tokens) + [last], waits, encode)), decode, output) ==
            if n > |tokens| then TokenChunks(tokens) + [FinalChunk(last, Joined(output, tokens))]
            else TokenChunks(tokens[..n])
    decreases |waits|
  {
    var pending := TokenEvents(tokens) + [last];
    var ticks := Meets(pending, waits, encode);
    if waits == [] || waits[0].Gone? {
      assert Emitted(ticks) == [];
    } else if waits[0].TimesOut? {
      assert ticks[1..] == [Stopped];
      assert Emitted(ticks) == [HEARTBEAT];
    } else if tokens == [] {
      assert Emitted(ticks) == [OnWire(last, encode)];
      ShowsFinal(last, output, encode, decode);
    } else {
      var n := Arrivals(waits[1..]);
      assert pending[0] == Token(tokens[0]) && pending[1..] == TokenEvents(tokens[1..]) + [last];
      assert ticks[1..] == Meets(pending[1..], waits[1..], encode);
      assert Emitted(ticks) == [OnWire(Token(tokens[0]), encode)] + Emitted(ticks[1..]);
      ShowsToken(tokens[0], Emitted(ticks[1..]), output, encode, decode);
      ShowsPending(tokens[1..], last, waits[1..], output + tokens[0], encode, decode);
      if n < |tokens| { assert tokens[..n + 1][1..] == tokens[1..][..n]; }
    }
  }

  /** What the browser shows of a stream when its subscription began at position from. */
  function Expected(tokens: seq<string>, last: StreamEvent, from: nat, waits: seq<Wait>): seq<Chunk> {
    if from > |tokens| then []
    else
      var rest, n := tokens[from..], Arrivals(waits);
      if n > |rest| then TokenChunks(rest) + [FinalChunk(last, JoinTokens(rest))] else TokenChunks(rest[..n])
  }

  /** From the channel to the screen: any start of the subscription, any waits, any chunks. */
  lemma SubscriptionShows(
    tokens: seq<string>, last: StreamEvent, from: nat, waits: seq<Wait>, chunks: seq<string>,
    encode: Payload -> string, decode: string -> Payload)
    requires FaithfulCodec(encode, decode) && Terminal(last) && from <= |tokens| + 1
    requires Concat(chunks) == PrintAll(Emitted(Meets((TokenEvents(tokens) + [last])[from..], waits, encode)))
    ensures Show(Events(Concat(chunks)), decode, "") == Expected(tokens, last, from, waits)
  {
    var pending := (TokenEvents(tokens) + [last])[from..];
    MetIsClean(pending, waits, encode, decode);
    RoundTripUnderChunking(Emitted(Meets(pending, waits, encode)), chunks);
    if from > |tokens| {
      assert pending == [];
      ShowsNothing(waits, encode, decode);
    } else {
      assert pending == TokenEvents(tokens[from..]) + [last];
      ShowsPending(tokens[from..], last, waits, "", encode, decode);
      JoinedIsJoin("", tokens[from..]);
      assert "" + JoinTokens(tokens[from..]) == JoinTokens(tokens[from..]);
    }
  }

  lemma {:induction false} JoinAppend(a: seq<string>, b: seq<string>)
    ensures JoinTokens(a + b) == JoinTokens(a) + JoinTokens(b)
  {
    if b == [] {
      assert a + b == a && JoinTokens(a) + "" == JoinTokens(a);
    } else {
      var n := |b| - 1;
      assert (a + b)[..|a + b| - 1] == a + b[..n];
      JoinAppend(a, b[..n]);
      assert JoinTokens(a) + (JoinTokens(b[..n]) + b[n]) == (JoinTokens(a) + JoinTokens(b[..n])) + b[n];
    }
  }

  lemma {:induction false} TokenChunksAreTokens(tokens: seq<string>)
    ensures forall c :: c in TokenChunks(tokens) ==> c.TokenChunk?
  {
    if tokens != [] {
      TokenChunksAreTokens(tokens[1..]);
    }
  }

  /** The last chunk shown ends the generation for the user. */
  predicate Ended(shown: seq<Chunk>) { shown != [] && !shown[|shown| - 1].TokenChunk? }

  /** The terminal event is still to come when the subscription begins, and so many waits bring a message. */
  predicate Reached(tokens: seq<string>, from: nat, waits: seq<Wait>) {
    from <= |tokens| && |tokens| - from < Arrivals(waits)
  }

  lemma ExpectedEndsExactly(tokens: seq<string>, last: StreamEvent, from: nat, waits: seq<Wait>)
    requires Terminal(last)
    ensures Ended(Expected(tokens, last, from, waits)) <==> Reached(tokens, from, waits)
    ensures Reached(tokens, from, waits) ==>
              Expected(tokens, last, from, waits) == TokenChunks(tokens[from..])
                + [FinalChunk(last, JoinTokens(tokens[from..]))]
  {
    var shown := Expected(tokens, last, from, waits);
    if !Reached(tokens, from, waits) && shown != [] {
      TokenChunksAreTokens(tokens[from..][..Arrivals(waits)]);
      assert shown[|shown| - 1] in shown;
    }
  }

  lemma SuffixIsWholeExactly(tokens: seq<string>, from: nat)
    requires from <= |tokens|
    ensures JoinTokens(tokens[from..]) == JoinTokens(tokens) <==> JoinTokens(tokens[..from]) == ""
  {
    assert tokens == tokens[..from] + tokens[from..];
    JoinAppend(tokens[..from], tokens[from..]);
    assert "" + JoinTokens(tokens[from..]) == JoinTokens(tokens[from..]);
  }

  predicate Completes(shown: seq<Chunk>) { shown != [] && shown[|shown| - 1].CompleteChunk? }

  predicate CompletesWith(shown: seq<Chunk>, response: Option<string>) {
    shown != [] && shown[|shown| - 1].CompleteChunk? && Some(shown[|shown| - 1].value) == response
  }

  /** What a job, and a subscription to its stream, must have shown. */
  predicate ShowsExactly(shown: seq<Chunk>, tokens: seq<string>, last: StreamEvent, from: nat, waits: seq<Wait>,
      job: Job)
  {
    && shown == Expected(tokens, last, from, waits)
    && (Ended(shown) <==> Reached(tokens, from, waits))
    && (Completes(shown) <==> Reached(tokens, from, waits) && job.status == JobCompleted)
    && (CompletesWith(shown, job.response) <==>
        Reached(tokens, from, waits) && job.status == JobCompleted && JoinTokens(tokens[..from]) == "")
  }

  lemma ExpectedShowsExactly(
    tokens: seq<string>, last: StreamEvent, from: nat, waits: seq<Wait>, model: Model, end: End)
    requires Terminal(last) && Agrees(last, tokens, model, end)
    ensures ShowsExactly(Expected(tokens, last, from, waits), tokens, last, from, waits, end.job)
  {
    var shown := Expected(tokens, last, from, waits);
    ExpectedEndsExactly(tokens, last, from, waits);
    if Reached(tokens, from, waits) {
      assert shown[|shown| - 1] == FinalChunk(last, JoinTokens(tokens[from..]));
      SuffixIsWholeExactly(tokens, from);
    }
  }

  /** The tokens of the last model tried, and the event that ends the stream. */
  function LastTokens(world: nat -> Attempt, end: End): seq<string> {
    if end.tried == 0 then [] else Shown(world(end.tried - 1))
  }

  function LastEvent(end: End): StreamEvent
    requires end.stream != []
  {
    end.stream[|end.stream| - 1]
  }

  /**
   From the job to the browser, for every provider, cancellation, start of the subscription, pattern of waits and
   chunking.  A final chunk appears if and only if the subscription began before the terminal event and no wait
   until then timed out or was given up; a completion is shown if and only if moreover the job completed, and its
   text is the stored response if and only if moreover the tokens published too early had no text.  Otherwise the
   tokens that arrived are all that is shown.
   */
  lemma BrowserShowsTheRecordExactly(
    candidates: seq<Model>, world: nat -> Attempt, job: Job, history: seq<HistoryRow>,
    from: nat, waits: seq<Wait>, chunks: seq<string>, encode: Payload -> string, decode: string -> Payload)
    requires candidates != [] && FaithfulCodec(encode, decode)
    requires var stream := RunFrom(candidates, world, 0, job, history).stream;
             && from <= |stream|
             && Concat(chunks) == PrintAll(Emitted(Meets(stream[from..], waits, encode)))
    ensures var end := RunFrom(candidates, world, 0, job, history);
            ShowsExactly(Show(Events(Concat(chunks)), decode, ""), LastTokens(world, end), LastEvent(end), from, waits,
              end.job)
  {
    hide *;
    var end := RunFrom(candidates, world, 0, job, history);
    RecordFacts(candidates, world, job, history);
    StreamLength(LastTokens(world, end), LastEvent(end));
    SubscriptionShows(LastTokens(world, end), LastEvent(end), from, waits, chunks, encode, decode);
    ExpectedShowsExactly(LastTokens(world, end), LastEvent(end), from, waits, candidates[end.tried - 1], end);
  }

  lemma RecordFacts(candidates: seq<Model>, world: nat -> Attempt, job: Job, history: seq<HistoryRow>)
    requires candidates != []
    ensures var end := RunFrom(candidates, world, 0, job, history);
            var tokens, last := LastTokens(world, end), LastEvent(end);
            && 0 < end.tried <= |candidates| && Terminal(last)
            && end.stream == TokenEvents(tokens) + [last] && Agrees(last, tokens, candidates[end.tried - 1], end)
  {
    hide RunFrom, Agrees;
    StreamMatchesRecord(candidates, world, 0, job, history);
  }

  lemma StreamLength(tokens: seq<string>, last: StreamEvent)
    ensures |TokenEvents(tokens) + [last]| == |tokens| + 1
  {}

  /** One model, one token, stored. */
  function Plain(token: string): nat -> Attempt { _ => Attempt([token], None, None, Stored) }

  lemma PlainRun(model: Model, job: Job, token: string)
    ensures var end := RunFrom([model], Plain(token), 0, job, []);
            end.job.response == Some(token)
              && end.stream == [Token(token), Completed] == TokenEvents([token]) + [Completed]
  {
    assert [token][..0] == [] && "" + token == token;
    assert JoinTokens([token]) == token;
    assert VerdictOf(Plain(token)(0)) == Finished;
  }

  /** The text of a subscription to that stream, in one chunk. */
  function TextFrom(token: string, from: nat, waits: seq<Wait>, encode: Payload -> string): string
    requires from <= 2
  {
    PrintAll(Emitted(Meets((TokenEvents([token]) + [Completed])[from..], waits, encode)))
  }

  lemma OneChunkShows(token: string, from: nat, waits: seq<Wait>, encode: Payload -> string, decode: string -> Payload)
    requires FaithfulCodec(encode, decode) && from <= 2
    ensures Show(Events(TextFrom(token, from, waits, encode)), decode, "") == Expected([token], Completed, from, waits)
  {
    var text := TextFrom(token, from, waits, encode);
    assert [text][..0] == [] && "" + text == text;
    assert Concat([text]) == text;
    SubscriptionShows([token], Completed, from, waits, [text], encode, decode);
  }

  /**
   Such a job: a browser whose subscription begins one message late sees a completion without text, and one whose
   second wait times out sees no completion at all.
   */
  lemma LateOrSlowLosesText(model: Model, job: Job, token: string, encode: Payload -> string, decode: string -> Payload)
    requires FaithfulCodec(encode, decode) && token != ""
    ensures var end := RunFrom([model], Plain(token), 0, job, []);
            && end.job.response == Some(token) && end.stream == TokenEvents([token]) + [Completed]
            && Show(Events(TextFrom(token, 1, [Arrives], encode)), decode, "") == [CompleteChunk("")]
            && Show(Events(TextFrom(token, 0, [Arrives, TimesOut], encode)), decode, "") == [TokenChunk(token)]
  {
    PlainRun(model, job, token);
    OneChunkShows(token, 1, [Arrives], encode, decode);
    OneChunkShows(token, 0, [Arrives, TimesOut], encode, decode);
    assert [Arrives, TimesOut][1..] == [TimesOut] && Arrivals([Arrives]) == Arrivals([Arrives, TimesOut]) == 1;
    assert [token][1..] == [] && [token][0..] == [token] && [token][..1] == [token];
  }
}
