/** ApiClient.stream and ApiClient.streamGet: reading server-sent events chunk by chunk.

    The two differ in one place, how a line is looked at, which Dialect captures.  Decoded text
    chunks are the input.  JSON.parse is left to the consumer: an event carries the data string,
    which determines the parsed value. */
module SseReader {
  import opened Prelude
  import opened SseText
  import opened Text

  datatype Dialect = Stream | StreamGet

  datatype Event = Event(eventType: string, data: string)

  /** What one line of a block says. */
  datatype Field = EventField(value: string) | DataField(value: string) | Ignored

  function FieldOf(line: string): Field {
    if "event:" <= line then EventField(Trim(line[6..]))
    else if "data:" <= line then DataField(Trim(line[5..]))
    else Ignored
  }

  function FieldIn(dialect: Dialect, rawLine: string): Field {
    match dialect
    case Stream => FieldOf(rawLine)
    case StreamGet =>
      var line := Trim(rawLine);
      if ":" <= line then Ignored else FieldOf(line)
  }

  datatype Block = Block(eventType: string, data: string) {
    function With(field: Field): Block {
      match field
      case EventField(value) => this.(eventType := value)
      case DataField(value) => this.(data := if data != "" then data + "\n" + value else value)
      case Ignored => this
    }
  }

  const EMPTY: Block := Block("message", "")

  function ReadLines(dialect: Dialect, lines: seq<string>): Block {
    if lines == [] then EMPTY
    else ReadLines(dialect, Init(lines)).With(FieldIn(dialect, Last(lines)))
  }

  /** The event of a block, if it has one. */
  function ParseBlock(dialect: Dialect, block: string): seq<Event> {
    if Trim(block) == "" then []
    else
      var b := ReadLines(dialect, Split(block, "\n"));
      if b.data != "" then [Event(b.eventType, b.data)] else []
  }

  function ParseBlocks(dialect: Dialect, blocks: seq<string>): seq<Event> {
    if blocks == [] then [] else ParseBlocks(dialect, Init(blocks)) + ParseBlock(dialect, Last(blocks))
  }

  /** The reference: the events of a whole text are those of its blocks, cut at blank lines; what
      follows the last blank line is unfinished and not reported. */
  function EventsOf(dialect: Dialect, text: string): seq<Event> {
    ParseBlocks(dialect, Init(Split(text, "\n\n")))
  }

  lemma ReadOneMoreLine(dialect: Dialect, lines: seq<string>, line: string)
    ensures ReadLines(dialect, lines + [line]) == ReadLines(dialect, lines).With(FieldIn(dialect, line))
  {
    assert Init(lines + [line]) == lines;
  }

  lemma ParseOneMoreBlock(dialect: Dialect, blocks: seq<string>, j: nat)
    requires j < |blocks|
    ensures ParseBlocks(dialect, blocks[..j + 1]) == ParseBlocks(dialect, blocks[..j]) + ParseBlock(dialect, blocks[j])
  {
    assert Init(blocks[..j + 1]) == blocks[..j];
  }

  lemma {:induction false} ParseBlocksConcat(dialect: Dialect, a: seq<string>, b: seq<string>)
    ensures ParseBlocks(dialect, a + b) == ParseBlocks(dialect, a) + ParseBlocks(dialect, b)
    decreases |b|
  {
    if b == [] {
      assert a + b == a;
    } else {
      ParseBlocksConcat(dialect, a, Init(b));
      LastOfConcat(a, b);
    }
  }

  lemma LastOfConcat(a: seq<string>, b: seq<string>)
    requires b != []
    ensures a + b != [] && Init(a + b) == a + Init(b) && Last(a + b) == Last(b)
  {
  }

  // --------------------------------------------------------------------------------- the reader

  /** How the body of a response ends, or why there is none. */
  datatype Response =
    | FetchFailed(aborted: bool)
    | BadStatus(status: nat, serverError: Option<string>)   // the code in the server's error body
    | NoBody
    | Body(chunks: seq<string>, end: BodyEnd)

  datatype BodyEnd = Done | ReadFailed(aborted: bool)

  datatype Callback = OnEvent(event: Event) | OnComplete | OnError(code: string)

  /** One line of a block, with the event type and the data collected so far. */
  method ReadLine(dialect: Dialect, rawLine: string, eventType: string, dataStr: string)
    returns (eventType': string, dataStr': string)
    ensures Block(eventType', dataStr') == Block(eventType, dataStr).With(FieldIn(dialect, rawLine))
  {
    eventType', dataStr' := eventType, dataStr;
    var line := rawLine;
    if dialect == StreamGet {
      line := Trim(rawLine);
      if ":" <= line {
        return;
      }
    }
    if "event:" <= line {
      eventType' := Trim(line[6..]);
    } else if "data:" <= line {
      var piece := Trim(line[5..]);
      dataStr' := if dataStr != "" then dataStr + "\n" + piece else piece;
    }
  }

  /** One block of the inner loop. */
  method ReadBlock(dialect: Dialect, block: string) returns (events: seq<Event>)
    ensures events == ParseBlock(dialect, block)
  {
    events := [];
    if Trim(block) == "" {
      return;
    }
    var eventType, dataStr := "message", "";
    var lines := Split(block, "\n");
    for i := 0 to |lines|
      invariant Block(eventType, dataStr) == ReadLines(dialect, lines[..i])
    {
      ReadOneMoreLine(dialect, lines[..i], lines[i]);
      assert lines[..i + 1] == lines[..i] + [lines[i]];
      eventType, dataStr := ReadLine(dialect, lines[i], eventType, dataStr);
    }
    assert lines[..|lines|] == lines;
    if dataStr != "" {
      events := [Event(eventType, dataStr)];
    }
  }

  /** One turn of the reading loop: the blocks that a chunk completes, and what is carried over. */
  method TakeChunk(dialect: Dialect, buffer: string, chunk: string) returns (events: seq<Event>, rest: string)
    ensures events == ParseBlocks(dialect, Init(Split(buffer + chunk, "\n\n")))
    ensures rest == Last(Split(buffer + chunk, "\n\n"))
  {
    var parts := Split(buffer + chunk, "\n\n");
    rest := Last(parts);
    var blocks := Init(parts);
    events := [];
    for i := 0 to |blocks|
      invariant events == ParseBlocks(dialect, blocks[..i])
    {
      var found := ReadBlock(dialect, blocks[i]);
      events := events + found;
      ParseOneMoreBlock(dialect, blocks, i);
    }
    assert blocks[..|blocks|] == blocks;
  }

  /** The reading loop.  Whatever the cuts between chunks, the events reported are those of the whole
      text received, and what is carried over is its unfinished tail, which has no blank line. */
  method ReadChunks(dialect: Dialect, chunks: seq<string>) returns (events: seq<Event>, buffer: string)
    ensures events == EventsOf(dialect, Concat(chunks))
    ensures buffer == Last(Split(Concat(chunks), "\n\n"))
    ensures Find(buffer, "\n\n") == None
  {
    events, buffer := [], "";
    for i := 0 to |chunks|
      invariant events == EventsOf(dialect, Concat(chunks[..i]))
      invariant buffer == Last(Split(Concat(chunks[..i]), "\n\n"))
    {
      ReceiveChunk(chunks, i);
      ChunkCompletesBlocks(dialect, Concat(chunks[..i]), chunks[i]);
      var found;
      found, buffer := TakeChunk(dialect, buffer, chunks[i]);
      events := events + found;
    }
    assert chunks[..|chunks|] == chunks;
    LastPartHasNoSeparator(Concat(chunks), "\n\n");
  }

  lemma ReceiveChunk(chunks: seq<string>, i: nat)
    requires i < |chunks|
    ensures Concat(chunks[..i + 1]) == Concat(chunks[..i]) + chunks[i]
  {
    assert chunks[..i + 1][..i] == chunks[..i];
  }

  lemma ChunkCompletesBlocks(dialect: Dialect, received: string, chunk: string)
    ensures
      var parts := Split(Last(Split(received, "\n\n")) + chunk, "\n\n");
      && EventsOf(dialect, received + chunk) == EventsOf(dialect, received) + ParseBlocks(dialect, Init(parts))
      && Last(Split(received + chunk, "\n\n")) == Last(parts)
  {
    var before := Init(Split(received, "\n\n"));
    var parts := Split(Last(Split(received, "\n\n")) + chunk, "\n\n");
    SplitInInstalments(received, chunk, "\n\n");
    assert Init(before + parts) == before + Init(parts);
    ParseBlocksConcat(dialect, before, Init(parts));
  }

  method Fire(events: seq<Event>) returns (callbacks: seq<Callback>)
    ensures |callbacks| == |events| && forall i | 0 <= i < |events| :: callbacks[i] == OnEvent(events[i])
  {
    callbacks := [];
    for i := 0 to |events|
      invariant |callbacks| == i && forall j | 0 <= j < i :: callbacks[j] == OnEvent(events[j])
    {
      callbacks := callbacks + [OnEvent(events[i])];
    }
  }

  /** stream / streamGet: the events of the text received, in order, and then exactly one closing
      callback.  It is onComplete if and only if the caller aborted the request, in fetch or while
      reading, or the body was read to its end; otherwise it is onError with the code of the server,
      of the status, of a missing body or of a broken connection. */
  method Read(dialect: Dialect, response: Response) returns (callbacks: seq<Callback>)
    ensures callbacks != [] && !Last(callbacks).OnEvent?
    ensures forall i | 0 <= i < |callbacks| - 1 :: callbacks[i].OnEvent?
    ensures response.Body? ==>
      var events := EventsOf(dialect, Concat(response.chunks));
      |callbacks| == |events| + 1 && forall i | 0 <= i < |events| :: callbacks[i] == OnEvent(events[i])
    ensures !response.Body? ==> |callbacks| == 1
    ensures Last(callbacks) == OnComplete <==>
      || (response.FetchFailed? && response.aborted)
      || (response.Body? && (response.end.Done? || response.end.aborted))
    ensures response.BadStatus? && response.serverError.Some? ==>
      Last(callbacks) == OnError(response.serverError.value)
    ensures response.BadStatus? && response.serverError.None? ==>
      Last(callbacks) == OnError("HTTP_" + Digits(response.status))
    ensures response.NoBody? ==> Last(callbacks) == OnError("STREAM_ERROR")
    ensures response.FetchFailed? && !response.aborted ==> Last(callbacks) == OnError("NETWORK_ERROR")
    ensures response.Body? && response.end.ReadFailed? && !response.end.aborted ==>
      Last(callbacks) == OnError("NETWORK_ERROR")
  {
    match response
    case FetchFailed(aborted) =>
      callbacks := [if aborted then OnComplete else OnError("NETWORK_ERROR")];
    case BadStatus(status, serverError) =>
      var code := if serverError.Some? then serverError.value else "HTTP_" + Digits(status);
      callbacks := [OnError(code)];
    case NoBody =>
      callbacks := [OnError("STREAM_ERROR")];
    case Body(chunks, end) =>
      var events, _ := ReadChunks(dialect, chunks);
      callbacks := Fire(events);
      callbacks := callbacks + [if end.Done? || end.aborted then OnComplete else OnError("NETWORK_ERROR")];
  }
}
