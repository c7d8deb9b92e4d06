/** What a server prints is what the readers report, for any cut into chunks. */
module SseRoundTrip {
  import opened Prelude
  import opened SseText
  import opened SseReader
  import opened SseDialects

  const NL: string := "\n"
  const BLANK: string := "\n\n"

  /** An event to be sent: its type and the lines of its data. */
  datatype Message = Message(eventType: string, lines: seq<string>)

  predicate IsPlain(s: string) {
    IsTrimmed(s) && '\n' !in s
  }

  /** Type and lines are trimmed, and the first line is not empty. */
  predicate IsSendable(m: Message) {
    IsTrimmed(m.eventType) && AreSendable(m.lines)
  }

  predicate AreSendable(lines: seq<string>) {
    lines != [] && lines[0] != "" && forall line | line in lines :: IsTrimmed(line)
  }

  function DataLines(lines: seq<string>): (r: seq<string>)
    ensures |r| == |lines|
  {
    if lines == [] then [] else DataLines(Init(lines)) + ["data: " + Last(lines)]
  }

  function PrintedLines(m: Message): seq<string> {
    ["event: " + m.eventType] + DataLines(m.lines)
  }

  predicate IsComment(line: string) {
    ":" <= line
  }

  function WithoutComments(lines: seq<string>): seq<string> {
    if lines == [] then []
    else if IsComment(Last(lines)) then WithoutComments(Init(lines))
    else WithoutComments(Init(lines)) + [Last(lines)]
  }

  predicate IsLine(s: string) {
    s != "" && '\n' !in s
  }

  /** frame prints m, with comment lines put in anywhere. */
  ghost predicate Prints(frame: seq<string>, m: Message) {
    && (forall line | line in frame :: IsLine(line))
    && WithoutComments(frame) == PrintedLines(m)
  }

  /** The text of a sequence of frames: lines end with a line feed, frames with a blank line. */
  function TextOfFrames(frames: seq<seq<string>>): string {
    if frames == [] then "" else Join(frames[0], NL) + BLANK + TextOfFrames(frames[1..])
  }

  /** The events that messages stand for: their data lines joined by line feeds. */
  function Meant(messages: seq<Message>): seq<Event> {
    if messages == [] then []
    else [Event(messages[0].eventType, Join(messages[0].lines, NL))] + Meant(messages[1..])
  }

  // --------------------------------------------------------------------- cutting frames apart

  /** A block is non-empty, does not end in a line feed and contains no blank line. */
  ghost predicate IsBlock(s: string) {
    && s != "" && s[0] != '\n' && s[|s| - 1] != '\n'
    && forall i: nat | i + 1 < |s| :: s[i] != '\n' || s[i + 1] != '\n'
  }

  lemma {:induction false} JoinedLinesAreABlock(lines: seq<string>)
    requires lines != [] && forall line | line in lines :: IsLine(line)
    ensures IsBlock(Join(lines, NL))
    decreases |lines|
  {
    var first := lines[0];
    assert first in lines && IsLine(first);
    if |lines| > 1 {
      JoinedLinesAreABlock(lines[1..]);
      var s, tail := Join(lines, NL), Join(lines[1..], NL);
      assert s == first + NL + tail;
      forall i: nat | i + 1 < |s|
        ensures s[i] != '\n' || s[i + 1] != '\n'
      {
        if i < |first| {
          assert s[i] == first[i];
        } else if i == |first| {
          assert s[i + 1] == tail[0];
        } else {
          assert s[i] == tail[i - |first| - 1] && s[i + 1] == tail[i - |first|];
        }
      }
    }
  }

  lemma BlankLineEndsBlock(block: string, rest: string)
    requires IsBlock(block)
    ensures Find(block + BLANK + rest, BLANK) == Some(|block|)
  {
    var s := block + BLANK + rest;
    assert OccursAt(s, BLANK, |block|);
    forall j: nat | j < |block|
      ensures !OccursAt(s, BLANK, j)
    {
      assert s[j..j + 2][0] == block[j];
      assert s[j..j + 2][1] == if j + 1 < |block| then block[j + 1] else '\n';
    }
    FindIsFirst(s, BLANK, Some(|block|));
  }

  lemma SplitOffBlock(block: string, rest: string)
    requires IsBlock(block)
    ensures Split(block + BLANK + rest, BLANK) == [block] + Split(rest, BLANK)
  {
    BlankLineEndsBlock(block, rest);
    var s := block + BLANK + rest;
    assert s[..|block|] == block && s[|block| + |BLANK|..] == rest;
    CutOff(s, BLANK, |block|, block, rest);
  }

  lemma NoLineFeedNoSplit(s: string)
    requires '\n' !in s
    ensures Find(s, NL) == None
  {
    forall j: nat | j < |s|
      ensures !OccursAt(s, NL, j)
    {
      assert s[j..j + 1][0] == s[j];
    }
    FindIsFirst(s, NL, None);
  }

  lemma FirstLineEnds(first: string, rest: string)
    requires '\n' !in first
    ensures Find(first + NL + rest, NL) == Some(|first|)
  {
    var s := first + NL + rest;
    assert OccursAt(s, NL, |first|);
    forall j: nat | j < |first|
      ensures !OccursAt(s, NL, j)
    {
      assert s[j..j + 1][0] == first[j];
    }
    FindIsFirst(s, NL, Some(|first|));
  }

  /** Splitting undoes joining when no part contains the separator. */
  lemma {:induction false} SplitJoin(lines: seq<string>)
    requires lines != [] && forall line | line in lines :: '\n' !in line
    ensures Split(Join(lines, NL), NL) == lines
    decreases |lines|
  {
    assert lines[0] in lines;
    if |lines| == 1 {
      NoLineFeedNoSplit(lines[0]);
    } else {
      var tail := Join(lines[1..], NL);
      var s := lines[0] + NL + tail;
      FirstLineEnds(lines[0], tail);
      assert s[..|lines[0]|] == lines[0] && s[|lines[0]| + |NL|..] == tail;
      CutOff(s, NL, |lines[0]|, lines[0], tail);
      SplitJoin(lines[1..]);
      assert lines == [lines[0]] + lines[1..];
    }
  }

  // ------------------------------------------------------------------------- reading one frame

  lemma CommentsSayNothing(dialect: Dialect, line: string)
    requires IsComment(line)
    ensures FieldIn(dialect, line) == Ignored
  {
    DialectsAgreeOnLine(line);
    assert line[0] == ':';
  }

  /** Comment lines have no effect, wherever they stand. */
  lemma {:induction false} ReadSkipsComments(dialect: Dialect, lines: seq<string>)
    ensures ReadLines(dialect, lines) == ReadLines(dialect, WithoutComments(lines))
  {
    if lines != [] {
      ReadSkipsComments(dialect, Init(lines));
      if IsComment(Last(lines)) {
        CommentsSayNothing(dialect, Last(lines));
      } else {
        ReadOneMoreLine(dialect, WithoutComments(Init(lines)), Last(lines));
      }
    }
  }

  /** A line that starts with a field name carries the trimmed rest, with or without a space. */
  lemma ReadField(dialect: Dialect, value: string)
    ensures FieldIn(dialect, "event:" + value) == EventField(Trim(value))
    ensures FieldIn(dialect, "data:" + value) == DataField(Trim(value))
  {
    var event, data := "event:" + value, "data:" + value;
    assert event[6..] == value && data[5..] == value;
    assert !("event:" <= data) by { assert data[0] == 'd'; }
    DialectsAgreeOnLine(event);
    DialectsAgreeOnLine(data);
  }

  /** Any other line says nothing; for streamGet that holds of the line without its indentation. */
  lemma OtherLinesSayNothing(dialect: Dialect, line: string)
    requires
      var text := if dialect == Stream then line else Trim(line);
      !("event:" <= text) && !("data:" <= text)
    ensures FieldIn(dialect, line) == Ignored
  {
  }

  lemma ReadEventLine(dialect: Dialect, eventType: string)
    ensures FieldIn(dialect, "event: " + eventType) == EventField(Trim(eventType))
  {
    assert "event: " + eventType == "event:" + (" " + eventType);
    ReadField(dialect, " " + eventType);
    TrimAfterSpace(eventType);
  }

  lemma ReadDataLine(dialect: Dialect, piece: string)
    ensures FieldIn(dialect, "data: " + piece) == DataField(Trim(piece))
  {
    assert "data: " + piece == "data:" + (" " + piece);
    ReadField(dialect, " " + piece);
    TrimAfterSpace(piece);
  }

  /** What the readers make of data lines: trimmed, joined, and without empty ones in front. */
  function Collected(lines: seq<string>): string {
    if lines == [] then ""
    else
      var data, piece := Collected(Init(lines)), Trim(Last(lines));
      if data != "" then data + "\n" + piece else piece
  }

  lemma {:induction false} JoinOneMore(lines: seq<string>, line: string)
    ensures Join(lines + [line], NL) == if lines == [] then line else Join(lines, NL) + NL + line
  {
    if lines != [] {
      JoinOneMore(lines[1..], line);
      assert (lines + [line])[1..] == lines[1..] + [line];
    }
  }

  lemma {:induction false} ReadMessage(dialect: Dialect, m: Message)
    ensures ReadLines(dialect, PrintedLines(m)) == Block(Trim(m.eventType), Collected(m.lines))
    decreases |m.lines|
  {
    var first := "event: " + m.eventType;
    if m.lines == [] {
      ReadEventLine(dialect, m.eventType);
      assert PrintedLines(m) == [] + [first];
      ReadOneMoreLine(dialect, [], first);
    } else {
      var rest, piece := Message(m.eventType, Init(m.lines)), Last(m.lines);
      ReadMessage(dialect, rest);
      ReadDataLine(dialect, piece);
      PrintOneMore(m);
      ReadOneMoreLine(dialect, PrintedLines(rest), "data: " + piece);
    }
  }

  /** Collecting never makes data longer, and gives back what was joined exactly when the lines are
      sendable; then there is something to report. */
  lemma {:induction false} CollectedIsJoined(lines: seq<string>)
    ensures |Collected(lines)| <= |Join(lines, NL)|
    ensures Collected(lines) != "" && |Collected(lines)| == |Join(lines, NL)| <==> AreSendable(lines)
    ensures AreSendable(lines) ==> Collected(lines) == Join(lines, NL)
  {
    if lines != [] {
      var init, piece := Init(lines), Last(lines);
      CollectedIsJoined(init);
      TrimShortens(piece);
      assert lines == init + [piece];
      JoinOneMore(init, piece);
      SendableOneMore(init, piece);
    }
  }

  lemma SendableOneMore(lines: seq<string>, piece: string)
    ensures AreSendable(lines + [piece])
       <==> IsTrimmed(piece) && if lines == [] then piece != "" else AreSendable(lines)
  {
    assert forall line :: line in lines + [piece] <==> line in lines || line == piece;
  }

  lemma PrintOneMore(m: Message)
    requires m.lines != []
    ensures m.lines == Init(m.lines) + [Last(m.lines)]
    ensures PrintedLines(m) == PrintedLines(Message(m.eventType, Init(m.lines))) + ["data: " + Last(m.lines)]
  {
  }

  lemma {:induction false} SomethingToTrimTo(s: string, i: nat)
    requires i < |s| && !IsSpace(s[i])
    ensures Trim(s) != ""
    decreases |s|
  {
    if IsSpace(s[0]) {
      SomethingToTrimTo(s[1..], i - 1);
    } else {
      TrimEndKeepsHead(s[..1], s[1..]);
      assert s == s[..1] + s[1..];
    }
  }

  /** A frame without comments starts with its event line. */
  lemma {:induction false} FrameHasText(frame: seq<string>, m: Message)
    requires Prints(frame, m)
    ensures frame != [] && exists i :: 0 <= i < |frame| && frame[i] == "event: " + m.eventType
  {
    assert PrintedLines(m)[0] in WithoutComments(frame);
    KeptLinesAreLines(frame, PrintedLines(m)[0]);
  }

  lemma {:induction false} KeptLinesAreLines(frame: seq<string>, line: string)
    requires line in WithoutComments(frame)
    ensures line in frame
  {
    if frame != [] && line in WithoutComments(Init(frame)) {
      KeptLinesAreLines(Init(frame), line);
    }
  }

  lemma {:induction false} JoinContains(lines: seq<string>, i: nat)
    requires i < |lines| && lines[i] != ""
    ensures exists k: nat :: k < |Join(lines, NL)| && Join(lines, NL)[k] == lines[i][0]
    decreases |lines|
  {
    var s := Join(lines, NL);
    if i == 0 {
      assert s[0] == lines[0][0];
    } else {
      JoinContains(lines[1..], i - 1);
      var tail := Join(lines[1..], NL);
      var k: nat :| k < |tail| && tail[k] == lines[1..][i - 1][0];
      assert s[|lines[0]| + 1 + k] == tail[k];
    }
  }

  lemma FrameIsRead(dialect: Dialect, frame: seq<string>, m: Message)
    requires Prints(frame, m)
    ensures ParseBlock(dialect, Join(frame, NL))
         == if Collected(m.lines) != "" then [Event(Trim(m.eventType), Collected(m.lines))] else []
  {
    FrameHasText(frame, m);
    var i :| 0 <= i < |frame| && frame[i] == "event: " + m.eventType;
    JoinContains(frame, i);
    var k: nat :| k < |Join(frame, NL)| && Join(frame, NL)[k] == frame[i][0];
    SomethingToTrimTo(Join(frame, NL), k);
    SplitJoin(frame);
    ReadSkipsComments(dialect, frame);
    ReadMessage(dialect, m);
  }

  /** A printed message comes back exactly when it is sendable. */
  lemma FrameIsReported(dialect: Dialect, frame: seq<string>, m: Message)
    requires Prints(frame, m)
    ensures ParseBlock(dialect, Join(frame, NL)) == [Event(m.eventType, Join(m.lines, NL))] <==> IsSendable(m)
    ensures |ParseBlock(dialect, Join(frame, NL))| <= 1
  {
    FrameIsRead(dialect, frame, m);
    CollectedIsJoined(m.lines);
    TrimShortens(m.eventType);
  }

  lemma {:induction false} EmptyFirstLineCollectsNothing(lines: seq<string>)
    ensures Collected([""] + lines) == Collected(lines)
  {
    if lines == [] {
      assert Init([""]) == [] && Last([""]) == "";
    } else {
      assert Init([""] + lines) == [""] + Init(lines) && Last([""] + lines) == Last(lines);
      EmptyFirstLineCollectsNothing(Init(lines));
    }
  }

  /** What does not come back: an empty line in front of the data is lost. */
  lemma EmptyFirstLineIsLost(dialect: Dialect, frame: seq<string>, m: Message)
    requires IsSendable(m) && Prints(frame, Message(m.eventType, [""] + m.lines))
    ensures ParseBlock(dialect, Join(frame, NL)) == [Event(m.eventType, Join(m.lines, NL))]
  {
    FrameIsRead(dialect, frame, Message(m.eventType, [""] + m.lines));
    EmptyFirstLineCollectsNothing(m.lines);
    CollectedIsJoined(m.lines);
    TrimShortens(m.eventType);
  }

  // ----------------------------------------------------------------------------- the round trip

  lemma ParseOneBlock(dialect: Dialect, block: string)
    ensures ParseBlocks(dialect, [block]) == ParseBlock(dialect, block)
  {
    assert Init([block]) == [] && Last([block]) == block;
  }

  lemma {:induction false} ParseBlocksFrom(dialect: Dialect, block: string, blocks: seq<string>)
    ensures ParseBlocks(dialect, [block] + blocks) == ParseBlock(dialect, block) + ParseBlocks(dialect, blocks)
  {
    ParseBlocksConcat(dialect, [block], blocks);
    ParseOneBlock(dialect, block);
  }

  /** The blocks of the printed text are the frames. */
  lemma {:induction false} BlocksAreFrames(dialect: Dialect, frames: seq<seq<string>>, messages: seq<Message>)
    requires |frames| == |messages| && frames != []
    requires forall i | 0 <= i < |frames| :: Prints(frames[i], messages[i])
    ensures EventsOf(dialect, TextOfFrames(frames))
         == ParseBlock(dialect, Join(frames[0], NL)) + EventsOf(dialect, TextOfFrames(frames[1..]))
  {
    FrameHasText(frames[0], messages[0]);
    JoinedLinesAreABlock(frames[0]);
    var block, rest := Join(frames[0], NL), TextOfFrames(frames[1..]);
    SplitOffBlock(block, rest);
    PutInFront(block, Split(rest, BLANK), []);
    assert Init(Split(block + BLANK + rest, BLANK)) == [block] + Init(Split(rest, BLANK));
    ParseBlocksFrom(dialect, block, Init(Split(rest, BLANK)));
  }

  /** Messages printed as frames, with comments anywhere, are reported exactly, each with its type and
      its joined data, in order, by both readers, if and only if every one of them is sendable. */
  lemma {:induction false} PrintedMessagesAreReported(
    dialect: Dialect, frames: seq<seq<string>>, messages: seq<Message>)
    requires |frames| == |messages|
    requires forall i | 0 <= i < |frames| :: Prints(frames[i], messages[i])
    ensures EventsOf(dialect, TextOfFrames(frames)) == Meant(messages) <==> forall m | m in messages :: IsSendable(m)
    ensures |EventsOf(dialect, TextOfFrames(frames))| <= |messages|
    ensures |Meant(messages)| == |messages|
    decreases |frames|
  {
    if frames == [] {
      NoBlankNoSplit();
    } else {
      var m := messages[0];
      PrintedMessagesAreReported(dialect, frames[1..], messages[1..]);
      BlocksAreFrames(dialect, frames, messages);
      FrameIsReported(dialect, frames[0], m);
      SamePieces([Event(m.eventType, Join(m.lines, NL))], Meant(messages[1..]),
                 ParseBlock(dialect, Join(frames[0], NL)), EventsOf(dialect, TextOfFrames(frames[1..])));
      assert forall x :: x in messages <==> x == m || x in messages[1..];
    }
  }

  lemma NoBlankNoSplit()
    ensures Init(Split("", BLANK)) == []
  {
    assert Find("", BLANK) == None;
  }

  /** Receiving: any way of cutting the printed text into chunks delivers exactly the messages, if and
      only if they are sendable. */
  method Receive(dialect: Dialect, ghost frames: seq<seq<string>>, ghost messages: seq<Message>, chunks: seq<string>)
    returns (events: seq<Event>)
    requires |frames| == |messages|
    requires forall i | 0 <= i < |frames| :: Prints(frames[i], messages[i])
    requires Concat(chunks) == TextOfFrames(frames)
    ensures events == Meant(messages) <==> forall m | m in messages :: IsSendable(m)
  {
    var buffer;
    events, buffer := ReadChunks(dialect, chunks);
    PrintedMessagesAreReported(dialect, frames, messages);
  }

  lemma ReadOneLineBlock(dialect: Dialect, line: string)
    requires IsBlock(line) && '\n' !in line && Trim(line) != ""
    ensures EventsOf(dialect, line + BLANK)
         == var b := EMPTY.With(FieldIn(dialect, line)); if b.data != "" then [Event(b.eventType, b.data)] else []
  {
    SplitOffBlock(line, "");
    assert line + BLANK + "" == line + BLANK;
    NoBlankNoSplit();
    assert Init([line] + Split("", BLANK)) == [line] + [];
    ParseBlocksFrom(dialect, line, []);
    SplitJoin([line]);
    ReadOneMoreLine(dialect, [], line);
    assert [] + [line] == [line];
  }

  lemma IndentedLine(bare: string)
    requires bare != "" && IsPlain(bare)
    ensures IsBlock(" " + bare) && '\n' !in " " + bare
    ensures Trim(" " + bare) == bare
    ensures FieldIn(Stream, " " + bare) == Ignored
    ensures !(":" <= bare) ==> FieldIn(StreamGet, " " + bare) == FieldOf(bare)
  {
    TrimOfTrimmed(bare);
    assert (" " + bare)[0] == ' ';
  }

  /** Where the two readers differ: an indented data line, whatever it carries, is an event for
      streamGet and nothing for stream. */
  lemma IndentedDataDivides(piece: string)
    requires piece != "" && IsPlain(piece)
    ensures EventsOf(Stream, " " + ("data: " + piece) + BLANK) == []
    ensures EventsOf(StreamGet, " " + ("data: " + piece) + BLANK) == [Event("message", piece)]
  {
    var bare := "data: " + piece;
    assert IsPlain(bare) && !(":" <= bare) by { assert bare[0] == 'd'; }
    IndentedLine(bare);
    TrimShortens(piece);
    ReadDataLine(Stream, piece);
    ReadOneLineBlock(Stream, " " + bare);
    ReadOneLineBlock(StreamGet, " " + bare);
  }
}
