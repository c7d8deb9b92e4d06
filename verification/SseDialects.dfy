/** Where ApiClient.stream and ApiClient.streamGet report the same events: exactly when, line by line,
    block by block and for a whole text. */
module SseDialects {
  import opened SseText
  import opened SseReader

  // -------------------------------------------------------------------------------------- lines

  /** A line that starts with white space and is a field once that is trimmed away. */
  predicate IsIndentedField(line: string) {
    line != "" && IsSpace(line[0]) && !FieldOf(Trim(line)).Ignored?
  }

  lemma PrefixSurvivesTrimEnd(prefix: string, line: string)
    requires prefix != "" && !IsSpace(prefix[|prefix| - 1])
    ensures prefix <= TrimEnd(line) <==> prefix <= line
    ensures prefix <= line ==> TrimEnd(line)[|prefix|..] == TrimEnd(line[|prefix|..])
  {
    if prefix <= line {
      assert line == prefix + line[|prefix|..];
      TrimEndKeepsHead(prefix, line[|prefix|..]);
    }
  }

  lemma FieldSurvivesTrimEnd(line: string)
    ensures FieldOf(TrimEnd(line)) == FieldOf(line)
  {
    PrefixSurvivesTrimEnd("event:", line);
    PrefixSurvivesTrimEnd("data:", line);
    if "event:" <= line { TrimAfterTrimEnd(line[6..]); }
    if "data:" <= line { TrimAfterTrimEnd(line[5..]); }
  }

  /** The two readers understand a line alike exactly when it is not an indented field. */
  lemma DialectsAgreeOnLine(line: string)
    ensures FieldIn(Stream, line) == FieldIn(StreamGet, line) <==> !IsIndentedField(line)
  {
    StreamGetTrims(line);
    assert "event:" <= line ==> line[0] == 'e';
    assert "data:" <= line ==> line[0] == 'd';
    if line != "" && IsSpace(line[0]) {
      assert FieldOf(line) == Ignored;
    } else {
      assert Trim(line) == TrimEnd(line);
      FieldSurvivesTrimEnd(line);
    }
  }

  /** What a line says to streamGet is what it says to stream once it is trimmed. */
  lemma StreamGetTrims(line: string)
    ensures FieldIn(StreamGet, line) == FieldOf(Trim(line))
  {
    assert ":" <= Trim(line) ==> Trim(line)[0] == ':';
  }

  // -------------------------------------------------------------------------------------- blocks

  /** Line i is indented, and trimmed it is data. */
  predicate IsIndentedData(lines: seq<string>, i: int) {
    0 <= i < |lines| && IsIndentedField(lines[i]) && FieldOf(Trim(lines[i])).DataField?
  }

  /** Trimmed, line i is data and not empty. */
  predicate HasText(lines: seq<string>, i: int) {
    0 <= i < |lines| && FieldOf(Trim(lines[i])).DataField? && FieldOf(Trim(lines[i])).value != ""
  }

  /** The indented data line i makes a difference: it is not empty, or there is text for its line
      feed to follow. */
  ghost predicate AddsText(lines: seq<string>, i: int) {
    IsIndentedData(lines, i) && exists j :: j <= i && HasText(lines, j)
  }

  /** value is the event type that the lines name for a reader: that of the last event line it sees,
      or "message" if it sees none. */
  ghost predicate NamesType(dialect: Dialect, lines: seq<string>, value: string) {
    || (value == "message" && forall i | 0 <= i < |lines| :: !FieldIn(dialect, lines[i]).EventField?)
    || (exists i :: IsLastEventLine(dialect, lines, i) && FieldIn(dialect, lines[i]) == EventField(value))
  }

  ghost predicate IsLastEventLine(dialect: Dialect, lines: seq<string>, i: int) {
    && 0 <= i < |lines| && FieldIn(dialect, lines[i]).EventField?
    && forall j | i < j < |lines| :: !FieldIn(dialect, lines[j]).EventField?
  }

  ghost predicate NameOneType(lines: seq<string>) {
    exists value :: NamesType(Stream, lines, value) && NamesType(StreamGet, lines, value)
  }

  /** The block is blank; or none of its indented data lines adds text and, if it has any text, its
      indented event lines leave the type alone. */
  ghost predicate BlockAgrees(block: string) {
    var lines := Split(block, "\n");
    || Trim(block) == ""
    || ((forall i :: !AddsText(lines, i)) && ((exists i :: HasText(lines, i)) ==> NameOneType(lines)))
  }

  lemma {:induction false} TypeIsTheOneNamed(dialect: Dialect, lines: seq<string>, value: string)
    ensures NamesType(dialect, lines, value) <==> ReadLines(dialect, lines).eventType == value
  {
    if lines != [] {
      TypeIsTheOneNamed(dialect, Init(lines), value);
      NamesTypeInLastLine(dialect, lines, value);
    }
  }

  lemma NamesTypeInLastLine(dialect: Dialect, lines: seq<string>, value: string)
    requires lines != []
    ensures
      NamesType(dialect, lines, value) <==>
        var field := FieldIn(dialect, Last(lines));
        if field.EventField? then field.value == value else NamesType(dialect, Init(lines), value)
  {
    var init, last := Init(lines), |lines| - 1;
    if FieldIn(dialect, lines[last]).EventField? {
      assert IsLastEventLine(dialect, lines, last);
    } else {
      SameLastEventLine(dialect, lines);
    }
  }

  lemma SameLastEventLine(dialect: Dialect, lines: seq<string>)
    requires lines != [] && !FieldIn(dialect, Last(lines)).EventField?
    ensures forall i :: IsLastEventLine(dialect, lines, i) <==> IsLastEventLine(dialect, Init(lines), i)
  {
  }

  /** streamGet collects data exactly when some line has text. */
  lemma {:induction false} TextIsData(lines: seq<string>)
    ensures ReadLines(StreamGet, lines).data != "" <==> exists i :: HasText(lines, i)
  {
    if lines != [] {
      var init, last := Init(lines), |lines| - 1;
      TextIsData(init);
      StreamGetTrims(lines[last]);
      if i :| HasText(init, i) {
        assert HasText(lines, i);
      } else if HasText(lines, last) {
      } else if i :| HasText(lines, i) {
        assert HasText(init, i);
      }
    }
  }

  /** stream never collects more data than streamGet, and less once an indented line has added text. */
  lemma {:induction false} StreamFallsBehind(lines: seq<string>)
    ensures
      var s, g := ReadLines(Stream, lines).data, ReadLines(StreamGet, lines).data;
      if exists i :: AddsText(lines, i) then |s| < |g| else s == g
  {
    if lines != [] {
      var init, last := Init(lines), |lines| - 1;
      StreamFallsBehind(init);
      TextIsData(init);
      AddingOneLine(lines);
      OneMoreLine(lines);
    }
  }

  /** A line that adds text makes stream fall behind, and any other line leaves it as far behind as it
      was. */
  lemma OneMoreLine(lines: seq<string>)
    requires lines != []
    requires |ReadLines(Stream, Init(lines)).data| <= |ReadLines(StreamGet, Init(lines)).data|
    requires ReadLines(StreamGet, Init(lines)).data != "" <==> exists i :: HasText(Init(lines), i)
    requires
      AddsText(lines, |lines| - 1)
      <==> IsIndentedData(lines, |lines| - 1)
           && (FieldOf(Trim(Last(lines))).value != "" || exists i :: HasText(Init(lines), i))
    ensures
      var before, after := ReadLines(Stream, Init(lines)).data, ReadLines(Stream, lines).data;
      var before', after' := ReadLines(StreamGet, Init(lines)).data, ReadLines(StreamGet, lines).data;
      if AddsText(lines, |lines| - 1) then |after| < |after'|
      else (before == before' ==> after == after') && (|before| < |before'| ==> |after| < |after'|)
  {
    var line := Last(lines);
    DialectsAgreeOnLine(line);
    StreamGetTrims(line);
    if IsIndentedField(line) {
      assert FieldIn(Stream, line) == Ignored;
    }
  }

  lemma AddingOneLine(lines: seq<string>)
    requires lines != []
    ensures
      (exists i :: AddsText(lines, i)) <==> (exists i :: AddsText(Init(lines), i)) || AddsText(lines, |lines| - 1)
    ensures
      AddsText(lines, |lines| - 1)
      <==> IsIndentedData(lines, |lines| - 1)
           && (FieldOf(Trim(Last(lines))).value != "" || exists i :: HasText(Init(lines), i))
  {
    var init, last := Init(lines), |lines| - 1;
    assert forall i | i < last :: HasText(lines, i) == HasText(init, i);
    assert forall i | i < last :: IsIndentedData(lines, i) == IsIndentedData(init, i);
    assert forall i | i < last :: AddsText(lines, i) == AddsText(init, i);
    if i :| HasText(init, i) {
      assert i < last && HasText(lines, i);
    }
    assert HasText(lines, last) <==> FieldOf(Trim(Last(lines))).DataField? && FieldOf(Trim(Last(lines))).value != "";
    if j :| j <= last && HasText(lines, j) {
      assert j == last || HasText(init, j);
    }
    if i :| AddsText(lines, i) {
      assert i == last || AddsText(init, i);
    }
    if i :| AddsText(init, i) {
      assert AddsText(lines, i);
    }
  }

  /** The two readers report the same of a block exactly when its indented fields change nothing. */
  lemma DialectsAgreeOnBlock(block: string)
    ensures ParseBlock(Stream, block) == ParseBlock(StreamGet, block) <==> BlockAgrees(block)
    ensures |ParseBlock(Stream, block)| <= |ParseBlock(StreamGet, block)|
  {
    var lines := Split(block, "\n");
    StreamFallsBehind(lines);
    TextIsData(lines);
    TypesAgree(lines);
  }

  lemma TypesAgree(lines: seq<string>)
    ensures NameOneType(lines) <==> ReadLines(Stream, lines).eventType == ReadLines(StreamGet, lines).eventType
  {
    var s := ReadLines(Stream, lines).eventType;
    TypeIsTheOneNamed(Stream, lines, s);
    TypeIsTheOneNamed(StreamGet, lines, s);
    if value :| NamesType(Stream, lines, value) && NamesType(StreamGet, lines, value) {
      TypeIsTheOneNamed(Stream, lines, value);
      TypeIsTheOneNamed(StreamGet, lines, value);
    }
  }

  // --------------------------------------------------------------------------------------- texts

  /** Events of one block cannot stand in for those of another, because stream never reports more of a
      block than streamGet. */
  lemma {:induction false} DialectsAgreeOnBlocks(blocks: seq<string>)
    ensures ParseBlocks(Stream, blocks) == ParseBlocks(StreamGet, blocks)
       <==> forall block | block in blocks :: BlockAgrees(block)
    ensures |ParseBlocks(Stream, blocks)| <= |ParseBlocks(StreamGet, blocks)|
  {
    if blocks != [] {
      var init, last := Init(blocks), Last(blocks);
      DialectsAgreeOnBlocks(init);
      DialectsAgreeOnBlock(last);
      assert forall block :: block in blocks <==> block in init || block == last;
      SamePieces(ParseBlocks(Stream, init), ParseBlock(Stream, last),
                 ParseBlocks(StreamGet, init), ParseBlock(StreamGet, last));
    }
  }

  lemma SamePieces<T>(a: seq<T>, b: seq<T>, c: seq<T>, d: seq<T>)
    requires (|a| <= |c| && |b| <= |d|) || (|a| >= |c| && |b| >= |d|)
    ensures a + b == c + d <==> a == c && b == d
  {
    if a + b == c + d {
      assert |a| == |c|;
      assert a == (a + b)[..|a|] && c == (c + d)[..|c|];
      assert b == (a + b)[|a|..] && d == (c + d)[|c|..];
    }
  }

  /** Parser agreement: both functions report the same events of a text if and only if every completed
      block is blank or its indented fields change nothing. */
  lemma DialectsAgree(text: string)
    ensures EventsOf(Stream, text) == EventsOf(StreamGet, text)
       <==> forall block | block in Init(Split(text, "\n\n")) :: BlockAgrees(block)
  {
    DialectsAgreeOnBlocks(Init(Split(text, "\n\n")));
  }

  ghost predicate HasNoIndentedField(block: string) {
    forall line | line in Split(block, "\n") :: !IsIndentedField(line)
  }

  /** In particular they agree when no line of a completed block is an indented field. */
  lemma DialectsAgreeWithoutIndentation(text: string)
    requires forall block | block in Init(Split(text, "\n\n")) :: HasNoIndentedField(block)
    ensures EventsOf(Stream, text) == EventsOf(StreamGet, text)
  {
    forall block | block in Init(Split(text, "\n\n"))
      ensures BlockAgrees(block)
    {
      PlainBlocksAgree(Split(block, "\n"));
    }
    DialectsAgree(text);
  }

  lemma PlainBlocksAgree(lines: seq<string>)
    requires forall line | line in lines :: !IsIndentedField(line)
    ensures (forall i :: !AddsText(lines, i)) && NameOneType(lines)
  {
    forall i | 0 <= i < |lines|
      ensures FieldIn(Stream, lines[i]) == FieldIn(StreamGet, lines[i])
    {
      assert lines[i] in lines;
      DialectsAgreeOnLine(lines[i]);
    }
    var value := ReadLines(Stream, lines).eventType;
    TypeIsTheOneNamed(Stream, lines, value);
    assert forall i :: IsLastEventLine(Stream, lines, i) <==> IsLastEventLine(StreamGet, lines, i);
    assert NamesType(StreamGet, lines, value);
  }
}
