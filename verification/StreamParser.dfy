/**
  The incremental parser of an agent's output stream (internal/console/chat_cloud_agent.go).
  It cuts chunks of bytes into lines and folds every line into a parser state. Decoding one
  trimmed line (JSON, event kinds, callbacks) is an arbitrary deterministic step that may fail;
  the callback log is part of the state it works on.
*/
module StreamParser {
  import opened Text

  /** What decoding one line leaves: a new state, and an error when a callback failed. */
  datatype Outcome<S> = Continue(state: S) | Failed(state: S, error: string)

  type Decoder<!S> = (S, string) -> Outcome<S>

  function ConsumeLine<S>(decode: Decoder<S>, state: S, raw: string): Outcome<S>
  {
    var line := TrimSpace(raw);
    if line == "" then Continue(state) else decode(state, line)
  }

  /** Lines one after the other, stopping at the first failure. */
  function ConsumeLines<S>(decode: Decoder<S>, state: S, lines: seq<string>): Outcome<S>
  {
    if lines == [] then Continue(state)
    else
      var r := ConsumeLine(decode, state, lines[0]);
      if r.Failed? then r else ConsumeLines(decode, r.state, lines[1..])
  }

  datatype Parser<S> = Parser(pending: string, state: S)
  datatype Fed<S> = Fed(parser: Parser<S>, failed: bool, error: string)

  /** `consumeChunk`. After a failure nothing is left pending. */
  function FeedChunk<S>(decode: Decoder<S>, parser: Parser<S>, chunk: string): Fed<S>
  {
    if chunk == "" then Fed(parser, false, "")
    else
      var lines := SplitLines(parser.pending + chunk);
      match ConsumeLines(decode, parser.state, Init(lines))
      case Continue(state) => Fed(Parser(Last(lines), state), false, "")
      case Failed(state, error) => Fed(Parser("", state), true, error)
  }

  /** `finish`: the unterminated last line, unless it is blank. */
  function FinishParser<S>(decode: Decoder<S>, parser: Parser<S>): Fed<S>
  {
    if TrimSpace(parser.pending) == "" then Fed(parser, false, "")
    else
      match ConsumeLine(decode, parser.state, parser.pending)
      case Continue(state) => Fed(Parser("", state), false, "")
      case Failed(state, error) => Fed(Parser("", state), true, error)
  }

  /** Chunks until the first failure, as a stream whose callback error ends it. */
  function FeedChunks<S>(decode: Decoder<S>, parser: Parser<S>, chunks: seq<string>): Fed<S>
    decreases |chunks|
  {
    if chunks == [] then Fed(parser, false, "")
    else
      var fed := FeedChunk(decode, parser, chunks[0]);
      if fed.failed then fed else FeedChunks(decode, fed.parser, chunks[1..])
  }

  /** A whole stream: its chunks, then `finish`; the first error is the one reported. */
  function ParseStream<S>(decode: Decoder<S>, state: S, chunks: seq<string>): Outcome<S>
  {
    var fed := FeedChunks(decode, Parser("", state), chunks);
    var end := FinishParser(decode, fed.parser);
    if fed.failed then Failed(end.parser.state, fed.error)
    else if end.failed then Failed(end.parser.state, end.error)
    else Continue(end.parser.state)
  }

  /** `consumeJSONResult`: the same output handed over in one piece. */
  function ParseWhole<S>(decode: Decoder<S>, state: S, raw: string): Outcome<S>
  {
    var text := TrimSpace(raw);
    if text == "" then Continue(state) else ConsumeLines(decode, state, SplitLines(text))
  }

  // ----- chunking independence

  lemma {:induction false} ConsumeLinesAppend<S>(decode: Decoder<S>, state: S, a: seq<string>, b: seq<string>)
    ensures var first := ConsumeLines(decode, state, a);
            ConsumeLines(decode, state, a + b) == if first.Failed? then first else ConsumeLines(decode, first.state, b)
  {
    if a == [] {
      assert a + b == b;
    } else {
      var r := ConsumeLine(decode, state, a[0]);
      assert (a + b)[0] == a[0] && (a + b)[1..] == a[1..] + b;
      if r.Continue? { ConsumeLinesAppend(decode, r.state, a[1..], b); }
    }
  }

  /** Feeding chunks to a parser consumes, line by line, the complete lines of its pending text
      followed by all the chunks; without a failure `pending` is exactly the text after the last
      newline. How the text was cut does not matter. */
  lemma {:induction false} FeedChunksIsLineByLine<S>(decode: Decoder<S>, parser: Parser<S>, chunks: seq<string>)
    requires '\n' !in parser.pending
    ensures var lines := SplitLines(parser.pending + Concat(chunks));
            FeedChunks(decode, parser, chunks) ==
            match ConsumeLines(decode, parser.state, Init(lines))
            case Continue(state) => Fed(Parser(Last(lines), state), false, "")
            case Failed(state, error) => Fed(Parser("", state), true, error)
    decreases |chunks|
  {
    if chunks == [] {
      assert parser.pending + Concat(chunks) == parser.pending;
      SplitOneLine(parser.pending);
      assert Init(SplitLines(parser.pending)) == [];
    } else if chunks[0] == "" {
      assert parser.pending + Concat(chunks) == parser.pending + Concat(chunks[1..]) by {
        assert "" + Concat(chunks[1..]) == Concat(chunks[1..]);
      }
      FeedChunksIsLineByLine(decode, parser, chunks[1..]);
    } else {
      var text, rest := parser.pending + chunks[0], Concat(chunks[1..]);
      var lines := SplitLines(text);
      assert parser.pending + Concat(chunks) == text + rest;
      SplitLinesAppend(text, rest);
      var tail := SplitLines(Last(lines) + rest);
      assert Init(SplitLines(text + rest)) == Init(lines) + Init(tail);
      assert Last(SplitLines(text + rest)) == Last(tail);
      ConsumeLinesAppend(decode, parser.state, Init(lines), Init(tail));
      var fed := FeedChunk(decode, parser, chunks[0]);
      if !fed.failed {
        SplitLinesHaveNoNewline(text, |lines| - 1);
        FeedChunksIsLineByLine(decode, fed.parser, chunks[1..]);
      }
    }
  }

  /** Chunking independence: the final state (callback log included) and the error depend only on
      the concatenation of the chunks, and are those of consuming the whole text line by line. */
  lemma ChunkingIndependence<S>(decode: Decoder<S>, state: S, chunks: seq<string>)
    ensures ParseStream(decode, state, chunks) == ConsumeLines(decode, state, SplitLines(Concat(chunks)))
  {
    var lines := SplitLines(Concat(chunks));
    assert "" + Concat(chunks) == Concat(chunks);
    FeedChunksIsLineByLine(decode, Parser("", state), chunks);
    assert lines == Init(lines) + [Last(lines)];
    ConsumeLinesAppend(decode, state, Init(lines), [Last(lines)]);
    assert TrimSpace("") == "";
    var fed := FeedChunks(decode, Parser("", state), chunks);
    if !fed.failed {
      assert ConsumeLines(decode, fed.parser.state, [Last(lines)]) ==
             ConsumeLine(decode, fed.parser.state, Last(lines));
    }
  }

  /** Two ways of cutting the same text are indistinguishable. */
  lemma SameTextSameResult<S>(decode: Decoder<S>, state: S, chunks: seq<string>, others: seq<string>)
    requires Concat(chunks) == Concat(others)
    ensures ParseStream(decode, state, chunks) == ParseStream(decode, state, others)
  {
    ChunkingIndependence(decode, state, chunks);
    ChunkingIndependence(decode, state, others);
  }

  // ----- the one-piece entry point agrees with the stream

  lemma BlankTextIsIgnored<S>(decode: Decoder<S>, state: S, text: string)
    requires AllSpace(text)
    ensures ConsumeLines(decode, state, SplitLines(text)) == Continue(state)
  {
    BlankLines(text);
    BlankLinesAreIgnored(decode, state, SplitLines(text));
  }

  lemma {:induction false} BlankLines(text: string)
    requires AllSpace(text)
    ensures forall i :: 0 <= i < |SplitLines(text)| ==> AllSpace(SplitLines(text)[i])
  {
    if text != "" {
      assert forall i :: 0 <= i < |text[1..]| ==> text[1..][i] == text[i + 1];
      BlankLines(text[1..]);
    }
  }

  lemma {:induction false} BlankLinesAreIgnored<S>(decode: Decoder<S>, state: S, lines: seq<string>)
    requires forall i :: 0 <= i < |lines| ==> AllSpace(lines[i])
    ensures ConsumeLines(decode, state, lines) == Continue(state)
  {
    if lines != [] {
      var l, r := TrimSpaceSplits(lines[0]);
      BlankLinesAreIgnored(decode, state, lines[1..]);
    }
  }

  /** White space before or after a text changes neither its lines, once trimmed, nor the result. */
  lemma LeadingSpaceIsIgnored<S>(decode: Decoder<S>, state: S, space: string, text: string)
    requires AllSpace(space)
    ensures ConsumeLines(decode, state, SplitLines(space + text)) == ConsumeLines(decode, state, SplitLines(text))
  {
    BlankLines(space);
    SplitLinesAppend(space, text);
    var lines := SplitLines(space);
    var indent := Last(lines);
    ConsumeLinesAppend(decode, state, Init(lines), SplitLines(indent + text));
    BlankLinesAreIgnored(decode, state, Init(lines));
    SplitLinesHaveNoNewline(space, |lines| - 1);
    SplitOneLine(indent);
    IndentFirstLine(indent, text);
    var l := SplitLines(text);
    TrimIgnoresEnds(indent, l[0], "");
    assert indent + l[0] + "" == indent + l[0];
    assert SplitLines(indent + text)[0] == indent + l[0];
    assert SplitLines(indent + text)[1..] == l[1..];
  }

  lemma {:induction false} IndentFirstLine(indent: string, text: string)
    requires '\n' !in indent
    ensures SplitLines(indent + text) == [indent + SplitLines(text)[0]] + SplitLines(text)[1..]
  {
    if indent == "" {
      assert indent + text == text && indent + SplitLines(text)[0] == SplitLines(text)[0];
    } else {
      assert indent[0] in indent && forall c :: c in indent[1..] ==> c in indent;
      IndentFirstLine(indent[1..], text);
      assert (indent + text)[1..] == indent[1..] + text;
      assert [indent[0]] + (indent[1..] + SplitLines(text)[0]) == indent + SplitLines(text)[0];
    }
  }

  lemma TrimIgnoresEnds(before: string, line: string, after: string)
    requires AllSpace(before) && AllSpace(after)
    ensures TrimSpace(before + line + after) == TrimSpace(line)
  {
    var l, r := TrimSpaceSplits(line);
    assert before + line + after == (before + l) + TrimSpace(line) + (r + after);
    TrimSpaceUnique(before + line + after, before + l, TrimSpace(line), r + after);
  }

  lemma PaddedLastLine<S>(decode: Decoder<S>, state: S, line: string, blank: seq<string>)
    requires |blank| >= 1 && forall i :: 0 <= i < |blank| ==> AllSpace(blank[i])
    ensures ConsumeLines(decode, state, [line + blank[0]] + blank[1..]) == ConsumeLines(decode, state, [line])
  {
    TrimIgnoresEnds("", line, blank[0]);
    assert "" + line + blank[0] == line + blank[0];
    var r := ConsumeLine(decode, state, line);
    var padded := [line + blank[0]] + blank[1..];
    assert padded[0] == line + blank[0] && padded[1..] == blank[1..];
    BlankLinesAreIgnored(decode, r.state, blank[1..]);
    assert [line][1..] == [];
  }

  lemma TrailingSpaceIsIgnored<S>(decode: Decoder<S>, state: S, text: string, space: string)
    requires AllSpace(space)
    ensures ConsumeLines(decode, state, SplitLines(text + space)) == ConsumeLines(decode, state, SplitLines(text))
  {
    SplitLinesAppend(text, space);
    BlankLines(space);
    var lines := SplitLines(text);
    SplitLinesHaveNoNewline(text, |lines| - 1);
    IndentFirstLine(Last(lines), space);
    assert lines == Init(lines) + [Last(lines)];
    ConsumeLinesAppend(decode, state, Init(lines), [Last(lines)]);
    ConsumeLinesAppend(decode, state, Init(lines), SplitLines(Last(lines) + space));
    PaddedLastLine(decode, ConsumeLines(decode, state, Init(lines)).state, Last(lines), SplitLines(space));
  }

  /** Handing the whole output over at once (`consumeJSONResult`, which trims it first) gives what
      streaming it in any chunks and finishing gives. */
  lemma WholeAgreesWithStream<S>(decode: Decoder<S>, state: S, chunks: seq<string>)
    ensures ParseWhole(decode, state, Concat(chunks)) == ParseStream(decode, state, chunks)
  {
    ChunkingIndependence(decode, state, chunks);
    var raw := Concat(chunks);
    var left, right := TrimSpaceSplits(raw);
    var text := TrimSpace(raw);
    if text == "" {
      BlankTextIsIgnored(decode, state, raw);
    } else {
      assert raw == left + (text + right);
      LeadingSpaceIsIgnored(decode, state, left, text + right);
      TrailingSpaceIsIgnored(decode, state, text, right);
    }
  }

  // ----- the parser object

  /** `consoleCloudAgentStreamParser`: `pending` and the decoded state are updated in place. */
  class StreamingParser<!S> {
    const decode: Decoder<S>
    var pending: string
    var state: S

    ghost function View(): Parser<S>
      reads this
    {
      Parser(pending, state)
    }

    constructor (decode: Decoder<S>, state: S)
      ensures View() == Parser("", state) && this.decode == decode
    {
      this.decode := decode;
      this.pending := "";
      this.state := state;
    }

    method ConsumeChunk(chunk: string) returns (failed: bool, error: string)
      modifies this
      ensures Fed(View(), failed, error) == FeedChunk(decode, old(View()), chunk)
    {
      if chunk == "" {
        return false, "";
      }
      var lines := SplitLines(pending + chunk);
      pending := "";
      ghost var complete := ConsumeLines(decode, state, Init(lines));
      var i := 0;
      while i < |lines| - 1
        invariant 0 <= i <= |lines| - 1
        invariant pending == ""
        invariant ConsumeLines(decode, state, Init(lines)[i..]) == complete
      {
        assert Init(lines)[i..][0] == lines[i] && Init(lines)[i..][1..] == Init(lines)[i + 1..];
        var r := ConsumeLine(decode, state, lines[i]);
        state := r.state;
        if r.Failed? {
          return true, r.error;
        }
        i := i + 1;
      }
      pending := lines[|lines| - 1];
      return false, "";
    }

    method Finish() returns (failed: bool, error: string)
      modifies this
      ensures Fed(View(), failed, error) == FinishParser(decode, old(View()))
    {
      if TrimSpace(pending) == "" {
        return false, "";
      }
      var line := pending;
      pending := "";
      var r := ConsumeLine(decode, state, line);
      state := r.state;
      if r.Failed? {
        return true, r.error;
      }
      return false, "";
    }

    /** A stream as its caller drives it: chunks until an error, then `finish`. */
    method Run(chunks: seq<string>) returns (failed: bool, error: string)
      requires pending == ""
      modifies this
      ensures ConsumeLines(decode, old(state), SplitLines(Concat(chunks))) ==
              if failed then Failed(state, error) else Continue(state)
    {
      ghost var before := View();
      ghost var all := FeedChunks(decode, before, chunks);
      var i := 0;
      failed, error := false, "";
      while i < |chunks| && !failed
        invariant 0 <= i <= |chunks|
        invariant !failed ==> error == "" && FeedChunks(decode, View(), chunks[i..]) == all
        invariant failed ==> Fed(View(), failed, error) == all
      {
        assert chunks[i..][1..] == chunks[i + 1..];
        failed, error := ConsumeChunk(chunks[i]);
        i := i + 1;
      }
      assert Fed(View(), failed, error) == all;
      ChunkingIndependence(decode, before.state, chunks);
      var failedAtEnd, lastError := Finish();
      if !failed {
        failed, error := failedAtEnd, lastError;
      }
    }
  }
}
