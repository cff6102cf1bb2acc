/**
  One chat answer of the console (internal/console/chat_stream.go): reading a streamed turn, and asking the
  model to continue while it stops for length.
*/
module ChatStream {
  import opened Text
  import opened Usage

  /** What one line of the stream decodes to. */
  datatype Chunk = Chunk(delta: string, reasoning: string, finishReason: string, done: bool, usage: Counts)

  /** A line, and whether the client still takes what it carries. */
  datatype Line = Malformed | Good(chunk: Chunk, deltaTaken: bool, reasoningTaken: bool)

  datatype End = Eof | ReadError

  datatype Execution = Execution(output: string, reasoning: string, finishReason: string, usage: Counts)

  const EMPTY_OUTPUT := "No text returned."

  function OrPlaceholder(s: string): string
  {
    if s == "" then EMPTY_OUTPUT else s
  }

  // ----- what a stream amounts to

  predicate DeltaRefused(line: Line)
  {
    line.Good? && line.chunk.delta != "" && !line.deltaTaken
  }

  predicate Stops(line: Line)
  {
    line.Malformed? || DeltaRefused(line) || (line.chunk.reasoning != "" && !line.reasoningTaken)
  }

  /** Reading stops at line `n`, or after the last line. */
  ghost predicate StopsAt(lines: seq<Line>, n: nat)
  {
    n <= |lines| && (forall i :: 0 <= i < n ==> !Stops(lines[i])) && (n < |lines| ==> Stops(lines[n]))
  }

  /** The lines that count: those read, with the one that stopped the reading if it can be decoded. */
  function Read(lines: seq<Line>, n: nat): seq<Line>
    requires n <= |lines|
  {
    if n < |lines| && lines[n].Good? then lines[..n + 1] else lines[..n]
  }

  function DeltaOf(line: Line): string
  {
    if line.Good? then line.chunk.delta else ""
  }

  /** Reasoning is not looked at when the delta of the same line was refused. */
  function ReasoningOf(line: Line): string
  {
    if line.Good? && !DeltaRefused(line) then line.chunk.reasoning else ""
  }

  function Pieces(lines: seq<Line>, of: Line -> string): seq<string>
  {
    if lines == [] then []
    else
      var front := Pieces(lines[..|lines| - 1], of);
      if of(Last(lines)) == "" then front else front + [of(Last(lines))]
  }

  function Reports(lines: seq<Line>): (us: seq<Counts>)
    requires forall i :: 0 <= i < |lines| ==> lines[i].Good?
    ensures |us| == |lines| && forall i :: 0 <= i < |us| ==> us[i] == lines[i].chunk.usage
  {
    seq(|lines|, i requires 0 <= i < |lines| => lines[i].chunk.usage)
  }

  function LastReason(lines: seq<Line>): string
  {
    if lines == [] then ""
    else if Last(lines).Good? && Last(lines).chunk.finishReason != "" then Last(lines).chunk.finishReason
    else LastReason(Init(lines))
  }

  /** The model said that it was done. */
  ghost predicate Completed(lines: seq<Line>)
  {
    exists i :: 0 <= i < |lines| && lines[i].Good? && (lines[i].chunk.done || lines[i].chunk.finishReason != "")
  }

  /** What the reading loop has gathered, besides the usage. */
  datatype State = State(output: string, reasoning: string, finishReason: string,
                         deltas: seq<string>, reasonings: seq<string>, completed: bool)

  ghost predicate AllGood(lines: seq<Line>)
  {
    forall i :: 0 <= i < |lines| ==> lines[i].Good?
  }

  ghost predicate NoneStops(lines: seq<Line>)
  {
    forall i :: 0 <= i < |lines| ==> !Stops(lines[i])
  }

  /** The gathered state says what the lines amount to. */
  ghost predicate Tells(lines: seq<Line>, s: State, usage: Counts)
  {
    && AllGood(lines)
    && s.deltas == Pieces(lines, DeltaOf) && s.output == Concat(s.deltas)
    && s.reasonings == Pieces(lines, ReasoningOf) && s.reasoning == Concat(s.reasonings)
    && s.finishReason == LastReason(lines)
    && (s.completed <==> Completed(lines))
    && usage == MergeAll(Reports(lines))
  }

  function Next(s: State, line: Line): State
    requires line.Good?
  {
    var delta, reasoning := DeltaOf(line), ReasoningOf(line);
    State(s.output + delta, s.reasoning + reasoning,
          if line.chunk.finishReason != "" then line.chunk.finishReason else s.finishReason,
          if delta != "" then s.deltas + [delta] else s.deltas,
          if reasoning != "" then s.reasonings + [reasoning] else s.reasonings,
          s.completed || line.chunk.done || line.chunk.finishReason != "")
  }

  lemma OneMoreLine(lines: seq<Line>, s: State, usage: Counts, line: Line)
    requires Tells(lines, s, usage) && line.Good?
    ensures Tells(lines + [line], Next(s, line), Merge(usage, line.chunk.usage))
  {
    OneMorePiece(lines, line, DeltaOf);
    OneMorePiece(lines, line, ReasoningOf);
    OneMoreReport(lines, line);
    CompletedSnoc(lines, line);
  }

  lemma OneMorePiece(lines: seq<Line>, line: Line, of: Line -> string)
    ensures var more, pieces := Pieces(lines + [line], of), Pieces(lines, of);
            && more == (if of(line) == "" then pieces else pieces + [of(line)])
            && Concat(more) == Concat(pieces) + of(line)
  {
    assert (lines + [line])[..|lines|] == lines && Last(lines + [line]) == line;
    ConcatSnoc(Pieces(lines, of), of(line));
  }

  lemma OneMoreReport(lines: seq<Line>, line: Line)
    requires AllGood(lines) && line.Good?
    ensures AllGood(lines + [line])
    ensures MergeAll(Reports(lines + [line])) == Merge(MergeAll(Reports(lines)), line.chunk.usage)
    ensures LastReason(lines + [line]) ==
            if line.chunk.finishReason != "" then line.chunk.finishReason else LastReason(lines)
  {
    var more := lines + [line];
    assert more[..|more| - 1] == lines && Last(more) == line;
    assert Reports(more)[..|lines|] == Reports(lines);
  }

  lemma CompletedSnoc(lines: seq<Line>, line: Line)
    requires line.Good?
    ensures Completed(lines + [line]) <==> Completed(lines) || line.chunk.done || line.chunk.finishReason != ""
  {
    var more := lines + [line];
    assert forall i :: 0 <= i < |lines| ==> more[i] == lines[i];
    assert more[|lines|] == line;
  }

  /** One good line: gather what it carries, until the client refuses something. */
  method TakeChunk(line: Line, s: State, usage: UsageRecord) returns (next: State, stopped: bool)
    requires line.Good?
    modifies usage
    ensures next == Next(s, line) && stopped == Stops(line)
    ensures usage.View() == Merge(old(usage.View()), line.chunk.usage)
  {
    var chunk := line.chunk;
    next := s;
    usage.MergeUsage(chunk.usage);
    if chunk.finishReason != "" {
      next := next.(finishReason := chunk.finishReason);
    }
    if chunk.done || chunk.finishReason != "" {
      next := next.(completed := true);
    }
    if chunk.delta != "" {
      next := next.(output := next.output + chunk.delta, deltas := next.deltas + [chunk.delta]);
      if !line.deltaTaken {
        return next, true;
      }
    }
    if chunk.reasoning != "" {
      next := next.(reasoning := next.reasoning + chunk.reasoning, reasonings := next.reasonings + [chunk.reasoning]);
      if !line.reasoningTaken {
        return next, true;
      }
    }
    return next, false;
  }

  /** What is returned with an error. */
  function Interrupted(s: State, usage: Counts): Execution
  {
    Execution(TrimSpace(s.output), TrimSpace(s.reasoning), s.finishReason, usage)
  }

  /** The result of reading a stream: where it stopped, what the callbacks got, and what was made of it. */
  ghost predicate IsReading(lines: seq<Line>, end: End, n: nat, deltas: seq<string>, reasonings: seq<string>,
                            execution: Execution, failed: bool)
  {
    && StopsAt(lines, n) && AllGood(Read(lines, n))
    && deltas == Pieces(Read(lines, n), DeltaOf) && reasonings == Pieces(Read(lines, n), ReasoningOf)
    && (failed <==> n < |lines| || end.ReadError? || !Completed(lines))
    && execution.output == (if failed then TrimSpace(Concat(deltas)) else OrPlaceholder(TrimSpace(Concat(deltas))))
    && execution.reasoning == TrimSpace(Concat(reasonings))
    && execution.finishReason == LastReason(Read(lines, n))
    && execution.usage == MergeAll(Reports(Read(lines, n)))
  }

  lemma StopHere(lines: seq<Line>, end: End, n: nat, s: State, usage: Counts)
    requires n < |lines| && NoneStops(lines[..n]) && Stops(lines[n]) && Tells(Read(lines, n), s, usage)
    ensures IsReading(lines, end, n, s.deltas, s.reasonings, Interrupted(s, usage), true)
  {
    assert forall i :: 0 <= i < n ==> lines[i] == lines[..n][i];
  }

  lemma StopAtEnd(lines: seq<Line>, end: End, s: State, usage: Counts)
    requires NoneStops(lines) && Tells(lines, s, usage)
    ensures if end.ReadError? || !s.completed
            then IsReading(lines, end, |lines|, s.deltas, s.reasonings, Interrupted(s, usage), true)
            else IsReading(lines, end, |lines|, s.deltas, s.reasonings,
                           Execution(OrPlaceholder(TrimSpace(s.output)), TrimSpace(s.reasoning), s.finishReason,
                               Fill(usage)),
                           false)
  {
    assert lines[..|lines|] == lines;
    TotalIsThere(Reports(lines));
  }

  lemma NoneStopsSnoc(lines: seq<Line>, n: nat)
    requires n < |lines|
    ensures lines[..n + 1] == lines[..n] + [lines[n]]
    ensures NoneStops(lines[..n + 1]) <==> NoneStops(lines[..n]) && !Stops(lines[n])
  {
    assert lines[..n + 1][n] == lines[n] && forall i :: 0 <= i < n ==> lines[..n + 1][i] == lines[..n][i];
  }

  /** `parseConsoleChatStreamResponse`. `deltas` and `reasonings` are the texts handed to the callbacks,
      `n` the number of lines that did not stop the reading. */
  method ParseStream(lines: seq<Line>, end: End)
    returns (execution: Execution, failed: bool, deltas: seq<string>, reasonings: seq<string>, n: nat)
    ensures IsReading(lines, end, n, deltas, reasonings, execution, failed)
  {
    var usage := new UsageRecord();
    var s := State("", "", "", [], [], false);
    n := 0;
    while n < |lines|
      invariant n <= |lines| && NoneStops(lines[..n])
      invariant Tells(lines[..n], s, usage.View())
    {
      var line := lines[n];
      if line.Malformed? {
        StopHere(lines, end, n, s, usage.View());
        return Interrupted(s, usage.View()), true, s.deltas, s.reasonings, n;
      }
      OneMoreLine(lines[..n], s, usage.View(), line);
      NoneStopsSnoc(lines, n);
      var stopped;
      s, stopped := TakeChunk(line, s, usage);
      if stopped {
        StopHere(lines, end, n, s, usage.View());
        return Interrupted(s, usage.View()), true, s.deltas, s.reasonings, n;
      }
      n := n + 1;
    }
    assert lines[..n] == lines;
    StopAtEnd(lines, end, s, usage.View());
    if end.ReadError? || !s.completed {
      return Interrupted(s, usage.View()), true, s.deltas, s.reasonings, n;
    }
    usage.FillTotal();
    execution := Execution(OrPlaceholder(TrimSpace(s.output)), TrimSpace(s.reasoning), s.finishReason, usage.View());
    return execution, false, s.deltas, s.reasonings, n;
  }

  function Chunks(lines: seq<Line>): (chunks: seq<Chunk>)
    requires forall i :: 0 <= i < |lines| ==> lines[i].Good?
    ensures |chunks| == |lines| && forall i :: 0 <= i < |lines| ==> chunks[i] == lines[i].chunk
  {
    seq(|lines|, i requires 0 <= i < |lines| => lines[i].chunk)
  }

  /** The deltas of all chunks, and their reasonings, one after the other. */
  function DeltasOf(chunks: seq<Chunk>): string
  {
    if chunks == [] then "" else DeltasOf(Init(chunks)) + Last(chunks).delta
  }

  function ReasoningsOf(chunks: seq<Chunk>): string
  {
    if chunks == [] then "" else ReasoningsOf(Init(chunks)) + Last(chunks).reasoning
  }

  lemma {:induction false} PiecesAreChunks(lines: seq<Line>)
    requires AllGood(lines) && NoneStops(lines)
    ensures Concat(Pieces(lines, DeltaOf)) == DeltasOf(Chunks(lines))
    ensures Concat(Pieces(lines, ReasoningOf)) == ReasoningsOf(Chunks(lines))
  {
    if lines != [] {
      var front, last := Init(lines), Last(lines);
      PiecesAreChunks(front);
      assert lines == front + [last] && Init(Chunks(lines)) == Chunks(front);
      OneMorePiece(front, last, DeltaOf);
      OneMorePiece(front, last, ReasoningOf);
      assert !Stops(last);
    }
  }

  /** When reading a stream fails: a line cannot be decoded, the client refuses a delta or a reasoning, the stream
      breaks off, or no line says that the model is done. If it does not fail, output and reasoning are those of
      all lines, trimmed. */
  lemma ReadingIs(lines: seq<Line>, end: End, n: nat, deltas: seq<string>, reasonings: seq<string>,
                  execution: Execution, failed: bool)
    requires IsReading(lines, end, n, deltas, reasonings, execution, failed)
    ensures failed <==>
              || end.ReadError?
              || (exists i :: 0 <= i < |lines|
                              && (|| lines[i].Malformed?
                                  || (lines[i].chunk.delta != "" && !lines[i].deltaTaken)
                                  || (lines[i].chunk.reasoning != "" && !lines[i].reasoningTaken)))
              || (forall i :: 0 <= i < |lines| && lines[i].Good? ==>
                    !lines[i].chunk.done && lines[i].chunk.finishReason == "")
    ensures !failed ==>
              && AllGood(lines)
              && var text := TrimSpace(DeltasOf(Chunks(lines)));
                 && execution.output == (if text == "" then "No text returned." else text)
                 && execution.reasoning == TrimSpace(ReasoningsOf(Chunks(lines)))
  {
    assert forall i :: 0 <= i < |lines| ==>
             (Stops(lines[i]) <==> || lines[i].Malformed?
                                   || (lines[i].chunk.delta != "" && !lines[i].deltaTaken)
                                   || (lines[i].chunk.reasoning != "" && !lines[i].reasoningTaken));
    if n == |lines| {
      assert lines[..n] == lines;
      if !failed { PiecesAreChunks(lines); }
    }
  }

  // ----- a response in one piece

  /** The usage part of a response, as far as it was found. */
  datatype ReplyUsage =
    | NoUsage
    | OnlyInput(inputTokens: int)
    | Anthropic(input: int, output: int, cacheCreation: int, cacheRead: int)
    | OpenAI(prompt: int, completion: int, input: int, output: int, total: int)

  datatype Reply = Reply(output: string, reasoning: string, finishReason: string, usage: ReplyUsage)

  /** `parseConsoleChatUsageFromJSON` */
  function ReadUsage(u: ReplyUsage): Counts
  {
    match u
    case NoUsage => ZERO
    case OnlyInput(n) => Counts(n, 0, 0, 0, n)
    case Anthropic(input, output, creation, read) =>
      Counts(input, output, creation, read, input + output + creation + read)
    case OpenAI(prompt, completion, input, output, total) =>
      var i, o := if prompt == 0 then input else prompt, if completion == 0 then output else completion;
      Counts(i, o, 0, 0, if total == 0 then i + o else total)
  }

  /** `parseConsoleChatJSONResponse` for a response that can be decoded. */
  function ParseReply(r: Reply): Execution
  {
    Execution(if TrimSpace(r.output) == "" then EMPTY_OUTPUT else r.output, r.reasoning, r.finishReason,
              Fill(ReadUsage(r.usage)))
  }

  /** After merging, a total of zero means that no tokens were reported. */
  lemma TotalIsThere(reports: seq<Counts>)
    ensures Fill(MergeAll(reports)) == MergeAll(reports)
  {
    MergedCounts(reports);
  }
}

module Continuation {
  import opened Text
  import opened Usage
  import opened ChatStream

  datatype Message = Message(role: string, content: string, attachments: seq<string>)

  datatype Request = Request(history: seq<Message>, prompt: string, attachments: seq<string>)

  /** A turn: the texts handed to the callbacks, what it returned, and whether it returned an error. */
  datatype Turn = Turn(deltas: seq<string>, reasonings: seq<string>, execution: Execution, failed: bool)

  const LIMIT := 2

  const CONTINUE_PROMPT := "Continue exactly from where you stopped without repeating the text already shown."

  predicate NeedsContinuation(finishReason: string)
  {
    ToLower(TrimSpace(finishReason)) == "length" || ToLower(TrimSpace(finishReason)) == "max_tokens"
  }

  function ContinuationContent(e: Execution): string
  {
    if e.output == EMPTY_OUTPUT then "" else e.output
  }

  /** The text of a turn: what was streamed, or else what was returned. */
  function TextOf(t: Turn, stream: bool): string
  {
    if stream && Concat(t.deltas) != "" then Concat(t.deltas) else ContinuationContent(t.execution)
  }

  function ReasoningOf(t: Turn, stream: bool): string
  {
    if stream && Concat(t.reasonings) != "" then TrimSpace(Concat(t.reasonings))
    else TrimSpace(TrimSpace(t.execution.reasoning))
  }

  // ----- the conversation

  predicate GoesOn(t: Turn, imageModel: bool)
  {
    !t.failed && !imageModel && NeedsContinuation(t.execution.finishReason)
  }

  function FirstRequest(history: seq<Message>, userInput: string, attachments: seq<string>): Request
  {
    Request(history, TrimSpace(userInput), attachments)
  }

  /** The next request carries the last prompt and the text that answered it, unless that was blank. */
  function NextRequest(r: Request, t: Turn, stream: bool): Request
  {
    var answer := TrimSpace(TextOf(t, stream));
    Request(r.history + [Message("user", r.prompt, r.attachments)]
                      + (if answer == "" then [] else [Message("assistant", answer, [])]),
            CONTINUE_PROMPT, [])
  }

  /** The request after the first `i + 1` follows from the one before. */
  ghost predicate Follows(upstream: Request -> Turn, stream: bool, requests: seq<Request>, i: int)
  {
    0 <= i < |requests| - 1 ==> requests[i + 1] == NextRequest(requests[i], upstream(requests[i]), stream)
  }

  /** The requests of one answer: each follows from the one before, every turn but the last goes on, and the
      last does not go on or is the third. */
  ghost predicate IsConversation(upstream: Request -> Turn, first: Request, stream: bool, imageModel: bool,
                                 requests: seq<Request>)
  {
    && 1 <= |requests| <= LIMIT + 1
    && requests[0] == first
    && (forall i :: 0 <= i < |requests| - 1 ==> GoesOn(upstream(requests[i]), imageModel))
    && (forall i :: 0 <= i < |requests| - 1 ==> Follows(upstream, stream, requests, i))
    && (|requests| == LIMIT + 1 || !GoesOn(upstream(Last(requests)), imageModel))
  }

  /** There is exactly one conversation for given answers of the upstream. */
  lemma ConversationIsUnique(upstream: Request -> Turn, first: Request, stream: bool, imageModel: bool,
                             a: seq<Request>, b: seq<Request>)
    requires IsConversation(upstream, first, stream, imageModel, a)
    requires IsConversation(upstream, first, stream, imageModel, b)
    ensures a == b
  {
    var k := if |a| <= |b| then |a| else |b|;
    SamePrefix(upstream, first, stream, imageModel, a, b, k);
    assert a[k - 1] == b[k - 1];
    assert |a| == |b|;
    assert a[..k] == a && b[..k] == b;
  }

  lemma {:induction false} SamePrefix(upstream: Request -> Turn, first: Request, stream: bool, imageModel: bool,
                                      a: seq<Request>, b: seq<Request>, k: nat)
    requires IsConversation(upstream, first, stream, imageModel, a)
    requires IsConversation(upstream, first, stream, imageModel, b)
    requires k <= |a| && k <= |b|
    ensures a[..k] == b[..k]
  {
    if k > 0 {
      SamePrefix(upstream, first, stream, imageModel, a, b, k - 1);
      if k > 1 {
        assert a[k - 2] == a[..k - 1][k - 2] == b[..k - 1][k - 2] == b[k - 2];
        assert Follows(upstream, stream, a, k - 2) && Follows(upstream, stream, b, k - 2);
      }
      assert a[..k] == a[..k - 1] + [a[k - 1]] && b[..k] == b[..k - 1] + [b[k - 1]];
    }
  }

  function Turns(upstream: Request -> Turn, requests: seq<Request>): (ts: seq<Turn>)
    ensures |ts| == |requests| && forall i :: 0 <= i < |ts| ==> ts[i] == upstream(requests[i])
  {
    seq(|requests|, i requires 0 <= i < |requests| => upstream(requests[i]))
  }

  function Texts(ts: seq<Turn>, stream: bool): (texts: seq<string>)
    ensures |texts| == |ts| && forall i :: 0 <= i < |ts| ==> texts[i] == TextOf(ts[i], stream)
  {
    seq(|ts|, i requires 0 <= i < |ts| => TextOf(ts[i], stream))
  }

  function Usages(ts: seq<Turn>): (us: seq<Counts>)
    ensures |us| == |ts| && forall i :: 0 <= i < |ts| ==> us[i] == ts[i].execution.usage
  {
    seq(|ts|, i requires 0 <= i < |ts| => ts[i].execution.usage)
  }

  /** The reasonings that are not blank. */
  function Thoughts(ts: seq<Turn>, stream: bool): seq<string>
  {
    if ts == [] then []
    else
      var thought := ReasoningOf(Last(ts), stream);
      Thoughts(Init(ts), stream) + if thought == "" then [] else [thought]
  }

  /** `strings.Join(paragraphs, "\n\n")` */
  function JoinParagraphs(paragraphs: seq<string>): string
  {
    if paragraphs == [] then ""
    else if |paragraphs| == 1 then paragraphs[0]
    else paragraphs[0] + "\n\n" + JoinParagraphs(paragraphs[1..])
  }

  lemma {:induction false} JoinSnoc(paragraphs: seq<string>, p: string)
    requires paragraphs != []
    ensures JoinParagraphs(paragraphs + [p]) == JoinParagraphs(paragraphs) + "\n\n" + p
  {
    if |paragraphs| == 1 {
      assert (paragraphs + [p])[1..] == [p];
    } else {
      JoinSnoc(paragraphs[1..], p);
      assert (paragraphs + [p])[1..] == paragraphs[1..] + [p];
      Associate(paragraphs[0] + "\n\n", JoinParagraphs(paragraphs[1..]) + "\n\n", p);
      Associate(paragraphs[0] + "\n\n", JoinParagraphs(paragraphs[1..]), "\n\n");
    }
  }

  lemma JoinIsEmpty(paragraphs: seq<string>)
    requires forall i :: 0 <= i < |paragraphs| ==> paragraphs[i] != ""
    ensures JoinParagraphs(paragraphs) == "" <==> paragraphs == []
  {
  }

  lemma {:induction false} ThoughtsAreNotBlank(ts: seq<Turn>, stream: bool)
    ensures forall i :: 0 <= i < |Thoughts(ts, stream)| ==> Thoughts(ts, stream)[i] != ""
  {
    if ts != [] { ThoughtsAreNotBlank(Init(ts), stream); }
  }

  function LastFinish(ts: seq<Turn>): string
  {
    if ts == [] then ""
    else if Last(ts).execution.finishReason != "" then Last(ts).execution.finishReason
    else LastFinish(Init(ts))
  }

  /** What the answer amounts to. */
  ghost predicate IsAggregate(ts: seq<Turn>, stream: bool, aggregate: Execution)
  {
    && aggregate.output == OrPlaceholder(TrimSpace(Concat(Texts(ts, stream))))
    && aggregate.reasoning == TrimSpace(JoinParagraphs(Thoughts(ts, stream)))
    && aggregate.finishReason == LastFinish(ts)
    && aggregate.usage == Accumulate(Usages(ts))
  }

  /** What the loop has combined, besides the usage. */
  datatype Combined = Combined(output: string, reasoning: string, finishReason: string)

  /** The combined texts say what the turns so far amount to. */
  ghost predicate Collected(ts: seq<Turn>, stream: bool, c: Combined, usage: Counts)
  {
    && c.output == Concat(Texts(ts, stream))
    && c.reasoning == JoinParagraphs(Thoughts(ts, stream))
    && c.finishReason == LastFinish(ts)
    && usage == Accumulate(Usages(ts))
  }

  function Combine(c: Combined, t: Turn, stream: bool): Combined
  {
    Combined(c.output + TextOf(t, stream), AddThought(c.reasoning, ReasoningOf(t, stream)),
             if t.execution.finishReason != "" then t.execution.finishReason else c.finishReason)
  }

  function AddThought(reasoning: string, text: string): string
  {
    if text == "" then reasoning else (if reasoning != "" then reasoning + "\n\n" else reasoning) + text
  }

  lemma OneMoreTurn(upstream: Request -> Turn, requests: seq<Request>, request: Request, stream: bool,
                    c: Combined, usage: Counts)
    requires Collected(Turns(upstream, requests), stream, c, usage)
    ensures var t := upstream(request);
            Collected(Turns(upstream, requests + [request]), stream,
                      Combine(c, t, stream), Fill(Add(usage, t.execution.usage)))
  {
    var ts, t := Turns(upstream, requests), upstream(request);
    assert Turns(upstream, requests + [request]) == ts + [t];
    OneMoreText(ts, t, stream);
    OneMoreThought(ts, t, stream);
    OneMoreUsage(ts, t);
  }

  lemma OneMoreText(ts: seq<Turn>, t: Turn, stream: bool)
    ensures Concat(Texts(ts + [t], stream)) == Concat(Texts(ts, stream)) + TextOf(t, stream)
  {
    ConcatSnoc(Texts(ts, stream), TextOf(t, stream));
    assert Texts(ts + [t], stream) == Texts(ts, stream) + [TextOf(t, stream)];
  }

  lemma OneMoreUsage(ts: seq<Turn>, t: Turn)
    ensures Accumulate(Usages(ts + [t])) == Fill(Add(Accumulate(Usages(ts)), t.execution.usage))
    ensures LastFinish(ts + [t]) == if t.execution.finishReason != "" then t.execution.finishReason else LastFinish(ts)
  {
    assert Usages(ts + [t])[..|ts|] == Usages(ts);
    assert Init(ts + [t]) == ts && Last(ts + [t]) == t;
  }

  lemma OneMoreThought(ts: seq<Turn>, t: Turn, stream: bool)
    ensures JoinParagraphs(Thoughts(ts + [t], stream)) ==
            AddThought(JoinParagraphs(Thoughts(ts, stream)), ReasoningOf(t, stream))
  {
    assert Init(ts + [t]) == ts && Last(ts + [t]) == t;
    var thoughts := Thoughts(ts, stream);
    ThoughtsAreNotBlank(ts, stream);
    JoinIsEmpty(thoughts);
    if thoughts != [] { JoinSnoc(thoughts, ReasoningOf(t, stream)); }
    assert thoughts + [] == thoughts;
  }

  /** The requests so far, all of whose turns go on, and the request to make next. */
  ghost predicate GoingOn(upstream: Request -> Turn, first: Request, stream: bool, imageModel: bool,
                          requests: seq<Request>, next: Request)
  {
    && |requests| <= LIMIT
    && (requests == [] ==> next == first)
    && (requests != [] ==>
          requests[0] == first && next == NextRequest(Last(requests), upstream(Last(requests)), stream))
    && (forall i :: 0 <= i < |requests| ==> GoesOn(upstream(requests[i]), imageModel))
    && (forall i :: 0 <= i < |requests| - 1 ==> Follows(upstream, stream, requests, i))
  }

  lemma OneMoreRequest(upstream: Request -> Turn, first: Request, stream: bool, imageModel: bool,
                       requests: seq<Request>, next: Request)
    requires GoingOn(upstream, first, stream, imageModel, requests, next)
    ensures if GoesOn(upstream(next), imageModel) && |requests| < LIMIT
            then GoingOn(upstream, first, stream, imageModel, requests + [next],
                         NextRequest(next, upstream(next), stream))
            else IsConversation(upstream, first, stream, imageModel, requests + [next])
  {
    var more := requests + [next];
    assert Last(more) == next;
    forall i | 0 <= i < |more| - 1
      ensures GoesOn(upstream(more[i]), imageModel) && Follows(upstream, stream, more, i)
    {
      if i < |requests| - 1 { assert Follows(upstream, stream, requests, i); }
    }
  }

  /** The part of the loop that adds a turn to the answer. */
  method CollectTurn(turn: Turn, stream: bool, c: Combined, usage: UsageRecord)
    returns (next: Combined, turnOutput: string)
    modifies usage
    ensures next == Combine(c, turn, stream) && turnOutput == TextOf(turn, stream)
    ensures usage.View() == Fill(Add(old(usage.View()), turn.execution.usage))
  {
    var turnReasoning := "";
    turnOutput := "";
    if stream {
      turnOutput, turnReasoning := Concat(turn.deltas), Concat(turn.reasonings);
    }
    if turnOutput == "" {
      turnOutput := ContinuationContent(turn.execution);
    }
    if turnReasoning == "" {
      turnReasoning := TrimSpace(turn.execution.reasoning);
    }
    next := c.(output := c.output + turnOutput);
    var text := TrimSpace(turnReasoning);
    if text != "" {
      if c.reasoning != "" {
        next := next.(reasoning := next.reasoning + "\n\n");
      }
      next := next.(reasoning := next.reasoning + text);
    }
    if turn.execution.finishReason != "" {
      next := next.(finishReason := turn.execution.finishReason);
    }
    usage.AddTotals(turn.execution.usage);
    usage.FillTotal();
  }

  /** `finalizeConsoleChatExecutionAggregate` */
  function Finalize(c: Combined, usage: Counts): Execution
  {
    Execution(OrPlaceholder(TrimSpace(c.output)), TrimSpace(c.reasoning), c.finishReason, usage)
  }

  lemma CollectedIsAggregate(ts: seq<Turn>, stream: bool, c: Combined, usage: Counts)
    requires Collected(ts, stream, c, usage)
    ensures IsAggregate(ts, stream, Finalize(c, usage))
  {
  }

  /** The part of the loop that prepares the next turn. */
  method FollowUp(request: Request, turn: Turn, turnOutput: string, stream: bool) returns (next: Request)
    requires turnOutput == TextOf(turn, stream)
    ensures next == NextRequest(request, turn, stream)
  {
    var workingHistory := request.history + [Message("user", request.prompt, request.attachments)];
    var answer := TrimSpace(turnOutput);
    if answer != "" {
      workingHistory := workingHistory + [Message("assistant", answer, [])];
    }
    next := Request(workingHistory, CONTINUE_PROMPT, []);
  }

  /** Where the loop stands after some requests and before the next one. */
  datatype Standing = Lost | Going

  ghost function StandsAt(upstream: Request -> Turn, first: Request, stream: bool, imageModel: bool,
                          requests: seq<Request>, next: Request, c: Combined, usage: Counts): Standing
  {
    if !Collected(Turns(upstream, requests), stream, c, usage) then Lost
    else if GoingOn(upstream, first, stream, imageModel, requests, next) then Going
    else Lost
  }

  /** One more turn of the loop: what it has combined then, and how it goes on. */
  lemma TurnTaken(upstream: Request -> Turn, first: Request, stream: bool, imageModel: bool,
                  requests: seq<Request>, next: Request, c: Combined, usage: Counts)
    requires StandsAt(upstream, first, stream, imageModel, requests, next, c, usage) == Going
    ensures var t, more := upstream(next), requests + [next];
            var d, sum := Combine(c, t, stream), Fill(Add(usage, t.execution.usage));
            && |requests| <= LIMIT
            && (GoesOn(t, imageModel) && |requests| < LIMIT ==>
                  StandsAt(upstream, first, stream, imageModel, more, NextRequest(next, t, stream), d, sum) == Going)
            && (!(GoesOn(t, imageModel) && |requests| < LIMIT) ==>
                  && IsConversation(upstream, first, stream, imageModel, more)
                  && Collected(Turns(upstream, more), stream, d, sum))
  {
    OneMoreTurn(upstream, requests, next, stream, c, usage);
    OneMoreRequest(upstream, first, stream, imageModel, requests, next);
  }

  lemma NothingYet(upstream: Request -> Turn, first: Request, stream: bool, imageModel: bool)
    ensures StandsAt(upstream, first, stream, imageModel, [], first, Combined("", "", ""), ZERO) == Going
  {
  }

  /** The three reasons to stop. */
  method Continues(turn: Turn, imageModel: bool, attempt: nat) returns (goesOn: bool)
    ensures goesOn <==> GoesOn(turn, imageModel) && attempt < LIMIT
  {
    if turn.failed {
      return false;
    }
    if imageModel {
      return false;
    }
    if !NeedsContinuation(turn.execution.finishReason) || attempt >= LIMIT {
      return false;
    }
    return true;
  }

  /** The loop over the turns; `requests` are those made of the upstream, in order. */
  method RunTurns(upstream: Request -> Turn, first: Request, stream: bool, imageModel: bool)
    returns (combined: Combined, usage: UsageRecord, failed: bool, requests: seq<Request>)
    ensures fresh(usage)
    ensures IsConversation(upstream, first, stream, imageModel, requests)
    ensures failed == upstream(Last(requests)).failed
    ensures Collected(Turns(upstream, requests), stream, combined, usage.View())
  {
    var next := first;
    usage := new UsageRecord();
    combined := Combined("", "", "");
    requests := [];
    var attempt := 0;
    NothingYet(upstream, first, stream, imageModel);
    while true
      invariant attempt == |requests| && fresh(usage)
      invariant StandsAt(upstream, first, stream, imageModel, requests, next, combined, usage.View()) == Going
      decreases LIMIT - attempt
    {
      var turn := upstream(next);
      TurnTaken(upstream, first, stream, imageModel, requests, next, combined, usage.View());
      requests := requests + [next];
      failed := turn.failed;
      var turnOutput;
      combined, turnOutput := CollectTurn(turn, stream, combined, usage);
      var goesOn := Continues(turn, imageModel, attempt);
      if !goesOn {
        return;
      }
      next := FollowUp(next, turn, turnOutput, stream);
      attempt := attempt + 1;
    }
  }

  /** `runConsoleChatTurnWithContinuation`. The code finalizes the aggregate after every turn, here it is done
      after the last. */
  method RunWithContinuation(upstream: Request -> Turn, history: seq<Message>, userInput: string,
                             attachments: seq<string>, stream: bool, imageModel: bool)
    returns (aggregate: Execution, failed: bool, requests: seq<Request>)
    ensures IsConversation(upstream, FirstRequest(history, userInput, attachments), stream, imageModel, requests)
    ensures requests[0] == Request(history, TrimSpace(userInput), attachments)
    ensures failed == upstream(Last(requests)).failed
    ensures IsAggregate(Turns(upstream, requests), stream, aggregate)
  {
    var combined, usage;
    combined, usage, failed, requests :=
      RunTurns(upstream, Request(history, TrimSpace(userInput), attachments), stream, imageModel);
    CollectedIsAggregate(Turns(upstream, requests), stream, combined, usage.View());
    aggregate := Finalize(combined, usage.View());
  }

  // ----- what is asked and what is answered

  /** What a turn adds to the history: the user's message and, unless it is blank, the answer. */
  function Exchange(r: Request, t: Turn, stream: bool): seq<Message>
  {
    var answer := TrimSpace(TextOf(t, stream));
    [Message("user", r.prompt, r.attachments)] + if answer == "" then [] else [Message("assistant", answer, [])]
  }

  function Transcript(upstream: Request -> Turn, requests: seq<Request>, stream: bool): seq<Message>
  {
    if requests == [] then []
    else Transcript(upstream, Init(requests), stream) + Exchange(Last(requests), upstream(Last(requests)), stream)
  }

  /** Every request after the first asks to continue, without attachments, and its history is that of the one
      before with that one's prompt and attachments as the user's message and the text that answered it, if it
      is not blank, as the assistant's: what was streamed, or else what was returned and is no placeholder. */
  lemma WhatIsAskedNext(upstream: Request -> Turn, first: Request, stream: bool, imageModel: bool,
                        requests: seq<Request>, i: nat)
    requires IsConversation(upstream, first, stream, imageModel, requests) && 0 < i < |requests|
    ensures requests[i].prompt == "Continue exactly from where you stopped without repeating the text already shown."
    ensures requests[i].attachments == []
    ensures var before := requests[i - 1];
            var t := upstream(before);
            var answer := TrimSpace(if stream && Concat(t.deltas) != "" then Concat(t.deltas)
                                    else if t.execution.output == "No text returned." then ""
                                    else t.execution.output);
            requests[i].history ==
            before.history + ([Message("user", before.prompt, before.attachments)]
                              + if answer == "" then [] else [Message("assistant", answer, [])])
  {
    assert Follows(upstream, stream, requests, i - 1);
    var before, answer := requests[i - 1], TrimSpace(TextOf(upstream(requests[i - 1]), stream));
    Associate(before.history, [Message("user", before.prompt, before.attachments)],
              if answer == "" then [] else [Message("assistant", answer, [])]);
  }

  /** So request `i` carries the whole conversation: the first history, and then the question and the answer of
      every turn before it. */
  lemma {:induction false} HistoryIsTranscript(upstream: Request -> Turn, first: Request, stream: bool,
                                               imageModel: bool, requests: seq<Request>, i: nat)
    requires IsConversation(upstream, first, stream, imageModel, requests) && i < |requests|
    ensures requests[i].history == first.history + Transcript(upstream, requests[..i], stream)
    ensures i == 0 ==> requests[i].prompt == first.prompt && requests[i].attachments == first.attachments
  {
    if i == 0 {
      NoText(first.history);
    } else {
      var before, earlier := requests[i - 1], requests[..i];
      HistoryIsTranscript(upstream, first, stream, imageModel, requests, i - 1);
      WhatIsAskedNext(upstream, first, stream, imageModel, requests, i);
      assert Init(earlier) == requests[..i - 1] && Last(earlier) == before;
      Associate(first.history, Transcript(upstream, requests[..i - 1], stream),
                Exchange(before, upstream(before), stream));
    }
  }

  /** A turn is followed by another exactly if it did not fail, the model makes no images, it stopped for length,
      and it is not the third. */
  lemma GoesOnIff(upstream: Request -> Turn, first: Request, stream: bool, imageModel: bool, requests: seq<Request>,
                  i: nat)
    requires IsConversation(upstream, first, stream, imageModel, requests) && i < |requests|
    ensures var t := upstream(requests[i]);
            var reason := ToLower(TrimSpace(t.execution.finishReason));
            i < |requests| - 1 <==>
              !t.failed && !imageModel && (reason == "length" || reason == "max_tokens") && i < 2
  {
    if i == |requests| - 1 { assert requests[i] == Last(requests); }
  }

  /** The answer: the trimmed texts of all turns one after the other, or a placeholder if they are blank, and the
      last reason to finish that was given. */
  lemma AnswerIs(ts: seq<Turn>, stream: bool, aggregate: Execution)
    requires IsAggregate(ts, stream, aggregate)
    ensures |Texts(ts, stream)| == |ts|
    ensures forall i :: 0 <= i < |ts| ==>
              Texts(ts, stream)[i] == if stream && Concat(ts[i].deltas) != "" then Concat(ts[i].deltas)
                                      else if ts[i].execution.output == "No text returned." then ""
                                      else ts[i].execution.output
    ensures var text := Concat(Texts(ts, stream));
            aggregate.output == if AllSpace(text) then "No text returned." else TrimSpace(text)
    ensures forall i :: 0 <= i < |ts| && ts[i].execution.finishReason != ""
                        && (forall j :: i < j < |ts| ==> ts[j].execution.finishReason == "") ==>
                          aggregate.finishReason == ts[i].execution.finishReason
    ensures (forall i :: 0 <= i < |ts| ==> ts[i].execution.finishReason == "") ==> aggregate.finishReason == ""
  {
    var left, right := TrimSpaceSplits(Concat(Texts(ts, stream)));
    forall i | 0 <= i < |ts| && ts[i].execution.finishReason != ""
               && (forall j :: i < j < |ts| ==> ts[j].execution.finishReason == "")
      ensures LastFinish(ts) == ts[i].execution.finishReason
    {
      LastFinishAt(ts, i);
    }
    if forall i :: 0 <= i < |ts| ==> ts[i].execution.finishReason == "" { NoFinish(ts); }
  }

  lemma {:induction false} LastFinishAt(ts: seq<Turn>, i: nat)
    requires i < |ts| && ts[i].execution.finishReason != ""
    requires forall j :: i < j < |ts| ==> ts[j].execution.finishReason == ""
    ensures LastFinish(ts) == ts[i].execution.finishReason
  {
    if i < |ts| - 1 { LastFinishAt(Init(ts), i); }
  }

  lemma {:induction false} NoFinish(ts: seq<Turn>)
    requires forall i :: 0 <= i < |ts| ==> ts[i].execution.finishReason == ""
    ensures LastFinish(ts) == ""
  {
    if ts != [] { NoFinish(Init(ts)); }
  }

  /** The reasonings of the turns, those that are not blank, are its paragraphs: what was streamed, or else what
      was returned. */
  lemma {:induction false} ReasoningIs(ts: seq<Turn>, stream: bool, t: Turn)
    ensures var thought := TrimSpace(if stream && Concat(t.reasonings) != "" then Concat(t.reasonings)
                                     else t.execution.reasoning);
            && (thought == "" ==> Thoughts(ts + [t], stream) == Thoughts(ts, stream))
            && (thought != "" ==> Thoughts(ts + [t], stream) == Thoughts(ts, stream) + [thought])
            && JoinParagraphs(Thoughts(ts + [t], stream)) ==
               JoinParagraphs(Thoughts(ts, stream))
               + (if thought == "" then "" else if Thoughts(ts, stream) == [] then thought else "\n\n" + thought)
  {
    assert Init(ts + [t]) == ts && Last(ts + [t]) == t;
    var l, r := TrimSpaceSplits(t.execution.reasoning);
    TrimmedIsFixed(TrimSpace(t.execution.reasoning));
    var thoughts, thought := Thoughts(ts, stream), ReasoningOf(t, stream);
    NoText(thoughts);
    NoText(JoinParagraphs(thoughts));
    if thought != "" && thoughts != [] {
      JoinSnoc(thoughts, thought);
      Associate(JoinParagraphs(thoughts), "\n\n", thought);
    }
  }

  // ----- what follows

  /** The turns that the console can get: a stream that was read, a response in one piece, or an error before
      any of it, which carries no tokens. */
  ghost predicate IsTurn(t: Turn)
  {
    || (exists lines, end, n :: IsReading(lines, end, n, t.deltas, t.reasonings, t.execution, t.failed))
    || (exists reply :: t.execution == ParseReply(reply))
    || (t.failed && t.execution.usage == ZERO)
  }

  /** Every turn that used tokens gives a total. */
  lemma TurnsGiveTotals(t: Turn)
    requires IsTurn(t)
    ensures TotalGiven(t.execution.usage)
  {
    if lines, end, n :| IsReading(lines, end, n, t.deltas, t.reasonings, t.execution, t.failed) {
      TotalIsThere(Reports(Read(lines, n)));
    }
  }

  /** A streamed turn moreover reports nothing negative. */
  lemma StreamedUsage(lines: seq<Line>, end: End, n: nat, t: Turn)
    requires IsReading(lines, end, n, t.deltas, t.reasonings, t.execution, t.failed)
    ensures NoneNegative(t.execution.usage) && t.execution.usage.total >= 0
  {
    var reports := Reports(Read(lines, n));
    MergedCounts(reports);
    LastPositiveIsNatural(Each(reports, (r: Counts) => r.total));
  }

  lemma {:induction false} LastPositiveIsNatural(xs: seq<int>)
    ensures LastPositive(xs) >= 0
  {
    if xs != [] { LastPositiveIsNatural(xs[..|xs| - 1]); }
  }

  /** The counts of an answer are the sums over its turns. So is its total, unless upstreams report negative
      numbers. */
  lemma AggregateCounts(ts: seq<Turn>, stream: bool, aggregate: Execution)
    requires IsAggregate(ts, stream, aggregate) && forall i :: 0 <= i < |ts| ==> IsTurn(ts[i])
    ensures aggregate.usage == Sum(Usages(ts)).(total := aggregate.usage.total)
    ensures (forall i :: 0 <= i < |ts| ==> NoneNegative(ts[i].execution.usage) && ts[i].execution.usage.total >= 0) ==>
              aggregate.usage == Sum(Usages(ts))
  {
    var us := Usages(ts);
    AccumulatedCounts(us);
    if forall i :: 0 <= i < |ts| ==> NoneNegative(ts[i].execution.usage) && ts[i].execution.usage.total >= 0 {
      forall i | 0 <= i < |us| ensures TotalGiven(us[i]) { TurnsGiveTotals(ts[i]); }
      forall j | 0 <= j <= |us| ensures !Vanishes(us, j) { NaturalTotals(us, j); }
      TotalUpTo(us, |us|);
      assert us[..|us|] == us;
    }
  }

  /** Exactly when that is, for the at most three turns of an answer. */
  lemma AnswerTotalIff(ts: seq<Turn>, stream: bool, aggregate: Execution)
    requires IsAggregate(ts, stream, aggregate) && forall i :: 0 <= i < |ts| ==> IsTurn(ts[i])
    requires |ts| <= 3
    ensures aggregate.usage == Sum(Usages(ts)) <==> TotalHolds(Usages(ts))
  {
    AccumulatedCounts(Usages(ts));
    if ts != [] { TurnsGiveTotals(ts[0]); }
    TotalOfThree(Usages(ts));
  }

  lemma TwoTurns(a: Counts, b: Counts)
    ensures Sum([a, b]) == Add(a, b) && Accumulate([a, b]) == Fill(Add(Fill(a), b))
  {
    var us := [a, b];
    StepTo(us, 1);
    StepTo(us, 2);
    assert us[..2] == us && us[..0] == [];
  }

  /** With negative numbers it can differ: totals of 5 and -5 over ten tokens show as ten. */
  lemma NegativeTotalsVanish(first: Turn, second: Turn, stream: bool, aggregate: Execution)
    requires first.execution == ParseReply(Reply("", "", "length", OpenAI(5, 0, 0, 0, 5)))
    requires second.execution == ParseReply(Reply("", "", "stop", OpenAI(5, 0, 0, 0, -5)))
    requires IsAggregate([first, second], stream, aggregate)
    ensures IsTurn(first) && IsTurn(second)
    ensures Sum(Usages([first, second])).total == 0 && aggregate.usage.total == 10
  {
    var us := Usages([first, second]);
    var a, b := Counts(5, 0, 0, 0, 5), Counts(5, 0, 0, 0, -5);
    assert us == [a, b];
    assert first.execution.usage == a && second.execution.usage == b;
    TwoTurns(a, b);
  }

  /** An answer over at most three turns costs within six micro-cents of its turns billed one by one. */
  lemma AnswerIsBilledFairly(p: Prices, upstream: Request -> Turn, first: Request, stream: bool, imageModel: bool,
                             requests: seq<Request>, aggregate: Execution)
    requires IsConversation(upstream, first, stream, imageModel, requests)
    requires IsAggregate(Turns(upstream, requests), stream, aggregate)
    requires forall i :: 0 <= i < |requests| ==> NoneNegative(upstream(requests[i]).execution.usage)
    requires AllAffordable(p, aggregate.usage)
    ensures var d := UsageCost(p, aggregate.usage) - SumInts(UsageCosts(p, Usages(Turns(upstream, requests))));
            -2 * |requests| <= d <= 2 * |requests| <= 6
  {
    var us := Usages(Turns(upstream, requests));
    AccumulatedCounts(us);
    BillingTheTurns(p, us);
  }

  /** When every turn streams its text, the answer is the trimmed concatenation of all the deltas that the
      client was given, in order. */
  lemma AnswerIsWhatWasStreamed(ts: seq<Turn>, aggregate: Execution)
    requires IsAggregate(ts, true, aggregate) && forall i :: 0 <= i < |ts| ==> Concat(ts[i].deltas) != ""
    ensures aggregate.output == OrPlaceholder(TrimSpace(Concat(AllDeltas(ts))))
  {
    StreamedText(ts);
  }

  function AllDeltas(ts: seq<Turn>): seq<string>
  {
    if ts == [] then [] else AllDeltas(Init(ts)) + Last(ts).deltas
  }

  lemma {:induction false} StreamedText(ts: seq<Turn>)
    requires forall i :: 0 <= i < |ts| ==> Concat(ts[i].deltas) != ""
    ensures Concat(Texts(ts, true)) == Concat(AllDeltas(ts))
  {
    if ts != [] {
      StreamedText(Init(ts));
      ConcatSnoc(Texts(Init(ts), true), TextOf(Last(ts), true));
      assert Texts(ts, true) == Texts(Init(ts), true) + [TextOf(Last(ts), true)];
      ConcatAppend(AllDeltas(Init(ts)), Last(ts).deltas);
    }
  }
}
