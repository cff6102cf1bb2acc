/**
  What the lines of an agent's output do to the console's parser (internal/console/chat_cloud_agent.go,
  consumeLine and resultText). The parser runs with handlers when an answer is streamed and without any
  when the whole output is handed over, and some text is written only when there is a handler for it.
*/
module AgentOutput {
  import opened Integers
  import opened Options
  import opened StreamParser
  import opened Text

  // ----- the parser's state, and its handlers

  datatype Operation = Operation(id: string, name: string, status: string)

  datatype Call = OnDelta(text: string) | OnReasoning(text: string) | OnOperation(operation: Operation)

  /** Which handlers there are, and what the last of a list of calls answers: an error, or nothing. */
  datatype Handlers = Handlers(delta: bool, reasoning: bool, operation: bool, answer: seq<Call> -> Option<string>)

  const NO_HANDLERS := Handlers(false, false, false, (calls: seq<Call>) => None)

  /** All fields but the text written. */
  datatype Memory = Memory(reasoning: string, finalOutput: string, finalReasoning: string,
                           toolNames: map<string, string>, sessionID: string, finishReason: string,
                           durationMS: int, inputTokens: int, outputTokens: int, totalTokens: int,
                           errMessage: string)

  /** `calls` are the calls of handlers so far. */
  datatype Agent = Agent(output: string, memory: Memory, calls: seq<Call>)

  const FORGOTTEN := Memory("", "", "", map[], "", "", 0, 0, 0, 0, "")
  const NEW_AGENT := Agent("", FORGOTTEN, [])

  /** `resultText` */
  function ResultText(a: Agent): string
  {
    if TrimSpace(a.memory.finalOutput) != "" then TrimSpace(a.memory.finalOutput) else TrimSpace(a.output)
  }

  /** `reasoningText` */
  function ReasoningText(a: Agent): string
  {
    if TrimSpace(a.memory.finalReasoning) != "" then TrimSpace(a.memory.finalReasoning)
    else TrimSpace(a.memory.reasoning)
  }

  // ----- what a line says

  datatype Tokens = Tokens(input: int, output: int, total: int)

  datatype Block =
    | TextBlock(texts: seq<string>)
    | ThinkingBlock(texts: seq<string>)
    | ToolUse(id: string, name: string, detail: string)
    | ToolResult(id: string, failed: bool, summary: string)
    | OtherBlock

  /** What the text helpers find in an item: whether it is a reasoning item, and its texts. */
  datatype Item = Item(reasoning: bool, reasoningText: string, assistantText: string)

  datatype Response = Response(ids: seq<string>, reasons: seq<string>, usage: Option<Tokens>,
                               texts: seq<string>, reasonings: seq<string>)

  /** A line by its event type, with the values read from it; a list holds the alternatives of a value in the
      order in which they are tried. */
  datatype Event =
    | Assistant(ids: seq<string>, blocks: seq<Block>, usage: Option<Tokens>, stopReason: string)
    | User(blocks: seq<Block>)
    | MessageDelta(reasoning: string, text: string)
    | ItemNews(completed: bool, item: Item)
    | TurnCompleted(usage: Option<Tokens>, reason: string)
    | Failure(messages: seq<string>)
    | TextDelta(delta: string)
    | TextDone(texts: seq<string>)
    | ContentPart(done: bool, isText: bool, texts: seq<string>)
    | OutputItem(done: bool, item: Item)
    | ResponseCompleted(response: Option<Response>, reason: string)
    | ThinkingDelta(texts: seq<string>)
    | BlockTextDelta(text: string)
    | StopDelta(reason: string)
    | Result(text: string, subtype: string, durationMS: int, isError: bool, error: string)
    | SystemInit(sessionID: string)
    | Plain(texts: seq<string>)
    | Silent

  /** `ids` are the session ids that the line offers. */
  datatype Payload = Payload(ids: seq<string>, event: Event)

  // ----- what it does

  /** A tool's step: its line in the reasoning and its operation depend on the tools named so far. */
  datatype Step =
    | Words(text: string)
    | Started(id: string, name: string, detail: string)
    | Ended(id: string, failed: bool, summary: string)

  datatype Change =
    | Capture(ids: seq<string>)
    | Connect(id: string)
    | NameTool(id: string, name: string)
    | Final(text: string)
    | FinalIfNone(text: string)
    | FinalMore(text: string)
    | Reflection(text: string)
    | ReflectionIfNone(text: string)
    | ReflectionMore(text: string)
    | Count(tokens: Tokens)
    | Finish(first: seq<string>, last: seq<string>)
    | FinishIfNot(reasons: seq<string>)
    | Lasted(durationMS: int)
    | Fail(messages: seq<string>)

  /** `Say` writes text and tells it; `Fill` does so only for a handler, and only if nothing was written yet;
      `Tell` tells reasoning that is kept elsewhere. */
  datatype Effect =
    | Say(text: string)
    | Fill(text: string)
    | Think(step: Step)
    | Tell(text: string)
    | Operate(step: Step)
    | Note(change: Change)

  function ToolName(m: Memory, id: string): string
  {
    FirstNonEmpty([if id != "" && id in m.toolNames then m.toolNames[id] else "", "tool"])
  }

  function StepText(m: Memory, step: Step): string
  {
    match step
    case Words(text) => text
    case Started(_, name, detail) =>
      if detail == "" then "- Tool " + name + " started.\n" else "- Tool " + name + ": " + detail + "\n"
    case Ended(id, failed, summary) =>
      var did := "- Tool " + ToolName(m, id) + (if failed then " failed" else " completed");
      if summary == "" then did + ".\n" else did + ": " + summary + "\n"
  }

  function OperationOf(m: Memory, step: Step): Operation
  {
    match step
    case Words(text) => Operation("", "", "")
    case Started(id, name, _) => Operation(if id != "" then id else "tool-" + name, name, "started")
    case Ended(id, failed, _) =>
      var name := ToolName(m, id);
      Operation(if id != "" then id else "tool-result-" + name, name, if failed then "failed" else "completed")
  }

  function Positive(x: int, otherwise: int): int
  {
    if x > 0 then x else otherwise
  }

  /** `applyUsage` */
  function ApplyUsage(m: Memory, t: Tokens): Memory
  {
    var both := WrapInt64(t.input + t.output);
    var total := if t.total == 0 && both > 0 then both else t.total;
    m.(inputTokens := Positive(t.input, m.inputTokens), outputTokens := Positive(t.output, m.outputTokens),
       totalTokens := Positive(total, m.totalTokens))
  }

  function Remember(m: Memory, c: Change): Memory
  {
    match c
    case Capture(ids) => if m.sessionID != "" then m else m.(sessionID := FirstNonEmpty(ids))
    case Connect(id) => m.(sessionID := FirstNonEmpty([id, m.sessionID]))
    case NameTool(id, name) => if id == "" then m else m.(toolNames := m.toolNames[id := name])
    case Final(text) => m.(finalOutput := text)
    case FinalIfNone(text) => m.(finalOutput := FirstNonEmpty([m.finalOutput, text]))
    case FinalMore(text) => m.(finalOutput := m.finalOutput + text)
    case Reflection(text) => m.(finalReasoning := text)
    case ReflectionIfNone(text) => m.(finalReasoning := FirstNonEmpty([m.finalReasoning, text]))
    case ReflectionMore(text) => m.(finalReasoning := m.finalReasoning + text)
    case Count(tokens) => ApplyUsage(m, tokens)
    case Finish(first, last) => m.(finishReason := FirstNonEmpty(first + ([m.finishReason] + last)))
    case FinishIfNot(reasons) => if m.finishReason != "" then m else m.(finishReason := FirstNonEmpty(reasons))
    case Lasted(ms) => if ms > 0 then m.(durationMS := ms) else m
    case Fail(messages) => m.(errMessage := FirstNonEmpty(messages))
  }

  function Told(h: Handlers, on: bool, a: Agent, call: Call): Outcome<Agent>
  {
    if !on then Continue(a)
    else
      var b := a.(calls := a.calls + [call]);
      match h.answer(b.calls)
      case None => Continue(b)
      case Some(error) => Failed(b, error)
  }

  function Perform(h: Handlers, a: Agent, e: Effect): Outcome<Agent>
  {
    match e
    case Say(text) => Told(h, h.delta, a.(output := a.output + text), OnDelta(text))
    case Fill(text) =>
      if h.delta && a.output == "" then Told(h, true, a.(output := text), OnDelta(text)) else Continue(a)
    case Think(step) =>
      var text := StepText(a.memory, step);
      if TrimSpace(text) == "" then Continue(a)
      else Told(h, h.reasoning, a.(memory := a.memory.(reasoning := a.memory.reasoning + text)), OnReasoning(text))
    case Tell(text) => Told(h, h.reasoning, a, OnReasoning(text))
    case Operate(step) => Told(h, h.operation, a, OnOperation(OperationOf(a.memory, step)))
    case Note(change) => Continue(a.(memory := Remember(a.memory, change)))
  }

  /** Effects one after the other, stopping at the first handler that fails. */
  function PerformAll(h: Handlers, a: Agent, es: seq<Effect>): Outcome<Agent>
    decreases |es|
  {
    if es == [] then Continue(a)
    else
      var r := Perform(h, a, es[0]);
      if r.Failed? then r else PerformAll(h, r.state, es[1..])
  }

  // ----- the effects of each event

  function If(condition: bool, es: seq<Effect>): seq<Effect>
  {
    if condition then es else []
  }

  function UsageEffects(usage: Option<Tokens>): seq<Effect>
  {
    if usage.Some? then [Note(Count(usage.value))] else []
  }

  function NameOf(tool: string): string
  {
    if TrimSpace(tool) == "" then "tool" else TrimSpace(tool)
  }

  function AssistantBlock(b: Block): seq<Effect>
  {
    match b
    case TextBlock(texts) => If(FirstNonEmpty(texts) != "", [Say(FirstNonEmpty(texts))])
    case ThinkingBlock(texts) => If(FirstNonEmpty(texts) != "", [Think(Words(FirstNonEmpty(texts)))])
    case ToolUse(id, name, detail) =>
      var step := Started(TrimSpace(id), NameOf(name), detail);
      [Note(NameTool(step.id, step.name)), Think(step), Operate(step)]
    case _ => []
  }

  function UserBlock(b: Block): seq<Effect>
  {
    match b
    case ToolResult(id, failed, summary) =>
      var step := Ended(TrimSpace(id), failed, TrimSpace(summary));
      [Think(step), Operate(step)]
    case _ => []
  }

  function BlockEffects(blocks: seq<Block>, fromUser: bool): seq<Effect>
  {
    if blocks == [] then []
    else (if fromUser then UserBlock(blocks[0]) else AssistantBlock(blocks[0])) + BlockEffects(blocks[1..], fromUser)
  }

  function FinalTexts(texts: seq<string>): seq<Effect>
  {
    if texts == [] then []
    else If(TrimSpace(texts[0]) != "", [Note(FinalMore(texts[0])), Fill(texts[0])]) + FinalTexts(texts[1..])
  }

  function FinalReasonings(texts: seq<string>): seq<Effect>
  {
    if texts == [] then []
    else If(TrimSpace(texts[0]) != "", [Note(ReflectionMore(texts[0])), Tell(texts[0])]) + FinalReasonings(texts[1..])
  }

  /** `applyResponsePayload` */
  function ResponseEffects(response: Option<Response>): seq<Effect>
  {
    match response
    case None => []
    case Some(r) =>
      [Note(Capture(r.ids)), Note(Finish(r.reasons, []))] + UsageEffects(r.usage)
      + (FinalTexts(r.texts) + FinalReasonings(r.reasonings))
  }

  function ItemEffects(completed: bool, item: Item): seq<Effect>
  {
    if item.reasoning then
      If(completed && item.reasoningText != "", [Note(Reflection(item.reasoningText))])
      + [Think(Words(item.reasoningText))]
    else
      If(completed && item.assistantText != "", [Note(Final(item.assistantText)), Fill(item.assistantText)])
  }

  function OutputItemEffects(done: bool, item: Item): seq<Effect>
  {
    if item.reasoning && item.reasoningText != "" then
      If(done, [Note(ReflectionIfNone(item.reasoningText))]) + [Think(Words(item.reasoningText))]
    else if item.assistantText != "" then
      If(done, [Note(FinalIfNone(item.assistantText))]) + [Fill(item.assistantText)]
    else []
  }

  function EventEffects(event: Event): seq<Effect>
  {
    match event
    case Assistant(ids, blocks, usage, reason) =>
      [Note(Capture(ids))] + BlockEffects(blocks, false) + (UsageEffects(usage) + [Note(Finish([reason], []))])
    case User(blocks) => BlockEffects(blocks, true)
    case MessageDelta(reasoning, text) =>
      if reasoning != "" then [Think(Words(reasoning))] else If(text != "", [Say(text)])
    case ItemNews(completed, item) => ItemEffects(completed, item)
    case TurnCompleted(usage, reason) => UsageEffects(usage) + [Note(Finish([reason], ["stop"]))]
    case Failure(messages) => [Note(Fail(messages + ["codex execution failed"]))]
    case TextDelta(delta) => If(TrimSpace(delta) != "", [Say(TrimSpace(delta))])
    case TextDone(texts) =>
      var text := FirstNonEmpty(texts);
      If(text != "", [Note(Final(text)), Fill(text)])
    case ContentPart(done, isText, texts) =>
      var text := FirstNonEmpty(texts);
      If(isText && text != "", If(done, [Note(FinalIfNone(text))]) + [Fill(text)])
    case OutputItem(done, item) => OutputItemEffects(done, item)
    case ResponseCompleted(response, reason) => ResponseEffects(response) + [Note(FinishIfNot([reason, "stop"]))]
    case ThinkingDelta(texts) => If(FirstNonEmpty(texts) != "", [Think(Words(FirstNonEmpty(texts)))])
    case BlockTextDelta(text) => If(text != "", [Say(text)])
    case StopDelta(reason) => [Note(Finish([reason], []))]
    case Result(text, subtype, ms, isError, error) =>
      If(TrimSpace(text) != "", [Note(Final(TrimSpace(text)))])
      + (If(TrimSpace(subtype) != "", [Note(FinishIfNot([subtype]))])
         + ([Note(Lasted(ms))] + If(isError, [Note(Fail([error, text, "codex execution failed"]))])))
    case SystemInit(id) => [Note(Connect(id))]
    case Plain(texts) => If(FirstNonEmpty(texts) != "", [Say(FirstNonEmpty(texts))])
    case Silent => []
  }

  /** What reads a line: nothing is read from a line that is not a JSON object. */
  type Reader = string -> Option<Payload>

  function PayloadEffects(payload: Option<Payload>): seq<Effect>
  {
    if payload.None? then [] else [Note(Capture(payload.value.ids))] + EventEffects(payload.value.event)
  }

  function LineEffects(read: Reader, raw: string): seq<Effect>
  {
    if TrimSpace(raw) == "" then [] else PayloadEffects(read(TrimSpace(raw)))
  }

  function AllEffects(read: Reader, lines: seq<string>): seq<Effect>
  {
    if lines == [] then [] else LineEffects(read, lines[0]) + AllEffects(read, lines[1..])
  }

  /** The decoding of a trimmed line that is not empty. */
  function LineDecoder(read: Reader, h: Handlers): Decoder<Agent>
  {
    (a: Agent, line: string) => PerformAll(h, a, PayloadEffects(read(line)))
  }

  lemma {:induction false} PerformAppend(h: Handlers, a: Agent, es: seq<Effect>, more: seq<Effect>)
    ensures var r := PerformAll(h, a, es);
            PerformAll(h, a, es + more) == if r.Failed? then r else PerformAll(h, r.state, more)
    decreases |es|
  {
    if es == [] {
      assert es + more == more;
    } else {
      assert (es + more)[1..] == es[1..] + more;
      var r := Perform(h, a, es[0]);
      if r.Continue? { PerformAppend(h, r.state, es[1..], more); }
    }
  }

  lemma PerformOne(h: Handlers, a: Agent, e: Effect)
    ensures PerformAll(h, a, [e]) == Perform(h, a, e)
  {
    var es := [e];
    assert es[1..] == [];
    var r := Perform(h, a, e);
    if r.Continue? { assert PerformAll(h, r.state, es[1..]) == r; }
  }

  lemma PerformNext(h: Handlers, a: Agent, e: Effect, rest: seq<Effect>)
    ensures var r := Perform(h, a, e);
            PerformAll(h, a, [e] + rest) == if r.Failed? then r else PerformAll(h, r.state, rest)
  {
    PerformOne(h, a, e);
    PerformAppend(h, a, [e], rest);
  }

  /** Consuming lines is performing their effects, up to the first handler that fails. */
  lemma {:induction false} LinesPerform(read: Reader, h: Handlers, a: Agent, lines: seq<string>)
    ensures ConsumeLines(LineDecoder(read, h), a, lines) == PerformAll(h, a, AllEffects(read, lines))
    decreases |lines|
  {
    if lines != [] {
      PerformAppend(h, a, LineEffects(read, lines[0]), AllEffects(read, lines[1..]));
      var r := ConsumeLine(LineDecoder(read, h), a, lines[0]);
      assert r == PerformAll(h, a, LineEffects(read, lines[0]));
      if r.Continue? { LinesPerform(read, h, r.state, lines[1..]); }
    }
  }

  // ----- what does not depend on the handlers

  /** All fields but the text, after an effect whose handler does not fail. */
  function RecallOne(m: Memory, e: Effect): Memory
  {
    match e
    case Note(change) => Remember(m, change)
    case Think(step) =>
      var text := StepText(m, step);
      if TrimSpace(text) == "" then m else m.(reasoning := m.reasoning + text)
    case _ => m
  }

  function Recall(m: Memory, es: seq<Effect>): Memory
    decreases |es|
  {
    if es == [] then m else Recall(RecallOne(m, es[0]), es[1..])
  }

  lemma {:induction false} MemoryIsRecalled(h: Handlers, a: Agent, es: seq<Effect>)
    requires PerformAll(h, a, es).Continue?
    ensures PerformAll(h, a, es).state.memory == Recall(a.memory, es)
    decreases |es|
  {
    if es != [] { MemoryIsRecalled(h, Perform(h, a, es[0]).state, es[1..]); }
  }

  lemma {:induction false} NothingFailsWithoutHandlers(a: Agent, es: seq<Effect>)
    ensures PerformAll(NO_HANDLERS, a, es).Continue? && PerformAll(NO_HANDLERS, a, es).state.calls == a.calls
    decreases |es|
  {
    if es != [] { NothingFailsWithoutHandlers(Perform(NO_HANDLERS, a, es[0]).state, es[1..]); }
  }

  // ----- the text written

  function Said(es: seq<Effect>): string
  {
    if es == [] then "" else (if es[0].Say? then es[0].text else "") + Said(es[1..])
  }

  /** The text that only a handler gets: the first text of all, unless that one is written anyway. */
  function Filled(es: seq<Effect>): string
  {
    if es == [] then ""
    else if (es[0].Say? || es[0].Fill?) && es[0].text != "" then (if es[0].Fill? then es[0].text else "")
    else Filled(es[1..])
  }

  /** What is written by the time all effects are performed. */
  function Written(h: Handlers, output: string, es: seq<Effect>): string
  {
    output + ((if h.delta && output == "" then Filled(es) else "") + Said(es))
  }

  lemma {:induction false} OutputIs(h: Handlers, a: Agent, es: seq<Effect>)
    requires PerformAll(h, a, es).Continue?
    ensures PerformAll(h, a, es).state.output == Written(h, a.output, es)
    decreases |es|
  {
    if es == [] {
      assert a.output + ("" + "") == a.output;
    } else {
      OutputIs(h, Perform(h, a, es[0]).state, es[1..]);
      WritesText(h, a, es[0]);
      OneMoreText(h, a.output, es);
    }
  }

  /** The text after one effect. */
  function Write(h: Handlers, output: string, e: Effect): string
  {
    match e
    case Say(text) => output + text
    case Fill(text) => if h.delta && output == "" then text else output
    case _ => output
  }

  lemma WritesText(h: Handlers, a: Agent, e: Effect)
    ensures Perform(h, a, e).state.output == Write(h, a.output, e)
  {
  }

  lemma OneMoreText(h: Handlers, output: string, es: seq<Effect>)
    requires es != []
    ensures Written(h, Write(h, output, es[0]), es[1..]) == Written(h, output, es)
  {
    var rest := Said(es[1..]);
    match es[0]
    case Say(text) => OneMoreSaid(h, output, text, es);
    case Fill(text) =>
      assert "" + rest == rest;
      if h.delta && output == "" { OneMoreFilled(h, text, es); }
    case _ => assert "" + rest == rest;
  }

  lemma OneMoreSaid(h: Handlers, output: string, text: string, es: seq<Effect>)
    requires es != [] && es[0] == Say(text)
    ensures Written(h, output + text, es[1..]) == Written(h, output, es)
  {
    var rest := Said(es[1..]);
    assert "" + rest == rest && "" + (text + rest) == text + rest;
    Associate(output, text, rest);
    if text == "" { assert output + text == output && text + rest == rest; }
  }

  lemma OneMoreFilled(h: Handlers, text: string, es: seq<Effect>)
    requires es != [] && es[0] == Fill(text) && h.delta
    ensures Written(h, text, es[1..]) == Written(h, "", es)
  {
    var rest := Said(es[1..]);
    assert "" + rest == rest && "" + (text + rest) == text + rest;
  }

  /** What the delta handler was given. */
  function Deltas(calls: seq<Call>): string
  {
    if calls == [] then "" else Deltas(Init(calls)) + if Last(calls).OnDelta? then Last(calls).text else ""
  }

  /** With a delta handler the text written is the text told, in every state, handlers failing or not. */
  lemma {:induction false} DeltasAreTheOutput(h: Handlers, a: Agent, es: seq<Effect>)
    requires h.delta && a.output == Deltas(a.calls)
    ensures PerformAll(h, a, es).state.output == Deltas(PerformAll(h, a, es).state.calls)
    decreases |es|
  {
    if es != [] {
      var r := Perform(h, a, es[0]);
      OneMoreCall(h, a, es[0]);
      if r.Continue? { DeltasAreTheOutput(h, r.state, es[1..]); }
    }
  }

  lemma OneMoreCall(h: Handlers, a: Agent, e: Effect)
    requires h.delta && a.output == Deltas(a.calls)
    ensures var b := Perform(h, a, e).state; b.output == Deltas(b.calls)
  {
    match e
    case Say(text) => ToldDeltas(h, h.delta, a.(output := a.output + text), OnDelta(text));
    case Fill(text) =>
      if a.output == "" {
        assert "" + text == text;
        ToldDeltas(h, true, a.(output := text), OnDelta(text));
      }
    case Think(step) => ThoughtDeltas(h, a, step);
    case Tell(text) => ToldDeltas(h, h.reasoning, a, OnReasoning(text));
    case Operate(step) => ToldDeltas(h, h.operation, a, OnOperation(OperationOf(a.memory, step)));
    case Note(_) =>
  }

  lemma ThoughtDeltas(h: Handlers, a: Agent, step: Step)
    ensures var b := Perform(h, a, Think(step)).state; b.output == a.output && Deltas(b.calls) == Deltas(a.calls)
  {
    var text := StepText(a.memory, step);
    if TrimSpace(text) != "" {
      var m := a.memory.(reasoning := a.memory.reasoning + text);
      ToldDeltas(h, h.reasoning, a.(memory := m), OnReasoning(text));
    }
  }

  lemma ToldDeltas(h: Handlers, on: bool, a: Agent, call: Call)
    ensures var b := Told(h, on, a, call).state;
            && b.output == a.output
            && Deltas(b.calls) == if on && call.OnDelta? then Deltas(a.calls) + call.text else Deltas(a.calls)
  {
    assert Deltas(a.calls) + "" == Deltas(a.calls);
    var calls := a.calls + [call];
    assert Init(calls) == a.calls && Last(calls) == call;
  }

  // ----- what a line does, by its event

  /** The fields after a line's session ids are looked at: the first id that is not blank counts, once. */
  function Met(m: Memory, ids: seq<string>): Memory
  {
    m.(sessionID := if m.sessionID != "" then m.sessionID else FirstNonEmpty(ids))
  }

  /** The fields after a usage report: positive counts replace those before; a total that is missing is the sum
      of the two counts. */
  function Counted(m: Memory, usage: Option<Tokens>): Memory
  {
    match usage
    case None => m
    case Some(Tokens(input, output, total)) =>
      m.(inputTokens := if input > 0 then input else m.inputTokens,
         outputTokens := if output > 0 then output else m.outputTokens,
         totalTokens := if total > 0 then total
                        else if total == 0 && WrapInt64(input + output) > 0 then WrapInt64(input + output)
                        else m.totalTokens)
  }

  function AfterLine(h: Handlers, a: Agent, p: Payload): Outcome<Agent>
  {
    PerformAll(h, a, PayloadEffects(Some(p)))
  }

  lemma NoteFirst(h: Handlers, a: Agent, change: Change, rest: seq<Effect>)
    ensures PerformAll(h, a, [Note(change)] + rest) ==
            PerformAll(h, a.(memory := Remember(a.memory, change)), rest)
  {
    PerformNext(h, a, Note(change), rest);
  }

  lemma PerformIf(h: Handlers, a: Agent, condition: bool, change: Change, rest: seq<Effect>)
    ensures PerformAll(h, a, If(condition, [Note(change)]) + rest) ==
            PerformAll(h, if condition then a.(memory := Remember(a.memory, change)) else a, rest)
  {
    if condition {
      NoteFirst(h, a, change, rest);
    } else {
      var none: seq<Effect> := [];
      assert none + rest == rest;
    }
  }

  lemma LineStarts(h: Handlers, a: Agent, p: Payload)
    ensures AfterLine(h, a, p) == PerformAll(h, a.(memory := Met(a.memory, p.ids)), EventEffects(p.event))
  {
    NoteFirst(h, a, Capture(p.ids), EventEffects(p.event));
  }

  function Heard(calls: seq<Call>, on: bool, call: Call): seq<Call>
  {
    if on then calls + [call] else calls
  }

  /** A line with answer text writes that text and tells it; of the other fields it can only set the session. */
  lemma AnswerLine(h: Handlers, a: Agent, p: Payload, text: string)
    requires || (p.event.TextDelta? && text == TrimSpace(p.event.delta))
             || p.event == BlockTextDelta(text)
             || p.event == MessageDelta("", text)
             || (p.event.Plain? && text == FirstNonEmpty(p.event.texts))
    ensures AfterLine(h, a, p).state ==
            Agent(a.output + text, Met(a.memory, p.ids), Heard(a.calls, text != "" && h.delta, OnDelta(text)))
  {
    LineStarts(h, a, p);
    assert a.output + "" == a.output;
    if text != "" {
      PerformOne(h, a.(memory := Met(a.memory, p.ids)), Say(text));
      assert EventEffects(p.event) == [Say(text)];
    }
  }

  /** `a` after a thought: added to the reasoning and told, unless it is blank. */
  function AfterThought(h: Handlers, a: Agent, text: string): Agent
  {
    if AllSpace(text) then a
    else a.(memory := a.memory.(reasoning := a.memory.reasoning + text),
            calls := Heard(a.calls, h.reasoning, OnReasoning(text)))
  }

  lemma OneThought(h: Handlers, a: Agent, text: string)
    ensures PerformAll(h, a, [Think(Words(text))]).state == AfterThought(h, a, text)
  {
    var left, right := TrimSpaceSplits(text);
    PerformOne(h, a, Think(Words(text)));
  }

  /** A line with a piece of reasoning adds exactly that to the reasoning: the text and the final text stay, and
      no delta is told. */
  lemma ThoughtLine(h: Handlers, a: Agent, p: Payload, text: string)
    requires || (p.event.ThinkingDelta? && text == FirstNonEmpty(p.event.texts))
             || (p.event.MessageDelta? && text == p.event.reasoning != "")
             || (p.event.ItemNews? && !p.event.completed && p.event.item.reasoning
                 && text == p.event.item.reasoningText)
    ensures AfterLine(h, a, p).state == AfterThought(h, a.(memory := Met(a.memory, p.ids)), text)
  {
    LineStarts(h, a, p);
    OneThought(h, a.(memory := Met(a.memory, p.ids)), text);
    if text != "" { assert EventEffects(p.event) == [Think(Words(text))]; }
  }

  /** So does a complete reasoning item, which moreover is the final reasoning. */
  lemma ThoughtNewsLine(h: Handlers, a: Agent, p: Payload, text: string)
    requires text != "" && p.event.ItemNews? && p.event.completed && p.event.item.reasoning
    requires text == p.event.item.reasoningText
    ensures AfterLine(h, a, p).state ==
            AfterThought(h, a.(memory := Met(a.memory, p.ids).(finalReasoning := text)), text)
  {
    LineStarts(h, a, p);
    var b := a.(memory := Met(a.memory, p.ids));
    NoteFirst(h, b, Reflection(text), [Think(Words(text))]);
    OneThought(h, b.(memory := b.memory.(finalReasoning := text)), text);
  }

  /** And one among the output, which is the final reasoning if it is done and there is none yet. */
  lemma ThoughtItemLine(h: Handlers, a: Agent, p: Payload, text: string)
    requires text != "" && p.event.OutputItem? && p.event.item.reasoning && text == p.event.item.reasoningText
    ensures var m := Met(a.memory, p.ids);
            var final := if p.event.done then FirstNonEmpty([m.finalReasoning, text]) else m.finalReasoning;
            AfterLine(h, a, p).state == AfterThought(h, a.(memory := m.(finalReasoning := final)), text)
  {
    LineStarts(h, a, p);
    var b := a.(memory := Met(a.memory, p.ids));
    var final := FirstNonEmpty([b.memory.finalReasoning, text]);
    PerformIf(h, b, p.event.done, ReflectionIfNone(text), [Think(Words(text))]);
    OneThought(h, if p.event.done then b.(memory := b.memory.(finalReasoning := final)) else b, text);
  }

  /** `a` after text that only a handler gets, and only if there was none before. */
  function AfterOffer(h: Handlers, a: Agent, text: string): Agent
  {
    if h.delta && a.output == "" then a.(output := text, calls := a.calls + [OnDelta(text)]) else a
  }

  lemma OneOffer(h: Handlers, a: Agent, text: string)
    ensures PerformAll(h, a, [Fill(text)]).state == AfterOffer(h, a, text)
  {
    PerformOne(h, a, Fill(text));
  }

  /** A line with a complete text makes it the final one and offers it; the reasoning stays. */
  lemma FinalLine(h: Handlers, a: Agent, p: Payload, text: string)
    requires text != ""
    requires || (p.event.TextDone? && text == FirstNonEmpty(p.event.texts))
             || (p.event.ItemNews? && p.event.completed && !p.event.item.reasoning
                 && text == p.event.item.assistantText)
    ensures AfterLine(h, a, p).state ==
            AfterOffer(h, a.(memory := Met(a.memory, p.ids).(finalOutput := text)), text)
  {
    LineStarts(h, a, p);
    var b := a.(memory := Met(a.memory, p.ids));
    NoteFirst(h, b, Final(text), [Fill(text)]);
    OneOffer(h, b.(memory := b.memory.(finalOutput := text)), text);
  }

  /** A line with a part of the content or an output item offers its text and, when it is done, makes it the
      final one unless there is one already; the reasoning stays. */
  lemma PartLine(h: Handlers, a: Agent, p: Payload, text: string, done: bool)
    requires text != ""
    requires || (p.event.ContentPart? && p.event.isText && text == FirstNonEmpty(p.event.texts) && done == p.event.done)
             || (p.event.OutputItem? && (p.event.item.reasoning ==> p.event.item.reasoningText == "")
                 && text == p.event.item.assistantText && done == p.event.done)
    ensures var m := Met(a.memory, p.ids);
            var final := if done then FirstNonEmpty([m.finalOutput, text]) else m.finalOutput;
            AfterLine(h, a, p).state == AfterOffer(h, a.(memory := m.(finalOutput := final)), text)
  {
    LineStarts(h, a, p);
    var b := a.(memory := Met(a.memory, p.ids));
    var final := FirstNonEmpty([b.memory.finalOutput, text]);
    PerformIf(h, b, done, FinalIfNone(text), [Fill(text)]);
    OneOffer(h, if done then b.(memory := b.memory.(finalOutput := final)) else b, text);
  }

  /** The end of a turn: its usage is counted, and its reason to finish, or the one before, is kept. */
  lemma TurnLine(h: Handlers, a: Agent, p: Payload)
    requires p.event.TurnCompleted?
    ensures var m := Met(a.memory, p.ids);
            AfterLine(h, a, p) == Continue(a.(memory := Counted(m, p.event.usage).(finishReason :=
              FirstNonEmpty([p.event.reason, m.finishReason, "stop"]))))
  {
    LineStarts(h, a, p);
    var b, finish := a.(memory := Met(a.memory, p.ids)), Finish([p.event.reason], ["stop"]);
    PerformAppend(h, b, UsageEffects(p.event.usage), [Note(finish)]);
    CountedIs(h, b, p.event.usage);
    PerformOne(h, b.(memory := Counted(b.memory, p.event.usage)), Note(finish));
    assert [p.event.reason] + ([b.memory.finishReason] + ["stop"]) == [p.event.reason, b.memory.finishReason, "stop"];
  }

  /** Lines without a text of theirs: nothing is written or told, and the fields they set are these. */
  lemma QuietLine(h: Handlers, a: Agent, p: Payload)
    requires p.event.Failure? || p.event.StopDelta? || p.event.SystemInit? || p.event.Silent?
    ensures var m := Met(a.memory, p.ids);
            AfterLine(h, a, p) == Continue(a.(memory :=
              match p.event
              case Failure(messages) => m.(errMessage := FirstNonEmpty(messages + ["codex execution failed"]))
              case StopDelta(reason) => m.(finishReason := FirstNonEmpty([reason, m.finishReason]))
              case SystemInit(id) => m.(sessionID := FirstNonEmpty([id, m.sessionID]))
              case _ => m))
  {
    LineStarts(h, a, p);
    var b := a.(memory := Met(a.memory, p.ids));
    match p.event
    case Failure(messages) => PerformOne(h, b, Note(Fail(messages + ["codex execution failed"])));
    case StopDelta(reason) =>
      PerformOne(h, b, Note(Finish([reason], [])));
      assert [reason] + ([b.memory.finishReason] + []) == [reason, b.memory.finishReason];
    case SystemInit(id) => PerformOne(h, b, Note(Connect(id)));
    case _ =>
  }

  lemma CountedIs(h: Handlers, a: Agent, usage: Option<Tokens>)
    ensures PerformAll(h, a, UsageEffects(usage)) == Continue(a.(memory := Counted(a.memory, usage)))
  {
    if usage.Some? { PerformOne(h, a, Note(Count(usage.value))); }
  }

  /** The closing line: its text is the final one, its subtype a reason to finish if there is none yet, and an
      error is told by its own text, or by the result's. */
  lemma ResultLine(h: Handlers, a: Agent, p: Payload)
    requires p.event.Result?
    ensures var m, e := Met(a.memory, p.ids), p.event;
            AfterLine(h, a, p) == Continue(a.(memory := m.(
              finalOutput := if TrimSpace(e.text) != "" then TrimSpace(e.text) else m.finalOutput,
              finishReason := if m.finishReason != "" then m.finishReason else TrimSpace(e.subtype),
              durationMS := if e.durationMS > 0 then e.durationMS else m.durationMS,
              errMessage := if e.isError then FirstNonEmpty([e.error, e.text, "codex execution failed"])
                            else m.errMessage)))
  {
    LineStarts(h, a, p);
    var e, b := p.event, a.(memory := Met(a.memory, p.ids));
    var text := TrimSpace(e.text);
    PerformIf(h, b, text != "", Final(text), AfterFinal(e));
    AfterFinalIs(h, if text != "" then b.(memory := b.memory.(finalOutput := text)) else b, e);
  }

  /** The effects of a closing line after those of its text. */
  function AfterFinal(e: Event): seq<Effect>
    requires e.Result?
  {
    If(TrimSpace(e.subtype) != "", [Note(FinishIfNot([e.subtype]))]) + AfterReason(e)
  }

  function AfterReason(e: Event): seq<Effect>
    requires e.Result?
  {
    [Note(Lasted(e.durationMS))] + If(e.isError, [Note(Fail([e.error, e.text, "codex execution failed"]))])
  }

  lemma AfterFinalIs(h: Handlers, a: Agent, e: Event)
    requires e.Result?
    ensures PerformAll(h, a, AfterFinal(e)) == Continue(a.(memory := a.memory.(
              finishReason := if a.memory.finishReason != "" then a.memory.finishReason else TrimSpace(e.subtype),
              durationMS := if e.durationMS > 0 then e.durationMS else a.memory.durationMS,
              errMessage := if e.isError then FirstNonEmpty([e.error, e.text, "codex execution failed"])
                            else a.memory.errMessage)))
  {
    assert FirstNonEmpty([e.subtype]) == TrimSpace(e.subtype);
    PerformIf(h, a, TrimSpace(e.subtype) != "", FinishIfNot([e.subtype]), AfterReason(e));
    var m := a.memory;
    AfterReasonIs(h, a.(memory := m.(finishReason := if m.finishReason != "" then m.finishReason
                                                     else TrimSpace(e.subtype))), e);
  }

  lemma AfterReasonIs(h: Handlers, a: Agent, e: Event)
    requires e.Result?
    ensures PerformAll(h, a, AfterReason(e)) == Continue(a.(memory := a.memory.(
              durationMS := if e.durationMS > 0 then e.durationMS else a.memory.durationMS,
              errMessage := if e.isError then FirstNonEmpty([e.error, e.text, "codex execution failed"])
                            else a.memory.errMessage)))
  {
    var failure := If(e.isError, [Note(Fail([e.error, e.text, "codex execution failed"]))]);
    NoteFirst(h, a, Lasted(e.durationMS), failure);
    if e.isError { PerformOne(h, a.(memory := Remember(a.memory, Lasted(e.durationMS))), failure[0]); }
  }

  /** Texts that are missing or not looked at: only the session can be set. */
  lemma EmptyLine(h: Handlers, a: Agent, p: Payload)
    requires || (p.event.TextDone? && FirstNonEmpty(p.event.texts) == "")
             || (p.event.ContentPart? && (!p.event.isText || FirstNonEmpty(p.event.texts) == ""))
             || (p.event.ItemNews? && !p.event.item.reasoning
                 && (!p.event.completed || p.event.item.assistantText == ""))
             || (p.event.ItemNews? && p.event.item.reasoning && p.event.item.reasoningText == "")
             || (p.event.OutputItem? && (p.event.item.reasoning ==> p.event.item.reasoningText == "")
                 && p.event.item.assistantText == "")
    ensures AfterLine(h, a, p) == Continue(a.(memory := Met(a.memory, p.ids)))
  {
    LineStarts(h, a, p);
    if p.event.ItemNews? && p.event.item.reasoning {
      var none: seq<Effect> := [];
      assert none + [Think(Words(""))] == [Think(Words(""))];
      PerformOne(h, a.(memory := Met(a.memory, p.ids)), Think(Words("")));
      TrimmedIsFixed("");
    }
  }

  // ----- the texts of messages, responses and whole streams

  lemma {:induction false} SaidAppend(es: seq<Effect>, more: seq<Effect>)
    ensures Said(es + more) == Said(es) + Said(more)
  {
    if es == [] {
      assert es + more == more;
    } else {
      assert (es + more)[1..] == es[1..] + more;
      SaidAppend(es[1..], more);
      var text := if es[0].Say? then es[0].text else "";
      Associate(text, Said(es[1..]), Said(more));
    }
  }

  lemma {:induction false} RecallAppend(m: Memory, es: seq<Effect>, more: seq<Effect>)
    ensures Recall(m, es + more) == Recall(Recall(m, es), more)
    decreases |es|
  {
    if es == [] {
      assert es + more == more;
    } else {
      assert (es + more)[1..] == es[1..] + more;
      RecallAppend(RecallOne(m, es[0]), es[1..], more);
    }
  }

  /** What the text blocks of a message say. */
  function SpokenIn(blocks: seq<Block>): string
  {
    if blocks == [] then ""
    else (if blocks[0].TextBlock? then FirstNonEmpty(blocks[0].texts) else "") + SpokenIn(blocks[1..])
  }

  /** The tools named in a message, and what its other blocks add to the reasoning. */
  function NamesAfter(names: map<string, string>, b: Block): map<string, string>
  {
    if b.ToolUse? && TrimSpace(b.id) != ""
    then names[TrimSpace(b.id) := if TrimSpace(b.name) != "" then TrimSpace(b.name) else "tool"] else names
  }

  function ThoughtIn(names: map<string, string>, b: Block, fromUser: bool): string
  {
    if fromUser then
      match b
      case ToolResult(id, failed, summary) =>
        var known := TrimSpace(id) != "" && TrimSpace(id) in names && TrimSpace(names[TrimSpace(id)]) != "";
        var did := "- Tool " + (if known then TrimSpace(names[TrimSpace(id)]) else "tool")
                   + (if failed then " failed" else " completed");
        if TrimSpace(summary) == "" then did + ".\n" else did + ": " + TrimSpace(summary) + "\n"
      case _ => ""
    else
      match b
      case ThinkingBlock(texts) => FirstNonEmpty(texts)
      case ToolUse(id, name, detail) =>
        var tool := "- Tool " + if TrimSpace(name) != "" then TrimSpace(name) else "tool";
        if detail == "" then tool + " started.\n" else tool + ": " + detail + "\n"
      case _ => ""
  }

  function NamesOf(names: map<string, string>, blocks: seq<Block>, fromUser: bool): map<string, string>
    decreases |blocks|
  {
    if blocks == [] then names
    else NamesOf(if fromUser then names else NamesAfter(names, blocks[0]), blocks[1..], fromUser)
  }

  function ThoughtsIn(names: map<string, string>, blocks: seq<Block>, fromUser: bool): string
    decreases |blocks|
  {
    if blocks == [] then ""
    else ThoughtIn(names, blocks[0], fromUser)
         + ThoughtsIn(if fromUser then names else NamesAfter(names, blocks[0]), blocks[1..], fromUser)
  }

  lemma StepIsNotBlank(text: string)
    requires text != "" && text[0] == '-'
    ensures TrimSpace(text) != ""
  {
    var left, right := TrimSpaceSplits(text);
    assert !IsSpace(text[0]);
  }

  lemma UseText(m: Memory, id: string, name: string, detail: string)
    ensures var text := ThoughtIn(m.toolNames, ToolUse(id, name, detail), false);
            StepText(m, Started(TrimSpace(id), NameOf(name), detail)) == text && TrimSpace(text) != ""
  {
    StepIsNotBlank(ThoughtIn(m.toolNames, ToolUse(id, name, detail), false));
  }

  lemma FirstOrTool(name: string)
    ensures FirstNonEmpty([name, "tool"]) == if TrimSpace(name) != "" then TrimSpace(name) else "tool"
    ensures TrimSpace("") == ""
  {
    TrimmedIsFixed("");
    TrimmedIsFixed("tool");
    assert [name, "tool"][1..] == ["tool"];
  }

  lemma EndText(m: Memory, id: string, failed: bool, summary: string)
    ensures var text := ThoughtIn(m.toolNames, ToolResult(id, failed, summary), true);
            StepText(m, Ended(TrimSpace(id), failed, TrimSpace(summary))) == text && TrimSpace(text) != ""
  {
    var tool := TrimSpace(id);
    FirstOrTool(if tool != "" && tool in m.toolNames then m.toolNames[tool] else "");
    StepIsNotBlank(ThoughtIn(m.toolNames, ToolResult(id, failed, summary), true));
  }

  lemma {:induction false} MessageTexts(m: Memory, blocks: seq<Block>, fromUser: bool)
    ensures Said(BlockEffects(blocks, fromUser)) == if fromUser then "" else SpokenIn(blocks)
    ensures Recall(m, BlockEffects(blocks, fromUser)) ==
            m.(reasoning := m.reasoning + ThoughtsIn(m.toolNames, blocks, fromUser),
               toolNames := NamesOf(m.toolNames, blocks, fromUser))
    decreases |blocks|
  {
    if blocks == [] {
      assert m.reasoning + "" == m.reasoning;
    } else {
      var here := if fromUser then UserBlock(blocks[0]) else AssistantBlock(blocks[0]);
      var rest := BlockEffects(blocks[1..], fromUser);
      SaidAppend(here, rest);
      RecallAppend(m, here, rest);
      BlockTexts(m, blocks[0], fromUser);
      MessageTexts(Recall(m, here), blocks[1..], fromUser);
      Associate(m.reasoning, ThoughtIn(m.toolNames, blocks[0], fromUser),
                ThoughtsIn(Recall(m, here).toolNames, blocks[1..], fromUser));
    }
  }

  lemma BlockTexts(m: Memory, b: Block, fromUser: bool)
    ensures var es := if fromUser then UserBlock(b) else AssistantBlock(b);
            && Said(es) == (if !fromUser && b.TextBlock? then FirstNonEmpty(b.texts) else "")
            && Recall(m, es) == m.(reasoning := m.reasoning + ThoughtIn(m.toolNames, b, fromUser),
                                   toolNames := if fromUser then m.toolNames else NamesAfter(m.toolNames, b))
  {
    assert m.reasoning + "" == m.reasoning;
    match b
    case ToolUse(id, name, detail) => if !fromUser { UseTexts(m, id, name, detail); }
    case ToolResult(id, failed, summary) => if fromUser { EndTexts(m, id, failed, summary); }
    case ThinkingBlock(texts) => if !fromUser { FirstIsTrimmed(texts); ThinkTexts(m, FirstNonEmpty(texts)); }
    case TextBlock(texts) => if !fromUser { SayTexts(m, FirstNonEmpty(texts)); }
    case OtherBlock =>
  }

  lemma SayTexts(m: Memory, text: string)
    ensures Said(If(text != "", [Say(text)])) == text && Recall(m, If(text != "", [Say(text)])) == m
  {
    assert [Say(text)][1..] == [];
    assert text + "" == text;
  }

  lemma ThinkTexts(m: Memory, text: string)
    ensures var es := [Think(Words(text))];
            && Said(es) == ""
            && Recall(m, es) == m.(reasoning := m.reasoning + if TrimSpace(text) != "" then text else "")
    ensures text == "" ==> m.(reasoning := m.reasoning + text) == m
  {
    assert [Think(Words(text))][1..] == [];
    assert m.reasoning + "" == m.reasoning && "" + "" == "";
  }

  lemma StepTexts(m: Memory, step: Step)
    ensures var es := [Think(step), Operate(step)]; Said(es) == "" && Recall(m, es) == RecallOne(m, Think(step))
  {
    var es := [Think(step), Operate(step)];
    assert es[1..] == [Operate(step)] && es[1..][1..] == [];
    assert Said(es[1..]) == "" + "" == "";
    assert Recall(RecallOne(m, Think(step)), es[1..]) == RecallOne(m, Think(step));
  }

  lemma UseTexts(m: Memory, id: string, name: string, detail: string)
    ensures var b := ToolUse(id, name, detail);
            && Said(AssistantBlock(b)) == ""
            && Recall(m, AssistantBlock(b)) ==
               m.(reasoning := m.reasoning + ThoughtIn(m.toolNames, b, false), toolNames := NamesAfter(m.toolNames, b))
  {
    var step := Started(TrimSpace(id), NameOf(name), detail);
    var es := [Note(NameTool(step.id, step.name)), Think(step), Operate(step)];
    assert es[1..] == [Think(step), Operate(step)];
    var named := RecallOne(m, es[0]);
    UseText(m, id, name, detail);
    StepTexts(named, step);
  }

  lemma EndTexts(m: Memory, id: string, failed: bool, summary: string)
    ensures var b := ToolResult(id, failed, summary);
            && Said(UserBlock(b)) == ""
            && Recall(m, UserBlock(b)) == m.(reasoning := m.reasoning + ThoughtIn(m.toolNames, b, true))
  {
    var step := Ended(TrimSpace(id), failed, TrimSpace(summary));
    EndText(m, id, failed, summary);
    StepTexts(m, step);
  }

  ghost predicate NoFill(es: seq<Effect>)
  {
    forall i :: 0 <= i < |es| ==> !es[i].Fill?
  }

  lemma {:induction false} NothingFilled(es: seq<Effect>)
    requires NoFill(es)
    ensures Filled(es) == ""
  {
    if es != [] { NothingFilled(es[1..]); }
  }

  lemma {:induction false} BlocksFillNothing(blocks: seq<Block>, fromUser: bool)
    ensures NoFill(BlockEffects(blocks, fromUser))
  {
    if blocks != [] {
      BlocksFillNothing(blocks[1..], fromUser);
      assert NoFill(if fromUser then UserBlock(blocks[0]) else AssistantBlock(blocks[0]));
    }
  }

  /** What a line leaves when no handler fails. */
  lemma LineIs(h: Handlers, a: Agent, p: Payload)
    requires AfterLine(h, a, p).Continue?
    ensures var es, m := EventEffects(p.event), Met(a.memory, p.ids);
            && AfterLine(h, a, p).state.memory == Recall(m, es)
            && AfterLine(h, a, p).state.output ==
               a.output + ((if h.delta && a.output == "" then Filled(es) else "") + Said(es))
  {
    LineStarts(h, a, p);
    var b := a.(memory := Met(a.memory, p.ids));
    MemoryIsRecalled(h, b, EventEffects(p.event));
    OutputIs(h, b, EventEffects(p.event));
  }

  /** An assistant message: its text blocks go to the answer, its thoughts and tools to the reasoning. */
  lemma AssistantLine(h: Handlers, a: Agent, p: Payload)
    requires p.event.Assistant? && AfterLine(h, a, p).Continue?
    ensures var e, m := p.event, Met(Met(a.memory, p.ids), p.event.ids);
            && AfterLine(h, a, p).state.output == a.output + SpokenIn(e.blocks)
            && AfterLine(h, a, p).state.memory ==
               Counted(m.(reasoning := m.reasoning + ThoughtsIn(m.toolNames, e.blocks, false),
                          toolNames := NamesOf(m.toolNames, e.blocks, false)), e.usage)
               .(finishReason := FirstNonEmpty([e.stopReason, m.finishReason]))
  {
    LineIs(h, a, p);
    AssistantTexts(p.event);
    AssistantMemory(Met(a.memory, p.ids), p.event);
    assert "" + SpokenIn(p.event.blocks) == SpokenIn(p.event.blocks);
  }

  lemma AssistantTexts(e: Event)
    requires e.Assistant?
    ensures Said(EventEffects(e)) == SpokenIn(e.blocks) && Filled(EventEffects(e)) == ""
  {
    var first, blocks := [Note(Capture(e.ids))], BlockEffects(e.blocks, false);
    var last := UsageEffects(e.usage) + [Note(Finish([e.stopReason], []))];
    BlocksFillNothing(e.blocks, false);
    NothingFilled(first + blocks + last);
    SaidAppend(first + blocks, last);
    SaidAppend(first, blocks);
    NothingSaid(first);
    NothingSaid(last);
    MessageTexts(FORGOTTEN, e.blocks, false);
    assert "" + SpokenIn(e.blocks) + "" == SpokenIn(e.blocks);
  }

  lemma AssistantMemory(m: Memory, e: Event)
    requires e.Assistant?
    ensures var n := Met(m, e.ids);
            Recall(m, EventEffects(e)) ==
            Counted(n.(reasoning := n.reasoning + ThoughtsIn(n.toolNames, e.blocks, false),
                       toolNames := NamesOf(n.toolNames, e.blocks, false)), e.usage)
            .(finishReason := FirstNonEmpty([e.stopReason, n.finishReason]))
  {
    var first, blocks := [Note(Capture(e.ids))], BlockEffects(e.blocks, false);
    var last := UsageEffects(e.usage) + [Note(Finish([e.stopReason], []))];
    RecallAppend(m, first + blocks, last);
    RecallAppend(m, first, blocks);
    RecallNote(m, Capture(e.ids));
    var n := Met(m, e.ids);
    MessageTexts(n, e.blocks, false);
    UsageAndReason(Recall(n, blocks), e.usage, [e.stopReason], []);
    assert [e.stopReason] + ([n.finishReason] + []) == [e.stopReason, n.finishReason];
  }

  lemma RecallNote(m: Memory, change: Change)
    ensures Recall(m, [Note(change)]) == Remember(m, change)
  {
    assert [Note(change)][1..] == [];
  }

  lemma RecallUsage(m: Memory, usage: Option<Tokens>)
    ensures Recall(m, UsageEffects(usage)) == Counted(m, usage)
    ensures Counted(m, usage).finishReason == m.finishReason
  {
    if usage.Some? { RecallNote(m, Count(usage.value)); }
  }

  lemma RecallPair(m: Memory, change: Change, e: Effect, rest: seq<Effect>)
    requires e.Fill? || e.Tell?
    ensures var es := [Note(change), e] + rest;
            && Recall(m, es) == Recall(Remember(m, change), rest)
            && Said(es) == Said(rest)
            && Filled(es) == (if e.Fill? && e.text != "" then e.text else Filled(rest))
  {
    var es := [Note(change), e] + rest;
    assert es[1..] == [e] + rest && es[1..][1..] == rest;
    assert Said(es[1..]) == "" + Said(rest) == Said(rest);
    assert Recall(Remember(m, change), es[1..]) == Recall(Remember(m, change), rest);
    assert Filled(es) == Filled(es[1..]);
  }

  lemma {:induction false} NothingSaid(es: seq<Effect>)
    requires forall i :: 0 <= i < |es| ==> !es[i].Say?
    ensures Said(es) == ""
  {
    if es != [] { NothingSaid(es[1..]); }
  }

  lemma UsageAndReason(m: Memory, usage: Option<Tokens>, first: seq<string>, last: seq<string>)
    ensures var es := UsageEffects(usage) + [Note(Finish(first, last))];
            Recall(m, es) ==
            Counted(m, usage).(finishReason := FirstNonEmpty(first + ([m.finishReason] + last)))
  {
    RecallAppend(m, UsageEffects(usage), [Note(Finish(first, last))]);
    RecallUsage(m, usage);
    RecallNote(Counted(m, usage), Finish(first, last));
  }

  /** A user message: only the results of tools count, for the reasoning. */
  lemma UserLine(h: Handlers, a: Agent, p: Payload)
    requires p.event.User? && AfterLine(h, a, p).Continue?
    ensures var e, m := p.event, Met(a.memory, p.ids);
            && AfterLine(h, a, p).state.output == a.output
            && AfterLine(h, a, p).state.memory ==
               m.(reasoning := m.reasoning + ThoughtsIn(m.toolNames, e.blocks, true))
  {
    LineIs(h, a, p);
    BlocksFillNothing(p.event.blocks, true);
    NothingFilled(BlockEffects(p.event.blocks, true));
    MessageTexts(Met(a.memory, p.ids), p.event.blocks, true);
    SameNames(Met(a.memory, p.ids).toolNames, p.event.blocks);
    assert a.output + ("" + "") == a.output;
  }

  lemma {:induction false} SameNames(names: map<string, string>, blocks: seq<Block>)
    ensures NamesOf(names, blocks, true) == names
  {
    if blocks != [] { SameNames(names, blocks[1..]); }
  }

  /** The texts that are not blank: all of them, and the first. */
  function Shown(texts: seq<string>): string
  {
    if texts == [] then "" else (if AllSpace(texts[0]) then "" else texts[0]) + Shown(texts[1..])
  }

  function FirstShown(texts: seq<string>): string
  {
    if texts == [] then "" else if AllSpace(texts[0]) then FirstShown(texts[1..]) else texts[0]
  }

  lemma FinalTextsStep(texts: seq<string>)
    requires texts != []
    ensures FinalTexts(texts) ==
            if AllSpace(texts[0]) then FinalTexts(texts[1..])
            else [Note(FinalMore(texts[0])), Fill(texts[0])] + FinalTexts(texts[1..])
    ensures Shown(texts) == (if AllSpace(texts[0]) then "" else texts[0]) + Shown(texts[1..])
    ensures AllSpace(texts[0]) ==> Shown(texts) == Shown(texts[1..])
  {
    var left, right := TrimSpaceSplits(texts[0]);
    NoText(FinalTexts(texts[1..]));
    NoText(Shown(texts[1..]));
  }

  lemma {:induction false} FinalTextsAre(m: Memory, texts: seq<string>)
    ensures Said(FinalTexts(texts)) == ""
    ensures Filled(FinalTexts(texts)) == FirstShown(texts)
    ensures Recall(m, FinalTexts(texts)) == m.(finalOutput := m.finalOutput + Shown(texts))
    decreases |texts|
  {
    if texts == [] {
      NoText(m.finalOutput);
    } else {
      FinalTextsStep(texts);
      if AllSpace(texts[0]) {
        FinalTextsAre(m, texts[1..]);
      } else {
        var n := Remember(m, FinalMore(texts[0]));
        RecallPair(m, FinalMore(texts[0]), Fill(texts[0]), FinalTexts(texts[1..]));
        FinalTextsAre(n, texts[1..]);
        Associate(m.finalOutput, texts[0], Shown(texts[1..]));
        assert n.finalOutput + Shown(texts[1..]) == m.finalOutput + Shown(texts);
      }
    }
  }

  lemma FinalReasoningsStep(texts: seq<string>)
    requires texts != []
    ensures FinalReasonings(texts) ==
            if AllSpace(texts[0]) then FinalReasonings(texts[1..])
            else [Note(ReflectionMore(texts[0])), Tell(texts[0])] + FinalReasonings(texts[1..])
    ensures Shown(texts) == (if AllSpace(texts[0]) then "" else texts[0]) + Shown(texts[1..])
    ensures AllSpace(texts[0]) ==> Shown(texts) == Shown(texts[1..])
  {
    var left, right := TrimSpaceSplits(texts[0]);
    NoText(FinalReasonings(texts[1..]));
    NoText(Shown(texts[1..]));
  }

  lemma {:induction false} FinalReasoningsAre(m: Memory, texts: seq<string>)
    ensures Recall(m, FinalReasonings(texts)) == m.(finalReasoning := m.finalReasoning + Shown(texts))
    decreases |texts|
  {
    if texts == [] {
      NoText(m.finalReasoning);
    } else {
      FinalReasoningsStep(texts);
      if AllSpace(texts[0]) {
        FinalReasoningsAre(m, texts[1..]);
      } else {
        var n := Remember(m, ReflectionMore(texts[0]));
        RecallPair(m, ReflectionMore(texts[0]), Tell(texts[0]), FinalReasonings(texts[1..]));
        FinalReasoningsAre(n, texts[1..]);
        Associate(m.finalReasoning, texts[0], Shown(texts[1..]));
        assert n.finalReasoning + Shown(texts[1..]) == m.finalReasoning + Shown(texts);
      }
    }
  }

  /** Effects without texts in front of others. */
  lemma {:induction false} FilledAfter(es: seq<Effect>, more: seq<Effect>)
    requires NoFill(es) && forall i :: 0 <= i < |es| ==> !es[i].Say?
    ensures Filled(es + more) == Filled(more)
  {
    if es == [] {
      assert es + more == more;
    } else {
      assert (es + more)[1..] == es[1..] + more;
      FilledAfter(es[1..], more);
    }
  }

  lemma {:induction false} FilledBefore(es: seq<Effect>, more: seq<Effect>)
    requires NoFill(more) && forall i :: 0 <= i < |es| ==> !es[i].Say?
    ensures Filled(es + more) == Filled(es)
  {
    if es == [] {
      assert es + more == more;
      NothingFilled(more);
    } else {
      assert (es + more)[1..] == es[1..] + more;
      FilledBefore(es[1..], more);
    }
  }

  /** The texts of a complete response: its output adds to the final text and is offered, its reasoning adds to
      the final reasoning; neither goes to the text or the reasoning otherwise. */
  lemma ResponseLine(h: Handlers, a: Agent, p: Payload)
    requires p.event.ResponseCompleted? && p.event.response.Some? && AfterLine(h, a, p).Continue?
    ensures var r, reason, m := p.event.response.value, p.event.reason, Met(a.memory, p.ids);
            var n := Counted(Met(m, r.ids), r.usage);
            var finish := FirstNonEmpty(r.reasons + [m.finishReason]);
            && AfterLine(h, a, p).state.output ==
               a.output + (if h.delta && a.output == "" then FirstShown(r.texts) else "")
            && AfterLine(h, a, p).state.memory ==
               n.(finalOutput := n.finalOutput + Shown(r.texts),
                  finalReasoning := n.finalReasoning + Shown(r.reasonings),
                  finishReason := if finish != "" then finish else FirstNonEmpty([reason, "stop"]))
  {
    LineIs(h, a, p);
    ResponseTexts(p.event);
    ResponseMemory(Met(a.memory, p.ids), p.event);
    NoText(FirstShown(p.event.response.value.texts));
  }

  lemma ResponseTexts(e: Event)
    requires e.ResponseCompleted? && e.response.Some?
    ensures Said(EventEffects(e)) == "" && Filled(EventEffects(e)) == FirstShown(e.response.value.texts)
  {
    var r := e.response.value;
    var head := [Note(Capture(r.ids)), Note(Finish(r.reasons, []))] + UsageEffects(r.usage);
    var body, last := FinalTexts(r.texts) + FinalReasonings(r.reasonings), [Note(FinishIfNot([e.reason, "stop"]))];
    assert EventEffects(e) == head + body + last;
    BodyTexts(r);
    NothingSaid(head + body + last);
    FilledBefore(head + body, last);
    FilledAfter(head, body);
  }

  lemma BodyTexts(r: Response)
    ensures var body := FinalTexts(r.texts) + FinalReasonings(r.reasonings);
            && Filled(body) == FirstShown(r.texts)
            && forall i :: 0 <= i < |body| ==> !body[i].Say?
  {
    FinalTextsAre(FORGOTTEN, r.texts);
    TextsSayNothing(r.texts);
    ReasoningsSayNothing(r.reasonings);
    FilledBefore(FinalTexts(r.texts), FinalReasonings(r.reasonings));
  }

  lemma {:induction false} TextsSayNothing(texts: seq<string>)
    ensures forall i :: 0 <= i < |FinalTexts(texts)| ==> !FinalTexts(texts)[i].Say?
  {
    if texts != [] {
      FinalTextsStep(texts);
      TextsSayNothing(texts[1..]);
    }
  }

  lemma {:induction false} ReasoningsSayNothing(texts: seq<string>)
    ensures forall i :: 0 <= i < |FinalReasonings(texts)| ==>
              !FinalReasonings(texts)[i].Say? && !FinalReasonings(texts)[i].Fill?
  {
    if texts != [] {
      FinalReasoningsStep(texts);
      ReasoningsSayNothing(texts[1..]);
    }
  }

  lemma ResponseMemory(m: Memory, e: Event)
    requires e.ResponseCompleted? && e.response.Some?
    ensures var r := e.response.value;
            var n := Counted(Met(m, r.ids), r.usage);
            var finish := FirstNonEmpty(r.reasons + [m.finishReason]);
            Recall(m, EventEffects(e)) ==
            n.(finalOutput := n.finalOutput + Shown(r.texts), finalReasoning := n.finalReasoning + Shown(r.reasonings),
               finishReason := if finish != "" then finish else FirstNonEmpty([e.reason, "stop"]))
  {
    var r := e.response.value;
    var head := [Note(Capture(r.ids)), Note(Finish(r.reasons, []))] + UsageEffects(r.usage);
    var body := FinalTexts(r.texts) + FinalReasonings(r.reasonings);
    var last := [Note(FinishIfNot([e.reason, "stop"]))];
    assert EventEffects(e) == head + body + last;
    RecallAppend(m, head + body, last);
    RecallAppend(m, head, body);
    HeadOfResponse(m, r);
    BodyOfResponse(Recall(m, head), r);
    RecallNote(Recall(Recall(m, head), body), FinishIfNot([e.reason, "stop"]));
  }

  lemma BodyOfResponse(m: Memory, r: Response)
    ensures Recall(m, FinalTexts(r.texts) + FinalReasonings(r.reasonings)) ==
            m.(finalOutput := m.finalOutput + Shown(r.texts), finalReasoning := m.finalReasoning + Shown(r.reasonings))
  {
    RecallAppend(m, FinalTexts(r.texts), FinalReasonings(r.reasonings));
    FinalTextsAre(m, r.texts);
    FinalReasoningsAre(m.(finalOutput := m.finalOutput + Shown(r.texts)), r.reasonings);
  }

  lemma HeadOfResponse(m: Memory, r: Response)
    ensures Recall(m, [Note(Capture(r.ids)), Note(Finish(r.reasons, []))] + UsageEffects(r.usage)) ==
            Counted(Met(m, r.ids), r.usage).(finishReason := FirstNonEmpty(r.reasons + [m.finishReason]))
  {
    var first, second := [Note(Capture(r.ids))], [Note(Finish(r.reasons, []))];
    assert [Note(Capture(r.ids)), Note(Finish(r.reasons, []))] == first + second;
    RecallAppend(m, first + second, UsageEffects(r.usage));
    RecallAppend(m, first, second);
    RecallNote(m, Capture(r.ids));
    RecallNote(Met(m, r.ids), Finish(r.reasons, []));
    assert r.reasons + ([m.finishReason] + []) == r.reasons + [m.finishReason];
    RecallUsage(Recall(m, first + second), r.usage);
  }

  /** A completion without a response can only give a reason to finish. */
  lemma EmptyResponseLine(h: Handlers, a: Agent, p: Payload)
    requires p.event.ResponseCompleted? && p.event.response.None?
    ensures var m := Met(a.memory, p.ids);
            AfterLine(h, a, p) == Continue(a.(memory := m.(finishReason :=
              if m.finishReason != "" then m.finishReason else FirstNonEmpty([p.event.reason, "stop"]))))
  {
    LineStarts(h, a, p);
    var none: seq<Effect> := [];
    var finish := FinishIfNot([p.event.reason, "stop"]);
    assert none + [Note(finish)] == [Note(finish)];
    PerformOne(h, a.(memory := Met(a.memory, p.ids)), Note(finish));
  }

  /** The answer text of an event, which is written whether or not there is a handler for it. */
  function AnswerOf(e: Event): string
  {
    match e
    case Assistant(_, blocks, _, _) => SpokenIn(blocks)
    case MessageDelta(reasoning, text) => if reasoning == "" then text else ""
    case TextDelta(delta) => TrimSpace(delta)
    case BlockTextDelta(text) => text
    case Plain(texts) => FirstNonEmpty(texts)
    case _ => ""
  }

  function UnlessBlank(text: string): string
  {
    if AllSpace(text) then "" else text
  }

  /** What an event adds to the reasoning, given the tools named before. */
  function ThoughtOf(names: map<string, string>, e: Event): string
  {
    match e
    case Assistant(_, blocks, _, _) => ThoughtsIn(names, blocks, false)
    case User(blocks) => ThoughtsIn(names, blocks, true)
    case MessageDelta(reasoning, _) => UnlessBlank(reasoning)
    case ItemNews(_, item) => if item.reasoning then UnlessBlank(item.reasoningText) else ""
    case OutputItem(_, item) => if item.reasoning then UnlessBlank(item.reasoningText) else ""
    case ThinkingDelta(texts) => FirstNonEmpty(texts)
    case _ => ""
  }

  /** The final text after an event. */
  function FinalSince(final: string, e: Event): string
  {
    match e
    case TextDone(texts) => if FirstNonEmpty(texts) != "" then FirstNonEmpty(texts) else final
    case ItemNews(completed, item) =>
      if completed && !item.reasoning && item.assistantText != "" then item.assistantText else final
    case ContentPart(done, isText, texts) =>
      if done && isText && FirstNonEmpty(texts) != "" then FirstNonEmpty([final, FirstNonEmpty(texts)]) else final
    case OutputItem(done, item) =>
      if done && OfferOf(e) != "" then FirstNonEmpty([final, item.assistantText]) else final
    case ResponseCompleted(response, _) => if response.Some? then final + Shown(response.value.texts) else final
    case Result(text, _, _, _, _) => if TrimSpace(text) != "" then TrimSpace(text) else final
    case _ => final
  }

  function NamesSince(names: map<string, string>, e: Event): map<string, string>
  {
    if e.Assistant? then NamesOf(names, e.blocks, false) else names
  }

  /** The text of an event that only a handler gets, if it is the first text of all. */
  function OfferOf(e: Event): string
  {
    match e
    case TextDone(texts) => FirstNonEmpty(texts)
    case ContentPart(_, isText, texts) => if isText then FirstNonEmpty(texts) else ""
    case ItemNews(completed, item) => if completed && !item.reasoning then item.assistantText else ""
    case OutputItem(_, item) => if item.reasoning && item.reasoningText != "" then "" else item.assistantText
    case ResponseCompleted(response, _) => if response.Some? then FirstShown(response.value.texts) else ""
    case _ => ""
  }

  lemma EventTexts(m: Memory, p: Payload)
    ensures var es := PayloadEffects(Some(p));
            && Said(es) == AnswerOf(p.event) && Filled(es) == OfferOf(p.event)
            && Recall(m, es).reasoning == m.reasoning + ThoughtOf(m.toolNames, p.event)
            && Recall(m, es).toolNames == NamesSince(m.toolNames, p.event)
            && Recall(m, es).finalOutput == FinalSince(m.finalOutput, p.event)
  {
    var a, es := Agent("", m, []), PayloadEffects(Some(p));
    NothingFailsWithoutHandlers(a, es);
    MemoryIsRecalled(NO_HANDLERS, a, es);
    OutputIs(NO_HANDLERS, a, es);
    NoText(Said(es));
    NoText(Filled(es) + Said(es));
    NoText(AnswerOf(p.event));
    StateTexts(NO_HANDLERS, a, p);
    NothingFailsWithDeltas(a, es);
    OutputIs(ONLY_DELTAS, a, es);
    StateTexts(ONLY_DELTAS, a, p);
    assert |Filled(es) + AnswerOf(p.event)| == |Filled(es)| + |AnswerOf(p.event)|;
    assert Filled(es) == (Filled(es) + AnswerOf(p.event))[..|Filled(es)|];
    assert OfferOf(p.event) == (OfferOf(p.event) + AnswerOf(p.event))[..|OfferOf(p.event)|];
  }

  const ONLY_DELTAS := Handlers(true, false, false, (calls: seq<Call>) => None)

  lemma {:induction false} NothingFailsWithDeltas(a: Agent, es: seq<Effect>)
    ensures PerformAll(ONLY_DELTAS, a, es).Continue?
    decreases |es|
  {
    if es != [] { NothingFailsWithDeltas(Perform(ONLY_DELTAS, a, es[0]).state, es[1..]); }
  }

  lemma StateTexts(h: Handlers, a: Agent, p: Payload)
    requires AfterLine(h, a, p).Continue? && a.output == ""
    ensures var b, m := AfterLine(h, a, p).state, a.memory;
            && b.output == (if h.delta then OfferOf(p.event) else "") + AnswerOf(p.event)
            && b.memory.reasoning == m.reasoning + ThoughtOf(m.toolNames, p.event)
            && b.memory.toolNames == NamesSince(m.toolNames, p.event)
            && b.memory.finalOutput == FinalSince(m.finalOutput, p.event)
  {
    assert a.memory.reasoning + "" == a.memory.reasoning;
    NoText(AnswerOf(p.event));
    NoText(OfferOf(p.event));
    match p.event
    case Assistant(_, _, _, _) => AssistantLine(h, a, p);
    case User(_) => UserLine(h, a, p);
    case TextDelta(delta) => AnswerLine(h, a, p, TrimSpace(delta));
    case BlockTextDelta(text) => AnswerLine(h, a, p, text);
    case Plain(texts) => AnswerLine(h, a, p, FirstNonEmpty(texts));
    case ResponseCompleted(_, _) =>
      if p.event.response.Some? { ResponseLine(h, a, p); } else { EmptyResponseLine(h, a, p); }
    case Result(_, _, _, _, _) => ResultLine(h, a, p);
    case TurnCompleted(_, _) => TurnLine(h, a, p);
    case MessageDelta(_, _) => MessageStateTexts(h, a, p);
    case ThinkingDelta(_) => ThinkingStateTexts(h, a, p);
    case ItemNews(_, _) => NewsStateTexts(h, a, p);
    case OutputItem(_, _) => ItemStateTexts(h, a, p);
    case TextDone(_) => OfferStateTexts(h, a, p);
    case ContentPart(_, _, _) => OfferStateTexts(h, a, p);
    case _ => QuietLine(h, a, p);
  }

  lemma MessageStateTexts(h: Handlers, a: Agent, p: Payload)
    requires p.event.MessageDelta?
    requires a.output == ""
    ensures var b, m := AfterLine(h, a, p).state, a.memory;
            && b.output == (if h.delta then OfferOf(p.event) else "") + AnswerOf(p.event)
            && b.memory.reasoning == m.reasoning + ThoughtOf(m.toolNames, p.event)
            && b.memory.toolNames == NamesSince(m.toolNames, p.event)
            && b.memory.finalOutput == FinalSince(m.finalOutput, p.event)
  {
    assert a.memory.reasoning + "" == a.memory.reasoning;
    NoText(OfferOf(p.event));
    NoText(p.event.text);
    if p.event.reasoning != "" { ThoughtLine(h, a, p, p.event.reasoning); }
    else { AnswerLine(h, a, p, p.event.text); }
  }

  lemma ThinkingStateTexts(h: Handlers, a: Agent, p: Payload)
    requires p.event.ThinkingDelta?
    requires a.output == ""
    ensures var b, m := AfterLine(h, a, p).state, a.memory;
            && b.output == (if h.delta then OfferOf(p.event) else "") + AnswerOf(p.event)
            && b.memory.reasoning == m.reasoning + ThoughtOf(m.toolNames, p.event)
            && b.memory.toolNames == NamesSince(m.toolNames, p.event)
            && b.memory.finalOutput == FinalSince(m.finalOutput, p.event)
  {
    assert a.memory.reasoning + "" == a.memory.reasoning;
    NoText(OfferOf(p.event));
    FirstIsTrimmed(p.event.texts);
    ThoughtLine(h, a, p, FirstNonEmpty(p.event.texts));
  }

  lemma NewsStateTexts(h: Handlers, a: Agent, p: Payload)
    requires p.event.ItemNews?
    requires a.output == ""
    ensures var b, m := AfterLine(h, a, p).state, a.memory;
            && b.output == (if h.delta then OfferOf(p.event) else "") + AnswerOf(p.event)
            && b.memory.reasoning == m.reasoning + ThoughtOf(m.toolNames, p.event)
            && b.memory.toolNames == NamesSince(m.toolNames, p.event)
            && b.memory.finalOutput == FinalSince(m.finalOutput, p.event)
  {
    assert a.memory.reasoning + "" == a.memory.reasoning;
    NoText(OfferOf(p.event));
    var item := p.event.item;
    if item.reasoning && item.reasoningText != "" {
      if p.event.completed { ThoughtNewsLine(h, a, p, item.reasoningText); }
      else { ThoughtLine(h, a, p, item.reasoningText); }
    } else if !item.reasoning && p.event.completed && item.assistantText != "" {
      FinalLine(h, a, p, item.assistantText);
    } else {
      EmptyLine(h, a, p);
    }
  }

  lemma ItemStateTexts(h: Handlers, a: Agent, p: Payload)
    requires p.event.OutputItem?
    requires a.output == ""
    ensures var b, m := AfterLine(h, a, p).state, a.memory;
            && b.output == (if h.delta then OfferOf(p.event) else "") + AnswerOf(p.event)
            && b.memory.reasoning == m.reasoning + ThoughtOf(m.toolNames, p.event)
            && b.memory.toolNames == NamesSince(m.toolNames, p.event)
            && b.memory.finalOutput == FinalSince(m.finalOutput, p.event)
  {
    assert a.memory.reasoning + "" == a.memory.reasoning;
    NoText(OfferOf(p.event));
    var item := p.event.item;
    if item.reasoning && item.reasoningText != "" { ThoughtItemLine(h, a, p, item.reasoningText); }
    else if item.assistantText != "" { PartLine(h, a, p, item.assistantText, p.event.done); }
    else { EmptyLine(h, a, p); }
  }

  lemma OfferStateTexts(h: Handlers, a: Agent, p: Payload)
    requires (p.event.TextDone? || p.event.ContentPart?) && a.output == ""
    ensures var b, m := AfterLine(h, a, p).state, a.memory;
            && b.output == (if h.delta then OfferOf(p.event) else "") + AnswerOf(p.event)
            && b.memory.reasoning == m.reasoning && b.memory.toolNames == m.toolNames
            && b.memory.finalOutput == FinalSince(m.finalOutput, p.event)
  {
    NoText(OfferOf(p.event));
    match p.event
    case TextDone(texts) =>
      if FirstNonEmpty(texts) != "" { FinalLine(h, a, p, FirstNonEmpty(texts)); }
      else { EmptyLine(h, a, p); }
    case ContentPart(done, isText, texts) =>
      if isText && FirstNonEmpty(texts) != "" { PartLine(h, a, p, FirstNonEmpty(texts), done); }
      else { EmptyLine(h, a, p); }
  }

  /** What is read from a line, which may be blank. */
  function ReadLine(read: Reader, raw: string): Option<Payload>
  {
    if TrimSpace(raw) == "" then None else read(TrimSpace(raw))
  }

  /** The answer texts of all lines, and their thoughts, one after the other. */
  function Answers(read: Reader, lines: seq<string>): string
  {
    if lines == [] then ""
    else
      var payload := ReadLine(read, lines[0]);
      (if payload.Some? then AnswerOf(payload.value.event) else "") + Answers(read, lines[1..])
  }

  /** The first text of all lines, if it is one that only a handler gets. */
  function FirstOffer(read: Reader, lines: seq<string>): string
  {
    if lines == [] then ""
    else
      match ReadLine(read, lines[0])
      case None => FirstOffer(read, lines[1..])
      case Some(p) =>
        if AnswerOf(p.event) != "" || OfferOf(p.event) != "" then OfferOf(p.event) else FirstOffer(read, lines[1..])
  }

  function Thoughts(read: Reader, names: map<string, string>, lines: seq<string>): string
    decreases |lines|
  {
    if lines == [] then ""
    else
      match ReadLine(read, lines[0])
      case None => Thoughts(read, names, lines[1..])
      case Some(p) => ThoughtOf(names, p.event) + Thoughts(read, NamesSince(names, p.event), lines[1..])
  }

  /** The final text after all lines. */
  function Finals(read: Reader, final: string, lines: seq<string>): string
    decreases |lines|
  {
    if lines == [] then final
    else
      match ReadLine(read, lines[0])
      case None => Finals(read, final, lines[1..])
      case Some(p) => Finals(read, FinalSince(final, p.event), lines[1..])
  }

  lemma {:induction false} FilledAppend(es: seq<Effect>, more: seq<Effect>)
    ensures Filled(es + more) == if Filled(es) != "" || Said(es) != "" then Filled(es) else Filled(more)
  {
    if es == [] {
      assert es + more == more;
    } else {
      assert (es + more)[1..] == es[1..] + more && (es + more)[0] == es[0];
      FilledAppend(es[1..], more);
      if es[0].Say? && es[0].text != "" { assert Said(es)[0] == es[0].text[0]; }
      else { assert "" + Said(es[1..]) == Said(es[1..]); }
    }
  }

  lemma {:induction false} LinesTexts(read: Reader, m: Memory, lines: seq<string>)
    ensures Said(AllEffects(read, lines)) == Answers(read, lines)
    ensures Filled(AllEffects(read, lines)) == FirstOffer(read, lines)
    ensures Recall(m, AllEffects(read, lines)).reasoning == m.reasoning + Thoughts(read, m.toolNames, lines)
    ensures Recall(m, AllEffects(read, lines)).finalOutput == Finals(read, m.finalOutput, lines)
    decreases |lines|
  {
    if lines == [] {
      assert m.reasoning + "" == m.reasoning;
    } else {
      var here, rest := LineEffects(read, lines[0]), AllEffects(read, lines[1..]);
      SaidAppend(here, rest);
      RecallAppend(m, here, rest);
      FilledAppend(here, rest);
      LinesTexts(read, Recall(m, here), lines[1..]);
      match ReadLine(read, lines[0])
      case None => assert here == [];
      case Some(p) =>
        EventTexts(m, p);
        Associate(m.reasoning, ThoughtOf(m.toolNames, p.event),
                  Thoughts(read, NamesSince(m.toolNames, p.event), lines[1..]));
    }
  }

  // ----- an answer streamed, and the same answer handed over whole

  ghost function Streamed(read: Reader, h: Handlers, chunks: seq<string>): Outcome<Agent>
  {
    ParseStream(LineDecoder(read, h), NEW_AGENT, chunks)
  }

  ghost function Whole(read: Reader, output: string): Outcome<Agent>
  {
    ParseWhole(LineDecoder(read, NO_HANDLERS), NEW_AGENT, output)
  }

  ghost function OutputEffects(read: Reader, chunks: seq<string>): seq<Effect>
  {
    AllEffects(read, SplitLines(Concat(chunks)))
  }

  lemma StreamedPerforms(read: Reader, h: Handlers, chunks: seq<string>)
    ensures Streamed(read, h, chunks) == PerformAll(h, NEW_AGENT, OutputEffects(read, chunks))
  {
    ChunkingIndependence(LineDecoder(read, h), NEW_AGENT, chunks);
    LinesPerform(read, h, NEW_AGENT, SplitLines(Concat(chunks)));
  }

  lemma WholePerforms(read: Reader, chunks: seq<string>)
    ensures Whole(read, Concat(chunks)) == PerformAll(NO_HANDLERS, NEW_AGENT, OutputEffects(read, chunks))
  {
    WholeAgreesWithStream(LineDecoder(read, NO_HANDLERS), NEW_AGENT, chunks);
    StreamedPerforms(read, NO_HANDLERS, chunks);
  }

  /** Streaming an output in any chunks to a parser with any handlers, none of which fails, and handing it over
      whole to one without handlers leave all fields but the text the same. The text of the streamed one has in
      front the text that only a delta handler gets. */
  lemma WholeWithoutHandlers(read: Reader, h: Handlers, chunks: seq<string>)
    requires Streamed(read, h, chunks).Continue?
    ensures var live, whole, es := Streamed(read, h, chunks), Whole(read, Concat(chunks)), OutputEffects(read, chunks);
            && whole.Continue? && whole.state.calls == []
            && whole.state.memory == live.state.memory == Recall(FORGOTTEN, es)
            && whole.state.output == Said(es)
            && live.state.output == (if h.delta then Filled(es) else "") + Said(es)
  {
    var es := OutputEffects(read, chunks);
    StreamedPerforms(read, h, chunks);
    WholePerforms(read, chunks);
    NothingFailsWithoutHandlers(NEW_AGENT, es);
    MemoryIsRecalled(h, NEW_AGENT, es);
    MemoryIsRecalled(NO_HANDLERS, NEW_AGENT, es);
    OutputIs(h, NEW_AGENT, es);
    OutputIs(NO_HANDLERS, NEW_AGENT, es);
    NoText(Said(es));
    NoText(Filled(es) + Said(es));
  }

  /** The text of a whole output is that of its answers in the order of the lines, and the reasoning that of its
      thoughts: nothing of the one kind gets into the other. Streaming adds, in front of the text, what only a
      handler gets. */
  lemma TextsOfOutput(read: Reader, h: Handlers, chunks: seq<string>)
    requires Streamed(read, h, chunks).Continue?
    ensures var live, whole := Streamed(read, h, chunks), Whole(read, Concat(chunks));
            var lines := SplitLines(Concat(chunks));
            && whole.Continue? && whole.state.output == Answers(read, lines)
            && live.state.output ==
               (if h.delta then FirstOffer(read, lines) else "") + Answers(read, lines)
            && live.state.memory.reasoning == whole.state.memory.reasoning == Thoughts(read, map[], lines)
            && live.state.memory.finalOutput == whole.state.memory.finalOutput == Finals(read, "", lines)
  {
    WholeWithoutHandlers(read, h, chunks);
    LinesTexts(read, FORGOTTEN, SplitLines(Concat(chunks)));
    var thoughts := Thoughts(read, map[], SplitLines(Concat(chunks)));
    assert "" + thoughts == thoughts;
  }

  /** So the two answers have the same text exactly if the output names a final text that is not blank, or if
      there is no delta handler, or if the text that only it gets is blank. */
  lemma SameAnswerIff(read: Reader, h: Handlers, chunks: seq<string>)
    requires Streamed(read, h, chunks).Continue?
    ensures var live, whole := Streamed(read, h, chunks), Whole(read, Concat(chunks));
            var lines := SplitLines(Concat(chunks));
            && ReasoningText(live.state) == ReasoningText(whole.state)
            && (ResultText(live.state) == ResultText(whole.state) <==>
                  !AllSpace(Finals(read, "", lines)) || !h.delta || AllSpace(FirstOffer(read, lines)))
  {
    var lines := SplitLines(Concat(chunks));
    WholeWithoutHandlers(read, h, chunks);
    TextsOfOutput(read, h, chunks);
    var l, r := TrimSpaceSplits(Finals(read, "", lines));
    FrontShowsIff(FirstOffer(read, lines), Answers(read, lines));
    assert "" + Answers(read, lines) == Answers(read, lines);
  }

  /** An output of one line with a part of the content: streamed it answers with that part, handed over whole
      with nothing. */
  lemma PartIsLostWithoutHandler(read: Reader, h: Handlers, line: string)
    requires Trimmed(line) && line != "" && '\n' !in line
    requires read(line) == Some(Payload([], ContentPart(false, true, ["hi"])))
    requires h.delta && h.answer([OnDelta("hi")]) == None
    ensures Streamed(read, h, [line]).Continue? && ResultText(Streamed(read, h, [line]).state) == "hi"
    ensures ResultText(Whole(read, line).state) == "" && ReasoningText(Whole(read, line).state) == ""
  {
    PartEffects(read, line);
    StreamedPerforms(read, h, [line]);
    WholePerforms(read, [line]);
    PartPerformed(h);
    TrimmedIsFixed("hi");
    TrimmedIsFixed("");
  }

  lemma PartEffects(read: Reader, line: string)
    requires Trimmed(line) && line != "" && '\n' !in line
    requires read(line) == Some(Payload([], ContentPart(false, true, ["hi"])))
    ensures Concat([line]) == line && OutputEffects(read, [line]) == [Note(Capture([])), Fill("hi")]
  {
    assert Concat([line]) == line + Concat([]) == line;
    SplitOneLine(line);
    TrimmedIsFixed(line);
    TrimmedIsFixed("hi");
    assert FirstNonEmpty(["hi"]) == "hi";
    var part, none: seq<Effect> := ContentPart(false, true, ["hi"]), [];
    assert none + [Fill("hi")] == [Fill("hi")];
    assert EventEffects(part) == [Fill("hi")];
    assert PayloadEffects(read(line)) == [Note(Capture([]))] + [Fill("hi")];
    assert [line][1..] == [] && AllEffects(read, []) == none;
    assert AllEffects(read, [line]) == LineEffects(read, line) + none;
  }

  lemma PartPerformed(h: Handlers)
    requires h.delta && h.answer([OnDelta("hi")]) == None
    ensures var es := [Note(Capture([])), Fill("hi")];
            && PerformAll(h, NEW_AGENT, es) == Continue(Agent("hi", FORGOTTEN, [OnDelta("hi")]))
            && PerformAll(NO_HANDLERS, NEW_AGENT, es) == Continue(NEW_AGENT)
  {
    var es := [Note(Capture([])), Fill("hi")];
    assert es[1..] == [Fill("hi")] && es[1..][1..] == [];
    assert Perform(h, NEW_AGENT, es[0]) == Continue(NEW_AGENT);
    assert NEW_AGENT.calls + [OnDelta("hi")] == [OnDelta("hi")];
    assert Perform(h, NEW_AGENT, Fill("hi")) == Continue(Agent("hi", FORGOTTEN, [OnDelta("hi")]));
    assert Perform(NO_HANDLERS, NEW_AGENT, es[0]) == Continue(NEW_AGENT);
    assert Perform(NO_HANDLERS, NEW_AGENT, Fill("hi")) == Continue(NEW_AGENT);
  }

  /** A resumed stream falls back on the text told when the parser has none: there is none then either. */
  lemma FallbackIsIdle(read: Reader, h: Handlers, chunks: seq<string>)
    requires h.delta
    ensures var a := Streamed(read, h, chunks).state;
            a.output == Deltas(a.calls) && (ResultText(a) == "" ==> TrimSpace(Deltas(a.calls)) == "")
  {
    StreamedPerforms(read, h, chunks);
    DeltasAreTheOutput(h, NEW_AGENT, OutputEffects(read, chunks));
  }
}
