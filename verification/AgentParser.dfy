/**
  The agent parser as the object that the console updates in place (internal/console/chat_cloud_agent.go):
  the methods write fields, call handlers and return at the first error. Their contracts say that this
  performs the effects of the line.
*/
module AgentParsers {
  import opened AgentOutput
  import opened Options
  import opened StreamParser
  import opened Text

  function After(a: Agent, error: Option<string>): Outcome<Agent>
  {
    match error
    case None => Continue(a)
    case Some(text) => Failed(a, text)
  }

  /** `consoleCloudAgentStreamParser`, without the pending text. `calls` records the calls of handlers. */
  class AgentParser {
    const handlers: Handlers
    var output: string
    var memory: Memory
    var calls: seq<Call>

    function View(): Agent
      reads this
    {
      Agent(output, memory, calls)
    }

    constructor (handlers: Handlers)
      ensures View() == NEW_AGENT && this.handlers == handlers
    {
      this.handlers := handlers;
      output, memory, calls := "", FORGOTTEN, [];
    }

    /** A handler, if there is one. */
    method Notify(on: bool, call: Call) returns (error: Option<string>)
      modifies this`calls
      ensures After(View(), error) == Told(handlers, on, old(View()), call)
    {
      if !on {
        return None;
      }
      calls := calls + [call];
      error := handlers.answer(calls);
    }

    method WriteText(text: string) returns (error: Option<string>)
      modifies this
      ensures After(View(), error) == Perform(handlers, old(View()), Say(text))
    {
      output := output + text;
      error := Notify(handlers.delta, OnDelta(text));
    }

    method FillText(text: string) returns (error: Option<string>)
      modifies this
      ensures After(View(), error) == Perform(handlers, old(View()), Fill(text))
    {
      if handlers.delta && |output| == 0 {
        output := output + text;
        assert "" + text == text;
        error := Notify(true, OnDelta(text));
        return;
      }
      return None;
    }

    /** `appendReasoning` */
    method AppendReasoning(step: Step) returns (error: Option<string>)
      modifies this
      ensures After(View(), error) == Perform(handlers, old(View()), Think(step))
    {
      var text := StepText(memory, step);
      if TrimSpace(text) == "" {
        return None;
      }
      memory := memory.(reasoning := memory.reasoning + text);
      error := Notify(handlers.reasoning, OnReasoning(text));
    }

    method Update(change: Change)
      modifies this`memory
      ensures Continue(View()) == Perform(handlers, old(View()), Note(change))
    {
      memory := Remember(memory, change);
    }

    /** `emitClaudeToolUse`, `emitClaudeToolResult`: the step in the reasoning, then the operation. */
    method EmitStep(step: Step) returns (error: Option<string>)
      modifies this
      ensures After(View(), error) == PerformAll(handlers, old(View()), [Think(step), Operate(step)])
    {
      PerformNext(handlers, View(), Think(step), [Operate(step)]);
      error := AppendReasoning(step);
      if error.Some? {
        return;
      }
      PerformOne(handlers, View(), Operate(step));
      error := Notify(handlers.operation, OnOperation(OperationOf(memory, step)));
    }

    method ConsumeBlock(block: Block, fromUser: bool) returns (error: Option<string>)
      modifies this
      ensures After(View(), error) ==
              PerformAll(handlers, old(View()), if fromUser then UserBlock(block) else AssistantBlock(block))
    {
      error := None;
      match block
      case TextBlock(texts) =>
        var text := FirstNonEmpty(texts);
        if !fromUser && text != "" {
          PerformOne(handlers, View(), Say(text));
          error := WriteText(text);
          return;
        }
      case ThinkingBlock(texts) =>
        var text := FirstNonEmpty(texts);
        if !fromUser && text != "" {
          PerformOne(handlers, View(), Think(Words(text)));
          error := AppendReasoning(Words(text));
          return;
        }
      case ToolUse(id, name, detail) =>
        if !fromUser {
          var step := Started(TrimSpace(id), NameOf(name), detail);
          PerformNext(handlers, View(), Note(NameTool(step.id, step.name)), [Think(step), Operate(step)]);
          Update(NameTool(step.id, step.name));
          error := EmitStep(step);
          return;
        }
      case ToolResult(id, failed, summary) =>
        if fromUser {
          error := EmitStep(Ended(TrimSpace(id), failed, TrimSpace(summary)));
          return;
        }
      case OtherBlock =>
    }

    /** `consumeClaudeAssistantMessage`, `consumeClaudeUserMessage`: block by block. */
    method ConsumeBlocks(blocks: seq<Block>, fromUser: bool) returns (error: Option<string>)
      modifies this
      ensures After(View(), error) == PerformAll(handlers, old(View()), BlockEffects(blocks, fromUser))
    {
      ghost var all := PerformAll(handlers, View(), BlockEffects(blocks, fromUser));
      assert blocks[0..] == blocks;
      for i := 0 to |blocks|
        invariant PerformAll(handlers, View(), BlockEffects(blocks[i..], fromUser)) == all
      {
        PerformAppend(handlers, View(), if fromUser then UserBlock(blocks[i]) else AssistantBlock(blocks[i]),
                      BlockEffects(blocks[i..][1..], fromUser));
        assert blocks[i..][1..] == blocks[i + 1..];
        error := ConsumeBlock(blocks[i], fromUser);
        if error.Some? {
          return;
        }
      }
      return None;
    }

    method CountUsage(usage: Option<Tokens>)
      modifies this`memory
      ensures Continue(View()) == PerformAll(handlers, old(View()), UsageEffects(usage))
    {
      if usage.Some? {
        PerformOne(handlers, View(), Note(Count(usage.value)));
        Update(Count(usage.value));
      }
    }

    method AddFinalTexts(texts: seq<string>) returns (error: Option<string>)
      modifies this
      ensures After(View(), error) == PerformAll(handlers, old(View()), FinalTexts(texts))
    {
      ghost var all := PerformAll(handlers, View(), FinalTexts(texts));
      assert texts[0..] == texts;
      for i := 0 to |texts|
        invariant PerformAll(handlers, View(), FinalTexts(texts[i..])) == all
      {
        ghost var here := If(TrimSpace(texts[i]) != "", [Note(FinalMore(texts[i])), Fill(texts[i])]);
        PerformAppend(handlers, View(), here, FinalTexts(texts[i..][1..]));
        assert texts[i..][1..] == texts[i + 1..];
        if TrimSpace(texts[i]) == "" {
          continue;
        }
        PerformNext(handlers, View(), Note(FinalMore(texts[i])), [Fill(texts[i])]);
        Update(FinalMore(texts[i]));
        PerformOne(handlers, View(), Fill(texts[i]));
        error := FillText(texts[i]);
        if error.Some? {
          return;
        }
      }
      return None;
    }

    method AddFinalReasonings(texts: seq<string>) returns (error: Option<string>)
      modifies this
      ensures After(View(), error) == PerformAll(handlers, old(View()), FinalReasonings(texts))
    {
      ghost var all := PerformAll(handlers, View(), FinalReasonings(texts));
      assert texts[0..] == texts;
      for i := 0 to |texts|
        invariant PerformAll(handlers, View(), FinalReasonings(texts[i..])) == all
      {
        ghost var here := If(TrimSpace(texts[i]) != "", [Note(ReflectionMore(texts[i])), Tell(texts[i])]);
        PerformAppend(handlers, View(), here, FinalReasonings(texts[i..][1..]));
        assert texts[i..][1..] == texts[i + 1..];
        if TrimSpace(texts[i]) == "" {
          continue;
        }
        PerformNext(handlers, View(), Note(ReflectionMore(texts[i])), [Tell(texts[i])]);
        Update(ReflectionMore(texts[i]));
        PerformOne(handlers, View(), Tell(texts[i]));
        error := Notify(handlers.reasoning, OnReasoning(texts[i]));
        if error.Some? {
          return;
        }
      }
      return None;
    }

    /** `applyResponsePayload` */
    method ApplyResponse(response: Option<Response>) returns (error: Option<string>)
      modifies this
      ensures After(View(), error) == PerformAll(handlers, old(View()), ResponseEffects(response))
    {
      if response.None? {
        return None;
      }
      var r := response.value;
      ghost var head := [Note(Capture(r.ids)), Note(Finish(r.reasons, []))];
      ghost var last := FinalTexts(r.texts) + FinalReasonings(r.reasonings);
      PerformAppend(handlers, View(), head + UsageEffects(r.usage), last);
      PerformAppend(handlers, View(), head, UsageEffects(r.usage));
      PerformNext(handlers, View(), Note(Capture(r.ids)), [Note(Finish(r.reasons, []))]);
      Update(Capture(r.ids));
      PerformOne(handlers, View(), Note(Finish(r.reasons, [])));
      Update(Finish(r.reasons, []));
      CountUsage(r.usage);
      PerformAppend(handlers, View(), FinalTexts(r.texts), FinalReasonings(r.reasonings));
      error := AddFinalTexts(r.texts);
      if error.Some? {
        return;
      }
      error := AddFinalReasonings(r.reasonings);
    }

    method ConsumeItem(completed: bool, item: Item) returns (error: Option<string>)
      modifies this
      ensures After(View(), error) == PerformAll(handlers, old(View()), ItemEffects(completed, item))
    {
      if item.reasoning {
        var text := item.reasoningText;
        PerformAppend(handlers, View(), If(completed && text != "", [Note(Reflection(text))]), [Think(Words(text))]);
        if completed && text != "" {
          PerformOne(handlers, View(), Note(Reflection(text)));
          Update(Reflection(text));
        }
        PerformOne(handlers, View(), Think(Words(text)));
        error := AppendReasoning(Words(text));
        return;
      }
      var text := item.assistantText;
      if text != "" && completed {
        PerformNext(handlers, View(), Note(Final(text)), [Fill(text)]);
        Update(Final(text));
        PerformOne(handlers, View(), Fill(text));
        error := FillText(text);
        return;
      }
      return None;
    }

    method ConsumeOutputItem(done: bool, item: Item) returns (error: Option<string>)
      modifies this
      ensures After(View(), error) == PerformAll(handlers, old(View()), OutputItemEffects(done, item))
    {
      if item.reasoning && item.reasoningText != "" {
        var text := item.reasoningText;
        PerformAppend(handlers, View(), If(done, [Note(ReflectionIfNone(text))]), [Think(Words(text))]);
        if done {
          PerformOne(handlers, View(), Note(ReflectionIfNone(text)));
          Update(ReflectionIfNone(text));
        }
        PerformOne(handlers, View(), Think(Words(text)));
        error := AppendReasoning(Words(text));
        return;
      }
      if item.assistantText != "" {
        error := OfferFinal(done, item.assistantText);
        return;
      }
      return None;
    }

    /** Text that becomes the final one when it is done and there is none yet. */
    method OfferFinal(done: bool, text: string) returns (error: Option<string>)
      modifies this
      ensures After(View(), error) ==
              PerformAll(handlers, old(View()), If(done, [Note(FinalIfNone(text))]) + [Fill(text)])
    {
      PerformAppend(handlers, View(), If(done, [Note(FinalIfNone(text))]), [Fill(text)]);
      if done {
        PerformOne(handlers, View(), Note(FinalIfNone(text)));
        Update(FinalIfNone(text));
      }
      PerformOne(handlers, View(), Fill(text));
      error := FillText(text);
    }

    method ConsumeResult(result: Event)
      requires result.Result?
      modifies this`memory
      ensures Continue(View()) == PerformAll(handlers, old(View()), EventEffects(result))
    {
      var text, subtype := TrimSpace(result.text), TrimSpace(result.subtype);
      ghost var failure := If(result.isError, [Note(Fail([result.error, result.text, "codex execution failed"]))]);
      ghost var lasted := [Note(Lasted(result.durationMS))];
      ghost var finish := If(subtype != "", [Note(FinishIfNot([result.subtype]))]);
      PerformAppend(handlers, View(), If(text != "", [Note(Final(text))]), finish + (lasted + failure));
      if text != "" {
        PerformOne(handlers, View(), Note(Final(text)));
        Update(Final(text));
      }
      PerformAppend(handlers, View(), finish, lasted + failure);
      if subtype != "" {
        PerformOne(handlers, View(), Note(FinishIfNot([result.subtype])));
        Update(FinishIfNot([result.subtype]));
      }
      PerformNext(handlers, View(), Note(Lasted(result.durationMS)), failure);
      Update(Lasted(result.durationMS));
      if result.isError {
        PerformOne(handlers, View(), failure[0]);
        Update(Fail([result.error, result.text, "codex execution failed"]));
      }
    }

    method ConsumeAssistant(message: Event) returns (error: Option<string>)
      requires message.Assistant?
      modifies this
      ensures After(View(), error) == PerformAll(handlers, old(View()), EventEffects(message))
    {
      ghost var blocks := BlockEffects(message.blocks, false);
      ghost var counted := UsageEffects(message.usage);
      var finish := Finish([message.stopReason], []);
      PerformAppend(handlers, View(), [Note(Capture(message.ids))] + blocks, counted + [Note(finish)]);
      PerformNext(handlers, View(), Note(Capture(message.ids)), blocks);
      Update(Capture(message.ids));
      error := ConsumeBlocks(message.blocks, false);
      if error.Some? {
        return;
      }
      PerformAppend(handlers, View(), counted, [Note(finish)]);
      CountUsage(message.usage);
      PerformOne(handlers, View(), Note(finish));
      Update(finish);
    }

    method WriteUnlessEmpty(text: string) returns (error: Option<string>)
      modifies this
      ensures After(View(), error) == PerformAll(handlers, old(View()), If(text != "", [Say(text)]))
    {
      if text == "" {
        return None;
      }
      PerformOne(handlers, View(), Say(text));
      error := WriteText(text);
    }

    method UpdateOnly(change: Change)
      modifies this`memory
      ensures Continue(View()) == PerformAll(handlers, old(View()), [Note(change)])
    {
      PerformOne(handlers, View(), Note(change));
      Update(change);
    }

    /** The branches of `consumeLine`. */
    method ConsumeEvent(event: Event) returns (error: Option<string>)
      modifies this
      ensures After(View(), error) == PerformAll(handlers, old(View()), EventEffects(event))
    {
      error := None;
      match event
      case Assistant(_, _, _, _) => error := ConsumeAssistant(event);
      case User(blocks) => error := ConsumeBlocks(blocks, true);
      case MessageDelta(reasoning, text) =>
        if reasoning != "" {
          PerformOne(handlers, View(), Think(Words(reasoning)));
          error := AppendReasoning(Words(reasoning));
        } else {
          error := WriteUnlessEmpty(text);
        }
      case ItemNews(completed, item) => error := ConsumeItem(completed, item);
      case TurnCompleted(usage, reason) =>
        PerformAppend(handlers, View(), UsageEffects(usage), [Note(Finish([reason], ["stop"]))]);
        CountUsage(usage);
        UpdateOnly(Finish([reason], ["stop"]));
      case Failure(messages) => UpdateOnly(Fail(messages + ["codex execution failed"]));
      case TextDelta(delta) => error := WriteUnlessEmpty(TrimSpace(delta));
      case TextDone(texts) =>
        var text := FirstNonEmpty(texts);
        if text != "" {
          PerformNext(handlers, View(), Note(Final(text)), [Fill(text)]);
          Update(Final(text));
          PerformOne(handlers, View(), Fill(text));
          error := FillText(text);
        }
      case ContentPart(done, isText, texts) =>
        var text := FirstNonEmpty(texts);
        if isText && text != "" {
          error := OfferFinal(done, text);
        }
      case OutputItem(done, item) => error := ConsumeOutputItem(done, item);
      case ResponseCompleted(response, reason) =>
        PerformAppend(handlers, View(), ResponseEffects(response), [Note(FinishIfNot([reason, "stop"]))]);
        error := ApplyResponse(response);
        if error.None? {
          UpdateOnly(FinishIfNot([reason, "stop"]));
        }
      case ThinkingDelta(texts) =>
        var text := FirstNonEmpty(texts);
        if text != "" {
          PerformOne(handlers, View(), Think(Words(text)));
          error := AppendReasoning(Words(text));
        }
      case BlockTextDelta(text) => error := WriteUnlessEmpty(text);
      case StopDelta(reason) => UpdateOnly(Finish([reason], []));
      case Result(_, _, _, _, _) => ConsumeResult(event);
      case SystemInit(id) => UpdateOnly(Connect(id));
      case Plain(texts) => error := WriteUnlessEmpty(FirstNonEmpty(texts));
      case Silent =>
    }

    /** `consumeLine`: nothing is done with a line that is blank or not a JSON object. */
    method ConsumeLine(read: Reader, raw: string) returns (error: Option<string>)
      modifies this
      ensures After(View(), error) == StreamParser.ConsumeLine(LineDecoder(read, handlers), old(View()), raw)
    {
      var line := TrimSpace(raw);
      if line == "" {
        return None;
      }
      var payload := read(line);
      if payload.None? {
        assert LineDecoder(read, handlers)(View(), line) == PerformAll(handlers, View(), []);
        return None;
      }
      assert LineDecoder(read, handlers)(View(), line) == PerformAll(handlers, View(), PayloadEffects(payload));
      PerformNext(handlers, View(), Note(Capture(payload.value.ids)), EventEffects(payload.value.event));
      Update(Capture(payload.value.ids));
      error := ConsumeEvent(payload.value.event);
    }
  }
}
