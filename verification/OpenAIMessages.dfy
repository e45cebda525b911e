/** OpenAI messages built from Gemini parts: `collectParts`, `partToToolCall`, `openaiFinish` and `GeminiToOpenAI`. */
module OpenAIMessages {
  import opened Wrappers
  import opened Text
  import opened Gemini

  datatype Tool = Tool(id: string, name: string, args: string)

  /** What a reader of a message knows: absent texts and signatures are empty. */
  datatype Digest = Digest(content: string, reasoning: string, signature: string, tools: seq<Tool>)

  function Nothing(): Digest {
    Digest("", "", "", [])
  }

  /** `partToToolCall`; `generated` is the identifier used when upstream gave none. */
  function ToolOf(call: FunctionCall, generated: string): Tool {
    Tool(if call.UpstreamId() == "" then "call_" + generated else call.UpstreamId(), call.name, call.args)
  }

  function Extend(d: Digest, part: Part, spare: nat -> string): Digest {
    if part.CallPart? then d.(tools := d.tools + [ToolOf(part.call, spare(|d.tools|))])
    else
      Digest(d.content + part.Content(), d.reasoning + part.Thinking(),
        if part.sig != "" then part.sig else d.signature, d.tools)
  }

  function Summary(parts: seq<Part>, spare: nat -> string): Digest {
    if parts == [] then Nothing() else Extend(Summary(parts[..|parts| - 1], spare), parts[|parts| - 1], spare)
  }

  lemma SummaryOfOneMore(parts: seq<Part>, part: Part, spare: nat -> string)
    ensures Summary(parts + [part], spare) == Extend(Summary(parts, spare), part, spare)
  {
    assert (parts + [part])[..|parts|] == parts;
  }

  /** `openaiFinish`. */
  function OpenaiFinish(reason: string, hasTools: bool): string {
    var upper := ToUpper(reason);
    if upper == "STOP" then (if hasTools then "tool_calls" else "stop")
    else if upper == "MAX_TOKENS" then "length"
    else if upper == "SAFETY" then "content_filter"
    else if hasTools then "tool_calls"
    else if reason == "" then "stop"
    else ToLower(reason)
  }

  /** The finish reason of a choice, by the last reason upstream gave and whether the choice has tools. */
  predicate IsReason(reason: string, last: string, hasTools: bool) {
    var upper := ToUpper(last);
    && (upper == "MAX_TOKENS" ==> reason == "length")
    && (upper == "SAFETY" ==> reason == "content_filter")
    && (hasTools && upper != "MAX_TOKENS" && upper != "SAFETY" ==> reason == "tool_calls")
    && (!hasTools && (upper == "STOP" || last == "") ==> reason == "stop")
    && (!hasTools && last != "" && upper != "STOP" && upper != "MAX_TOKENS" && upper != "SAFETY" ==>
          reason == ToLower(last))
  }

  lemma ReasonByTools(last: string, hasTools: bool)
    ensures IsReason(OpenaiFinish(last, hasTools), last, hasTools)
  {
    hide ToUpper, ToLower;
    assert "MAX_TOKENS"[0] != "SAFETY"[0] && "STOP"[1] != "SAFETY"[1] && "STOP"[0] != "MAX_TOKENS"[0];
    assert |ToUpper("")| == 0;
  }

  datatype Message = Message(content: Option<string>, reasoning: string, signature: string, tools: seq<Tool>)
  {
    function Reads(): Digest {
      Digest(content.GetOr(""), reasoning, signature, tools)
    }
  }

  datatype Choice = Choice(index: int, message: Message, finish: string)

  /** A complete response: its candidates with the indices they were collected at, and its own `response` member. */
  datatype Body = Body(candidates: seq<(int, Saved)>, response: Option<Inner>)
  {
    /** What conversion takes for the candidates: an object under `response` stands for the whole. */
    function Shown(): seq<(int, Saved)> {
      match response
      case Some(Nested(inner, fails)) => if fails then [] else inner
      case _ => candidates
    }
  }

  method CollectParts(parts: seq<Part>, spare: nat -> string) returns (text: string, thinking: string, calls: seq<Tool>)
    ensures var d := Summary(parts, spare); text == d.content && thinking == d.reasoning && calls == d.tools
  {
    hide Extend;
    text, thinking, calls := "", "", [];
    for i := 0 to |parts|
      invariant Summary(parts[..i], spare).content == text
      invariant Summary(parts[..i], spare).reasoning == thinking
      invariant Summary(parts[..i], spare).tools == calls
    {
      var p := parts[i];
      SummaryOfOneMore(parts[..i], p, spare);
      assert parts[..i + 1] == parts[..i] + [p];
      text, thinking, calls := CollectPart(p, Summary(parts[..i], spare), text, thinking, calls, spare);
    }
    assert parts[..|parts|] == parts;
  }

  /** One part in the collecting loop. */
  method CollectPart(p: Part, ghost d: Digest, text: string, thinking: string, calls: seq<Tool>, spare: nat -> string)
    returns (text': string, thinking': string, calls': seq<Tool>)
    requires text == d.content && thinking == d.reasoning && calls == d.tools
    ensures var e := Extend(d, p, spare); text' == e.content && thinking' == e.reasoning && calls' == e.tools
  {
    text', thinking', calls' := text, thinking, calls;
    if p.CallPart? {
      calls' := calls + [ToolOf(p.call, spare(|calls|))];
      return;
    }
    if p.TextPart? && p.text != "" {
      if p.IsThought() {
        thinking' := thinking + p.text;
      } else {
        text' := text + p.text;
      }
    }
    if p.MediaPart? {
      text' := text + p.markdown;
    }
  }

  method LastSignature(parts: seq<Part>, spare: nat -> string) returns (signature: string)
    ensures signature == Summary(parts, spare).signature
  {
    signature := "";
    for i := 0 to |parts|
      invariant Summary(parts[..i], spare).signature == signature
    {
      var p := parts[i];
      SummaryOfOneMore(parts[..i], p, spare);
      assert parts[..i + 1] == parts[..i] + [p];
      if p.sig != "" && !p.CallPart? {
        signature := p.sig;
      }
    }
    assert parts[..|parts|] == parts;
  }

  /** The choice a reader gets for one candidate of a complete response. */
  predicate Presents(choice: Choice, index: int, saved: Saved, spare: nat -> string) {
    && choice.index == index
    && choice.message.Reads() == Summary(saved.parts, spare)
    && choice.finish == OpenaiFinish(saved.finish.GetOr(""), Summary(saved.parts, spare).tools != [])
    && (choice.message.content.None? <==> choice.message.tools != [] && Summary(saved.parts, spare).content == "")
  }

  /** The finish reason of a converted choice, by its tools and the candidate's last reason. */
  lemma PresentedReason(choice: Choice, index: int, saved: Saved, spare: nat -> string)
    requires Presents(choice, index, saved, spare)
    ensures IsReason(choice.finish, saved.finish.GetOr(""), choice.message.tools != [])
  {
    hide IsReason, OpenaiFinish;
    ReasonByTools(saved.finish.GetOr(""), Summary(saved.parts, spare).tools != []);
  }

  /** The index that conversion gives to candidate `k`: its own, or its position when that is null. */
  function ShownIndex(candidates: seq<(int, Saved)>, k: nat): int
    requires k < |candidates|
  {
    if candidates[k].1.nulled then k else candidates[k].0
  }

  /** The choices are those of the candidates, one each in their order; None is a failure. */
  predicate PresentsAll(choices: Option<seq<Choice>>, candidates: seq<(int, Saved)>, spare: nat -> string) {
    && (choices.None? <==> candidates == [])
    && (choices.Some? ==>
          && |choices.value| == |candidates|
          && forall i | 0 <= i < |candidates| ::
               Presents(choices.value[i], ShownIndex(candidates, i), candidates[i].1, spare))
  }

  /** One candidate in the conversion loop. */
  method ChoiceOf(index: int, saved: Saved, spare: nat -> string) returns (choice: Choice)
    ensures Presents(choice, index, saved, spare)
  {
    var text, thinking, calls := CollectParts(saved.parts, spare);
    var signature := LastSignature(saved.parts, spare);
    var content := Some(text);
    if |calls| > 0 {
      if text == "" {
        content := None;
      }
    }
    choice := Choice(index, Message(content, thinking, signature, calls),
      OpenaiFinish(saved.finish.GetOr(""), |calls| > 0));
  }

  /** `GeminiToOpenAI` on a response that is no error itself. */
  method GeminiToOpenAI(body: Body, spare: nat -> string) returns (choices: Option<seq<Choice>>)
    ensures PresentsAll(choices, body.Shown(), spare)
  {
    hide Presents;
    var candidates := body.candidates;
    if body.response.Some? && body.response.value.Nested? {
      if body.response.value.fails {
        return None;
      }
      candidates := body.response.value.candidates;
    }
    var out := [];
    for k := 0 to |candidates|
      invariant |out| == k
      invariant forall i | 0 <= i < k :: Presents(out[i], ShownIndex(candidates, i), candidates[i].1, spare)
    {
      var index := k;
      if !candidates[k].1.nulled {
        index := candidates[k].0;
      }
      var choice := ChoiceOf(index, candidates[k].1, spare);
      out := out + [choice];
    }
    if |out| == 0 {
      return None;
    }
    return Some(out);
  }
}
