/**
 `WriteClaudeSSE`: the first candidate of each frame, rewritten as a Claude message stream. The
 writer never fails.
 */
module ClaudeStreams {
  import opened Wrappers
  import opened Text
  import opened Gemini
  import R = ToolRegistries

  datatype Kind = TextKind | ThinkingKind | ToolKind(id: string, name: string, sig: string)

  datatype Delta =
    | TextDelta(text: string)
    | ThinkingDelta(text: string)
    | SignatureDelta(sig: string)
    | JsonDelta(json: string)

  datatype Event =
    | MessageStart(usage: Option<string>)
    | BlockStart(index: nat, kind: Kind)
    | BlockDelta(index: nat, delta: Delta)
    | BlockStop(index: nat)
    | MessageDelta(stop: string, usage: Option<string>)
    | MessageStop
    | Error

  datatype Open = NoBlock | TextBlock | ThinkingBlock | ToolBlock

  datatype State = State(started: bool, index: nat, block: Open, pendingSig: string, usedTool: bool, finish: string,
                         usage: Option<string>, registry: R.Registry, events: seq<Event>)

  function Start(): State {
    State(false, 0, NoBlock, "", false, "", None, R.Empty(), [])
  }

  function Emit(s: State, e: Event): State {
    s.(events := s.events + [e])
  }

  function CloseBlock(s: State): State {
    if s.block.NoBlock? then s
    else
      var signed := if s.block.ThinkingBlock? && s.pendingSig != ""
                    then Emit(s, BlockDelta(s.index, SignatureDelta(s.pendingSig))).(pendingSig := "") else s;
      Emit(signed, BlockStop(s.index)).(index := s.index + 1, block := NoBlock)
  }

  function OpenOf(kind: Kind): Open {
    match kind
    case TextKind => TextBlock
    case ThinkingKind => ThinkingBlock
    case ToolKind(_, _, _) => ToolBlock
  }

  function StartBlock(s: State, kind: Kind): State {
    var closed := CloseBlock(s);
    Emit(closed, BlockStart(closed.index, kind)).(block := OpenOf(kind))
  }

  function EmitDelta(s: State, delta: Delta): State {
    Emit(s, BlockDelta(s.index, delta))
  }

  /** The block that a delta of this kind goes to, started if it is not the open one. */
  function Within(s: State, kind: Kind): State {
    if s.block == OpenOf(kind) then s else StartBlock(s, kind)
  }

  function TakeCall(s: State, call: FunctionCall, id: string, sig: string): State {
    CloseBlock(EmitDelta(StartBlock(s, ToolKind(id, call.name, sig)), JsonDelta(call.args))).(usedTool := true)
  }

  function TakeThought(s: State, thinking: string, sig: string): State {
    if thinking == "" && sig == "" then s
    else
      var inside := Within(s, ThinkingKind);
      var said := if thinking != "" then EmitDelta(inside, ThinkingDelta(thinking)) else inside;
      if sig != "" then said.(pendingSig := sig) else said
  }

  function TakeText(s: State, text: string, sig: string): State {
    if text != "" then EmitDelta(Within(s, TextKind), TextDelta(text))
    else if sig != "" && s.block.ThinkingBlock? then s.(pendingSig := sig)
    else s
  }

  function Take(s: State, part: Part, mint: nat -> string): Visited<State> {
    if part.CallPart? then
      var q := R.Request(0, part.call);
      var next := s.(registry := R.Prepared(s.registry, q, mint));
      match R.OutcomeOf(s.registry, q, mint)
      case Rejected => Visited(s, true)
      case Repeated(_) => Visited(next, false)
      case Accepted(id) => Visited(TakeCall(next, part.call, id, part.sig), false)
    else if part.IsThought() then Visited(TakeThought(s, part.Thinking(), part.sig), false)
    else Visited(TakeText(s, part.Content(), part.sig), false)
  }

  function TakeAll(s: State, parts: seq<Part>, mint: nat -> string): Visited<State> {
    if parts == [] then Visited(s, false)
    else
      var before := TakeAll(s, parts[..|parts| - 1], mint);
      if before.failed then before else Take(before.state, parts[|parts| - 1], mint)
  }

  function Begin(s: State, finish: string): State {
    var started := if s.started then s else Emit(s, MessageStart(s.usage)).(started := true);
    if finish != "" then started.(finish := finish) else started
  }

  function Visit(s: State, frame: Frame, mint: nat -> string): Visited<State> {
    var s := if frame.usage.Some? then s.(usage := frame.usage) else s;
    if frame.candidates == [] then Visited(s, false)
    else TakeAll(Begin(s, frame.candidates[0].Finish()), frame.candidates[0].Parts(), mint)
  }

  function Visitor(mint: nat -> string): (State, Frame) -> Visited<State> {
    (s: State, frame: Frame) => Visit(s, frame, mint)
  }

  function StopReason(usedTool: bool, finish: string): string {
    if usedTool then "tool_use" else if EqualFold(finish, "MAX_TOKENS") then "max_tokens" else "end_turn"
  }

  function Ending(s: State): seq<Event> {
    CloseBlock(s).events + [MessageDelta(StopReason(s.usedTool, s.finish), s.usage), MessageStop]
  }

  function Walked(source: Source, mint: nat -> string): Gemini.Walked<State> {
    Walk(Start(), Visitor(mint), source.frames, |source.frames|)
  }

  predicate Succeeds(source: Source, mint: nat -> string) {
    WalkSucceeds(Walked(source, mint), source)
  }

  /** Everything written for a source. */
  function Output(source: Source, mint: nat -> string): seq<Event> {
    var s := Walked(source, mint).state;
    if Succeeds(source, mint) then Ending(s) else s.events + [Error]
  }

  // ---- The writer in place ---------------------------------------------------------

  lemma {:induction false} TakeAllStops(s: State, parts: seq<Part>, n: nat, mint: nat -> string)
    requires n <= |parts| && TakeAll(s, parts[..n], mint).failed
    ensures TakeAll(s, parts, mint) == TakeAll(s, parts[..n], mint)
    decreases |parts| - n
  {
    if n == |parts| {
      assert parts[..n] == parts;
    } else {
      assert parts[..n + 1][..n] == parts[..n];
      TakeAllStops(s, parts, n + 1, mint);
    }
  }

  class Writer {
    var started: bool
    var index: nat
    var block: Open
    var pendingSig: string
    var usedTool: bool
    var finish: string
    var usage: Option<string>
    var events: seq<Event>
    const registry: R.ToolRegistry

    function Model(): State
      reads this, registry
    {
      State(started, index, block, pendingSig, usedTool, finish, usage, registry.Model(), events)
    }

    constructor ()
      ensures Model() == Start() && fresh(registry)
    {
      registry := new R.ToolRegistry();
      started, index, block, pendingSig, usedTool, finish, usage, events := false, 0, NoBlock, "", false, "", None, [];
    }

    method Close()
      modifies this
      ensures Model() == CloseBlock(old(Model()))
    {
      if block.NoBlock? {
        return;
      }
      if block.ThinkingBlock? && pendingSig != "" {
        events := events + [BlockDelta(index, SignatureDelta(pendingSig))];
        pendingSig := "";
      }
      events := events + [BlockStop(index)];
      index := index + 1;
      block := NoBlock;
    }

    method StartBlockOf(kind: Kind)
      modifies this
      ensures Model() == StartBlock(old(Model()), kind)
    {
      hide CloseBlock;
      Close();
      events := events + [BlockStart(index, kind)];
      block := OpenOf(kind);
    }

    method TakeFunctionCall(call: FunctionCall, id: string, sig: string)
      modifies this
      ensures Model() == TakeCall(old(Model()), call, id, sig)
    {
      hide CloseBlock, StartBlock;
      StartBlockOf(ToolKind(id, call.name, sig));
      events := events + [BlockDelta(index, JsonDelta(call.args))];
      Close();
      usedTool := true;
    }

    method TakeThinking(thinking: string, sig: string)
      modifies this
      ensures Model() == TakeThought(old(Model()), thinking, sig)
    {
      hide StartBlock;
      if thinking == "" && sig == "" {
        return;
      }
      if !block.ThinkingBlock? {
        StartBlockOf(ThinkingKind);
      }
      if thinking != "" {
        events := events + [BlockDelta(index, ThinkingDelta(thinking))];
      }
      if sig != "" {
        pendingSig := sig;
      }
    }

    method TakePart(part: Part, mint: nat -> string) returns (ok: bool)
      modifies this, registry
      ensures var v := Take(old(Model()), part, mint); ok == !v.failed && Model() == v.state
    {
      hide StartBlock, TakeCall, TakeThought;
      if part.CallPart? {
        var outcome := registry.Prepare(0, part.call, mint);
        match outcome {
          case Rejected => return false;
          case Repeated(_) => return true;
          case Accepted(id) =>
            TakeFunctionCall(part.call, id, part.sig);
            return true;
        }
      }
      if part.IsThought() {
        TakeThinking(part.Thinking(), part.sig);
        return true;
      }
      if part.Content() != "" {
        if !block.TextBlock? {
          StartBlockOf(TextKind);
        }
        events := events + [BlockDelta(index, TextDelta(part.Content()))];
      } else if part.sig != "" && block.ThinkingBlock? {
        pendingSig := part.sig;
      }
      return true;
    }

    method TakeParts(parts: seq<Part>, mint: nat -> string) returns (ok: bool)
      modifies this, registry
      ensures TakeAll(old(Model()), parts, mint) == Visited(Model(), !ok)
    {
      hide Take;
      ghost var start := Model();
      for j := 0 to |parts|
        invariant TakeAll(start, parts[..j], mint) == Visited(Model(), false)
      {
        assert parts[..j + 1][..j] == parts[..j];
        ok := TakePart(parts[j], mint);
        if !ok {
          TakeAllStops(start, parts, j + 1, mint);
          return false;
        }
      }
      assert parts[..|parts|] == parts;
      return true;
    }

    method VisitFrame(frame: Frame, mint: nat -> string) returns (ok: bool)
      modifies this, registry
      ensures Visit(old(Model()), frame, mint) == Visited(Model(), !ok)
    {
      hide TakeAll;
      if frame.usage.Some? {
        usage := frame.usage;
      }
      if frame.candidates == [] {
        return true;
      }
      var c := frame.candidates[0];
      if !started {
        events := events + [MessageStart(usage)];
        started := true;
      }
      if c.Finish() != "" {
        finish := c.Finish();
      }
      ok := TakeParts(c.Parts(), mint);
    }

    method Finish()
      modifies this
      ensures events == Ending(old(Model()))
    {
      hide CloseBlock;
      ghost var s := Model();
      var stop := "end_turn";
      if usedTool {
        stop := "tool_use";
      } else if EqualFold(finish, "MAX_TOKENS") {
        stop := "max_tokens";
      }
      var last := usage;
      Close();
      events := events + [MessageDelta(stop, last)];
      events := events + [MessageStop];
      assert events == Ending(s);
    }
  }

  /** The whole call: a fresh walker and a fresh writer over one source. */
  method Write(source: Source, mint: nat -> string) returns (events: seq<Event>, ok: bool)
    ensures events == Output(source, mint)
    ensures ok == Succeeds(source, mint)
  {
    hide Visit, Ending, Complete, Admitted;
    var walker := new Walker();
    var writer := new Writer();
    ghost var visit := Visitor(mint);
    for n := 0 to |source.frames|
      invariant fresh(walker) && fresh(writer) && fresh(writer.registry)
      invariant Walk(Start(), visit, source.frames, n) == Gemini.Walked(writer.Model(), walker.seen, false)
    {
      ok := walker.Admit(source.frames[n]);
      if ok {
        ok := writer.VisitFrame(source.frames[n], mint);
      }
      if !ok {
        FailureIsFinal(Start(), visit, source.frames, n + 1, |source.frames|);
        events := writer.events + [Error];
        return;
      }
    }
    if !source.ok || !Complete(walker.seen) {
      return writer.events + [Error], false;
    }
    writer.Finish();
    return writer.events, true;
  }
}
