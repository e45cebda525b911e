/**
 `WriteOpenAISSE`: a Gemini stream rewritten as OpenAI chunks.

 The writer never fails. A reader folds the chunks of one choice back into a message; it is
 Broken when the chunks do not form a well-shaped choice.
 */
module OpenAIStreams {
  import opened Wrappers
  import opened Sets
  import opened Gemini
  import opened OpenAIMessages
  import R = ToolRegistries

  datatype Delta =
    | RoleDelta
    | ToolDelta(position: nat, tool: Tool)
    | ReasoningDelta(text: string)
    | ContentDelta(text: string)
    | SignatureDelta(sig: string)

  datatype Event =
    | Chunk(index: int, delta: Delta)
    | Closing(index: int, reason: string)
    | Usage(usage: string)
    | Done
    | Error

  datatype ChoiceState = ChoiceState(toolIndex: nat, finish: string)

  datatype State = State(choices: map<int, ChoiceState>, registry: R.Registry, usage: Option<string>,
                         events: seq<Event>)
  {
    function ChoiceAt(index: int): ChoiceState {
      if index in choices then choices[index] else ChoiceState(0, "")
    }
  }

  function Start(): State {
    State(map[], R.Empty(), None, [])
  }

  /** The chunks of a part that is no call. */
  function PartChunks(index: int, part: Part): seq<Event> {
    (if part.Thinking() != "" then [Chunk(index, ReasoningDelta(part.Thinking()))] else [])
    + (if part.Content() != "" then [Chunk(index, ContentDelta(part.Content()))] else [])
    + (if part.sig != "" then [Chunk(index, SignatureDelta(part.sig))] else [])
  }

  function Opened(s: State, index: int, finish: Option<string>): State {
    var before := s.ChoiceAt(index);
    var choice := if finish.GetOr("") != "" then before.(finish := finish.value) else before;
    s.(choices := s.choices[index := choice],
       events := if index in s.choices then s.events else s.events + [Chunk(index, RoleDelta)])
  }

  function CallTaken(s: State, index: int, call: FunctionCall, id: string): State {
    var choice := s.ChoiceAt(index);
    s.(choices := s.choices[index := choice.(toolIndex := choice.toolIndex + 1)],
       events := s.events + [Chunk(index, ToolDelta(choice.toolIndex, Tool(id, call.name, call.args)))])
  }

  function Delivered(s: State, index: int, part: Part, mint: nat -> string): Visited<State> {
    if part.CallPart? then
      var q := R.Request(index, part.call);
      var next := s.(registry := R.Prepared(s.registry, q, mint));
      match R.OutcomeOf(s.registry, q, mint)
      case Rejected => Visited(s, true)
      case Repeated(_) => Visited(next, false)
      case Accepted(id) => Visited(CallTaken(next, index, part.call, id), false)
    else Visited(s.(events := s.events + PartChunks(index, part)), false)
  }

  function Act(s: State, a: Action, mint: nat -> string): Visited<State> {
    match a
    case Open(index, _, finish) => Visited(Opened(s, index, finish), false)
    case Deliver(index, part) => Delivered(s, index, part, mint)
  }

  /** The actions in order, up to the first failure. */
  function ActAll(s: State, actions: seq<Action>, mint: nat -> string): Visited<State> {
    if actions == [] then Visited(s, false)
    else
      var before := ActAll(s, actions[..|actions| - 1], mint);
      if before.failed then before else Act(before.state, actions[|actions| - 1], mint)
  }

  function WithUsage(s: State, frame: Frame): State {
    if frame.usage.Some? then s.(usage := frame.usage) else s
  }

  function Visit(s: State, frame: Frame, mint: nat -> string): Visited<State> {
    ActAll(WithUsage(s, frame), FrameActions(frame), mint)
  }

  function Visitor(mint: nat -> string): (State, Frame) -> Visited<State> {
    (s: State, frame: Frame) => Visit(s, frame, mint)
  }

  function ClosingAt(choices: map<int, ChoiceState>, index: int): Event {
    var choice := if index in choices then choices[index] else ChoiceState(0, "");
    Closing(index, OpenaiFinish(choice.finish, choice.toolIndex > 0))
  }

  function Closings(choices: map<int, ChoiceState>, indices: seq<int>): seq<Event> {
    if indices == [] then []
    else Closings(choices, indices[..|indices| - 1]) + [ClosingAt(choices, indices[|indices| - 1])]
  }

  function Ending(s: State): seq<Event> {
    Closings(s.choices, Ascending(s.choices.Keys)) + (if s.usage.Some? then [Usage(s.usage.value)] else []) + [Done]
  }

  function Walked(source: Source, mint: nat -> string): Gemini.Walked<State> {
    Walk(Start(), Visitor(mint), source.frames, |source.frames|)
  }

  predicate Succeeds(source: Source, mint: nat -> string) {
    WalkSucceeds(Walked(source, mint), source)
  }

  /** Everything written for a source. */
  function Output(source: Source, mint: nat -> string): seq<Event> {
    var s := Walked(source, mint).state;
    s.events + if Succeeds(source, mint) then Ending(s) else [Error]
  }

  // ---- The writer in place ---------------------------------------------------------

  lemma NothingActed(s: State, mint: nat -> string)
    ensures ActAll(s, [], mint) == Visited(s, false)
  {
  }

  lemma ActAllOfOneMore(s: State, actions: seq<Action>, a: Action, mint: nat -> string)
    ensures ActAll(s, actions + [a], mint)
         == var before := ActAll(s, actions, mint); if before.failed then before else Act(before.state, a, mint)
  {
    assert (actions + [a])[..|actions|] == actions;
  }

  lemma {:induction false} ActAllStops(s: State, actions: seq<Action>, more: seq<Action>, mint: nat -> string)
    requires ActAll(s, actions, mint).failed
    ensures ActAll(s, actions + more, mint) == ActAll(s, actions, mint)
  {
    if more == [] {
      assert actions + more == actions;
    } else {
      var front := more[..|more| - 1];
      ActAllStops(s, actions, front, mint);
      assert actions + more == (actions + front) + [more[|more| - 1]];
      ActAllOfOneMore(s, actions + front, more[|more| - 1], mint);
    }
  }

  lemma ClosingsOfOneMore(choices: map<int, ChoiceState>, indices: seq<int>, k: nat)
    requires k < |indices|
    ensures Closings(choices, indices[..k + 1]) == Closings(choices, indices[..k]) + [ClosingAt(choices, indices[k])]
  {
    assert indices[..k + 1][..k] == indices[..k];
  }

  class Writer {
    var choices: map<int, ChoiceState>
    var usage: Option<string>
    var events: seq<Event>
    const registry: R.ToolRegistry

    function Model(): State
      reads this, registry
    {
      State(choices, registry.Model(), usage, events)
    }

    constructor ()
      ensures Model() == Start() && fresh(registry)
    {
      registry := new R.ToolRegistry();
      choices, usage, events := map[], None, [];
    }

    method Begin(index: int, finish: Option<string>)
      modifies this
      ensures Model() == Opened(old(Model()), index, finish)
    {
      var known := index in choices;
      if !known {
        choices := choices[index := ChoiceState(0, "")];
      }
      if finish.GetOr("") != "" {
        choices := choices[index := choices[index].(finish := finish.value)];
      }
      if !known {
        events := events + [Chunk(index, RoleDelta)];
      }
    }

    method Take(index: int, part: Part, mint: nat -> string) returns (ok: bool)
      modifies this, registry
      ensures var v := Delivered(old(Model()), index, part, mint); ok == !v.failed && Model() == v.state
    {
      if part.CallPart? {
        var outcome := registry.Prepare(index, part.call, mint);
        match outcome {
          case Rejected => return false;
          case Repeated(_) => return true;
          case Accepted(id) =>
            var choice := if index in choices then choices[index] else ChoiceState(0, "");
            events := events + [Chunk(index, ToolDelta(choice.toolIndex, Tool(id, part.call.name, part.call.args)))];
            choices := choices[index := choice.(toolIndex := choice.toolIndex + 1)];
            return true;
        }
      }
      TakeText(index, part);
      return true;
    }

    method TakeText(index: int, part: Part)
      modifies this
      ensures Model() == old(Model()).(events := old(events) + PartChunks(index, part))
    {
      if part.Thinking() != "" {
        events := events + [Chunk(index, ReasoningDelta(part.Thinking()))];
      }
      if part.Content() != "" {
        events := events + [Chunk(index, ContentDelta(part.Content()))];
      }
      if part.sig != "" {
        events := events + [Chunk(index, SignatureDelta(part.sig))];
      }
    }

    method TakeParts(index: int, parts: seq<Part>, mint: nat -> string, ghost start: State, ghost done: seq<Action>)
      returns (ok: bool)
      requires ActAll(start, done, mint) == Visited(Model(), false)
      modifies this, registry
      ensures ActAll(start, done + Deliveries(index, parts, |parts|), mint) == Visited(Model(), !ok)
    {
      hide Delivered, FrameActions, Actions, CandidateActions, ActAll;
      assert done + Deliveries(index, parts, 0) == done;
      for j := 0 to |parts|
        invariant ActAll(start, done + Deliveries(index, parts, j), mint) == Visited(Model(), false)
      {
        ok := Take(index, parts[j], mint);
        ghost var upTo := done + Deliveries(index, parts, j);
        ActAllOfOneMore(start, upTo, Deliver(index, parts[j]), mint);
        assert done + Deliveries(index, parts, j + 1) == upTo + [Deliver(index, parts[j])];
        if !ok {
          ghost var rest := DeliveriesSplit(index, parts, j + 1, |parts|);
          ActAllStops(start, upTo + [Deliver(index, parts[j])], rest, mint);
          assert done + Deliveries(index, parts, |parts|) == (upTo + [Deliver(index, parts[j])]) + rest;
          return false;
        }
      }
      return true;
    }

    method TakeCandidate(c: Candidate, i: nat, mint: nat -> string, ghost start: State, ghost done: seq<Action>)
      returns (ok: bool)
      requires ActAll(start, done, mint) == Visited(Model(), false)
      modifies this, registry
      ensures ActAll(start, (done + [OpeningOf(c, i)]) + Deliveries(c.Index(i), c.Parts(), |c.Parts()|), mint)
        == Visited(Model(), !ok)
    {
      hide Opened, Delivered, Deliveries;
      Begin(c.Index(i), OpeningOf(c, i).finish);
      ActAllOfOneMore(start, done, OpeningOf(c, i), mint);
      ok := TakeParts(c.Index(i), c.Parts(), mint, start, done + [OpeningOf(c, i)]);
    }

    method VisitFrame(frame: Frame, mint: nat -> string) returns (ok: bool)
      modifies this, registry
      ensures Visit(old(Model()), frame, mint) == Visited(Model(), !ok)
    {
      hide Opened, Delivered, CandidateActions, ActAll, OpeningOf, Deliveries;
      if frame.usage.Some? {
        usage := frame.usage;
      }
      ghost var start := Model();
      assert start == WithUsage(old(Model()), frame);
      NothingActed(start, mint);
      for i := 0 to |frame.candidates|
        invariant ActAll(start, Actions(frame.candidates, i), mint) == Visited(Model(), false)
      {
        ok := TakeCandidate(frame.candidates[i], i, mint, start, Actions(frame.candidates, i));
        OneMoreCandidate(frame.candidates, i);
        if !ok {
          ghost var rest := ActionsSplit(frame.candidates, i + 1, |frame.candidates|);
          ActAllStops(start, Actions(frame.candidates, i + 1), rest, mint);
          return false;
        }
      }
      return true;
    }

    method CloseAll(indices: seq<int>)
      modifies this`events
      ensures events == old(events) + Closings(choices, indices)
    {
      hide OpenaiFinish;
      for k := 0 to |indices|
        invariant events == old(events) + Closings(choices, indices[..k])
      {
        var choice := if indices[k] in choices then choices[indices[k]] else ChoiceState(0, "");
        events := events + [Closing(indices[k], OpenaiFinish(choice.finish, choice.toolIndex > 0))];
        ClosingsOfOneMore(choices, indices, k);
      }
      assert indices[..|indices|] == indices;
    }

    method Finish()
      modifies this`events
      ensures events == old(events) + Ending(old(Model()))
    {
      hide Closings;
      CloseAll(Ascending(choices.Keys));
      if usage.Some? {
        events := events + [Usage(usage.value)];
      }
      events := events + [Done];
    }
  }

  /** The whole call: a fresh walker and a fresh writer over one source. */
  method Write(source: Source, mint: nat -> string) returns (events: seq<Event>, ok: bool)
    ensures events == Output(source, mint)
    ensures ok == Succeeds(source, mint)
  {
    hide Visit, Ending, Complete, Admitted;
    var walker := new Walker();
    var writer := new Writer();
    ghost var visit := Visitor(mint);
    for n := 0 to |source.frames|
      invariant fresh(walker) && fresh(writer) && fresh(writer.registry)
      invariant Walk(Start(), visit, source.frames, n) == Gemini.Walked(writer.Model(), walker.seen, false)
    {
      ok := walker.Admit(source.frames[n]);
      if ok {
        ok := writer.VisitFrame(source.frames[n], mint);
      }
      if !ok {
        FailureIsFinal(Start(), visit, source.frames, n + 1, |source.frames|);
        events := writer.events + [Error];
        return;
      }
    }
    if !source.ok || !Complete(walker.seen) {
      return writer.events + [Error], false;
    }
    writer.Finish();
    return writer.events, true;
  }
}
